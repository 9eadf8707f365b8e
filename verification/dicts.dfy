/** Python dictionaries, which keep insertion order, modelled as association
    lists. A parsed document never repeats a key (`UniqueKeys`); the
    operations below keep that invariant. */
module Dicts {

  datatype Option<+T> = None | Some(value: T) {
    function GetOr(default: T): T
    {
      match this
      case Some(v) => v
      case None => default
    }
  }

  type Dict<V> = seq<(string, V)>

  /** The keys in insertion order. */
  function Keys<V>(d: Dict<V>): (ks: seq<string>)
    ensures |ks| == |d|
    ensures forall i :: 0 <= i < |d| ==> ks[i] == d[i].0
  {
    if d == [] then [] else [d[0].0] + Keys(d[1..])
  }

  predicate HasKey<V>(d: Dict<V>, k: string)
  {
    exists i :: 0 <= i < |d| && d[i].0 == k
  }

  predicate UniqueKeys<V>(d: Dict<V>)
  {
    forall i, j :: 0 <= i < j < |d| ==> d[i].0 != d[j].0
  }

  /** Position of the first entry with key `k`, or `|d|` when there is none. */
  function Find<V>(d: Dict<V>, k: string): (i: nat)
    ensures i <= |d|
    ensures forall j :: 0 <= j < i ==> d[j].0 != k
    ensures i < |d| ==> d[i].0 == k
    ensures i == |d| <==> !HasKey(d, k)
  {
    if d == [] then 0
    else if d[0].0 == k then 0
    else 1 + Find(d[1..], k)
  }

  /** `d.get(k)` */
  function Lookup<V>(d: Dict<V>, k: string): (r: Option<V>)
    ensures r.Some? <==> HasKey(d, k)
  {
    var i := Find(d, k);
    if i < |d| then Some(d[i].1) else None
  }

  /** `Find` is pinned down by its contract: the first position holding `k`. */
  lemma FindIs<V>(d: Dict<V>, k: string, i: nat)
    requires i <= |d|
    requires forall j :: 0 <= j < i ==> d[j].0 != k
    requires i < |d| ==> d[i].0 == k
    requires i == |d| ==> !HasKey(d, k)
    ensures Find(d, k) == i
  {
  }

  lemma LookupAt<V>(d: Dict<V>, i: nat)
    requires UniqueKeys(d)
    requires i < |d|
    ensures Lookup(d, d[i].0) == Some(d[i].1)
  {
    FindIs(d, d[i].0, i);
  }

  /** `d[k] = v`: an existing key keeps its position, a new key goes last. */
  function Put<V>(d: Dict<V>, k: string, v: V): (r: Dict<V>)
    ensures Lookup(r, k) == Some(v)
    ensures forall k' :: k' != k ==> Lookup(r, k') == Lookup(d, k')
    ensures HasKey(d, k) ==> Keys(r) == Keys(d)
    ensures !HasKey(d, k) ==> Keys(r) == Keys(d) + [k]
    ensures UniqueKeys(d) ==> UniqueKeys(r)
  {
    var i := Find(d, k);
    var r := if i < |d| then d[i := (k, v)] else d + [(k, v)];
    PutKey(d, k, v, i, r);
    PutOthers(d, k, v, i, r);
    PutKeys(d, k, v, i, r);
    r
  }

  lemma PutKeys<V>(d: Dict<V>, k: string, v: V, i: nat, r: Dict<V>)
    requires i == Find(d, k)
    requires r == if i < |d| then d[i := (k, v)] else d + [(k, v)]
    ensures HasKey(d, k) ==> Keys(r) == Keys(d)
    ensures !HasKey(d, k) ==> Keys(r) == Keys(d) + [k]
  {
    if i < |d| {
      assert forall j :: 0 <= j < |r| ==> Keys(r)[j] == Keys(d)[j];
      assert Keys(r) == Keys(d);
    } else {
      var expected := Keys(d) + [k];
      assert forall j :: 0 <= j < |r| ==> Keys(r)[j] == expected[j];
      assert Keys(r) == expected;
      assert !HasKey(d, k);
    }
  }

  lemma PutKey<V>(d: Dict<V>, k: string, v: V, i: nat, r: Dict<V>)
    requires i == Find(d, k)
    requires r == if i < |d| then d[i := (k, v)] else d + [(k, v)]
    ensures Lookup(r, k) == Some(v)
    ensures UniqueKeys(d) ==> UniqueKeys(r)
  {
    FindIs(r, k, i);
  }

  lemma PutOthers<V>(d: Dict<V>, k: string, v: V, i: nat, r: Dict<V>)
    requires i == Find(d, k)
    requires r == if i < |d| then d[i := (k, v)] else d + [(k, v)]
    ensures forall k' :: k' != k ==> Lookup(r, k') == Lookup(d, k')
  {
    forall k' | k' != k
      ensures Lookup(r, k') == Lookup(d, k')
    {
      var f := Find(d, k');
      if f < |d| {
        assert f != i;
        FindIs(r, k', f);
      } else {
        assert forall j :: 0 <= j < |r| ==> r[j].0 != k';
      }
    }
  }

  /** `d.update(e)`: every entry of `e` is put into `d` in `e`'s order. */
  function Update<V>(d: Dict<V>, e: Dict<V>): (r: Dict<V>)
    decreases |e|
  {
    if e == [] then d else Update(Put(d, e[0].0, e[0].1), e[1..])
  }

  /** After `d.update(e)` a key of `e` maps to `e`'s value, every other key to
      `d`'s; `d`'s keys keep their order at the front. */
  lemma UpdateLookup<V>(d: Dict<V>, e: Dict<V>)
    requires UniqueKeys(e)
    ensures forall k :: Lookup(Update(d, e), k) == (if HasKey(e, k) then Lookup(e, k) else Lookup(d, k))
    ensures UniqueKeys(d) ==> UniqueKeys(Update(d, e))
    ensures Keys(d) <= Keys(Update(d, e))
  {
    UpdateValues(d, e);
    UpdateKeys(d, e);
  }

  lemma {:induction false} UpdateValues<V>(d: Dict<V>, e: Dict<V>)
    requires UniqueKeys(e)
    ensures forall k :: Lookup(Update(d, e), k) == (if HasKey(e, k) then Lookup(e, k) else Lookup(d, k))
    decreases |e|
  {
    if e != [] {
      var d' := Put(d, e[0].0, e[0].1);
      var t := e[1..];
      TailKeys(e);
      UpdateValues(d', t);
      assert Update(d, e) == Update(d', t);
      forall k
        ensures Lookup(Update(d, e), k) ==
          (if HasKey(e, k) then Lookup(e, k) else Lookup(d, k))
      {
        UpdateValuesStep(d, e, k);
      }
    }
  }

  /** One key in one step of `UpdateValues`. */
  lemma UpdateValuesStep<V>(d: Dict<V>, e: Dict<V>, k: string)
    requires e != [] && UniqueKeys(e)
    requires Lookup(Update(Put(d, e[0].0, e[0].1), e[1..]), k) ==
      (if HasKey(e[1..], k) then Lookup(e[1..], k) else Lookup(Put(d, e[0].0, e[0].1), k))
    ensures Lookup(Update(Put(d, e[0].0, e[0].1), e[1..]), k) ==
      (if HasKey(e, k) then Lookup(e, k) else Lookup(d, k))
  {
    TailKeys(e);
    HeadTail(e, k);
  }

  /** A key is the first entry's, or is looked up among the rest. */
  lemma HeadTail<V>(d: Dict<V>, k: string)
    requires d != []
    ensures HasKey(d, k) <==> k == d[0].0 || HasKey(d[1..], k)
    ensures Lookup(d, k) == if k == d[0].0 then Some(d[0].1) else Lookup(d[1..], k)
  {
    if HasKey(d[1..], k) {
      var j :| 0 <= j < |d[1..]| && d[1..][j].0 == k;
      assert d[j + 1].0 == k;
    }
    if HasKey(d, k) && k != d[0].0 {
      var j :| 0 <= j < |d| && d[j].0 == k;
      assert d[1..][j - 1].0 == k;
    }
  }

  lemma {:induction false} UpdateKeys<V>(d: Dict<V>, e: Dict<V>)
    ensures UniqueKeys(d) ==> UniqueKeys(Update(d, e))
    ensures Keys(d) <= Keys(Update(d, e))
    decreases |e|
  {
    if e != [] {
      var d' := Put(d, e[0].0, e[0].1);
      UpdateKeys(d', e[1..]);
      assert Keys(d) <= Keys(d');
    }
  }

  lemma HasKeyIff<V>(d: Dict<V>, k: string)
    ensures HasKey(d, k) <==> k in Keys(d)
  {
    if k in Keys(d) {
      var i :| 0 <= i < |Keys(d)| && Keys(d)[i] == k;
      assert d[i].0 == k;
    }
  }

  lemma ConsHasKey<V>(k0: string, v0: V, rest: Dict<V>, k: string)
    ensures HasKey([(k0, v0)] + rest, k) <==> k == k0 || HasKey(rest, k)
  {
    var r := [(k0, v0)] + rest;
    assert r[0].0 == k0;
    if HasKey(rest, k) {
      var j :| 0 <= j < |rest| && rest[j].0 == k;
      assert r[j + 1].0 == k;
    }
    if HasKey(r, k) && k != k0 {
      var j :| 0 <= j < |r| && r[j].0 == k;
      assert rest[j - 1].0 == k;
    }
  }

  lemma ConsLookup<V>(k0: string, v0: V, rest: Dict<V>, k: string)
    ensures Lookup([(k0, v0)] + rest, k) == if k == k0 then Some(v0) else Lookup(rest, k)
  {
    var r := [(k0, v0)] + rest;
    assert r[1..] == rest;
  }

  lemma ConsUnique<V>(k0: string, v0: V, rest: Dict<V>)
    requires UniqueKeys(rest)
    requires !HasKey(rest, k0)
    ensures UniqueKeys([(k0, v0)] + rest)
  {
    var r := [(k0, v0)] + rest;
    forall a, b | 0 <= a < b < |r|
      ensures r[a].0 != r[b].0
    {
      assert r[b] == rest[b - 1];
      if a > 0 {
        assert r[a] == rest[a - 1];
      }
    }
  }

  /** The entries after the first: their keys are keys of the whole, and with
      distinct keys the first key does not recur among them. */
  lemma TailKeys<V>(d: Dict<V>)
    requires d != []
    ensures forall k :: HasKey(d[1..], k) ==> HasKey(d, k)
    ensures UniqueKeys(d) ==> UniqueKeys(d[1..]) && !HasKey(d[1..], d[0].0)
  {
    var t := d[1..];
    assert forall m :: 0 <= m < |t| ==> t[m] == d[m + 1];
  }

  /** A key listed is the first entry's or one listed after it. */
  lemma KeysHead<V>(d: Dict<V>)
    requires d != []
    ensures forall x :: x in Keys(d) <==> x == d[0].0 || x in Keys(d[1..])
  {
    assert Keys(d) == [d[0].0] + Keys(d[1..]);
  }

  /** Looking a key up in two lists joined end to end finds it in the first
      when it is there. */
  lemma LookupConcat<V>(a: Dict<V>, b: Dict<V>, k: string)
    ensures Lookup(a + b, k) == if HasKey(a, k) then Lookup(a, k) else Lookup(b, k)
    ensures HasKey(a + b, k) <==> HasKey(a, k) || HasKey(b, k)
  {
    var c := a + b;
    assert forall i :: 0 <= i < |a| ==> c[i] == a[i];
    assert forall i :: 0 <= i < |b| ==> c[|a| + i] == b[i];
    if HasKey(a, k) {
      FindIs(c, k, Find(a, k));
    } else if HasKey(b, k) {
      FindIs(c, k, |a| + Find(b, k));
    } else {
      assert forall i :: 0 <= i < |c| ==> c[i].0 != k by {
        forall i | 0 <= i < |c|
          ensures c[i].0 != k
        {
          if i >= |a| {
            assert c[i] == b[i - |a|];
          }
        }
      }
    }
  }

  /** `del d[k]`: the entry for `k` goes, the others keep their order. */
  function Remove<V>(d: Dict<V>, k: string): (r: Dict<V>)
    ensures !HasKey(r, k)
    ensures forall k' :: k' != k ==> Lookup(r, k') == Lookup(d, k')
    ensures forall k' :: HasKey(r, k') <==> k' != k && HasKey(d, k')
    ensures UniqueKeys(d) ==> UniqueKeys(r)
    decreases |d|
  {
    if d == [] then []
    else
      var rest := Remove(d[1..], k);
      assert d == [d[0]] + d[1..];
      ConsAll(d[0].0, d[0].1, d[1..]);
      if d[0].0 == k then
        TailKeys(d);
        rest
      else
        ConsAll(d[0].0, d[0].1, rest);
        if UniqueKeys(d) then
          TailKeys(d);
          ConsUnique(d[0].0, d[0].1, rest);
          [d[0]] + rest
        else
          [d[0]] + rest
  }

  /** `ConsHasKey` and `ConsLookup` for every key at once. */
  lemma ConsAll<V>(k0: string, v0: V, rest: Dict<V>)
    ensures forall k :: HasKey([(k0, v0)] + rest, k) <==> k == k0 || HasKey(rest, k)
    ensures forall k :: Lookup([(k0, v0)] + rest, k) == if k == k0 then Some(v0) else Lookup(rest, k)
  {
    forall k
      ensures HasKey([(k0, v0)] + rest, k) <==> k == k0 || HasKey(rest, k)
      ensures Lookup([(k0, v0)] + rest, k) == if k == k0 then Some(v0) else Lookup(rest, k)
    {
      ConsHasKey(k0, v0, rest, k);
      ConsLookup(k0, v0, rest, k);
    }
  }

  /** A dictionary without keys is empty. */
  lemma NoKeysEmpty<V>(d: Dict<V>)
    requires forall k :: !HasKey(d, k)
    ensures d == []
  {
    if d != [] {
      assert HasKey(d, d[0].0);
    }
  }
}
