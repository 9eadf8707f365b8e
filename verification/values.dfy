/** The parsed YAML/JSON values the configuration and the requests are made
    of, with the Python behaviours the core relies on: truthiness, using a
    value as a key of a string-keyed mapping, and `str()` of a scalar. */
module Values {
  import opened Dicts

  /** Floating-point numbers are not modelled. Mapping keys are strings. */
  datatype Value =
    | Null
    | Bool(b: bool)
    | Int(i: int)
    | Str(s: string)
    | List(items: seq<Value>)
    | Map(entries: Dict<Value>)

  /** Python's `bool(v)`: `None`, `False`, `0` and empty containers are false. */
  predicate Truthy(v: Value)
  {
    match v
    case Null => false
    case Bool(b) => b
    case Int(i) => i != 0
    case Str(s) => s != ""
    case List(items) => items != []
    case Map(entries) => entries != []
  }

  /** Every mapping, at every depth, has distinct keys, as a parsed document does. */
  predicate WellFormed(v: Value)
    decreases v
  {
    match v
    case List(items) => forall i :: 0 <= i < |items| ==> WellFormed(items[i])
    case Map(entries) =>
      && UniqueKeys(entries)
      && forall i :: 0 <= i < |entries| ==> WellFormed(entries[i].1)
    case _ => true
  }

  /** What `d.get(key)` (or `key in d`) does on a string-keyed mapping. */
  datatype Access = Hit(value: Value) | Miss | Raises(message: string)

  function UnhashableMessage(key: Value): string
  {
    if key.List? then "unhashable type: 'list'" else "unhashable type: 'dict'"
  }

  /** A string finds its entry; a list or mapping cannot be hashed and raises
      `TypeError`; any other scalar equals no string key and misses. */
  function Get(d: Dict<Value>, key: Value): (r: Access)
    ensures r.Raises? <==> key.List? || key.Map?
    ensures r.Hit? <==> key.Str? && HasKey(d, key.s)
    ensures r.Hit? ==> Lookup(d, key.s) == Some(r.value)
  {
    match key
    case Str(k) =>
      (match Lookup(d, k)
       case Some(v) => Hit(v)
       case None => Miss)
    case List(_) => Raises(UnhashableMessage(key))
    case Map(_) => Raises(UnhashableMessage(key))
    case _ => Miss
  }

  /** `d.get(k, default)` for a string key. */
  function GetOr(d: Dict<Value>, k: string, default: Value): (r: Value)
    ensures HasKey(d, k) ==> Some(r) == Lookup(d, k)
    ensures !HasKey(d, k) ==> r == default
  {
    Lookup(d, k).GetOr(default)
  }

  predicate IsDigit(c: char)
  {
    '0' <= c <= '9'
  }

  function DigitChar(n: nat): (c: char)
    requires n < 10
    ensures IsDigit(c)
  {
    ['0', '1', '2', '3', '4', '5', '6', '7', '8', '9'][n]
  }

  function DigitValue(c: char): (n: nat)
    requires IsDigit(c)
    ensures n < 10
  {
    (c as int - '0' as int) as nat
  }

  /** Decimal digits of `n`, most significant first, as `str(n)` prints them. */
  function Decimal(n: nat): (s: string)
    ensures s != []
    ensures forall i :: 0 <= i < |s| ==> IsDigit(s[i])
    ensures |s| > 1 ==> s[0] != '0'
  {
    if n < 10 then [DigitChar(n)] else Decimal(n / 10) + [DigitChar(n % 10)]
  }

  /** The number a string of decimal digits denotes. */
  function ParseDecimal(s: string): nat
    requires forall i :: 0 <= i < |s| ==> IsDigit(s[i])
  {
    if s == [] then 0 else 10 * ParseDecimal(s[..|s| - 1]) + DigitValue(s[|s| - 1])
  }

  lemma DigitRoundTrip(n: nat)
    requires n < 10
    ensures DigitValue(DigitChar(n)) == n
  {
  }

  /** Reading back what `Decimal` wrote gives the number again. */
  lemma {:induction false} DecimalRoundTrip(n: nat)
    ensures ParseDecimal(Decimal(n)) == n
  {
    var s := Decimal(n);
    DigitRoundTrip(n % 10);
    if n >= 10 {
      DecimalRoundTrip(n / 10);
      assert s[..|s| - 1] == Decimal(n / 10);
    }
  }

  /** Python's `str(v)` for a scalar. */
  function Show(v: Value): string
    requires !v.List? && !v.Map?
  {
    match v
    case Null => "None"
    case Bool(b) => if b then "True" else "False"
    case Int(i) => if i < 0 then "-" + Decimal(-i) else Decimal(i)
    case Str(s) => s
  }

  /** Python's name for the type of a value, as error messages print it. */
  function TypeName(v: Value): string
  {
    match v
    case Null => "NoneType"
    case Bool(_) => "bool"
    case Int(_) => "int"
    case Str(_) => "str"
    case List(_) => "list"
    case Map(_) => "dict"
  }

  /** The message of the `AttributeError` raised by calling a mapping method
      on something that is not a mapping. */
  function NoAttribute(v: Value, attribute: string): string
  {
    "'" + TypeName(v) + "' object has no attribute '" + attribute + "'"
  }

  /** A call that either returns a value or raises an exception whose
      message is kept. */
  datatype Result<+T> = Ok(value: T) | Exception(message: string)

  lemma LookupWellFormed(d: Dict<Value>, k: string)
    requires WellFormed(Map(d))
    requires HasKey(d, k)
    ensures WellFormed(Lookup(d, k).value)
  {
    var i := Find(d, k);
    assert d[i].1 == Lookup(d, k).value;
  }
}
