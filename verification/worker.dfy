/** The browser worker of `BrowserManager`: the status table it owns, the
    session registry, and the handling of one command. The automation
    driver is an oracle: `Driver` says what the n-th driver interaction
    answers, and the state counts interactions in `tick`. */
module Worker {
  import opened Dicts
  import opened Values
  import opened Catalogs

  datatype Status = Stopped | Connecting | Online | Error | Offline | Closed

  /** A registered page; the model keeps only whether it has been closed. */
  datatype Page = Page(closed: bool)

  /** `created` counts browsing contexts created, `released` registered
      sessions closed before being replaced, and `leaked` contexts created
      whose page could not be made (never registered, never closed). `log`
      is every notification handed to the status callback, in order. */
  datatype State = State(
    statuses: map<SysId, Status>,
    pages: map<SysId, Page>,
    log: seq<(SysId, Status)>,
    created: nat,
    released: nat,
    leaked: nat,
    tick: nat)

  /** What creating a session does: `new_context` raises, `new_page` raises,
      or both succeed and `goto` then loads the page or fails. */
  datatype Creation = ContextFails | PageFails | Created(navigated: bool)

  /** `is_closed()` returns (the page's recorded state) or raises. */
  datatype Probe = Reports | ProbeRaises(message: string)

  /** `evaluate(js)` returns or raises. */
  datatype Evaluation = Evaluated | EvalRaises(message: string)

  datatype Driver = Driver(create: nat -> Creation, probe: nat -> Probe, eval: nat -> Evaluation)

  const Initial: State := State(map[], map[], [], 0, 0, 0, 0)

  /** Every context ever created is registered, released or leaked, and
      every registered id has a status. */
  ghost predicate Sessions(s: State)
  {
    && s.created == s.released + |s.pages| + s.leaked
    && s.pages.Keys <= s.statuses.Keys
  }

  /** The states a session ends up in once `init_system` returns. */
  predicate Settled(st: Status)
  {
    st == Online || st == Error
  }

  /** `_update_status`: store the value and notify, unless it is already the
      stored one. */
  function UpdateStatus(s: State, id: SysId, st: Status): (r: State)
    ensures r.statuses == s.statuses[id := st]
    ensures r.log == if id in s.statuses && s.statuses[id] == st then s.log else s.log + [(id, st)]
    ensures r.pages == s.pages && r.tick == s.tick
    ensures r.created == s.created && r.released == s.released && r.leaked == s.leaked
  {
    if id in s.statuses && s.statuses[id] == st then s
    else s.(statuses := s.statuses[id := st], log := s.log + [(id, st)])
  }

  /** Writing the value that is already stored changes nothing; writing a
      new one stores it and appends exactly one notification for it. */
  lemma UpdateStatusNotifiesOnChange(s: State, id: SysId, st: Status)
    ensures id in s.statuses && s.statuses[id] == st ==> UpdateStatus(s, id, st) == s
    ensures !(id in s.statuses && s.statuses[id] == st) ==>
      |UpdateStatus(s, id, st).log| == |s.log| + 1 && UpdateStatus(s, id, st).log[|s.log|] == (id, st)
    ensures UpdateStatus(UpdateStatus(s, id, st), id, st) == UpdateStatus(s, id, st)
  {
  }

  /** Close and forget the session registered for `id`, if any. Errors from
      `close()` are swallowed, so the release always happens. Listener
      events are taken only in the pump phase, so the closed page's `close`
      listener is not run here. */
  function Release(s: State, id: SysId): (r: State)
    ensures id !in r.pages
    ensures r.pages == s.pages - {id}
    ensures r.released == if id in s.pages then s.released + 1 else s.released
    ensures r.statuses == s.statuses && r.created == s.created && r.leaked == s.leaked
  {
    if id in s.pages then s.(pages := s.pages - {id}, released := s.released + 1) else s
  }

  /** `init_system`: replace the session for `id` with a fresh one. The second
      component is what the call returns. A descriptor without `name` makes
      the progress message raise `KeyError` before the driver is asked. */
  function InitSystem(s: State, d: Driver, id: SysId, desc: Descriptor): (r: (State, bool))
    ensures r.1 <==> HasKey(desc, "name") && d.create(s.tick).Created?
    ensures id in r.0.statuses
    ensures r.1 ==> id in r.0.pages && r.0.pages[id] == Page(false)
    ensures r.1 ==> r.0.statuses[id] == if d.create(s.tick).navigated then Online else Error
    ensures !r.1 ==> id !in r.0.pages && r.0.statuses[id] == Error
    ensures r.0.statuses == s.statuses[id := r.0.statuses[id]]
    ensures r.0.pages - {id} == s.pages - {id}
    ensures r.0.released == if id in s.pages then s.released + 1 else s.released
    ensures r.0.created + s.leaked == s.created + r.0.leaked + (if r.1 then 1 else 0)
    ensures r.0.tick == s.tick + (if HasKey(desc, "name") then 1 else 0)
  {
    var s1 := UpdateStatus(Release(s, id), id, Connecting);
    if !HasKey(desc, "name") then (UpdateStatus(s1, id, Error), false) else Create(s1, d, id)
  }

  /** `init_system` keeps the session accounting balanced: the old session
      is released before the new one is registered. */
  lemma InitSystemKeepsSessions(s: State, d: Driver, id: SysId, desc: Descriptor)
    ensures Sessions(s) ==> Sessions(InitSystem(s, d, id, desc).0)
  {
    var r := InitSystem(s, d, id, desc);
    CardinalityAfterInit(s.pages, id, r.0.pages);
  }

  lemma CardinalityAfterInit(before: map<SysId, Page>, id: SysId, after: map<SysId, Page>)
    requires after - {id} == before - {id}
    ensures |after| + (if id in before then 1 else 0) == |before| + (if id in after then 1 else 0)
  {
    var rest := (before - {id}).Keys;
    CardinalityWithout(before, id);
    CardinalityWithout(after, id);
    assert (after - {id}).Keys == rest;
  }

  lemma CardinalityWithout(m: map<SysId, Page>, id: SysId)
    ensures |m| == |(m - {id}).Keys| + (if id in m then 1 else 0)
  {
    var rest := (m - {id}).Keys;
    assert |m| == |m.Keys|;
    if id in m {
      assert m.Keys == rest + {id};
    } else {
      assert m.Keys == rest;
    }
  }

  /** From `new_context` on, for an id with no registered session. */
  function Create(s: State, d: Driver, id: SysId): (r: (State, bool))
    requires id !in s.pages
    ensures r.1 <==> d.create(s.tick).Created?
    ensures r.1 ==> r.0.pages == s.pages[id := Page(false)]
    ensures r.1 ==> r.0.statuses == s.statuses[id := if d.create(s.tick).navigated then Online else Error]
    ensures !r.1 ==> r.0.pages == s.pages && r.0.statuses == s.statuses[id := Error]
    ensures r.0.released == s.released
    ensures r.0.created == s.created + (if d.create(s.tick).ContextFails? then 0 else 1)
    ensures r.0.leaked == s.leaked + (if d.create(s.tick).PageFails? then 1 else 0)
    ensures s.log <= r.0.log
    ensures forall i :: |s.log| <= i < |r.0.log| ==> r.0.log[i].0 == id
    ensures r.0.tick == s.tick + 1
  {
    var s2 := s.(tick := s.tick + 1);
    match d.create(s.tick)
    case ContextFails => (UpdateStatus(s2, id, Error), false)
    case PageFails =>
      (UpdateStatus(s2.(created := s2.created + 1, leaked := s2.leaked + 1), id, Error), false)
    case Created(navigated) =>
      var s3 := UpdateStatus(s2.(created := s2.created + 1), id, if navigated then Online else Error);
      (s3.(pages := s3.pages[id := Page(false)]), true)
  }

  /** `init_system` notifies only about `id`, and only appends to the log. */
  lemma InitSystemLog(s: State, d: Driver, id: SysId, desc: Descriptor)
    ensures s.log <= InitSystem(s, d, id, desc).0.log
    ensures forall i :: |s.log| <= i < |InitSystem(s, d, id, desc).0.log| ==> InitSystem(s, d, id, desc).0.log[i].0 == id
  {
  }

  /** The startup loop from state `s` over `entries`: each id is first set to
      `STOPPED` directly (no notification), then initialised. */
  function StartFrom(s: State, d: Driver, entries: seq<(SysId, Descriptor)>): (r: State)
    decreases |entries|
    ensures forall x :: x in r.statuses <==> x in s.statuses || x in Keys(entries)
    ensures forall x :: x in Keys(entries) ==> Settled(r.statuses[x])
    ensures forall x :: x in s.statuses && x !in Keys(entries) ==> r.statuses[x] == s.statuses[x]
    ensures Sessions(s) ==> Sessions(r)
  {
    if entries == [] then s
    else
      var (id, desc) := entries[0];
      var s0 := s.(statuses := s.statuses[id := Stopped]);
      var s1 := InitSystem(s0, d, id, desc).0;
      InitSystemKeepsSessions(s0, d, id, desc);
      assert Sessions(s) ==> Sessions(s0);
      KeysHead(entries);
      StartFrom(s1, d, entries[1..])
  }

  /** The worker's startup: every system of the catalog, in catalog order. */
  function Startup(c: Catalog, d: Driver): (r: State)
  {
    StartFrom(Initial, d, Entries(c))
  }

  /** After startup the table has exactly one entry per catalog id, and each
      is `ONLINE` or `ERROR`. */
  lemma StartupSettles(c: Catalog, d: Driver)
    ensures forall x :: x in Startup(c, d).statuses <==> x in Ids(c)
    ensures forall x :: x in Ids(c) ==> Settled(Startup(c, d).statuses[x])
    ensures Sessions(Startup(c, d))
  {
    assert Sessions(Initial);
    assert Ids(c) == Keys(Entries(c));
    assert forall x :: x !in Initial.statuses;
  }

  datatype Command = Execute(id: SysId, js: Value) | Restart(target: Value) | Report | Sentinel

  /** What the worker puts on a command's reply queue. */
  datatype Reply =
    | Done(success: bool, message: string)
    | Restarted(ids: seq<SysId>)
    | Statuses(snapshot: map<SysId, Status>)

  const NotFoundOrOffline: string := "System not found or offline"
  const NotFound: string := "System not found"
  const Executed: string := "Executed"

  /** An `execute` command. `is_closed()` raising is caught by the command
      handler, which replies with the message and changes no status. */
  function ExecuteOn(s: State, d: Driver, id: SysId): (r: (State, Reply))
    ensures r.1.Done?
    ensures r.0.pages == s.pages
    ensures id !in s.pages ==> r == (s, Done(false, NotFoundOrOffline))
    ensures r.1.success <==>
      id in s.pages && !s.pages[id].closed && d.probe(s.tick).Reports? && d.eval(s.tick + 1).Evaluated?
    ensures r.0.statuses ==
      if id in s.pages && !s.pages[id].closed && d.probe(s.tick).Reports? && d.eval(s.tick + 1).EvalRaises?
      then s.statuses[id := Error] else s.statuses
    ensures id in s.pages && d.probe(s.tick).Reports? && s.pages[id].closed ==>
      r.1 == Done(false, NotFoundOrOffline) && r.0.statuses == s.statuses
    ensures id in s.pages && d.probe(s.tick).Reports? && !s.pages[id].closed && d.eval(s.tick + 1).EvalRaises? ==>
      r.1 == Done(false, d.eval(s.tick + 1).message) && r.0.statuses == s.statuses[id := Error]
    ensures r.1.success ==> r.1.message == Executed
    ensures Sessions(s) ==> Sessions(r.0)
  {
    if id !in s.pages then (s, Done(false, NotFoundOrOffline))
    else
      var s1 := s.(tick := s.tick + 1);
      match d.probe(s.tick)
      case ProbeRaises(m) => (s1, Done(false, m))
      case Reports =>
        if s.pages[id].closed then (s1, Done(false, NotFoundOrOffline))
        else
          var s2 := s1.(tick := s1.tick + 1);
          match d.eval(s1.tick)
          case Evaluated => (s2, Done(true, Executed))
          case EvalRaises(m) => (UpdateStatus(s2, id, Error), Done(false, m))
  }

  /** The ids among `ids` that have a registered session, in order. */
  function Registered(ids: seq<SysId>, pages: map<SysId, Page>): seq<SysId>
  {
    if ids == [] then []
    else (if ids[0] in pages then [ids[0]] else []) + Registered(ids[1..], pages)
  }

  /** `restart all`: `init_system` for every entry in order, collecting the
      ids for which it returned true. */
  function RestartAll(s: State, d: Driver, entries: seq<(SysId, Descriptor)>): (r: (State, seq<SysId>))
    ensures forall x :: x in r.1 ==> x in Keys(entries)
    ensures |r.1| <= |entries|
    ensures forall x :: x in r.0.statuses <==> x in s.statuses || x in Keys(entries)
    ensures forall x :: x in Keys(entries) ==> Settled(r.0.statuses[x])
    ensures forall x :: x !in Keys(entries) && x in s.statuses ==> r.0.statuses[x] == s.statuses[x]
    ensures forall x :: x !in Keys(entries) ==> (x in r.0.pages <==> x in s.pages)
    ensures forall x :: x !in Keys(entries) && x in s.pages ==> r.0.pages[x] == s.pages[x]
    ensures Sessions(s) ==> Sessions(r.0)
    decreases |entries|
  {
    if entries == [] then (s, [])
    else
      var (id, desc) := entries[0];
      var (s1, ok) := InitSystem(s, d, id, desc);
      InitSystemKeepsSessions(s, d, id, desc);
      var (r, rest) := RestartAll(s1, d, entries[1..]);
      KeysHead(entries);
      (r, (if ok then [id] else []) + rest)
  }

  /** With distinct ids, `restart all` reports exactly the catalog-order list
      of ids that end with a registered session, each of them open. */
  lemma {:induction false} RestartAllReportsRegistered(s: State, d: Driver, entries: seq<(SysId, Descriptor)>)
    requires UniqueKeys(entries)
    ensures var r := RestartAll(s, d, entries);
      && r.1 == Registered(Keys(entries), r.0.pages)
      && forall x :: x in r.1 ==> x in r.0.pages && r.0.pages[x] == Page(false)
    decreases |entries|
  {
    if entries != [] {
      var (id, desc) := entries[0];
      var (s1, ok) := InitSystem(s, d, id, desc);
      var t := entries[1..];
      TailKeys(entries);
      RestartAllReportsRegistered(s1, d, t);
      var (r, rest) := RestartAll(s1, d, t);
      assert Keys(entries) == [id] + Keys(t);
      assert id !in Keys(t) by {
        HasKeyIff(t, id);
      }
      assert id in r.pages <==> ok;
      assert ok ==> r.pages[id] == Page(false);
      assert Registered(Keys(entries), r.pages) == (if ok then [id] else []) + Registered(Keys(t), r.pages);
    }
  }

  /** The driver interactions `init_system` makes for each entry: none for
      a descriptor without `name`, one session creation otherwise. */
  function Interactions(entries: seq<(SysId, Descriptor)>): nat
    decreases |entries|
  {
    if entries == [] then 0
    else (if HasKey(entries[0].1, "name") then 1 else 0) + Interactions(entries[1..])
  }

  /** The catalog-order ids whose session creation succeeds, when creation
      number `t` is the next one asked of the driver. Independent of the
      status table and of the registry. */
  function Succeeding(d: Driver, t: nat, entries: seq<(SysId, Descriptor)>): seq<SysId>
    decreases |entries|
  {
    if entries == [] then []
    else if !HasKey(entries[0].1, "name") then Succeeding(d, t, entries[1..])
    else (if d.create(t).Created? then [entries[0].0] else []) + Succeeding(d, t + 1, entries[1..])
  }

  /** For every catalog, repeated ids included, `restart all` lists exactly
      the entries, in order, whose `init_system` returned true: those with a
      `name` whose session creation succeeded. */
  lemma {:induction false} RestartAllLists(s: State, d: Driver, entries: seq<(SysId, Descriptor)>)
    ensures RestartAll(s, d, entries).1 == Succeeding(d, s.tick, entries)
    decreases |entries|
  {
    if entries != [] {
      var id := entries[0].0;
      var init := InitSystem(s, d, id, entries[0].1);
      RestartAllStep(s, d, entries);
      RestartAllLists(init.0, d, entries[1..]);
      SucceedingStep(d, s.tick, entries, init.0.tick, init.1);
    }
  }

  /** One entry of `Succeeding`, in the terms `init_system` reports it. */
  lemma SucceedingStep(d: Driver, t: nat, entries: seq<(SysId, Descriptor)>, next: nat, ok: bool)
    requires entries != []
    requires next == t + (if HasKey(entries[0].1, "name") then 1 else 0)
    requires ok <==> HasKey(entries[0].1, "name") && d.create(t).Created?
    ensures Succeeding(d, t, entries) == (if ok then [entries[0].0] else []) + Succeeding(d, next, entries[1..])
  {
  }

  /** `restart all` makes one driver interaction per named entry. */
  lemma {:induction false} RestartAllTicks(s: State, d: Driver, entries: seq<(SysId, Descriptor)>)
    ensures RestartAll(s, d, entries).0.tick == s.tick + Interactions(entries)
    decreases |entries|
  {
    if entries != [] {
      var (id, desc) := entries[0];
      var s1 := InitSystem(s, d, id, desc).0;
      RestartAllStep(s, d, entries);
      RestartAllTicks(s1, d, entries[1..]);
    }
  }

  lemma RestartAllStep(s: State, d: Driver, entries: seq<(SysId, Descriptor)>)
    requires entries != []
    ensures var (s1, ok) := InitSystem(s, d, entries[0].0, entries[0].1);
      && RestartAll(s, d, entries).0 == RestartAll(s1, d, entries[1..]).0
      && RestartAll(s, d, entries).1 == (if ok then [entries[0].0] else []) + RestartAll(s1, d, entries[1..]).1
  {
  }

  function IdSet(c: Catalog): set<SysId>
  {
    set x | x in Ids(c)
  }

  /** A `restart` command: `'all'`, one id found by scanning the groups, or a
      not-found reply. A list or mapping target cannot be hashed; the
      membership test raises `TypeError` at the first group and the command
      handler replies with its message. */
  function RestartTarget(s: State, d: Driver, c: Catalog, target: Value): (r: (State, Reply))
    ensures target == Str("all") ==> r.1.Restarted? && r.1.ids == RestartAll(s, d, Entries(c)).1
    ensures target.Str? && target != Str("all") && target.s !in Ids(c) ==> r == (s, Done(false, NotFound))
    ensures target.Str? && target != Str("all") && target.s in Ids(c) ==>
      && r.1.Restarted?
      && (r.1.ids == [target.s] || r.1.ids == [])
      && (r.1.ids == [target.s] <==> target.s in r.0.pages)
      && target.s in r.0.statuses && Settled(r.0.statuses[target.s])
    ensures !target.Str? ==> r.0 == s && r.1.Done? && !r.1.success
    ensures s.statuses.Keys <= r.0.statuses.Keys <= s.statuses.Keys + IdSet(c)
    ensures Sessions(s) ==> Sessions(r.0)
  {
    match target
    case Str(t) =>
      if t == "all" then
        var (s1, ids) := RestartAll(s, d, Entries(c));
        (s1, Restarted(ids))
      else
        (match FindSystem(c, t)
         case None => (s, Done(false, NotFound))
         case Some(desc) =>
           var (s1, ok) := InitSystem(s, d, t, desc);
           InitSystemKeepsSessions(s, d, t, desc);
           (s1, Restarted(if ok then [t] else [])))
    case List(_) => if c == [] then (s, Done(false, NotFound)) else (s, Done(false, UnhashableMessage(target)))
    case Map(_) => if c == [] then (s, Done(false, NotFound)) else (s, Done(false, UnhashableMessage(target)))
    case _ => (s, Done(false, NotFound))
  }

  /** The reply has the shape the command's caller reads. */
  predicate Answers(cmd: Command, reply: Reply)
  {
    match cmd
    case Execute(_, _) => reply.Done?
    case Restart(_) => reply.Done? || reply.Restarted?
    case Report => reply.Statuses?
    case Sentinel => false
  }

  /** One command taken off the queue (the sentinel is handled by the drain). */
  function ProcessCommand(s: State, d: Driver, c: Catalog, cmd: Command): (r: (State, Reply))
    requires !cmd.Sentinel?
    ensures Answers(cmd, r.1)
    ensures cmd.Report? ==> r == (s, Statuses(s.statuses))
    ensures s.statuses.Keys <= r.0.statuses.Keys
    ensures Sessions(s) ==> Sessions(r.0) && r.0.statuses.Keys <= s.statuses.Keys + IdSet(c)
  {
    match cmd
    case Execute(id, _) => ExecuteOn(s, d, id)
    case Restart(target) => RestartTarget(s, d, c, target)
    case Report => (s, Statuses(s.statuses))
  }
}
