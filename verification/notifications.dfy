/** What the status callback hears over the worker's life. Every status
    write goes through `_update_status`, so the notifications for one system
    never repeat a status twice in a row, and the last one is the status the
    table holds. The one write that bypasses `_update_status`, the `STOPPED`
    set at startup, is always followed at once by a notified `CONNECTING`. */
module Notifications {
  import opened Dicts
  import opened Values
  import opened Catalogs
  import opened Worker
  import opened WorkerLoop

  /** The statuses notified for `id`, oldest first. */
  function Notified(log: seq<(SysId, Status)>, id: SysId): seq<Status>
    decreases |log|
  {
    if log == [] then []
    else Notified(log[..|log| - 1], id) + (if log[|log| - 1].0 == id then [log[|log| - 1].1] else [])
  }

  lemma NotifiedAppend(log: seq<(SysId, Status)>, x: SysId, st: Status, id: SysId)
    ensures Notified(log + [(x, st)], id) == Notified(log, id) + (if x == id then [st] else [])
  {
    assert (log + [(x, st)])[..|log|] == log;
  }

  predicate NoRepeats(xs: seq<Status>)
  {
    forall i :: 0 < i < |xs| ==> xs[i - 1] != xs[i]
  }

  /** No notification for a system repeats the one before it, and the last
      one is the status in the table. */
  ghost predicate Coherent(s: State)
  {
    CoherentLog(s.statuses, s.log)
  }

  ghost predicate CoherentLog(statuses: map<SysId, Status>, log: seq<(SysId, Status)>)
  {
    forall id :: Faithful(statuses, log, id)
  }

  ghost predicate Faithful(statuses: map<SysId, Status>, log: seq<(SysId, Status)>, id: SysId)
  {
    var ns := Notified(log, id);
    NoRepeats(ns) && (ns != [] ==> id in statuses && statuses[id] == ns[|ns| - 1])
  }

  /** No system is caught half-way through `init_system`. */
  predicate Calm(s: State)
  {
    forall x :: x in s.statuses ==> s.statuses[x] != Connecting
  }

  /** The log only ever grows, and stays coherent. */
  ghost predicate Follows(s: State, r: State)
  {
    s.log <= r.log && (Coherent(s) ==> Coherent(r))
  }

  lemma FollowsTrans(a: State, b: State, c: State)
    requires Follows(a, b) && Follows(b, c)
    ensures Follows(a, c)
  {
  }

  /** `_update_status` keeps the log coherent: it notifies only a value that
      differs from the stored one, which is the last one notified. */
  lemma UpdateStatusFollows(s: State, id: SysId, st: Status)
    ensures Follows(s, UpdateStatus(s, id, st))
  {
    var r := UpdateStatus(s, id, st);
    if r != s && Coherent(s) {
      forall x
        ensures Faithful(r.statuses, r.log, x)
      {
        NotifiedAppend(s.log, id, st, x);
        assert Faithful(s.statuses, s.log, x);
      }
    }
  }

  lemma {:induction false} CreateFollows(s: State, d: Driver, id: SysId)
    requires id !in s.pages
    ensures Follows(s, Create(s, d, id).0)
  {
    var s2 := s.(tick := s.tick + 1);
    match d.create(s.tick)
    case ContextFails =>
      UpdateStatusFollows(s2, id, Error);
    case PageFails =>
      UpdateStatusFollows(s2.(created := s2.created + 1, leaked := s2.leaked + 1), id, Error);
    case Created(navigated) =>
      UpdateStatusFollows(s2.(created := s2.created + 1), id, if navigated then Online else Error);
  }

  /** What `init_system` does once `CONNECTING` is written. */
  lemma {:induction false} AfterConnecting(s: State, d: Driver, id: SysId, desc: Descriptor)
    ensures var s1 := UpdateStatus(Release(s, id), id, Connecting);
      Follows(s1, InitSystem(s, d, id, desc).0)
  {
    var s1 := UpdateStatus(Release(s, id), id, Connecting);
    if !HasKey(desc, "name") {
      UpdateStatusFollows(s1, id, Error);
    } else {
      CreateFollows(s1, d, id);
    }
  }

  lemma {:induction false} InitSystemFollows(s: State, d: Driver, id: SysId, desc: Descriptor)
    ensures Follows(s, InitSystem(s, d, id, desc).0)
  {
    var s1 := UpdateStatus(Release(s, id), id, Connecting);
    UpdateStatusFollows(Release(s, id), id, Connecting);
    AfterConnecting(s, d, id, desc);
    FollowsTrans(s, s1, InitSystem(s, d, id, desc).0);
  }

  /** One startup step: the silent `STOPPED` write breaks nothing, because
      the `CONNECTING` notified right after differs from the last notified
      status, which is never `CONNECTING` between steps. */
  lemma {:induction false} StartStepFollows(s: State, d: Driver, id: SysId, desc: Descriptor)
    requires Calm(s)
    ensures var r := InitSystem(s.(statuses := s.statuses[id := Stopped]), d, id, desc).0;
      Follows(s, r) && Calm(r)
  {
    var s0 := s.(statuses := s.statuses[id := Stopped]);
    var a := Release(s0, id);
    var s1 := UpdateStatus(a, id, Connecting);
    assert s1.log == s.log + [(id, Connecting)];
    if Coherent(s) {
      forall x
        ensures Faithful(s1.statuses, s1.log, x)
      {
        NotifiedAppend(s.log, id, Connecting, x);
        assert Faithful(s.statuses, s.log, x);
      }
    }
    assert Follows(s, s1);
    AfterConnecting(s0, d, id, desc);
    FollowsTrans(s, s1, InitSystem(s0, d, id, desc).0);
  }

  lemma {:induction false} StartFromFollows(s: State, d: Driver, entries: seq<(SysId, Descriptor)>)
    requires Calm(s)
    ensures Follows(s, StartFrom(s, d, entries)) && Calm(StartFrom(s, d, entries))
    decreases |entries|
  {
    if entries != [] {
      var (id, desc) := entries[0];
      var s0 := s.(statuses := s.statuses[id := Stopped]);
      var s1 := InitSystem(s0, d, id, desc).0;
      StartStepFollows(s, d, id, desc);
      StartFromFollows(s1, d, entries[1..]);
      FollowsTrans(s, s1, StartFrom(s1, d, entries[1..]));
    }
  }

  lemma {:induction false} ExecuteOnFollows(s: State, d: Driver, id: SysId)
    ensures Follows(s, ExecuteOn(s, d, id).0)
  {
    if id in s.pages && d.probe(s.tick).Reports? && !s.pages[id].closed && d.eval(s.tick + 1).EvalRaises? {
      UpdateStatusFollows(s.(tick := s.tick + 2), id, Error);
    }
  }

  lemma {:induction false} RestartAllFollows(s: State, d: Driver, entries: seq<(SysId, Descriptor)>)
    ensures Follows(s, RestartAll(s, d, entries).0)
    decreases |entries|
  {
    if entries != [] {
      var (id, desc) := entries[0];
      var s1 := InitSystem(s, d, id, desc).0;
      InitSystemFollows(s, d, id, desc);
      RestartAllFollows(s1, d, entries[1..]);
      FollowsTrans(s, s1, RestartAll(s1, d, entries[1..]).0);
    }
  }

  lemma {:induction false} ProcessCommandFollows(s: State, d: Driver, c: Catalog, cmd: Command)
    requires !cmd.Sentinel?
    ensures Follows(s, ProcessCommand(s, d, c, cmd).0)
  {
    match cmd
    case Execute(id, _) => ExecuteOnFollows(s, d, id);
    case Report =>
    case Restart(target) =>
      if target == Str("all") {
        RestartAllFollows(s, d, Entries(c));
      } else if target.Str? && FindSystem(c, target.s).Some? {
        InitSystemFollows(s, d, target.s, FindSystem(c, target.s).value);
      }
  }

  lemma {:induction false} DrainFollows(s: State, d: Driver, c: Catalog, cmds: seq<Command>)
    ensures Follows(s, Drain(s, d, c, cmds).state)
    decreases |cmds|
  {
    if cmds != [] && !cmds[0].Sentinel? {
      var s1 := ProcessCommand(s, d, c, cmds[0]).0;
      ProcessCommandFollows(s, d, c, cmds[0]);
      DrainFollows(s1, d, c, cmds[1..]);
      FollowsTrans(s, s1, Drain(s1, d, c, cmds[1..]).state);
    }
  }

  lemma OnEventFollows(s: State, e: Event)
    ensures Follows(s, OnEvent(s, e))
  {
    match e
    case PageClose(id, current) =>
      var s1 := if current && id in s.pages then s.(pages := s.pages[id := Page(true)]) else s;
      UpdateStatusFollows(s1, id, Offline);
    case PageCrash(id) =>
      UpdateStatusFollows(s, id, Error);
  }

  lemma {:induction false} PumpFollows(s: State, events: seq<Event>)
    ensures Follows(s, Pump(s, events))
    decreases |events|
  {
    if events != [] {
      var next := OnEvent(s, events[0]);
      OnEventFollows(s, events[0]);
      PumpFollows(next, events[1..]);
      FollowsTrans(s, next, Pump(next, events[1..]));
    }
  }

  lemma {:induction false} PollFollows(s: State, d: Driver, ids: seq<SysId>)
    ensures Follows(s, Poll(s, d, ids))
    decreases |ids|
  {
    if ids != [] {
      var id := ids[0];
      var s1 := s.(tick := s.tick + 1);
      UpdateStatusFollows(s, id, Stopped);
      UpdateStatusFollows(s1, id, Closed);
      UpdateStatusFollows(s1, id, Error);
      var next := PollOne(s, d, id);
      PollFollows(next, d, ids[1..]);
      FollowsTrans(s, next, Poll(next, d, ids[1..]));
    }
  }

  lemma {:induction false} RunFollows(s: State, d: Driver, c: Catalog, rounds: seq<Round>)
    ensures Follows(s, Run(s, d, c, rounds).state)
    decreases |rounds|
  {
    if rounds != [] {
      var round := rounds[0];
      var drained := Drain(s, d, c, round.commands);
      DrainFollows(s, d, c, round.commands);
      var first := Iterate(s, d, c, round);
      if !drained.stopped {
        var pumped := Pump(drained.state, round.events);
        PumpFollows(drained.state, round.events);
        FollowsTrans(s, drained.state, pumped);
        if round.pollDue {
          PollFollows(pumped, d, Ids(c));
          FollowsTrans(s, pumped, first.state);
        }
        RunFollows(first.state, d, c, rounds[1..]);
        FollowsTrans(s, first.state, Run(first.state, d, c, rounds[1..]).state);
      }
    }
  }

  /** Over the worker's whole life, the callback never hears the same
      status twice in a row for a system, and the last status it heard for
      a system is the one in the table. */
  lemma LifetimeCoherent(c: Catalog, d: Driver, rounds: seq<Round>)
    ensures Coherent(Lifetime(c, d, rounds).state)
  {
    assert Coherent(Initial) by {
      forall id
        ensures Faithful(Initial.statuses, Initial.log, id)
      {
        assert Notified([], id) == [];
      }
    }
    StartFromFollows(Initial, d, Entries(c));
    RunFollows(Startup(c, d), d, c, rounds);
  }
}
