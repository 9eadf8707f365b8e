/** The worker's main loop: drain the command queue up to the sentinel,
    let driver events fire, and reconcile statuses when a poll is due. The
    two-second throttle is the `pollDue` input of a round. */
module WorkerLoop {
  import opened Dicts
  import opened Values
  import opened Catalogs
  import opened Worker

  /** Position of the first sentinel, or the length when there is none. */
  function FirstSentinel(cmds: seq<Command>): (n: nat)
    decreases |cmds|
    ensures n <= |cmds|
    ensures forall i :: 0 <= i < n ==> !cmds[i].Sentinel?
    ensures n < |cmds| ==> cmds[n].Sentinel?
  {
    if cmds == [] then 0
    else if cmds[0].Sentinel? then 0
    else 1 + FirstSentinel(cmds[1..])
  }

  /** What a stretch of the loop leaves: the worker state, the replies posted
      in order, and whether the sentinel ended the loop. */
  datatype Drained = Drained(state: State, replies: seq<Reply>, stopped: bool)

  /** The drain phase: commands in FIFO order until the queue is empty or the
      sentinel is taken, which closes the browser and leaves the loop. */
  function Drain(s: State, d: Driver, c: Catalog, cmds: seq<Command>): (r: Drained)
    decreases |cmds|
    ensures r.stopped <==> FirstSentinel(cmds) < |cmds|
    ensures |r.replies| == FirstSentinel(cmds)
    ensures forall i :: 0 <= i < |r.replies| ==> Answers(cmds[i], r.replies[i])
  {
    if cmds == [] then Drained(s, [], false)
    else if cmds[0].Sentinel? then Drained(s, [], true)
    else
      var (s1, reply) := ProcessCommand(s, d, c, cmds[0]);
      var rest := Drain(s1, d, c, cmds[1..]);
      Drained(rest.state, [reply] + rest.replies, rest.stopped)
  }

  /** Serving commands adds table entries only for catalog ids and keeps
      every session accounted for. */
  lemma {:induction false} DrainKeepsSessions(s: State, d: Driver, c: Catalog, cmds: seq<Command>)
    ensures s.statuses.Keys <= Drain(s, d, c, cmds).state.statuses.Keys
    ensures Sessions(s) ==> Sessions(Drain(s, d, c, cmds).state)
    ensures Sessions(s) ==> Drain(s, d, c, cmds).state.statuses.Keys <= s.statuses.Keys + IdSet(c)
    decreases |cmds|
  {
    if cmds != [] && !cmds[0].Sentinel? {
      var (s1, reply) := ProcessCommand(s, d, c, cmds[0]);
      DrainKeepsSessions(s1, d, c, cmds[1..]);
    }
  }

  /** Nothing queued behind the sentinel is ever served. */
  lemma {:induction false} DrainIgnoresAfterSentinel(s: State, d: Driver, c: Catalog, cmds: seq<Command>, later: seq<Command>)
    requires FirstSentinel(cmds) < |cmds|
    ensures Drain(s, d, c, cmds + later) == Drain(s, d, c, cmds)
    decreases |cmds|
  {
    if !cmds[0].Sentinel? {
      var (s1, reply) := ProcessCommand(s, d, c, cmds[0]);
      assert (cmds + later)[1..] == cmds[1..] + later;
      DrainIgnoresAfterSentinel(s1, d, c, cmds[1..], later);
    }
  }

  /** One served command: its reply heads the replies of the rest. */
  lemma DrainStep(s: State, d: Driver, c: Catalog, cmds: seq<Command>)
    requires cmds != [] && !cmds[0].Sentinel?
    ensures var step := ProcessCommand(s, d, c, cmds[0]);
      var rest := Drain(step.0, d, c, cmds[1..]);
      Drain(s, d, c, cmds) == Drained(rest.state, [step.1] + rest.replies, rest.stopped)
  {
  }

  /** FIFO: serving `a` then `b` is serving `a` and then serving `b` from
      the state `a` left, replies in the same order. */
  lemma DrainInOrder(s: State, d: Driver, c: Catalog, a: seq<Command>, b: seq<Command>)
    requires FirstSentinel(a) == |a|
    ensures var first := Drain(s, d, c, a);
      var second := Drain(first.state, d, c, b);
      Drain(s, d, c, a + b) == Drained(second.state, first.replies + second.replies, second.stopped)
  {
    DrainInOrderState(s, d, c, a, b);
    DrainInOrderStopped(s, d, c, a, b);
    DrainInOrderReplies(s, d, c, a, b);
  }

  lemma {:induction false} DrainInOrderState(s: State, d: Driver, c: Catalog, a: seq<Command>, b: seq<Command>)
    requires FirstSentinel(a) == |a|
    ensures Drain(s, d, c, a + b).state == Drain(Drain(s, d, c, a).state, d, c, b).state
    decreases |a|
  {
    if a == [] {
      assert a + b == b;
    } else {
      var step := ProcessCommand(s, d, c, a[0]);
      var ab := a + b;
      assert ab[0] == a[0];
      assert ab[1..] == a[1..] + b;
      DrainStep(s, d, c, a);
      DrainStep(s, d, c, ab);
      DrainInOrderState(step.0, d, c, a[1..], b);
    }
  }

  lemma {:induction false} DrainInOrderStopped(s: State, d: Driver, c: Catalog, a: seq<Command>, b: seq<Command>)
    requires FirstSentinel(a) == |a|
    ensures Drain(s, d, c, a + b).stopped == Drain(Drain(s, d, c, a).state, d, c, b).stopped
    decreases |a|
  {
    if a == [] {
      assert a + b == b;
    } else {
      var step := ProcessCommand(s, d, c, a[0]);
      var ab := a + b;
      assert ab[0] == a[0];
      assert ab[1..] == a[1..] + b;
      DrainStep(s, d, c, a);
      DrainStep(s, d, c, ab);
      DrainInOrderStopped(step.0, d, c, a[1..], b);
    }
  }

  lemma {:induction false} DrainInOrderReplies(s: State, d: Driver, c: Catalog, a: seq<Command>, b: seq<Command>)
    requires FirstSentinel(a) == |a|
    ensures var first := Drain(s, d, c, a);
      Drain(s, d, c, a + b).replies == first.replies + Drain(first.state, d, c, b).replies
    decreases |a|
  {
    if a == [] {
      assert a + b == b;
    } else {
      var step := ProcessCommand(s, d, c, a[0]);
      var ab := a + b;
      assert ab[0] == a[0];
      assert ab[1..] == a[1..] + b;
      DrainStep(s, d, c, a);
      DrainStep(s, d, c, ab);
      DrainInOrderReplies(step.0, d, c, a[1..], b);
      var tail := Drain(step.0, d, c, a[1..]);
      ConsAssoc(step.1, tail.replies, Drain(tail.state, d, c, b).replies);
    }
  }

  lemma ConsAssoc<T>(x: T, p: seq<T>, q: seq<T>)
    ensures [x] + (p + q) == ([x] + p) + q
  {
  }

  /** A status request is answered with a copy of the current table and
      changes nothing, so two in a row give identical mappings. */
  lemma StatusRequestsAgree(s: State, d: Driver, c: Catalog, later: seq<Command>)
    ensures var r := Drain(s, d, c, [Report, Report] + later);
      r.replies[0] == Statuses(s.statuses) && r.replies[1] == Statuses(s.statuses)
  {
    assert ([Report, Report] + later)[1..] == [Report] + later;
    assert ([Report] + later)[1..] == later;
  }

  /** The page listeners attached by `init_system`: `close` sets `OFFLINE`,
      `crash` sets `ERROR`. `current` tells whether the closed page is the
      one registered now rather than one an earlier restart replaced. */
  datatype Event = PageClose(id: SysId, current: bool) | PageCrash(id: SysId)

  function OnEvent(s: State, e: Event): (r: State)
    ensures r.statuses == s.statuses[e.id := if e.PageClose? then Offline else Error]
    ensures r.pages.Keys == s.pages.Keys
    ensures e.PageClose? && e.current && e.id in s.pages ==> r.pages[e.id].closed
    ensures Sessions(s) ==> Sessions(r)
  {
    match e
    case PageClose(id, current) =>
      var s1 := if current && id in s.pages then s.(pages := s.pages[id := Page(true)]) else s;
      assert s1.pages.Keys == s.pages.Keys;
      UpdateStatus(s1, id, Offline)
    case PageCrash(id) => UpdateStatus(s, id, Error)
  }

  /** The systems a list of events names. */
  function EventIds(events: seq<Event>): set<SysId>
    decreases |events|
  {
    if events == [] then {} else {events[0].id} + EventIds(events[1..])
  }

  /** The event pump: the listeners fire in the order the driver delivers. */
  function Pump(s: State, events: seq<Event>): (r: State)
    ensures r.pages.Keys == s.pages.Keys
    ensures r.statuses.Keys == s.statuses.Keys + EventIds(events)
    ensures Sessions(s) ==> Sessions(r)
    decreases |events|
  {
    if events == [] then s
    else
      var next := OnEvent(s, events[0]);
      assert next.statuses.Keys == s.statuses.Keys + {events[0].id};
      Pump(next, events[1..])
  }

  /** Reconciliation of one id: a registered page reported closed becomes
      `CLOSED`; a failing `is_closed()` sets `ERROR` unless the status is
      already `ERROR` or `CLOSED`; an unregistered id becomes `STOPPED`. */
  function PollOne(s: State, d: Driver, id: SysId): (r: State)
    ensures r.pages == s.pages
    ensures r.created == s.created && r.released == s.released && r.leaked == s.leaked
    ensures s.statuses.Keys <= r.statuses.Keys <= s.statuses.Keys + {id}
    ensures id !in s.pages ==> r.statuses == s.statuses[id := Stopped]
    ensures id in s.pages && d.probe(s.tick).Reports? ==>
      r.statuses == if s.pages[id].closed then s.statuses[id := Closed] else s.statuses
    ensures id in s.pages && d.probe(s.tick).ProbeRaises? ==>
      r.statuses == if id in s.statuses && (s.statuses[id] == Error || s.statuses[id] == Closed)
                    then s.statuses else s.statuses[id := Error]
  {
    if id in s.pages then
      var s1 := s.(tick := s.tick + 1);
      match d.probe(s.tick)
      case Reports => if s.pages[id].closed then UpdateStatus(s1, id, Closed) else s1
      case ProbeRaises(_) =>
        if id in s.statuses && (s.statuses[id] == Error || s.statuses[id] == Closed) then s1
        else UpdateStatus(s1, id, Error)
    else
      // `browser.py` tests `!= 'STOPPED'` before calling `_update_status`, which tests it again
      UpdateStatus(s, id, Stopped)
  }

  /** Whether an id's status agrees with its session after a poll. */
  predicate Reconciled(s: State, id: SysId)
  {
    && id in s.statuses
    && (id !in s.pages ==> s.statuses[id] == Stopped)
    && (id in s.pages && s.pages[id].closed ==> s.statuses[id] == Closed || s.statuses[id] == Error)
  }

  /** The polling pass over the given ids, in order. */
  function Poll(s: State, d: Driver, ids: seq<SysId>): (r: State)
    decreases |ids|
    ensures r.pages == s.pages
    ensures s.statuses.Keys <= r.statuses.Keys
    ensures forall x :: x in r.statuses ==> x in s.statuses || x in ids
    ensures forall x :: x !in ids && x in s.statuses ==> r.statuses[x] == s.statuses[x]
    ensures Sessions(s) ==> Sessions(r)
  {
    if ids == [] then s
    else
      assert forall x :: x in ids <==> x == ids[0] || x in ids[1..];
      Poll(PollOne(s, d, ids[0]), d, ids[1..])
  }

  /** After a poll every polled id is reconciled with its session. */
  lemma {:induction false} PollReconciles(s: State, d: Driver, ids: seq<SysId>)
    requires s.pages.Keys <= s.statuses.Keys
    decreases |ids|
    ensures forall x :: x in ids ==> Reconciled(Poll(s, d, ids), x)
  {
    if ids != [] {
      var s1 := PollOne(s, d, ids[0]);
      PollOneReconciles(s, d, ids[0]);
      PollReconciles(s1, d, ids[1..]);
      PollKeepsReconciled(s1, d, ids[1..], ids[0]);
      forall x | x in ids
        ensures Reconciled(Poll(s, d, ids), x)
      {
        if x != ids[0] {
          assert x in ids[1..];
        }
      }
    }
  }

  lemma PollOneReconciles(s: State, d: Driver, id: SysId)
    requires s.pages.Keys <= s.statuses.Keys
    ensures Reconciled(PollOne(s, d, id), id)
  {
  }

  /** Polling more ids keeps an already reconciled id reconciled. */
  lemma {:induction false} PollKeepsReconciled(s: State, d: Driver, ids: seq<SysId>, x: SysId)
    ensures Reconciled(s, x) ==> Reconciled(Poll(s, d, ids), x)
    decreases |ids|
  {
    if ids != [] {
      PollOneKeepsReconciled(s, d, ids[0], x);
      PollKeepsReconciled(PollOne(s, d, ids[0]), d, ids[1..], x);
    }
  }

  lemma PollOneKeepsReconciled(s: State, d: Driver, id: SysId, x: SysId)
    ensures Reconciled(s, x) ==> Reconciled(PollOne(s, d, id), x)
  {
  }

  /** Polling leaves an open page's status as it was or turns it to `ERROR`. */
  lemma {:induction false} PollKeepsOpen(s: State, d: Driver, ids: seq<SysId>, x: SysId)
    requires x in s.pages && !s.pages[x].closed && x in s.statuses
    ensures Poll(s, d, ids).statuses[x] == s.statuses[x] || Poll(s, d, ids).statuses[x] == Error
    decreases |ids|
  {
    if ids != [] {
      var s1 := PollOne(s, d, ids[0]);
      assert s1.statuses[x] == s.statuses[x] || s1.statuses[x] == Error;
      PollKeepsOpen(s1, d, ids[1..], x);
    }
  }

  /** What the queue holds when a loop iteration starts, the listener events
      the pump lets fire, and whether the poll throttle has expired. */
  datatype Round = Round(commands: seq<Command>, events: seq<Event>, pollDue: bool)

  /** One iteration of the `while True` loop. */
  function Iterate(s: State, d: Driver, c: Catalog, round: Round): (r: Drained)
    ensures r.stopped <==> FirstSentinel(round.commands) < |round.commands|
    ensures |r.replies| == FirstSentinel(round.commands)
    ensures forall i :: 0 <= i < |r.replies| ==> Answers(round.commands[i], r.replies[i])
  {
    var drained := Drain(s, d, c, round.commands);
    if drained.stopped then drained
    else
      var pumped := Pump(drained.state, round.events);
      Drained(if round.pollDue then Poll(pumped, d, Ids(c)) else pumped, drained.replies, false)
  }

  function Commands(rounds: seq<Round>): seq<Command>
    decreases |rounds|
  {
    if rounds == [] then [] else rounds[0].commands + Commands(rounds[1..])
  }

  /** The loop over successive rounds, until the sentinel ends it. */
  function Run(s: State, d: Driver, c: Catalog, rounds: seq<Round>): (r: Drained)
    ensures r.stopped <==> FirstSentinel(Commands(rounds)) < |Commands(rounds)|
    ensures |r.replies| == FirstSentinel(Commands(rounds))
    ensures forall i :: 0 <= i < |r.replies| ==> Answers(Commands(rounds)[i], r.replies[i])
    decreases |rounds|
  {
    if rounds == [] then Drained(s, [], false)
    else
      var first := Iterate(s, d, c, rounds[0]);
      FirstSentinelLater(rounds[0].commands, Commands(rounds[1..]));
      if first.stopped then
        AnswersPrefix(rounds[0].commands, Commands(rounds[1..]), first.replies);
        first
      else
        var rest := Run(first.state, d, c, rounds[1..]);
        AnswersConcat(rounds[0].commands, first.replies, Commands(rounds[1..]), rest.replies);
        Drained(rest.state, first.replies + rest.replies, rest.stopped)
  }

  /** Replies that answer a queue pointwise. */
  predicate AnswersAll(cmds: seq<Command>, replies: seq<Reply>)
    requires |replies| <= |cmds|
  {
    forall i :: 0 <= i < |replies| ==> Answers(cmds[i], replies[i])
  }

  lemma AnswersPrefix(a: seq<Command>, b: seq<Command>, replies: seq<Reply>)
    requires |replies| <= |a|
    requires AnswersAll(a, replies)
    ensures AnswersAll(a + b, replies)
  {
    assert forall i :: 0 <= i < |replies| ==> (a + b)[i] == a[i];
  }

  lemma AnswersConcat(a: seq<Command>, ra: seq<Reply>, b: seq<Command>, rb: seq<Reply>)
    requires |ra| == |a| && |rb| <= |b|
    requires AnswersAll(a, ra) && AnswersAll(b, rb)
    ensures AnswersAll(a + b, ra + rb)
  {
    assert forall i :: 0 <= i < |ra| ==> (a + b)[i] == a[i] && (ra + rb)[i] == ra[i];
    assert forall i :: 0 <= i < |rb| ==> (a + b)[|a| + i] == b[i] && (ra + rb)[|a| + i] == rb[i];
  }

  /** Where the first sentinel of two queues joined end to end lies. */
  lemma {:induction false} FirstSentinelLater(a: seq<Command>, b: seq<Command>)
    ensures FirstSentinel(a) < |a| ==> FirstSentinel(a + b) == FirstSentinel(a)
    ensures FirstSentinel(a) == |a| ==> FirstSentinel(a + b) == |a| + FirstSentinel(b)
    decreases |a|
  {
    if a == [] {
      assert a + b == b;
    } else {
      assert (a + b)[0] == a[0];
      assert (a + b)[1..] == a[1..] + b;
      FirstSentinelLater(a[1..], b);
      if !a[0].Sentinel? {
        assert FirstSentinel(a) == 1 + FirstSentinel(a[1..]);
        assert FirstSentinel(a + b) == 1 + FirstSentinel(a[1..] + b);
      }
    }
  }

  /** The worker's whole life: startup over the catalog, then the loop. */
  function Lifetime(c: Catalog, d: Driver, rounds: seq<Round>): Drained
  {
    Run(Startup(c, d), d, c, rounds)
  }

  /** The table holds exactly the catalog's ids and the sessions balance. */
  ghost predicate Invariant(s: State, c: Catalog)
  {
    Sessions(s) && s.statuses.Keys == IdSet(c)
  }

  /** Listener events only ever name systems of the catalog. */
  predicate EventsOf(rounds: seq<Round>, c: Catalog)
  {
    forall i :: 0 <= i < |rounds| ==> EventIds(rounds[i].events) <= IdSet(c)
  }

  /** From startup on, the status table has exactly one entry per catalog
      id and every created context is accounted for. */
  lemma {:induction false} LifetimeKeepsInvariant(c: Catalog, d: Driver, rounds: seq<Round>)
    requires EventsOf(rounds, c)
    ensures Invariant(Lifetime(c, d, rounds).state, c)
  {
    StartupSettles(c, d);
    RunKeepsInvariant(Startup(c, d), d, c, rounds);
  }

  lemma IterateKeepsInvariant(s: State, d: Driver, c: Catalog, round: Round)
    requires Invariant(s, c)
    requires EventIds(round.events) <= IdSet(c)
    ensures Invariant(Iterate(s, d, c, round).state, c)
  {
    var drained := Drain(s, d, c, round.commands);
    DrainKeepsSessions(s, d, c, round.commands);
    assert Invariant(drained.state, c);
    if !drained.stopped {
      var pumped := Pump(drained.state, round.events);
      assert Invariant(pumped, c);
      if round.pollDue {
        var polled := Poll(pumped, d, Ids(c));
        assert polled.statuses.Keys <= pumped.statuses.Keys + IdSet(c);
      }
    }
  }

  lemma {:induction false} RunKeepsInvariant(s: State, d: Driver, c: Catalog, rounds: seq<Round>)
    requires Invariant(s, c)
    requires EventsOf(rounds, c)
    ensures Invariant(Run(s, d, c, rounds).state, c)
    decreases |rounds|
  {
    if rounds != [] {
      IterateKeepsInvariant(s, d, c, rounds[0]);
      var next := Iterate(s, d, c, rounds[0]);
      if !next.stopped {
        assert forall i :: 0 <= i < |rounds[1..]| ==> rounds[1..][i] == rounds[i + 1];
        RunKeepsInvariant(next.state, d, c, rounds[1..]);
      }
    }
  }
}
