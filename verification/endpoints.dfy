/** The test-endpoint launcher's bookkeeping: which endpoint directories were
    discovered, and which of them have a process tracked, alive or exited.
    Spawning a process succeeds or fails as an input says; a process exiting
    on its own is an event. */
module Endpoints {
  import opened Dicts
  import opened Values

  /** A discovered endpoint: its directory name, its directory, its port
      and the whole parsed configuration. */
  datatype Endpoint = Endpoint(name: string, dir: string, port: Value, config: Value)

  /** What reading a directory's `config.yaml` gives. */
  datatype ConfigFile = Missing | Unreadable(error: string) | Parsed(doc: Value)

  /** A directory holding `test-page.app.py`, in the order they are found. */
  datatype Candidate = Candidate(dirName: string, dir: string, config: ConfigFile)

  const DefaultPort: int := 5000

  /** `config.get('server', {}).get('port', 5000)`; `None` when either
      `.get` is called on something that is not a mapping. */
  function PortOf(config: Value): (r: Option<Value>)
    ensures r.Some? <==> config.Map? && GetOr(config.entries, "server", Map([])).Map?
  {
    if !config.Map? then None
    else
      var server := GetOr(config.entries, "server", Map([]));
      if server.Map? then Some(GetOr(server.entries, "port", Int(DefaultPort))) else None
  }

  /** The port is `5000` unless the configuration's `server` mapping names one. */
  lemma PortDefault(config: Dict<Value>)
    ensures !HasKey(config, "server") ==> PortOf(Map(config)) == Some(Int(DefaultPort))
    ensures HasKey(config, "server") && Lookup(config, "server").value.Map? ==>
      var server := Lookup(config, "server").value.entries;
      PortOf(Map(config)) == Some(if HasKey(server, "port") then Lookup(server, "port").value else Int(DefaultPort))
  {
  }

  /** The endpoint a candidate contributes, if any: one without a
      configuration file, with an unreadable one, or with one whose port
      cannot be read is skipped. */
  function Admit(cand: Candidate): Option<Endpoint>
  {
    match cand.config
    case Parsed(doc) =>
      (match PortOf(doc)
       case Some(port) => Some(Endpoint(cand.dirName, cand.dir, port, doc))
       case None => None)
    case _ => None
  }

  /** The endpoint the last admitted candidate named `name` contributes. */
  function LastAdmitted(found: seq<Candidate>, name: string): Option<Endpoint>
    decreases |found|
  {
    if found == [] then None
    else
      var last := found[|found| - 1];
      if last.dirName == name && Admit(last).Some? then Admit(last)
      else LastAdmitted(found[..|found| - 1], name)
  }

  /** `discover_endpoints`: start afresh and record every admitted
      candidate under its directory name. */
  function Discover(found: seq<Candidate>): (r: Dict<Endpoint>)
    ensures UniqueKeys(r)
    ensures forall name :: Lookup(r, name) == LastAdmitted(found, name)
    decreases |found|
  {
    if found == [] then []
    else
      var last := found[|found| - 1];
      var r := Discover(found[..|found| - 1]);
      match Admit(last)
      case Some(e) => Put(r, last.dirName, e)
      case None => r
  }

  /** Every endpoint is filed under its own directory name. */
  lemma {:induction false} AdmittedUnderOwnName(found: seq<Candidate>, name: string)
    requires LastAdmitted(found, name).Some?
    ensures LastAdmitted(found, name).value.name == name
    decreases |found|
  {
    var last := found[|found| - 1];
    if !(last.dirName == name && Admit(last).Some?) {
      AdmittedUnderOwnName(found[..|found| - 1], name);
    }
  }

  /** The launcher's state: the discovered endpoints and the processes it
      tracks, `true` while alive, both in insertion order; `spawns` counts
      spawn attempts and indexes the `spawn` input. */
  datatype Manager = Manager(endpoints: Dict<Endpoint>, processes: Dict<bool>, spawns: nat)

  /** What `status` prints for an endpoint. */
  datatype Condition = Stopped | Running | Exited

  function Label(c: Condition): string
  {
    match c
    case Stopped => "STOPPED"
    case Running => "RUNNING"
    case Exited => "EXITED"
  }

  /** Untracked is stopped; tracked is running while alive, exited after. */
  function Classify(m: Manager, name: string): (r: Condition)
    ensures r == Stopped <==> !HasKey(m.processes, name)
    ensures r == Running <==> Lookup(m.processes, name) == Some(true)
    ensures r == Exited <==> Lookup(m.processes, name) == Some(false)
  {
    match Lookup(m.processes, name)
    case None => Stopped
    case Some(alive) => if alive then Running else Exited
  }

  /** Whether spawning succeeds at each attempt. */
  type Spawner = nat -> bool

  /** `start_endpoint`: an undiscovered name or a running process changes
      nothing; otherwise a spawn is attempted and, when it succeeds, the
      name's process is a fresh live one, replacing an exited one in place. */
  function StartEndpoint(m: Manager, spawn: Spawner, name: string): (r: Manager)
    ensures r.endpoints == m.endpoints
    ensures !HasKey(m.endpoints, name) || Classify(m, name) == Running ==> r == m
    ensures HasKey(m.endpoints, name) && Classify(m, name) != Running ==>
      && r.spawns == m.spawns + 1
      && Classify(r, name) == (if spawn(m.spawns) then Running else Classify(m, name))
    ensures forall other :: other != name ==> Classify(r, other) == Classify(m, other)
    ensures Keys(m.processes) <= Keys(r.processes)
    ensures UniqueKeys(m.processes) ==> UniqueKeys(r.processes)
  {
    if !HasKey(m.endpoints, name) then m
    else if Lookup(m.processes, name) == Some(true) then m
    else if spawn(m.spawns) then m.(processes := Put(m.processes, name, true), spawns := m.spawns + 1)
    else m.(spawns := m.spawns + 1)
  }

  /** `stop_endpoint`: a tracked name is dropped, alive or exited; an
      untracked one changes nothing. */
  function StopEndpoint(m: Manager, name: string): (r: Manager)
    ensures r.endpoints == m.endpoints && r.spawns == m.spawns
    ensures Classify(r, name) == Stopped
    ensures !HasKey(m.processes, name) ==> r == m
    ensures forall other :: other != name ==> Classify(r, other) == Classify(m, other)
    ensures forall other :: HasKey(r.processes, other) <==> other != name && HasKey(m.processes, other)
    ensures UniqueKeys(m.processes) ==> UniqueKeys(r.processes)
  {
    if HasKey(m.processes, name) then m.(processes := Remove(m.processes, name)) else m
  }

  /** `restart_endpoint`: stop, then start. */
  function RestartEndpoint(m: Manager, spawn: Spawner, name: string): (r: Manager)
    ensures r.endpoints == m.endpoints
    ensures HasKey(m.endpoints, name) ==> Classify(r, name) == (if spawn(m.spawns) then Running else Stopped)
    ensures HasKey(m.endpoints, name) ==> r.spawns == m.spawns + 1
    ensures !HasKey(m.endpoints, name) ==> Classify(r, name) == Stopped
    ensures forall other :: other != name ==> Classify(r, other) == Classify(m, other)
    ensures UniqueKeys(m.processes) ==> UniqueKeys(r.processes)
  {
    StartEndpoint(StopEndpoint(m, name), spawn, name)
  }

  /** A tracked process ending on its own. */
  function ProcessExits(m: Manager, name: string): (r: Manager)
    ensures HasKey(m.processes, name) ==> Classify(r, name) == Exited
    ensures !HasKey(m.processes, name) ==> r == m
    ensures forall other :: other != name ==> Classify(r, other) == Classify(m, other)
    ensures UniqueKeys(m.processes) ==> UniqueKeys(r.processes)
  {
    if HasKey(m.processes, name) then m.(processes := Put(m.processes, name, false)) else m
  }

  /** One line of the `status` listing. */
  datatype Row = Row(name: string, port: Value, condition: Condition)

  /** `status`: `None` for "No endpoints discovered", otherwise one row per
      endpoint in discovery order. */
  function StatusReport(m: Manager): (r: Option<seq<Row>>)
    ensures r.None? <==> m.endpoints == []
    ensures r.Some? ==> |r.value| == |m.endpoints|
    ensures r.Some? ==> forall i :: 0 <= i < |r.value| ==>
      r.value[i] == Row(m.endpoints[i].0, m.endpoints[i].1.port, Classify(m, m.endpoints[i].0))
  {
    if m.endpoints == [] then None
    else Some(seq(|m.endpoints|, i requires 0 <= i < |m.endpoints| =>
      Row(m.endpoints[i].0, m.endpoints[i].1.port, Classify(m, m.endpoints[i].0))))
  }

  /** Stop each name in turn, as `stop all` and `quit` do with a snapshot of
      the tracked names. */
  function StopEach(m: Manager, names: seq<string>): (r: Manager)
    ensures r.endpoints == m.endpoints && r.spawns == m.spawns
    ensures forall k :: HasKey(r.processes, k) <==> HasKey(m.processes, k) && k !in names
    ensures forall k :: k !in names ==> Classify(r, k) == Classify(m, k)
    ensures UniqueKeys(m.processes) ==> UniqueKeys(r.processes)
    decreases |names|
  {
    if names == [] then m
    else StopEach(StopEndpoint(m, names[0]), names[1..])
  }

  /** Stopping every tracked name leaves nothing tracked. */
  lemma StopAllEmpties(m: Manager)
    ensures StopEach(m, Keys(m.processes)).processes == []
  {
    var r := StopEach(m, Keys(m.processes));
    forall k
      ensures !HasKey(r.processes, k)
    {
      HasKeyIff(m.processes, k);
    }
    NoKeysEmpty(r.processes);
  }

  /** `start all`: start each discovered endpoint in discovery order. */
  function StartEach(m: Manager, spawn: Spawner, names: seq<string>): (r: Manager)
    ensures r.endpoints == m.endpoints
    ensures forall k :: k !in names ==> Classify(r, k) == Classify(m, k)
    ensures UniqueKeys(m.processes) ==> UniqueKeys(r.processes)
    decreases |names|
  {
    if names == [] then m
    else StartEach(StartEndpoint(m, spawn, names[0]), spawn, names[1..])
  }

  /** `restart all`: a tracked endpoint is restarted, any other started. */
  function RestartEach(m: Manager, spawn: Spawner, names: seq<string>): (r: Manager)
    ensures r.endpoints == m.endpoints
    ensures forall k :: k !in names ==> Classify(r, k) == Classify(m, k)
    ensures UniqueKeys(m.processes) ==> UniqueKeys(r.processes)
    decreases |names|
  {
    if names == [] then m
    else RestartEach(RestartOne(m, spawn, names[0]), spawn, names[1..])
  }

  /** One name of `restart all`: restarted when tracked, started otherwise.
      Either way a discovered name gets one spawn attempt. */
  function RestartOne(m: Manager, spawn: Spawner, name: string): (r: Manager)
    ensures HasKey(m.endpoints, name) ==> r.spawns == m.spawns + 1
    ensures HasKey(m.endpoints, name) ==> Classify(r, name) == (if spawn(m.spawns) then Running else Stopped)
    ensures !HasKey(m.endpoints, name) ==> r.spawns == m.spawns && Classify(r, name) == Stopped
    ensures r.endpoints == m.endpoints
    ensures forall other :: other != name ==> Classify(r, other) == Classify(m, other)
  {
    if HasKey(m.processes, name) then RestartEndpoint(m, spawn, name) else StartEndpoint(m, spawn, name)
  }

  /** `restart all` over discovered names makes one spawn attempt per name,
      live processes included. */
  lemma {:induction false} RestartAllSpawnsOnce(m: Manager, spawn: Spawner, names: seq<string>)
    requires forall k :: k in names ==> HasKey(m.endpoints, k)
    ensures RestartEach(m, spawn, names).spawns == m.spawns + |names|
    decreases |names|
  {
    if names != [] {
      var next := RestartOne(m, spawn, names[0]);
      assert forall k :: k in names[1..] ==> k in names;
      RestartAllSpawnsOnce(next, spawn, names[1..]);
    }
  }

  /** Over distinct discovered names, the i-th name's process, tracked or
      not, alive or not, is replaced by attempt `spawns + i`: it runs
      exactly when that attempt succeeds and is stopped otherwise. */
  lemma RestartAllRespawnsEach(m: Manager, spawn: Spawner, names: seq<string>)
    requires forall i :: 0 <= i < |names| ==> HasKey(m.endpoints, names[i])
    requires forall i, j :: 0 <= i < j < |names| ==> names[i] != names[j]
    ensures forall i :: 0 <= i < |names| ==>
      Classify(RestartEach(m, spawn, names), names[i]) == (if spawn(m.spawns + i) then Running else Stopped)
  {
    forall i | 0 <= i < |names|
      ensures Classify(RestartEach(m, spawn, names), names[i]) == (if spawn(m.spawns + i) then Running else Stopped)
    {
      var at := m.spawns + i;
      RespawnedAt(m, spawn, names, i, at);
      Rebased(spawn, at, m.spawns, i);
    }
  }

  /** The i-th name's outcome under `restart all`, for its attempt number
      `at`; naming the attempt keeps its argument the same term throughout
      the induction. */
  lemma {:induction false} RespawnedAt(m: Manager, spawn: Spawner, names: seq<string>, i: nat, at: nat)
    requires forall i :: 0 <= i < |names| ==> HasKey(m.endpoints, names[i])
    requires forall i, j :: 0 <= i < j < |names| ==> names[i] != names[j]
    requires i < |names| && at == m.spawns + i
    ensures Classify(RestartEach(m, spawn, names), names[i]) == (if spawn(at) then Running else Stopped)
    decreases |names|, 1
  {
    if i == 0 {
      HeadNotInTail(names);
      RespawnedHead(m, spawn, names);
      SameAttempt(spawn, m.spawns, at);
    } else {
      RespawnedLater(m, spawn, names, i, at);
    }
  }

  /** A later name's outcome is its outcome in the rest of the run. */
  lemma {:induction false} RespawnedLater(m: Manager, spawn: Spawner, names: seq<string>, i: nat, at: nat)
    requires forall i :: 0 <= i < |names| ==> HasKey(m.endpoints, names[i])
    requires forall i, j :: 0 <= i < j < |names| ==> names[i] != names[j]
    requires 0 < i < |names| && at == m.spawns + i
    ensures Classify(RestartEach(m, spawn, names), names[i]) == (if spawn(at) then Running else Stopped)
    decreases |names|, 0
  {
    var next := RestartOne(m, spawn, names[0]);
    var tail := names[1..];
    var j := i - 1;
    DistinctTail(names);
    DiscoveredTail(m, next, names);
    assert HasKey(m.endpoints, names[0]);
    RespawnedAt(next, spawn, tail, j, at);
    LaterInTail(m, spawn, names, i);
  }

  /** A later name's outcome is decided by the run over the tail. */
  lemma LaterInTail(m: Manager, spawn: Spawner, names: seq<string>, i: nat)
    requires 0 < i < |names|
    ensures Classify(RestartEach(m, spawn, names), names[i])
         == Classify(RestartEach(RestartOne(m, spawn, names[0]), spawn, names[1..]), names[1..][i - 1])
  {
    RestartEachStep(m, spawn, names);
  }

  lemma RestartEachStep(m: Manager, spawn: Spawner, names: seq<string>)
    requires names != []
    ensures RestartEach(m, spawn, names) == RestartEach(RestartOne(m, spawn, names[0]), spawn, names[1..])
  {
  }

  /** The first name is respawned once and no later name touches it. */
  lemma RespawnedHead(m: Manager, spawn: Spawner, names: seq<string>)
    requires names != [] && HasKey(m.endpoints, names[0])
    requires names[0] !in names[1..]
    ensures Classify(RestartEach(m, spawn, names), names[0]) == (if spawn(m.spawns) then Running else Stopped)
  {
    var next := RestartOne(m, spawn, names[0]);
    RestartEachStep(m, spawn, names);
    assert Classify(RestartEach(next, spawn, names[1..]), names[0]) == Classify(next, names[0]);
  }

  lemma DiscoveredTail(m: Manager, next: Manager, names: seq<string>)
    requires names != [] && next.endpoints == m.endpoints
    requires forall i :: 0 <= i < |names| ==> HasKey(m.endpoints, names[i])
    ensures forall i :: 0 <= i < |names[1..]| ==> HasKey(next.endpoints, names[1..][i])
  {
    forall i | 0 <= i < |names[1..]|
      ensures HasKey(next.endpoints, names[1..][i])
    {
      assert names[1..][i] == names[i + 1];
    }
  }

  /** Attempt `base + i` is the attempt `at` it equals. */
  lemma Rebased(spawn: Spawner, at: nat, base: nat, i: nat)
    requires at == base + i
    ensures spawn(at) == spawn(base + i)
  {
  }

  /** The same attempt number names the same attempt. */
  lemma SameAttempt(spawn: Spawner, a: nat, b: nat)
    requires a == b
    ensures spawn(a) == spawn(b)
  {
  }

  /** The tail of distinct names is distinct. */
  lemma DistinctTail(names: seq<string>)
    requires names != []
    requires forall i, j :: 0 <= i < j < |names| ==> names[i] != names[j]
    ensures forall i, j :: 0 <= i < j < |names[1..]| ==> names[1..][i] != names[1..][j]
  {
  }

  /** The tail of distinct names misses the head. */
  lemma HeadNotInTail(names: seq<string>)
    requires names != []
    requires forall i, j :: 0 <= i < j < |names| ==> names[i] != names[j]
    ensures names[0] !in names[1..]
  {
    var tail := names[1..];
    forall j | 0 <= j < |tail|
      ensures tail[j] != names[0]
    {
      assert tail[j] == names[j + 1];
    }
  }

  /** After `restart all` no discovered endpoint is left exited, repeated
      names included. */
  lemma {:induction false} RestartAllLeavesNoneExited(m: Manager, spawn: Spawner, names: seq<string>)
    requires forall k :: k in names ==> HasKey(m.endpoints, k)
    ensures forall k :: k in names ==> Classify(RestartEach(m, spawn, names), k) != Exited
    decreases |names|
  {
    if names != [] {
      var name := names[0];
      var next := if HasKey(m.processes, name) then RestartEndpoint(m, spawn, name) else StartEndpoint(m, spawn, name);
      assert Classify(next, name) != Exited;
      RestartAllLeavesNoneExited(next, spawn, names[1..]);
      if name !in names[1..] {
        assert Classify(RestartEach(next, spawn, names[1..]), name) == Classify(next, name);
      }
    }
  }

  /** With every spawn succeeding, `restart all` leaves every discovered
      endpoint running. */
  lemma {:induction false} RestartAllRuns(m: Manager, spawn: Spawner, names: seq<string>)
    requires forall k :: k in names ==> HasKey(m.endpoints, k)
    requires forall i: nat :: spawn(i)
    ensures forall k :: k in names ==> Classify(RestartEach(m, spawn, names), k) == Running
    decreases |names|
  {
    if names != [] {
      var name := names[0];
      var next := if HasKey(m.processes, name) then RestartEndpoint(m, spawn, name) else StartEndpoint(m, spawn, name);
      assert Classify(next, name) == Running;
      RestartAllRuns(next, spawn, names[1..]);
      if name !in names[1..] {
        assert Classify(RestartEach(next, spawn, names[1..]), name) == Classify(next, name);
      }
    }
  }
}
