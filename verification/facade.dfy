/** The browser manager's public side, called from the web threads: starting
    the worker once, resolving an action to its JavaScript before anything is
    queued, and putting commands on the worker's queue. Waiting for a reply
    is modelled by the reply the worker gave, or `None` for a timeout. */
module BrowserFacade {
  import opened Dicts
  import opened Values
  import opened Catalogs
  import opened Worker

  /** The manager as the web side sees it: whether the worker was started,
      how many times its thread was started, and the commands put on the
      queue so far, oldest first. */
  datatype Manager = Manager(catalog: Catalog, started: bool, threadStarts: nat, queue: seq<Command>)

  function Create(c: Catalog): Manager
  {
    Manager(c, false, 0, [])
  }

  /** `start`: the thread is started only by the first call. */
  function Start(m: Manager): (r: Manager)
    ensures r.started
    ensures r.threadStarts == if m.started then m.threadStarts else m.threadStarts + 1
    ensures r.catalog == m.catalog && r.queue == m.queue
  {
    if m.started then m else m.(started := true, threadStarts := m.threadStarts + 1)
  }

  /** However many times `start` is called, the thread starts once. */
  lemma {:induction false} StartOnce(c: Catalog, calls: nat)
    ensures Repeat(Create(c), calls).threadStarts == if calls == 0 then 0 else 1
    ensures Repeat(Create(c), calls).started <==> calls > 0
    decreases calls
  {
    if calls > 1 {
      StartOnce(c, calls - 1);
    }
  }

  function Repeat(m: Manager, calls: nat): Manager
    decreases calls
  {
    if calls == 0 then m else Start(Repeat(m, calls - 1))
  }

  /** `_get_system_config`: an id equal to a catalog key finds that
      system's first entry in group order; no other value equals a key. */
  function SystemConfig(c: Catalog, target: Value): (r: Option<Descriptor>)
    ensures r.Some? <==> target.Str? && target.s in Ids(c)
    ensures r.Some? ==> r == Lookup(Entries(c), target.s)
  {
    if target.Str? then FindSystem(c, target.s) else None
  }

  const ConfigNotFound: string := "System config not found"
  const NoJavaScript: string := "No JS code defined"
  const Timeout: string := "Timeout waiting for browser thread"

  function NotSupported(action: Value): (r: string)
    requires !action.List? && !action.Map?
    ensures r != ConfigNotFound && r != NoJavaScript
  {
    var message := "Action " + Show(action) + " not supported by this system";
    assert message[1] == 'c';
    message
  }

  /** What `execute_command` decides before it waits: reject with a reply,
      raise, or queue an `execute` command. */
  datatype Resolution = Rejects(message: string) | Fails(error: string) | Submits(cmd: Command)

  /** The actions a descriptor offers, `{}` when it names none. */
  function ActionsOf(desc: Descriptor): Value
  {
    GetOr(desc, "actions", Map([]))
  }

  /** Stands for what membership in a string or list of actions leads to,
      which is not modelled. */
  const UnmodelledActions: string := "actions is not a mapping"

  /** The message Python gives for `x in v` when `v` cannot hold anything. */
  function NotIterable(v: Value): string
  {
    "argument of type '" + TypeName(v) + "' is not iterable"
  }

  /** The fail-fast resolution of `execute_command`, in the order
      `execute_command` checks: the system, the action among its actions,
      then the action's `js_injection`. */
  function ResolveExecute(c: Catalog, sysId: Value, action: Value): (r: Resolution)
    ensures r == Rejects(ConfigNotFound) <==> SystemConfig(c, sysId).None? || SystemConfig(c, sysId) == Some([])
    ensures r.Submits? <==>
      && SystemConfig(c, sysId).Some? && SystemConfig(c, sysId) != Some([])
      && ActionsOf(SystemConfig(c, sysId).value).Map?
      && Get(ActionsOf(SystemConfig(c, sysId).value).entries, action).Hit?
      && Get(ActionsOf(SystemConfig(c, sysId).value).entries, action).value.Map?
      && Truthy(GetOr(Get(ActionsOf(SystemConfig(c, sysId).value).entries, action).value.entries, "js_injection", Null))
    ensures r.Submits? ==> r.cmd == Execute(sysId.s,
      GetOr(Get(ActionsOf(SystemConfig(c, sysId).value).entries, action).value.entries, "js_injection", Null))
    ensures r == Rejects(NoJavaScript) <==>
      && SystemConfig(c, sysId).Some? && SystemConfig(c, sysId) != Some([])
      && ActionsOf(SystemConfig(c, sysId).value).Map?
      && Get(ActionsOf(SystemConfig(c, sysId).value).entries, action).Hit?
      && Get(ActionsOf(SystemConfig(c, sysId).value).entries, action).value.Map?
      && !Truthy(GetOr(Get(ActionsOf(SystemConfig(c, sysId).value).entries, action).value.entries, "js_injection", Null))
  {
    match SystemConfig(c, sysId)
    case None => Rejects(ConfigNotFound)
    case Some(desc) => if desc == [] then Rejects(ConfigNotFound) else ResolveAction(sysId.s, desc, action)
  }

  /** The resolution steps after a non-empty record for the system is found. */
  function ResolveAction(id: SysId, desc: Descriptor, action: Value): (r: Resolution)
    ensures r != Rejects(ConfigNotFound)
    ensures r.Submits? <==>
      && ActionsOf(desc).Map?
      && Get(ActionsOf(desc).entries, action).Hit?
      && Get(ActionsOf(desc).entries, action).value.Map?
      && Truthy(GetOr(Get(ActionsOf(desc).entries, action).value.entries, "js_injection", Null))
    ensures r.Submits? ==> r.cmd == Execute(id, GetOr(Get(ActionsOf(desc).entries, action).value.entries, "js_injection", Null))
    ensures r == Rejects(NoJavaScript) <==>
      && ActionsOf(desc).Map?
      && Get(ActionsOf(desc).entries, action).Hit?
      && Get(ActionsOf(desc).entries, action).value.Map?
      && !Truthy(GetOr(Get(ActionsOf(desc).entries, action).value.entries, "js_injection", Null))
    ensures ActionsOf(desc).Map? ==>
      (Get(ActionsOf(desc).entries, action).Miss? <==> r.Rejects? && r.message != NoJavaScript)
  {
    var actions := ActionsOf(desc);
    match actions
    case Map(entries) =>
      (match Get(entries, action)
       case Raises(message) => Fails(message)
       case Miss => Rejects(NotSupported(action))
       case Hit(spec) =>
         if !spec.Map? then Fails(NoAttribute(spec, "get"))
         else
           var js := GetOr(spec.entries, "js_injection", Null);
           if Truthy(js) then Submits(Execute(id, js)) else Rejects(NoJavaScript))
    case Null => Fails(NotIterable(actions))
    case Bool(_) => Fails(NotIterable(actions))
    case Int(_) => Fails(NotIterable(actions))
    case _ => Fails(UnmodelledActions)
  }

  /** A system missing from the catalog is rejected first, whatever the action. */
  lemma UnknownSystemFirst(c: Catalog, sysId: Value, action: Value)
    requires SystemConfig(c, sysId).None?
    ensures ResolveExecute(c, sysId, action) == Rejects(ConfigNotFound)
  {
  }

  /** A known system's missing action is rejected before any JavaScript is looked at. */
  lemma UnsupportedAction(c: Catalog, id: SysId, action: Value)
    requires id in Ids(c)
    requires FindSystem(c, id).value != []
    requires ActionsOf(FindSystem(c, id).value).Map?
    requires Get(ActionsOf(FindSystem(c, id).value).entries, action).Miss?
    ensures !action.List? && !action.Map?
    ensures ResolveExecute(c, Str(id), action) == Rejects(NotSupported(action))
  {
    var desc := FindSystem(c, id).value;
    assert SystemConfig(c, Str(id)) == Some(desc);
    ActionMissing(id, desc, action);
  }

  lemma ActionMissing(id: SysId, desc: Descriptor, action: Value)
    requires ActionsOf(desc).Map?
    requires Get(ActionsOf(desc).entries, action).Miss?
    ensures !action.List? && !action.Map?
    ensures ResolveAction(id, desc, action) == Rejects(NotSupported(action))
  {
  }

  /** `execute_command`: a rejection or an error leaves the queue as it was;
      otherwise one `execute` command joins the queue and the caller gets
      the worker's reply, or a timeout. */
  function ExecuteCommand(m: Manager, sysId: Value, action: Value, answer: Option<Reply>): (r: (Manager, Result<Reply>))
    ensures var res := ResolveExecute(m.catalog, sysId, action);
      && (res.Submits? ==> r.0 == m.(queue := m.queue + [res.cmd]))
      && (!res.Submits? ==> r.0 == m)
      && (res.Rejects? ==> r.1 == Ok(Done(false, res.message)))
      && (res.Fails? ==> r.1 == Exception(res.error))
      && (res.Submits? && answer.Some? ==> r.1 == Ok(answer.value))
      && (res.Submits? && answer.None? ==> r.1 == Ok(Done(false, Timeout)))
  {
    match ResolveExecute(m.catalog, sysId, action)
    case Rejects(message) => (m, Ok(Done(false, message)))
    case Fails(error) => (m, Exception(error))
    case Submits(cmd) => (m.(queue := m.queue + [cmd]), Ok(Awaited(answer, Done(false, Timeout))))
  }

  /** The reply the worker posted, or what the caller substitutes on timeout. */
  function Awaited(answer: Option<Reply>, onTimeout: Reply): Reply
  {
    answer.GetOr(onTimeout)
  }

  /** `restart_system`: always queues, whatever the target. */
  function RestartSystem(m: Manager, target: Value, answer: Option<Reply>): (r: (Manager, Reply))
    ensures r.0 == m.(queue := m.queue + [Restart(target)])
    ensures answer.Some? ==> r.1 == answer.value
    ensures answer.None? ==> r.1 == Done(false, Timeout)
  {
    (m.(queue := m.queue + [Restart(target)]), Awaited(answer, Done(false, Timeout)))
  }

  /** `get_status`: an empty mapping on timeout. */
  function GetStatus(m: Manager, answer: Option<Reply>): (r: (Manager, Reply))
    ensures r.0 == m.(queue := m.queue + [Report])
    ensures answer.Some? ==> r.1 == answer.value
    ensures answer.None? ==> r.1 == Statuses(map[])
  {
    (m.(queue := m.queue + [Report]), Awaited(answer, Statuses(map[])))
  }

  /** `close`: the sentinel goes last on the queue. */
  function Close(m: Manager): (r: Manager)
    ensures r.queue == m.queue + [Sentinel]
    ensures r.started == m.started
  {
    m.(queue := m.queue + [Sentinel])
  }
}
