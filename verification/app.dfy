/** The web application's side of command execution: an abstract action
    chosen in the UI is resolved, through the system's type and the
    configuration's action mappings, to the concrete action the browser
    manager runs. Also the two rules that make `all` the default restart
    target. */
module App {
  import opened Dicts
  import opened Values
  import opened Catalogs
  import opened Worker
  import opened BrowserFacade

  /** The `command_result` event the handler emits. The action id is
      included only once the manager was asked to execute. */
  datatype CommandResult = CommandResult(systemId: Value, actionId: Option<Value>, status: string, message: string)

  const SystemNotFound: string := "System not found"
  const UnknownAction: string := "Unknown action"
  const ActionNotSupported: string := "Action not supported"

  /** The message of a `KeyError` for a missing string key. */
  function KeyErrorMessage(k: string): string
  {
    "'" + k + "'"
  }

  /** Where the action mapping step ends: the abstract action is unknown,
      has no mapping for the type, raises, or maps to a concrete action. */
  datatype Mapping = Unknown | Unsupported | Crashes(message: string) | Mapped(target: Value)

  /** The configured entry for an abstract action, when the configuration's
      `actions` table is a mapping and holds it. */
  function ActionConfig(config: Dict<Value>, action: Value): Option<Value>
  {
    match Lookup(config, "actions")
    case Some(table) =>
      if table.Map? && Get(table.entries, action).Hit? then Some(Get(table.entries, action).value) else None
    case None => None
  }

  /** The mappings of a configured action, `{}` when it has none. */
  function MappingsOf(actionConfig: Value): Value
    requires actionConfig.Map?
  {
    GetOr(actionConfig.entries, "mappings", Map([]))
  }

  /** Steps 2 and 3 of the chain: the abstract action's configuration, then
      its mapping for the system type. */
  function MapAction(config: Dict<Value>, sysType: Value, action: Value): (r: Mapping)
    ensures r == Unknown <==>
      && HasKey(config, "actions") && Lookup(config, "actions").value.Map?
      && !Get(Lookup(config, "actions").value.entries, action).Raises?
      && (ActionConfig(config, action).None? || !Truthy(ActionConfig(config, action).value))
    ensures r.Mapped? <==>
      && ActionConfig(config, action).Some?
      && ActionConfig(config, action).value.Map?
      && Truthy(ActionConfig(config, action).value)
      && MappingsOf(ActionConfig(config, action).value).Map?
      && Get(MappingsOf(ActionConfig(config, action).value).entries, sysType).Hit?
      && Truthy(Get(MappingsOf(ActionConfig(config, action).value).entries, sysType).value)
    ensures r == Unsupported <==>
      && ActionConfig(config, action).Some?
      && ActionConfig(config, action).value.Map?
      && Truthy(ActionConfig(config, action).value)
      && MappingsOf(ActionConfig(config, action).value).Map?
      && (|| Get(MappingsOf(ActionConfig(config, action).value).entries, sysType).Miss?
          || (&& Get(MappingsOf(ActionConfig(config, action).value).entries, sysType).Hit?
              && !Truthy(Get(MappingsOf(ActionConfig(config, action).value).entries, sysType).value)))
    ensures r.Mapped? ==> r.target == Get(MappingsOf(ActionConfig(config, action).value).entries, sysType).value
    ensures r.Mapped? ==> Truthy(r.target)
  {
    match Lookup(config, "actions")
    case None => Crashes(KeyErrorMessage("actions"))
    case Some(table) =>
      if !table.Map? then Crashes(NoAttribute(table, "get"))
      else
        match Get(table.entries, action)
        case Raises(message) => Crashes(message)
        case Miss => Unknown
        case Hit(actionConfig) =>
          if !Truthy(actionConfig) then Unknown
          else if !actionConfig.Map? then Crashes(NoAttribute(actionConfig, "get"))
          else
            var mappings := MappingsOf(actionConfig);
            if !mappings.Map? then Crashes(NoAttribute(mappings, "get"))
            else
              match Get(mappings.entries, sysType)
              case Raises(message) => Crashes(message)
              case Miss => Unsupported
              case Hit(target) => if Truthy(target) then Mapped(target) else Unsupported
  }

  /** `handle_execution`: the system is looked up first, then the abstract
      action, then its mapping for the system's `type`; only a mapped
      action reaches the manager. */
  function HandleExecution(config: Dict<Value>, m: Manager, data: Value, answer: Option<Reply>): (r: (Manager, Result<CommandResult>))
  {
    if !data.Map? then (m, Exception(NoAttribute(data, "get")))
    else HandleRequest(config, m, RequestedSystem(data), RequestedAction(data), answer)
  }

  /** The requested system, when the event data is a mapping. */
  function RequestedSystem(data: Value): Value
    requires data.Map?
  {
    GetOr(data.entries, "system_id", Null)
  }

  function RequestedAction(data: Value): Value
    requires data.Map?
  {
    GetOr(data.entries, "action_id", Null)
  }

  /** The handler once both ids have been read from the event data. */
  function HandleRequest(config: Dict<Value>, m: Manager, sysId: Value, action: Value, answer: Option<Reply>): (Manager, Result<CommandResult>)
  {
    match SystemConfig(m.catalog, sysId)
    case None => (m, Ok(CommandResult(sysId, None, "error", SystemNotFound)))
    case Some(desc) =>
      if desc == [] then (m, Ok(CommandResult(sysId, None, "error", SystemNotFound)))
      else Respond(m, sysId, action, MapAction(config, GetOr(desc, "type", Null), action), answer)
  }

  /** The handler once the mapping step has ended. */
  function Respond(m: Manager, sysId: Value, action: Value, mapping: Mapping, answer: Option<Reply>): (Manager, Result<CommandResult>)
  {
    match mapping
    case Crashes(message) => (m, Exception(message))
    case Unknown => (m, Ok(CommandResult(sysId, None, "error", UnknownAction)))
    case Unsupported => (m, Ok(CommandResult(sysId, None, "error", ActionNotSupported)))
    case Mapped(target) => Echo(ExecuteCommand(m, sysId, target, answer), sysId, action)
  }

  /** The emitted result for the manager's answer; an answer without
      `success` makes the handler raise `KeyError`. */
  function Echo(executed: (Manager, Result<Reply>), sysId: Value, action: Value): (Manager, Result<CommandResult>)
  {
    match executed.1
    case Exception(message) => (executed.0, Exception(message))
    case Ok(reply) =>
      if reply.Done? then
        (executed.0, Ok(CommandResult(sysId, Some(action), if reply.success then "success" else "error", reply.message)))
      else
        (executed.0, Exception(KeyErrorMessage("success")))
  }

  /** The mapping step for a request whose system was found. */
  function MappingFor(config: Dict<Value>, m: Manager, data: Value): Mapping
    requires data.Map? && SystemConfig(m.catalog, RequestedSystem(data)).Some?
  {
    MapAction(config, GetOr(SystemConfig(m.catalog, RequestedSystem(data)).value, "type", Null), RequestedAction(data))
  }

  /** Requests whose system was found, with a non-empty record, go on to
      the mapping step. */
  lemma Resolved(config: Dict<Value>, m: Manager, data: Value, answer: Option<Reply>)
    requires data.Map?
    requires SystemConfig(m.catalog, RequestedSystem(data)).Some?
    requires SystemConfig(m.catalog, RequestedSystem(data)).value != []
    ensures HandleExecution(config, m, data, answer) ==
      Respond(m, RequestedSystem(data), RequestedAction(data), MappingFor(config, m, data), answer)
  {
  }

  /** Nothing but an executed command's result carries the action id, and
      nothing else changes the manager. */
  lemma BeforeMapping(config: Dict<Value>, m: Manager, data: Value, answer: Option<Reply>)
    requires data.Map?
    requires SystemConfig(m.catalog, RequestedSystem(data)).None? || SystemConfig(m.catalog, RequestedSystem(data)).value == []
    ensures HandleExecution(config, m, data, answer) ==
      (m, Ok(CommandResult(RequestedSystem(data), None, "error", SystemNotFound)))
  {
  }

  /** An unknown system is reported and nothing reaches the manager. */
  lemma UnknownSystemReported(config: Dict<Value>, m: Manager, data: Value, answer: Option<Reply>)
    requires data.Map?
    requires SystemConfig(m.catalog, RequestedSystem(data)).None?
    ensures HandleExecution(config, m, data, answer) ==
      (m, Ok(CommandResult(RequestedSystem(data), None, "error", SystemNotFound)))
  {
    BeforeMapping(config, m, data, answer);
  }

  /** An abstract action with no usable configuration is reported as
      unknown, and nothing reaches the manager. */
  lemma UnknownActionReported(config: Dict<Value>, m: Manager, data: Value, answer: Option<Reply>)
    requires data.Map?
    requires SystemConfig(m.catalog, RequestedSystem(data)).Some?
    requires SystemConfig(m.catalog, RequestedSystem(data)).value != []
    requires MappingFor(config, m, data) == Unknown
    ensures HandleExecution(config, m, data, answer) ==
      (m, Ok(CommandResult(RequestedSystem(data), None, "error", UnknownAction)))
  {
    Resolved(config, m, data, answer);
  }

  /** An action without a mapping for the system's type is reported as not
      supported, and nothing reaches the manager. */
  lemma UnsupportedReported(config: Dict<Value>, m: Manager, data: Value, answer: Option<Reply>)
    requires data.Map?
    requires SystemConfig(m.catalog, RequestedSystem(data)).Some?
    requires SystemConfig(m.catalog, RequestedSystem(data)).value != []
    requires MappingFor(config, m, data) == Unsupported
    ensures HandleExecution(config, m, data, answer) ==
      (m, Ok(CommandResult(RequestedSystem(data), None, "error", ActionNotSupported)))
  {
    Resolved(config, m, data, answer);
  }

  /** A mapped action goes to `execute_command` as the mapped value, for the
      requested system; the manager's answer is echoed with the abstract
      action id, and an error raised there propagates. */
  lemma MappedExecutes(config: Dict<Value>, m: Manager, data: Value, answer: Option<Reply>)
    requires data.Map?
    requires SystemConfig(m.catalog, RequestedSystem(data)).Some?
    requires SystemConfig(m.catalog, RequestedSystem(data)).value != []
    requires MappingFor(config, m, data).Mapped?
    ensures var executed := ExecuteCommand(m, RequestedSystem(data), MappingFor(config, m, data).target, answer);
      && HandleExecution(config, m, data, answer).0 == executed.0
      && (executed.1.Exception? ==> HandleExecution(config, m, data, answer).1 == Exception(executed.1.message))
      && (executed.1.Ok? && executed.1.value.Done? ==>
            HandleExecution(config, m, data, answer).1 == Ok(CommandResult(RequestedSystem(data), Some(RequestedAction(data)),
              if executed.1.value.success then "success" else "error", executed.1.value.message)))
  {
    Resolved(config, m, data, answer);
  }

  /** `Unknown action` and `Action not supported` are reported only for a
      system that was found, and leave the manager untouched. */
  lemma ErrorsAfterLookup(config: Dict<Value>, m: Manager, data: Value, answer: Option<Reply>)
    requires data.Map?
    requires var r := HandleExecution(config, m, data, answer);
      r.1.Ok? && (r.1.value.message == UnknownAction || r.1.value.message == ActionNotSupported) && r.1.value.actionId.None?
    ensures SystemConfig(m.catalog, RequestedSystem(data)).Some?
    ensures HandleExecution(config, m, data, answer).0 == m
    ensures HandleExecution(config, m, data, answer).1.value.message == UnknownAction ==>
      MappingFor(config, m, data) == Unknown
  {
    var sysId := RequestedSystem(data);
    if SystemConfig(m.catalog, sysId).None? || SystemConfig(m.catalog, sysId).value == [] {
      BeforeMapping(config, m, data, answer);
    } else {
      Resolved(config, m, data, answer);
      RespondErrors(m, sysId, RequestedAction(data), MappingFor(config, m, data), answer);
    }
  }

  lemma RespondErrors(m: Manager, sysId: Value, action: Value, mapping: Mapping, answer: Option<Reply>)
    requires var r := Respond(m, sysId, action, mapping, answer);
      r.1.Ok? && (r.1.value.message == UnknownAction || r.1.value.message == ActionNotSupported) && r.1.value.actionId.None?
    ensures Respond(m, sysId, action, mapping, answer).0 == m
    ensures Respond(m, sysId, action, mapping, answer).1.value.message == UnknownAction ==> mapping == Unknown
  {
    assert UnknownAction != ActionNotSupported;
  }

  lemma RespondMapped(m: Manager, sysId: Value, action: Value, mapping: Mapping, answer: Option<Reply>)
    requires Respond(m, sysId, action, mapping, answer).0 != m
    ensures mapping.Mapped?
    ensures Respond(m, sysId, action, mapping, answer).0 == ExecuteCommand(m, sysId, mapping.target, answer).0
  {
  }

  /** Only a mapped action reaches the manager, and it is the mapped value
      itself, for the requested system. */
  lemma ExecutesMappedAction(config: Dict<Value>, m: Manager, data: Value, answer: Option<Reply>)
    requires data.Map?
    requires HandleExecution(config, m, data, answer).0 != m
    ensures SystemConfig(m.catalog, RequestedSystem(data)).Some?
    ensures MappingFor(config, m, data).Mapped?
    ensures HandleExecution(config, m, data, answer).0 ==
      ExecuteCommand(m, RequestedSystem(data), MappingFor(config, m, data).target, answer).0
  {
    var sysId := RequestedSystem(data);
    if SystemConfig(m.catalog, sysId).None? || SystemConfig(m.catalog, sysId).value == [] {
      BeforeMapping(config, m, data, answer);
    } else {
      Resolved(config, m, data, answer);
      RespondMapped(m, sysId, RequestedAction(data), MappingFor(config, m, data), answer);
    }
  }

  /** Once the manager answered, the emitted status is `success` exactly
      when the answer was a success, and the answer's message is echoed. */
  lemma EchoesResult(config: Dict<Value>, m: Manager, data: Value, answer: Option<Reply>)
    requires data.Map?
    requires var r := HandleExecution(config, m, data, answer); r.1.Ok? && r.1.value.actionId.Some?
    ensures SystemConfig(m.catalog, RequestedSystem(data)).Some?
    ensures MappingFor(config, m, data).Mapped?
    ensures var executed := ExecuteCommand(m, RequestedSystem(data), MappingFor(config, m, data).target, answer).1;
      && executed.Ok? && executed.value.Done?
      && var emitted := HandleExecution(config, m, data, answer).1.value;
      && emitted.actionId == Some(RequestedAction(data))
      && (emitted.status == "success" <==> executed.value.success)
      && emitted.message == executed.value.message
  {
    var sysId := RequestedSystem(data);
    if SystemConfig(m.catalog, sysId).None? || SystemConfig(m.catalog, sysId).value == [] {
      BeforeMapping(config, m, data, answer);
    } else {
      Resolved(config, m, data, answer);
      RespondEchoes(m, sysId, RequestedAction(data), MappingFor(config, m, data), answer);
    }
  }

  lemma RespondEchoes(m: Manager, sysId: Value, action: Value, mapping: Mapping, answer: Option<Reply>)
    requires var r := Respond(m, sysId, action, mapping, answer); r.1.Ok? && r.1.value.actionId.Some?
    ensures mapping.Mapped?
    ensures var executed := ExecuteCommand(m, sysId, mapping.target, answer).1;
      && executed.Ok? && executed.value.Done?
      && var emitted := Respond(m, sysId, action, mapping, answer).1.value;
      && emitted.actionId == Some(action)
      && (emitted.status == "success" <==> executed.value.success)
      && emitted.message == executed.value.message
  {
    if mapping.Mapped? {
      var executed := ExecuteCommand(m, sysId, mapping.target, answer);
      assert Respond(m, sysId, action, mapping, answer) == Echo(executed, sysId, action);
    }
  }

  /** `admin_restart`: a body that is empty or absent counts as `{}`, and a
      missing `system_id` means `all`. */
  function AdminRestartTarget(body: Value): (r: Result<Value>)
    ensures !Truthy(body) ==> r == Ok(Str("all"))
    ensures Truthy(body) && body.Map? && !HasKey(body.entries, "system_id") ==> r == Ok(Str("all"))
    ensures Truthy(body) && body.Map? && HasKey(body.entries, "system_id") ==>
      r == Ok(Lookup(body.entries, "system_id").value)
    ensures Truthy(body) && !body.Map? ==> r.Exception?
  {
    var data := if Truthy(body) then body else Map([]);
    if data.Map? then Ok(GetOr(data.entries, "system_id", Str("all")))
    else Exception(NoAttribute(data, "get"))
  }

  /** `AppShell.do_restart`: no argument means `all`. */
  function ShellRestartTarget(arg: string): (r: string)
    ensures arg == [] ==> r == "all"
    ensures arg != [] ==> r == arg
  {
    if arg == [] then "all" else arg
  }

  /** Both restart entry points queue exactly one restart for their target. */
  lemma RestartEntryPoints(m: Manager, body: Value, arg: string, answer: Option<Reply>)
    requires AdminRestartTarget(body).Ok?
    ensures RestartSystem(m, AdminRestartTarget(body).value, answer).0.queue ==
      m.queue + [Restart(AdminRestartTarget(body).value)]
    ensures RestartSystem(m, Str(ShellRestartTarget(arg)), answer).0.queue ==
      m.queue + [Restart(Str(if arg == [] then "all" else arg))]
  {
  }
}
