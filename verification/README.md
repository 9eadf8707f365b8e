# MultiBrowserTool, modelled in Dafny

MultiBrowserTool drives one browser session per configured "system" (a web
page such as a camera or recorder UI) and triggers UI actions in those pages
by injecting JavaScript. A single worker thread owns every browser object.
Web handlers, socket handlers and a shell talk to it only through a command
queue, and it reports a connection status per system to a callback.

This project models the parts of the program that make decisions:

- **Configuration loading**, in `config_loader.dfy`. Each system instance is
  merged with its type's defaults, and the instance's own keys win.
  Instances of an unknown type are dropped.
- **The catalog the worker reads**, in `catalog.dfy`. The resolved groups
  are read back as groups of `(id, descriptor)` pairs, in order.
- **The worker's per-system logic**, in `worker.dfy`:
  - the status table, where a write notifies only when it changes something
  - session creation and replacement (`init_system`)
  - startup
  - the `execute`, `restart` and `status` commands
- **The worker loop**, in `worker_loop.dfy`:
  - the drain phase up to the shutdown sentinel
  - the page listeners fired by the event pump
  - the throttled polling pass that reconciles statuses with sessions
  - the whole lifetime, from startup to the sentinel
- **What the status callback hears**, in `notifications.dfy`.
- **The manager's public side**, in `facade.dfy`:
  - starting the thread once
  - resolving an action to its JavaScript before anything is queued
  - queueing commands
  - the replies that stand in when a caller times out
- **The socket handler and the two restart entry points**, in `app.dfy`.
  The socket handler resolves an abstract action through the action
  mappings. The two restart entry points (HTTP admin route and shell) default
  to `all`.
- **The test-endpoint launcher**, in `endpoints.dfy` and `repl.dfy`:
  - discovery of endpoint directories, with the default port 5000
  - start, stop, restart and status of their processes
  - parsing and dispatch of the command line

Python dictionaries are ordered association lists (`Dicts.Dict`). Parsed
YAML/JSON documents are `Values.Value`, with Python's rules for truthiness
and for key lookup. A lookup that raises, such as `.get` on a list or a
list used as a key, gives `Values.Result.Exception` with Python's message.

The browser-automation library is an oracle, `Worker.Driver`. The n-th
driver interaction's outcome is a parameter, and the worker state counts
interactions. Waiting on a reply queue is modelled by the reply the worker
posted, or by `None` when the caller times out. Process spawning in the
launcher is also an oracle, `Endpoints.Spawner`.

Four behaviours of the code worth knowing:

- `init_system` returns true, and so a system is listed as restarted, when
  the page was created but navigation failed. Such a system ends in `ERROR`
  with its page registered.
- Startup does not set every status to `STOPPED` first. It handles one
  system at a time: it writes `STOPPED` directly into the table, without a
  notification, and then runs `init_system` for that system.
- `execute_command` can raise instead of returning a structured failure,
  for example when an action's entry is not a mapping. The model reports
  these as `Fails`.
- Shutdown closes the browser; it does not release each session.

## Model

| member | source | states |
|---|---|---|
| Dicts.Put | config_loader.py:47-48 | Assigning a key makes it map to the value and leaves every other key's value alone. An existing key keeps its position; a new key goes last. Distinct keys stay distinct. |
| Dicts.UpdateLookup | config_loader.py:43-44 | After copying the type's record and updating it with the instance, each instance key maps to the instance's value and every other key to the type's. No key of the type is lost. |
| Dicts.Remove | test-endpoints/launch.py:102 | Deleting a key removes exactly that key. Every other key keeps its value, and distinct keys stay distinct. |
| Values.Get | config_loader.py:34-35 | A lookup raises exactly when the key is a list or a mapping. It finds an entry exactly when the key is a string the mapping holds, and the entry is the stored value. |
| Values.GetOr | config_loader.py:28 | `.get(k, default)` gives the stored value when the key is present and the default otherwise. |
| Values.Decimal | browser.py:205 | `str()` of a number is a non-empty run of digits with no leading zero. |
| Values.DecimalRoundTrip | browser.py:205 | Reading back the digits `str()` prints gives the number again. |
| Catalogs.EntriesOfGroups | browser.py:93-94 | The nested loop visits an entry exactly when some group holds it, and visits as many entries as the groups hold together. |
| Catalogs.FindSystem | browser.py:238-245 | The scan finds a descriptor exactly when the id is a system of some group. The descriptor is the first entry for that id, in group order. |
| Catalogs.FindSystemIsEntry | browser.py:240-244 | The descriptor found is one of the catalog's entries for that id. |
| Catalogs.SystemsOf | browser.py:94 | A group's `systems` mapping can be read as catalog entries exactly when every entry is a mapping. The entries come out in the same order, with the same keys and the same records. |
| Catalogs.GroupsOf | browser.py:92-93 | The groups of `resolved_systems` can all be read exactly when each one can. The catalog has one group per resolved group, in the same order. |
| ConfigLoader.MergeContents | config_loader.py:39-48 | The merged record maps each key to the instance's value when the instance has one, else to the type's value. A merged record always has `actions`, `{}` when neither side defines it, and keeps every key of the type. |
| ConfigLoader.ResolveSystemCases | config_loader.py:33-44 | An instance is skipped exactly when its `type` is hashable and not a key of the type definitions. A known type whose record is a mapping gives the merge of that record with the instance. |
| ConfigLoader.ResolveSystems | config_loader.py:33-50 | A group's systems resolve exactly when no instance makes Python raise. The output has keys only from the input, and distinct keys stay distinct. Each instance appears under its own key as its merged record when kept, and not at all when skipped. Every kept instance is stored as a mapping. |
| ConfigLoader.ResolveGroups | config_loader.py:28-32 | The groups resolve exactly when each one does. They keep their keys in order, and each resolved group is its own group's result. |
| ConfigLoader.LoadConfigOutput | config_loader.py:52-55 | The loaded configuration keeps every original key and value and adds exactly `resolved_systems` and `types`. `types` holds the type definitions unchanged. |
| ConfigLoader.GroupsKeepNames | config_loader.py:28-32 | Every configured group appears in the output, in order, as a mapping with its `name`, or `None` when it has no name. |
| ConfigLoader.ResolvedGroupSystems | config_loader.py:29-50 | In a resolved group, an instance of a known type is stored under its own key as the merged record, and an instance of an unknown type is absent. |
| ConfigLoader.ResolvedGroupReads | config_loader.py:29-32 | A resolved group can always be read back as the catalog group of the instances it kept. |
| ConfigLoader.LoadedCatalog | browser.py:92-94 | A configuration that loads can always be iterated by the worker. It yields one catalog group per configured group, in order, listing exactly the instances that group kept, as merged records. |
| Worker.UpdateStatus | browser.py:20-27 | After a status write the table holds the new value. A notification is appended exactly when the value differs from the stored one; pages and counters are untouched. |
| Worker.UpdateStatusNotifiesOnChange | browser.py:23-27 | Writing the stored value changes nothing. Writing a new value appends exactly one notification. Writing twice is the same as writing once. |
| Worker.Release | browser.py:48-56 | Replacing a session first drops the registered one, if any, and counts it as released, even when closing it fails. The status table and the log are untouched. |
| Worker.InitSystem | browser.py:44-89 | `init_system` returns true exactly when the descriptor has a `name` and the context and page were created. It then registers an open page, with status `ONLINE` or, if navigation failed, `ERROR`. Otherwise no page is registered and the status is `ERROR`. Only this id's status and page change. |
| Worker.InitSystemKeepsSessions | browser.py:47-85 | Every browsing context ever created stays accounted for: it is registered, released, or leaked by a failed `new_page`. Every registered id has a status. |
| Worker.Create | browser.py:61-85 | A failing `new_context` creates nothing. A failing `new_page` leaves a created context that is never registered. Success registers an open page. Notifications are appended only for this id. |
| Worker.InitSystemLog | browser.py:58-88 | `init_system` only appends to the notification log, and only notifications for its own id. |
| Worker.StartFrom | browser.py:92-97 | The startup loop adds a status for every catalog id and leaves other entries alone. Every initialised system ends `ONLINE` or `ERROR`, and session accounting is kept. |
| Worker.StartupSettles | browser.py:91-97 | After startup the table has an entry for exactly the catalog's ids, each `ONLINE` or `ERROR`, and every context is accounted for. |
| Worker.ExecuteOn | browser.py:115-126 | The reply is a success, `Executed`, exactly when the page is registered, open, and the script runs. An unregistered or closed page gets `System not found or offline`. A throwing script returns its message and sets `ERROR`, which is the only status change. |
| Worker.RestartAll | browser.py:131-135 | `restart all` visits every catalog entry. Each ends `ONLINE` or `ERROR`, the ids it reports are catalog ids, and other systems' statuses and pages are unchanged. |
| Worker.RestartAllReportsRegistered | browser.py:130-147 | With distinct ids, `restart all` reports exactly the catalog-order list of ids that end with a registered session, and each such page is open. |
| Worker.RestartAllLists | browser.py:130-135 | For any catalog, repeated ids included, `restart all` lists, in catalog order, exactly the entries that have a `name` and whose session creation succeeded. Repeated ids are listed once per success. |
| Worker.RestartAllTicks | browser.py:131-135 | `restart all` asks the driver for one session per entry that has a `name`, and nothing for an entry without one. |
| Worker.RestartTarget | browser.py:128-147 | For `all`, the reply lists what restart-all restarted. An unknown id gets `System not found` and nothing changes. A known id is restarted and listed exactly when a session is registered, and ends `ONLINE` or `ERROR`. A non-string target changes nothing and fails. |
| Worker.ProcessCommand | browser.py:112-154 | Every command gets a reply of the shape its caller reads. A status request returns the current table and changes nothing. Statuses are only ever added, for catalog ids, and session accounting is kept. |
| WorkerLoop.FirstSentinel | browser.py:104-110 | The drain stops at the first sentinel: none comes before it. |
| WorkerLoop.Drain | browser.py:103-157 | The loop ends exactly when the queue holds a sentinel. Exactly the commands before it are served, each answered in order with a reply of the right shape. |
| WorkerLoop.DrainKeepsSessions | browser.py:103-157 | Serving commands never removes a status, adds statuses only for catalog ids, and keeps every session accounted for. |
| WorkerLoop.DrainIgnoresAfterSentinel | browser.py:107-110 | Nothing queued behind the sentinel is served or changes anything. |
| WorkerLoop.DrainInOrder | browser.py:104-105 | Serving one batch and then another is the same as serving both in one drain, with the replies in queue order. |
| WorkerLoop.StatusRequestsAgree | browser.py:149-150 | Two status requests in a row get identical copies of the table. |
| WorkerLoop.OnEvent | browser.py:68-69 | A page's `close` listener sets `OFFLINE` and a `crash` listener sets `ERROR`. The current page that closed is recorded as closed, and the registered ids and session accounting are unchanged. |
| WorkerLoop.Pump | browser.py:159-175 | Pumping events changes no registration. It adds statuses exactly for the systems the events name, and keeps session accounting. |
| WorkerLoop.PollOne | browser.py:181-192 | An id without a session becomes `STOPPED`. A registered page reported closed becomes `CLOSED`, and an open one keeps its status. A failing `is_closed()` sets `ERROR` unless the status is already `ERROR` or `CLOSED`. Pages and counters never change. |
| WorkerLoop.Poll | browser.py:177-192 | The polling pass changes only the statuses of polled ids and never the sessions. |
| WorkerLoop.PollReconciles | browser.py:180-192 | After a polling pass, every polled id without a session is `STOPPED`, and every closed page is `CLOSED` or `ERROR`. |
| WorkerLoop.PollOneReconciles | browser.py:182-192 | Polling one id reconciles its status with its session. |
| WorkerLoop.PollKeepsReconciled | browser.py:180-192 | Polling further ids keeps an id already reconciled reconciled. |
| WorkerLoop.PollKeepsOpen | browser.py:182-189 | Polling leaves an open page's status as it was, or turns it to `ERROR`. |
| WorkerLoop.Iterate | browser.py:101-192 | One loop iteration ends the worker exactly when its queue holds a sentinel. Every command before it is answered in order. |
| WorkerLoop.Run | browser.py:100-192 | Over any number of iterations, the worker stops exactly when a sentinel was queued. Every command queued before the first sentinel is answered, in order, with a reply of the right shape. |
| WorkerLoop.LifetimeKeepsInvariant | browser.py:91-192 | From startup to shutdown, the status table has exactly one entry per catalog id, and every created context is registered, released or leaked. |
| WorkerLoop.IterateKeepsInvariant | browser.py:101-192 | One loop iteration keeps the table's ids equal to the catalog's, and keeps session accounting. |
| WorkerLoop.RunKeepsInvariant | browser.py:100-192 | Any number of loop iterations keep the table's ids equal to the catalog's, and keep session accounting. |
| Notifications.UpdateStatusFollows | browser.py:20-27 | A status write keeps the notification log coherent: no repeats per system, and the last notification equals the table. |
| Notifications.InitSystemFollows | browser.py:44-89 | `init_system` keeps the notification log coherent. |
| Notifications.StartStepFollows | browser.py:95-97 | The silent `STOPPED` write at startup breaks no coherence, because the `CONNECTING` notified next always differs from the last notified status. |
| Notifications.OnEventFollows | browser.py:68-69 | The page listeners keep the notification log coherent. |
| Notifications.ProcessCommandFollows | browser.py:112-154 | Serving a command keeps the notification log coherent. |
| Notifications.PollFollows | browser.py:177-192 | The polling pass keeps the notification log coherent. |
| Notifications.LifetimeCoherent | browser.py:20-192 | Over the worker's life the callback never hears the same status twice in a row for a system. The last status it heard for a system is the one in the table. |
| BrowserFacade.Start | browser.py:14-18 | After `start` the manager is started. The thread is started only if it was not started before. |
| BrowserFacade.StartOnce | browser.py:14-18 | However many times `start` is called, the worker thread is started at most once, and exactly once if `start` was called at all. |
| BrowserFacade.SystemConfig | browser.py:238-245 | A configuration is found exactly when the id is a string naming a catalog system. It is that system's first entry. |
| BrowserFacade.ResolveExecute | browser.py:195-209 | `System config not found` is returned exactly when no system, or an empty record, is found. An `execute` is queued exactly when the system offers the action as a mapping with non-empty `js_injection`, and it carries that JavaScript for that id. `No JS code defined` is returned exactly when that mapping's `js_injection` is missing or falsy. |
| BrowserFacade.ResolveAction | browser.py:203-209 | Once a record is found, the resolution never reports a missing configuration. It queues exactly when the action's entry is a mapping with a truthy `js_injection`, and the command carries that JavaScript. `No JS code defined` is returned exactly when the entry is a mapping whose `js_injection` is missing or falsy. With an `actions` mapping, the other rejection, `not supported`, is returned exactly when the action is not a key of it. |
| BrowserFacade.UnknownSystemFirst | browser.py:199-201 | An unknown system is rejected first, whatever the action. |
| BrowserFacade.UnsupportedAction | browser.py:203-205 | A system that does not offer the action gets `Action <name> not supported by this system` before any JavaScript is looked at. |
| BrowserFacade.ExecuteCommand | browser.py:195-218 | Only a resolved action adds to the queue, and it adds one command. A rejection returns a failure and an error raises, both with the queue unchanged. A queued command returns the worker's reply unchanged, or the timeout failure when no reply came. |
| BrowserFacade.RestartSystem | browser.py:220-227 | A restart always queues exactly one `restart` command. The caller gets the worker's reply unchanged, or the timeout failure when no reply came. |
| BrowserFacade.GetStatus | browser.py:229-236 | A status request queues one `status` command. The caller gets the worker's reply unchanged, or an empty mapping when no reply came. |
| BrowserFacade.Close | browser.py:247-250 | `close` queues the sentinel last and does not change whether the worker was started. |
| App.MapAction | app.py:69-84 | An action is unknown exactly when the `actions` table is a mapping without a truthy entry for it. It is mapped exactly when its entry has a truthy mapping for the system's type, and the target is that mapping's value. It is unsupported exactly when its entry is truthy and its `mappings` is a mapping with no truthy value for the type. |
| App.UnknownSystemReported | app.py:64-67 | An unknown system gets `System not found` and nothing reaches the manager. |
| App.UnknownActionReported | app.py:72-75 | A found system whose action has no truthy entry gets the `Unknown action` error for the requested system, with no action id, and the manager is untouched. |
| App.UnsupportedReported | app.py:77-84 | A found system whose action is not mapped for its type gets the `Action not supported` error, with no action id, and the manager is untouched. |
| App.MappedExecutes | app.py:86-95 | A mapped action is executed on the requested system with the mapped target. The reply echoes the action id, says `success` exactly when the manager's answer succeeded, and carries its message. An error raised by `execute_command` propagates. |
| App.ErrorsAfterLookup | app.py:64-84 | `Unknown action` and `Action not supported` are reported only for a found system, and leave the manager untouched. `Unknown action` means the action table has no entry for the action. |
| App.ExecutesMappedAction | app.py:77-87 | Only a mapped action reaches the manager: the request found its system and the action table maps the action for that system's type. The manager sees the mapped value itself, for the requested system. |
| App.EchoesResult | app.py:87-95 | A result that carries an action id comes from a mapped action the manager answered. It carries the abstract action, its status is `success` exactly when the answer succeeded, and it echoes the answer's message. |
| App.AdminRestartTarget | app.py:108-109 | An empty body, or a mapping without `system_id`, restarts `all`. A given `system_id` is used as it is, and a body that is not a mapping raises. |
| App.ShellRestartTarget | app.py:135 | The shell's `restart` without an argument means `all`; otherwise the argument is the target. |
| App.RestartEntryPoints | app.py:108-110 | Both restart entry points queue exactly one restart, for their target. |
| Endpoints.PortOf | test-endpoints/launch.py:38 | The port can be read exactly when the configuration is a mapping whose `server` entry, if any, is a mapping. |
| Endpoints.PortDefault | test-endpoints/launch.py:38 | The port is 5000 unless the configuration's `server` mapping names one. |
| Endpoints.Discover | test-endpoints/launch.py:19-47 | Discovery starts afresh. Each directory name ends up with the endpoint of the last candidate admitted under that name, and each name appears once. |
| Endpoints.AdmittedUnderOwnName | test-endpoints/launch.py:39-45 | Every endpoint is filed under its own directory name. |
| Endpoints.Classify | test-endpoints/launch.py:152-157 | An endpoint is `STOPPED` exactly when untracked, `RUNNING` exactly when its process is alive, and `EXITED` exactly when it is tracked but dead. |
| Endpoints.StartEndpoint | test-endpoints/launch.py:49-76 | An undiscovered or running endpoint is left alone. Otherwise exactly one spawn is attempted: success makes the endpoint running, failure leaves it as it was. No other endpoint changes. |
| Endpoints.StopEndpoint | test-endpoints/launch.py:78-104 | After `stop` the endpoint is untracked, whether its process was alive or had exited. An untracked name changes nothing, and no other endpoint changes. |
| Endpoints.RestartEndpoint | test-endpoints/launch.py:106-109 | A discovered endpoint ends running if the spawn succeeds, and stopped otherwise. An undiscovered one ends stopped. No other endpoint changes. |
| Endpoints.ProcessExits | test-endpoints/launch.py:153-157 | A tracked process that ends on its own shows as `EXITED`, and nothing else changes. |
| Endpoints.StatusReport | test-endpoints/launch.py:145-159 | `No endpoints discovered` is printed exactly when there are none. Otherwise there is one row per endpoint, in discovery order, with its port and condition. |
| Endpoints.StopEach | test-endpoints/launch.py:216-219 | Stopping a list of names untracks exactly those names and changes nothing else. |
| Endpoints.StopAllEmpties | test-endpoints/launch.py:193-197 | Stopping every tracked name leaves no process tracked. |
| Endpoints.StartEach | test-endpoints/launch.py:209-212 | `start all` changes only the endpoints it visits. |
| Endpoints.RestartEach | test-endpoints/launch.py:223-231 | `restart all` changes only the endpoints it visits. |
| Endpoints.RestartOne | test-endpoints/launch.py:226-231 | A discovered name, tracked or not, alive or not, gets exactly one spawn attempt and ends running if it succeeds, stopped otherwise. An undiscovered name gets none. No other endpoint changes. |
| Endpoints.RestartAllSpawnsOnce | test-endpoints/launch.py:224-231 | `restart all` over discovered names makes exactly one spawn attempt per name, live processes included. |
| Endpoints.RestartAllRespawnsEach | test-endpoints/launch.py:224-231 | Over distinct discovered names, the i-th name ends running exactly when spawn attempt `spawns + i` succeeds and stopped otherwise, whatever its state before. |
| Endpoints.RestartAllLeavesNoneExited | test-endpoints/launch.py:224-231 | After `restart all`, no discovered endpoint is left exited. |
| Endpoints.RestartAllRuns | test-endpoints/launch.py:224-231 | When every spawn succeeds, `restart all` leaves every discovered endpoint running. |
| Repl.Strip | test-endpoints/launch.py:182 | The stripped line is a contiguous piece of the input that neither starts nor ends with whitespace. |
| Repl.StripKeepsLetters | test-endpoints/launch.py:182 | Stripping removes only whitespace. |
| Repl.Lower | test-endpoints/launch.py:182 | Lower-casing keeps the length and maps each character through the ASCII lower-case rule. |
| Repl.LowerKeepsSpaces | test-endpoints/launch.py:182 | Lower-casing neither creates nor removes whitespace. |
| Repl.Words | test-endpoints/launch.py:189 | Every word is non-empty and holds no whitespace. |
| Repl.WordsKeepLetters | test-endpoints/launch.py:189 | Joining the words back gives exactly the line's non-whitespace characters, in order. |
| Repl.WordsOfSpaced | test-endpoints/launch.py:189 | Splitting non-empty, whitespace-free words joined by single spaces gives back exactly those words: no word is split further or merged. |
| Repl.WordsOfNonBlank | test-endpoints/launch.py:186-190 | A line that is not blank has a first word. |
| Repl.ParseLine | test-endpoints/launch.py:182-191 | A line is skipped exactly when it is blank after stripping. Otherwise, of the words of the stripped and then lower-cased line, the command is the first and the argument is the second, if any. |
| Repl.QuitStopsEverything | test-endpoints/launch.py:193-197 | `quit` and `exit`, in any case and with any surrounding whitespace, end the loop with no process tracked and the endpoints unchanged. |
| Repl.RestartAllCommand | test-endpoints/launch.py:223-231 | `restart` with no argument, or with `all`, leaves no discovered endpoint exited. |
| Repl.RestartAllCommandRespawns | test-endpoints/launch.py:223-231 | `restart` with no argument, or with `all`, gives the i-th discovered endpoint spawn attempt `spawns + i`: it runs exactly when that attempt succeeds, whether it was running, exited or stopped before. |
| Repl.ReportsChangeNothing | test-endpoints/launch.py:199-242 | `status`, `list`, `help`, `kiosk` and unknown commands leave the launcher's table as it was. |
| Repl.UnknownCommand | test-endpoints/launch.py:241-242 | An unknown word is echoed back as unknown. |

## Left out

- Threads, the queue's blocking and the reply timeouts are not modelled. A caller's wait is the reply the worker posted, or `None` for a timeout. The worker's own commands are a sequence per loop iteration.
- The Playwright library is not modelled. Its answers are the `Worker.Driver` oracle. The browser launch, the `headless` flag, viewport, credentials, the URL that is built and the 100 ms event pump wait are left out because they decide nothing in the model.
- The wall-clock poll throttle (`time.time()`, two seconds) is a per-iteration flag `pollDue`. Which listener events fire during the pump is the iteration's `events`.
- Closing the browser on the sentinel, and the `with` block around it, are not modelled: the model only records that the loop ended.
- Logging and console output are left out.
- Reading `types.yaml` and `config.yaml` is left out. `load_config` takes both documents already parsed, so the missing-file `None` returns are not modelled.
- Floating-point YAML values are not modelled. Mapping keys are strings only, and integer or boolean keys cannot be expressed.
- BrowserFacade.ResolveExecute: when a system's `actions` is a string or a list, membership then means a substring or element test. The model does not compute it and reports a fixed error instead.
- Repl.Lower: only ASCII letters are lower-cased. Python's full Unicode case mapping is not modelled.
- Repl.Strip: whitespace is Python's `isspace` below U+0100. Other Unicode whitespace is treated as ordinary characters.
- Flask, SocketIO, rendering, the HTTP status routes, `admin_shutdown` and the rest of `AppShell` are not part of this model. So are `status_callback`'s transport to the UI and `verify.py`.
- `App.HandleExecution` has no postcondition of its own. Its behaviour is stated by the lemmas about it (`UnknownSystemReported`, `UnknownActionReported`, `UnsupportedReported`, `MappedExecutes`, `ErrorsAfterLookup`, `ExecutesMappedAction`, `EchoesResult`).
- The launcher's file system scan, `subprocess`, `terminate`/`kill`/`taskkill` and the one-second sleep in restart are not modelled. Whether a spawn succeeds is the `Endpoints.Spawner` input, and a stop always succeeds in untracking.
- `launch_kiosk` is not modelled beyond leaving the launcher's table unchanged: it only opens browser windows.
- `KeyboardInterrupt` ending the launcher loop is not modelled. Neither is end of input: `input()` then raises `EOFError`, which the launcher does not catch.
- Worker.RestartAllReportsRegistered: proved only for catalogs whose ids are distinct across groups. With a repeated id the list names every successful `init_system`, even one that a later entry's failure undid. For every catalog, the list itself is stated by `Worker.RestartAllLists`.
- Worker.Release: the page's `close` listener is modelled only during the event pump. With the synchronous driver, closing an open page inside `init_system` fires that listener at once, so the callback hears `OFFLINE` just before `CONNECTING`. The model writes no such status.
- Worker.StartupSettles: states `ONLINE` or `ERROR` for every system after startup. A page that closes or crashes while navigation is under way fires its listener during that driver call, and the system can then end `OFFLINE`. Listener events are modelled only in the pump phase.
