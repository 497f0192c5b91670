# zrlog core, modelled in Dafny

This project models the sequential logic inside the `zrlog` logging wrapper and
its predecessor `zirconium_logs`:

- **the severity table** (`Levels`): `_add_logging_level` registers an
  upper-cased level name in the backend's two level dictionaries, as a constant
  attribute, and a lower-cased convenience function; `_LogSettingManager.init`
  registers AUDIT=1, TRACE=5, OUT=25 and NOTICE=27 once, behind the
  `has_been_init` flag; the older `init_logging` registers AUDIT, TRACE and OUT
  on every call;
- **the extras store** (`Extras`): the process-wide defaults and the current
  context's optional layer, `set_default(s)`, `set_logging_extra(s)` and
  `get_logging_extras` (defaults overlaid by the context layer);
- **the logger facade** (`Facade`): `ImprovedLogger._log` merging the effective
  extras over the caller's `extra`, `exception` without stack traces, and the
  `audit`/`trace`/`out`/`notice` level gates over an abstract `isEnabledFor`
  (the older package's `ImprovedLogger.audit`/`trace`/`out` gates are the same
  and are modelled by the same `Facade` functions);
- **the audit relay** (`AuditEntry`, `AuditRelay`, `LegacyRelay`): the hook's
  entry format `action + ": " + ";".join(info)`, the `sys._getframe` filter,
  the choice of emission method, and both relays as state machines (queue, halt
  flag, worker phase, delivered entries) stepped by hook calls, worker
  iterations and the halt request in any order.

Threads are replaced by arbitrary sequential interleavings (`AuditEntry.Op`
sequences run by `Exec`). The logging backend is a parameter: `isEnabledFor` is
a predicate `int -> bool`, emitting a record appends it to an output sequence,
and the logger's attribute names are a set of strings. `info` items are taken as
already converted to strings.

Behaviour of the code worth noting:

- `_log` updates the caller's `extra` dict with the effective extras, so on a
  shared key the context/default value wins over the caller's value, not the
  other way round.
- `set_logging_extras` updates the existing context dict in place, so the code
  does not isolate a child context's writes from its parent's dict; the model
  has one current context and claims no isolation.
- A caller passing `extra=None` makes `_log` raise (`None` has no `update`);
  the model returns `Failure(NoneHasNoUpdate)` there.
- The relay's fallback to `audit` happens when the configured name is exactly
  `"AUDIT"` or when the logger has no attribute of the lower-cased name; the
  `audit` attribute is read first in every case, so a logger without it makes
  `AuditLog.__init__` raise.

## Model

| member | source | states |
|---|---|---|
| Levels.AddLoggingLevelEffect | src/zrlog/logger.py:38-48 | registering a level names its number by the upper-cased name in both dictionaries, the lower-cased name logs at that number, the upper-cased name holds it as a constant unless both spellings coincide, exactly those two attributes are added, and every other entry is unchanged |
| Levels.AddLoggingLevelCaseInsensitive | src/zrlog/logger.py:44-45 | registering a name and registering its upper-cased form give the same table |
| Levels.AddLoggingLevelIdempotent | src/zirconium_logs/logs.py:68-78 | registering the same name and number a second time leaves the table as it was |
| Levels.LibraryLevelsTable | src/zrlog/logger.py:26-33 | after the four registrations AUDIT, TRACE, OUT and NOTICE map to 1, 5, 25 and 27 and back, as constants, with functions audit, trace, out and notice |
| Levels.Init | src/zrlog/logger.py:24-36 | the first call registers the four library levels, leaves every other registry entry unchanged and adds none (only the upper-case names become level names), installs the improved logger class and raises the flag; a call with the flag raised returns the state unchanged |
| Levels.InitIdempotent | src/zrlog/logger.py:25 | calling init twice is the same as calling it once |
| Levels.LegacyInitLogging | src/zirconium_logs/logs.py:86-94 | the older initialisation leaves AUDIT, TRACE and OUT at 1, 5 and 25 with their lower-case functions, leaves every other registry entry unchanged and adds none (only the upper-case names become level names), and installs the improved logger class |
| Levels.LibraryLevelsKeepOthers | src/zrlog/logger.py:26-33 | the four registrations change no registry entry other than the four numbers, the four upper-case level names and the eight attribute spellings, and add no entry besides those |
| Levels.LegacyLevelsTable | src/zirconium_logs/logs.py:86-91 | after the older package's three registrations AUDIT, TRACE and OUT map to 1, 5 and 25 and back, as constants, with functions audit, trace and out |
| Levels.LegacyLevelsKeepOthers | src/zirconium_logs/logs.py:86-91 | the older package's three registrations change no registry entry other than their three numbers, the three upper-case level names and the six attribute spellings, and add no entry besides those |
| Levels.LegacyInitLoggingIdempotent | src/zirconium_logs/logs.py:86-94 | repeating the older package's level registrations and logger-class installation changes nothing |
| Levels.CustomLevelOrder | src/zrlog/logger.py:26-33 | AUDIT and TRACE sit below DEBUG, OUT and NOTICE strictly between INFO and WARNING |
| Extras.Effective | src/zrlog/logger.py:68-77 | the effective extras have the keys of the defaults and of the context layer, a layer value wins on a shared key, a default shows elsewhere, and with no layer they are exactly the defaults |
| Extras.EffectiveIsOverlay | src/zrlog/logger.py:68-77 | all three branches agree with the single overlay of the defaults by the context layer |
| Extras.EffectiveEmptyDefaults | src/zrlog/logger.py:72-73 | with empty defaults the result is exactly the context layer, which is also what the overlay gives |
| Extras.SetDefault | src/zrlog/logger.py:50-52 | the given key now holds the given default, every other default is unchanged, the context layer is untouched |
| Extras.SetDefaults | src/zrlog/logger.py:54-56 | keys of the given map take its values, every other default keeps its value, the context layer is untouched |
| Extras.SetLoggingExtras | src/zrlog/logger.py:61-66 | the layer becomes the old layer (empty if absent) with the given extras' values on their keys and every other key kept, and the defaults are untouched |
| Extras.SetLoggingExtra | src/zrlog/logger.py:58-59 | setting one extra is setting the layer (empty if absent) at that key |
| Extras.SetExtraThenEffective | src/zrlog/logger.py:58-66 | after setting a context extra the effective extras are the previous ones with that key set to the new value |
| Extras.SetDefaultThenEffective | src/zrlog/logger.py:50-52 | a new default shows in the effective extras exactly when the context layer does not hold that key |
| Facade.RecordExtras | src/zrlog/logger.py:111-120 | the record's extras are the caller's dict (or empty) updated by the effective extras, effective values winning; `extra=None` is an error |
| Facade.RecordExtrasPrecedence | src/zrlog/logger.py:112-119 | on every key of a record a context value beats a default, which beats the caller's value |
| Facade.Audit | src/zrlog/logger.py:128-131 | one record at level 1 is appended iff level 1 is enabled, otherwise the output is unchanged |
| Facade.Trace | src/zrlog/logger.py:133-136 | one record at level 5 is appended iff level 5 is enabled, otherwise the output is unchanged |
| Facade.Out | src/zrlog/logger.py:138-141 | one record at level 25 is appended iff level 25 is enabled, otherwise the output is unchanged |
| Facade.Notice | src/zrlog/logger.py:143-146 | one record at level 27 is appended iff level 27 is enabled, otherwise the output is unchanged |
| Facade.GatesOpenInLevelOrder | src/zrlog/logger.py:128-146 | under a threshold backend AUDIT output implies TRACE output implies OUT output implies NOTICE output, and a threshold between INFO and OUT lets OUT through but not TRACE |
| Facade.Exception | src/zrlog/logger.py:122-126 | an enabled ERROR gate yields one ERROR record carrying exception information iff stack traces are shown; a disabled one yields nothing |
| AuditEntry.FormatRoundTrip | src/zrlog/logs.py:46 | an entry is the action, then ": ", then info joined by ";", which splits back into the info items when there is at least one item and none contains ";" |
| AuditEntry.LoggingFrameIffInfo | src/zrlog/logs.py:47-48 | for a `sys._getframe` event the filter fires exactly when the joined info contains one of the two `logging/__init__.py` path fragments |
| AuditEntry.FilterDecisions | src/zrlog/logs.py:48-49 | other actions and a disabled filter always enqueue; a frame event whose info names the logging package's `__init__.py` is dropped iff omission is on |
| AuditEntry.HookEntries | src/zrlog/logs.py:45-49 | a hook call adds at most one entry, exactly the formatted one, and adds it iff the flag is clear and the frame filter (when on) does not match |
| AuditEntry.SelectCallback | src/zrlog/logs.py:31-33 | a logger without an audit attribute is an error; otherwise the level name "AUDIT", or a name the logger has no attribute for, selects audit, and any other name selects its lower-cased form |
| AuditEntry.SelectCallbackTotal | src/zrlog/logs.py:31-33 | any spelling of "AUDIT" that differs only in case selects what "AUDIT" selects |
| AuditRelay.New | src/zrlog/logs.py:26-36 | construction fails iff the logger has no audit attribute; otherwise the relay has an empty queue, no deliveries, the flag clear and the selected emission method |
| AuditRelay.Hook | src/zrlog/logs.py:43-49 | with the flag set or the entry filtered the relay is unchanged; otherwise exactly the formatted entry is appended to the queue and nothing else changes |
| AuditRelay.Deliver | src/zrlog/logs.py:55-59 | a non-empty queue hands its head to the emission method; an empty one changes nothing; delivered-then-queued is preserved |
| AuditRelay.WorkerStep | src/zrlog/logs.py:53-61 | a polling step delivers the head when the flag is clear, waits on an empty queue, and moves to draining when the flag is set; a draining step delivers the head or returns on an empty queue; no step loses, reorders or duplicates an entry |
| AuditRelay.RunToExit | src/zrlog/logs.py:53-61 | with the flag set the worker returns with the queue empty, having delivered every queued entry in order |
| AuditRelay.HaltAndJoin | src/zrlog/logs.py:38-41 | halt returns only after the queue is empty and everything queued before it has been delivered |
| AuditRelay.DrainQueue | src/zrlog/logs.py:60-61 | the final loop empties the queue, delivers its entries in order, and from the draining phase ends with what the worker's own steps deliver |
| AuditRelay.ExecFifo | src/zrlog/logs.py:43-61 | in any interleaving, delivered followed by queued equals the accepted entries in acceptance order |
| AuditRelay.ExecInv | src/zrlog/logs.py:53-61 | in any interleaving the worker leaves polling only after halt and returns only with an empty queue, and the flag stays set |
| AuditRelay.NoEnqueueAfterHalt | src/zrlog/logs.py:45 | once the flag is set no later hook call enqueues anything |
| AuditRelay.DeliveredPrefixOfAccepted | src/zrlog/logs.py:53-55 | from a fresh relay the delivered entries are always a prefix of the accepted ones, and all of them once the worker has returned |
| AuditRelay.HaltDeliversEverything | src/zrlog/logs.py:38-49 | after any interleaving, halt delivers every accepted entry in order and a later hook call changes nothing |
| LegacyRelay.New | src/zirconium_logs/logs.py:25-32 | a new relay has an empty queue, no deliveries, the flag clear and the given omission switch |
| LegacyRelay.Hook | src/zirconium_logs/logs.py:39-45 | with the flag set or the entry filtered the relay is unchanged; otherwise exactly the formatted entry is appended to the queue |
| LegacyRelay.WorkerStep | src/zirconium_logs/logs.py:49-58 | a successful dequeue hands the head to audit and keeps run going; an empty dequeue ends run iff the flag is set; once run has returned nothing changes; nothing is lost or reordered |
| LegacyRelay.RunToExit | src/zirconium_logs/logs.py:49-56 | with the flag set the worker returns with the queue empty, having handed every queued entry to audit in order |
| LegacyRelay.HaltAndJoin | src/zirconium_logs/logs.py:34-37 | halt returns only after every queued entry has gone to audit |
| LegacyRelay.EmptyWithoutHaltLoops | src/zirconium_logs/logs.py:53-58 | an empty dequeue without the flag neither returns nor changes anything |
| LegacyRelay.ExecFifo | src/zirconium_logs/logs.py:39-52 | in any interleaving, delivered followed by queued equals the accepted entries in acceptance order |
| LegacyRelay.ExecInv | src/zirconium_logs/logs.py:47-58 | in any interleaving run returns only with the flag set and the queue empty, and the flag stays set |
| LegacyRelay.ExitMeansDrained | src/zirconium_logs/logs.py:34-58 | from a fresh relay, once run has returned every accepted entry went to audit in order; halt ends the same way and later hooks change nothing |
| LegacyRelay.VariantsAgreeOnHalt | src/zirconium_logs/logs.py:47-58 | from the same queue and deliveries both relays have emitted the same entries in the same order when halt returns |

## Left out

- Threads, `threading.Lock`, `threading.Event`, `join`, the daemon flag and the
  0.1 s waits and sleeps: replaced by sequential interleavings of hook calls,
  worker iterations and the halt request.
- The race in which a hook call that passed the flag check enqueues after the
  final drain has finished: each hook call is one atomic step in the model.
- `contextvars` propagation across threads and tasks: there is one current
  context, an `Option` of a map.
- Extras.SetLoggingExtras: does not model that the context dict is updated in
  place, so a child context sharing its parent's dict would see the change;
  value-typed maps cannot express that aliasing.
- Facade.RecordExtras: does not model that the caller's own `extra` dict is
  mutated in place by the update.
- `_LogSettingManager.get` (double-checked-locking singleton) and the
  module-level wrappers `set_default_extra`, `set_extra`, `set_extras`,
  `set_show_stack_trace`, `get_logger`: plain delegation to the modelled
  operations; `show_stack_traces` is the `Facade.Exception` parameter.
- `zr.configure` file registration, `ZRLOG_CONFIG_FILE`, `dictConfig`,
  `injector.inject`, the Python-version check, `sys.addaudithook` and
  `atexit.register`: foreign configuration and runtime calls.
- The logging backend: `isEnabledFor` is an abstract predicate, records are
  appended to an output sequence, `setLoggerClass` is a flag, and record
  rendering, handlers and the extra gate inside `Logger.log` are not modelled.
- Facade.Audit, Facade.Trace, Facade.Out, Facade.Notice: the `*args` and
  `**kwargs` passed on to `self.log` (format arguments, `extra`, `exc_info`,
  `stack_info`) are dropped, and the emitted record carries no extras; so the
  error raised by `extra=None` at the `extras.update` call is not reflected in
  these gates (it is modelled by `Facade.RecordExtras`).
- Levels.LegacyInitLoggingIdempotent: covers only the level registrations and
  the logger-class installation; a repeated `init_logging` with `with_audit` set
  starts another audit relay with another audit hook and exit handler, so each
  audit event is then queued and logged once per call, which is not modelled.
- Facade.Exception: an `exc_info` argument passed explicitly by the caller is
  not modelled.
- AuditEntry.SelectCallback: the logger's attribute names are a given set; an
  attribute that exists but is not callable would make the worker raise, which
  is not modelled.
- LegacyRelay.WorkerStep: assumes the `sys.audit` logger has an `audit` method
  (the improved logger class installed by `init_logging` provides it); without
  it the worker's call at each dequeue would raise.
- `str(x)` of arbitrary objects in the hook: `info` items are already strings.
- Case mapping: `str.upper` and `str.lower` are modelled on ASCII letters only;
  other characters are left unchanged.
