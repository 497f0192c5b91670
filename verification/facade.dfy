/** The improved logger: every record's extras are merged with the effective
    extras, `exception` can drop stack traces, and each custom level has a
    convenience method gated on the backend's `isEnabledFor`. The backend is
    abstract: `isEnabledFor` is a predicate on level numbers and emitting a
    record appends it to an output log. */
module Facade {
  import opened Wrappers
  import opened Extras
  import opened Levels

  /** The `extra` argument a caller handed to `_log`: left out, given as `None`,
      or given as a dictionary. */
  datatype CallerExtra<V> = Omitted | NoneGiven | Given(m: map<string, V>)

  /** `None.update(...)` raises. */
  datatype LogError = NoneHasNoUpdate

  /** `ImprovedLogger._log`: the record's extras are the caller's dictionary (a
      fresh `{}` when none was passed) updated by the effective extras, so an
      effective value wins over a caller value on a shared key. */
  function RecordExtras<V>(caller: CallerExtra<V>, st: ExtrasState<V>): (r: Result<map<string, V>, LogError>)
    ensures caller.NoneGiven? <==> r.Failure?
    ensures caller.Omitted? ==> r == Success(Effective(st))
    ensures caller.Given? ==>
      && r.Success?
      && r.value.Keys == caller.m.Keys + Effective(st).Keys
      && (forall k :: k in Effective(st) ==> r.value[k] == Effective(st)[k])
      && (forall k :: k in caller.m && k !in Effective(st) ==> r.value[k] == caller.m[k])
  {
    match caller
    case Omitted =>
      assert Update(map[], Effective(st)) == Effective(st);
      Success(Update(map[], Effective(st)))
    case NoneGiven => Failure(NoneHasNoUpdate)
    case Given(m) => Success(Update(m, Effective(st)))
  }

  /** Precedence on a record: a context value beats a default, which beats the
      caller's value. */
  lemma RecordExtrasPrecedence<V>(m: map<string, V>, st: ExtrasState<V>, k: string)
    requires k in m || k in st.defaults || k in Layer(st)
    ensures RecordExtras(Given(m), st).Success?
    ensures var x := RecordExtras(Given(m), st).value;
      && k in x
      && x[k] == (if k in Layer(st) then Layer(st)[k]
                  else if k in st.defaults then st.defaults[k]
                  else m[k])
  {
  }

  /** An emitted record: its level, message and whether exception information
      (a stack trace) is rendered with it. */
  datatype Record = Record(level: int, msg: string, excInfo: bool)

  /** `self.log(level, message)` behind an `isEnabledFor(level)` check. */
  function LogIfEnabled(isEnabledFor: int -> bool, out: seq<Record>, level: int, msg: string): seq<Record> {
    if isEnabledFor(level) then out + [Record(level, msg, false)] else out
  }

  /** What a gated call does to the output log: exactly one record at `level`
      appended when the level is enabled, nothing otherwise. */
  predicate GatedAt(isEnabledFor: int -> bool, out: seq<Record>, level: int, msg: string, r: seq<Record>) {
    && (isEnabledFor(level) ==> |r| == |out| + 1 && r[..|out|] == out && r[|out|] == Record(level, msg, false))
    && (!isEnabledFor(level) ==> r == out)
  }

  function Audit(isEnabledFor: int -> bool, out: seq<Record>, msg: string): (r: seq<Record>)
    ensures GatedAt(isEnabledFor, out, AUDIT, msg, r)
  {
    LogIfEnabled(isEnabledFor, out, 1, msg)
  }

  function Trace(isEnabledFor: int -> bool, out: seq<Record>, msg: string): (r: seq<Record>)
    ensures GatedAt(isEnabledFor, out, TRACE, msg, r)
  {
    LogIfEnabled(isEnabledFor, out, 5, msg)
  }

  function Out(isEnabledFor: int -> bool, out: seq<Record>, msg: string): (r: seq<Record>)
    ensures GatedAt(isEnabledFor, out, OUT, msg, r)
  {
    LogIfEnabled(isEnabledFor, out, 25, msg)
  }

  function Notice(isEnabledFor: int -> bool, out: seq<Record>, msg: string): (r: seq<Record>)
    ensures GatedAt(isEnabledFor, out, NOTICE, msg, r)
  {
    LogIfEnabled(isEnabledFor, out, 27, msg)
  }

  /** A backend whose effective level is `threshold`: a level is enabled iff it
      is at least the threshold. */
  ghost predicate Threshold(isEnabledFor: int -> bool, threshold: int) {
    forall level :: isEnabledFor(level) <==> level >= threshold
  }

  /** Under a threshold backend the gates open in level order: if AUDIT records
      get through so do TRACE ones, if TRACE then OUT, if OUT then NOTICE; and a
      threshold between INFO and OUT lets OUT and NOTICE through but not TRACE. */
  lemma GatesOpenInLevelOrder(isEnabledFor: int -> bool, threshold: int, out: seq<Record>, msg: string)
    requires Threshold(isEnabledFor, threshold)
    ensures |Audit(isEnabledFor, out, msg)| > |out| ==> |Trace(isEnabledFor, out, msg)| > |out|
    ensures |Trace(isEnabledFor, out, msg)| > |out| ==> |Out(isEnabledFor, out, msg)| > |out|
    ensures |Out(isEnabledFor, out, msg)| > |out| ==> |Notice(isEnabledFor, out, msg)| > |out|
    ensures INFO < threshold <= OUT ==>
      |Out(isEnabledFor, out, msg)| > |out| && |Notice(isEnabledFor, out, msg)| > |out|
      && Trace(isEnabledFor, out, msg) == out
  {
  }

  /** `ImprovedLogger.exception`: with stack traces shown, the backend's
      `exception` (an ERROR record carrying the exception information); with them
      hidden, a plain `error` call. Both go through the ERROR gate. */
  function Exception(showStackTraces: bool, isEnabledFor: int -> bool, out: seq<Record>, msg: string): (r: seq<Record>)
    ensures !isEnabledFor(ERROR) ==> r == out
    ensures isEnabledFor(ERROR) ==>
      |r| == |out| + 1 && r[..|out|] == out && r[|out|].level == ERROR && r[|out|].msg == msg
    ensures isEnabledFor(ERROR) ==> (r[|out|].excInfo <==> showStackTraces)
  {
    if showStackTraces then
      if isEnabledFor(40) then out + [Record(40, msg, true)] else out
    else
      LogIfEnabled(isEnabledFor, out, 40, msg)
  }
}
