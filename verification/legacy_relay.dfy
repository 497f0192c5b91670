/** The older package's audit relay: the same hook, but a worker that always
    tries the queue first and only returns when a dequeue finds it empty with
    the halt flag set. Entries are always handed to `audit`. */
module LegacyRelay {
  import opened AuditEntry
  import AuditRelay

  /** The relay: the queue, the halt flag, whether `run` has returned, the
      entries handed to `audit` so far and the omission switch. */
  datatype Relay = Relay(
    queue: seq<string>,
    halted: bool,
    exited: bool,
    delivered: seq<string>,
    omitLoggingFrames: bool)

  /** `AuditLog.__init__`. */
  function New(omitLoggingFrames: bool): (r: Relay)
    ensures r.queue == [] && r.delivered == [] && !r.halted && !r.exited
    ensures r.omitLoggingFrames == omitLoggingFrames
  {
    Relay([], false, false, [], omitLoggingFrames)
  }

  /** `audit_hook(action, info)`: nothing once the flag is set; otherwise the
      formatted entry is queued unless the frame filter drops it. */
  function Hook(s: Relay, action: string, info: seq<string>): (r: Relay)
    ensures s.halted || !Keeps(s.omitLoggingFrames, action, info) ==> r == s
    ensures !s.halted && Keeps(s.omitLoggingFrames, action, info) ==>
      r == s.(queue := s.queue + [Format(action, info)])
  {
    s.(queue := s.queue + HookEntries(s.halted, s.omitLoggingFrames, action, info))
  }

  /** One iteration of `run`: a successful dequeue hands the head to `audit`;
      an empty queue ends `run` if the flag is set and is waited out otherwise. */
  function WorkerStep(s: Relay): (r: Relay)
    ensures r.delivered + r.queue == s.delivered + s.queue
    ensures !s.exited && |s.queue| > 0 ==>
      !r.exited && r.delivered == s.delivered + [s.queue[0]] && r.queue == s.queue[1..]
    ensures s.exited ==> r == s
    ensures !s.exited && |s.queue| == 0 ==> r == s.(exited := s.halted)
    ensures r.halted == s.halted && r.omitLoggingFrames == s.omitLoggingFrames
  {
    if s.exited then s
    else if |s.queue| > 0 then s.(queue := s.queue[1..], delivered := s.delivered + [s.queue[0]])
    else if s.halted then s.(exited := true)
    else s
  }

  /** `halt()`'s first half: the flag is set. */
  function Halt(s: Relay): Relay {
    s.(halted := true)
  }

  /** `run` only returns after the flag is set and with the queue empty. */
  predicate Inv(s: Relay) {
    s.exited ==> s.halted && s.queue == []
  }

  function Remaining(s: Relay): nat {
    |s.queue| + (if s.exited then 0 else 1)
  }

  /** `join()` once the flag is set: the worker keeps delivering until a dequeue
      finds the queue empty, then returns; everything queued has been handed to
      `audit`, in order. */
  function RunToExit(s: Relay): (r: Relay)
    requires s.halted && Inv(s)
    ensures r.exited && r.queue == [] && r.halted
    ensures r.delivered == s.delivered + s.queue
    ensures r.omitLoggingFrames == s.omitLoggingFrames
    decreases Remaining(s)
  {
    if s.exited then s
    else RunToExit(WorkerStep(s))
  }

  /** `halt()`: set the flag, then wait for `run` to return. */
  function HaltAndJoin(s: Relay): (r: Relay)
    requires Inv(s)
    ensures r.exited && r.queue == [] && r.delivered == s.delivered + s.queue
  {
    RunToExit(Halt(s))
  }

  /** A worker iteration that finds the queue empty without the flag set waits
      and tries again: it neither returns nor changes anything. */
  lemma EmptyWithoutHaltLoops(s: Relay)
    requires Inv(s) && !s.halted && s.queue == []
    ensures WorkerStep(s) == s && !WorkerStep(s).exited
  {
  }

  /** Interleavings of hook calls, worker iterations and the halt request. */
  function Apply(s: Relay, op: Op): Relay {
    match op
    case HookCall(action, info) => Hook(s, action, info)
    case Work => WorkerStep(s)
    case HaltRequest => Halt(s)
  }

  function Exec(s: Relay, ops: seq<Op>): Relay
    decreases |ops|
  {
    if |ops| == 0 then s else Exec(Apply(s, ops[0]), ops[1..])
  }

  /** The entries the hook accepted along the operations, in order. */
  function Enqueued(s: Relay, ops: seq<Op>): seq<string>
    decreases |ops|
  {
    if |ops| == 0 then []
    else
      var head := match ops[0]
        case HookCall(action, info) => HookEntries(s.halted, s.omitLoggingFrames, action, info)
        case _ => [];
      head + Enqueued(Apply(s, ops[0]), ops[1..])
  }

  /** FIFO: delivered followed by queued is always the accepted entries, in
      acceptance order, after what was there before. */
  lemma {:induction false} ExecFifo(s: Relay, ops: seq<Op>)
    ensures Exec(s, ops).delivered + Exec(s, ops).queue == s.delivered + s.queue + Enqueued(s, ops)
    decreases |ops|
  {
    if |ops| > 0 {
      ExecFifo(Apply(s, ops[0]), ops[1..]);
    }
  }

  /** Every interleaving keeps the invariant, and keeps the flag once set. */
  lemma {:induction false} ExecInv(s: Relay, ops: seq<Op>)
    requires Inv(s)
    ensures Inv(Exec(s, ops))
    ensures s.halted ==> Exec(s, ops).halted
    decreases |ops|
  {
    if |ops| > 0 {
      ExecInv(Apply(s, ops[0]), ops[1..]);
    }
  }

  /** From a fresh relay: once `run` has returned the queue is empty and every
      accepted entry went to `audit` in order; `halt()` at any point ends the
      same way, and later hook calls change nothing. */
  lemma ExitMeansDrained(omitLoggingFrames: bool, ops: seq<Op>, action: string, info: seq<string>)
    ensures var s0 := New(omitLoggingFrames);
      var s := Exec(s0, ops);
      && (s.exited ==> s.queue == [] && s.delivered == Enqueued(s0, ops))
      && Inv(s)
      && var done := HaltAndJoin(s);
      && done.delivered == Enqueued(s0, ops)
      && Hook(done, action, info) == done
  {
    var s0 := New(omitLoggingFrames);
    ExecFifo(s0, ops);
    ExecInv(s0, ops);
    var s := Exec(s0, ops);
    assert s.delivered + s.queue == Enqueued(s0, ops);
    if s.exited {
      assert s.delivered + s.queue == s.delivered;
    }
  }

  /** Both variants, started from the same accepted entries, emit the same
      entries in the same order by the time `halt()` returns; they differ only in
      the emission method and in how the worker notices the flag. */
  lemma VariantsAgreeOnHalt(a: Relay, b: AuditRelay.Relay)
    requires Inv(a) && AuditRelay.Inv(b)
    requires a.delivered == b.delivered && a.queue == b.queue
    ensures HaltAndJoin(a).delivered == AuditRelay.HaltAndJoin(b).delivered
    ensures HaltAndJoin(a).queue == [] && AuditRelay.HaltAndJoin(b).queue == []
  {
  }
}
