/** The audit relay (`AuditLog`): audit events are formatted, filtered and queued
    by the hook on the caller's thread and delivered in order by one worker.
    Threads are replaced by arbitrary sequential interleavings of hook calls,
    worker steps and the halt request. */
module AuditRelay {
  import opened Wrappers
  import opened AuditEntry

  /** Where the worker's `run` is: in the polling loop that runs while the halt
      flag is clear, in the final loop that empties the queue, or returned. */
  datatype Phase = Polling | Draining | Exited

  /** The relay: the queue, the halt flag, the worker's phase, the entries
      handed to the emission method so far, the omission switch and the chosen
      emission method. */
  datatype Relay = Relay(
    queue: seq<string>,
    halted: bool,
    phase: Phase,
    delivered: seq<string>,
    omitLoggingFrames: bool,
    callback: string)

  /** Reading `self.log.audit` on a logger without that attribute raises. */
  datatype InitError = NoAuditMethod

  /** `AuditLog.__init__`: an empty queue, the flag clear, the worker not yet
      past its polling loop, and the emission method chosen from `logLevel`;
      construction fails when the logger has no `audit` method. */
  function New(omitLoggingFrames: bool, logLevel: string, loggerMethods: set<string>): (r: Result<Relay, InitError>)
    ensures r.Failure? <==> "audit" !in loggerMethods
    ensures r.Success? ==>
      && r.value.queue == [] && r.value.delivered == [] && !r.value.halted && r.value.phase == Polling
      && r.value.omitLoggingFrames == omitLoggingFrames
      && r.value.callback in loggerMethods
      && Some(r.value.callback) == SelectCallback(logLevel, loggerMethods)
  {
    match SelectCallback(logLevel, loggerMethods)
    case None => Failure(NoAuditMethod)
    case Some(cb) => Success(Relay([], false, Polling, [], omitLoggingFrames, cb))
  }

  /** `audit_hook(action, info)`: once the halt flag is set nothing happens;
      otherwise the formatted entry goes to the tail of the queue unless the
      frame filter drops it. */
  function Hook(s: Relay, action: string, info: seq<string>): (r: Relay)
    ensures s.halted || !Keeps(s.omitLoggingFrames, action, info) ==> r == s
    ensures !s.halted && Keeps(s.omitLoggingFrames, action, info) ==>
      r == s.(queue := s.queue + [Format(action, info)])
  {
    s.(queue := s.queue + HookEntries(s.halted, s.omitLoggingFrames, action, info))
  }

  /** Take the head of the queue and hand it to the emission method; an empty
      queue (`queue.Empty`) is not an error and changes nothing. */
  function Deliver(s: Relay): (r: Relay)
    ensures r.delivered + r.queue == s.delivered + s.queue
    ensures |s.queue| > 0 ==> r.delivered == s.delivered + [s.queue[0]] && r.queue == s.queue[1..]
    ensures |s.queue| == 0 ==> r == s
    ensures r.halted == s.halted && r.phase == s.phase
    ensures r.omitLoggingFrames == s.omitLoggingFrames && r.callback == s.callback
  {
    if |s.queue| == 0 then s
    else s.(queue := s.queue[1..], delivered := s.delivered + [s.queue[0]])
  }

  /** One iteration of the worker: while polling, a set flag ends the polling
      loop, otherwise the head is delivered (or the worker waits on an empty
      queue); while draining, an empty queue ends `run`, otherwise the head is
      delivered; after `run` has returned nothing happens. */
  function WorkerStep(s: Relay): (r: Relay)
    ensures r.delivered + r.queue == s.delivered + s.queue
    ensures s.phase == Polling && !s.halted && |s.queue| > 0 ==>
      r.phase == Polling && r.delivered == s.delivered + [s.queue[0]] && r.queue == s.queue[1..]
    ensures s.phase == Polling && !s.halted && |s.queue| == 0 ==> r == s
    ensures s.phase == Polling && s.halted ==> r == s.(phase := Draining)
    ensures s.phase == Draining && |s.queue| > 0 ==>
      r.phase == Draining && r.delivered == s.delivered + [s.queue[0]] && r.queue == s.queue[1..]
    ensures s.phase == Draining && |s.queue| == 0 ==> r == s.(phase := Exited)
    ensures s.phase == Exited ==> r == s
    ensures r.halted == s.halted
    ensures r.omitLoggingFrames == s.omitLoggingFrames && r.callback == s.callback
  {
    match s.phase
    case Polling => if s.halted then s.(phase := Draining) else Deliver(s)
    case Draining => if |s.queue| == 0 then s.(phase := Exited) else Deliver(s)
    case Exited => s
  }

  /** `halt()`'s first half: the flag is set. */
  function Halt(s: Relay): Relay {
    s.(halted := true)
  }

  /** The relay's invariant: the worker only leaves the polling loop after the
      flag is set, and it only returns with the queue empty. */
  predicate Inv(s: Relay) {
    && (s.phase != Polling ==> s.halted)
    && (s.phase == Exited ==> s.queue == [])
  }

  /** The measure the worker decreases once the flag is set. */
  function Remaining(s: Relay): nat {
    |s.queue| + (match s.phase case Polling => 2 case Draining => 1 case Exited => 0)
  }

  /** `halt()`'s second half, `join()`: with the flag set the worker runs until
      `run` returns. It returns with the queue empty, having delivered every
      entry that was queued, in order, and nothing else. */
  function RunToExit(s: Relay): (r: Relay)
    requires s.halted && Inv(s)
    ensures r.phase == Exited && r.queue == [] && r.halted
    ensures r.delivered == s.delivered + s.queue
    ensures r.omitLoggingFrames == s.omitLoggingFrames && r.callback == s.callback
    decreases Remaining(s)
  {
    if s.phase == Exited then s
    else RunToExit(WorkerStep(s))
  }

  /** `halt()`: set the flag, then wait for the worker to return. */
  function HaltAndJoin(s: Relay): (r: Relay)
    requires Inv(s)
    ensures r.phase == Exited && r.queue == [] && r.halted
    ensures r.delivered == s.delivered + s.queue
  {
    RunToExit(Halt(s))
  }

  /** The final loop of `run` (`while not queue.empty(): deliver(get())`) as a
      loop: an imperative restatement of the `Draining` phase, which hands every
      queued entry, in order, to the emission method and ends where the worker's
      own steps end. */
  method DrainQueue(s: Relay) returns (r: Relay)
    ensures r.queue == [] && r.delivered == s.delivered + s.queue
    ensures s.halted && s.phase == Draining ==>
      r.queue == RunToExit(s).queue && r.delivered == RunToExit(s).delivered
    ensures r.halted == s.halted && r.phase == s.phase
    ensures r.omitLoggingFrames == s.omitLoggingFrames && r.callback == s.callback
  {
    r := s;
    while |r.queue| > 0
      invariant r.delivered + r.queue == s.delivered + s.queue
      invariant r.halted == s.halted && r.phase == s.phase
      invariant r.omitLoggingFrames == s.omitLoggingFrames && r.callback == s.callback
      decreases |r.queue|
    {
      r := Deliver(r);
    }
  }

  function Apply(s: Relay, op: Op): Relay {
    match op
    case HookCall(action, info) => Hook(s, action, info)
    case Work => WorkerStep(s)
    case HaltRequest => Halt(s)
  }

  /** The state after the operations, in order. */
  function Exec(s: Relay, ops: seq<Op>): Relay
    decreases |ops|
  {
    if |ops| == 0 then s else Exec(Apply(s, ops[0]), ops[1..])
  }

  /** The entries the hook accepted along the operations, in order. */
  function Enqueued(s: Relay, ops: seq<Op>): seq<string>
    decreases |ops|
  {
    if |ops| == 0 then []
    else
      var head := match ops[0]
        case HookCall(action, info) => HookEntries(s.halted, s.omitLoggingFrames, action, info)
        case _ => [];
      head + Enqueued(Apply(s, ops[0]), ops[1..])
  }

  /** FIFO: whatever the interleaving, what has been delivered followed by what
      is still queued is exactly what was there before followed by the accepted
      entries in the order the hook accepted them. */
  lemma {:induction false} ExecFifo(s: Relay, ops: seq<Op>)
    ensures Exec(s, ops).delivered + Exec(s, ops).queue == s.delivered + s.queue + Enqueued(s, ops)
    decreases |ops|
  {
    if |ops| > 0 {
      var s' := Apply(s, ops[0]);
      ExecFifo(s', ops[1..]);
    }
  }

  /** Every interleaving keeps the invariant, and keeps the flag once set. */
  lemma {:induction false} ExecInv(s: Relay, ops: seq<Op>)
    requires Inv(s)
    ensures Inv(Exec(s, ops))
    ensures s.halted ==> Exec(s, ops).halted
    decreases |ops|
  {
    if |ops| > 0 {
      ExecInv(Apply(s, ops[0]), ops[1..]);
    }
  }

  /** Once the flag is set the hook accepts nothing, whatever follows. */
  lemma {:induction false} NoEnqueueAfterHalt(s: Relay, ops: seq<Op>)
    requires s.halted
    ensures Enqueued(s, ops) == []
    ensures Exec(s, ops).delivered + Exec(s, ops).queue == s.delivered + s.queue
    decreases |ops|
  {
    if |ops| > 0 {
      NoEnqueueAfterHalt(Apply(s, ops[0]), ops[1..]);
    }
    ExecFifo(s, ops);
  }

  /** From a fresh relay: what has been delivered is always a prefix of what
      was accepted, and once the worker has returned the queue is empty and
      every accepted entry has been delivered, in order. */
  lemma DeliveredPrefixOfAccepted(omitLoggingFrames: bool, logLevel: string, loggerMethods: set<string>, ops: seq<Op>)
    requires "audit" in loggerMethods
    ensures New(omitLoggingFrames, logLevel, loggerMethods).Success?
    ensures var s0 := New(omitLoggingFrames, logLevel, loggerMethods).value;
      var s := Exec(s0, ops);
      && s.delivered <= Enqueued(s0, ops)
      && (s.phase == Exited ==> s.queue == [] && s.delivered == Enqueued(s0, ops))
  {
    var s0 := New(omitLoggingFrames, logLevel, loggerMethods).value;
    ExecFifo(s0, ops);
    ExecInv(s0, ops);
    var s := Exec(s0, ops);
    assert s.delivered + s.queue == Enqueued(s0, ops);
    assert s.delivered == (s.delivered + s.queue)[..|s.delivered|];
  }

  /** No loss on halt: after any interleaving from a fresh relay, `halt()`
      returns with every accepted entry delivered in order and the queue empty,
      and a later hook call changes nothing. */
  lemma HaltDeliversEverything(omitLoggingFrames: bool, logLevel: string, loggerMethods: set<string>,
                               ops: seq<Op>, action: string, info: seq<string>)
    requires "audit" in loggerMethods
    ensures New(omitLoggingFrames, logLevel, loggerMethods).Success?
    ensures var s0 := New(omitLoggingFrames, logLevel, loggerMethods).value;
      && Inv(Exec(s0, ops))
      && var done := HaltAndJoin(Exec(s0, ops));
      && done.delivered == Enqueued(s0, ops)
      && done.queue == []
      && Hook(done, action, info) == done
  {
    var s0 := New(omitLoggingFrames, logLevel, loggerMethods).value;
    ExecFifo(s0, ops);
    ExecInv(s0, ops);
  }
}
