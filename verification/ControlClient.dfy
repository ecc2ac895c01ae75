/** The lease and receipt protocol of a server agent: one control cycle, and the daemon that repeats
    it. The platform, the clocks, the executor and the local resolvers are adversarial: every reading,
    answer and failure is an input (`Cycle`, `Course`), and so is arbitrary. */
module ControlClient {
  import opened Wrappers

  datatype Scope = Scope(organizationId: string, userId: string, agentId: string, serverId: string)

  datatype Request = Request(scope: Scope, requestId: string, correlationId: string, revision: int, sequence: int)

  datatype Command = Command(commandId: string, attempt: int, leaseId: string, leaseToken: string,
                             leaseExpiresAt: int, expiresAt: int, hasSecrets: bool)

  datatype Lease = Lease(scope: Scope, requestId: string, correlationId: string, revision: int, sequence: int,
                         leaseId: string, expiresAt: int, commands: seq<Command>)

  datatype Error = ServerMismatch | OwnerMismatch | SequenceConflict | InvalidSignature | LeaseExpired
                 | ReplayDetected | LeaseNotFound | Rejected | Invalid

  datatype State = Accepted | Running | CompletionCandidate | Failed | Expired

  predicate Terminal(state: State) {
    state in {CompletionCandidate, Failed, Expired}
  }

  // ---------------------------------------------------------------- the log of a run

  /** What the outside sees of a run: lease requests, posted receipts with whether the platform
      acknowledged them, and calls of the executor. An envelope and each command in it have lease ids of
      their own; `envelopeId` is the one a command came under, `leaseId` the one it carries and its
      receipts are posted with. */
  datatype Entry =
    | Requested(sequence: int)
    | Posted(envelopeId: string, leaseId: string, commandId: string, state: State, eventSequence: int, sequence: int,
        acked: bool)
    | Executed(envelopeId: string, leaseId: string, commandId: string)

  type Log = seq<Entry>

  predicate Numbered(e: Entry) {
    !e.Executed?
  }

  /** All sequence numbers sent so far increase strictly, and none exceeds the counter. */
  ghost predicate Increasing(log: Log, counter: int) {
    && (forall i, j | 0 <= i < j < |log| && Numbered(log[i]) && Numbered(log[j]) :: log[i].sequence < log[j].sequence)
    && (forall i | 0 <= i < |log| && Numbered(log[i]) :: log[i].sequence <= counter)
  }

  /** One command's share of the log. */
  datatype Step = Post(state: State, eventSequence: int, acked: bool) | Execute

  type Trace = seq<Step>

  function Content(e: Entry): Trace {
    match e
    case Posted(_, _, _, state, eventSequence, _, acked) => [Post(state, eventSequence, acked)]
    case Executed(_, _, _) => [Execute]
    case Requested(_) => []
  }

  function StepOf(e: Entry, envelopeId: string, commandId: string): Trace {
    if !e.Requested? && e.envelopeId == envelopeId && e.commandId == commandId then Content(e) else []
  }

  /** The trace of a command of an envelope. */
  function TraceOf(log: Log, envelopeId: string, commandId: string): Trace {
    if log == [] then []
    else TraceOf(log[..|log| - 1], envelopeId, commandId) + StepOf(log[|log| - 1], envelopeId, commandId)
  }

  function OwnStep(e: Entry, leaseId: string, commandId: string): Trace {
    if !e.Requested? && e.leaseId == leaseId && e.commandId == commandId then Content(e) else []
  }

  /** The trace of a command by the lease id that its receipts carry. */
  function OwnTrace(log: Log, leaseId: string, commandId: string): Trace {
    if log == [] then []
    else OwnTrace(log[..|log| - 1], leaseId, commandId) + OwnStep(log[|log| - 1], leaseId, commandId)
  }

  /** The command's own lease id came under this envelope and no other. */
  ghost predicate Belongs(log: Log, envelopeId: string, leaseId: string, commandId: string) {
    forall i | 0 <= i < |log| && !log[i].Requested? && log[i].commandId == commandId ::
      log[i].envelopeId == envelopeId <==> log[i].leaseId == leaseId
  }

  lemma {:induction false} OwnIsTrace(log: Log, envelopeId: string, leaseId: string, commandId: string)
    requires Belongs(log, envelopeId, leaseId, commandId)
    ensures OwnTrace(log, leaseId, commandId) == TraceOf(log, envelopeId, commandId)
  {
    if log != [] {
      var e := log[|log| - 1];
      OwnIsTrace(log[..|log| - 1], envelopeId, leaseId, commandId);
      assert StepOf(e, envelopeId, commandId) == OwnStep(e, leaseId, commandId);
    }
  }

  function Extend(trace: Trace, more: Trace): Trace {
    if more == [] then trace else trace + more
  }

  lemma TraceAppend(log: Log, e: Entry, envelopeId: string, commandId: string)
    ensures TraceOf(log + [e], envelopeId, commandId) == Extend(TraceOf(log, envelopeId, commandId),
            StepOf(e, envelopeId, commandId))
  {
    assert (log + [e])[..|log|] == log;
  }

  // ---------------------------------------------------------------- the protocol of one command

  /** Where a command stands after the steps of its trace. */
  datatype Phase = Start | WasAccepted | WasRunning | WasExecuted | ExpiryRejected | Done | Broken

  function Advance(phase: Phase, step: Step): Phase {
    match (phase, step)
    case (Start, Post(Expired, 1, _)) => Done
    case (Start, Post(Accepted, 1, acked)) => if acked then WasAccepted else Done
    case (WasAccepted, Post(Running, 2, acked)) => if acked then WasRunning else Done
    case (WasRunning, Post(Failed, 3, _)) => Done
    case (WasRunning, Execute) => WasExecuted
    case (WasExecuted, Post(Expired, 3, acked)) => if acked then Done else ExpiryRejected
    case (WasExecuted, Post(Failed, 3, _)) => Done
    case (WasExecuted, Post(CompletionCandidate, 3, _)) => Done
    case (ExpiryRejected, Post(Failed, 3, _)) => Done
    case _ => Broken
  }

  function PhaseOf(trace: Trace): Phase {
    if trace == [] then Start else Advance(PhaseOf(trace[..|trace| - 1]), trace[|trace| - 1])
  }

  lemma PhaseAppend(trace: Trace, step: Step)
    ensures PhaseOf(trace + [step]) == Advance(PhaseOf(trace), step)
  {
    assert (trace + [step])[..|trace|] == trace;
  }

  predicate Legal(trace: Trace) {
    PhaseOf(trace) != Broken
  }

  /** The receipts the platform acknowledged, as (state, event sequence). */
  function Acked(trace: Trace): seq<(State, int)> {
    if trace == [] then []
    else
      var last := trace[|trace| - 1];
      Acked(trace[..|trace| - 1]) + if last.Post? && last.acked then [(last.state, last.eventSequence)] else []
  }

  function Executions(trace: Trace): nat {
    if trace == [] then 0
    else Executions(trace[..|trace| - 1]) + if trace[|trace| - 1].Execute? then 1 else 0
  }

  /** A prefix of accepted, running and one terminal receipt; or expired alone. */
  predicate AckedShape(acked: seq<(State, int)>) {
    || acked == [(Expired, 1)]
    || (|acked| <= 3
        && (|acked| > 0 ==> acked[0] == (Accepted, 1))
        && (|acked| > 1 ==> acked[1] == (Running, 2))
        && (|acked| > 2 ==> acked[2].1 == 3 && Terminal(acked[2].0)))
  }

  /** What each phase says of the acknowledged receipts and of the executions. */
  predicate PhaseMeans(phase: Phase, acked: seq<(State, int)>, executions: nat) {
    match phase
    case Start => acked == [] && executions == 0
    case WasAccepted => acked == [(Accepted, 1)] && executions == 0
    case WasRunning => acked == [(Accepted, 1), (Running, 2)] && executions == 0
    case WasExecuted => acked == [(Accepted, 1), (Running, 2)] && executions == 1
    case ExpiryRejected => acked == [(Accepted, 1), (Running, 2)] && executions == 1
    case Done => AckedShape(acked) && executions <= 1 && (executions == 1 ==> |acked| >= 2)
    case Broken => true
  }

  lemma {:induction false} PhaseInvariant(trace: Trace)
    ensures PhaseMeans(PhaseOf(trace), Acked(trace), Executions(trace))
  {
    if trace != [] {
      PhaseInvariant(trace[..|trace| - 1]);
    }
  }

  lemma {:induction false} LegalPrefix(trace: Trace, k: nat)
    requires Legal(trace) && k <= |trace|
    ensures Legal(trace[..k])
  {
    if k < |trace| {
      var before := trace[..|trace| - 1];
      LegalPrefix(before, k);
      assert before[..k] == trace[..k];
    } else {
      assert trace[..k] == trace;
    }
  }

  /** The acknowledged receipts of a legal trace have the documented shape: event sequences 1..n without
      gaps and at most one terminal receipt, the last; and the executor is called at most once. */
  lemma LegalTrace(trace: Trace)
    requires Legal(trace)
    ensures AckedShape(Acked(trace))
    ensures forall i | 0 <= i < |Acked(trace)| :: Acked(trace)[i].1 == i + 1
    ensures forall i | 0 <= i < |Acked(trace)| && Terminal(Acked(trace)[i].0) :: i == |Acked(trace)| - 1
    ensures Executions(trace) <= 1
  {
    PhaseInvariant(trace);
  }

  /** The executor is called only after accepted and running were both acknowledged. */
  lemma ExecutedAfterRunning(trace: Trace, k: nat)
    requires Legal(trace) && k < |trace| && trace[k].Execute?
    ensures Acked(trace[..k]) == [(Accepted, 1), (Running, 2)]
  {
    var before := trace[..k];
    LegalPrefix(trace, k + 1);
    assert trace[..k + 1] == before + [trace[k]];
    PhaseAppend(before, trace[k]);
    PhaseInvariant(before);
  }

  ghost predicate OnlyAfterRunning(trace: Trace) {
    forall k {:trigger trace[..k]} | 0 <= k < |trace| && trace[k].Execute? ::
        Acked(trace[..k]) == [(Accepted, 1), (Running, 2)]
  }

  /** All that is promised of one command. */
  ghost predicate AsDocumented(trace: Trace) {
    AckedShape(Acked(trace)) && Executions(trace) <= 1 && OnlyAfterRunning(trace)
  }

  lemma LegalIsDocumented(trace: Trace)
    requires Legal(trace)
    ensures AsDocumented(trace)
  {
    LegalTrace(trace);
    forall k {:trigger trace[..k]} | 0 <= k < |trace| && trace[k].Execute?
      ensures Acked(trace[..k]) == [(Accepted, 1), (Running, 2)]
    {
      ExecutedAfterRunning(trace, k);
    }
  }

  /** What a run guarantees of every command of every lease id, replayed or not. */
  ghost predicate RunIsLegal(log: Log) {
    forall l, c :: Legal(TraceOf(log, l, c))
  }

  // ---------------------------------------------------------------- what happens to a command

  /** How the sending of a receipt ends: a successful answer comes back, or another or none does, or the
      receipt is not sent at all. */
  datatype Delivery = Acknowledged | Refused | Unsent

  /** The readings of the clock for the expiry of a command's lease and for its own. */
  datatype Clock = Clock(forLease: int, forCommand: int)

  /** What the world outside does while a command is processed: the clock before and after the work, the
      deliveries of its receipts, whether resolver, executor and observer do not throw, and what they
      give. `last` is the delivery of the first receipt with event sequence 3, or of the only one;
      `fallback` that of a `failed` which follows one that was not accepted or not sent. */
  datatype Course = Course(
    before: Clock, accepted: Delivery, running: Delivery, resolves: bool, executes: bool, after: Clock,
    observes: bool, observationVersion: Option<int>, evidenceRefs: seq<string>, last: Delivery, fallback: Delivery)

  predicate HasEvidence(evidenceRefs: seq<string>) {
    exists e | e in evidenceRefs :: e != ""
  }

  /** A completion candidate needs an observation and evidence. */
  predicate Proven(observationVersion: Option<int>, evidenceRefs: seq<string>) {
    observationVersion.Some? && observationVersion.value >= 1 && HasEvidence(evidenceRefs)
  }

  predicate Overdue(command: Command, clock: Clock) {
    command.leaseExpiresAt <= clock.forLease || command.expiresAt <= clock.forCommand
  }

  function Told(state: State, eventSequence: int, delivery: Delivery): Trace {
    if delivery.Unsent? then [] else [Post(state, eventSequence, delivery.Acknowledged?)]
  }

  /** The trace that a command has after its processing. */
  function Due(command: Command, course: Course): Trace {
    if Overdue(command, course.before) then Told(Expired, 1, course.last)
    else if !course.accepted.Acknowledged? then Told(Accepted, 1, course.accepted)
    else if !course.running.Acknowledged? then [Post(Accepted, 1, true)] + Told(Running, 2, course.running)
    else [Post(Accepted, 1, true), Post(Running, 2, true)] + Worked(command, course)
  }

  function Worked(command: Command, course: Course): Trace {
    if command.hasSecrets && !course.resolves then Told(Failed, 3, course.last) else [Execute] + Ended(command, course)
  }

  function Ended(command: Command, course: Course): Trace {
    if !course.executes then Told(Failed, 3, course.last)
    else if Overdue(command, course.after) then
      Told(Expired, 3, course.last) + if course.last.Acknowledged? then [] else Told(Failed, 3, course.fallback)
    else if !course.observes then Told(Failed, 3, course.last)
    else if !Proven(course.observationVersion, course.evidenceRefs) then Told(Failed, 3, course.fallback)
    else Told(CompletionCandidate, 3, course.last)
  }

  /** What a cycle reports of a command with this trace: the terminal state acknowledged last, if any. */
  function Outcome(trace: Trace): Option<State> {
    if trace != [] && trace[|trace| - 1].Post? && trace[|trace| - 1].acked && Terminal(trace[|trace| - 1].state)
    then Some(trace[|trace| - 1].state) else None
  }

  /** Accepted and running were both acknowledged. */
  predicate Starts(command: Command, course: Course) {
    !Overdue(command, course.before) && course.accepted.Acknowledged? && course.running.Acknowledged?
  }

  /** There is nothing to resolve, or it was. */
  predicate Ready(command: Command, course: Course) {
    Starts(command, course) && (!command.hasSecrets || course.resolves)
  }

  lemma DuePhases(command: Command, course: Course)
    ensures Legal(Due(command, course))
    ensures Executions(Due(command, course)) == if Ready(command, course) then 1 else 0
    ensures (Running, 2) in Acked(Due(command, course)) <==> Starts(command, course)
  {
    if Starts(command, course) {
      var begun := [Post(Accepted, 1, true)] + [Post(Running, 2, true)];
      Begun();
      assert begun == [Post(Accepted, 1, true), Post(Running, 2, true)];
      if Ready(command, course) {
        TraceStep(begun, Execute);
        EndedPhases(command, course, begun + [Execute]);
        Associated(begun, [Execute], Ended(command, course));
        assert Acked(begun + [Execute])[1] == (Running, 2);
      } else {
        GoesTold(begun, Failed, course.last);
      }
    } else {
      NotStarted(command, course);
    }
  }

  lemma Begun()
    ensures var begun := [Post(Accepted, 1, true)] + [Post(Running, 2, true)];
      PhaseOf(begun) == WasRunning && Executions(begun) == 0 && Acked(begun) == [(Accepted, 1), (Running, 2)]
  {
    TraceStep([], Post(Accepted, 1, true));
    assert [] + [Post(Accepted, 1, true)] == [Post(Accepted, 1, true)];
    TraceStep([Post(Accepted, 1, true)], Post(Running, 2, true));
  }

  lemma NotStarted(command: Command, course: Course)
    requires !Starts(command, course)
    ensures var trace := Due(command, course);
      Legal(trace) && Executions(trace) == 0 && (Running, 2) !in Acked(trace)
  {
    if Overdue(command, course.before) {
      FirstTold(Expired, course.last);
    } else if !course.accepted.Acknowledged? {
      FirstTold(Accepted, course.accepted);
    } else {
      FirstTold(Accepted, course.accepted);
      TraceTold([Post(Accepted, 1, true)], Running, 2, course.running);
    }
  }

  lemma FirstTold(state: State, delivery: Delivery)
    requires state in {Accepted, Expired}
    ensures var trace := Told(state, 1, delivery);
      && Legal(trace) && Executions(trace) == 0 && (Running, 2) !in Acked(trace)
      && (state == Accepted && delivery.Acknowledged? ==> PhaseOf(trace) == WasAccepted)
  {
    TraceTold([], state, 1, delivery);
    assert [] + Told(state, 1, delivery) == Told(state, 1, delivery);
  }

  /** Nothing illegal was added, and no execution. */
  predicate Goes(before: Trace, after: Trace) {
    Legal(after) && Executions(after) == Executions(before) && Acked(before) <= Acked(after)
  }

  lemma EndedPhases(command: Command, course: Course, before: Trace)
    requires PhaseOf(before) == WasExecuted
    ensures Goes(before, before + Ended(command, course))
  {
    if !course.executes {
      GoesTold(before, Failed, course.last);
    } else if Overdue(command, course.after) {
      GoesLate(before, course.last, course.fallback);
    } else if !course.observes {
      GoesTold(before, Failed, course.last);
    } else if !Proven(course.observationVersion, course.evidenceRefs) {
      GoesTold(before, Failed, course.fallback);
    } else {
      GoesTold(before, CompletionCandidate, course.last);
    }
  }

  lemma GoesTold(before: Trace, state: State, delivery: Delivery)
    requires Advance(PhaseOf(before), Post(state, 3, delivery.Acknowledged?)) != Broken && PhaseOf(before) != Broken
    ensures Goes(before, before + Told(state, 3, delivery))
  {
    TraceTold(before, state, 3, delivery);
  }

  lemma GoesThrough(before: Trace, between: Trace, after: Trace)
    requires Goes(before, between) && Goes(between, after)
    ensures Goes(before, after)
  {
  }

  lemma GoesLate(before: Trace, last: Delivery, fallback: Delivery)
    requires PhaseOf(before) == WasExecuted
    ensures Goes(before,
                 before + (Told(Expired, 3, last) + if last.Acknowledged? then [] else Told(Failed, 3, fallback)))
  {
    var expired := before + Told(Expired, 3, last);
    GoesTold(before, Expired, last);
    if last.Acknowledged? {
      assert Told(Expired, 3, last) + [] == Told(Expired, 3, last);
    } else {
      TraceTold(before, Expired, 3, last);
      GoesTold(expired, Failed, fallback);
      GoesThrough(before, expired, expired + Told(Failed, 3, fallback));
      Associated(before, Told(Expired, 3, last), Told(Failed, 3, fallback));
    }
  }

  lemma Associated(a: Trace, b: Trace, c: Trace)
    ensures a + b + c == a + (b + c)
  {
  }

  lemma TraceStep(trace: Trace, step: Step)
    ensures PhaseOf(trace + [step]) == Advance(PhaseOf(trace), step)
    ensures Executions(trace + [step]) == Executions(trace) + if step.Execute? then 1 else 0
    ensures Acked(trace + [step]) ==
            Acked(trace) + if step.Post? && step.acked then [(step.state, step.eventSequence)] else []
  {
    assert (trace + [step])[..|trace|] == trace;
  }

  lemma TraceTold(trace: Trace, state: State, eventSequence: int, delivery: Delivery)
    ensures var after := trace + Told(state, eventSequence, delivery);
      && PhaseOf(after) == (if delivery.Unsent? then PhaseOf(trace)
                            else Advance(PhaseOf(trace), Post(state, eventSequence, delivery.Acknowledged?)))
      && Executions(after) == Executions(trace)
      && Acked(after) == Acked(trace) + if delivery.Acknowledged? then [(state, eventSequence)] else []
  {
    if delivery.Unsent? {
      assert trace + [] == trace && Acked(trace) + [] == Acked(trace);
    } else {
      TraceStep(trace, Post(state, eventSequence, delivery.Acknowledged?));
    }
  }

  /** The executor is called, and then once, exactly if running was acknowledged and the secrets, if there
      are any, were resolved. */
  lemma DueExecutes(command: Command, course: Course)
    ensures Executions(Due(command, course)) <= 1
    ensures Executions(Due(command, course)) == 1 <==>
            (Running, 2) in Acked(Due(command, course)) && (!command.hasSecrets || course.resolves)
  {
    DuePhases(command, course);
  }

  /** The work is done, in time. */
  predicate Delivers(command: Command, course: Course) {
    Ready(command, course) && course.executes && !Overdue(command, course.after)
  }

  /** The reported state by its cause: a completion candidate for work in time with an observation and
      evidence; expired before or after the work; and failed where something throws, where observation or
      evidence are missing, or where `expired` is not accepted. */
  lemma DueOutcome(command: Command, course: Course)
    ensures var outcome := Outcome(Due(command, course));
      var proven := course.observes && course.observationVersion.Some? && course.observationVersion.value >= 1 &&
        exists e | e in course.evidenceRefs :: e != "";
      var late := Ready(command, course) && course.executes && Overdue(command, course.after);
      && (outcome == Some(CompletionCandidate) <==> Delivers(command, course) && proven && course.last.Acknowledged?)
      && (outcome == Some(Expired) <==> course.last.Acknowledged? && (Overdue(command, course.before) || late))
      && (outcome == Some(Failed) <==>
            Starts(command, course) &&
            if late then !course.last.Acknowledged? && course.fallback.Acknowledged?
            else if !Delivers(command, course) || !course.observes then course.last.Acknowledged?
            else !proven && course.fallback.Acknowledged?)
      && outcome != Some(Accepted) && outcome != Some(Running)
  {
  }

  // ---------------------------------------------------------------- the client

  const MAX_DATE := 8_640_000_000_000_000
  const MAX_SAFE_INTEGER := 0x1F_FFFF_FFFF_FFFF

  datatype Receipt = Sent | LocallyInvalid | Threw(error: Error)

  datatype CommandResult = CommandResult(commandId: string, state: State)

  function FindCommand(commands: seq<Command>, commandId: string): Option<Command> {
    if commands == [] then None
    else if commands[0].commandId == commandId then Some(commands[0])
    else FindCommand(commands[1..], commandId)
  }

  ghost predicate DistinctIds(commands: seq<Command>) {
    forall i, j | 0 <= i < j < |commands| :: commands[i].commandId != commands[j].commandId
  }

  lemma {:induction false} FindsItself(commands: seq<Command>, i: nat)
    requires DistinctIds(commands) && i < |commands|
    ensures FindCommand(commands, commands[i].commandId) == Some(commands[i])
  {
    if i > 0 { FindsItself(commands[1..], i - 1); }
  }

  /** The lease is the client's, and holds the command with these lease fields. */
  predicate Bound(scope: Scope, lease: Lease, command: Command) {
    var found := FindCommand(lease.commands, command.commandId);
    && lease.scope == scope && found.Some? && found.value.attempt == command.attempt
    && found.value.leaseId == command.leaseId && found.value.leaseToken == command.leaseToken
  }

  /** What the world outside does in one cycle: the ids of the request, whether it is sent, what the
      platform answers, whether the answer's signature verifies, the clock, and what happens to each of
      its commands. */
  datatype Cycle = Cycle(requestId: string, correlationId: string, sent: bool, answer: Option<Lease>,
                         signatureValid: bool, now: int, courses: seq<Course>)

  ghost predicate CycleOk(cycle: Cycle) {
    cycle.answer.Some? ==>
      DistinctIds(cycle.answer.value.commands) && |cycle.courses| == |cycle.answer.value.commands|
  }

  predicate Answers(lease: Lease, request: Request) {
    && lease.scope == request.scope && lease.requestId == request.requestId
    && lease.correlationId == request.correlationId && lease.revision == request.revision
    && lease.sequence > request.sequence
  }

  /** A cycle comes by a lease: the request is sent, and its answer is for it, signed, unexpired and new. */
  predicate Accepts(scope: Scope, revision: int, seen: set<string>, cycle: Cycle, number: int) {
    && cycle.sent && cycle.answer.Some? && cycle.signatureValid
    && Answers(cycle.answer.value, Request(scope, cycle.requestId, cycle.correlationId, revision, number))
    && cycle.answer.value.expiresAt > cycle.now && cycle.answer.value.leaseId !in seen
  }

  /** The first commands of the lease have been processed as their courses determine; those before the
      last of them have an outcome, and the last one too if all have been processed. */
  ghost predicate Through(log: Log, lease: Lease, courses: seq<Course>, done: nat) {
    && done <= |lease.commands| == |courses|
    && (forall k | 0 <= k < done ::
          TraceOf(log, lease.leaseId, lease.commands[k].commandId) == Due(lease.commands[k], courses[k]))
    && (forall k | done <= k < |courses| :: TraceOf(log, lease.leaseId, lease.commands[k].commandId) == [])
    && (forall k | 0 <= k < done - 1 :: Outcome(Due(lease.commands[k], courses[k])).Some?)
    && (done < |courses| ==> done > 0 && Outcome(Due(lease.commands[done - 1], courses[done - 1])).None?)
  }

  /** Every command has an outcome. */
  ghost predicate AllConclude(lease: Lease, courses: seq<Course>) {
    |courses| == |lease.commands| &&
    forall k | 0 <= k < |courses| :: Outcome(Due(lease.commands[k], courses[k])).Some?
  }

  /** The results are the outcomes of the first commands. */
  ghost predicate AllReported(lease: Lease, courses: seq<Course>, results: seq<CommandResult>) {
    && |results| <= |lease.commands| == |courses|
    && forall k {:trigger results[k]} | 0 <= k < |results| ::
         && Outcome(Due(lease.commands[k], courses[k])) == Some(results[k].state)
         && results[k].commandId == lease.commands[k].commandId
  }

  /** Only this command's trace may have changed. */
  ghost predicate OthersUntouched(before: Log, after: Log, leaseId: string, commandId: string) {
    forall l, c :: l != leaseId || c != commandId ==> TraceOf(after, l, c) == TraceOf(before, l, c)
  }

  lemma RequestAppend(log: Log, number: int)
    ensures forall l, c :: TraceOf(log + [Requested(number)], l, c) == TraceOf(log, l, c)
  {
    forall l, c ensures TraceOf(log + [Requested(number)], l, c) == TraceOf(log, l, c) {
      TraceAppend(log, Requested(number), l, c);
    }
  }

  lemma OwnAppend(log: Log, e: Entry, leaseId: string, commandId: string, step: Step)
    requires StepOf(e, leaseId, commandId) == [step]
    ensures TraceOf(log + [e], leaseId, commandId) == TraceOf(log, leaseId, commandId) + [step]
    ensures forall l, c :: StepOf(e, l, c) == [] ==> TraceOf(log + [e], l, c) == TraceOf(log, l, c)
  {
    TraceAppend(log, e, leaseId, commandId);
    forall l, c | StepOf(e, l, c) == [] ensures TraceOf(log + [e], l, c) == TraceOf(log, l, c) {
      TraceAppend(log, e, l, c);
    }
  }

  lemma OutcomeAppend(before: Trace, more: Trace)
    requires Outcome(before).None?
    ensures Outcome(before + more) == Outcome(more)
  {
    if more == [] { assert before + more == before; }
  }

  // ---------------------------------------------------------------- cycles

  /** The first i commands have the traces they are due, and no other trace has changed. */
  ghost predicate ProcessedTo(start: Log, log: Log, lease: Lease, courses: seq<Course>, i: nat) {
    && i <= |lease.commands| == |courses|
    && (forall k | 0 <= k < i ::
          TraceOf(log, lease.leaseId, lease.commands[k].commandId) == Due(lease.commands[k], courses[k]))
    && (forall c :: TraceOf(log, lease.leaseId, c) == [] || HasCommand(lease, i, c))
    && (forall l, c | l != lease.leaseId :: TraceOf(log, l, c) == TraceOf(start, l, c))
  }

  predicate HasCommand(lease: Lease, n: nat, commandId: string) {
    n <= |lease.commands| && exists k | 0 <= k < n :: lease.commands[k].commandId == commandId
  }

  lemma ProcessedNext(start: Log, before: Log, after: Log, lease: Lease, courses: seq<Course>, i: nat)
    requires i < |lease.commands| && DistinctIds(lease.commands) && ProcessedTo(start, before, lease, courses, i)
    requires OthersUntouched(before, after, lease.leaseId, lease.commands[i].commandId)
    requires TraceOf(after, lease.leaseId, lease.commands[i].commandId) == Due(lease.commands[i], courses[i])
    ensures ProcessedTo(start, after, lease, courses, i + 1)
  {
    forall k | 0 <= k <= i
      ensures TraceOf(after, lease.leaseId, lease.commands[k].commandId) == Due(lease.commands[k], courses[k])
    {
      if k < i { assert lease.commands[k].commandId != lease.commands[i].commandId; }
    }
    forall c ensures TraceOf(after, lease.leaseId, c) == [] || HasCommand(lease, i + 1, c) {
      if c != lease.commands[i].commandId {
        assert TraceOf(after, lease.leaseId, c) == TraceOf(before, lease.leaseId, c);
        if HasCommand(lease, i, c) {
          var k :| 0 <= k < i && lease.commands[k].commandId == c;
        }
      }
    }
  }

  /** The results are the outcomes of all commands processed, or of all but the last, which has none. */
  lemma ThroughProcessed(start: Log, log: Log, lease: Lease, courses: seq<Course>, done: nat,
                         results: seq<CommandResult>)
    requires ProcessedTo(start, log, lease, courses, done) && DistinctIds(lease.commands)
    requires AllReported(lease, courses, results)
    requires if done == |results| then done == |courses|
             else done == |results| + 1 && Outcome(Due(lease.commands[done - 1], courses[done - 1])).None?
    ensures Through(log, lease, courses, done)
    ensures AllConclude(lease, courses) <==> done == |results|
  {
    forall k | done <= k < |courses| ensures TraceOf(log, lease.leaseId, lease.commands[k].commandId) == [] {
      assert !HasCommand(lease, done, lease.commands[k].commandId);
    }
    forall k | 0 <= k < |results| ensures Outcome(Due(lease.commands[k], courses[k])).Some? {
      assert results[k].commandId == lease.commands[k].commandId;
    }
  }

  lemma ProcessedLegal(start: Log, log: Log, lease: Lease, courses: seq<Course>, i: nat)
    requires ProcessedTo(start, log, lease, courses, i) && RunIsLegal(start)
    ensures RunIsLegal(log)
  {
    forall l, c ensures Legal(TraceOf(log, l, c)) {
      if l == lease.leaseId && HasCommand(lease, i, c) {
        var k :| 0 <= k < i && lease.commands[k].commandId == c;
        DuePhases(lease.commands[k], courses[k]);
      }
    }
  }

  /** The lease ids remembered after the cycles: those of the leases they accepted are added. */
  function SeenAfter(seen: set<string>, cycles: seq<Cycle>, accepted: seq<bool>): set<string>
    requires |cycles| == |accepted|
  {
    seen + set i | 0 <= i < |cycles| && accepted[i] && cycles[i].answer.Some? :: cycles[i].answer.value.leaseId
  }

  /** The cycle comes by its lease exactly if it may. */
  ghost predicate CycleAt(scope: Scope, revision: int, seen: set<string>, cycles: seq<Cycle>, accepted: seq<bool>,
                          numbers: seq<int>, i: nat)
    requires i < |cycles| == |accepted| == |numbers|
  {
    accepted[i] <==> Accepts(scope, revision, SeenAfter(seen, cycles[..i], accepted[..i]), cycles[i], numbers[i])
  }

  /** Each cycle does, under request numbers that increase. */
  ghost predicate Cycled(scope: Scope, revision: int, seen: set<string>, cycles: seq<Cycle>, accepted: seq<bool>,
                         numbers: seq<int>) {
    && |accepted| == |numbers| == |cycles|
    && (forall i, j | 0 <= i < j < |numbers| :: numbers[i] < numbers[j])
    && (forall i | 0 <= i < |cycles| :: CycleAt(scope, revision, seen, cycles, accepted, numbers, i))
  }

  /** The command is among those that an accepted cycle has processed. */
  ghost predicate CameUnder(cycles: seq<Cycle>, accepted: seq<bool>, done: seq<nat>, leaseId: string,
                            commandId: string) {
    && |accepted| == |done| == |cycles|
    && exists i | 0 <= i < |cycles| && accepted[i] && cycles[i].answer.Some? ::
         cycles[i].answer.value.leaseId == leaseId && HasCommand(cycles[i].answer.value, done[i], commandId)
  }

  ghost predicate AllThrough(start: Log, log: Log, cycles: seq<Cycle>, accepted: seq<bool>, done: seq<nat>) {
    && |accepted| == |done| == |cycles|
    && (forall i | 0 <= i < |cycles| && accepted[i] ::
          cycles[i].answer.Some? && Through(log, cycles[i].answer.value, cycles[i].courses, done[i]))
    && (forall e, c :: TraceOf(log, e, c) == TraceOf(start, e, c) || CameUnder(cycles, accepted, done, e, c))
  }

  lemma CycledNext(scope: Scope, revision: int, seen: set<string>, cycles: seq<Cycle>, more: Cycle,
                   accepted: seq<bool>, numbers: seq<int>, took: bool, number: int)
    requires Cycled(scope, revision, seen, cycles, accepted, numbers)
    requires forall k | 0 <= k < |numbers| :: numbers[k] < number
    requires took <==> Accepts(scope, revision, SeenAfter(seen, cycles, accepted), more, number)
    ensures Cycled(scope, revision, seen, cycles + [more], accepted + [took], numbers + [number])
  {
    var all, acc, nums := cycles + [more], accepted + [took], numbers + [number];
    forall i | 0 <= i < |all| ensures CycleAt(scope, revision, seen, all, acc, nums, i) {
      assert all[..i] == cycles[..i] && acc[..i] == accepted[..i];
      if i < |cycles| {
        assert CycleAt(scope, revision, seen, cycles, accepted, numbers, i);
      } else {
        assert cycles[..i] == cycles && accepted[..i] == accepted;
      }
    }
  }

  lemma SeenNext(seen: set<string>, cycles: seq<Cycle>, more: Cycle, accepted: seq<bool>, took: bool)
    requires |cycles| == |accepted| && (took ==> more.answer.Some?)
    ensures SeenAfter(seen, cycles + [more], accepted + [took]) ==
            SeenAfter(seen, cycles, accepted) + if took then {more.answer.value.leaseId} else {}
  {
    var all, acc := cycles + [more], accepted + [took];
    var after, before := SeenAfter(seen, all, acc), SeenAfter(seen, cycles, accepted);
    forall id | id in before ensures id in after {
      if id !in seen {
        var i :| 0 <= i < |cycles| && accepted[i] && cycles[i].answer.Some? && cycles[i].answer.value.leaseId == id;
        assert all[i] == cycles[i] && acc[i];
      }
    }
    if took { assert all[|cycles|] == more && acc[|cycles|]; }
  }

  /** The executor was called, once, for just those commands whose running was acknowledged and that have
      no secrets, or resolved ones. */
  ghost predicate ExecutedIfReady(log: Log, lease: Lease, courses: seq<Course>) {
    |courses| == |lease.commands| &&
    forall k | 0 <= k < |courses| ::
      var trace := TraceOf(log, lease.leaseId, lease.commands[k].commandId);
      && Executions(trace) <= 1
      && (Executions(trace) == 1 <==>
            (Running, 2) in Acked(trace) && (!lease.commands[k].hasSecrets || courses[k].resolves))
  }

  lemma ThroughExecutes(log: Log, lease: Lease, courses: seq<Course>, done: nat)
    requires Through(log, lease, courses, done)
    ensures ExecutedIfReady(log, lease, courses)
  {
    forall k | 0 <= k < done
      ensures Executions(Due(lease.commands[k], courses[k])) <= 1
      ensures Executions(Due(lease.commands[k], courses[k])) == 1 <==>
              (Running, 2) in Acked(Due(lease.commands[k], courses[k])) &&
              (!lease.commands[k].hasSecrets || courses[k].resolves)
    {
      DueExecutes(lease.commands[k], courses[k]);
    }
  }

  /** One more cycle: it has processed its lease if it took one, and has changed no other trace. */
  ghost predicate CycleDone(before: Log, after: Log, more: Cycle, took: bool, processed: nat) {
    && (took ==> more.answer.Some? && Through(after, more.answer.value, more.courses, processed))
    && (took ==> forall c :: TraceOf(before, more.answer.value.leaseId, c) == [])
    && (forall l, c :: TraceOf(after, l, c) == TraceOf(before, l, c) ||
          (took && l == more.answer.value.leaseId && HasCommand(more.answer.value, processed, c)))
  }

  lemma ThroughNext(start: Log, before: Log, after: Log, cycles: seq<Cycle>, more: Cycle, accepted: seq<bool>,
                    done: seq<nat>, took: bool, processed: nat)
    requires AllThrough(start, before, cycles, accepted, done) && CycleDone(before, after, more, took, processed)
    requires took ==> forall k | 0 <= k < |cycles| && accepted[k] ::
               cycles[k].answer.value.leaseId != more.answer.value.leaseId
    ensures AllThrough(start, after, cycles + [more], accepted + [took], done + [processed])
  {
    var all, acc, dn := cycles + [more], accepted + [took], done + [processed];
    forall k | 0 <= k < |all| && acc[k]
      ensures all[k].answer.Some? && Through(after, all[k].answer.value, all[k].courses, dn[k])
    {
      if k < |cycles| {
        ThroughKept(before, after, cycles[k].answer.value, cycles[k].courses, done[k]);
      }
    }
    forall e, c ensures TraceOf(after, e, c) == TraceOf(start, e, c) || CameUnder(all, acc, dn, e, c) {
      if TraceOf(after, e, c) != TraceOf(before, e, c) {
        assert all[|cycles|] == more;
      } else if TraceOf(before, e, c) != TraceOf(start, e, c) {
        StaysUnder(cycles, more, accepted, done, took, processed, e, c);
      }
    }
  }

  lemma StaysUnder(cycles: seq<Cycle>, more: Cycle, accepted: seq<bool>, done: seq<nat>, took: bool, processed: nat,
                   e: string, c: string)
    requires CameUnder(cycles, accepted, done, e, c)
    ensures CameUnder(cycles + [more], accepted + [took], done + [processed], e, c)
  {
    var k :| 0 <= k < |cycles| && accepted[k] && cycles[k].answer.Some? &&
      cycles[k].answer.value.leaseId == e && HasCommand(cycles[k].answer.value, done[k], c);
    assert (cycles + [more])[k] == cycles[k] && (accepted + [took])[k] && (done + [processed])[k] == done[k];
  }

  lemma ThroughKept(before: Log, after: Log, lease: Lease, courses: seq<Course>, done: nat)
    requires Through(before, lease, courses, done)
    requires forall c :: TraceOf(after, lease.leaseId, c) == TraceOf(before, lease.leaseId, c)
    ensures Through(after, lease, courses, done)
  {
  }

  lemma ReportedNext(lease: Lease, courses: seq<Course>, results: seq<CommandResult>, more: CommandResult)
    requires AllReported(lease, courses, results) && |results| < |lease.commands|
    requires var k := |results|;
      && Outcome(Due(lease.commands[k], courses[k])) == Some(more.state)
      && more.commandId == lease.commands[k].commandId
    ensures AllReported(lease, courses, results + [more])
  {
    var all := results + [more];
    forall k {:trigger all[k]} | 0 <= k < |all|
      ensures Outcome(Due(lease.commands[k], courses[k])) == Some(all[k].state)
      ensures all[k].commandId == lease.commands[k].commandId
    {
      if k < |results| { assert all[k] == results[k]; }
    }
  }

  lemma DueBegins(command: Command, course: Course)
    requires !Overdue(command, course.before)
    ensures var due := Due(command, course);
      var begun := [] + Told(Accepted, 1, course.accepted);
      var running := begun + Told(Running, 2, course.running);
      if !course.accepted.Acknowledged? then due == begun && Outcome(due).None?
      else if !course.running.Acknowledged? then due == running && Outcome(due).None?
      else due == running + Worked(command, course) && Outcome(due) == Outcome(Worked(command, course))
  {
    if Starts(command, course) {
      var begun: Trace := [Post(Accepted, 1, true)] + [Post(Running, 2, true)];
      assert begun == [Post(Accepted, 1, true), Post(Running, 2, true)];
      OutcomeAppend(begun, Worked(command, course));
    } else {
      OutcomeAppend([], Told(Accepted, 1, course.accepted));
      OutcomeAppend([Post(Accepted, 1, true)], Told(Running, 2, course.running));
    }
  }

  lemma EndedLate(before: Trace, command: Command, course: Course)
    requires course.executes && Overdue(command, course.after)
    ensures var late := before + Told(Expired, 3, course.last);
      before + Ended(command, course) ==
        if course.last.Acknowledged? then late else late + Told(Failed, 3, course.fallback)
    ensures Outcome(Ended(command, course)) ==
            if course.last.Acknowledged? then Some(Expired)
            else if course.fallback.Acknowledged? then Some(Failed) else None
  {
    var expired, failed := Told(Expired, 3, course.last), Told(Failed, 3, course.fallback);
    if course.last.Acknowledged? {
      assert expired + [] == expired;
    } else {
      Associated(before, expired, failed);
      OutcomeAppend(expired, failed);
    }
  }

  class Client {
    const scope: Scope
    const revision: int
    // sequenceState and seenLeaseIds, which the daemon keeps across cycles
    var sequence: int
    var seenLeaseIds: set<string>
    ghost var log: Log
    ghost var issued: nat

    /** The counter stays a safe integer for as long as its increments can not have used up the gap
        between the latest possible date and 2^53, so that adding 1 is exact. */
    ghost predicate Counting()
      reads this
    {
      Increasing(log, sequence) && sequence <= MAX_DATE + issued
    }

    ghost predicate Valid()
      reads this
    {
      && Counting()
      && RunIsLegal(log)
      && (forall l, c :: l !in seenLeaseIds ==> TraceOf(log, l, c) == [])
    }

    constructor (scope: Scope, revision: int, now: int)
      requires now <= MAX_DATE
      ensures Valid() && log == [] && seenLeaseIds == {} && sequence == now && this.scope == scope
    {
      this.scope, this.revision := scope, revision;
      sequence, seenLeaseIds, log, issued := now, {}, [], 0;
    }

    method NowMs() returns (now: int)
      ensures now <= MAX_DATE
    {
      now := *;
      if now > MAX_DATE { now := MAX_DATE; }
    }

    /** The clock if it is ahead of the counter, or else the next number. */
    method NextSequence() returns (value: int, ghost now: int)
      requires Counting()
      modifies this`sequence, this`issued
      ensures Counting() && value == sequence > old(sequence) && issued == old(issued) + 1
      ensures now <= value && (value == now || value == old(sequence) + 1 || (old(sequence) == -1 && value == 1))
    {
      var reading := NowMs();
      now := reading;
      var bumped := if sequence + 1 == 0 then 1 else sequence + 1;
      sequence := if bumped > reading then bumped else reading;
      issued := issued + 1;
      value := sequence;
    }

    ghost method Append(e: Entry)
      requires Counting()
      requires Numbered(e) ==> e.sequence == sequence && forall i | 0 <= i < |log| && Numbered(log[i]) ::
               log[i].sequence < sequence
      modifies this`log
      ensures Counting() && log == old(log) + [e]
    {
      log := log + [e];
    }

    /** Checks in the source's order; the lease id is remembered only once all of them pass. */
    method AssertLeaseBinding(lease: Lease, request: Request, signatureValid: bool, now: int)
      returns (r: Result<(), Error>)
      modifies this`seenLeaseIds
      ensures r.Ok? <==> Answers(lease, request) && signatureValid && lease.expiresAt > now &&
                         lease.leaseId !in old(seenLeaseIds)
      ensures seenLeaseIds == old(seenLeaseIds) + if r.Ok? then {lease.leaseId} else {}
      ensures r == Err(ReplayDetected) <==> Answers(lease, request) && signatureValid && lease.expiresAt > now &&
                                            lease.leaseId in old(seenLeaseIds)
      ensures r == Err(LeaseExpired) <==> Answers(lease, request) && signatureValid && lease.expiresAt <= now
      ensures r == Err(InvalidSignature) <==> Answers(lease, request) && !signatureValid
    {
      if lease.scope.(serverId := request.scope.serverId) != request.scope { return Err(OwnerMismatch); }
      if lease.scope.serverId != request.scope.serverId { return Err(ServerMismatch); }
      if lease.requestId != request.requestId || lease.correlationId != request.correlationId {
        return Err(OwnerMismatch);
      }
      if lease.revision != request.revision || lease.sequence <= request.sequence { return Err(SequenceConflict); }
      if !signatureValid { return Err(InvalidSignature); }
      if lease.expiresAt <= now { return Err(LeaseExpired); }
      if lease.leaseId in seenLeaseIds { return Err(ReplayDetected); }
      seenLeaseIds := seenLeaseIds + {lease.leaseId};
      r := Ok(());
    }

    /** The platform's answer to the cycle's request is an arbitrary envelope, or none. */
    method LeaseControlCommands(cycle: Cycle) returns (r: Result<Lease, Error>)
      requires Valid()
      modifies this`sequence, this`issued, this`log, this`seenLeaseIds
      ensures Valid() && sequence > old(sequence)
      ensures r.Ok? <==> Accepts(scope, revision, old(seenLeaseIds), cycle, sequence)
      ensures r.Ok? ==> Some(r.value) == cycle.answer
      ensures seenLeaseIds == old(seenLeaseIds) + if r.Ok? then {r.value.leaseId} else {}
      ensures r.Ok? ==> forall c :: TraceOf(log, r.value.leaseId, c) == []
      ensures forall l, c :: TraceOf(log, l, c) == TraceOf(old(log), l, c)
    {
      var number, _ := NextSequence();
      var request := Request(scope, cycle.requestId, cycle.correlationId, revision, number);
      if !cycle.sent { return Err(Invalid); }
      RequestAppend(log, number);
      Append(Requested(number));
      if cycle.answer.None? { return Err(Rejected); }
      var bound := AssertLeaseBinding(cycle.answer.value, request, cycle.signatureValid, cycle.now);
      if bound.Err? { return Err(bound.error); }
      r := Ok(cycle.answer.value);
    }

    ghost function Trace(lease: Lease, command: Command): Trace
      reads this
    {
      TraceOf(log, lease.leaseId, command.commandId)
    }

    ghost method AppendReceipt(lease: Lease, command: Command, state: State, eventSequence: int, number: int, ok: bool)
      requires Counting() && number == sequence
      requires forall i | 0 <= i < |log| && Numbered(log[i]) :: log[i].sequence < sequence
      modifies this`log
      ensures Counting() && OthersUntouched(old(log), log, lease.leaseId, command.commandId)
      ensures log == old(log) + [Posted(lease.leaseId, command.leaseId, command.commandId, state, eventSequence,
              sequence, ok)]
      ensures Trace(lease, command) == old(Trace(lease, command)) + [Post(state, eventSequence, ok)]
    {
      var e := Posted(lease.leaseId, command.leaseId, command.commandId, state, eventSequence, number, ok);
      OwnAppend(log, e, lease.leaseId, command.commandId, Post(state, eventSequence, ok));
      Append(e);
    }

    /** Posts one receipt of a command of a lease, under the command's own lease id: not for a command the
        lease does not hold, nor a completion candidate without observation or evidence; any other as its
        delivery says. */
    method SendCommandReceipt(lease: Lease, command: Command, state: State, eventSequence: int,
                              observationVersion: Option<int>, evidenceRefs: seq<string>, delivery: Delivery)
      returns (r: Receipt)
      requires Counting()
      modifies this`sequence, this`issued, this`log
      ensures Counting() && sequence >= old(sequence)
      ensures OthersUntouched(old(log), log, lease.leaseId, command.commandId)
      ensures log == old(log) || log == old(log) + [Posted(lease.leaseId, command.leaseId, command.commandId, state,
                                                           eventSequence, sequence, delivery.Acknowledged?)]
      ensures if !Bound(scope, lease, command) then
                r.Threw? && r.error in {LeaseNotFound, OwnerMismatch, ServerMismatch} && log == old(log)
              else if state == CompletionCandidate && !Proven(observationVersion, evidenceRefs) then
                r == LocallyInvalid && log == old(log)
              else
                && r == (match delivery
                         case Acknowledged => Sent case Refused => Threw(Rejected) case Unsent => Threw(Invalid))
                && Trace(lease, command) == old(Trace(lease, command)) + Told(state, eventSequence, delivery)
    {
      var found := FindCommand(lease.commands, command.commandId);
      if found.None? || found.value.attempt != command.attempt || found.value.leaseId != command.leaseId ||
         found.value.leaseToken != command.leaseToken {
        return Threw(LeaseNotFound);
      }
      if lease.scope.(serverId := scope.serverId) != scope { return Threw(OwnerMismatch); }
      if lease.scope.serverId != scope.serverId { return Threw(ServerMismatch); }
      var number, _ := NextSequence();
      if state == CompletionCandidate && (observationVersion.None? || observationVersion.value < 1 ||
          !HasEvidence(evidenceRefs)) {
        return LocallyInvalid;
      }
      if delivery.Unsent? { return Threw(Invalid); }
      AppendReceipt(lease, command, state, eventSequence, number, delivery.Acknowledged?);
      r := if delivery.Acknowledged? then Sent else Threw(Rejected);
    }

    /** Whether the command's lease or its own expiry has passed, by two readings of the clock. */
    method HasExpired(command: Command, clock: Clock) returns (expired: bool)
      ensures expired <==> command.leaseExpiresAt <= clock.forLease || command.expiresAt <= clock.forCommand
    {
      if command.leaseExpiresAt <= clock.forLease { return true; }
      expired := command.expiresAt <= clock.forCommand;
    }

    /** One command of a cycle: it gets the trace that its course determines, and is reported with the
        outcome of that; without one it is an error, which aborts the cycle. */
    method ProcessCommand(lease: Lease, command: Command, course: Course) returns (r: Result<CommandResult, Error>)
      requires Counting() && Trace(lease, command) == [] && Bound(scope, lease, command)
      modifies this`sequence, this`issued, this`log
      ensures Counting() && sequence >= old(sequence)
      ensures OthersUntouched(old(log), log, lease.leaseId, command.commandId)
      ensures Trace(lease, command) == Due(command, course)
      ensures r.Ok? <==> Outcome(Due(command, course)).Some?
      ensures r.Ok? ==> r.value == CommandResult(command.commandId, Outcome(Due(command, course)).value)
    {
      var expired := HasExpired(command, course.before);
      if expired {
        r := Conclude(lease, command, Expired, 1, course.last);
        return;
      }
      DueBegins(command, course);
      var receipt := SendCommandReceipt(lease, command, Accepted, 1, None, [], course.accepted);
      if !receipt.Sent? { return Err(receipt.error); }
      receipt := SendCommandReceipt(lease, command, Running, 2, None, [], course.running);
      if !receipt.Sent? { return Err(receipt.error); }
      r := ExecuteCommand(lease, command, course);
    }

    ghost method AppendExecution(lease: Lease, command: Command)
      requires Counting()
      modifies this`log
      ensures Counting()
      ensures OthersUntouched(old(log), log, lease.leaseId, command.commandId)
      ensures Trace(lease, command) == old(Trace(lease, command)) + [Execute]
    {
      var e := Executed(lease.leaseId, command.leaseId, command.commandId);
      OwnAppend(log, e, lease.leaseId, command.commandId, Execute);
      Append(e);
    }

    /** After both receipts: the secret resolver may be missing or throw; then the executor is called. */
    method ExecuteCommand(lease: Lease, command: Command, course: Course) returns (r: Result<CommandResult, Error>)
      requires Counting() && Bound(scope, lease, command)
      modifies this`sequence, this`issued, this`log
      ensures Counting() && sequence >= old(sequence)
      ensures OthersUntouched(old(log), log, lease.leaseId, command.commandId)
      ensures Trace(lease, command) == old(Trace(lease, command)) + Worked(command, course)
      ensures r.Ok? <==> Outcome(Worked(command, course)).Some?
      ensures r.Ok? ==> r.value == CommandResult(command.commandId, Outcome(Worked(command, course)).value)
    {
      if command.hasSecrets && !course.resolves {
        r := Conclude(lease, command, Failed, 3, course.last);
        return;
      }
      OutcomeAppend([Execute], Ended(command, course));
      Associated(Trace(lease, command), [Execute], Ended(command, course));
      AppendExecution(lease, command);
      r := AfterExecution(lease, command, course);
    }

    /** From the executor's return on: it may have thrown, it may have overrun the lease, and observing
        its result may throw. An `expired` that is not accepted is followed by `failed` with the same number. */
    method AfterExecution(lease: Lease, command: Command, course: Course) returns (r: Result<CommandResult, Error>)
      requires Counting() && Bound(scope, lease, command)
      modifies this`sequence, this`issued, this`log
      ensures Counting() && sequence >= old(sequence)
      ensures OthersUntouched(old(log), log, lease.leaseId, command.commandId)
      ensures Trace(lease, command) == old(Trace(lease, command)) + Ended(command, course)
      ensures r.Ok? <==> Outcome(Ended(command, course)).Some?
      ensures r.Ok? ==> r.value == CommandResult(command.commandId, Outcome(Ended(command, course)).value)
    {
      var expired := false;
      if course.executes { expired := HasExpired(command, course.after); }
      if expired {
        r := ConcludeLate(lease, command, course);
        return;
      }
      if !course.executes || !course.observes {
        r := Conclude(lease, command, Failed, 3, course.last);
        return;
      }
      r := Complete(lease, command, course);
    }

    method ConcludeLate(lease: Lease, command: Command, course: Course) returns (r: Result<CommandResult, Error>)
      requires Counting() && Bound(scope, lease, command) && course.executes && Overdue(command, course.after)
      modifies this`sequence, this`issued, this`log
      ensures Counting() && sequence >= old(sequence)
      ensures OthersUntouched(old(log), log, lease.leaseId, command.commandId)
      ensures Trace(lease, command) == old(Trace(lease, command)) + Ended(command, course)
      ensures r.Ok? <==> Outcome(Ended(command, course)).Some?
      ensures r.Ok? ==> r.value == CommandResult(command.commandId, Outcome(Ended(command, course)).value)
    {
      EndedLate(Trace(lease, command), command, course);
      var receipt := SendCommandReceipt(lease, command, Expired, 3, None, [], course.last);
      if receipt.Sent? { return Ok(CommandResult(command.commandId, Expired)); }
      r := Conclude(lease, command, Failed, 3, course.fallback);
    }

    /** The completion candidate; where it fails the client's own check it is not sent, and `failed` is. */
    method Complete(lease: Lease, command: Command, course: Course) returns (r: Result<CommandResult, Error>)
      requires Counting() && Bound(scope, lease, command)
      requires course.executes && course.observes && !Overdue(command, course.after)
      modifies this`sequence, this`issued, this`log
      ensures Counting() && sequence >= old(sequence)
      ensures OthersUntouched(old(log), log, lease.leaseId, command.commandId)
      ensures Trace(lease, command) == old(Trace(lease, command)) + Ended(command, course)
      ensures r.Ok? <==> Outcome(Ended(command, course)).Some?
      ensures r.Ok? ==> r.value == CommandResult(command.commandId, Outcome(Ended(command, course)).value)
    {
      var receipt := SendCommandReceipt(lease, command, CompletionCandidate, 3, course.observationVersion,
                                        course.evidenceRefs, course.last);
      match receipt {
        case Sent => r := Ok(CommandResult(command.commandId, CompletionCandidate));
        case Threw(error) => r := Err(error);
        case LocallyInvalid => r := Conclude(lease, command, Failed, 3, course.fallback);
      }
    }

    /** Sends a terminal receipt other than a completion candidate; a rejection aborts the cycle. */
    method Conclude(lease: Lease, command: Command, state: State, eventSequence: int, delivery: Delivery)
        returns (r: Result<CommandResult, Error>)
      requires Counting() && state in {Failed, Expired} && Bound(scope, lease, command)
      modifies this`sequence, this`issued, this`log
      ensures Counting() && sequence >= old(sequence)
      ensures OthersUntouched(old(log), log, lease.leaseId, command.commandId)
      ensures Trace(lease, command) == old(Trace(lease, command)) + Told(state, eventSequence, delivery)
      ensures r.Ok? <==> delivery.Acknowledged?
      ensures r.Ok? ==> r.value == CommandResult(command.commandId, state)
    {
      var receipt := SendCommandReceipt(lease, command, state, eventSequence, None, [], delivery);
      r := if receipt.Sent? then Ok(CommandResult(command.commandId, state)) else Err(receipt.error);
    }

    /** One of the commands of a lease, after those before it. */
    method ProcessOneOf(lease: Lease, courses: seq<Course>, i: nat, ghost start: Log)
      returns (r: Result<CommandResult, Error>)
      requires Counting() && lease.scope == scope && DistinctIds(lease.commands)
      requires i < |lease.commands| && ProcessedTo(start, log, lease, courses, i)
      modifies this`sequence, this`issued, this`log
      ensures Counting() && sequence >= old(sequence) && ProcessedTo(start, log, lease, courses, i + 1)
      ensures r.Ok? <==> Outcome(Due(lease.commands[i], courses[i])).Some?
      ensures r.Ok? ==> r.value == CommandResult(lease.commands[i].commandId,
                                                 Outcome(Due(lease.commands[i], courses[i])).value)
    {
      FindsItself(lease.commands, i);
      assert !HasCommand(lease, i, lease.commands[i].commandId);
      r := ProcessCommand(lease, lease.commands[i], courses[i]);
      ProcessedNext(start, old(log), log, lease, courses, i);
    }

    /** The commands of a lease in order, up to the first one that has no outcome. */
    method ProcessUntilError(lease: Lease, courses: seq<Course>)
      returns (results: seq<CommandResult>, error: Option<Error>, ghost done: nat)
      requires Counting() && lease.scope == scope && DistinctIds(lease.commands) && |courses| == |lease.commands|
      requires forall c :: TraceOf(log, lease.leaseId, c) == []
      modifies this`sequence, this`issued, this`log
      ensures Counting() && sequence >= old(sequence) && ProcessedTo(old(log), log, lease, courses, done)
      ensures AllReported(lease, courses, results)
      ensures if error.None? then done == |results| == |courses|
              else done == |results| + 1 && Outcome(Due(lease.commands[done - 1], courses[done - 1])).None?
    {
      results := [];
      for i := 0 to |lease.commands|
        invariant Counting() && sequence >= old(sequence) && |results| == i
        invariant ProcessedTo(old(log), log, lease, courses, i) && AllReported(lease, courses, results)
      {
        var result := ProcessOneOf(lease, courses, i, old(log));
        if result.Err? { return results, Some(result.error), i + 1; }
        ReportedNext(lease, courses, results, result.value);
        results := results + [result.value];
      }
      error, done := None, |results|;
    }

    /** The commands of a lease in order; an error aborts the rest. */
    method ProcessCommands(lease: Lease, courses: seq<Course>)
      returns (r: Result<seq<CommandResult>, Error>, ghost done: nat)
      requires Counting() && RunIsLegal(log) && lease.scope == scope
      requires DistinctIds(lease.commands) && |courses| == |lease.commands|
      requires forall c :: TraceOf(log, lease.leaseId, c) == []
      modifies this`sequence, this`issued, this`log
      ensures Counting() && RunIsLegal(log) && sequence >= old(sequence)
      ensures ProcessedTo(old(log), log, lease, courses, done) && Through(log, lease, courses, done)
      ensures r.Ok? <==> AllConclude(lease, courses)
      ensures r.Ok? ==> |r.value| == |courses| && AllReported(lease, courses, r.value)
    {
      var results, error;
      results, error, done := ProcessUntilError(lease, courses);
      ProcessedLegal(old(log), log, lease, courses, done);
      ThroughProcessed(old(log), log, lease, courses, done, results);
      r := if error.None? then Ok(results) else Err(error.value);
    }

    /** One cycle: the lease, then its commands. */
    method ExecuteControlCycle(cycle: Cycle)
      returns (r: Result<seq<CommandResult>, Error>, ghost accepted: bool, ghost number: int, ghost done: nat)
      requires Valid() && CycleOk(cycle)
      modifies this`sequence, this`issued, this`log, this`seenLeaseIds
      ensures Valid() && sequence >= number > old(sequence)
      ensures accepted <==> Accepts(scope, revision, old(seenLeaseIds), cycle, number)
      ensures seenLeaseIds == old(seenLeaseIds) + if accepted then {cycle.answer.value.leaseId} else {}
      ensures CycleDone(old(log), log, cycle, accepted, done)
      ensures r.Ok? <==> accepted && AllConclude(cycle.answer.value, cycle.courses)
      ensures r.Ok? ==> |r.value| == |cycle.courses| && AllReported(cycle.answer.value, cycle.courses, r.value)
    {
      done := 0;
      var leased := LeaseControlCommands(cycle);
      accepted, number := leased.Ok?, sequence;
      if leased.Err? { return Err(leased.error), accepted, number, done; }
      r, done := ProcessCommands(leased.value, cycle.courses);
    }

    /** What has come of the cycles so far. */
    ghost predicate Ran(seen: set<string>, start: Log, cycles: seq<Cycle>, accepted: seq<bool>, numbers: seq<int>,
                        done: seq<nat>)
      reads this
    {
      && Cycled(scope, revision, seen, cycles, accepted, numbers) && AllThrough(start, log, cycles, accepted, done)
      && (forall k | 0 <= k < |numbers| :: numbers[k] <= sequence)
      && seenLeaseIds == SeenAfter(seen, cycles, accepted)
    }

    lemma RanNext(seen: set<string>, start: Log, before: Log, cycles: seq<Cycle>, more: Cycle, accepted: seq<bool>,
                  numbers: seq<int>, done: seq<nat>, took: bool, number: int, processed: nat)
      requires Cycled(scope, revision, seen, cycles, accepted, numbers)
      requires AllThrough(start, before, cycles, accepted, done) && CycleDone(before, log, more, took, processed)
      requires (forall k | 0 <= k < |numbers| :: numbers[k] < number) && number <= sequence
      requires took <==> Accepts(scope, revision, SeenAfter(seen, cycles, accepted), more, number)
      requires seenLeaseIds == SeenAfter(seen, cycles, accepted) +
                               if took then {more.answer.value.leaseId} else {}
      ensures Ran(seen, start, cycles + [more], accepted + [took], numbers + [number], done + [processed])
    {
      SeenNext(seen, cycles, more, accepted, took);
      CycledNext(scope, revision, seen, cycles, more, accepted, numbers, took, number);
      ThroughNext(start, before, log, cycles, more, accepted, done, took, processed);
    }

    /** Any number of cycles, with whatever envelopes the platform answers, replays included; a failed
        cycle is logged and the next one begins. A cycle comes by its lease exactly if that answers its
        request, and is new; its commands have then been processed as their courses determine, and
        nothing else has. Every command of every envelope behaves as documented, and so does every lease
        id of a command that came under one envelope only. */
    method RunControlDaemon(cycles: seq<Cycle>)
      returns (ghost accepted: seq<bool>, ghost numbers: seq<int>, ghost done: seq<nat>)
      requires Valid()
      requires forall c | c in cycles :: CycleOk(c)
      modifies this`sequence, this`issued, this`log, this`seenLeaseIds
      ensures Valid() && Cycled(scope, revision, old(seenLeaseIds), cycles, accepted, numbers)
      ensures |done| == |cycles| && forall i | 0 <= i < |cycles| && accepted[i] ::
                && cycles[i].answer.Some? && Through(log, cycles[i].answer.value, cycles[i].courses, done[i])
                && ExecutedIfReady(log, cycles[i].answer.value, cycles[i].courses)
      ensures forall e, c :: TraceOf(log, e, c) == TraceOf(old(log), e, c) || CameUnder(cycles, accepted, done, e, c)
      ensures forall e, c :: AsDocumented(TraceOf(log, e, c))
      ensures forall e, l, c | Belongs(log, e, l, c) :: AsDocumented(OwnTrace(log, l, c))
      ensures issued < MAX_SAFE_INTEGER - MAX_DATE ==> sequence < MAX_SAFE_INTEGER
    {
      accepted, numbers, done := [], [], [];
      for i := 0 to |cycles|
        invariant Valid() && Ran(old(seenLeaseIds), old(log), cycles[..i], accepted, numbers, done)
      {
        assert cycles[i] in cycles;
        ghost var before := log;
        var _, took, number, processed := ExecuteControlCycle(cycles[i]);
        assert cycles[..i + 1] == cycles[..i] + [cycles[i]];
        RanNext(old(seenLeaseIds), old(log), before, cycles[..i], cycles[i], accepted, numbers, done, took, number,
                processed);
        accepted, numbers, done := accepted + [took], numbers + [number], done + [processed];
      }
      assert cycles[..|cycles|] == cycles;
      forall i | 0 <= i < |cycles| && accepted[i]
        ensures ExecutedIfReady(log, cycles[i].answer.value, cycles[i].courses)
      {
        ThroughExecutes(log, cycles[i].answer.value, cycles[i].courses, done[i]);
      }
      forall e, c ensures AsDocumented(TraceOf(log, e, c)) {
        LegalIsDocumented(TraceOf(log, e, c));
      }
      forall e, l, c | Belongs(log, e, l, c) ensures AsDocumented(OwnTrace(log, l, c)) {
        OwnIsTrace(log, e, l, c);
      }
    }
  }
}
