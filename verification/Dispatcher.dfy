// The outbound worker of src/outbound.rs as a state machine over the row log:
// one step per append, with concurrent enqueues, I/O errors and crashes in
// between. The class in OutboundWorkerModel.dfy is proved to walk along it.
module Dispatcher {
  import opened Wrappers
  import opened Text
  import opened QueueLog

  const MAX_ATTEMPTS: int := 5

  // What one SMTP attempt reports. NetworkError stands for every Err of send_one.
  datatype SmtpReply =
    | Delivered
    | Permanent(code: nat, message: string)
    | Transient(code: nat, message: string)
    | NetworkError(error: string)

  datatype AckStatus = Sent | Failed | Retrying

  datatype Ack = Ack(messageId: string, status: AckStatus, reason: Option<string>)

  function SatInc32(n: U32): U32 {
    if n == U32_MAX then n else n + 1
  }

  function SatInc64(n: U64): U64 {
    if n == U64_MAX then n else n + 1
  }

  // What handle_outcome decides to do with a job, and the reason it gives in the ack.
  // retryAt: the clock plus the backoff.
  datatype Verdict =
    | Finish
    | GiveUp(text: string)
    | Retry(updated: Job, text: string)

  // --- The texts of rows and acks ---

  function SmtpText(code: nat, message: string): string {
    "smtp " + Decimal(code) + ": " + message
  }

  function AttemptText(code: nat, attempts: U32, message: string): string {
    "smtp " + Decimal(code) + " (attempt " + Decimal(attempts) + "): " + message
  }

  function LastAttemptText(code: nat, attempts: U32, message: string): string {
    "smtp " + Decimal(code) + " after " + Decimal(attempts) + " attempts: " + message
  }

  function NetworkText(error: string): string {
    "network: " + error
  }

  function Decide(job: Job, reply: SmtpReply, retryAt: int): Verdict {
    match reply
    case Delivered => Finish
    case Permanent(code, message) => GiveUp(SmtpText(code, message))
    case Transient(code, message) =>
      var next := SatInc32(job.attempts);
      if next >= MAX_ATTEMPTS then GiveUp(LastAttemptText(code, next, message))
      else Retry(PutOff(job, next, retryAt, SmtpText(code, message)), AttemptText(code, next, message))
    case NetworkError(error) =>
      var next := SatInc32(job.attempts);
      if next >= MAX_ATTEMPTS then GiveUp(NetworkText(error))
      else Retry(PutOff(job, next, retryAt, NetworkText(error)), NetworkText(error))
  }

  function PutOff(job: Job, next: U32, retryAt: int, error: string): Job {
    job.(attempts := next, nextAttemptAt := retryAt, lastError := Some(error))
  }

  // Reply by reply: a refusal is final, and anything else that is no acceptance is put off
  // while fewer than four attempts were made, as the same job with one attempt more, the
  // new time and the error.
  lemma DecideExactly(job: Job, reply: SmtpReply, retryAt: int)
    ensures match reply
      case Delivered => Decide(job, reply, retryAt) == Finish
      case Permanent(code, message) =>
        Decide(job, reply, retryAt) == GiveUp("smtp " + Decimal(code) + ": " + message)
      case Transient(code, message) =>
        Decide(job, reply, retryAt)
        == if job.attempts < 4
           then Retry(job.(attempts := job.attempts + 1, nextAttemptAt := retryAt,
                           lastError := Some("smtp " + Decimal(code) + ": " + message)),
                      "smtp " + Decimal(code) + " (attempt " + Decimal(job.attempts + 1) + "): " + message)
           else GiveUp("smtp " + Decimal(code) + " after "
                       + Decimal(if job.attempts == U32_MAX then U32_MAX else job.attempts + 1)
                       + " attempts: " + message)
      case NetworkError(error) =>
        Decide(job, reply, retryAt)
        == if job.attempts < 4
           then Retry(job.(attempts := job.attempts + 1, nextAttemptAt := retryAt,
                           lastError := Some("network: " + error)),
                      "network: " + error)
           else GiveUp("network: " + error)
  {
  }

  // --- State ---

  // Where the worker is. `pending` is what is left of the tick's snapshot.
  datatype Phase =
    | Idle
    | Draining(pending: seq<Job>, now: int)
    | Sending(job: Job, pending: seq<Job>, now: int)
    | Deciding(job: Job, reply: SmtpReply, pending: seq<Job>, now: int)
    | BetweenAppends(job: Job, text: string, pending: seq<Job>, now: int)
    | Acking(ack: Ack, pending: seq<Job>, now: int)

  datatype Resolution = Resolution(job: Job, reply: SmtpReply)

  // What happened so far; nothing here is read by a step. heard, unheard: the acks the
  // broker took and those it did not.
  datatype History = History(
    accepted: seq<string>,
    sends: seq<string>,
    resolutions: seq<Resolution>,
    condemned: seq<string>,
    cut: seq<string>,
    dlqEver: seq<Job>,
    trimmed: bool,
    heard: seq<Ack>,
    unheard: seq<Ack>,
    faults: nat)

  // acks: handed to the broker, oldest first.
  datatype State = State(
    rows: seq<Job>,
    dlq: seq<Job>,
    phase: Phase,
    inFlight: set<string>,
    sentTotal: U64,
    failedTotal: U64,
    acks: seq<Ack>,
    h: History)

  function Init(): State {
    State([], [], Idle, {}, 0, 0, [], History([], [], [], [], [], [], false, [], [], 0))
  }

  // --- Steps ---

  datatype Event =
    | Accept(job: Job)
    | BeginTick(snapshot: seq<Job>, now: int)
    | Skip
    | EndTick
    | Send
    | Reply(reply: SmtpReply)
    | Settle(retryAt: int)
    | WriteDlq
    | PublishAck(heard: bool)
    | Compact(rows: seq<Job>)
    | TrimDlq(max: nat)
    | IoError
    | Crash

  // A job that can be sent now: due, and not already in flight.
  predicate CanSend(s: State) {
    s.phase.Draining? && s.phase.pending != []
    && s.phase.pending[0].nextAttemptAt <= s.phase.now
    && s.phase.pending[0].messageId !in s.inFlight
  }

  ghost predicate Enabled(s: State, e: Event) {
    match e
    // Enqueued by a tool or a broker command at any moment, under a fresh id.
    case Accept(job) => job.messageId !in s.h.accepted && job.attempts == 0 && !job.done
    case BeginTick(snapshot, _) => s.phase.Idle? && IsPendingList(snapshot, Live(s.rows))
    case Skip => s.phase.Draining? && s.phase.pending != [] && !CanSend(s)
    // At the end of the snapshot, or where cancellation is seen.
    case EndTick => s.phase.Draining?
    case Send => CanSend(s)
    case Reply(_) => s.phase.Sending?
    case Settle(_) => s.phase.Deciding?
    case WriteDlq => s.phase.BetweenAppends?
    case PublishAck(_) => s.phase.Acking?
    case Compact(rows) => s.phase.Idle? && CompactStep(s.rows, rows)
    case TrimDlq(_) => s.phase.Idle?
    // An append or a read fails: the ? operator ends the tick.
    case IoError => !s.phase.Idle? && !s.phase.Sending?
    case Crash => true
  }

  // A job of the snapshot is skipped exactly when it is not due or its id is in flight;
  // otherwise it is sent.
  lemma SendOrSkip(s: State)
    requires s.phase.Draining? && s.phase.pending != []
    ensures var job := s.phase.pending[0];
      (Enabled(s, Skip) <==> job.nextAttemptAt > s.phase.now || job.messageId in s.inFlight)
      && (Enabled(s, Send) <==> job.nextAttemptAt <= s.phase.now && job.messageId !in s.inFlight)
  {
  }

  function AfterSettle(s: State, retryAt: int): State
    requires s.phase.Deciding?
  {
    var Deciding(job, reply, pending, now) := s.phase;
    match Decide(job, reply, retryAt)
    case Finish =>
      s.(rows := MarkDoneRows(s.rows, job.messageId),
         sentTotal := SatInc64(s.sentTotal),
         phase := Acking(Ack(job.messageId, Sent, None), pending, now))
    case GiveUp(text) =>
      s.(rows := s.rows + [Tombstone(job)],
         phase := BetweenAppends(job, text, pending, now),
         h := s.h.(condemned := s.h.condemned + [job.messageId]))
    case Retry(updated, text) =>
      s.(rows := s.rows + [updated],
         phase := Acking(Ack(job.messageId, Retrying, Some(text)), pending, now))
  }

  function LastRows(rows: seq<Job>, max: nat): seq<Job> {
    if max == 0 || |rows| <= max then rows else rows[|rows| - max..]
  }

  // The ids a fault at this point keeps out of the DLQ for good.
  function CutHere(p: Phase): seq<string> {
    if p.BetweenAppends? then [p.job.messageId] else []
  }

  ghost function After(s: State, e: Event): State
    requires Enabled(s, e)
  {
    match e
    case Accept(job) =>
      s.(rows := s.rows + [job], h := s.h.(accepted := s.h.accepted + [job.messageId]))
    case BeginTick(snapshot, now) => s.(phase := Draining(snapshot, now))
    case Skip => s.(phase := Draining(s.phase.pending[1..], s.phase.now))
    case EndTick => s.(phase := Idle)
    case Send =>
      var job := s.phase.pending[0];
      s.(phase := Sending(job, s.phase.pending[1..], s.phase.now),
         inFlight := s.inFlight + {job.messageId},
         h := s.h.(sends := s.h.sends + [job.messageId]))
    case Reply(reply) =>
      s.(phase := Deciding(s.phase.job, reply, s.phase.pending, s.phase.now),
         inFlight := s.inFlight - {s.phase.job.messageId},
         h := s.h.(resolutions := s.h.resolutions + [Resolution(s.phase.job, reply)]))
    case Settle(retryAt) => AfterSettle(s, retryAt)
    case WriteDlq =>
      s.(dlq := s.dlq + [s.phase.job],
         failedTotal := SatInc64(s.failedTotal),
         phase := Acking(Ack(s.phase.job.messageId, Failed, Some(s.phase.text)), s.phase.pending, s.phase.now),
         h := s.h.(dlqEver := s.h.dlqEver + [s.phase.job]))
    // A publish that fails is logged, and the worker goes on.
    case PublishAck(heard) =>
      s.(acks := s.acks + [s.phase.ack], phase := Draining(s.phase.pending, s.phase.now),
         h := if heard then s.h.(heard := s.h.heard + [s.phase.ack]) else s.h.(unheard := s.h.unheard + [s.phase.ack]))
    case Compact(rows) => s.(rows := rows)
    case TrimDlq(max) => s.(dlq := LastRows(s.dlq, max), h := s.h.(trimmed := s.h.trimmed || |s.dlq| > max > 0))
    case IoError =>
      s.(phase := Idle, h := s.h.(faults := s.h.faults + 1, cut := s.h.cut + CutHere(s.phase)))
    case Crash =>
      s.(phase := Idle, inFlight := {}, sentTotal := 0, failedTotal := 0,
         h := s.h.(faults := s.h.faults + 1, cut := s.h.cut + CutHere(s.phase)))
  }

  // Run a list of events; None when one of them cannot happen.
  ghost function Exec(s: State, events: seq<Event>): Option<State>
    decreases |events|
  {
    if events == [] then Some(s)
    else if Enabled(s, events[0]) then Exec(After(s, events[0]), events[1..])
    else None
  }

  ghost predicate Reachable(s: State) {
    exists events :: Exec(Init(), events) == Some(s)
  }

  lemma {:induction false} ExecConcat(s: State, a: seq<Event>, b: seq<Event>)
    ensures Exec(s, a + b) == if Exec(s, a).None? then None else Exec(Exec(s, a).value, b)
    decreases |a|
  {
    if a == [] {
      assert a + b == b;
    } else {
      assert (a + b)[1..] == a[1..] + b;
      if Enabled(s, a[0]) {
        ExecConcat(After(s, a[0]), a[1..], b);
      }
    }
  }

  // --- What a step does to the abstract queue ---

  function LiveJobs(s: State): JobMap {
    Live(s.rows)
  }

  ghost function LiveAfter(s: State, e: Event): JobMap
    requires Enabled(s, e)
  {
    match e
    case Accept(job) => LiveJobs(s)[job.messageId := job]
    case Settle(retryAt) =>
      (match Decide(s.phase.job, s.phase.reply, retryAt)
       case Finish => LiveJobs(s) - {s.phase.job.messageId}
       case GiveUp(_) => LiveJobs(s) - {s.phase.job.messageId}
       case Retry(updated, _) => Put(LiveJobs(s), updated))
    case _ => LiveJobs(s)
  }

  lemma StepLive(s: State, e: Event)
    requires Enabled(s, e)
    ensures LiveJobs(After(s, e)) == LiveAfter(s, e)
  {
    match e
    case Accept(job) => LiveAppend(s.rows, job);
    case Settle(retryAt) => {
      var job := s.phase.job;
      match Decide(job, s.phase.reply, retryAt) {
        case Finish => LiveMarkDone(s.rows, job.messageId);
        case GiveUp(_) => LiveAppend(s.rows, Tombstone(job));
        case Retry(updated, _) => LiveAppend(s.rows, updated);
      }
    }
    case Compact(rows) => CompactFold(s.rows, rows);
    case _ =>
  }
}
