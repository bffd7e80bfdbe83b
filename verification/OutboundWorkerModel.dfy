// OutboundWorker of src/outbound.rs over the two queue files. Its methods are
// proved to take exactly the steps of the state machine in Dispatcher.dfy.
module OutboundWorkerModel {
  import opened Wrappers
  import opened QueueLog
  import opened QueueFile
  import opened OutboundQueueStore
  import opened Backoff
  import opened Dispatcher

  // Which append of handling an outcome fails, with nothing written. What a failure
  // that leaves part of a row behind does to the file is QueueFile's matter.
  datatype Fault = NoFault | QueueFails | DlqFails

  // What the world answers when a job is sent: the reply, the clock read when the
  // retry is scheduled, the jitter drawn for it, whether the appends work, and whether
  // the broker takes the ack.
  datatype Attempt = Attempt(reply: SmtpReply, clock: int, jitter: Jitter, fault: Fault, heard: bool)

  // When the next attempt after this one is due, should there be one.
  function DueAt(job: Job, attempt: Attempt): int {
    attempt.clock + RetryDelay(SatInc32(job.attempts), attempt.jitter)
  }

  // A retry is due strictly after the clock that scheduled it, by 1 to 2, 3 to 4, 6 to
  // 9 or 12 to 19 seconds for the four attempts that are ever scheduled, and always
  // later than any retry of the attempt before would have been.
  lemma RetryIsDueLater(job: Job, attempt: Attempt, earlier: Attempt)
    requires Decide(job, attempt.reply, DueAt(job, attempt)).Retry?
    ensures var updated := Decide(job, attempt.reply, DueAt(job, attempt)).updated;
      var wait := updated.nextAttemptAt - attempt.clock;
      1 <= updated.attempts <= 4
      && (updated.attempts == 1 ==> 1 <= wait <= 2) && (updated.attempts == 2 ==> 3 <= wait <= 4)
      && (updated.attempts == 3 ==> 6 <= wait <= 9) && (updated.attempts == 4 ==> 12 <= wait <= 19)
      && (job.attempts > 0 ==> wait > RetryDelay(job.attempts, earlier.jitter))
  {
    var n := SatInc32(job.attempts);
    RetryDelayBands(attempt.jitter);
    RetryDelaysGrow(n, attempt.jitter, earlier.jitter);
  }

  predicate GivesUp(job: Job, attempt: Attempt) {
    Decide(job, attempt.reply, DueAt(job, attempt)).GiveUp?
  }

  // Handling the outcome ends early.
  predicate Fails(job: Job, attempt: Attempt) {
    attempt.fault.QueueFails? || (attempt.fault.DlqFails? && GivesUp(job, attempt))
  }

  // That is: the queue append fails, or the reply is final, for good or as the fifth, and
  // the append to the DLQ fails.
  lemma FailsExactly(job: Job, attempt: Attempt)
    ensures Fails(job, attempt)
       <==> attempt.fault.QueueFails?
            || (attempt.fault.DlqFails?
                && (attempt.reply.Permanent? || (!attempt.reply.Delivered? && job.attempts >= 4)))
  {
  }

  // Settling a job: one append, or two for a failure, up to the first that fails.
  function DecisionEvents(job: Job, attempt: Attempt): seq<Event> {
    if attempt.fault.QueueFails? then [IoError]
    else if !GivesUp(job, attempt) then [Settle(DueAt(job, attempt))]
    else [Settle(DueAt(job, attempt))] + [if attempt.fault.DlqFails? then IoError else WriteDlq]
  }

  function SettleEvents(job: Job, attempt: Attempt): seq<Event> {
    DecisionEvents(job, attempt) + if Fails(job, attempt) then [] else [PublishAck(attempt.heard)]
  }

  predicate Skips(job: Job, now: int, inFlight: set<string>) {
    job.nextAttemptAt > now || job.messageId in inFlight
  }

  // A job of the snapshot: skipped, or sent and settled.
  function JobEvents(job: Job, now: int, inFlight: set<string>, smtp: Job -> Attempt): seq<Event> {
    if Skips(job, now, inFlight) then [Skip]
    else [Send, Reply(smtp(job).reply)] + SettleEvents(job, smtp(job))
  }

  predicate JobFails(job: Job, now: int, inFlight: set<string>, smtp: Job -> Attempt) {
    !Skips(job, now, inFlight) && Fails(job, smtp(job))
  }

  // Job after job, up to the first whose handling fails.
  function DrainEvents(jobs: seq<Job>, now: int, inFlight: set<string>, smtp: Job -> Attempt): seq<Event> {
    if jobs == [] then []
    else
      JobEvents(jobs[0], now, inFlight, smtp)
      + if JobFails(jobs[0], now, inFlight, smtp) then [] else DrainEvents(jobs[1..], now, inFlight, smtp)
  }

  predicate DrainFails(jobs: seq<Job>, now: int, inFlight: set<string>, smtp: Job -> Attempt) {
    exists i :: 0 <= i < |jobs| && JobFails(jobs[i], now, inFlight, smtp)
  }

  // A tick over a snapshot that is worked on up to its n-th job.
  function TickEvents(snapshot: seq<Job>, n: nat, now: int, inFlight: set<string>, smtp: Job -> Attempt): seq<Event>
    requires n <= |snapshot|
  {
    [BeginTick(snapshot, now)] + DrainEvents(snapshot[..n], now, inFlight, smtp)
    + if DrainFails(snapshot[..n], now, inFlight, smtp) then [] else [EndTick]
  }

  // A tick that finds nothing pending; errors of either step are passed over.
  function SweepEvents(rows: seq<Job>, max: nat, compacted: bool, trimmed: bool): seq<Event> {
    (if compacted then [Event.Compact(rows)] else []) + if trimmed then [Event.TrimDlq(max)] else []
  }

  lemma ExecOne(s: State, e: Event)
    requires Enabled(s, e)
    ensures Exec(s, [e]) == Some(After(s, e))
  {
    var one := [e];
    assert one[1..] == [];
  }

  lemma {:induction false} EncodeAllAppend(c: Codec, js: seq<Job>, j: Job)
    ensures EncodeAll(c, js + [j]) == EncodeAll(c, js) + Line(c, j)
  {
    if js == [] {
      var one := [j];
      assert one[1..] == [];
      assert [] + one == one;
      assert Line(c, j) + [] == Line(c, j);
      assert [] + Line(c, j) == Line(c, j);
    } else {
      EncodeAllAppend(c, js[1..], j);
      assert (js + [j])[1..] == js[1..] + [j];
      Assoc(Line(c, js[0]), EncodeAll(c, js[1..]), Line(c, j));
    }
  }

  // The two appends of a failure, as one change of state.
  lemma GiveUpSteps(s: State, retryAt: int, text: string)
    requires s.phase.Deciding? && Decide(s.phase.job, s.phase.reply, retryAt) == GiveUp(text)
    ensures var job := s.phase.job;
      var between := After(s, Event.Settle(retryAt));
      Enabled(between, WriteDlq)
      && After(between, WriteDlq)
         == s.(rows := s.rows + [Tombstone(job)], dlq := s.dlq + [job], failedTotal := SatInc64(s.failedTotal),
               phase := Acking(Ack(job.messageId, Failed, Some(text)), s.phase.pending, s.phase.now),
               h := s.h.(condemned := s.h.condemned + [job.messageId], dlqEver := s.h.dlqEver + [job]))
  {
  }

  lemma SendStep(s: State, job: Job)
    requires CanSend(s) && s.phase.pending[0] == job
    ensures After(s, Send)
         == s.(phase := Sending(job, s.phase.pending[1..], s.phase.now), inFlight := s.inFlight + {job.messageId},
               h := s.h.(sends := s.h.sends + [job.messageId]))
  {
  }

  lemma ReplyStep(s: State, reply: SmtpReply)
    requires s.phase.Sending?
    ensures After(s, Reply(reply))
         == s.(phase := Deciding(s.phase.job, reply, s.phase.pending, s.phase.now),
               inFlight := s.inFlight - {s.phase.job.messageId},
               h := s.h.(resolutions := s.h.resolutions + [Resolution(s.phase.job, reply)]))
  {
  }

  lemma FinishStep(s: State, retryAt: int)
    requires s.phase.Deciding? && Decide(s.phase.job, s.phase.reply, retryAt).Finish?
    ensures After(s, Event.Settle(retryAt))
         == s.(rows := MarkDoneRows(s.rows, s.phase.job.messageId), sentTotal := SatInc64(s.sentTotal),
               phase := Acking(Ack(s.phase.job.messageId, Sent, None), s.phase.pending, s.phase.now))
  {
  }

  lemma RetryStep(s: State, retryAt: int, updated: Job, text: string)
    requires s.phase.Deciding? && Decide(s.phase.job, s.phase.reply, retryAt) == Retry(updated, text)
    ensures After(s, Event.Settle(retryAt))
         == s.(rows := s.rows + [updated],
               phase := Acking(Ack(s.phase.job.messageId, Retrying, Some(text)), s.phase.pending, s.phase.now))
  {
  }

  // A failed queue append.
  lemma FailStep(s: State)
    requires s.phase.Deciding?
    ensures After(s, IoError) == s.(phase := Idle, h := s.h.(faults := s.h.faults + 1))
  {
    assert s.h.cut + [] == s.h.cut;
  }

  lemma PublishStep(s: State, heard: bool)
    requires s.phase.Acking?
    ensures After(s, PublishAck(heard))
         == s.(acks := s.acks + [s.phase.ack], phase := Draining(s.phase.pending, s.phase.now),
               h := if heard then s.h.(heard := s.h.heard + [s.phase.ack])
                    else s.h.(unheard := s.h.unheard + [s.phase.ack]))
  {
  }

  // The first append of a failure alone.
  lemma HalfGiveUpSteps(s: State, retryAt: int, text: string)
    requires s.phase.Deciding? && Decide(s.phase.job, s.phase.reply, retryAt) == GiveUp(text)
    ensures var id := s.phase.job.messageId;
      var between := After(s, Event.Settle(retryAt));
      Enabled(between, IoError)
      && After(between, IoError)
         == s.(rows := s.rows + [Tombstone(s.phase.job)], phase := Idle,
               h := s.h.(condemned := s.h.condemned + [id], faults := s.h.faults + 1, cut := s.h.cut + [id]))
  {
  }

  class OutboundWorker {
    const queue: OutboundQueue
    const maxDlqLines: nat
    var inFlight: set<string>
    var sentTotal: U64
    var failedTotal: U64
    // Acks handed to the broker, oldest first.
    var acks: seq<Ack>
    ghost var phase: Phase
    ghost var h: History

    ghost predicate Valid()
      reads queue
    {
      queue.Healthy() && queue.dlqFile == EncodeAll(queue.codec, queue.DlqRows().value)
    }

    ghost function QueueRows(): seq<Job>
      requires Valid()
      reads queue
    {
      queue.Rows().value
    }

    ghost function DlqRows(): seq<Job>
      requires Valid()
      reads queue
    {
      queue.DlqRows().value
    }

    ghost function Now(): State
      requires Valid()
      reads this, queue
    {
      State(QueueRows(), DlqRows(), phase, inFlight, sentTotal, failedTotal, acks, h)
    }

    constructor (queue: OutboundQueue, maxDlqLines: nat)
      ensures this.queue == queue && this.maxDlqLines == maxDlqLines
      ensures inFlight == {} && sentTotal == 0 && failedTotal == 0 && acks == []
      ensures phase == Idle
    {
      this.queue, this.maxDlqLines := queue, maxDlqLines;
      inFlight, sentTotal, failedTotal, acks := {}, 0, 0, [];
      phase, h := Idle, Init().h;
    }

    // The appends, on the rows.
    method PutRow(row: Job)
      requires Valid()
      modifies queue
      ensures Valid() && QueueRows() == old(QueueRows()) + [row] && DlqRows() == old(DlqRows())
    {
      var _ := queue.Update(row, Good);
    }

    method PutTombstone(id: string)
      requires Valid()
      modifies queue
      ensures Valid() && QueueRows() == MarkDoneRows(old(QueueRows()), id) && DlqRows() == old(DlqRows())
    {
      var _ := queue.MarkDone(id, Good);
    }

    method PutFailure(job: Job)
      requires Valid()
      modifies queue
      ensures Valid() && QueueRows() == old(QueueRows()) + [Tombstone(job)] && DlqRows() == old(DlqRows()) + [job]
    {
      EncodeAllAppend(queue.codec, DlqRows(), job);
      var _ := queue.MoveToDlq(job, Good, Good);
    }

    // The second append fails with nothing written.
    method PutHalfFailure(job: Job)
      requires Valid()
      modifies queue
      ensures Valid() && QueueRows() == old(QueueRows()) + [Tombstone(job)] && DlqRows() == old(DlqRows())
    {
      var _ := queue.MoveToDlq(job, Good, FailsAt(0));
      assert old(queue.dlqFile) + [] == old(queue.dlqFile);
    }

    // One method per branch of handle_outcome, up to the ack.
    method FinishJob(job: Job, retryAt: int)
      requires Valid() && phase.Deciding? && phase.job == job
      requires Decide(job, phase.reply, retryAt).Finish?
      modifies this`phase, this`sentTotal, queue
      ensures Valid() && Now() == After(old(Now()), Event.Settle(retryAt))
      ensures sentTotal == if old(sentTotal) < U64_MAX then old(sentTotal) + 1 else U64_MAX
      ensures QueueRows() == MarkDoneRows(old(QueueRows()), job.messageId) && DlqRows() == old(DlqRows())
    {
      FinishStep(Now(), retryAt);
      PutTombstone(job.messageId);
      sentTotal := SatInc64(sentTotal);
      phase := Acking(Ack(job.messageId, Sent, None), phase.pending, phase.now);
    }

    method RetryJob(job: Job, retryAt: int, updated: Job, text: string)
      requires Valid() && phase.Deciding? && phase.job == job
      requires Decide(job, phase.reply, retryAt) == Retry(updated, text)
      modifies this`phase, queue
      ensures Valid() && Now() == After(old(Now()), Event.Settle(retryAt))
      ensures QueueRows() == old(QueueRows()) + [updated] && DlqRows() == old(DlqRows())
    {
      RetryStep(Now(), retryAt, updated, text);
      PutRow(updated);
      phase := Acking(Ack(job.messageId, Retrying, Some(text)), phase.pending, phase.now);
    }

    method GiveUpJob(job: Job, retryAt: int, text: string)
      requires Valid() && phase.Deciding? && phase.job == job
      requires Decide(job, phase.reply, retryAt) == GiveUp(text)
      modifies this`phase, this`failedTotal, this`h, queue
      ensures Valid()
      ensures var between := After(old(Now()), Event.Settle(retryAt));
        Enabled(between, WriteDlq) && Now() == After(between, WriteDlq)
      ensures failedTotal == if old(failedTotal) < U64_MAX then old(failedTotal) + 1 else U64_MAX
      ensures h.condemned == old(h.condemned) + [job.messageId] && h.dlqEver == old(h.dlqEver) + [job]
      ensures QueueRows() == old(QueueRows()) + [job.(done := true)] && DlqRows() == old(DlqRows()) + [job]
    {
      GiveUpSteps(Now(), retryAt, text);
      PutFailure(job);
      failedTotal := SatInc64(failedTotal);
      phase := Acking(Ack(job.messageId, Failed, Some(text)), phase.pending, phase.now);
      h := h.(condemned := h.condemned + [job.messageId], dlqEver := h.dlqEver + [job]);
    }

    // The tombstone is written, the DLQ row is not.
    method HalfGiveUp(job: Job, retryAt: int, text: string)
      requires Valid() && phase.Deciding? && phase.job == job
      requires Decide(job, phase.reply, retryAt) == GiveUp(text)
      modifies this`phase, this`h, queue
      ensures Valid() && phase == Idle
      ensures var between := After(old(Now()), Event.Settle(retryAt));
        Enabled(between, IoError) && Now() == After(between, IoError)
    {
      HalfGiveUpSteps(Now(), retryAt, text);
      PutHalfFailure(job);
      phase := Idle;
      h := h.(condemned := h.condemned + [job.messageId], faults := h.faults + 1, cut := h.cut + [job.messageId]);
    }

    // The queue append fails: nothing is written, and the tick is over.
    method FailFirst(job: Job)
      requires Valid() && phase.Deciding?
      modifies this`phase, this`h
      ensures Valid() && phase == Idle && Now() == After(old(Now()), IoError)
    {
      FailStep(Now());
      phase := Idle;
      h := h.(faults := h.faults + 1);
    }

    // A permanent failure, or the fifth transient one.
    method FailJob(job: Job, attempt: Attempt, text: string) returns (r: Result<Ack, QueueError>)
      requires Valid() && phase.Deciding? && phase.job == job && phase.reply == attempt.reply
      requires !attempt.fault.QueueFails? && Decide(job, attempt.reply, DueAt(job, attempt)) == GiveUp(text)
      modifies this`phase, this`sentTotal, this`failedTotal, this`h, queue
      ensures Settled(r, job, attempt, old(phase.pending), old(phase.now))
      ensures r.Ok? ==> Wrote(job, attempt, r.value, old(QueueRows()), old(DlqRows()))
      ensures Exec(old(Now()), DecisionEvents(job, attempt)) == Some(Now())
    {
      ghost var s0 := Now();
      ghost var settle := Event.Settle(DueAt(job, attempt));
      if attempt.fault.DlqFails? {
        HalfGiveUp(job, DueAt(job, attempt), text);
        ExecTwo(s0, settle, IoError);
        return Err(WriteFailed);
      }
      GiveUpJob(job, DueAt(job, attempt), text);
      ExecTwo(s0, settle, WriteDlq);
      return Ok(Ack(job.messageId, Failed, Some(text)));
    }

    // After the appends: an ack to publish, or a tick that is over.
    ghost predicate Settled(r: Result<Ack, QueueError>, job: Job, attempt: Attempt, pending: seq<Job>, now: int)
      reads this, queue
    {
      Valid() && (r.Err? <==> Fails(job, attempt))
      && phase == match r case Ok(ack) => Acking(ack, pending, now) case Err(_) => Idle
    }

    // What was appended and what is acknowledged, by the decision.
    ghost predicate Wrote(job: Job, attempt: Attempt, ack: Ack, rows: seq<Job>, dlq: seq<Job>)
      requires Valid()
      reads queue
    {
      match Decide(job, attempt.reply, DueAt(job, attempt))
      case Finish =>
        ack == Ack(job.messageId, Sent, None) && QueueRows() == MarkDoneRows(rows, job.messageId) && DlqRows() == dlq
      case GiveUp(text) =>
        ack == Ack(job.messageId, Failed, Some(text)) && QueueRows() == rows + [job.(done := true)]
        && DlqRows() == dlq + [job]
      case Retry(updated, text) =>
        ack == Ack(job.messageId, Retrying, Some(text)) && QueueRows() == rows + [updated] && DlqRows() == dlq
    }

    method Schedule(job: Job, attempt: Attempt, next: U32) returns (due: int)
      requires next == SatInc32(job.attempts)
      ensures due == DueAt(job, attempt)
    {
      due := attempt.clock + RetryDelay(next, attempt.jitter);
    }

    // Transient replies and network errors: another attempt while there is one left.
    // error: what the row says; again, last: the reason of the ack when there is another
    // attempt, and when there is none.
    method RetryOrFail(job: Job, attempt: Attempt, error: string, again: string, last: string)
      returns (r: Result<Ack, QueueError>)
      requires Valid() && phase.Deciding? && phase.job == job && phase.reply == attempt.reply
      requires Decide(job, attempt.reply, DueAt(job, attempt))
            == if SatInc32(job.attempts) >= MAX_ATTEMPTS then GiveUp(last)
               else Retry(PutOff(job, SatInc32(job.attempts), DueAt(job, attempt), error), again)
      requires !attempt.fault.QueueFails?
      modifies this`phase, this`sentTotal, this`failedTotal, this`h, queue
      ensures Settled(r, job, attempt, old(phase.pending), old(phase.now))
      ensures r.Ok? ==> Wrote(job, attempt, r.value, old(QueueRows()), old(DlqRows()))
      ensures Exec(old(Now()), DecisionEvents(job, attempt)) == Some(Now())
    {
      var next := SatInc32(job.attempts);
      if next >= MAX_ATTEMPTS {
        r := FailJob(job, attempt, last);
        return;
      }
      ghost var s0 := Now();
      var due := Schedule(job, attempt, next);
      var updated := job.(attempts := next, nextAttemptAt := due, lastError := Some(error));
      RetryJob(job, due, updated, again);
      ExecOne(s0, Event.Settle(due));
      return Ok(Ack(job.messageId, Retrying, Some(again)));
    }

    method SettleJob(job: Job, attempt: Attempt) returns (r: Result<Ack, QueueError>)
      requires Valid() && phase.Deciding? && phase.job == job && phase.reply == attempt.reply
      modifies this`phase, this`sentTotal, this`failedTotal, this`h, queue
      ensures Settled(r, job, attempt, old(phase.pending), old(phase.now))
      ensures r.Ok? ==> Wrote(job, attempt, r.value, old(QueueRows()), old(DlqRows()))
      ensures Exec(old(Now()), DecisionEvents(job, attempt)) == Some(Now())
    {
      ghost var s0 := Now();
      if attempt.fault.QueueFails? {
        FailFirst(job);
        ExecOne(s0, IoError);
        return Err(WriteFailed);
      }
      match attempt.reply {
        case Delivered =>
          FinishJob(job, DueAt(job, attempt));
          ExecOne(s0, Event.Settle(DueAt(job, attempt)));
          return Ok(Ack(job.messageId, Sent, None));
        case Permanent(code, message) =>
          r := FailJob(job, attempt, SmtpText(code, message));
        case Transient(code, message) =>
          var next := SatInc32(job.attempts);
          r := RetryOrFail(job, attempt, SmtpText(code, message), AttemptText(code, next, message),
                           LastAttemptText(code, next, message));
        case NetworkError(error) =>
          r := RetryOrFail(job, attempt, NetworkText(error), NetworkText(error), NetworkText(error));
      }
    }

    // A publish that fails is logged, and the worker goes on.
    method Publish(ack: Ack, heard: bool)
      requires Valid() && phase.Acking? && phase.ack == ack
      modifies this`acks, this`phase, this`h
      ensures Valid() && acks == old(acks) + [ack] && phase == Draining(old(phase.pending), old(phase.now))
      ensures Now() == After(old(Now()), PublishAck(heard))
      ensures h.heard == old(h.heard) + (if heard then [ack] else [])
      ensures h.unheard == old(h.unheard) + (if heard then [] else [ack])
    {
      PublishStep(Now(), heard);
      acks := acks + [ack];
      phase := Draining(phase.pending, phase.now);
      h := if heard then h.(heard := h.heard + [ack]) else h.(unheard := h.unheard + [ack]);
    }

    // The ? operator ends the tick where an append fails.
    method HandleOutcome(job: Job, attempt: Attempt) returns (ok: bool)
      requires Valid() && phase.Deciding? && phase.job == job && phase.reply == attempt.reply
      modifies this, queue
      ensures Valid() && ok == !Fails(job, attempt) && inFlight == old(inFlight)
      ensures phase == if ok then Draining(old(phase.pending), old(phase.now)) else Idle
      ensures Exec(old(Now()), SettleEvents(job, attempt)) == Some(Now())
      // One ack, and the appends of the decision.
      ensures ok ==>
        |acks| == |old(acks)| + 1 && acks[..|old(acks)|] == old(acks)
        && var ack := acks[|old(acks)|];
           match Decide(job, attempt.reply, DueAt(job, attempt))
           case Finish =>
             ack == Ack(job.messageId, Sent, None)
             && QueueRows() == MarkDoneRows(old(QueueRows()), job.messageId) && DlqRows() == old(DlqRows())
           case GiveUp(text) =>
             ack == Ack(job.messageId, Failed, Some(text))
             && QueueRows() == old(QueueRows()) + [job.(done := true)] && DlqRows() == old(DlqRows()) + [job]
           case Retry(updated, text) =>
             ack == Ack(job.messageId, Retrying, Some(text))
             && QueueRows() == old(QueueRows()) + [updated] && DlqRows() == old(DlqRows())
    {
      ghost var s0 := Now();
      var settled := SettleJob(job, attempt);
      ghost var s1 := Now();
      if settled.Err? {
        assert DecisionEvents(job, attempt) + [] == DecisionEvents(job, attempt);
        return false;
      }
      Publish(settled.value, attempt.heard);
      ExecOne(s1, PublishAck(attempt.heard));
      ExecConcat(s0, DecisionEvents(job, attempt), [PublishAck(attempt.heard)]);
      return true;
    }

    // send_one between the two touches of the in-flight table.
    method SendOne(job: Job, smtp: Job -> Attempt) returns (attempt: Attempt)
      requires Valid() && CanSend(Now()) && phase.pending[0] == job
      modifies this
      ensures Valid() && attempt == smtp(job)
      ensures phase == Deciding(job, attempt.reply, old(phase.pending)[1..], old(phase.now))
      ensures inFlight == old(inFlight)
      ensures Exec(old(Now()), [Send, Reply(smtp(job).reply)]) == Some(Now())
      ensures h.sends == old(h.sends) + [job.messageId]
      ensures h.resolutions == old(h.resolutions) + [Resolution(job, attempt.reply)]
    {
      ghost var s0 := Now();
      SendStep(s0, job);
      inFlight := inFlight + {job.messageId};
      phase := Sending(job, phase.pending[1..], phase.now);
      h := h.(sends := h.sends + [job.messageId]);
      ghost var s1 := Now();
      attempt := smtp(job);
      inFlight := inFlight - {job.messageId};
      phase := Deciding(job, attempt.reply, phase.pending, phase.now);
      h := h.(resolutions := h.resolutions + [Resolution(job, attempt.reply)]);
      ReplyStep(s1, attempt.reply);
      ExecTwo(s0, Send, Reply(attempt.reply));
      assert [Send] + [Reply(attempt.reply)] == [Send, Reply(attempt.reply)];
    }

    // One job of the snapshot.
    method DrainJob(job: Job, now: int, smtp: Job -> Attempt) returns (ok: bool)
      requires Valid() && phase.Draining? && phase.now == now && phase.pending != [] && phase.pending[0] == job
      modifies this, queue
      ensures Valid() && ok == !JobFails(job, now, old(inFlight), smtp) && inFlight == old(inFlight)
      ensures phase == if ok then Draining(old(phase.pending)[1..], now) else Idle
      ensures Exec(old(Now()), JobEvents(job, now, old(inFlight), smtp)) == Some(Now())
    {
      ghost var s0 := Now();
      if job.nextAttemptAt > now || job.messageId in inFlight {
        phase := Draining(phase.pending[1..], now);
        assert Now() == After(s0, Skip);
        ExecOne(s0, Skip);
        return true;
      }
      var attempt := SendOne(job, smtp);
      ok := HandleOutcome(job, attempt);
      ExecConcat(s0, [Send, Reply(attempt.reply)], SettleEvents(job, attempt));
    }

    // The same, seen from what is left of the snapshot.
    method DrainHead(rest: seq<Job>, later: seq<Job>, now: int, smtp: Job -> Attempt) returns (ok: bool)
      requires Valid() && rest != [] && phase == Draining(rest + later, now)
      modifies this, queue
      ensures Valid() && inFlight == old(inFlight)
      ensures phase == if ok then Draining(rest[1..] + later, now) else Idle
      ensures Exec(old(Now()), DrainEvents(rest, now, old(inFlight), smtp))
           == if ok then Exec(Now(), DrainEvents(rest[1..], now, old(inFlight), smtp)) else Some(Now())
      ensures DrainFails(rest, now, old(inFlight), smtp) == (!ok || DrainFails(rest[1..], now, old(inFlight), smtp))
    {
      ghost var before := Now();
      assert (rest + later)[0] == rest[0] && (rest + later)[1..] == rest[1..] + later;
      ok := DrainJob(rest[0], now, smtp);
      DrainNext(before, Now(), rest, now, before.inFlight, smtp);
    }

    // The loop of drain_tick over its snapshot, up to the job at which cancellation is
    // seen or handling fails.
    method DrainSnapshot(jobs: seq<Job>, later: seq<Job>, now: int, smtp: Job -> Attempt) returns (ok: bool)
      requires Valid() && phase == Draining(jobs + later, now)
      modifies this, queue
      ensures Valid() && ok == !DrainFails(jobs, now, old(inFlight), smtp)
      ensures phase == if ok then Draining(later, now) else Idle
      ensures Exec(old(Now()), DrainEvents(jobs, now, old(inFlight), smtp)) == Some(Now())
    {
      ghost var s0 := Now();
      var rest := jobs;
      while rest != []
        invariant Valid() && phase == Draining(rest + later, now) && inFlight == s0.inFlight
        invariant Exec(s0, DrainEvents(jobs, now, s0.inFlight, smtp))
               == Exec(Now(), DrainEvents(rest, now, s0.inFlight, smtp))
        invariant DrainFails(jobs, now, s0.inFlight, smtp) == DrainFails(rest, now, s0.inFlight, smtp)
        decreases |rest|
      {
        var handled := DrainHead(rest, later, now, smtp);
        if !handled {
          return false;
        }
        rest := rest[1..];
      }
      assert rest + later == later;
      return true;
    }

    // A drain tick. listed: whether the queue file can be read; a listing in the middle
    // of an append fails or stands for a moment before or after it. cancelAt: the position
    // in the snapshot where cancellation is first seen. compactIo, trimIo: how the two
    // rewrites of an idle tick go. Returns the snapshot it worked on.
    method DrainTick(
        allow: bool, listed: bool, now: int, cancelAt: nat, smtp: Job -> Attempt, compactIo: Io, trimIo: Io)
      returns (r: Result<(), QueueError>, snapshot: seq<Job>)
      requires Valid() && phase.Idle?
      modifies this, queue
      ensures Valid() && phase.Idle?
      ensures !allow || !listed ==> Now() == old(Now()) && (r.Ok? <==> !allow)
      ensures allow && listed ==> IsPendingList(snapshot, Live(old(Now()).rows))
      ensures allow && listed && snapshot == [] ==>
        r.Ok? && exists rows, compacted, trimmed ::
          (compactIo.Good? ==> compacted) && (trimIo.Good? ==> trimmed)
          && Exec(old(Now()), SweepEvents(rows, maxDlqLines, compacted, trimmed)) == Some(Now())
      ensures allow && listed && snapshot != [] ==>
        var n := if cancelAt < |snapshot| then cancelAt else |snapshot|;
        (r.Ok? <==> !DrainFails(snapshot[..n], now, old(inFlight), smtp))
        && Exec(old(Now()), TickEvents(snapshot, n, now, old(inFlight), smtp)) == Some(Now())
    {
      snapshot := [];
      if !allow {
        return Ok(()), [];
      }
      if !listed {
        return Err(InvalidData), [];
      }
      var pending := queue.ListPending();
      snapshot := pending.value;
      if snapshot == [] {
        ghost var rows, compacted, trimmed := IdleSweep(compactIo, trimIo);
        return Ok(()), snapshot;
      }
      var ok := WorkTick(snapshot, now, if cancelAt < |snapshot| then cancelAt else |snapshot|, smtp);
      return if ok then Ok(()) else Err(WriteFailed), snapshot;
    }

    method BeginDrain(snapshot: seq<Job>, now: int)
      requires Valid() && phase.Idle? && IsPendingList(snapshot, Live(QueueRows()))
      modifies this`phase
      ensures Valid() && phase == Draining(snapshot, now)
      ensures Now() == After(old(Now()), BeginTick(snapshot, now))
    {
      phase := Draining(snapshot, now);
    }

    method EndDrain()
      requires Valid() && phase.Draining?
      modifies this`phase
      ensures Valid() && phase == Idle && Now() == After(old(Now()), EndTick)
    {
      phase := Idle;
    }

    method WorkTick(snapshot: seq<Job>, now: int, n: nat, smtp: Job -> Attempt) returns (ok: bool)
      requires Valid() && phase.Idle? && n <= |snapshot| && IsPendingList(snapshot, Live(QueueRows()))
      modifies this, queue
      ensures Valid() && phase.Idle? && ok == !DrainFails(snapshot[..n], now, old(inFlight), smtp)
      ensures Exec(old(Now()), TickEvents(snapshot, n, now, old(inFlight), smtp)) == Some(Now())
    {
      ghost var s0 := Now();
      BeginDrain(snapshot, now);
      ghost var s1 := Now();
      SplitAt(snapshot, n);
      ok := DrainSnapshot(snapshot[..n], snapshot[n..], now, smtp);
      ghost var s2 := Now();
      if ok {
        EndDrain();
      }
      TickRun(s0, s1, s2, BeginTick(snapshot, now), DrainEvents(snapshot[..n], now, s0.inFlight, smtp), ok);
    }

    // Nothing pending: compact the queue, cap the DLQ; an error of either is ignored.
    method IdleSweep(compactIo: Io, trimIo: Io)
      returns (ghost rows: seq<Job>, ghost compacted: bool, ghost trimmed: bool)
      requires Valid() && phase.Idle?
      modifies this, queue
      ensures Valid() && phase.Idle?
      ensures (compactIo.Good? ==> compacted) && (trimIo.Good? ==> trimmed)
      ensures Exec(old(Now()), SweepEvents(rows, maxDlqLines, compacted, trimmed)) == Some(Now())
    {
      ghost var s0 := Now();
      rows, compacted := CompactNow(compactIo);
      trimmed := TrimStep(trimIo);
      ghost var second := if trimmed then [Event.TrimDlq(maxDlqLines)] else [];
      ExecConcat(s0, if compacted then [Event.Compact(rows)] else [], second);
    }

    method CompactNow(io: Io) returns (ghost rows: seq<Job>, ghost compacted: bool)
      requires Valid() && phase.Idle?
      modifies this, queue
      ensures Valid() && phase.Idle? && (io.Good? ==> compacted)
      ensures Exec(old(Now()), if compacted then [Event.Compact(rows)] else []) == Some(Now())
    {
      ghost var s0 := Now();
      var r := queue.CompactIfNeeded(io);
      rows, compacted := queue.Rows().value, r.Ok?;
      assert queue.dlqFile == old(queue.dlqFile);
      if r.Ok? {
        assert Now() == After(s0, Event.Compact(rows));
        ExecOne(s0, Event.Compact(rows));
      }
    }

    method TrimRows(io: Io) returns (trimmed: bool)
      requires Valid()
      modifies queue
      ensures Valid() && QueueRows() == old(QueueRows()) && (io.Good? ==> trimmed)
      ensures DlqRows() == if trimmed then LastRows(old(DlqRows()), maxDlqLines) else old(DlqRows())
    {
      ghost var was := DlqRows();
      TrimmedRows(queue.codec, was, maxDlqLines);
      var r := queue.TrimDlq(maxDlqLines, io);
      ghost var rows := if r.Ok? then LastRows(was, maxDlqLines) else was;
      assert queue.dlqFile == EncodeAll(queue.codec, rows);
      ReadEncodeAll(queue.codec, rows);
      return r.Ok?;
    }

    method TrimStep(io: Io) returns (ghost trimmed: bool)
      requires Valid() && phase.Idle?
      modifies this`h, queue
      ensures Valid() && (io.Good? ==> trimmed)
      ensures Exec(old(Now()), if trimmed then [Event.TrimDlq(maxDlqLines)] else []) == Some(Now())
    {
      ghost var s0 := Now();
      var done := TrimRows(io);
      trimmed := done;
      if done {
        h := h.(trimmed := h.trimmed || |s0.dlq| > maxDlqLines > 0);
        ExecOne(s0, Event.TrimDlq(maxDlqLines));
      }
    }
  }

  lemma SplitAt(s: seq<Job>, n: nat)
    requires n <= |s|
    ensures s == s[..n] + s[n..]
  {
  }

  lemma ExecTwo(s: State, e: Event, f: Event)
    requires Enabled(s, e) && Enabled(After(s, e), f)
    ensures Exec(s, [e] + [f]) == Some(After(After(s, e), f))
  {
    ExecOne(s, e);
    ExecOne(After(s, e), f);
    ExecConcat(s, [e], [f]);
  }

  // A tick: its beginning, its drain, and its end unless the drain has ended it.
  lemma TickRun(s0: State, s1: State, s2: State, begin: Event, done: seq<Event>, ok: bool)
    requires Enabled(s0, begin) && s1 == After(s0, begin) && Exec(s1, done) == Some(s2)
    requires ok ==> Enabled(s2, EndTick)
    ensures Exec(s0, [begin] + done + if !ok then [] else [EndTick]) == Some(if ok then After(s2, EndTick) else s2)
  {
    ExecOne(s0, begin);
    ExecConcat(s0, [begin], done);
    if ok {
      ExecOne(s2, EndTick);
      ExecConcat(s0, [begin] + done, [EndTick]);
    } else {
      assert [begin] + done + [] == [begin] + done;
    }
  }

  // The events of a drain, one job further.
  lemma DrainNext(before: State, after: State, jobs: seq<Job>, now: int, inFlight: set<string>, smtp: Job -> Attempt)
    requires jobs != [] && Exec(before, JobEvents(jobs[0], now, inFlight, smtp)) == Some(after)
    ensures Exec(before, DrainEvents(jobs, now, inFlight, smtp))
         == if JobFails(jobs[0], now, inFlight, smtp) then Some(after)
            else Exec(after, DrainEvents(jobs[1..], now, inFlight, smtp))
    ensures DrainFails(jobs, now, inFlight, smtp)
       <==> JobFails(jobs[0], now, inFlight, smtp) || DrainFails(jobs[1..], now, inFlight, smtp)
  {
    var step := JobEvents(jobs[0], now, inFlight, smtp);
    if JobFails(jobs[0], now, inFlight, smtp) {
      assert step + [] == step;
    } else {
      ExecConcat(before, step, DrainEvents(jobs[1..], now, inFlight, smtp));
    }
    assert forall i :: 0 < i < |jobs| ==> jobs[i] == jobs[1..][i - 1];
  }

  // After the sweep of an idle tick, if both rewrites work, the queue folds to nothing
  // at all and the DLQ is within its cap.
  lemma SweepEmptiesLog(s: State, rows: seq<Job>, max: nat)
    requires Live(s.rows) == map[] && Exec(s, SweepEvents(rows, max, true, true)).Some?
    ensures Fold(Exec(s, SweepEvents(rows, max, true, true)).value.rows) == map[]
    ensures max > 0 ==> |Exec(s, SweepEvents(rows, max, true, true)).value.dlq| <= max
  {
    ExecConcat(s, [Event.Compact(rows)], [Event.TrimDlq(max)]);
    var compact := [Event.Compact(rows)];
    assert Enabled(s, compact[0]);
    IdleCompactionEmpties(s.rows, rows);
    var t := After(s, Event.Compact(rows));
    ExecOne(s, Event.Compact(rows));
    ExecOne(t, Event.TrimDlq(max));
  }

  // What the trim leaves of a DLQ of whole rows, as a file.
  lemma TrimmedRows(c: Codec, js: seq<Job>, max: nat)
    requires c.Lawful()
    ensures TrimOf(EncodeAll(c, js), max)
         == if 0 < max < |js| then Tail(|js| - max, EncodeAll(c, LastRows(js, max))) else Nothing
  {
    EncodedLines(c, js);
    if 0 < max < |js| {
      TrimKeepsNewest(c, js, max);
    }
  }
}
