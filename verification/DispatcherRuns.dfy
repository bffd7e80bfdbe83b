// What every run of the outbound worker keeps: conservation of accepted jobs, the
// retry and send bounds, and the crash order of the two appends of move_to_dlq.
// Runs interleave fresh enqueues, I/O errors and crashes in any way.
module DispatcherRuns {
  import opened Wrappers
  import opened QueueLog
  import opened Backoff
  import opened Dispatcher

  // --- Counting ---

  function Tally(acks: seq<Ack>, id: string, status: AckStatus): nat {
    if acks == [] then 0
    else
      var last := acks[|acks| - 1];
      Tally(acks[..|acks| - 1], id, status) + if last.messageId == id && last.status == status then 1 else 0
  }

  function Total(acks: seq<Ack>, status: AckStatus): nat {
    if acks == [] then 0
    else Total(acks[..|acks| - 1], status) + if acks[|acks| - 1].status == status then 1 else 0
  }

  function Count(ids: seq<string>, id: string): nat {
    if ids == [] then 0
    else Count(ids[..|ids| - 1], id) + if ids[|ids| - 1] == id then 1 else 0
  }

  lemma TallyAppend(acks: seq<Ack>, a: Ack, id: string, status: AckStatus)
    ensures Tally(acks + [a], id, status)
         == Tally(acks, id, status) + if a.messageId == id && a.status == status then 1 else 0
    ensures Total(acks + [a], status) == Total(acks, status) + if a.status == status then 1 else 0
  {
    assert (acks + [a])[..|acks|] == acks;
  }

  lemma CountAppend(ids: seq<string>, x: string, id: string)
    ensures Count(ids + [x], id) == Count(ids, id) + if x == id then 1 else 0
  {
    assert (ids + [x])[..|ids|] == ids;
  }

  // Attempts the live jobs still have, summed over the accepted ids.
  function Potential(accepted: seq<string>, live: JobMap): int {
    if accepted == [] then 0
    else
      var id := accepted[|accepted| - 1];
      Potential(accepted[..|accepted| - 1], live) + if id in live then MAX_ATTEMPTS - live[id].attempts else 0
  }

  // --- The shape of a reachable state ---

  // Snapshot rows the tick has yet to act on.
  function Held(p: Phase): seq<Job> {
    match p
    case Idle => []
    case Draining(pending, _) => pending
    case Sending(job, pending, _) => [job] + pending
    case Deciding(job, _, pending, _) => [job] + pending
    case BetweenAppends(_, _, pending, _) => pending
    case Acking(_, pending, _) => pending
  }

  // No row of a snapshot goes stale while the tick still needs it.
  ghost predicate Fresh(held: seq<Job>, live: JobMap) {
    (forall i :: 0 <= i < |held| ==> held[i].messageId in live && live[held[i].messageId] == held[i])
    && (forall i, j :: 0 <= i < j < |held| ==> held[i].messageId != held[j].messageId)
  }

  ghost predicate Structure(s: State) {
    (forall id :: id in Fold(s.rows) ==> id in s.h.accepted)
    && (forall id :: id in LiveJobs(s) ==> LiveJobs(s)[id].attempts < MAX_ATTEMPTS)
    && Distinct(s.h.accepted)
    && Fresh(Held(s.phase), LiveJobs(s))
    && s.inFlight == if s.phase.Sending? then {s.phase.job.messageId} else {}
  }

  lemma StepIds(s: State, e: Event)
    requires Enabled(s, e) && Structure(s)
    ensures forall id :: id in Fold(After(s, e).rows) ==> id in After(s, e).h.accepted
  {
    match e
    case Accept(job) => FoldAppend(s.rows, job);
    case Settle(_) => SettleIds(s, e);
    case Compact(rows) => CompactFold(s.rows, rows);
    case _ =>
  }

  // What is appended for a job in hand has its id.
  lemma SettleIds(s: State, e: Event)
    requires Enabled(s, e) && Structure(s) && e.Settle?
    ensures After(s, e).h.accepted == s.h.accepted
    ensures forall id :: id in Fold(After(s, e).rows) ==> id in Fold(s.rows)
  {
    var job := s.phase.job;
    HeldRow(s);
    match Decide(job, s.phase.reply, e.retryAt)
    case Finish => FoldAppend(s.rows, Tombstone(Fold(s.rows)[job.messageId]));
    case GiveUp(_) => FoldAppend(s.rows, Tombstone(job));
    case Retry(updated, _) => FoldAppend(s.rows, updated);
  }

  // The row a retry writes is live and one attempt further.
  lemma RetryRow(s: State, retryAt: int)
    requires s.phase.Deciding? && Structure(s)
    ensures var job := s.phase.job;
      job.messageId in LiveJobs(s) && LiveJobs(s)[job.messageId] == job && !job.done
      && var verdict := Decide(job, s.phase.reply, retryAt);
         verdict.Retry? ==>
           verdict.updated.messageId == job.messageId && !verdict.updated.done
           && verdict.updated.attempts == job.attempts + 1 < MAX_ATTEMPTS
  {
    HeldRow(s);
    LiveUnfinished(s.rows, s.phase.job.messageId);
    RetryVerdict(s.phase.job, s.phase.reply, retryAt);
  }

  // The job in hand is the live row of its id.
  lemma HeldRow(s: State)
    requires s.phase.Deciding? && Structure(s)
    ensures var job := s.phase.job;
      job.messageId in LiveJobs(s) && LiveJobs(s)[job.messageId] == job && job.attempts < MAX_ATTEMPTS
  {
    assert Held(s.phase)[0] == s.phase.job;
  }

  lemma LiveUnfinished(rows: seq<Job>, id: string)
    requires id in Live(rows)
    ensures !Live(rows)[id].done
  {
  }

  lemma RetryVerdict(job: Job, reply: SmtpReply, retryAt: int)
    requires job.attempts < MAX_ATTEMPTS
    ensures var verdict := Decide(job, reply, retryAt);
      verdict.Retry? ==>
        verdict.updated.messageId == job.messageId && verdict.updated.done == job.done
        && verdict.updated.attempts == job.attempts + 1 < MAX_ATTEMPTS
  {
  }

  lemma FreshKept(held: seq<Job>, live: JobMap, live': JobMap, id: string)
    requires Fresh(held, live)
    requires forall i :: 0 <= i < |held| ==> held[i].messageId != id
    requires forall k :: k in live && k != id ==> k in live' && live'[k] == live[k]
    ensures Fresh(held, live')
  {
  }

  lemma FreshTail(held: seq<Job>, live: JobMap)
    requires Fresh(held, live) && held != []
    ensures Fresh(held[1..], live)
    ensures forall i :: 0 <= i < |held[1..]| ==> held[1..][i].messageId != held[0].messageId
  {
  }

  // What settling does to the live jobs: only the settled one changes, and it is gone
  // unless the verdict is a retry.
  lemma SettledLive(s: State, e: Event)
    requires Enabled(s, e) && Structure(s) && e.Settle?
    ensures var id, live, live' := s.phase.job.messageId, LiveJobs(s), LiveAfter(s, e);
      var verdict := Decide(s.phase.job, s.phase.reply, e.retryAt);
      id in live && live[id] == s.phase.job
      && (forall k :: k != id ==> (k in live' <==> k in live) && (k in live ==> live'[k] == live[k]))
      && (id in live' <==> verdict.Retry?)
      && (verdict.Retry? ==>
            live'[id] == verdict.updated && live'[id].attempts == s.phase.job.attempts + 1 < MAX_ATTEMPTS)
  {
    RetryRow(s, e.retryAt);
  }

  lemma SettleFresh(s: State, e: Event)
    requires Enabled(s, e) && Structure(s) && e.Settle?
    ensures Fresh(s.phase.pending, LiveAfter(s, e))
  {
    SettledLive(s, e);
    var held := Held(s.phase);
    FreshTail(held, LiveJobs(s));
    assert held[1..] == s.phase.pending;
    FreshKept(s.phase.pending, LiveJobs(s), LiveAfter(s, e), s.phase.job.messageId);
  }

  lemma HeldAfter(s: State, e: Event)
    requires Enabled(s, e)
    ensures Held(After(s, e).phase)
         == match e
            case BeginTick(snapshot, _) => snapshot
            case Skip => s.phase.pending[1..]
            case Settle(_) => s.phase.pending
            case EndTick => []
            case IoError => []
            case Crash => []
            case _ => Held(s.phase)
  {
  }

  lemma StepFresh(s: State, e: Event)
    requires Enabled(s, e) && Structure(s)
    ensures Fresh(Held(After(s, e).phase), LiveAfter(s, e))
  {
    HeldAfter(s, e);
    match e
    case Accept(job) => {
      assert forall id :: id in LiveJobs(s) ==> id in Fold(s.rows);
      FreshKept(Held(s.phase), LiveJobs(s), LiveAfter(s, e), job.messageId);
    }
    case Skip => FreshTail(s.phase.pending, LiveJobs(s));
    case Settle(_) => SettleFresh(s, e);
    case _ =>
  }

  lemma StepAttempts(s: State, e: Event)
    requires Enabled(s, e) && Structure(s)
    ensures forall id :: id in LiveAfter(s, e) ==> LiveAfter(s, e)[id].attempts < MAX_ATTEMPTS
  {
    if e.Settle? {
      RetryRow(s, e.retryAt);
    }
  }

  lemma StepFlight(s: State, e: Event)
    requires Enabled(s, e) && Structure(s)
    ensures var t := After(s, e);
      Distinct(t.h.accepted) && t.inFlight == if t.phase.Sending? then {t.phase.job.messageId} else {}
  {
  }

  lemma StructureStep(s: State, e: Event)
    requires Enabled(s, e) && Structure(s)
    ensures Structure(After(s, e))
  {
    StepIds(s, e);
    StepLive(s, e);
    StepFresh(s, e);
    StepAttempts(s, e);
    StepFlight(s, e);
  }

  // --- Acks: each accepted id is live or has one terminal ack ---

  // Acks that are decided but not published yet.
  function Promised(p: Phase): seq<Ack> {
    match p
    case BetweenAppends(job, text, _, _) => [Ack(job.messageId, Failed, Some(text))]
    case Acking(ack, _, _) => [ack]
    case _ => []
  }

  function AllAcks(s: State): seq<Ack> {
    s.acks + Promised(s.phase)
  }

  function Terminal(s: State, id: string): nat {
    Tally(AllAcks(s), id, Sent) + Tally(AllAcks(s), id, Failed)
  }

  function LiveCount(s: State, id: string): nat {
    if id in LiveJobs(s) then 1 else 0
  }

  ghost predicate AckLedger(s: State, id: string) {
    var retries := Tally(AllAcks(s), id, Retrying);
    Terminal(s, id) + LiveCount(s, id) <= (if id in s.h.accepted then 1 else 0)
    && (s.h.faults == 0 && id in s.h.accepted ==> Terminal(s, id) + LiveCount(s, id) == 1)
    && retries <= (if id in LiveJobs(s) then LiveJobs(s)[id].attempts
                   else if id in s.h.accepted then MAX_ATTEMPTS - 1 else 0)
    && (s.h.faults == 0 && id in LiveJobs(s) ==> retries == LiveJobs(s)[id].attempts)
  }

  ghost predicate HealthLedger(s: State) {
    s.h.faults == 0 ==>
      s.sentTotal == Min(U64_MAX, Total(AllAcks(s), Sent))
      && s.failedTotal == Min(U64_MAX, Total(WrittenAcks(s), Failed))
  }

  // Only settling a job promises an ack, only a fault loses one.
  lemma StepAcks(s: State, e: Event)
    requires Enabled(s, e)
    ensures AllAcks(After(s, e))
         == if e.Settle? then AllAcks(s) + Promised(After(s, e).phase)
            else if e.IoError? || e.Crash? then s.acks
            else AllAcks(s)
  {
  }

  lemma TallyPrefix(acks: seq<Ack>, p: Phase, id: string, status: AckStatus)
    ensures Tally(acks, id, status) <= Tally(acks + Promised(p), id, status)
  {
    if Promised(p) == [] {
      assert acks + Promised(p) == acks;
    } else {
      TallyAppend(acks, Promised(p)[0], id, status);
    }
  }

  lemma LedgerFault(s: State, e: Event, id: string)
    requires Enabled(s, e) && Structure(s) && AckLedger(s, id) && (e.IoError? || e.Crash?)
    ensures AckLedger(After(s, e), id)
  {
    StepLive(s, e);
    StepAcks(s, e);
    TallyPrefix(s.acks, s.phase, id, Sent);
    TallyPrefix(s.acks, s.phase, id, Failed);
    TallyPrefix(s.acks, s.phase, id, Retrying);
  }

  // The ack a settled job gets.
  lemma SettleAck(s: State, e: Event)
    requires Enabled(s, e) && e.Settle?
    ensures var p := Promised(After(s, e).phase);
      |p| == 1 && p[0].messageId == s.phase.job.messageId
      && p[0].status == (match Decide(s.phase.job, s.phase.reply, e.retryAt)
                         case Finish => Sent
                         case GiveUp(_) => Failed
                         case Retry(_, _) => Retrying)
  {
  }

  // Settling adds one ack, for the job it settles.
  lemma SettleTally(s: State, e: Event, id: string)
    requires Enabled(s, e) && e.Settle?
    ensures var a := Promised(After(s, e).phase);
      |a| == 1
      && (forall status :: Tally(AllAcks(After(s, e)), id, status)
                        == Tally(AllAcks(s), id, status)
                           + if a[0].messageId == id && a[0].status == status then 1 else 0)
  {
    StepAcks(s, e);
    SettleAck(s, e);
    var a := Promised(After(s, e).phase)[0];
    assert AllAcks(After(s, e)) == AllAcks(s) + [a];
    forall status
      ensures Tally(AllAcks(s) + [a], id, status)
           == Tally(AllAcks(s), id, status) + if a.messageId == id && a.status == status then 1 else 0
    {
      TallyAppend(AllAcks(s), a, id, status);
    }
  }

  lemma LedgerSettle(s: State, e: Event, id: string)
    requires Enabled(s, e) && Structure(s) && AckLedger(s, id) && e.Settle?
    ensures AckLedger(After(s, e), id)
  {
    SettleAck(s, e);
    SettleTally(s, e, id);
    SettledLive(s, e);
    StepLive(s, e);
    assert s.phase.job.messageId in Fold(s.rows);
    var t := After(s, e);
    assert t.h.accepted == s.h.accepted && t.h.faults == s.h.faults;
  }

  lemma LedgerStep(s: State, e: Event, id: string)
    requires Enabled(s, e) && Structure(s) && AckLedger(s, id)
    ensures AckLedger(After(s, e), id)
  {
    if e.IoError? || e.Crash? {
      LedgerFault(s, e, id);
    } else if e.Settle? {
      LedgerSettle(s, e, id);
    } else {
      StepLive(s, e);
      StepAcks(s, e);
      if e.Accept? {
        assert forall k :: k in LiveJobs(s) ==> k in Fold(s.rows);
      }
    }
  }

  // Acks of failures that are in the DLQ, published or about to be.
  function WrittenAcks(s: State): seq<Ack> {
    s.acks + (if s.phase.Acking? then [s.phase.ack] else [])
  }

  lemma StepWritten(s: State, e: Event)
    requires Enabled(s, e) && !e.IoError? && !e.Crash?
    ensures WrittenAcks(After(s, e))
         == if e.WriteDlq? || (e.Settle? && After(s, e).phase.Acking?)
            then WrittenAcks(s) + [After(s, e).phase.ack]
            else WrittenAcks(s)
  {
  }

  lemma HealthSettle(s: State, e: Event)
    requires Enabled(s, e) && HealthLedger(s) && e.Settle?
    ensures HealthLedger(After(s, e))
  {
    var t := After(s, e);
    StepAcks(s, e);
    StepWritten(s, e);
    SettleAck(s, e);
    var a := Promised(t.phase)[0];
    assert AllAcks(t) == AllAcks(s) + [a];
    TallyAppend(AllAcks(s), a, "", Sent);
    TallyAppend(WrittenAcks(s), a, "", Failed);
  }

  lemma HealthWrite(s: State, e: Event)
    requires Enabled(s, e) && HealthLedger(s) && e.WriteDlq?
    ensures HealthLedger(After(s, e))
  {
    StepAcks(s, e);
    StepWritten(s, e);
    TallyAppend(WrittenAcks(s), After(s, e).phase.ack, "", Failed);
  }

  lemma HealthStep(s: State, e: Event)
    requires Enabled(s, e) && HealthLedger(s)
    ensures HealthLedger(After(s, e))
  {
    if e.Settle? {
      HealthSettle(s, e);
    } else if e.WriteDlq? {
      HealthWrite(s, e);
    } else if !e.IoError? && !e.Crash? {
      StepAcks(s, e);
      StepWritten(s, e);
    }
  }

  // --- Sends ---

  function MidSend(s: State, id: string): nat {
    if (s.phase.Sending? || s.phase.Deciding?) && s.phase.job.messageId == id then 1 else 0
  }

  function MidSendAny(s: State): nat {
    if s.phase.Sending? || s.phase.Deciding? then 1 else 0
  }

  function AttemptsLeft(s: State, id: string): int {
    if id in LiveJobs(s) then MAX_ATTEMPTS - LiveJobs(s)[id].attempts else 0
  }

  ghost predicate SendLedger(s: State, id: string) {
    Count(s.h.sends, id) + AttemptsLeft(s, id)
    <= (if id in s.h.accepted then MAX_ATTEMPTS else 0) + s.h.faults + MidSend(s, id)
  }

  lemma SendSend(s: State, e: Event, id: string)
    requires Enabled(s, e) && Structure(s) && SendLedger(s, id) && e.Send?
    requires id !in s.h.accepted ==> Count(s.h.sends, id) == 0
    ensures SendLedger(After(s, e), id)
    ensures id !in After(s, e).h.accepted ==> Count(After(s, e).h.sends, id) == 0
  {
    PendingAccepted(s);
    SentOnce(s, After(s, e), s.phase.pending[0], id);
  }

  // One send more, with the job on its way.
  lemma SentOnce(s: State, s': State, job: Job, id: string)
    requires s'.rows == s.rows && s'.h == s.h.(sends := s.h.sends + [job.messageId])
    requires MidSendAny(s) == 0 && s'.phase.Sending? && s'.phase.job == job && job.messageId in s.h.accepted
    requires SendLedger(s, id) && (id !in s.h.accepted ==> Count(s.h.sends, id) == 0)
    ensures SendLedger(s', id) && (id !in s'.h.accepted ==> Count(s'.h.sends, id) == 0)
  {
    CountAppend(s.h.sends, job.messageId, id);
    assert AttemptsLeft(s', id) == AttemptsLeft(s, id);
  }

  lemma PendingAccepted(s: State)
    requires Structure(s) && s.phase.Draining? && s.phase.pending != []
    ensures s.phase.pending[0].messageId in s.h.accepted
  {
    assert Held(s.phase)[0] == s.phase.pending[0];
    assert s.phase.pending[0].messageId in Fold(s.rows);
  }

  lemma SendAccept(s: State, e: Event, id: string)
    requires Enabled(s, e) && Structure(s) && SendLedger(s, id) && e.Accept?
    requires id !in s.h.accepted ==> Count(s.h.sends, id) == 0
    ensures SendLedger(After(s, e), id)
    ensures id !in After(s, e).h.accepted ==> Count(After(s, e).h.sends, id) == 0
  {
    StepLive(s, e);
    assert id in LiveJobs(s) ==> id in Fold(s.rows);
    assert AttemptsLeft(After(s, e), id) == if id == e.job.messageId then MAX_ATTEMPTS else AttemptsLeft(s, id);
  }

  // The other steps send nothing and leave every job its attempts.
  lemma SendPlain(s: State, e: Event, id: string)
    requires Enabled(s, e) && Structure(s) && SendLedger(s, id) && !e.Send? && !e.Settle? && !e.Accept?
    requires id !in s.h.accepted ==> Count(s.h.sends, id) == 0
    ensures SendLedger(After(s, e), id)
    ensures id !in After(s, e).h.accepted ==> Count(After(s, e).h.sends, id) == 0
  {
    StepLive(s, e);
    var s' := After(s, e);
    assert AttemptsLeft(s', id) == AttemptsLeft(s, id);
    assert s'.h.sends == s.h.sends && s'.h.accepted == s.h.accepted && s'.h.faults >= s.h.faults;
  }

  lemma SendSettle(s: State, e: Event, id: string)
    requires Enabled(s, e) && Structure(s) && SendLedger(s, id) && e.Settle?
    ensures SendLedger(After(s, e), id)
  {
    StepLive(s, e);
    SettledLive(s, e);
    var t := After(s, e);
    assert t.h.sends == s.h.sends && t.h.accepted == s.h.accepted && t.h.faults == s.h.faults;
  }

  lemma SendStep(s: State, e: Event, id: string)
    requires Enabled(s, e) && Structure(s) && SendLedger(s, id)
    requires id !in s.h.accepted ==> Count(s.h.sends, id) == 0
    ensures SendLedger(After(s, e), id)
    ensures id !in After(s, e).h.accepted ==> Count(After(s, e).h.sends, id) == 0
  {
    if e.Send? {
      SendSend(s, e, id);
    } else if e.Settle? {
      SendSettle(s, e, id);
    } else if e.Accept? {
      SendAccept(s, e, id);
    } else {
      SendPlain(s, e, id);
    }
  }

  ghost predicate TotalSendLedger(s: State) {
    |s.h.sends| + Potential(s.h.accepted, LiveJobs(s))
    <= MAX_ATTEMPTS * |s.h.accepted| + s.h.faults + MidSendAny(s)
  }

  // Changing one id changes one term of the sum.
  lemma {:induction false} PotentialAway(accepted: seq<string>, live: JobMap, live': JobMap, id: string)
    requires id !in accepted
    requires forall k :: k != id ==> (k in live <==> k in live') && (k in live ==> live'[k] == live[k])
    ensures Potential(accepted, live') == Potential(accepted, live)
  {
    if accepted != [] {
      PotentialAway(accepted[..|accepted| - 1], live, live', id);
    }
  }

  lemma {:induction false} PotentialAt(accepted: seq<string>, live: JobMap, live': JobMap, id: string)
    requires Distinct(accepted) && id in accepted
    requires forall k :: k != id ==> (k in live <==> k in live') && (k in live ==> live'[k] == live[k])
    ensures Potential(accepted, live') - Potential(accepted, live)
         == (if id in live' then MAX_ATTEMPTS - live'[id].attempts else 0)
          - (if id in live then MAX_ATTEMPTS - live[id].attempts else 0)
  {
    var n := |accepted| - 1;
    if accepted[n] == id {
      PotentialAway(accepted[..n], live, live', id);
    } else {
      PotentialAt(accepted[..n], live, live', id);
    }
  }

  lemma {:induction false} PotentialNonNegative(accepted: seq<string>, live: JobMap)
    requires forall id :: id in live ==> live[id].attempts < MAX_ATTEMPTS
    ensures 0 <= Potential(accepted, live)
  {
    if accepted != [] {
      PotentialNonNegative(accepted[..|accepted| - 1], live);
    }
  }

  // Every handled job brings the sum down, whatever the reply was: a retry by
  // one, success and failure by all that was left of the job.
  lemma SettleDecreases(s: State, e: Event)
    requires Enabled(s, e) && Structure(s) && e.Settle?
    ensures Potential(s.h.accepted, LiveJobs(After(s, e))) < Potential(s.h.accepted, LiveJobs(s))
  {
    StepLive(s, e);
    SettledLive(s, e);
    assert s.phase.job.messageId in Fold(s.rows);
    PotentialAt(s.h.accepted, LiveJobs(s), LiveJobs(After(s, e)), s.phase.job.messageId);
  }

  lemma TotalSendStep(s: State, e: Event)
    requires Enabled(s, e) && Structure(s) && TotalSendLedger(s)
    ensures TotalSendLedger(After(s, e))
  {
    StepLive(s, e);
    var t := After(s, e);
    match e
    case Accept(job) => {
      PotentialAway(s.h.accepted, LiveJobs(s), LiveJobs(t), job.messageId);
      assert t.h.accepted[..|s.h.accepted|] == s.h.accepted;
    }
    case Settle(_) => SettleDecreases(s, e);
    case _ =>
  }
}
