// The results about every run of the outbound worker, from an empty queue.
module OutboundTheorems {
  import opened Wrappers
  import opened QueueLog
  import opened Backoff
  import opened Dispatcher
  import opened DispatcherRuns
  import opened DlqOrder

  // Every ack handed to the broker was heard or not.
  ghost predicate HearingLedger(s: State) {
    forall id, status ::
      Tally(s.h.heard, id, status) + Tally(s.h.unheard, id, status) == Tally(s.acks, id, status)
  }

  lemma HearingStep(s: State, e: Event)
    requires Enabled(s, e) && HearingLedger(s)
    ensures HearingLedger(After(s, e))
  {
    var s' := After(s, e);
    if e.PublishAck? {
      forall id, status
        ensures Tally(s'.h.heard, id, status) + Tally(s'.h.unheard, id, status) == Tally(s'.acks, id, status)
      {
        TallyAppend(s.acks, s.phase.ack, id, status);
        TallyAppend(s.h.heard, s.phase.ack, id, status);
        TallyAppend(s.h.unheard, s.phase.ack, id, status);
      }
    } else {
      assert s'.acks == s.acks && s'.h.heard == s.h.heard && s'.h.unheard == s.h.unheard;
    }
  }

  ghost predicate Inv(s: State) {
    Structure(s) && HearingLedger(s) && HealthLedger(s) && TotalSendLedger(s) && DlqFile(s) && TombstoneLedger(s)
    && (forall id :: AckLedger(s, id))
    && (forall id :: DlqLedger(s, id, 0))
    && (forall id :: SendLedger(s, id) && (id !in s.h.accepted ==> Count(s.h.sends, id) == 0))
  }

  lemma InitIds(id: string)
    ensures AckLedger(Init(), id) && DlqLedger(Init(), id, 0) && SendLedger(Init(), id)
    ensures Count(Init().h.sends, id) == 0
  {
    assert LiveJobs(Init()) == map[];
  }

  lemma InitTotals()
    ensures Structure(Init()) && HearingLedger(Init()) && HealthLedger(Init()) && TotalSendLedger(Init())
    ensures DlqFile(Init()) && TombstoneLedger(Init())
  {
    assert LiveJobs(Init()) == map[];
  }

  lemma InvInit()
    ensures Inv(Init())
  {
    InitTotals();
    forall id ensures AckLedger(Init(), id) && DlqLedger(Init(), id, 0) && SendLedger(Init(), id)
              ensures Count(Init().h.sends, id) == 0
    {
      InitIds(id);
    }
  }

  lemma InvStep(s: State, e: Event)
    requires Inv(s) && Enabled(s, e)
    ensures Inv(After(s, e))
  {
    StructureStep(s, e);
    HearingStep(s, e);
    HealthStep(s, e);
    TotalSendStep(s, e);
    DlqFileStep(s, e);
    TombstoneStep(s, e);
    forall id ensures AckLedger(After(s, e), id) {
      LedgerStep(s, e, id);
    }
    forall id ensures DlqLedger(After(s, e), id, 0) {
      DlqStep(s, e, id, 0);
    }
    forall id ensures SendLedger(After(s, e), id)
              ensures id !in After(s, e).h.accepted ==> Count(After(s, e).h.sends, id) == 0
    {
      SendStep(s, e, id);
    }
  }

  lemma {:induction false} InvExec(s: State, events: seq<Event>)
    requires Inv(s) && Exec(s, events).Some?
    ensures Inv(Exec(s, events).value)
    decreases |events|
  {
    if events != [] {
      InvStep(s, events[0]);
      InvExec(After(s, events[0]), events[1..]);
    }
  }

  lemma InvReachable(s: State)
    requires Reachable(s)
    ensures Inv(s)
  {
    var events :| Exec(Init(), events) == Some(s);
    InvInit();
    InvExec(Init(), events);
  }

  lemma Shape(s: State)
    requires Reachable(s)
    ensures Structure(s)
  {
    InvReachable(s);
  }

  lemma Acks(s: State, id: string)
    requires Reachable(s)
    ensures AckLedger(s, id)
  {
    InvReachable(s);
  }

  lemma DlqCounts(s: State, id: string)
    requires Reachable(s)
    ensures DlqLedger(s, id, 0)
  {
    InvReachable(s);
  }

  // When the outcome of a job is handled, the snapshot row is still the latest
  // row for its id, however many jobs were enqueued or handled meanwhile.
  lemma SnapshotRowIsLatest(s: State)
    requires Reachable(s) && s.phase.Deciding?
    ensures s.phase.job.messageId in Fold(s.rows)
    ensures Fold(s.rows)[s.phase.job.messageId] == s.phase.job
  {
    Shape(s);
    assert Held(s.phase)[0] == s.phase.job;
  }

  // The single-flight guard never holds a due job back: one worker sends one job
  // at a time and takes each id off the table before the next.
  lemma GuardNeverFires(s: State)
    requires Reachable(s) && s.phase.Draining?
    ensures s.inFlight == {}
    ensures Enabled(s, Skip) <==> s.phase.pending != [] && s.phase.pending[0].nextAttemptAt > s.phase.now
  {
    Shape(s);
  }

  // Conservation without faults: each accepted id is live or has exactly one
  // terminal ack, and its retry acks are the attempts its live row counts.
  lemma Conservation(s: State, id: string)
    requires Reachable(s) && s.h.faults == 0 && s.phase.Idle?
    ensures id in s.h.accepted ==>
      LiveCount(s, id) + Tally(s.acks, id, Sent) + Tally(s.acks, id, Failed) == 1
    ensures id !in s.h.accepted ==>
      id !in LiveJobs(s) && Tally(s.acks, id, Sent) + Tally(s.acks, id, Failed) + Tally(s.acks, id, Retrying) == 0
    ensures id in LiveJobs(s) ==> Tally(s.acks, id, Retrying) == LiveJobs(s)[id].attempts
    ensures Tally(s.acks, id, Retrying) <= 4
  {
    Acks(s, id);
    Shape(s);
    assert s.acks + [] == s.acks;
  }

  // What the broker hears: never two terminal acks of an id, and without faults one for
  // every id that is not live any more, unless its publish failed.
  lemma BrokerHears(s: State, id: string)
    requires Reachable(s)
    ensures Tally(s.h.heard, id, Sent) + Tally(s.h.heard, id, Failed) <= 1
    ensures s.h.faults == 0 && s.phase.Idle? && id in s.h.accepted && id !in LiveJobs(s) ==>
      Tally(s.h.heard, id, Sent) + Tally(s.h.heard, id, Failed)
      == 1 - Tally(s.h.unheard, id, Sent) - Tally(s.h.unheard, id, Failed)
  {
    InvReachable(s);
    AtMostOneTerminalAck(s, id);
    if s.h.faults == 0 && s.phase.Idle? {
      Conservation(s, id);
    }
  }

  // The health totals count the terminal acks, up to the width of their type.
  lemma HealthCountsAcks(s: State)
    requires Reachable(s) && s.h.faults == 0 && s.phase.Idle?
    ensures s.sentTotal == Min(U64_MAX, Total(s.acks, Sent))
    ensures s.failedTotal == Min(U64_MAX, Total(s.acks, Failed))
  {
    InvReachable(s);
    assert s.acks + [] == s.acks;
  }

  // With any number of crashes and failed appends an id still never gets a second
  // terminal ack, none while it is live, and at most four retry acks.
  lemma AtMostOneTerminalAck(s: State, id: string)
    requires Reachable(s)
    ensures Tally(s.acks, id, Sent) + Tally(s.acks, id, Failed) + LiveCount(s, id) <= 1
    ensures Tally(s.acks, id, Retrying) <= 4
  {
    Acks(s, id);
    Shape(s);
    TallyPrefix(s.acks, s.phase, id, Sent);
    TallyPrefix(s.acks, s.phase, id, Failed);
    TallyPrefix(s.acks, s.phase, id, Retrying);
  }

  // Retry bound: a live row is below five attempts, and one id is sent at most
  // five times plus once per fault.
  lemma SendsPerId(s: State, id: string)
    requires Reachable(s)
    ensures id in LiveJobs(s) ==> LiveJobs(s)[id].attempts < 5
    ensures Count(s.h.sends, id) <= if id in s.h.accepted then 5 + s.h.faults else 0
  {
    InvReachable(s);
    assert SendLedger(s, id);
    assert MidSend(s, id) == 1 ==> Held(s.phase)[0].messageId == id;
  }

  // n accepted jobs cost at most 5n sends, plus one per fault.
  lemma SendsInAll(s: State)
    requires Reachable(s)
    ensures |s.h.sends| <= 5 * |s.h.accepted| + s.h.faults
  {
    InvReachable(s);
    PotentialExceedsMid(s);
  }

  // 5n sends without a fault are enough: by then every job is sent or failed.
  lemma QueueEmptiesWithinBudget(s: State)
    requires Reachable(s) && s.h.faults == 0 && s.phase.Idle?
    requires |s.h.sends| >= 5 * |s.h.accepted|
    ensures LiveJobs(s) == map[]
  {
    InvReachable(s);
    PotentialNonNegative(s.h.accepted, LiveJobs(s));
    if LiveJobs(s) != map[] {
      var id :| id in LiveJobs(s);
      PotentialCoversLive(s, id);
    }
  }

  lemma PotentialCoversLive(s: State, id: string)
    requires Structure(s) && id in LiveJobs(s)
    ensures Potential(s.h.accepted, LiveJobs(s)) > 0
  {
    assert id in Fold(s.rows);
    var without := LiveJobs(s) - {id};
    PotentialNonNegative(s.h.accepted, without);
    PotentialAt(s.h.accepted, LiveJobs(s), without, id);
  }

  // While a job is being sent it still has an attempt left.
  lemma PotentialExceedsMid(s: State)
    requires Structure(s)
    ensures MidSendAny(s) <= Potential(s.h.accepted, LiveJobs(s))
  {
    PotentialNonNegative(s.h.accepted, LiveJobs(s));
    if MidSendAny(s) == 1 {
      PotentialCoversLive(s, Held(s.phase)[0].messageId);
    }
  }

  // The crash order: nothing that ever reached the DLQ is live again, so a
  // restart does not send it, and no id reaches the DLQ twice.
  lemma NeverLiveAndInDlq(s: State, id: string)
    requires Reachable(s) && exists j :: j in s.h.dlqEver && j.messageId == id
    ensures id !in LiveJobs(s) && CountJobs(s.h.dlqEver, id) == 1
  {
    DlqCounts(s, id);
    CountJobsMember(s.h.dlqEver, id);
  }

  // The DLQ file is the end of that history, all of it while nobody trims.
  lemma DlqIsTail(s: State)
    requires Reachable(s)
    ensures IsSuffix(s.dlq, s.h.dlqEver)
    ensures !s.h.trimmed ==> s.dlq == s.h.dlqEver
  {
    InvReachable(s);
  }

  // The failed ids that are missing from a DLQ nobody trimmed are exactly those
  // a fault cut between the two appends.
  lemma MissingFromDlq(s: State, id: string)
    requires Reachable(s) && !s.h.trimmed && s.phase.Idle?
    ensures id in s.h.condemned && !(exists j :: j in s.dlq && j.messageId == id) <==> id in s.h.cut
  {
    DlqIsTail(s);
    DlqCounts(s, id);
    CountMember(s.h.condemned, id);
    CountMember(s.h.cut, id);
    CountJobsMember(s.dlq, id);
  }

  // A tombstone is only ever written after a final SMTP outcome for its id.
  lemma TombstoneHasReply(s: State, id: string)
    requires Reachable(s) && id in Fold(s.rows) && Fold(s.rows)[id].done
    ensures HasFinalReply(s, id)
  {
    InvReachable(s);
  }
}
