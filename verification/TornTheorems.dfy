// The results about every run of the outbound worker over a queue file whose last line
// may be torn.
module TornTheorems {
  import opened Wrappers
  import opened Utf8
  import opened QueueLog
  import opened QueueFile
  import opened Dispatcher
  import opened DispatcherRuns
  import opened DlqOrder
  import opened TornRuns
  import opened TornLedgers

  // --- Runs ---

  function InitTorn(): TornState {
    TornState(Init(), [], [], LastLine.Fresh, None, 0, 0, Losses([], [], [], [], []))
  }

  ghost function Exec(c: Codec, t: TornState, steps: seq<Step>): Option<TornState>
    decreases |steps|
  {
    if steps == [] then Some(t)
    else if CanStep(c, t, steps[0]) then Exec(c, Next(c, t, steps[0]), steps[1..])
    else None
  }

  ghost predicate Reachable(c: Codec, t: TornState) {
    exists steps :: Exec(c, InitTorn(), steps) == Some(t)
  }

  ghost predicate Books(t: TornState, id: string) {
    Balance(t, id) && Sends(t, id) && Moved(t, id)
  }

  ghost predicate Inv(t: TornState) {
    Shape(t) && Cost(t) && forall id :: Books(t, id)
  }

  lemma UnreadInv(t: TornState)
    requires Inv(t)
    ensures Inv(Unread(t)) && !Unread(t).last.Complete?
  {
    UnreadShape(t);
    UnreadCost(t);
    forall id ensures Books(Unread(t), id) {
      assert Books(t, id);
      UnreadBalance(t, id);
      UnreadSends(t, id);
      UnreadMoved(t, id);
    }
  }

  // The books do not depend on how the file came about.
  lemma SameBooks(t: TornState, t': TornState, id: string)
    requires Books(t, id)
    requires t'.s == t.s && t'.last == t.last && t'.losses == t.losses && t'.stray == t.stray
    ensures Books(t', id)
  {
  }

  lemma ReadBooks(t: TornState, e: Event, last: LastLine, id: string)
    requires Shape(t) && Books(t, id) && Enabled(t.s, e) && Writes(t.s, e)
    requires last == LastLine.Fresh || last == Complete(RowOf(t.s, e))
    ensures Books(Take(t, e, t.s.rows + [RowOf(t.s, e)], true).(last := last), id)
  {
    TakeReadBalance(t, e, id);
    TakeReadSends(t, e, last, id);
    TakeReadMoved(t, e, id);
  }

  lemma SwallowedBooks(t: TornState, e: Event, id: string)
    requires Shape(t) && Books(t, id) && Enabled(t.s, e) && (e.Accept? || e.Settle?)
    ensures Books(Take(t, e, t.s.rows, false).(last := LastLine.Fresh), id)
  {
    TakeUnreadBalance(t, e, false, id);
    TakeUnreadSends(t, e, false, LastLine.Fresh, id);
    TakeUnreadMoved(t, e, false, id);
  }

  // An event whose row is read, and stands on a line that ends or only lacks its newline.
  lemma ReadInv(t: TornState, e: Event, t': TornState)
    requires Inv(t) && Enabled(t.s, e) && Writes(t.s, e) && t.last.Fresh?
    requires var u := Take(t, e, t.s.rows + [RowOf(t.s, e)], true);
      t'.s == u.s && t'.losses == u.losses && t'.stray == u.stray
    requires (t'.last == LastLine.Fresh && t'.tears == t.tears && t'.bare == t.bare)
          || (t'.last == Complete(RowOf(t.s, e)) && t'.tears == t.tears + 1 && t'.bare == t.bare + 1)
    ensures Inv(t')
  {
    var rows := t.s.rows + [RowOf(t.s, e)];
    TakeReadShape(t, e, RowOf(t.s, e), t'.last);
    TakeCost(t, e, rows, true);
    forall id ensures Books(t', id) {
      assert Books(t, id);
      ReadBooks(t, e, t'.last, id);
      SameBooks(Take(t, e, rows, true).(last := t'.last), t', id);
    }
  }

  // One whose row is swallowed.
  lemma SwallowedInv(t: TornState, e: Event, t': TornState)
    requires Inv(t) && Enabled(t.s, e) && (e.Accept? || e.Settle?) && t.last.Damaged?
    requires var u := Take(t, e, t.s.rows, false);
      t'.s == u.s && t'.losses == u.losses && t'.stray == u.stray
    requires t'.last == LastLine.Fresh && t'.tears == t.tears && t'.bare == t.bare
    ensures Inv(t')
  {
    TakeUnreadShape(t, e, false, LastLine.Fresh);
    TakeCost(t, e, t.s.rows, false);
    forall id ensures Books(t', id) {
      assert Books(t, id);
      SwallowedBooks(t, e, id);
      SameBooks(Take(t, e, t.s.rows, false).(last := LastLine.Fresh), t', id);
    }
  }

  // An outcome for which nothing is written.
  lemma UnknownInv(t: TornState, e: Event)
    requires Inv(t) && Enabled(t.s, e) && e.Settle? && !Writes(t.s, e)
    ensures Inv(Take(t, e, t.s.rows, true))
  {
    TakeUnreadShape(t, e, true, t.last);
    TakeCost(t, e, t.s.rows, true);
    forall id ensures Books(Take(t, e, t.s.rows, true), id) {
      assert Books(t, id);
      TakeUnreadBalance(t, e, true, id);
      TakeUnreadSends(t, e, true, t.last, id);
      TakeUnreadMoved(t, e, true, id);
    }
  }

  lemma CutInv(t: TornState, t': TornState)
    requires Inv(t) && !t.last.Complete? && t'.s == t.s && t'.losses == t.losses && t'.stray == t.stray
    requires t'.last == Damaged && t'.tears == t.tears + 1 && t'.bare >= t.bare
    ensures Inv(t')
  {
    forall id ensures Books(t', id) {
      assert Books(t, id);
    }
  }

  lemma StruckInv(t: TornState, e: Event)
    requires Inv(t) && Enabled(t.s, e) && (e.IoError? || e.Crash?)
    ensures Inv(Struck(t, e))
  {
    StruckShape(t, e);
    StruckCost(t, e);
    forall id ensures Books(Struck(t, e), id) {
      assert Books(t, id);
      StruckBalance(t, e, id);
      StruckSends(t, e, id);
      StruckMoved(t, e, id);
    }
  }

  // The count of the health record is of no account here.
  lemma TotalInv(t: TornState, total: U64)
    requires Inv(t)
    ensures Inv(t.(s := t.s.(sentTotal := total)))
  {
    var t' := t.(s := t.s.(sentTotal := total));
    forall id ensures Books(t', id) {
      assert Books(t, id);
      assert AllAcks(t'.s) == AllAcks(t.s);
    }
  }

  lemma AbortedInv(t: TornState, e: Event, dies: bool, total: U64)
    requires Inv(t) && (e.Settle? ==> Enabled(t.s, IoError))
    ensures Inv(Aborted(t, e, dies, total))
  {
    if dies {
      StruckInv(t, Crash);
    } else if e.Settle? {
      StruckInv(t, IoError);
      TotalInv(Struck(t, IoError), total);
    }
  }

  lemma PlainInv(t: TornState, e: Event)
    requires Inv(t) && Enabled(t.s, e) && IsPlain(t.s, e)
    ensures Inv(t.(s := After(t.s, e), stray := StillHeld(t.stray, After(t.s, e).phase)))
  {
    var t' := t.(s := After(t.s, e), stray := StillHeld(t.stray, After(t.s, e).phase));
    PlainShape(t, e);
    PlainCost(t, e);
    forall id ensures Books(t', id) {
      assert Books(t, id);
      PlainBalance(t, e, id);
      PlainSends(t, e, id);
      PlainMoved(t, e, id);
    }
  }

  lemma CompactInv(t: TornState, e: Event, base: seq<Job>, writes: seq<Append>)
    requires Inv(t) && Enabled(t.s, e) && e.Compact? && NeedsCompaction(t.s.rows)
    ensures Inv(t.(s := After(t.s, e), base := base, writes := writes, last := LastLine.Fresh))
  {
    var t' := t.(s := After(t.s, e), base := base, writes := writes, last := LastLine.Fresh);
    CompactShape(t, e, base, writes);
    CompactCost(t, e, base, writes);
    forall id ensures Books(t', id) {
      assert Books(t, id);
      CompactBalance(t, e, base, writes, id);
      CompactSends(t, e, base, writes, id);
      CompactMoved(t, e, base, writes, id);
    }
  }

  lemma WroteInv(c: Codec, t: TornState, e: Event)
    requires Inv(t) && Enabled(t.s, e) && Writes(t.s, e)
    ensures Inv(Wrote(c, t, e))
  {
    var u := Unread(t);
    UnreadInv(t);
    if u.last.Fresh? {
      ReadInv(t, e, Wrote(c, t, e));
    } else {
      SwallowedInv(u, e, Wrote(c, t, e));
    }
  }

  lemma WholeInv(c: Codec, t: TornState, e: Event)
    requires Inv(t) && Enabled(t.s, e)
    ensures Inv(Next(c, t, Whole(e)))
  {
    if Writes(t.s, e) {
      WroteInv(c, t, e);
    } else if e.Settle? {
      UnknownInv(t, e);
    } else if e.IoError? || e.Crash? {
      StruckInv(t, e);
    } else if e.Compact? && NeedsCompaction(t.s.rows) {
      CompactInv(t, e, e.rows, []);
    } else {
      PlainInv(t, e);
    }
  }

  lemma TearInv(c: Codec, t: TornState, e: Event, n: nat, dies: bool)
    requires Inv(t) && CanStep(c, t, Tear(e, n, dies))
    ensures Inv(Next(c, t, Tear(e, n, dies)))
  {
    var row := RowOf(t.s, e);
    if t.last.Fresh? && n == |c.encode(row)| {
      ReadInv(t, e, Bare(c, t, e));
      AbortedInv(Bare(c, t, e), e, dies, t.s.sentTotal);
    } else {
      UnreadInv(t);
      CutInv(Unread(t), Cut(c, t, row, n));
      AbortedInv(Cut(c, t, row, n), e, dies, t.s.sentTotal);
    }
  }

  lemma InvStep(c: Codec, t: TornState, step: Step)
    requires CanStep(c, t, step) && Inv(t)
    ensures Inv(Next(c, t, step))
  {
    match step
    case Whole(e) => WholeInv(c, t, e);
    case Tear(e, n, dies) => TearInv(c, t, e, n, dies);
  }

  lemma {:induction false} InvExec(c: Codec, t: TornState, steps: seq<Step>)
    requires Inv(t) && FileOk(c, t) && Exec(c, t, steps).Some?
    ensures Inv(Exec(c, t, steps).value) && FileOk(c, Exec(c, t, steps).value)
    decreases |steps|
  {
    if steps != [] {
      InvStep(c, t, steps[0]);
      FileKept(c, t, steps[0]);
      InvExec(c, Next(c, t, steps[0]), steps[1..]);
    }
  }

  lemma InitBooks(id: string)
    ensures Books(InitTorn(), id)
  {
    assert LiveJobs(Init()) == map[];
  }

  lemma InitInv(c: Codec) returns (t: TornState)
    ensures t == InitTorn() && Inv(t) && FileOk(c, t)
  {
    t := InitTorn();
    forall id ensures Books(t, id) {
      InitBooks(id);
    }
  }

  lemma InvReachable(c: Codec, t: TornState)
    requires Reachable(c, t)
    ensures Inv(t) && FileOk(c, t)
  {
    var t0 := InitInv(c);
    var steps :| Exec(c, InitTorn(), steps) == Some(t);
    InvExec(c, t0, steps);
  }

  // --- The results ---

  // The rows the machine works on are what a reader gets of the file, whatever was torn
  // and glued in it, as long as no cut splits a character.
  lemma RowsAreRead(c: Codec, t: TornState)
    requires c.Lawful() && Reachable(c, t)
    ensures AllFit(c, t.writes)
    ensures ReadRows(c, EncodeAll(c, t.base) + Written(c, t.writes)) == Some(t.s.rows)
  {
    InvReachable(c, t);
    ReadEncodeAll(c, t.base);
    TornAppends(c, EncodeAll(c, t.base), t.base, t.writes);
    ReadBackSplit(c, t.writes, LastLine.Fresh);
    Assoc(t.base, Lines(c, t.writes, LastLine.Fresh), LastRow(t.last));
  }

  // Conservation with crashes, errors and torn appends anywhere: an accepted id is live,
  // or it has a terminal ack, or a fault dropped that ack, or its only row was swallowed;
  // and one more for every time an end of it was swallowed, or its only row was while the
  // tick held it and went on to settle it.
  lemma TornConservation(c: Codec, t: TornState, id: string)
    requires Reachable(c, t) && t.s.phase.Idle?
    ensures Tally(t.s.acks, id, Sent) + Tally(t.s.acks, id, Failed) + LiveCount(t.s, id)
            + Count(t.losses.jobs, id) + Count(t.losses.acks, id)
         == (if id in t.s.h.accepted then 1 else 0) + Count(t.losses.ends, id) + Count(t.losses.rescued, id)
  {
    InvReachable(c, t);
    assert Books(t, id);
    assert t.s.acks + [] == t.s.acks;
  }

  // A tear costs at most one row, or two if all it took is the newline, and a fault at
  // most one ack: so with no tear in a run no row is swallowed.
  lemma TearsBoundLosses(c: Codec, t: TornState)
    requires Reachable(c, t)
    ensures |t.losses.jobs| + |t.losses.settled| <= t.tears + t.bare
    ensures |t.losses.ends| <= |t.losses.settled| && |t.losses.rescued| <= |t.losses.jobs|
    ensures |t.losses.acks| <= t.s.h.faults
  {
    InvReachable(c, t);
  }

  // An id is sent at most five times, plus once per fault and once per row of an outcome
  // of its own that was swallowed.
  lemma TornSends(c: Codec, t: TornState, id: string)
    requires Reachable(c, t)
    ensures Count(t.s.h.sends, id)
         <= if id in t.s.h.accepted then 5 + t.s.h.faults + Count(t.losses.settled, id) else 0
  {
    InvReachable(c, t);
    assert Books(t, id);
    MidSendLeft(t, id);
  }

  // While an id is being sent it has an attempt left, by its live row or as a stray.
  lemma MidSendLeft(t: TornState, id: string)
    requires Shape(t) && Sends(t, id)
    ensures Count(t.s.h.sends, id) + MidSend(t.s, id) <= Budget(t, id)
  {
    KnownIds(t.s.rows, t.s.h.accepted);
    if MidSend(t.s, id) == 1 {
      var j := t.s.phase.job;
      assert Held(t.s.phase)[0] == j;
      assert j in Held(t.s.phase);
    }
  }

  // What reached the DLQ is live again only if an end of it was swallowed.
  lemma TornDlq(c: Codec, t: TornState, id: string)
    requires Reachable(c, t) && id in LiveJobs(t.s)
    requires exists j :: j in t.s.h.dlqEver && j.messageId == id
    ensures id in t.losses.ends
  {
    InvReachable(c, t);
    assert Books(t, id);
    CountJobsMember(t.s.h.dlqEver, id);
    CountMember(t.losses.ends, id);
  }

  // --- Sent twice ---

  lemma {:induction false} ExecConcat(c: Codec, t: TornState, a: seq<Step>, b: seq<Step>)
    requires Exec(c, t, a).Some?
    ensures Exec(c, t, a + b) == Exec(c, Exec(c, t, a).value, b)
    decreases |a|
  {
    if a == [] {
      assert a + b == b;
    } else {
      assert (a + b)[1..] == a[1..] + b;
      ExecConcat(c, Next(c, t, a[0]), a[1..], b);
    }
  }

  lemma {:induction false} ExecSteps(c: Codec, states: seq<TornState>, steps: seq<Step>)
    requires |states| == |steps| + 1
    requires forall i :: 0 <= i < |steps| ==>
      CanStep(c, states[i], steps[i]) && Next(c, states[i], steps[i]) == states[i + 1]
    ensures Exec(c, states[0], steps) == Some(states[|steps|])
    decreases |steps|
  {
    if steps != [] {
      ExecSteps(c, states[1..], steps[1..]);
    }
  }

  lemma ThreeSteps(c: Codec, t0: TornState, t1: TornState, t2: TornState, t3: TornState, a: Step, b: Step, d: Step)
    requires CanStep(c, t0, a) && Next(c, t0, a) == t1
    requires CanStep(c, t1, b) && Next(c, t1, b) == t2
    requires CanStep(c, t2, d) && Next(c, t2, d) == t3
    ensures Exec(c, t0, [a, b, d]) == Some(t3)
  {
    StepFirst(c, t2, t3, d, [], t3);
    StepFirst(c, t1, t2, b, [d], t3);
    StepFirst(c, t0, t1, a, [b, d], t3);
    assert [d] + [] == [d] && [b] + [d] == [b, d] && [a] + [b, d] == [a, b, d];
  }

  lemma StepFirst(c: Codec, t: TornState, u: TornState, a: Step, steps: seq<Step>, v: TornState)
    requires CanStep(c, t, a) && Next(c, t, a) == u && Exec(c, u, steps) == Some(v)
    ensures Exec(c, t, [a] + steps) == Some(v)
  {
    assert ([a] + steps)[1..] == steps;
  }

  // A tick that delivers the one job there is: its send, and what is made of the reply.
  function Attempted(j: Job): seq<Step> {
    [Whole(BeginTick([j], j.nextAttemptAt)), Whole(Send), Whole(Reply(Delivered))]
  }

  function Concluded(): seq<Step> {
    [Whole(Settle(0)), Whole(PublishAck(true)), Whole(EndTick)]
  }

  function Delivery(j: Job): seq<Step> {
    Attempted(j) + Concluded()
  }

  ghost predicate OneLeft(s: State, j: Job) {
    s.phase.Idle? && s.inFlight == {} && LiveJobs(s) == map[j.messageId := j]
  }

  lemma ListedAlone(j: Job)
    ensures IsPendingList([j], map[j.messageId := j])
  {
  }

  ghost predicate SameLog(t: TornState, t': TornState) {
    t'.s.rows == t.s.rows && t'.last == t.last && t'.tears == t.tears && t'.s.acks == t.s.acks
    && t'.s.inFlight == t.s.inFlight
  }

  lemma AttemptRuns(c: Codec, t: TornState, j: Job) returns (t': TornState)
    requires OneLeft(t.s, j)
    ensures Exec(c, t, Attempted(j)) == Some(t') && SameLog(t, t')
    ensures t'.s.phase == Deciding(j, Delivered, [], j.nextAttemptAt)
  {
    ListedAlone(j);
    var begin, send, reply := Whole(BeginTick([j], j.nextAttemptAt)), Whole(Send), Whole(Reply(Delivered));
    var t1 := Next(c, t, begin);
    assert t1.s == t.s.(phase := Draining([j], j.nextAttemptAt));
    var t2 := Next(c, t1, send);
    assert t2.s.phase == Sending(j, [], j.nextAttemptAt) && t2.s.inFlight == {j.messageId};
    t' := Next(c, t2, reply);
    ThreeSteps(c, t, t1, t2, t', begin, send, reply);
  }

  lemma ConclusionRuns(c: Codec, t: TornState, j: Job, now: int) returns (t': TornState)
    requires t.s.phase == Deciding(j, Delivered, [], now)
    ensures Exec(c, t, Concluded()) == Some(t')
    ensures t'.s.phase.Idle? && t'.s.acks == t.s.acks + [Ack(j.messageId, Sent, None)] && t'.tears == t.tears
    ensures t'.s.inFlight == t.s.inFlight && (t.last.Damaged? ==> t'.s.rows == t.s.rows)
  {
    var settle, publish, end := Whole(Settle(0)), Whole(PublishAck(true)), Whole(EndTick);
    var t1 := Next(c, t, settle);
    assert t1.s.phase == Acking(Ack(j.messageId, Sent, None), [], now);
    var t2 := Next(c, t1, publish);
    assert t2.s.phase == Draining([], now);
    t' := Next(c, t2, end);
    ThreeSteps(c, t, t1, t2, t', settle, publish, end);
  }

  lemma DeliveryRuns(c: Codec, t: TornState, j: Job) returns (t': TornState)
    requires OneLeft(t.s, j)
    ensures Exec(c, t, Delivery(j)) == Some(t')
    ensures t'.s.phase.Idle? && t'.s.acks == t.s.acks + [Ack(j.messageId, Sent, None)] && t'.tears == t.tears
    ensures t.last.Damaged? ==> OneLeft(t'.s, j)
  {
    var t1 := AttemptRuns(c, t, j);
    t' := ConclusionRuns(c, t1, j, j.nextAttemptAt);
    ExecConcat(c, t, Attempted(j), Concluded());
  }

  // a is accepted, and a crash cuts the append of b.
  lemma TornStart(c: Codec, a: Job, b: Job, n: nat) returns (t: TornState)
    requires a.messageId != b.messageId && a.attempts == 0 == b.attempts && !a.done && !b.done
    requires 0 < n < |c.encode(b)| && IsCharBoundary(c.encode(b), n)
    ensures Exec(c, InitTorn(), [Whole(Accept(a)), Tear(Accept(b), n, true)]) == Some(t)
    ensures OneLeft(t.s, a) && t.last.Damaged? && t.tears == 1 && t.s.acks == []
  {
    var t0, accept, tear := InitTorn(), Whole(Accept(a)), Tear(Accept(b), n, true);
    var t1 := FirstAccepted(c, a);
    t := SecondTorn(c, t1, a, b, n);
    ExecSteps(c, [t0, t1, t], [accept, tear]);
  }

  lemma FirstAccepted(c: Codec, a: Job) returns (t: TornState)
    requires a.attempts == 0 && !a.done
    ensures CanStep(c, InitTorn(), Whole(Accept(a))) && t == Next(c, InitTorn(), Whole(Accept(a)))
    ensures OneLeft(t.s, a) && t.last.Fresh? && t.tears == 0 && t.s.acks == [] && t.s.h.accepted == [a.messageId]
  {
    t := Next(c, InitTorn(), Whole(Accept(a)));
    LiveAppend([], a);
    assert t.s.rows == [] + [a];
  }

  lemma SecondTorn(c: Codec, t: TornState, a: Job, b: Job, n: nat) returns (t': TornState)
    requires OneLeft(t.s, a) && t.last.Fresh? && t.tears == 0 && t.s.acks == []
    requires b.messageId !in t.s.h.accepted && b.attempts == 0 && !b.done
    requires 0 < n < |c.encode(b)| && IsCharBoundary(c.encode(b), n)
    ensures CanStep(c, t, Tear(Accept(b), n, true)) && t' == Next(c, t, Tear(Accept(b), n, true))
    ensures OneLeft(t'.s, a) && t'.last.Damaged? && t'.tears == 1 && t'.s.acks == []
  {
    t' := Next(c, t, Tear(Accept(b), n, true));
  }

  // The shortest run in which a torn line costs something: a is accepted, the append of
  // b is cut by a crash, and a is delivered after the restart. Its tombstone is glued
  // onto what is left of b, so a is live again, is sent again and gets a second ack.
  lemma SentTwice(c: Codec, a: Job, b: Job, n: nat) returns (t: TornState)
    requires a.messageId != b.messageId && a.attempts == 0 == b.attempts && !a.done && !b.done
    requires 0 < n < |c.encode(b)| && IsCharBoundary(c.encode(b), n)
    ensures Reachable(c, t) && t.tears == 1 && t.s.phase.Idle?
    ensures Tally(t.s.acks, a.messageId, Sent) == 2
  {
    var start := [Whole(Accept(a)), Tear(Accept(b), n, true)];
    var t2 := TornStart(c, a, b, n);
    var t3 := DeliveryRuns(c, t2, a);
    t := DeliveryRuns(c, t3, a);
    ExecConcat(c, InitTorn(), start, Delivery(a));
    ExecConcat(c, InitTorn(), start + Delivery(a), Delivery(a));
    TwoAcks(t.s.acks, Ack(a.messageId, Sent, None));
  }

  lemma TwoAcks(acks: seq<Ack>, ack: Ack)
    requires acks == [] + [ack] + [ack]
    ensures Tally(acks, ack.messageId, ack.status) == 2
  {
    TallyAppend([], ack, ack.messageId, ack.status);
    TallyAppend([] + [ack], ack, ack.messageId, ack.status);
  }
}
