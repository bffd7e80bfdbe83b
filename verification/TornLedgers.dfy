// What every step over a torn queue file keeps: each accepted id is accounted for, a
// tear costs a bounded number of rows, the sends of an id stay within its budget, and an
// id is condemned once unless an end of it was swallowed.
module TornLedgers {
  import opened Wrappers
  import opened QueueLog
  import opened QueueFile
  import opened Dispatcher
  import opened DispatcherRuns
  import opened DlqOrder
  import opened TornRuns

  // --- Conservation ---

  // Each accepted id is accounted for.
  ghost predicate Balance(t: TornState, id: string) {
    Terminal(t.s, id) + LiveCount(t.s, id) + Count(t.losses.jobs, id) + Count(t.losses.acks, id)
    == (if id in t.s.h.accepted then 1 else 0) + Count(t.losses.ends, id) + Count(t.losses.rescued, id)
  }

  lemma CountAddIf(ids: seq<string>, x: string, b: bool, id: string)
    ensures Count(AddIf(ids, x, b), id) == Count(ids, id) + One(b && x == id)
  {
    CountAppend(ids, x, id);
  }

  lemma ChargeCounts(s: State, e: Event, l: Losses, read: bool, id: string)
    requires e.Accept? || (e.Settle? && s.phase.Deciding?)
    ensures var l', own, live := Charge(s, e, l, read), IdOf(s, e) == id, IdOf(s, e) in Live(s.rows);
      Count(l'.jobs, id) == Count(l.jobs, id) + One(own && e.Accept? && !read)
      && Count(l'.settled, id) == Count(l.settled, id) + One(own && e.Settle? && !read)
      && Count(l'.ends, id) == Count(l.ends, id) + One(own && Final(s, e) && live && !read)
      && Count(l'.rescued, id) == Count(l.rescued, id) + One(own && e.Settle? && !live && (Final(s, e) || read))
      && l'.acks == l.acks
  {
    var x, live := IdOf(s, e), IdOf(s, e) in Live(s.rows);
    CountAddIf(l.jobs, x, e.Accept? && !read, id);
    CountAddIf(l.settled, x, e.Settle? && !read, id);
    CountAddIf(l.ends, x, Final(s, e) && live && !read, id);
    CountAddIf(l.rescued, x, e.Settle? && !live && (Final(s, e) || read), id);
  }

  lemma VanishCounts(below: seq<Job>, k: Job, l: Losses, id: string)
    ensures var l', own, live := Vanish(below, k, l), k.messageId == id, k.messageId in Live(below);
      Count(l'.jobs, id) == Count(l.jobs, id) + One(own && !live && !k.done)
      && Count(l'.settled, id) == Count(l.settled, id) + One(own && live)
      && Count(l'.ends, id) == Count(l.ends, id) + One(own && live && k.done)
      && l'.rescued == l.rescued && l'.acks == l.acks
  {
    var x, live := k.messageId, k.messageId in Live(below);
    CountAddIf(l.jobs, x, !live && !k.done, id);
    CountAddIf(l.settled, x, live, id);
    CountAddIf(l.ends, x, live && k.done, id);
  }

  // Only the id of the row that goes is concerned.
  lemma UnreadLive(t: TornState, id: string)
    requires Shape(t) && t.last.Complete?
    ensures LiveCount(t.s, id)
         == if t.last.job.messageId == id then One(!t.last.job.done) else LiveCount(Unread(t).s, id)
    ensures LiveCount(Unread(t).s, id) == One(id in Live(Below(t.s.rows, t.last)))
  {
    LiveBelow(t.s.rows);
  }

  lemma UnreadBalance(t: TornState, id: string)
    requires Shape(t) && Balance(t, id)
    ensures Balance(Unread(t), id)
  {
    if t.last.Complete? {
      UnreadLive(t, id);
      VanishCounts(Below(t.s.rows, t.last), t.last.job, t.losses, id);
      assert AllAcks(Unread(t).s) == AllAcks(t.s);
    }
  }

  // Settling for good is one terminal ack more.
  lemma TakeTerminal(t: TornState, e: Event, rows: seq<Job>, read: bool, id: string)
    requires Enabled(t.s, e) && (e.Accept? || e.Settle?)
    ensures Terminal(Take(t, e, rows, read).s, id) == Terminal(t.s, id) + One(Final(t.s, e) && IdOf(t.s, e) == id)
  {
    assert AllAcks(Take(t, e, rows, read).s) == AllAcks(After(t.s, e));
    if e.Settle? {
      SettleAck(t.s, e);
      SettleTally(t.s, e, id);
    } else {
      StepAcks(t.s, e);
    }
  }

  lemma AcceptedCount(s: State, e: Event, id: string)
    requires Enabled(s, e) && (e.Accept? || e.Settle?)
    ensures id in After(s, e).h.accepted <==> id in s.h.accepted || (e.Accept? && e.job.messageId == id)
  {
  }

  lemma TakeReadBalance(t: TornState, e: Event, id: string)
    requires Shape(t) && Balance(t, id) && Enabled(t.s, e) && Writes(t.s, e)
    ensures Balance(Take(t, e, t.s.rows + [RowOf(t.s, e)], true), id)
  {
    TakeReadLive(t, e, id);
    TakeTerminal(t, e, t.s.rows + [RowOf(t.s, e)], true, id);
    ChargeCounts(t.s, e, t.losses, true, id);
    AcceptedCount(t.s, e, id);
  }

  // A row that is read makes its id live, unless it ends it.
  lemma TakeReadLive(t: TornState, e: Event, id: string)
    requires Shape(t) && Enabled(t.s, e) && Writes(t.s, e)
    ensures LiveCount(Take(t, e, t.s.rows + [RowOf(t.s, e)], true).s, id)
         == if IdOf(t.s, e) == id then One(!Final(t.s, e)) else LiveCount(t.s, id)
    ensures e.Accept? ==> e.job.messageId !in t.s.h.accepted && LiveCount(t.s, e.job.messageId) == 0
  {
    HeldKnown(t, e);
    RowFits(t.s, e);
    LiveAppend(t.s.rows, RowOf(t.s, e));
    KnownIds(t.s.rows, t.s.h.accepted);
  }

  // The job an outcome is for.
  lemma HeldKnown(t: TornState, e: Event)
    requires Shape(t) && Enabled(t.s, e)
    ensures e.Settle? ==>
      var j := t.s.phase.job;
      j in Held(t.s.phase) && j.messageId in t.s.h.accepted && !j.done && j.attempts < MAX_ATTEMPTS
      && (t.stray == Some(j) || IsLive(t.s.rows, j))
  {
    if e.Settle? {
      assert Held(t.s.phase)[0] == t.s.phase.job;
    }
  }

  lemma TakeUnreadBalance(t: TornState, e: Event, read: bool, id: string)
    requires Shape(t) && Balance(t, id) && Enabled(t.s, e) && (e.Accept? || e.Settle?)
    requires read ==> e.Settle? && !Writes(t.s, e)
    ensures Balance(Take(t, e, t.s.rows, read), id)
  {
    TakeTerminal(t, e, t.s.rows, read, id);
    ChargeCounts(t.s, e, t.losses, read, id);
    AcceptedCount(t.s, e, id);
    assert LiveCount(Take(t, e, t.s.rows, read).s, id) == LiveCount(t.s, id);
    assert read ==> Final(t.s, e) && IdOf(t.s, e) !in Live(t.s.rows);
  }

  function ForGood(a: Ack, id: string): nat {
    One(a.messageId == id && a.status != Retrying)
  }

  // A promised ack counts among all acks; a fault that drops it counts it as dropped.
  lemma PromiseCounts(s: State, id: string)
    requires Promised(s.phase) != []
    ensures Terminal(s, id)
         == Tally(s.acks, id, Sent) + Tally(s.acks, id, Failed) + ForGood(Promised(s.phase)[0], id)
  {
    var a := Promised(s.phase)[0];
    assert AllAcks(s) == s.acks + [a];
    TallyAppend(s.acks, a, id, Sent);
    TallyAppend(s.acks, a, id, Failed);
  }

  lemma DroppedCounts(dropped: seq<string>, p: Phase, id: string)
    ensures Count(dropped + DroppedBy(p), id)
         == Count(dropped, id) + if Promised(p) == [] then 0 else ForGood(Promised(p)[0], id)
  {
    if DroppedBy(p) == [] {
      assert dropped + [] == dropped;
    } else {
      CountAppend(dropped, Promised(p)[0].messageId, id);
    }
  }

  lemma StruckBalance(t: TornState, e: Event, id: string)
    requires Balance(t, id) && Enabled(t.s, e) && (e.IoError? || e.Crash?)
    ensures Balance(Struck(t, e), id)
  {
    var s := t.s;
    StepAcks(s, e);
    StruckFields(s, e);
    assert AllAcks(After(s, e)) == s.acks;
    DroppedCounts(t.losses.acks, s.phase, id);
    if Promised(s.phase) == [] {
      assert AllAcks(s) == s.acks;
    } else {
      PromiseCounts(s, id);
    }
  }

  lemma PlainBalance(t: TornState, e: Event, id: string)
    requires Balance(t, id) && Enabled(t.s, e) && IsPlain(t.s, e)
    ensures Balance(t.(s := After(t.s, e), stray := StillHeld(t.stray, After(t.s, e).phase)), id)
  {
    PlainFields(t.s, e);
  }

  lemma CompactBalance(t: TornState, e: Event, base: seq<Job>, writes: seq<Append>, id: string)
    requires Balance(t, id) && Enabled(t.s, e) && e.Compact?
    ensures Balance(t.(s := After(t.s, e), base := base, writes := writes, last := LastLine.Fresh), id)
  {
    StepLive(t.s, e);
    StepAcks(t.s, e);
  }

  // --- What a tear can cost ---

  // How many rows the last line can still take with it.
  function Debt(last: LastLine): nat {
    match last case Fresh => 0 case Damaged => 1 case Complete(_) => 2
  }

  // A stray whose id has no live row left.
  function StrayLost(stray: Option<Job>, rows: seq<Job>): nat {
    One(stray.Some? && stray.value.messageId !in Live(rows))
  }

  ghost predicate Cost(t: TornState) {
    |t.losses.jobs| + |t.losses.settled| + Debt(t.last) <= t.tears + t.bare
    && |t.losses.ends| <= |t.losses.settled|
    && |t.losses.rescued| + StrayLost(t.stray, t.s.rows) <= |t.losses.jobs|
    && |t.losses.acks| <= t.s.h.faults
  }

  lemma UnreadCost(t: TornState)
    requires Shape(t) && Cost(t)
    ensures Cost(Unread(t))
  {
    if t.last.Complete? {
      LiveBelow(t.s.rows);
      if t.last.job in Held(t.s.phase) {
        assert !t.last.job.done && t.stray.None?;
      }
    }
  }

  lemma HeldIds(t: TornState, e: Event)
    requires Shape(t) && Enabled(t.s, e) && Writes(t.s, e)
    ensures RowOf(t.s, e).messageId == IdOf(t.s, e)
  {
    HeldKnown(t, e);
    RowFits(t.s, e);
  }

  // Taking an event settles the stray, if it was for that, and leaves any other.
  lemma TakeStray(t: TornState, e: Event, rows: seq<Job>, read: bool)
    requires Shape(t) && Enabled(t.s, e) && (e.Accept? || e.Settle?)
    ensures var t' := Take(t, e, rows, read);
      (t'.stray.Some? ==> t'.stray == t.stray && t'.stray.value.messageId != IdOf(t.s, e))
      && (e.Settle? && IdOf(t.s, e) !in Live(t.s.rows) ==> t.stray == Some(t.s.phase.job) && t'.stray.None?)
  {
    HeldKnown(t, e);
    TakeHeld(t.s, e);
    if e.Settle? {
      HeldTail(Held(t.s.phase), t.s.rows, t.s.h.accepted, t.stray);
    }
  }

  lemma TakeStrayLost(t: TornState, e: Event, rows: seq<Job>, read: bool)
    requires Shape(t) && Enabled(t.s, e) && (e.Accept? || e.Settle?)
    requires rows == t.s.rows || (Writes(t.s, e) && rows == t.s.rows + [RowOf(t.s, e)])
    ensures var t' := Take(t, e, rows, read);
      StrayLost(t'.stray, rows) <= StrayLost(t.stray, t.s.rows)
      && (e.Settle? && IdOf(t.s, e) !in Live(t.s.rows) ==>
            StrayLost(t'.stray, rows) == 0 && StrayLost(t.stray, t.s.rows) == 1)
  {
    TakeStray(t, e, rows, read);
    if rows != t.s.rows {
      HeldIds(t, e);
      LiveAppend(t.s.rows, RowOf(t.s, e));
    }
  }

  lemma TakeCost(t: TornState, e: Event, rows: seq<Job>, read: bool)
    requires Shape(t) && Cost(t) && Enabled(t.s, e) && (e.Accept? || e.Settle?)
    requires rows == t.s.rows || (Writes(t.s, e) && rows == t.s.rows + [RowOf(t.s, e)])
    ensures var t' := Take(t, e, rows, read);
      |t'.losses.jobs| + |t'.losses.settled| == |t.losses.jobs| + |t.losses.settled| + One(!read)
      && |t'.losses.ends| <= |t'.losses.settled|
      && |t'.losses.rescued| + StrayLost(t'.stray, rows) <= |t'.losses.jobs|
      && |t'.losses.acks| <= t'.s.h.faults
  {
    TakeStrayLost(t, e, rows, read);
    assert After(t.s, e).h.faults == t.s.h.faults;
  }

  lemma StruckCost(t: TornState, e: Event)
    requires Cost(t) && Enabled(t.s, e) && (e.IoError? || e.Crash?)
    ensures Cost(Struck(t, e))
  {
    StruckFields(t.s, e);
  }

  lemma PlainCost(t: TornState, e: Event)
    requires Cost(t) && Enabled(t.s, e) && IsPlain(t.s, e)
    ensures Cost(t.(s := After(t.s, e), stray := StillHeld(t.stray, After(t.s, e).phase)))
  {
    PlainFields(t.s, e);
  }

  lemma CompactCost(t: TornState, e: Event, base: seq<Job>, writes: seq<Append>)
    requires Cost(t) && Enabled(t.s, e) && e.Compact?
    ensures Cost(t.(s := After(t.s, e), base := base, writes := writes, last := LastLine.Fresh))
  {
    StepLive(t.s, e);
  }

  // --- Sends ---

  function Left(rows: seq<Job>, id: string): int {
    if id in Live(rows) then MAX_ATTEMPTS - Live(rows)[id].attempts else 0
  }

  function Budget(t: TornState, id: string): int {
    (if id in t.s.h.accepted then MAX_ATTEMPTS else 0) + t.s.h.faults + MidSend(t.s, id) + Count(t.losses.settled, id)
  }

  // The attempts an id has left are within its budget, by its live row, by its stray,
  // and by the row that comes back when the last one goes.
  ghost predicate Sends(t: TornState, id: string) {
    var sends := Count(t.s.h.sends, id);
    (id !in t.s.h.accepted ==> sends == 0)
    && sends + Left(t.s.rows, id) <= Budget(t, id)
    && (t.stray.Some? && t.stray.value.messageId == id ==>
          sends + MAX_ATTEMPTS - t.stray.value.attempts <= Budget(t, id))
    && (t.last.Complete? && t.last.job.messageId == id ==>
          sends + Left(Below(t.s.rows, t.last), id) <= Budget(t, id) + 1)
  }

  lemma UnreadLeft(t: TornState, id: string)
    requires Shape(t) && t.last.Complete?
    ensures var k, below := t.last.job, Below(t.s.rows, t.last);
      0 <= Left(t.s.rows, id)
      && (k.messageId != id ==> Left(t.s.rows, id) == Left(below, id))
      && (k.messageId == id && !k.done ==> Left(t.s.rows, id) == MAX_ATTEMPTS - k.attempts)
      && (k.messageId !in Live(below) ==> Left(below, k.messageId) == 0)
  {
    LiveBelow(t.s.rows);
    KnownIds(t.s.rows, t.s.h.accepted);
  }

  lemma UnreadBudget(t: TornState, id: string)
    requires t.last.Complete?
    ensures var k, u := t.last.job, Unread(t);
      Budget(u, id) == Budget(t, id) + One(k.messageId == id && id in Live(Below(t.s.rows, t.last)))
      && u.s.h == t.s.h && !u.last.Complete? && u.s.rows == Below(t.s.rows, t.last)
  {
    VanishCounts(Below(t.s.rows, t.last), t.last.job, t.losses, id);
  }

  lemma UnreadSends(t: TornState, id: string)
    requires Shape(t) && Sends(t, id)
    ensures Sends(Unread(t), id)
  {
    if t.last.Complete? {
      UnreadLeft(t, id);
      UnreadBudget(t, id);
      UnreadStray(t, id);
    }
  }

  // The job an outcome is for is within its budget.
  lemma HeldLeft(t: TornState, e: Event, id: string)
    requires Shape(t) && Sends(t, id) && Enabled(t.s, e) && e.Settle? && t.s.phase.job.messageId == id
    ensures Count(t.s.h.sends, id) + MAX_ATTEMPTS - t.s.phase.job.attempts <= Budget(t, id)
    ensures t.s.phase.job.attempts < MAX_ATTEMPTS && id in t.s.h.accepted
  {
    HeldKnown(t, e);
  }

  // What taking an event leaves of what the budget is made of.
  lemma TakeBudget(t: TornState, e: Event, rows: seq<Job>, read: bool, id: string)
    requires Enabled(t.s, e) && (e.Accept? || e.Settle?)
    ensures var t', own := Take(t, e, rows, read), IdOf(t.s, e) == id;
      t'.s.h.sends == t.s.h.sends
      && (id in t'.s.h.accepted <==> id in t.s.h.accepted || (own && e.Accept?))
      && Budget(t', id)
         == Budget(t, id) - One(own && e.Settle?) + One(own && e.Settle? && !read)
            + if own && e.Accept? && id !in t.s.h.accepted then MAX_ATTEMPTS else 0
  {
    ChargeCounts(t.s, e, t.losses, read, id);
    AcceptedCount(t.s, e, id);
    TakeFields(t.s, e);
  }

  lemma TakeFields(s: State, e: Event)
    requires Enabled(s, e) && (e.Accept? || e.Settle?)
    ensures var s' := After(s, e);
      s'.h.sends == s.h.sends && s'.h.faults == s.h.faults
      && (e.Accept? ==> s'.phase == s.phase) && (e.Settle? ==> !s'.phase.Sending? && !s'.phase.Deciding?)
  {
  }

  // What a row that is read leaves of the attempts.
  lemma TakeReadLeft(t: TornState, e: Event, id: string)
    requires Shape(t) && Enabled(t.s, e) && Writes(t.s, e)
    ensures var rows := t.s.rows + [RowOf(t.s, e)];
      Left(rows, id)
      == if IdOf(t.s, e) != id then Left(t.s.rows, id)
         else if e.Accept? then MAX_ATTEMPTS
         else if Final(t.s, e) then 0
         else MAX_ATTEMPTS - (t.s.phase.job.attempts + 1)
    ensures Below(t.s.rows + [RowOf(t.s, e)], Complete(RowOf(t.s, e))) == t.s.rows
    ensures e.Accept? ==> e.job.messageId !in t.s.h.accepted && Left(t.s.rows, e.job.messageId) == 0
  {
    HeldKnown(t, e);
    RowFits(t.s, e);
    LiveAppend(t.s.rows, RowOf(t.s, e));
    KnownIds(t.s.rows, t.s.h.accepted);
  }

  lemma TakeReadSends(t: TornState, e: Event, last: LastLine, id: string)
    requires Shape(t) && Sends(t, id) && Enabled(t.s, e) && Writes(t.s, e)
    requires last == LastLine.Fresh || last == Complete(RowOf(t.s, e))
    ensures Sends(Take(t, e, t.s.rows + [RowOf(t.s, e)], true).(last := last), id)
  {
    TakeBudget(t, e, t.s.rows + [RowOf(t.s, e)], true, id);
    TakeReadLeft(t, e, id);
    TakeStray(t, e, t.s.rows + [RowOf(t.s, e)], true);
    HeldIds(t, e);
    if e.Settle? && t.s.phase.job.messageId == id {
      HeldLeft(t, e, id);
    }
  }

  lemma TakeUnreadSends(t: TornState, e: Event, read: bool, last: LastLine, id: string)
    requires Shape(t) && Sends(t, id) && Enabled(t.s, e) && (e.Accept? || e.Settle?)
    requires if read then e.Settle? && !Writes(t.s, e) && last == t.last else last == LastLine.Fresh
    ensures Sends(Take(t, e, t.s.rows, read).(last := last), id)
  {
    TakeBudget(t, e, t.s.rows, read, id);
    TakeStray(t, e, t.s.rows, read);
    KnownIds(t.s.rows, t.s.h.accepted);
    if e.Settle? && t.s.phase.job.messageId == id {
      HeldLeft(t, e, id);
      if read {
        NotLast(t, id);
      }
    }
  }

  // An id the log does not know is not that of the last row.
  lemma NotLast(t: TornState, id: string)
    requires Shape(t) && id !in Fold(t.s.rows)
    ensures id !in Live(t.s.rows) && (t.last.Complete? ==> t.last.job.messageId != id)
  {
    if t.last.Complete? {
      FoldAppend(t.s.rows[..|t.s.rows| - 1], t.last.job);
      LiveBelow(t.s.rows);
    }
  }

  lemma StruckSends(t: TornState, e: Event, id: string)
    requires Sends(t, id) && Enabled(t.s, e) && (e.IoError? || e.Crash?)
    ensures Sends(Struck(t, e), id)
  {
    StruckFields(t.s, e);
  }

  lemma PlainSends(t: TornState, e: Event, id: string)
    requires Shape(t) && Sends(t, id) && Enabled(t.s, e) && IsPlain(t.s, e)
    ensures Sends(t.(s := After(t.s, e), stray := StillHeld(t.stray, After(t.s, e).phase)), id)
  {
    PlainFields(t.s, e);
    PlainMid(t.s, e, id);
    if e.Send? {
      CountAppend(t.s.h.sends, t.s.phase.pending[0].messageId, id);
      assert Held(t.s.phase)[0] == t.s.phase.pending[0];
      assert t.s.phase.pending[0] in Held(t.s.phase);
    }
  }

  lemma PlainMid(s: State, e: Event, id: string)
    requires Enabled(s, e) && IsPlain(s, e)
    ensures var s' := After(s, e);
      MidSend(s', id) == MidSend(s, id) + One(e.Send? && s.phase.pending[0].messageId == id)
      && s'.h.sends == if e.Send? then s.h.sends + [s.phase.pending[0].messageId] else s.h.sends
  {
  }

  lemma CompactSends(t: TornState, e: Event, base: seq<Job>, writes: seq<Append>, id: string)
    requires Sends(t, id) && Enabled(t.s, e) && e.Compact?
    ensures Sends(t.(s := After(t.s, e), base := base, writes := writes, last := LastLine.Fresh), id)
  {
    StepLive(t.s, e);
  }

  // --- The DLQ ---

  ghost predicate DlqSplit(s: State, id: string) {
    Count(s.h.condemned, id) == CountJobs(s.h.dlqEver, id) + Count(s.h.cut, id) + Between(s, id)
  }

  function MaxNat(a: nat, b: nat): nat {
    if a > b then a else b
  }

  // An id is condemned once, unless an end of it was swallowed; a stray can still be.
  ghost predicate Moved(t: TornState, id: string) {
    DlqSplit(t.s, id)
    && Count(t.s.h.condemned, id)
       + MaxNat(LiveCount(t.s, id), StrayCount(t, id))
       <= One(id in t.s.h.accepted) + Count(t.losses.ends, id)
  }

  function StrayCount(t: TornState, id: string): nat {
    One(t.stray.Some? && t.stray.value.messageId == id)
  }

  lemma UnreadStray(t: TornState, id: string)
    requires Shape(t) && t.last.Complete?
    ensures t.last.job in Held(t.s.phase) ==>
      !t.last.job.done && t.stray.None? && StrayCount(Unread(t), id) == One(t.last.job.messageId == id)
    ensures t.last.job !in Held(t.s.phase) ==>
      StrayCount(Unread(t), id) == StrayCount(t, id) && (t.last.job.messageId == id ==> StrayCount(t, id) == 0)
  {
  }

  lemma UnreadMoved(t: TornState, id: string)
    requires Shape(t) && Moved(t, id)
    ensures Moved(Unread(t), id)
  {
    if t.last.Complete? {
      UnreadLive(t, id);
      UnreadStray(t, id);
      VanishCounts(Below(t.s.rows, t.last), t.last.job, t.losses, id);
      assert Between(Unread(t).s, id) == Between(t.s, id);
    }
  }

  lemma TakeSplit(t: TornState, e: Event, rows: seq<Job>, read: bool, id: string)
    requires Enabled(t.s, e) && (e.Accept? || e.Settle?) && DlqSplit(t.s, id)
    ensures var s' := Take(t, e, rows, read).s;
      DlqSplit(s', id)
      && Count(s'.h.condemned, id)
         == Count(t.s.h.condemned, id)
            + One(e.Settle? && Decide(t.s.phase.job, t.s.phase.reply, e.retryAt).GiveUp? && IdOf(t.s, e) == id)
  {
    var s' := Take(t, e, rows, read).s;
    if e.Settle? {
      SettleCondemns(t.s, e, id);
      assert Between(s', id) == Between(After(t.s, e), id);
    } else {
      assert Between(s', id) == Between(t.s, id) && s'.h == t.s.h.(accepted := s'.h.accepted);
    }
  }

  lemma TakeReadMoved(t: TornState, e: Event, id: string)
    requires Shape(t) && Moved(t, id) && Enabled(t.s, e) && Writes(t.s, e)
    ensures Moved(Take(t, e, t.s.rows + [RowOf(t.s, e)], true), id)
  {
    TakeSplit(t, e, t.s.rows + [RowOf(t.s, e)], true, id);
    TakeReadLive(t, e, id);
    TakeStray(t, e, t.s.rows + [RowOf(t.s, e)], true);
    ChargeCounts(t.s, e, t.losses, true, id);
    AcceptedCount(t.s, e, id);
    HeldKnown(t, e);
  }

  lemma TakeUnreadMoved(t: TornState, e: Event, read: bool, id: string)
    requires Shape(t) && Moved(t, id) && Enabled(t.s, e) && (e.Accept? || e.Settle?)
    requires read ==> e.Settle? && !Writes(t.s, e)
    ensures Moved(Take(t, e, t.s.rows, read), id)
  {
    TakeSplit(t, e, t.s.rows, read, id);
    TakeStray(t, e, t.s.rows, read);
    ChargeCounts(t.s, e, t.losses, read, id);
    AcceptedCount(t.s, e, id);
    HeldKnown(t, e);
    KnownIds(t.s.rows, t.s.h.accepted);
    assert LiveCount(Take(t, e, t.s.rows, read).s, id) == LiveCount(t.s, id);
  }

  // The equation alone is kept by every other step.
  lemma SplitKept(s: State, e: Event, id: string)
    requires Enabled(s, e) && DlqSplit(s, id) && !e.Accept? && !e.Settle?
    ensures DlqSplit(After(s, e), id) && After(s, e).h.condemned == s.h.condemned
  {
    var extra := Count(s.h.condemned, id) + 1;
    if e.WriteDlq? {
      DlqWrite(s, e, id, extra);
    } else if e.IoError? || e.Crash? {
      DlqFault(s, e, id, extra);
    } else {
      SplitUntouched(s, e, id);
    }
  }

  lemma SplitUntouched(s: State, e: Event, id: string)
    requires Enabled(s, e) && !e.Accept? && !e.Settle? && !e.WriteDlq? && !e.IoError? && !e.Crash?
    ensures var h, h' := s.h, After(s, e).h;
      h'.condemned == h.condemned && h'.dlqEver == h.dlqEver && h'.cut == h.cut
      && Between(After(s, e), id) == Between(s, id)
  {
  }

  lemma StruckMoved(t: TornState, e: Event, id: string)
    requires Moved(t, id) && Enabled(t.s, e) && (e.IoError? || e.Crash?)
    ensures Moved(Struck(t, e), id)
  {
    SplitKept(t.s, e, id);
    StruckFields(t.s, e);
  }

  lemma PlainMoved(t: TornState, e: Event, id: string)
    requires Moved(t, id) && Enabled(t.s, e) && IsPlain(t.s, e)
    ensures Moved(t.(s := After(t.s, e), stray := StillHeld(t.stray, After(t.s, e).phase)), id)
  {
    SplitKept(t.s, e, id);
    PlainFields(t.s, e);
  }

  lemma CompactMoved(t: TornState, e: Event, base: seq<Job>, writes: seq<Append>, id: string)
    requires Moved(t, id) && Enabled(t.s, e) && e.Compact?
    ensures Moved(t.(s := After(t.s, e), base := base, writes := writes, last := LastLine.Fresh), id)
  {
    SplitKept(t.s, e, id);
    StepLive(t.s, e);
  }
}
