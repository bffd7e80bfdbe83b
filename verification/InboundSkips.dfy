// The history skip of src/inbound.rs, seen over whole runs. It is taken whenever the
// stored cursor is 0, at any connect: so mail that came after the first one can be
// skipped as history.
module InboundSkips {
  import opened Wrappers
  import opened Cursor
  import opened Inbound
  import opened InboundTheorems

  // The message came after the first connect.
  predicate ArrivedSince(s: State, uid: U32) {
    s.joined.Some? && uid >= s.joined.value
  }

  ghost predicate Joined(s: State) {
    (s.joined.Some? ==> 0 < s.joined.value <= s.box.uidNext)
    && (!s.phase.Down? || Current(s) ==> s.joined.Some?)
  }

  // Without faults nothing below the start was handled before the skip.
  ghost predicate Above(s: State) {
    (forall u :: u in Uids(s.handled) ==> u > 0)
    && (s.faults == 0 ==> forall u :: u in Uids(s.handled) ==> u > s.start)
  }

  lemma JoinedStep(s: State, e: Event)
    requires Inv(s) && Joined(s) && Enabled(s, e)
    ensures Joined(After(s, e))
  {
  }

  // Without faults every handled message is at or below the cursor, between drains.
  lemma NothingOwed(s: State)
    requires Inv(s) && s.faults == 0 && !s.phase.Persisting?
    ensures forall u :: u in Uids(s.handled) ==> u <= Last(s)
  {
    UidsCard(s.handled);
  }

  lemma AboveBootstrap(s: State, e: Event)
    requires Inv(s) && Above(s) && Enabled(s, e) && e.Bootstrap?
    ensures Above(After(s, e))
  {
    if s.faults == 0 {
      NothingOwed(s);
    }
  }

  lemma AboveHandle(s: State, e: Event)
    requires Inv(s) && Above(s) && Enabled(s, e) && e.Handle?
    ensures Above(After(s, e))
  {
    UidsAppend(s.handled, After(s, e).handled[|s.handled|]);
    assert s.phase.todo[0] in s.phase.todo;
  }

  lemma AbovePlain(s: State, e: Event)
    requires Inv(s) && Above(s) && Enabled(s, e) && !e.Bootstrap? && !e.Handle?
    ensures Above(After(s, e))
  {
    assert e.Recreate? || After(s, e).handled == s.handled;
  }

  lemma {:induction false} SkipExec(s: State, events: seq<Event>)
    requires Inv(s) && Joined(s) && Above(s) && Exec(s, events).Some?
    ensures Joined(Exec(s, events).value) && Above(Exec(s, events).value)
    decreases |events|
  {
    if events != [] {
      var e := events[0];
      InvStep(s, e);
      JoinedStep(s, e);
      if e.Bootstrap? {
        AboveBootstrap(s, e);
      } else if e.Handle? {
        AboveHandle(s, e);
      } else {
        AbovePlain(s, e);
      }
      SkipExec(After(s, e), events[1..]);
    }
  }

  lemma SkipReachable(s: State)
    requires Reachable(s)
    ensures Joined(s) && Above(s)
  {
    var s0, events :| IsInit(s0) && Exec(s0, events) == Some(s);
    assert Uids(s0.handled) == {};
    SkipExec(s0, events);
  }

  // Of the messages that came after the first connect, are still there and are not above
  // the cursor, the ones at or below the start were skipped: every other one was handled,
  // and without faults none of these was.
  lemma SkippedArrivals(s: State, uid: U32)
    requires Reachable(s) && Current(s)
    requires uid in s.box.present && ArrivedSince(s, uid) && uid <= s.cursor.value.lastUid
    ensures uid > s.start ==> uid in Uids(s.handled)
    ensures s.faults == 0 ==> (uid in Uids(s.handled) <==> uid > s.start)
  {
    InvReachable(s);
    SkipReachable(s);
  }

  // When a connect skips mail that came after the first one: exactly when the stored
  // cursor is still 0, the account has a limit, and more UIDs than that were assigned
  // since the first connect. Whether the cursor is 0 has nothing to do with how long ago
  // that was.
  lemma SkipReachesArrivals(s: State, limit: U32, now: int)
    requires Reachable(s) && s.phase.Booting? && limit < U32_MAX
    ensures s.joined.Some?
    ensures var s' := After(s, Bootstrap(Some(limit), now));
      (s'.skips > s.skips && ArrivedSince(s', s'.start)
       <==> Last(s) == 0 && s.phase.uidNext - s.joined.value > limit)
  {
    InvReachable(s);
    SkipReachable(s);
  }

  // --- A run that skips an arrival ---

  // The mailbox is empty at the first connect; then limit + 1 messages come while the
  // worker is stopped, the last of them under the highest UID.
  function EmptyBox(): State {
    State(Mailbox(1, 1, {}, Mail(u => false, u => false)), None, Down, [], 0, 0, 0, {}, {}, None)
  }

  function OutageEvents(limit: U32): seq<Event>
    requires 0 < limit < U32_MAX - 1
  {
    [Connect, Reset(0), Bootstrap(Some(limit), 0), Stop, Arrive(1), Arrive(limit + 1),
     Connect, Reset(0), Bootstrap(Some(limit), 0)]
  }

  // The first of them is never handled, in a run without faults, for every limit from 1.
  lemma ArrivalIsSkipped(limit: U32) returns (s: State)
    requires 0 < limit < U32_MAX - 1
    ensures IsInit(EmptyBox()) && Exec(EmptyBox(), OutageEvents(limit)) == Some(s)
    ensures s.faults == 0 && s.phase.Ready? && 1 in s.box.present && ArrivedSince(s, 1)
    ensures Last(s) == s.start == 1 && s.handled == []
  {
    var s0, events := EmptyBox(), OutageEvents(limit);
    var s3 := FirstSession(limit);
    var s6 := Outage(s3, limit);
    s := SecondSession(s6, limit);
    assert events[..3] + events[3..6] + events[6..] == events;
    ExecConcat(s0, events[..3], events[3..6]);
    ExecConcat(s0, events[..3] + events[3..6], events[6..]);
  }

  lemma FirstSession(limit: U32) returns (s: State)
    requires 0 < limit < U32_MAX - 1
    ensures Exec(EmptyBox(), OutageEvents(limit)[..3]) == Some(s)
    ensures s == EmptyBox().(cursor := Some(UidCursor(1, 0, 0)), phase := Ready(0), joined := Some(1))
  {
    var s0 := EmptyBox();
    var s1 := After(s0, Connect);
    var s2 := After(s1, Reset(0));
    s := After(s2, Bootstrap(Some(limit), 0));
    ExecSteps(s0, OutageEvents(limit)[..3], [s0, s1, s2, s]);
  }

  lemma Outage(s0: State, limit: U32) returns (s: State)
    requires 0 < limit < U32_MAX - 1
    requires s0 == EmptyBox().(cursor := Some(UidCursor(1, 0, 0)), phase := Ready(0), joined := Some(1))
    ensures Exec(s0, OutageEvents(limit)[3..6]) == Some(s)
    ensures s == s0.(phase := Down, box := s0.box.(uidNext := limit + 2, present := {1, limit + 1}))
  {
    var s1 := After(s0, Stop);
    var s2 := After(s1, Arrive(1));
    s := After(s2, Arrive(limit + 1));
    assert {} + {1} + {limit + 1} == {1, limit + 1};
    ExecSteps(s0, OutageEvents(limit)[3..6], [s0, s1, s2, s]);
  }

  lemma SecondSession(s0: State, limit: U32) returns (s: State)
    requires 0 < limit < U32_MAX - 1
    requires s0.phase.Down? && s0.cursor == Some(UidCursor(1, 0, 0)) && s0.joined == Some(1) && s0.handled == []
    requires s0.faults == 0 && s0.box.validity == 1 && s0.box.uidNext == limit + 2 && 1 in s0.box.present
    ensures Exec(s0, OutageEvents(limit)[6..]) == Some(s)
    ensures s.faults == 0 && s.phase == Ready(1) && s.box == s0.box && s.joined == s0.joined && s.handled == []
    ensures s.start == 1 && s.cursor == Some(UidCursor(1, 1, 0))
  {
    var s1 := After(s0, Connect);
    var s2 := After(s1, Reset(0));
    s := After(s2, Bootstrap(Some(limit), 0));
    ExecSteps(s0, OutageEvents(limit)[6..], [s0, s1, s2, s]);
  }
}
