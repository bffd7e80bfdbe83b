// The results about every run of an inbound worker, whatever the mailbox does and
// wherever faults strike. They count from the last change of UIDVALIDITY.
module InboundTheorems {
  import opened Wrappers
  import opened Cursor
  import opened Inbound

  // Some handling of the message published it, announced it as a bounce, or skipped it
  // as a loop.
  ghost predicate Accounted(s: State, uid: U32) {
    exists h :: h in s.handled && h.uid == uid && Accounts(h.kind)
  }

  // Each time it was handled it parsed as a bounce and the announcement failed.
  ghost predicate AlwaysLost(s: State, uid: U32) {
    s.box.mail.isBounce(uid) && forall h :: h in s.handled && h.uid == uid ==> h.parsed && !h.report.announced
  }

  lemma HandledFate(s: State, uid: U32)
    requires Inv(s) && uid in Uids(s.handled)
    ensures Accounted(s, uid) <==> !AlwaysLost(s, uid)
  {
    var h :| h in s.handled && h.uid == uid;
    assert h.kind == Classify(s.box.mail, uid, h.parsed, h.report);
  }

  // At least once: a message that is still in the mailbox, above the bootstrap start
  // and at or below the stored cursor, was handled. It was published, announced as a
  // bounce or skipped as a loop exactly when it is not a bounce whose announcement
  // failed every time.
  lemma AtLeastOnce(s: State, uid: U32)
    requires Reachable(s) && Current(s)
    requires uid in s.box.present && s.start < uid <= s.cursor.value.lastUid
    ensures exists h :: h in s.handled && h.uid == uid
    ensures Accounted(s, uid) <==> !AlwaysLost(s, uid)
  {
    InvReachable(s);
    assert uid in Uids(s.handled);
    HandledFate(s, uid);
  }

  // The same for messages that may be gone by now: whatever was in the mailbox when
  // its range was searched, and which the cursor then reached.
  lemma PassedWasHandled(s: State, uid: U32)
    requires Reachable(s) && uid in s.passed
    ensures exists h :: h in s.handled && h.uid == uid
    ensures Accounted(s, uid) <==> !AlwaysLost(s, uid)
  {
    InvReachable(s);
    assert uid in Uids(s.handled);
    HandledFate(s, uid);
  }

  // What each handling made of its message: a bounce that parsed became a bounce event
  // with the report of that time, a loop that parsed and is no bounce became nothing, and
  // everything else was published.
  lemma HandledAs(s: State, h: Handling)
    requires Reachable(s) && h in s.handled
    ensures h.kind.Bounced? <==> h.parsed && s.box.mail.isBounce(h.uid)
    ensures h.kind.LoopSkipped? <==> h.parsed && !s.box.mail.isBounce(h.uid) && s.box.mail.isLoop(h.uid)
    ensures h.kind.Published? <==> !h.parsed || (!s.box.mail.isBounce(h.uid) && !s.box.mail.isLoop(h.uid))
    ensures h.kind.Bounced? ==> h.kind.report == h.report
  {
    InvReachable(s);
  }

  // A message the cursor is past was handled. One that is neither a bounce nor a loop was
  // published each time. A loop that is no bounce was skipped each time it parsed and a
  // bounce became a bounce event each time it parsed; either was published raw each time
  // it did not.
  lemma PassedBecame(s: State, uid: U32)
    requires Reachable(s)
    requires uid in s.passed
      || (uid in s.box.present && s.cursor.Some? && s.cursor.value.uidValidity == s.box.validity
          && s.start < uid <= s.cursor.value.lastUid)
    ensures exists h :: h in s.handled && h.uid == uid
    ensures var mail := s.box.mail;
      forall h :: h in s.handled && h.uid == uid ==>
        (h.kind.Published? <==> (!mail.isBounce(uid) && !mail.isLoop(uid)) || !h.parsed)
        && (h.kind.LoopSkipped? <==> !mail.isBounce(uid) && mail.isLoop(uid) && h.parsed)
        && (h.kind.Bounced? <==> mail.isBounce(uid) && h.parsed)
    ensures !s.box.mail.isBounce(uid) && !s.box.mail.isLoop(uid) ==>
      exists h :: h in s.handled && h.uid == uid && h.kind.Published?
  {
    InvReachable(s);
    assert uid in Uids(s.handled);
    var h :| h in s.handled && h.uid == uid;
    forall h | h in s.handled {
      HandledAs(s, h);
    }
  }

  // A mailbox that holds one bounce, and a worker that fails to announce it.
  function LoneBounce(): State {
    State(Mailbox(1, 2, {1}, Mail(u => u == 1, u => false)), None, Down, [], 0, 0, 0, {}, {}, None)
  }

  const CONNECTING := [Connect, Reset(0), Bootstrap(None, 0)]
  const LOSING := [Search([1]), Handle(true, Report(false, false)), Persist(0)]

  // Where the connect leaves it.
  function Connected(): State {
    LoneBounce().(cursor := Some(UidCursor(1, 0, 0)), phase := Ready(0), joined := Some(2))
  }

  // And where the drain does.
  function Lost(): State {
    var report := Report(false, false);
    Connected().(cursor := Some(UidCursor(1, 1, 0)), phase := Draining([], 1),
                 handled := [Handling(1, true, report, Bounced(report))], found := {1}, passed := {1})
  }

  lemma ConnectsLone()
    ensures Exec(LoneBounce(), CONNECTING) == Some(Connected())
  {
    var s0 := LoneBounce();
    var s1 := After(s0, Connect);
    ExecSteps(s0, CONNECTING, [s0, s1, After(s1, Reset(0)), Connected()]);
  }

  lemma DrainsLone()
    ensures Exec(Connected(), LOSING) == Some(Lost())
  {
    var s3 := Connected();
    var s4 := After(s3, Search([1]));
    var s5 := After(s4, Handle(true, Report(false, false)));
    assert Members([1]) == {1} && UpTo({1}, 1) == {1};
    assert [1][1..] == [];
    ExecSteps(s3, LOSING, [s3, s4, s5, Lost()]);
  }

  // No fault strikes, the cursor passes the bounce, and nobody hears of it.
  lemma BounceIsLost() returns (s: State)
    ensures IsInit(LoneBounce()) && Exec(LoneBounce(), CONNECTING + LOSING) == Some(s)
    ensures s.faults == 0 && 1 in s.passed && Last(s) == 1 && !Accounted(s, 1)
  {
    s := Lost();
    ConnectsLone();
    DrainsLone();
    ExecConcat(LoneBounce(), CONNECTING, LOSING);
  }

  lemma {:induction false} ExecSteps(s0: State, events: seq<Event>, states: seq<State>)
    requires |states| == |events| + 1 && states[0] == s0
    requires forall i :: 0 <= i < |events| ==>
      Enabled(states[i], events[i]) && After(states[i], events[i]) == states[i + 1]
    ensures Exec(s0, events) == Some(states[|events|])
    decreases |events|
  {
    if events != [] {
      ExecSteps(states[1], events[1..], states[1..]);
    }
  }

  // Bounded duplication: all handlings together are at most one per message plus
  // one per fault.
  lemma BoundedDuplication(s: State)
    requires Reachable(s)
    ensures |s.handled| <= |Uids(s.handled)| + s.faults
  {
    InvReachable(s);
  }

  lemma {:induction false} UidsCard(handled: seq<Handling>)
    ensures |Uids(handled)| <= |handled|
    ensures |Uids(handled)| == |handled| ==>
      forall i, j :: 0 <= i < j < |handled| ==> handled[i].uid != handled[j].uid
  {
    if handled != [] {
      var n := |handled| - 1;
      var init, last := handled[..n], handled[n];
      UidsCard(init);
      UidsAppend(init, last);
      assert handled == init + [last];
      if last.uid in Uids(init) {
        assert Uids(handled) == Uids(init);
      } else {
        forall i | 0 <= i < n ensures handled[i].uid != last.uid {
          assert init[i] in init;
        }
      }
    }
  }

  // Without a fault no message is handled twice.
  lemma ExactlyOnceWithoutFaults(s: State)
    requires Reachable(s) && s.faults == 0
    ensures forall i, j :: 0 <= i < j < |s.handled| ==> s.handled[i].uid != s.handled[j].uid
  {
    InvReachable(s);
    UidsCard(s.handled);
  }

  // At every loop head and all through a drain, the position held in memory is
  // the one in the table, under the UIDVALIDITY of the mailbox.
  lemma MemoryMatchesCursor(s: State)
    requires Reachable(s)
    ensures s.phase.Ready? ==> Current(s) && s.phase.last == s.cursor.value.lastUid
    ensures s.phase.Draining? || s.phase.Persisting? ==> Current(s) && s.phase.highest == s.cursor.value.lastUid
  {
    InvReachable(s);
  }

  // History is skipped at most once, and once it was the cursor is positive, so
  // no reconnect under the same UIDVALIDITY can skip again.
  lemma NoSecondSkip(s: State, limit: Option<U32>, now: int)
    requires Reachable(s)
    ensures s.skips <= 1
    ensures s.skips == 1 && s.phase.Booting? ==> After(s, Bootstrap(limit, now)).cursor == s.cursor
  {
    InvReachable(s);
  }

  // The cursor never moves back while UIDVALIDITY stays the same.
  lemma CursorMonotone(s: State, e: Event)
    requires Reachable(s) && Enabled(s, e) && Current(s) && !e.Recreate?
    ensures Current(After(s, e)) && Last(After(s, e)) >= Last(s)
  {
    InvReachable(s);
    if e.Persist? {
      CoversTail(s.phase.uid, s.phase.todo, s.phase.highest, s.box);
    }
  }

  // A message that was handled twice was so because of a fault. The two times it became
  // the same thing exactly when it is one that is published anyway, or it parsed both
  // times or neither time and, if it is a bounce that parsed, fared alike.
  lemma KindsOfRepeats(s: State, i: nat, j: nat)
    requires Reachable(s) && i < j < |s.handled| && s.handled[i].uid == s.handled[j].uid
    ensures s.faults > 0
    ensures var a, b := s.handled[i], s.handled[j];
      a.kind == b.kind
      <==> (Classify(s.box.mail, a.uid, true, a.report) == Published
            || (a.parsed == b.parsed && (a.kind.Bounced? ==> a.report == b.report)))
  {
    InvReachable(s);
    if s.faults == 0 {
      ExactlyOnceWithoutFaults(s);
    }
    assert s.handled[i] in s.handled && s.handled[j] in s.handled;
  }
}
