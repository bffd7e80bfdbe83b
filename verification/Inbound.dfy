// The inbound cursor protocol of src/inbound.rs as a state machine: connect,
// reset the cursor when UIDVALIDITY changed, skip history once, then search,
// handle each message and move the cursor behind it. The mailbox changes under
// the worker and faults strike between any two steps.
module Inbound {
  import opened Wrappers
  import opened Cursor

  // What becomes of a message: an InboundEvent, a BounceEvent, or nothing. A bounce is
  // stored and announced as far as that works.
  datatype Kind = Published | Bounced(report: Report) | LoopSkipped

  // Whether the bounce store took the row and the broker the event. A failure of
  // either is logged and the message counts as handled.
  datatype Report = Report(stored: bool, announced: bool)

  // Somebody downstream hears of the message, or is not meant to.
  predicate Accounts(k: Kind) {
    k.Bounced? ==> k.report.announced
  }

  // How parse_bounce and should_skip judge each message once it is parsed.
  datatype Mail = Mail(isBounce: U32 -> bool, isLoop: U32 -> bool)

  // A message that does not parse is published raw, whatever it is.
  function Classify(mail: Mail, uid: U32, parsed: bool, report: Report): Kind {
    if parsed && mail.isBounce(uid) then Bounced(report)
    else if parsed && mail.isLoop(uid) then LoopSkipped
    else Published
  }

  datatype Handling = Handling(uid: U32, parsed: bool, report: Report, kind: Kind)

  // The mailbox, as section 2.3.1.1 of RFC 3501 has it: UIDs only grow.
  datatype Mailbox = Mailbox(validity: U32, uidNext: U32, present: set<U32>, mail: Mail)

  ghost predicate ValidMailbox(m: Mailbox) {
    0 < m.uidNext && forall u :: u in m.present ==> 0 < u < m.uidNext
  }

  datatype Phase =
    | Down
    | Selected(uidNext: U32)
    | Booting(last: U32, uidNext: U32)
    | Ready(last: U32)
    | Draining(todo: seq<U32>, highest: U32)
    | Persisting(uid: U32, todo: seq<U32>, highest: U32)

  // handled, start, skips, faults and passed count from the last change of UIDVALIDITY.
  // found: the messages the last search returned. passed: those of them, search after
  // search, that the cursor has reached or moved past in the drain that found them.
  // joined: the UIDNEXT the first connect was told.
  datatype State = State(
    box: Mailbox,
    cursor: Option<UidCursor>,
    phase: Phase,
    handled: seq<Handling>,
    start: U32,
    skips: nat,
    faults: nat,
    found: set<U32>,
    passed: set<U32>,
    joined: Option<U32>)

  datatype Event =
    | Arrive(uid: U32)
    | Expunge(uid: U32)
    | Recreate(box: Mailbox)
    | Connect
    | Reset(now: int)
    | Bootstrap(limit: Option<U32>, now: int)
    | Search(uids: seq<U32>)
    | Handle(parsed: bool, report: Report)
    | Persist(now: int)
    | Drained
    | Stop
    | Fault

  ghost predicate Ascending(uids: seq<U32>) {
    forall i, j :: 0 <= i < j < |uids| ==> uids[i] < uids[j]
  }

  // What the external search_since answers.
  ghost predicate IsSearchResult(uids: seq<U32>, present: set<U32>, last: U32) {
    Ascending(uids) && forall u :: u in uids <==> u in present && u > last
  }

  function Members(uids: seq<U32>): set<U32> {
    set u | u in uids
  }

  function UpTo(uids: set<U32>, last: U32): set<U32> {
    set u | u in uids && u <= last
  }

  ghost predicate Enabled(s: State, e: Event) {
    match e
    case Arrive(uid) => s.box.uidNext <= uid < U32_MAX && 0 < uid
    case Expunge(uid) => true
    // The mailbox is recreated while no session has it selected.
    case Recreate(box) => s.phase.Down? && box.validity > s.box.validity && ValidMailbox(box)
    case Connect => s.phase.Down?
    case Reset(_) => s.phase.Selected?
    case Bootstrap(_, _) => s.phase.Booting?
    case Search(uids) => s.phase.Ready? && IsSearchResult(uids, s.box.present, s.phase.last)
    // The fetch succeeds only while the message is still there.
    case Handle(_, _) => s.phase.Draining? && s.phase.todo != [] && s.phase.todo[0] in s.box.present
    case Persist(_) => s.phase.Persisting?
    case Drained => s.phase.Draining? && s.phase.todo == []
    case Stop => s.phase.Ready?
    case Fault => !s.phase.Down?
  }

  ghost function After(s: State, e: Event): State
    requires Enabled(s, e)
  {
    match e
    case Arrive(uid) => s.(box := s.box.(present := s.box.present + {uid}, uidNext := uid + 1))
    case Expunge(uid) => s.(box := s.box.(present := s.box.present - {uid}))
    case Recreate(box) =>
      s.(box := box, handled := [], start := 0, skips := 0, faults := 0, found := {}, passed := {}, joined := None)
    case Connect =>
      s.(phase := Selected(s.box.uidNext), joined := if s.joined.Some? then s.joined else Some(s.box.uidNext))
    case Reset(now) =>
      var row := ResetRow(s.cursor, s.box.validity, now);
      s.(cursor := Some(row), phase := Booting(row.lastUid, s.phase.uidNext))
    case Bootstrap(limit, now) =>
      if SkipsHistory(s.phase.last, limit, s.phase.uidNext) then
        var start := StartUid(s.phase.last, limit, s.phase.uidNext);
        s.(cursor := Some(UidCursor(s.box.validity, start, now)), phase := Ready(start),
           start := start, skips := s.skips + 1)
      else s.(phase := Ready(s.phase.last))
    case Search(uids) => s.(phase := Draining(uids, s.phase.last), found := Members(uids))
    case Handle(parsed, report) =>
      var uid := s.phase.todo[0];
      s.(handled := s.handled + [Handling(uid, parsed, report, Classify(s.box.mail, uid, parsed, report))],
         phase := Persisting(uid, s.phase.todo[1..], s.phase.highest))
    case Persist(now) =>
      // The row is read back for its uid_validity; without one nothing is written.
      s.(cursor := (match s.cursor
                    case None => None
                    case Some(row) => Some(UidCursor(row.uidValidity, s.phase.uid, now))),
         phase := Draining(s.phase.todo, s.phase.uid),
         passed := s.passed + UpTo(s.found, s.phase.uid))
    case Drained => s.(phase := Ready(s.phase.highest))
    case Stop => s.(phase := Down)
    case Fault => s.(phase := Down, faults := s.faults + 1)
  }

  ghost function Exec(s: State, events: seq<Event>): Option<State>
    decreases |events|
  {
    if events == [] then Some(s)
    else if Enabled(s, events[0]) then Exec(After(s, events[0]), events[1..])
    else None
  }

  lemma {:induction false} ExecConcat(s: State, a: seq<Event>, b: seq<Event>)
    ensures Exec(s, a + b) == if Exec(s, a).None? then None else Exec(Exec(s, a).value, b)
    decreases |a|
  {
    if a == [] {
      assert a + b == b;
    } else {
      assert (a + b)[1..] == a[1..] + b;
      if Enabled(s, a[0]) {
        ExecConcat(After(s, a[0]), a[1..], b);
      }
    }
  }

  ghost predicate IsInit(s: State) {
    ValidMailbox(s.box) && s.cursor.None? && s.phase.Down?
    && s.handled == [] && s.start == 0 && s.skips == 0 && s.faults == 0
    && s.found == {} && s.passed == {} && s.joined.None?
  }

  ghost predicate Reachable(s: State) {
    exists s0, events :: IsInit(s0) && Exec(s0, events) == Some(s)
  }

  // --- Invariants ---

  function Uids(handled: seq<Handling>): set<U32> {
    set h | h in handled :: h.uid
  }

  lemma UidsAppend(handled: seq<Handling>, h: Handling)
    ensures Uids(handled + [h]) == Uids(handled) + {h.uid}
  {
    var more := handled + [h];
    assert more[|handled|] == h;
    forall u | u in Uids(handled) ensures u in Uids(more) {
      var k :| k in handled && k.uid == u;
      assert k in more;
    }
  }

  // The stored row belongs to the mailbox as it is now.
  predicate Current(s: State) {
    s.cursor.Some? && s.cursor.value.uidValidity == s.box.validity
  }

  function Last(s: State): U32 {
    if Current(s) then s.cursor.value.lastUid else 0
  }

  ghost predicate Beyond(v: U32, todo: seq<U32>) {
    forall t :: t in todo ==> t < v
  }

  // What is left to do covers everything above `highest`, up to later arrivals.
  ghost predicate Covers(todo: seq<U32>, highest: U32, box: Mailbox) {
    Ascending(todo)
    && (forall t :: t in todo ==> highest < t < box.uidNext)
    && (forall v :: v in box.present && v > highest ==> v in todo || Beyond(v, todo))
  }

  // The in-memory position and the stored cursor agree.
  ghost predicate InStep(s: State) {
    (s.cursor.Some? ==> s.cursor.value.uidValidity <= s.box.validity)
    && match s.phase
       case Down => true
       case Selected(n) => n <= s.box.uidNext
       case Booting(last, n) => Current(s) && last == Last(s) && n <= s.box.uidNext
       case Ready(last) => Current(s) && last == Last(s)
       case Draining(todo, highest) => Current(s) && highest == Last(s) && Covers(todo, highest, s.box)
       case Persisting(uid, todo, highest) =>
         Current(s) && highest == Last(s) && Covers([uid] + todo, highest, s.box) && uid in Uids(s.handled)
  }

  // Nothing that is still in the mailbox was passed over.
  ghost predicate NoneMissed(s: State) {
    s.start <= Last(s) <= s.box.uidNext
    && (Last(s) == s.box.uidNext ==> s.start == Last(s))
    && forall u :: u in s.box.present && s.start < u <= Last(s) ==> u in Uids(s.handled)
  }

  // What a drain found is handled or still to do, and what it passed is handled.
  ghost predicate FoundKept(s: State) {
    (forall u :: u in s.passed ==> u in Uids(s.handled))
    && (s.phase.Draining? || s.phase.Persisting? ==>
          forall u :: u in s.found ==> u in s.phase.todo || u in Uids(s.handled))
  }

  // A message handled but not passed yet is the next one any search finds.
  ghost predicate Dangling(s: State) {
    (forall u :: u in Uids(s.handled) ==> u < s.box.uidNext)
    && (forall u, v :: u in Uids(s.handled) && u > Last(s) && v in s.box.present && v > Last(s) ==> u <= v)
    && (s.phase.Persisting? ==> forall u :: u in Uids(s.handled) ==> u <= s.phase.uid)
    && (!Current(s) ==> s.handled == [] && s.skips == 0)
  }

  // 1 when the next message may be handled a second time.
  ghost function Owed(s: State): nat {
    if !s.phase.Persisting? && exists u :: u in Uids(s.handled) && u > Last(s) then 1 else 0
  }

  ghost predicate FewRepeats(s: State) {
    |s.handled| + Owed(s) <= |Uids(s.handled)| + s.faults
  }

  ghost predicate SkipsOnce(s: State) {
    s.skips <= 1 && (s.skips == 1 ==> Last(s) > 0)
  }

  ghost predicate KindsFit(s: State) {
    forall h :: h in s.handled ==> h.kind == Classify(s.box.mail, h.uid, h.parsed, h.report)
  }

  ghost predicate Inv(s: State) {
    ValidMailbox(s.box) && InStep(s) && NoneMissed(s) && Dangling(s)
    && FewRepeats(s) && SkipsOnce(s) && KindsFit(s) && FoundKept(s)
  }

  lemma AscendingTail(uid: U32, todo: seq<U32>)
    requires Ascending([uid] + todo)
    ensures Ascending(todo) && forall t :: t in todo ==> uid < t
  {
    var all := [uid] + todo;
    assert all[0] == uid && all[1..] == todo;
    assert forall i :: 0 <= i < |todo| ==> todo[i] == all[i + 1];
  }

  lemma CoversTail(uid: U32, todo: seq<U32>, highest: U32, box: Mailbox)
    requires Covers([uid] + todo, highest, box)
    ensures Covers(todo, uid, box) && highest < uid < box.uidNext
    ensures forall v :: v in box.present && highest < v <= uid ==> v == uid
  {
    var all := [uid] + todo;
    AscendingTail(uid, todo);
    assert uid in all;
    assert forall t :: t in all <==> t == uid || t in todo;
    forall v | v in box.present && v > highest
      ensures v == uid || (v > uid && (v in todo || Beyond(v, todo)))
    {
      if v !in all {
        assert Beyond(v, all);
      }
    }
  }

  lemma ArriveStep(s: State, e: Event)
    requires Inv(s) && Enabled(s, e) && e.Arrive?
    ensures Inv(After(s, e))
  {
  }

  lemma ExpungeStep(s: State, e: Event)
    requires Inv(s) && Enabled(s, e) && e.Expunge?
    ensures Inv(After(s, e))
  {
  }

  lemma ResetStep(s: State, e: Event)
    requires Inv(s) && Enabled(s, e) && (e.Recreate? || e.Reset?)
    ensures Inv(After(s, e))
  {
  }

  lemma BootstrapStep(s: State, e: Event)
    requires Inv(s) && Enabled(s, e) && e.Bootstrap?
    ensures Inv(After(s, e))
  {
  }

  lemma SearchStep(s: State, e: Event)
    requires Inv(s) && Enabled(s, e) && e.Search?
    ensures Inv(After(s, e))
  {
    assert Covers(e.uids, Last(s), s.box);
  }

  // Handling a message adds it to what is handled, and nothing else.
  lemma HandleUids(s: State, e: Event)
    requires Inv(s) && Enabled(s, e) && e.Handle?
    ensures var uid, todo := s.phase.todo[0], s.phase.todo[1..];
      s.phase.todo == [uid] + todo && uid in s.phase.todo
      && Uids(After(s, e).handled) == Uids(s.handled) + {uid}
      && s.phase.highest < uid < s.box.uidNext
      && forall v :: v in s.box.present && s.phase.highest < v <= uid ==> v == uid
  {
    var uid, todo := s.phase.todo[0], s.phase.todo[1..];
    assert s.phase.todo == [uid] + todo;
    UidsAppend(s.handled, After(s, e).handled[|s.handled|]);
    CoversTail(uid, todo, s.phase.highest, s.box);
  }

  // A message handled before is one that was owed.
  lemma HandleRepeats(s: State, e: Event)
    requires Inv(s) && Enabled(s, e) && e.Handle?
    ensures FewRepeats(After(s, e))
  {
    HandleUids(s, e);
    var uid := s.phase.todo[0];
    if uid in Uids(s.handled) {
      assert Owed(s) == 1;
      assert Uids(s.handled) + {uid} == Uids(s.handled);
    }
  }

  lemma HandleStep(s: State, e: Event)
    requires Inv(s) && Enabled(s, e) && e.Handle?
    ensures Inv(After(s, e))
  {
    HandleUids(s, e);
    HandleRepeats(s, e);
  }

  lemma PersistStep(s: State, e: Event)
    requires Inv(s) && Enabled(s, e) && e.Persist?
    ensures Inv(After(s, e))
  {
    CoversTail(s.phase.uid, s.phase.todo, s.phase.highest, s.box);
  }

  lemma MoveStep(s: State, e: Event)
    requires Inv(s) && Enabled(s, e) && (e.Connect? || e.Drained? || e.Stop? || e.Fault?)
    ensures Inv(After(s, e))
  {
  }

  lemma InvStep(s: State, e: Event)
    requires Inv(s) && Enabled(s, e)
    ensures Inv(After(s, e))
  {
    match e
    case Arrive(_) => ArriveStep(s, e);
    case Expunge(_) => ExpungeStep(s, e);
    case Recreate(_) => ResetStep(s, e);
    case Reset(_) => ResetStep(s, e);
    case Bootstrap(_, _) => BootstrapStep(s, e);
    case Search(_) => SearchStep(s, e);
    case Handle(_, _) => HandleStep(s, e);
    case Persist(_) => PersistStep(s, e);
    case _ => MoveStep(s, e);
  }

  lemma {:induction false} InvExec(s: State, events: seq<Event>)
    requires Inv(s) && Exec(s, events).Some?
    ensures Inv(Exec(s, events).value)
    decreases |events|
  {
    if events != [] {
      InvStep(s, events[0]);
      InvExec(After(s, events[0]), events[1..]);
    }
  }

  lemma InvReachable(s: State)
    requires Reachable(s)
    ensures Inv(s)
  {
    var s0, events :| IsInit(s0) && Exec(s0, events) == Some(s);
    assert Uids(s0.handled) == {};
    InvExec(s0, events);
  }
}
