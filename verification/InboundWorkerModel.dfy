// AccountWorker of src/inbound.rs over the cursor table: one session's connect
// and drain, with the place where each external call may fail as an input.
module InboundWorkerModel {
  import opened Wrappers
  import opened Cursor
  import opened Inbound

  // How the calls made for one message turn out. expunged: the message was found by the
  // search but is gone when it is its turn; then the fetch fails.
  datatype Fate = Fate(
    expunged: bool,
    fetched: bool,
    parsed: bool,
    published: bool,
    report: Report,
    cursorRead: bool,
    cursorWritten: bool,
    clock: int)

  datatype SessionError = SessionFailed

  // The message was fetched and, if it is to be published, that succeeded. A
  // bounce whose publish fails counts as handled: the cursor advances.
  predicate Delivers(mail: Mail, uid: U32, f: Fate) {
    !f.expunged && f.fetched && (Classify(mail, uid, f.parsed, f.report) == Published ==> f.published)
  }

  predicate Advances(f: Fate, stored: bool) {
    f.cursorRead && (stored ==> f.cursorWritten)
  }

  // Handled, and the cursor behind it.
  predicate AllWell(mail: Mail, uid: U32, f: Fate, stored: bool) {
    Delivers(mail, uid, f) && Advances(f, stored)
  }

  function MessageEvents(mail: Mail, uid: U32, f: Fate, stored: bool): seq<Event> {
    if f.expunged then [Expunge(uid)] + [Fault]
    else if !Delivers(mail, uid, f) then [Fault]
    else if !Advances(f, stored) then [Handle(f.parsed, f.report)] + [Fault]
    else [Handle(f.parsed, f.report)] + [Persist(f.clock)]
  }

  // A drain: message by message, up to the first call that fails.
  function FetchEvents(mail: Mail, uids: seq<U32>, fates: U32 -> Fate, stored: bool): seq<Event> {
    if uids == [] then [Drained]
    else
      MessageEvents(mail, uids[0], fates(uids[0]), stored)
      + if AllWell(mail, uids[0], fates(uids[0]), stored) then FetchEvents(mail, uids[1..], fates, stored) else []
  }

  // A drain from its search on.
  function PendingEvents(searched: bool, mail: Mail, uids: seq<U32>, fates: U32 -> Fate, stored: bool): seq<Event> {
    if !searched then [Fault] else [Search(uids)] + FetchEvents(mail, uids, fates, stored)
  }

  // How the calls of a connect turn out: everything up to SELECT, the SELECT and the
  // upsert of the cursor reset, the upsert of the history skip.
  datatype ConnectFate = ConnectFate(selected: bool, cursorRead: bool, resetWritten: bool, skipWritten: bool, now: int)

  predicate SkipFails(s: State, limit: Option<U32>, f: ConnectFate) {
    SkipsHistory(ResetRow(s.cursor, s.box.validity, f.now).lastUid, limit, s.box.uidNext) && !f.skipWritten
  }

  predicate Boots(s: State, limit: Option<U32>, f: ConnectFate) {
    f.selected && Resets(s.cursor, s.box.validity, f.cursorRead, f.resetWritten) && !SkipFails(s, limit, f)
  }

  function BootEvents(s: State, limit: Option<U32>, f: ConnectFate): seq<Event> {
    if !f.selected then []
    else if !Resets(s.cursor, s.box.validity, f.cursorRead, f.resetWritten) then [Connect] + [Fault]
    else [Connect] + [Reset(f.now)] + [if SkipFails(s, limit, f) then Fault else Bootstrap(limit, f.now)]
  }

  // A connect ends well exactly when none of its calls fails: the SELECT, the read of the
  // row, the upsert of a row that is missing or of another UIDVALIDITY, and the upsert of
  // a start that history is skipped to.
  lemma BootsExactly(s: State, limit: Option<U32>, f: ConnectFate)
    ensures var same := s.cursor.Some? && s.cursor.value.uidValidity == s.box.validity;
      var atZero := !same || s.cursor.value.lastUid == 0;
      var skips := atZero && limit.Some?
        && s.box.uidNext > (if limit.value == U32_MAX then 0 else limit.value + 1);
      (Boots(s, limit, f)
       <==> f.selected && f.cursorRead && (same || f.resetWritten) && (skips ==> f.skipWritten))
  {
  }

  predicate DrainsAll(mail: Mail, uids: seq<U32>, fates: U32 -> Fate, stored: bool) {
    forall u :: u in uids ==> AllWell(mail, u, fates(u), stored)
  }

  lemma DrainsHead(mail: Mail, uids: seq<U32>, fates: U32 -> Fate, stored: bool)
    requires uids != []
    ensures DrainsAll(mail, uids, fates, stored)
         == (AllWell(mail, uids[0], fates(uids[0]), stored) && DrainsAll(mail, uids[1..], fates, stored))
  {
    assert uids == [uids[0]] + uids[1..];
  }

  function CountPublished(handled: seq<Handling>): nat {
    if handled == [] then 0
    else CountPublished(handled[..|handled| - 1]) + if handled[|handled| - 1].kind == Published then 1 else 0
  }

  lemma CountOneMore(handled: seq<Handling>, h: Handling)
    ensures CountPublished(handled + [h]) == CountPublished(handled) + if h.kind == Published then 1 else 0
  {
    assert (handled + [h])[..|handled|] == handled;
  }

  function SaturatingAdd(n: U64, k: nat): U64 {
    if n + k <= U64_MAX then n + k else U64_MAX
  }

  lemma SessionOne(s: State, e: Event)
    requires Enabled(s, e)
    ensures Exec(s, [e]) == Some(After(s, e))
  {
    var one := [e];
    assert one[1..] == [];
  }

  lemma SessionTwo(s: State, e: Event, f: Event)
    requires Enabled(s, e) && Enabled(After(s, e), f)
    ensures Exec(s, [e] + [f]) == Some(After(After(s, e), f))
  {
    SessionOne(s, e);
    SessionOne(After(s, e), f);
    ExecConcat(s, [e], [f]);
  }

  lemma SessionThree(s0: State, s1: State, s2: State, s3: State, e1: Event, e2: Event, e3: Event)
    requires Enabled(s0, e1) && s1 == After(s0, e1)
    requires Enabled(s1, e2) && s2 == After(s1, e2)
    requires Enabled(s2, e3) && s3 == After(s2, e3)
    ensures Exec(s0, [e1] + [e2] + [e3]) == Some(s3)
  {
    SessionTwo(s0, e1, e2);
    SessionOne(s2, e3);
    ExecConcat(s0, [e1] + [e2], [e3]);
  }

  function LastOr(uids: seq<U32>, last: U32): U32 {
    if uids == [] then last else uids[|uids| - 1]
  }

  lemma MembersTail(uids: seq<U32>)
    requires uids != []
    ensures uids[0] in Members(uids) && Members(uids[1..]) <= Members(uids)
    ensures forall last :: LastOr(uids, last) == LastOr(uids[1..], uids[0])
  {
  }

  // The events of one message that was handled.
  lemma MessageRun(s0: State, s1: State, s2: State, mail: Mail, uid: U32, f: Fate, ok: bool)
    requires Delivers(mail, uid, f) && ok == Advances(f, s1.cursor.Some?) && s1.cursor == s0.cursor
    requires Enabled(s0, Handle(f.parsed, f.report)) && s1 == After(s0, Handle(f.parsed, f.report))
    requires Enabled(s1, if ok then Persist(f.clock) else Fault)
    requires s2 == After(s1, if ok then Persist(f.clock) else Fault)
    ensures Exec(s0, MessageEvents(mail, uid, f, s0.cursor.Some?)) == Some(s2)
  {
    SessionTwo(s0, Handle(f.parsed, f.report), if ok then Persist(f.clock) else Fault);
  }

  // And of one that was not.
  lemma LostRun(s: State, mail: Mail, uid: U32, f: Fate)
    requires !Delivers(mail, uid, f) && Enabled(s, Fault)
    ensures Exec(s, MessageEvents(mail, uid, f, s.cursor.Some?)) == Some(Undelivered(s, uid, f))
  {
    if f.expunged {
      SessionTwo(s, Expunge(uid), Fault);
    } else {
      SessionOne(s, Fault);
    }
  }

  ghost function Undelivered(s: State, uid: U32, f: Fate): State
    requires Enabled(s, Fault)
  {
    if f.expunged then After(After(s, Expunge(uid)), Fault) else After(s, Fault)
  }

  // The events of a drain, one message further.
  lemma DrainNext(before: State, after: State, mail: Mail, uids: seq<U32>, fates: U32 -> Fate, stored: bool)
    requires uids != [] && Exec(before, MessageEvents(mail, uids[0], fates(uids[0]), stored)) == Some(after)
    ensures Exec(before, FetchEvents(mail, uids, fates, stored))
         == if AllWell(mail, uids[0], fates(uids[0]), stored)
            then Exec(after, FetchEvents(mail, uids[1..], fates, stored))
            else Some(after)
  {
    var step := MessageEvents(mail, uids[0], fates(uids[0]), stored);
    if AllWell(mail, uids[0], fates(uids[0]), stored) {
      ExecConcat(before, step, FetchEvents(mail, uids[1..], fates, stored));
    } else {
      assert step + [] == step;
    }
  }

  // A drain ends well exactly when none of its calls fails. A bounce or a loop needs no
  // publish, and without a row there is no cursor to write.
  lemma DrainsExactly(mail: Mail, uids: seq<U32>, fates: U32 -> Fate, stored: bool)
    ensures DrainsAll(mail, uids, fates, stored) <==> forall u :: u in uids ==>
      !fates(u).expunged && fates(u).fetched
      && (fates(u).published || (fates(u).parsed && (mail.isBounce(u) || mail.isLoop(u))))
      && fates(u).cursorRead && (!stored || fates(u).cursorWritten)
  {
    assert forall u :: AllWell(mail, u, fates(u), stored) <==>
      !fates(u).expunged && fates(u).fetched
      && (fates(u).published || (fates(u).parsed && (mail.isBounce(u) || mail.isLoop(u))))
      && fates(u).cursorRead && (!stored || fates(u).cursorWritten);
  }

  // `after` is `before` and then one handling of each message, in order.
  ghost predicate HandledInTurn(before: seq<Handling>, uids: seq<U32>, after: seq<Handling>) {
    |after| == |before| + |uids| && after[..|before|] == before
    && forall i :: 0 <= i < |uids| ==> after[|before| + i].uid == uids[i]
  }

  lemma HandledFirst(before: seq<Handling>, next: seq<Handling>, uids: seq<U32>, after: seq<Handling>)
    requires uids != [] && HandledInTurn(before, [uids[0]], next) && HandledInTurn(next, uids[1..], after)
    ensures HandledInTurn(before, uids, after)
  {
    var n := |before|;
    assert next == after[..n + 1];
    assert after[..n] == next[..n];
    assert after[n] == next[n];
    assert next[n + 0].uid == [uids[0]][0];
    forall i | 1 <= i < |uids| ensures after[n + i].uid == uids[i] {
      assert after[|next| + (i - 1)].uid == uids[1..][i - 1];
    }
  }

  // The first message of a drain that ends well, and what it leaves.
  lemma DrainHead(s: State, t: State, mail: Mail, uids: seq<U32>, fates: U32 -> Fate) returns (next: State)
    requires s.phase.Draining? && s.phase.todo == uids != [] && s.cursor.Some?
    requires DrainsAll(mail, uids, fates, true) && Exec(s, FetchEvents(mail, uids, fates, true)) == Some(t)
    ensures DrainsAll(mail, uids[1..], fates, true)
    ensures Exec(next, FetchEvents(mail, uids[1..], fates, true)) == Some(t)
    ensures HandledInTurn(s.handled, [uids[0]], next.handled)
    ensures next.cursor == Some(UidCursor(s.cursor.value.uidValidity, uids[0], fates(uids[0]).clock))
    ensures next.phase == Draining(uids[1..], uids[0])
  {
    var f := fates(uids[0]);
    var one, two := Handle(f.parsed, f.report), Persist(f.clock);
    DrainsHead(mail, uids, fates, true);
    ExecConcat(s, [one] + [two], FetchEvents(mail, uids[1..], fates, true));
    ExecConcat(s, [one], [two]);
    assert [one][1..] == [] && [two][1..] == [];
    next := After(After(s, one), two);
  }

  lemma {:induction false} DrainTakesTurns(s: State, t: State, mail: Mail, uids: seq<U32>, fates: U32 -> Fate)
    requires s.phase.Draining? && s.phase.todo == uids && s.cursor.Some?
    requires DrainsAll(mail, uids, fates, true) && Exec(s, FetchEvents(mail, uids, fates, true)) == Some(t)
    ensures HandledInTurn(s.handled, uids, t.handled)
    decreases |uids|
  {
    if uids == [] {
      SessionOne(s, Drained);
    } else {
      var next := DrainHead(s, t, mail, uids, fates);
      DrainTakesTurns(next, t, mail, uids[1..], fates);
      HandledFirst(s.handled, next.handled, uids, t.handled);
    }
  }

  // A drain that ends well handles each message once, in the order of the search.
  lemma DrainHandlesAll(s: State, t: State, mail: Mail, uids: seq<U32>, fates: U32 -> Fate)
    requires s.phase.Draining? && s.phase.todo == uids && s.cursor.Some?
    requires DrainsAll(mail, uids, fates, true) && Exec(s, FetchEvents(mail, uids, fates, true)) == Some(t)
    ensures |t.handled| == |s.handled| + |uids| && t.handled[..|s.handled|] == s.handled
    ensures forall i :: 0 <= i < |uids| ==> t.handled[|s.handled| + i].uid == uids[i]
  {
    DrainTakesTurns(s, t, mail, uids, fates);
  }

  // And it leaves the cursor at the last of them, under the UIDVALIDITY it had.
  lemma {:induction false} DrainMovesCursor(s: State, t: State, mail: Mail, uids: seq<U32>, fates: U32 -> Fate)
    requires s.phase.Draining? && s.phase.todo == uids && s.cursor.Some?
    requires DrainsAll(mail, uids, fates, true) && Exec(s, FetchEvents(mail, uids, fates, true)) == Some(t)
    ensures uids == [] ==> t.cursor == s.cursor && t.phase == Ready(s.phase.highest)
    ensures uids != [] ==>
      var last := uids[|uids| - 1];
      t.cursor == Some(UidCursor(s.cursor.value.uidValidity, last, fates(last).clock)) && t.phase == Ready(last)
    decreases |uids|
  {
    if uids == [] {
      SessionOne(s, Drained);
    } else {
      var next := DrainHead(s, t, mail, uids, fates);
      DrainMovesCursor(next, t, mail, uids[1..], fates);
    }
  }

  // parse_bounce first, should_skip second, and both only for what parses.
  method KindOf(mail: Mail, uid: U32, parsed: bool, report: Report) returns (kind: Kind)
    ensures kind == Classify(mail, uid, parsed, report)
    ensures kind.Bounced? <==> parsed && mail.isBounce(uid)
    ensures kind.LoopSkipped? <==> parsed && !mail.isBounce(uid) && mail.isLoop(uid)
    ensures kind.Bounced? ==> kind.report == report
  {
    if parsed {
      if mail.isBounce(uid) {
        return Bounced(report);
      }
      if mail.isLoop(uid) {
        return LoopSkipped;
      }
    }
    return Published;
  }

  class AccountWorker {
    const instance: string
    const store: CursorStore
    const bootstrapLimit: Option<U32>
    // What became of each message, oldest first.
    var handled: seq<Handling>
    var messagesSeen: U64
    ghost var box: Mailbox
    ghost var phase: Phase
    ghost var start: U32
    ghost var skips: nat
    ghost var faults: nat
    ghost var found: set<U32>
    ghost var passed: set<U32>
    ghost var joined: Option<U32>

    constructor (instance: string, store: CursorStore, bootstrapLimit: Option<U32>, ghost box: Mailbox)
      ensures this.instance == instance && this.store == store && this.bootstrapLimit == bootstrapLimit
      ensures Now() == State(box, store.Row(instance), Down, [], 0, 0, 0, {}, {}, None) && Counted()
    {
      this.instance, this.store, this.bootstrapLimit := instance, store, bootstrapLimit;
      handled, messagesSeen := [], 0;
      this.box, phase, start, skips, faults := box, Down, 0, 0, 0;
      found, passed, joined := {}, {}, None;
    }

    ghost function Now(): State
      reads this, store
    {
      State(box, store.Row(instance), phase, handled, start, skips, faults, found, passed, joined)
    }

    // The health counter counts the published messages, up to its width.
    ghost predicate Counted()
      reads this
    {
      messagesSeen == SaturatingAdd(0, CountPublished(handled))
    }

    // Rows of the other accounts in the shared table.
    ghost predicate SameOthers(before: map<string, UidCursor>)
      reads store
    {
      forall a :: a != instance ==> (a in store.rows <==> a in before) && (a in before ==> store.rows[a] == before[a])
    }

    // One more message was handled, this one.
    ghost predicate Done(before: seq<Handling>, uid: U32)
      reads this
    {
      |handled| == |before| + 1 && handled[..|before|] == before && handled[|before|].uid == uid
    }

    // One message, up to the point where the cursor may move behind it.
    method HandleOne(uid: U32, mail: Mail, f: Fate)
      requires phase.Draining? && phase.todo != [] && phase.todo[0] == uid && uid in box.present
      requires box.mail == mail && Delivers(mail, uid, f) && Counted()
      modifies this`handled, this`messagesSeen, this`phase
      ensures Now() == After(old(Now()), Handle(f.parsed, f.report)) && Counted()
      ensures phase == Persisting(uid, old(phase.todo)[1..], old(phase.highest))
      // A bounce becomes a bounce event, a loop nothing, and all else is published and counted.
      ensures |handled| == |old(handled)| + 1 && handled[..|old(handled)|] == old(handled)
      ensures var h := handled[|old(handled)|];
        h.uid == uid && h.parsed == f.parsed && h.report == f.report
        && h.kind == if f.parsed && mail.isBounce(uid) then Bounced(f.report)
                     else if f.parsed && mail.isLoop(uid) then LoopSkipped
                     else Published
      ensures messagesSeen
           == if (!f.parsed || (!mail.isBounce(uid) && !mail.isLoop(uid))) && old(messagesSeen) < U64_MAX
              then old(messagesSeen) + 1 else old(messagesSeen)
    {
      var kind := KindOf(mail, uid, f.parsed, f.report);
      var h := Handling(uid, f.parsed, f.report, kind);
      CountOneMore(handled, h);
      handled := handled + [h];
      if kind == Published {
        messagesSeen := SaturatingAdd(messagesSeen, 1);
      }
      phase := Persisting(uid, phase.todo[1..], phase.highest);
    }

    // The cursor write behind it: the row is read for its uid_validity.
    method PersistOne(uid: U32, clock: int)
      requires phase.Persisting? && phase.uid == uid
      modifies this`phase, this`passed, store
      ensures Now() == After(old(Now()), Persist(clock))
      ensures old(store.Row(instance)).Some? ==>
        store.Row(instance) == Some(UidCursor(old(store.Row(instance)).value.uidValidity, uid, clock))
      ensures phase == Draining(old(phase.todo), uid)
      ensures store.Row(instance).Some? <==> old(store.Row(instance)).Some?
      ensures forall u :: u in passed <==> u in old(passed) || (u in found && u <= uid)
      ensures SameOthers(old(store.rows))
    {
      var existing := store.Get(instance);
      if existing.Some? {
        store.Set(instance, UidCursor(existing.value.uidValidity, uid, clock));
      }
      phase := Draining(phase.todo, uid);
      passed := passed + UpTo(found, uid);
    }

    // The ? operator: the session is over, run() will reconnect.
    ghost method FaultHere()
      requires !phase.Down?
      modifies this`phase, this`faults
      ensures Now() == After(old(Now()), Fault) && faults == old(faults) + 1
    {
      phase := Down;
      faults := faults + 1;
    }

    // Another client removes a message.
    ghost method ExpungeHere(uid: U32)
      modifies this`box
      ensures Now() == After(old(Now()), Expunge(uid))
    {
      box := box.(present := box.present - {uid});
    }

    // Behind the handling: the cursor moves, unless reading or writing it fails.
    method AdvanceOne(uid: U32, f: Fate) returns (ok: bool)
      requires phase.Persisting? && phase.uid == uid
      modifies this`phase, this`passed, this`faults, store
      ensures ok == Advances(f, old(Now()).cursor.Some?)
      ensures ok <==> f.cursorRead && (old(store.Row(instance)).None? || f.cursorWritten)
      ensures store.Row(instance)
           == if ok && old(store.Row(instance)).Some?
              then Some(UidCursor(old(store.Row(instance)).value.uidValidity, uid, f.clock))
              else old(store.Row(instance))
      ensures Now() == After(old(Now()), if ok then Persist(f.clock) else Fault)
      ensures ok ==> phase == Draining(old(phase.todo), uid)
      ensures Now().cursor.Some? == old(Now()).cursor.Some?
      ensures SameOthers(old(store.rows))
    {
      var row := store.Get(instance);
      if !f.cursorRead || (row.Some? && !f.cursorWritten) {
        FaultHere();
        return false;
      }
      PersistOne(uid, f.clock);
      return true;
    }

    // Fetch, parse and publish; false when the fetch or the publish failed.
    method DeliverOne(uid: U32, mail: Mail, f: Fate) returns (ok: bool)
      requires phase.Draining? && phase.todo != [] && phase.todo[0] == uid && uid in box.present
      requires box.mail == mail && Counted()
      modifies this`handled, this`messagesSeen, this`phase, this`faults, this`box
      ensures ok == Delivers(mail, uid, f) && Counted()
      ensures ok <==> !f.expunged && f.fetched
                      && (f.published || (f.parsed && (mail.isBounce(uid) || mail.isLoop(uid))))
      ensures !ok ==> handled == old(handled) && messagesSeen == old(messagesSeen) && phase.Down?
      ensures Now() == if ok then After(old(Now()), Handle(f.parsed, f.report)) else Undelivered(old(Now()), uid, f)
      ensures ok ==> box == old(box)
      ensures ok ==> phase == Persisting(uid, old(phase.todo)[1..], old(phase.highest))
    {
      if f.expunged {
        ExpungeHere(uid);
        FaultHere();
        return false;
      }
      if !f.fetched {
        FaultHere();
        return false;
      }
      var kind := KindOf(mail, uid, f.parsed, f.report);
      if kind == Published && !f.published {
        FaultHere();
        return false;
      }
      HandleOne(uid, mail, f);
      return true;
    }

    // One turn of the drain loop; false when a call failed.
    method DrainOne(uid: U32, mail: Mail, f: Fate) returns (ok: bool)
      requires phase.Draining? && phase.todo != [] && phase.todo[0] == uid && uid in box.present
      requires box.mail == mail && Counted()
      modifies this`handled, this`messagesSeen, this`phase, this`passed, this`faults, this`box, store
      ensures ok == AllWell(mail, uid, f, old(Now()).cursor.Some?)
      ensures ok ==> phase == Draining(old(phase.todo)[1..], uid) && box == old(box)
      ensures ok ==> Done(old(handled), uid)
      ensures ok && old(store.Row(instance)).Some? ==>
        store.Row(instance) == Some(UidCursor(old(store.Row(instance)).value.uidValidity, uid, f.clock))
      ensures Now().cursor.Some? == old(Now()).cursor.Some? && Counted()
      ensures Exec(old(Now()), MessageEvents(mail, uid, f, old(Now()).cursor.Some?)) == Some(Now())
      ensures SameOthers(old(store.rows))
    {
      ghost var s0 := Now();
      var delivered := DeliverOne(uid, mail, f);
      ghost var s1 := Now();
      if !delivered {
        LostRun(s0, mail, uid, f);
        return false;
      }
      ok := AdvanceOne(uid, f);
      MessageRun(s0, s1, Now(), mail, uid, f, ok);
    }

    ghost method FinishDrain()
      requires phase.Draining? && phase.todo == []
      modifies this`phase
      ensures Exec(old(Now()), [Drained]) == Some(Now()) && phase == Ready(old(phase.highest))
    {
      var before := Now();
      phase := Ready(phase.highest);
      assert Now() == After(before, Drained);
      SessionOne(before, Drained);
    }

    // One turn, seen from what is left to do.
    method DrainTurn(rest: seq<U32>, mail: Mail, fates: U32 -> Fate) returns (ok: bool)
      requires phase.Draining? && phase.todo == rest != [] && rest[0] in box.present
      requires box.mail == mail && Counted()
      modifies this`handled, this`messagesSeen, this`phase, this`passed, this`faults, this`box, store
      ensures var stored := old(Now()).cursor.Some?;
        Exec(old(Now()), FetchEvents(mail, rest, fates, stored))
        == (if ok then Exec(Now(), FetchEvents(mail, rest[1..], fates, stored)) else Some(Now()))
        && DrainsAll(mail, rest, fates, stored) == (ok && DrainsAll(mail, rest[1..], fates, stored))
        && Now().cursor.Some? == stored
      ensures ok ==> phase == Draining(rest[1..], rest[0]) && box == old(box)
      ensures ok ==> Done(old(handled), rest[0])
      ensures ok && old(store.Row(instance)).Some? ==>
        store.Row(instance)
        == Some(UidCursor(old(store.Row(instance)).value.uidValidity, rest[0], fates(rest[0]).clock))
      ensures Counted() && SameOthers(old(store.rows))
    {
      ghost var before := Now();
      ok := DrainOne(rest[0], mail, fates(rest[0]));
      DrainsHead(mail, rest, fates, before.cursor.Some?);
      DrainNext(before, Now(), mail, rest, fates, before.cursor.Some?);
    }

    // The loop of drain_pending.
    method DrainAll(uids: seq<U32>, lastUid: U32, mail: Mail, fates: U32 -> Fate)
      returns (r: Result<U32, SessionError>)
      requires phase == Draining(uids, lastUid) && box.mail == mail && Counted()
      requires Members(uids) <= box.present
      modifies this`handled, this`messagesSeen, this`phase, this`passed, this`faults, this`box, store
      ensures Exec(old(Now()), FetchEvents(mail, uids, fates, old(Now()).cursor.Some?)) == Some(Now())
      ensures r == if DrainsAll(mail, uids, fates, old(Now()).cursor.Some?)
                   then Ok(LastOr(uids, lastUid)) else Err(SessionFailed)
      ensures r.Ok? ==> phase == Ready(r.value)
      ensures Counted() && SameOthers(old(store.rows))
    {
      ghost var s0 := Now();
      ghost var stored := s0.cursor.Some?;
      var highest, rest := lastUid, uids;
      while rest != []
        invariant stored == Now().cursor.Some? && Counted()
        invariant phase == Draining(rest, highest) && box == old(box) && Members(rest) <= box.present
        invariant Exec(s0, FetchEvents(mail, uids, fates, stored))
               == Exec(Now(), FetchEvents(mail, rest, fates, stored))
        invariant DrainsAll(mail, uids, fates, stored) == DrainsAll(mail, rest, fates, stored)
        invariant LastOr(uids, lastUid) == LastOr(rest, highest)
        invariant SameOthers(old(store.rows))
        decreases |rest|
      {
        MembersTail(rest);
        var ok := DrainTurn(rest, mail, fates);
        if !ok {
          return Err(SessionFailed);
        }
        highest, rest := rest[0], rest[1..];
      }
      FinishDrain();
      return Ok(highest);
    }

    // drain_pending: every UID above lastUid, in the order search_since gave them.
    // searched: whether the search itself works.
    method DrainPending(searched: bool, uids: seq<U32>, lastUid: U32, mail: Mail, fates: U32 -> Fate)
      returns (r: Result<U32, SessionError>)
      requires phase == Ready(lastUid) && (searched ==> IsSearchResult(uids, box.present, lastUid))
      requires box.mail == mail && Counted()
      modifies this, store
      ensures Exec(old(Now()), PendingEvents(searched, mail, uids, fates, old(Now()).cursor.Some?)) == Some(Now())
      ensures r == if searched && DrainsAll(mail, uids, fates, old(Now()).cursor.Some?)
                   then Ok(LastOr(uids, lastUid)) else Err(SessionFailed)
      ensures r.Ok? ==> phase == Ready(r.value)
      ensures Counted() && SameOthers(old(store.rows))
    {
      ghost var s0 := Now();
      if !searched {
        FaultHere();
        SessionOne(s0, Fault);
        return Err(SessionFailed);
      }
      phase := Draining(uids, lastUid);
      found := Members(uids);
      assert Now() == After(s0, Search(uids));
      SessionOne(s0, Search(uids));
      r := DrainAll(uids, lastUid, mail, fates);
      ExecConcat(s0, [Search(uids)], FetchEvents(mail, uids, fates, s0.cursor.Some?));
    }

    // SELECT reports the mailbox, and the cursor is reset if it belongs to another
    // UIDVALIDITY.
    method ResetCursor(validity: U32, f: ConnectFate) returns (r: Result<U32, SessionError>)
      requires phase.Selected? && validity == box.validity
      modifies this`phase, this`faults, store
      ensures var s := old(Now());
        if Resets(s.cursor, validity, f.cursorRead, f.resetWritten)
        then r == Ok(ResetRow(s.cursor, validity, f.now).lastUid) && Now() == After(s, Reset(f.now))
        else r == Err(SessionFailed) && Now() == After(s, Fault)
      ensures var row := old(store.Row(instance));
        var same := row.Some? && row.value.uidValidity == validity;
        (r.Ok? <==> f.cursorRead && (same || f.resetWritten))
        && (r.Ok? ==> store.Row(instance) == Some(if same then row.value else UidCursor(validity, 0, f.now)))
      ensures SameOthers(old(store.rows))
    {
      var reset := store.ResetIfValidityChanged(instance, validity, f.now, f.cursorRead, f.resetWritten);
      if reset.Err? {
        FaultHere();
        return Err(SessionFailed);
      }
      phase := Booting(reset.value.lastUid, phase.uidNext);
      return Ok(reset.value.lastUid);
    }

    // A fresh cursor may skip history.
    method Skip(validity: U32, uidNext: U32, last: U32, f: ConnectFate) returns (r: Result<U32, SessionError>)
      requires phase == Booting(last, uidNext) && validity == box.validity
      modifies this`phase, this`faults, this`start, this`skips, store
      ensures var s := old(Now());
        if SkipsHistory(last, bootstrapLimit, uidNext) && !f.skipWritten
        then r == Err(SessionFailed) && Now() == After(s, Fault)
        else r == Ok(StartUid(last, bootstrapLimit, uidNext)) && Now() == After(s, Bootstrap(bootstrapLimit, f.now))
      ensures r.Ok? && r.value == last ==> store.Row(instance) == old(store.Row(instance))
      ensures r.Ok? && r.value != last ==> store.Row(instance) == Some(UidCursor(validity, r.value, f.now))
      ensures SameOthers(old(store.rows))
    {
      var lastUid := last;
      if lastUid == 0 && bootstrapLimit.Some? && uidNext > LimitPlusOne(bootstrapLimit.value) {
        lastUid := uidNext - LimitPlusOne(bootstrapLimit.value);
        if !f.skipWritten {
          FaultHere();
          return Err(SessionFailed);
        }
        store.Set(instance, UidCursor(validity, lastUid, f.now));
        start := lastUid;
        skips := skips + 1;
      }
      phase := Ready(lastUid);
      return Ok(lastUid);
    }

    // connect_select_and_loop up to the first drain.
    method ConnectAndBootstrap(validity: U32, uidNext: U32, f: ConnectFate) returns (r: Result<U32, SessionError>)
      requires phase.Down? && validity == box.validity && uidNext == box.uidNext
      modifies this, store
      ensures Exec(old(Now()), BootEvents(old(Now()), bootstrapLimit, f)) == Some(Now())
      ensures r == if Boots(old(Now()), bootstrapLimit, f)
                   then Ok(StartUid(ResetRow(old(Now()).cursor, validity, f.now).lastUid, bootstrapLimit, uidNext))
                   else Err(SessionFailed)
      ensures r.Ok? ==> phase == Ready(r.value)
      ensures handled == old(handled) && box == old(box)
      ensures SameOthers(old(store.rows))
    {
      ghost var s0 := Now();
      if !f.selected {
        return Err(SessionFailed);
      }
      phase := Selected(uidNext);
      joined := if joined.Some? then joined else Some(uidNext);
      ghost var s1 := Now();
      assert s1 == After(s0, Connect);
      var reset := ResetCursor(validity, f);
      if reset.Err? {
        SessionTwo(s0, Connect, Fault);
        return Err(SessionFailed);
      }
      ghost var s2 := Now();
      r := Skip(validity, uidNext, reset.value, f);
      SessionThree(s0, s1, s2, Now(), Connect, Reset(f.now), if r.Ok? then Bootstrap(bootstrapLimit, f.now) else Fault);
    }
  }
}
