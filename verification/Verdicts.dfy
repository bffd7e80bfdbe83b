// What decides the fate of a job: the replies its sends got. Counted over runs of the
// outbound worker without faults.
module Verdicts {
  import opened Wrappers
  import opened QueueLog
  import opened Dispatcher
  import opened DispatcherRuns
  import opened DlqOrder
  import opened OutboundTheorems

  datatype ReplyClass = Accepted | Refused | TryLater

  function ClassOf(reply: SmtpReply): ReplyClass {
    match reply
    case Delivered => Accepted
    case Permanent(_, _) => Refused
    case Transient(_, _) => TryLater
    case NetworkError(_) => TryLater
  }

  // Replies of a class among those the jobs of the id got.
  function Heard(replies: seq<Resolution>, id: string, c: ReplyClass): nat {
    if replies == [] then 0
    else
      var last := replies[|replies| - 1];
      Heard(replies[..|replies| - 1], id, c)
      + if last.job.messageId == id && ClassOf(last.reply) == c then 1 else 0
  }

  // The reply that is in but not handled yet.
  function InHand(s: State, id: string, c: ReplyClass): nat {
    if s.phase.Deciding? && s.phase.job.messageId == id && ClassOf(s.phase.reply) == c then 1 else 0
  }

  function Handled(s: State, id: string, c: ReplyClass): int {
    Heard(s.h.resolutions, id, c) - InHand(s, id, c)
  }

  // The account of one id: how often it was acknowledged as sent and condemned, which
  // replies were handled, the attempts of its live row, and whether it was accepted.
  datatype Tab = Tab(
    sent: int, condemned: int, accepted: int, refused: int, later: int, attempts: Option<int>, known: bool)

  function TabOf(s: State, id: string): Tab {
    Tab(Tally(AllAcks(s), id, Sent), Count(s.h.condemned, id),
        Handled(s, id, Accepted), Handled(s, id, Refused), Handled(s, id, TryLater),
        if id in LiveJobs(s) then Some(LiveJobs(s)[id].attempts) else None,
        id in s.h.accepted)
  }

  function Fifth(later: int): int {
    if later == 5 then 1 else 0
  }

  // The replies account for what became of it.
  predicate Adds(t: Tab) {
    t.sent == t.accepted && t.condemned == t.refused + Fifth(t.later)
    && match t.attempts
       case Some(n) => t.accepted == 0 && t.refused == 0 && t.later == n
       case None =>
         0 <= t.later <= 5 && (!t.known ==> t.later == 0)
         && t.accepted + t.refused + Fifth(t.later) == (if t.known then 1 else 0)
  }

  ghost predicate VerdictLedger(s: State, id: string) {
    s.h.faults == 0 ==> Adds(TabOf(s, id))
  }

  // What one reply adds to the account of the job that got it.
  function Settled(t: Tab, c: ReplyClass, attempts: int): Tab {
    match c
    case Accepted => t.(sent := t.sent + 1, accepted := t.accepted + 1, attempts := None)
    case Refused => t.(condemned := t.condemned + 1, refused := t.refused + 1, attempts := None)
    case TryLater =>
      if attempts < 4 then t.(later := t.later + 1, attempts := Some(attempts + 1))
      else t.(condemned := t.condemned + 1, later := t.later + 1, attempts := None)
  }

  lemma SettledAdds(t: Tab, c: ReplyClass, attempts: int)
    requires Adds(t) && t.known && t.attempts == Some(attempts) && 0 <= attempts <= 4
    ensures Adds(Settled(t, c, attempts))
  {
  }

  lemma HeardMore(replies: seq<Resolution>, r: Resolution, id: string, c: ReplyClass)
    ensures Heard(replies + [r], id, c)
         == Heard(replies, id, c) + if r.job.messageId == id && ClassOf(r.reply) == c then 1 else 0
  {
    assert (replies + [r])[..|replies|] == replies;
  }

  // A reply comes in, and is in hand.
  lemma ReplyKeeps(s: State, e: Event, id: string, c: ReplyClass)
    requires Enabled(s, e) && e.Reply?
    ensures Handled(After(s, e), id, c) == Handled(s, id, c)
  {
    HeardMore(s.h.resolutions, Resolution(s.phase.job, e.reply), id, c);
  }

  // Handling an outcome is handling the reply in hand.
  lemma SettleHandles(s: State, e: Event, id: string, c: ReplyClass)
    requires Enabled(s, e) && e.Settle?
    ensures Handled(After(s, e), id, c)
         == Handled(s, id, c) + if s.phase.job.messageId == id && ClassOf(s.phase.reply) == c then 1 else 0
  {
  }

  // Which verdict a reply leads to.
  lemma SettleOwn(s: State, e: Event)
    requires Enabled(s, e) && Structure(s) && e.Settle?
    ensures var v := Decide(s.phase.job, s.phase.reply, e.retryAt);
      var c := ClassOf(s.phase.reply);
      (v.Finish? <==> c == Accepted)
      && (v.Retry? <==> c == TryLater && s.phase.job.attempts < 4)
      && s.phase.job.attempts <= 4
  {
    SettledLive(s, e);
  }

  // Handling an outcome leaves the account of every other id as it is.
  lemma SettleOther(s: State, e: Event, id: string)
    requires Enabled(s, e) && Structure(s) && e.Settle? && id != s.phase.job.messageId
    ensures TabOf(After(s, e), id) == TabOf(s, id)
  {
    SettleHandles(s, e, id, Accepted);
    SettleHandles(s, e, id, Refused);
    SettleHandles(s, e, id, TryLater);
    SettleAck(s, e);
    SettleTally(s, e, id);
    SettleCondemns(s, e, id);
    SettledLive(s, e);
    StepLive(s, e);
  }

  // What it makes of the live row.
  lemma SettleRow(s: State, e: Event)
    requires Enabled(s, e) && Structure(s) && e.Settle?
    ensures var id, live' := s.phase.job.messageId, LiveJobs(After(s, e));
      id in LiveJobs(s) && LiveJobs(s)[id] == s.phase.job && id in s.h.accepted
      && (id in live' <==> Decide(s.phase.job, s.phase.reply, e.retryAt).Retry?)
      && (id in live' ==> live'[id].attempts == s.phase.job.attempts + 1)
  {
    SettledLive(s, e);
    StepLive(s, e);
    assert s.phase.job.messageId in Fold(s.rows);
  }

  lemma SettleCounts(s: State, e: Event)
    requires Enabled(s, e) && Structure(s) && e.Settle?
    ensures var s', id := After(s, e), s.phase.job.messageId;
      var verdict := Decide(s.phase.job, s.phase.reply, e.retryAt);
      Tally(AllAcks(s'), id, Sent) == Tally(AllAcks(s), id, Sent) + (if verdict.Finish? then 1 else 0)
      && Count(s'.h.condemned, id) == Count(s.h.condemned, id) + (if verdict.GiveUp? then 1 else 0)
      && s'.h.accepted == s.h.accepted
  {
    SettleAck(s, e);
    SettleTally(s, e, s.phase.job.messageId);
    SettleCondemns(s, e, s.phase.job.messageId);
  }

  // The counts of replies in the account of the job itself ...
  lemma SelfReplies(s: State, e: Event, t: Tab, t': Tab)
    requires Enabled(s, e) && e.Settle?
    requires t == TabOf(s, s.phase.job.messageId) && t' == TabOf(After(s, e), s.phase.job.messageId)
    ensures var c := ClassOf(s.phase.reply);
      t'.accepted == t.accepted + (if c == Accepted then 1 else 0)
      && t'.refused == t.refused + (if c == Refused then 1 else 0)
      && t'.later == t.later + (if c == TryLater then 1 else 0)
  {
    SettleReplies(s, e);
  }

  // ... the counts of outcomes ...
  lemma SelfOutcomes(s: State, e: Event, t: Tab, t': Tab)
    requires Enabled(s, e) && Structure(s) && e.Settle?
    requires t == TabOf(s, s.phase.job.messageId) && t' == TabOf(After(s, e), s.phase.job.messageId)
    ensures var verdict := Decide(s.phase.job, s.phase.reply, e.retryAt);
      t'.sent == t.sent + (if verdict.Finish? then 1 else 0)
      && t'.condemned == t.condemned + (if verdict.GiveUp? then 1 else 0)
      && t'.known == t.known
  {
    SettleCounts(s, e);
  }

  // ... and the attempts of its row.
  lemma SelfRow(s: State, e: Event, t: Tab, t': Tab)
    requires Enabled(s, e) && Structure(s) && e.Settle?
    requires t == TabOf(s, s.phase.job.messageId) && t' == TabOf(After(s, e), s.phase.job.messageId)
    ensures var verdict := Decide(s.phase.job, s.phase.reply, e.retryAt);
      t'.attempts == (if verdict.Retry? then Some(s.phase.job.attempts + 1) else None)
  {
    SettleRow(s, e);
  }

  // The same, entry by entry.
  ghost predicate Entered(t: Tab, t': Tab, c: ReplyClass, attempts: int, verdict: Verdict) {
    (verdict.Finish? <==> c == Accepted)
    && (verdict.Retry? <==> c == TryLater && attempts < 4)
    && t'.accepted == t.accepted + (if c == Accepted then 1 else 0)
    && t'.refused == t.refused + (if c == Refused then 1 else 0)
    && t'.later == t.later + (if c == TryLater then 1 else 0)
    && t'.sent == t.sent + (if verdict.Finish? then 1 else 0)
    && t'.condemned == t.condemned + (if verdict.GiveUp? then 1 else 0)
    && t'.attempts == (if verdict.Retry? then Some(attempts + 1) else None) && t'.known == t.known
  }

  lemma EnteredSettles(t: Tab, t': Tab, c: ReplyClass, attempts: int, verdict: Verdict)
    requires Entered(t, t', c, attempts, verdict)
    ensures t' == Settled(t, c, attempts)
  {
  }

  lemma SettleEnters(s: State, e: Event, t: Tab, t': Tab, c: ReplyClass, verdict: Verdict)
    requires Enabled(s, e) && Structure(s) && e.Settle?
    requires t == TabOf(s, s.phase.job.messageId) && t' == TabOf(After(s, e), s.phase.job.messageId)
    requires c == ClassOf(s.phase.reply) && verdict == Decide(s.phase.job, s.phase.reply, e.retryAt)
    ensures Entered(t, t', c, s.phase.job.attempts, verdict)
  {
    SelfReplies(s, e, t, t');
    SelfOutcomes(s, e, t, t');
    SelfRow(s, e, t, t');
    SettleOwn(s, e);
  }

  lemma SettleSelf(s: State, e: Event)
    requires Enabled(s, e) && Structure(s) && e.Settle?
    ensures var id := s.phase.job.messageId;
      TabOf(After(s, e), id) == Settled(TabOf(s, id), ClassOf(s.phase.reply), s.phase.job.attempts)
  {
    var t, t' := TabOf(s, s.phase.job.messageId), TabOf(After(s, e), s.phase.job.messageId);
    var c, verdict := ClassOf(s.phase.reply), Decide(s.phase.job, s.phase.reply, e.retryAt);
    SettleEnters(s, e, t, t', c, verdict);
    EnteredSettles(t, t', c, s.phase.job.attempts, verdict);
  }

  lemma SettleReplies(s: State, e: Event)
    requires Enabled(s, e) && e.Settle?
    ensures var s', id, c := After(s, e), s.phase.job.messageId, ClassOf(s.phase.reply);
      Handled(s', id, Accepted) == Handled(s, id, Accepted) + (if c == Accepted then 1 else 0)
      && Handled(s', id, Refused) == Handled(s, id, Refused) + (if c == Refused then 1 else 0)
      && Handled(s', id, TryLater) == Handled(s, id, TryLater) + (if c == TryLater then 1 else 0)
  {
    SettleHandles(s, e, s.phase.job.messageId, Accepted);
    SettleHandles(s, e, s.phase.job.messageId, Refused);
    SettleHandles(s, e, s.phase.job.messageId, TryLater);
  }

  lemma SettleVerdict(s: State, e: Event, id: string)
    requires Enabled(s, e) && Structure(s) && VerdictLedger(s, id) && e.Settle?
    ensures VerdictLedger(After(s, e), id)
  {
    assert After(s, e).h.faults == s.h.faults;
    if id == s.phase.job.messageId {
      SettleRow(s, e);
      SettleSelf(s, e);
      SettleOwn(s, e);
      if s.h.faults == 0 {
        SettledAdds(TabOf(s, id), ClassOf(s.phase.reply), s.phase.job.attempts);
      }
    } else {
      SettleOther(s, e, id);
    }
  }

  lemma VerdictStep(s: State, e: Event, id: string)
    requires Enabled(s, e) && Structure(s) && VerdictLedger(s, id)
    ensures VerdictLedger(After(s, e), id)
  {
    if e.Settle? {
      SettleVerdict(s, e, id);
    } else if e.Accept? {
      AcceptVerdict(s, e, id);
    } else if e.Reply? {
      ReplyVerdict(s, e, id);
    } else if !e.IoError? && !e.Crash? {
      PlainVerdict(s, e, id);
    }
  }

  lemma ReplyVerdict(s: State, e: Event, id: string)
    requires Enabled(s, e) && e.Reply?
    ensures TabOf(After(s, e), id) == TabOf(s, id)
  {
    StepLive(s, e);
    StepAcks(s, e);
    ReplyKeeps(s, e, id, Accepted);
    ReplyKeeps(s, e, id, Refused);
    ReplyKeeps(s, e, id, TryLater);
  }

  // A new job opens an account.
  lemma AcceptVerdict(s: State, e: Event, id: string)
    requires Enabled(s, e) && Structure(s) && VerdictLedger(s, id) && e.Accept?
    ensures VerdictLedger(After(s, e), id)
  {
    AcceptTab(s, e, id);
    assert id in LiveJobs(s) ==> id in Fold(s.rows);
    assert After(s, e).h.faults == s.h.faults;
  }

  lemma AcceptReplies(s: State, e: Event, id: string, c: ReplyClass)
    requires Enabled(s, e) && e.Accept?
    ensures Handled(After(s, e), id, c) == Handled(s, id, c)
  {
    assert After(s, e).phase == s.phase && After(s, e).h.resolutions == s.h.resolutions;
  }

  lemma AcceptRow(s: State, e: Event, id: string)
    requires Enabled(s, e) && e.Accept?
    ensures LiveJobs(After(s, e)) == LiveJobs(s)[e.job.messageId := e.job]
    ensures After(s, e).h.accepted == s.h.accepted + [e.job.messageId]
    ensures id in After(s, e).h.accepted <==> id in s.h.accepted || id == e.job.messageId
  {
    StepLive(s, e);
  }

  lemma AcceptTab(s: State, e: Event, id: string)
    requires Enabled(s, e) && e.Accept?
    ensures TabOf(After(s, e), id)
         == if id == e.job.messageId then TabOf(s, id).(attempts := Some(0), known := true) else TabOf(s, id)
  {
    AcceptRow(s, e, id);
    StepAcks(s, e);
    AcceptReplies(s, e, id, Accepted);
    AcceptReplies(s, e, id, Refused);
    AcceptReplies(s, e, id, TryLater);
  }

  // No other step without a fault touches one.
  lemma PlainVerdict(s: State, e: Event, id: string)
    requires Enabled(s, e) && !e.Settle? && !e.Reply? && !e.Accept? && !e.IoError? && !e.Crash?
    ensures TabOf(After(s, e), id) == TabOf(s, id)
  {
    StepLive(s, e);
    StepAcks(s, e);
  }

  lemma {:induction false} VerdictExec(s: State, events: seq<Event>, id: string)
    requires Inv(s) && VerdictLedger(s, id) && Exec(s, events).Some?
    ensures VerdictLedger(Exec(s, events).value, id)
    decreases |events|
  {
    if events != [] {
      InvStep(s, events[0]);
      VerdictStep(s, events[0], id);
      VerdictExec(After(s, events[0]), events[1..], id);
    }
  }

  // Without faults and between ticks, the replies alone decide: an id counts as sent
  // once for each acceptance it got, it failed exactly when it was refused for good or
  // put off five times, and as long as it is live it was only ever put off, as often as
  // its row says and fewer than five times.
  lemma RepliesDecide(s: State, id: string)
    requires Reachable(s) && s.h.faults == 0 && s.phase.Idle?
    ensures Tally(s.acks, id, Sent) == Heard(s.h.resolutions, id, Accepted) <= 1
    ensures id in s.h.condemned
       <==> (Heard(s.h.resolutions, id, Refused) > 0 || Heard(s.h.resolutions, id, TryLater) == 5)
    ensures id in LiveJobs(s) ==>
      Heard(s.h.resolutions, id, Accepted) == 0 && Heard(s.h.resolutions, id, Refused) == 0
      && Heard(s.h.resolutions, id, TryLater) == LiveJobs(s)[id].attempts < 5
  {
    VerdictReachable(s, id);
    IdleTab(s, id);
    Shape(s);
    CountMember(s.h.condemned, id);
  }

  lemma VerdictInit(id: string)
    ensures VerdictLedger(Init(), id)
  {
    assert LiveJobs(Init()) == map[];
  }

  lemma VerdictReachable(s: State, id: string)
    requires Reachable(s)
    ensures VerdictLedger(s, id)
  {
    var s0, events := RunTo(s, id);
    VerdictExec(s0, events, id);
  }

  lemma RunTo(s: State, id: string) returns (s0: State, events: seq<Event>)
    requires Reachable(s)
    ensures Inv(s0) && VerdictLedger(s0, id) && Exec(s0, events) == Some(s)
  {
    s0 := Init();
    InvInit();
    VerdictInit(id);
    events :| Exec(Init(), events) == Some(s);
  }

  // Between ticks nothing is promised and no reply is in hand.
  lemma IdleTab(s: State, id: string)
    requires s.phase.Idle?
    ensures TabOf(s, id).sent == Tally(s.acks, id, Sent)
    ensures TabOf(s, id).accepted == Heard(s.h.resolutions, id, Accepted)
    ensures TabOf(s, id).refused == Heard(s.h.resolutions, id, Refused)
    ensures TabOf(s, id).later == Heard(s.h.resolutions, id, TryLater)
  {
    assert s.acks + [] == s.acks;
  }
}
