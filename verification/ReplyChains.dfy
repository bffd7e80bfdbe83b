// The thread root along chains of replies built by enrich_reply_threading of
// src/threading.rs, of any length and through any number of truncations.
module ReplyChains {
  import opened Wrappers
  import opened Text
  import opened Threading

  class OutboundCommand {
    const to: seq<string>
    const subject: string
    var inReplyTo: Option<string>
    var references: seq<string>

    constructor (to: seq<string>, subject: string)
      ensures inReplyTo == None && references == []
    {
      this.to, this.subject := to, subject;
      inReplyTo, references := None, [];
    }
  }

  method EnrichReplyThreading(parent: EmailMeta, cmd: OutboundCommand)
    modifies cmd
    ensures cmd.inReplyTo == if parent.messageId.Some? then parent.messageId else old(cmd.inReplyTo)
    ensures cmd.references == Truncated(parent.references, parent.messageId, REFERENCES_MAX)
    // At most ten: the first one, the newest others, and the parent's id unless one of
    // those is the same id.
    ensures parent.references == [] ==>
      cmd.references == match parent.messageId case None => [] case Some(id) => [id]
    ensures parent.references != [] ==>
      var root, later := parent.references[0], parent.references[1..];
      cmd.references
      == if parent.messageId.None? || Known(parent.references, parent.messageId.value, 10)
         then [root] + LastN(later, 9)
         else [root] + LastN(later, 8) + [parent.messageId.value]
  {
    FirstKept(parent);
    if parent.references != [] {
      TruncatedShape(parent.references, parent.messageId, REFERENCES_MAX);
    }
    if parent.messageId.Some? {
      cmd.inReplyTo := parent.messageId;
    }
    cmd.references := TruncateReferences(parent.references, parent.messageId, REFERENCES_MAX);
  }

  // A message that carries the headers of an enriched reply to parent. Ids may
  // change their case and brackets on the way; its own id is arbitrary.
  ghost predicate RepliesTo(reply: EmailMeta, parent: EmailMeta) {
    var refs := Truncated(parent.references, parent.messageId, REFERENCES_MAX);
    |reply.references| == |refs|
    && (forall i :: 0 <= i < |refs| ==> Canonicalize(reply.references[i]) == Canonicalize(refs[i]))
    && CanonicalOf(reply.inReplyTo) == CanonicalOf(parent.messageId)
  }

  ghost predicate IsChain(ms: seq<EmailMeta>) {
    forall i :: 0 <= i < |ms| - 1 ==> RepliesTo(ms[i + 1], ms[i])
  }

  // What a caller can check about the first message: its first reference is
  // usable; or it has no references and a usable id of its own, and In-Reply-To
  // does not point anywhere else.
  predicate Anchored(m: EmailMeta) {
    FirstReference(m).Some?
    || (m.references == [] && CanonicalOf(m.messageId).Some?
        && (CanonicalOf(m.inReplyTo).None? || CanonicalOf(m.inReplyTo) == CanonicalOf(m.messageId)))
  }

  // The reply of an anchored message is anchored to the same root.
  lemma ReplyAnchored(reply: EmailMeta, parent: EmailMeta)
    requires RepliesTo(reply, parent) && Anchored(parent)
    ensures FirstReference(reply).Some?
    ensures forall u, v, account :: ResolveThreadRoot(reply, u, account) == ResolveThreadRoot(parent, v, account)
  {
    FirstKept(parent);
  }

  // The first reference outlives every truncation.
  lemma FirstKept(parent: EmailMeta)
    ensures var refs := Truncated(parent.references, parent.messageId, REFERENCES_MAX);
      (parent.references != [] ==> refs != [] && refs[0] == parent.references[0])
      && (parent.references == [] ==> refs == match parent.messageId case None => [] case Some(id) => [id])
  {
    if parent.references != [] {
      TruncatedShape(parent.references, parent.messageId, REFERENCES_MAX);
    }
  }

  // Replies of any depth to an anchored message resolve to its root.
  lemma {:induction false} ChainKeepsRoot(ms: seq<EmailMeta>, uids: seq<U32>, account: string, i: nat)
    requires IsChain(ms) && |uids| == |ms| && i < |ms| && Anchored(ms[0])
    ensures Anchored(ms[i])
    ensures ResolveThreadRoot(ms[i], uids[i], account) == ResolveThreadRoot(ms[0], uids[0], account)
  {
    if i > 0 {
      ChainKeepsRoot(ms, uids, account, i - 1);
      ReplyAnchored(ms[i], ms[i - 1]);
    }
  }

  // A reply as the code writes it, under a new id.
  function ReplyUnder(parent: EmailMeta, id: string): EmailMeta {
    EmailMeta(Some(id), parent.messageId, Truncated(parent.references, parent.messageId, REFERENCES_MAX))
  }

  // A short id whose root is not the one to avoid.
  lemma OtherId(avoid: string) returns (id: string)
    ensures IsCanonical(id) && Canonicalize(id) == Some(id) && Root(id) != avoid
  {
    assert Root("a")[1] != Root("b")[1];
    id := if Root("a") != avoid then "a" else "b";
    CanonicalWithoutBrackets("a");
    CanonicalWithoutBrackets("b");
  }

  // And only those: from any other message some chain of at most two replies ends
  // at another root.
  lemma UnanchoredDrifts(m: EmailMeta, uid: U32, account: string) returns (ms: seq<EmailMeta>)
    requires !Anchored(m)
    ensures 2 <= |ms| <= 3 && ms[0] == m && IsChain(ms)
    ensures ResolveThreadRoot(ms[|ms| - 1], uid, account) != ResolveThreadRoot(m, uid, account)
  {
    var id := OtherId(ResolveThreadRoot(m, uid, account));
    var reply := ReplyUnder(m, id);
    ReplyUnderReplies(m, id);
    if m.references == [] || CanonicalOf(m.messageId).None? {
      DriftsAtOnce(m, uid, account, id);
      ms := [m, reply];
    } else {
      DriftsNext(m, uid, account, id);
      ReplyUnderReplies(reply, "b");
      ms := [m, reply, ReplyUnder(reply, "b")];
    }
  }

  // Without references, or without a usable id to reply to, the first reply drifts.
  lemma DriftsAtOnce(m: EmailMeta, uid: U32, account: string, id: string)
    requires !Anchored(m) && (m.references == [] || CanonicalOf(m.messageId).None?)
    requires Canonicalize(id) == Some(id) && Root(id) != ResolveThreadRoot(m, uid, account)
    ensures ResolveThreadRoot(ReplyUnder(m, id), uid, account) != ResolveThreadRoot(m, uid, account)
  {
    FirstKept(m);
    if CanonicalOf(m.messageId).Some? {
      RootsDiffer(CanonicalOf(m.messageId).value, CanonicalOf(m.inReplyTo).value);
    }
  }

  // Otherwise the reply takes its parent's id for root, and the reply to that one takes
  // the id of the first.
  lemma DriftsNext(m: EmailMeta, uid: U32, account: string, id: string)
    requires m.references != [] && FirstReference(m).None?
    requires Canonicalize(id) == Some(id) && Root(id) != ResolveThreadRoot(m, uid, account)
    ensures ResolveThreadRoot(ReplyUnder(ReplyUnder(m, id), "b"), uid, account) != ResolveThreadRoot(m, uid, account)
  {
    UnusableFirst(m, id);
    UnusableFirst(ReplyUnder(m, id), "b");
  }

  // A reply inherits a first reference that does not canonicalise.
  lemma UnusableFirst(m: EmailMeta, id: string)
    requires m.references != [] && FirstReference(m).None?
    ensures var reply := ReplyUnder(m, id);
      reply.references != [] && FirstReference(reply).None? && reply.inReplyTo == m.messageId
  {
    FirstKept(m);
  }

  lemma ReplyUnderReplies(m: EmailMeta, id: string)
    ensures RepliesTo(ReplyUnder(m, id), m)
  {
  }

  lemma RootsDiffer(a: string, b: string)
    requires a != b
    ensures Root(a) != Root(b)
  {
    assert Root(a)[1..|Root(a)| - 1] == a;
    assert Root(b)[1..|Root(b)| - 1] == b;
  }
}
