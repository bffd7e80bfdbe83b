// src/threading.rs: canonical Message-IDs, thread roots, reference truncation and
// reply enrichment, and what they do to the thread root along a chain of replies
// (section 3.6.4 of RFC 5322).
module Threading {
  import opened Wrappers
  import opened Text

  const REFERENCES_MAX: nat := 10

  datatype EmailMeta = EmailMeta(messageId: Option<string>, inReplyTo: Option<string>, references: seq<string>)

  // --- canonicalize_message_id ---

  predicate Forbidden(c: char) {
    IsControl(c) || IsWhitespace(c) || c == ','
  }

  predicate Bracketed(s: string) {
    |s| >= 2 && s[0] == '<' && s[|s| - 1] == '>'
  }

  // Without outer spaces, one pair of brackets, and the spaces inside it.
  function Inner(s: string): string {
    var trimmed := Trim(s);
    Trim(if Bracketed(trimmed) then trimmed[1..|trimmed| - 1] else trimmed)
  }

  predicate Clean(s: string) {
    s != "" && forall i :: 0 <= i < |s| ==> !Forbidden(s[i])
  }

  function Canonicalize(s: string): Option<string> {
    if Trim(s) != "" && Clean(Inner(s)) then Some(Lower(Inner(s))) else None
  }

  predicate IsCanonical(c: string) {
    Clean(c) && Lower(c) == c
  }

  lemma LowerClean(s: string)
    requires Clean(s)
    ensures Clean(Lower(s))
  {
    forall i | 0 <= i < |s| ensures !Forbidden(Lower(s)[i]) {
      assert !Forbidden(s[i]);
    }
  }

  lemma PlainBracketed(c: string)
    requires Clean(c)
    ensures Canonicalize("<" + c + ">") == Some(Lower(c))
  {
    var b := "<" + c + ">";
    TrimNoop(b);
    TrimNoop(c);
    assert b[1..|b| - 1] == c;
  }

  // Everything canonicalisation yields has the canonical shape, and every string
  // of that shape comes back when it is put in angle brackets.
  lemma CanonicalForms(s: string, c: string)
    ensures Canonicalize(s) == Some(c) ==> IsCanonical(c)
    ensures IsCanonical(c) ==> Canonicalize("<" + c + ">") == Some(c)
  {
    if Canonicalize(s) == Some(c) {
      LowerTwice(Inner(s));
      LowerClean(Inner(s));
    }
    if IsCanonical(c) {
      PlainBracketed(c);
    }
  }

  // An id in angle brackets, with blanks around the brackets and inside them, comes back
  // in lower case.
  lemma CanonicalBracketed(a: string, p: string, c: string, q: string, b: string)
    requires Blanks(a) && Blanks(p) && Blanks(q) && Blanks(b) && Clean(c)
    ensures Canonicalize(a + ("<" + (p + c + q) + ">") + b) == Some(Lower(c))
  {
    var t := "<" + (p + c + q) + ">";
    TrimLeaves(a, t, b);
    assert t[1..|t| - 1] == p + c + q;
    TrimLeaves(p, c, q);
  }

  // One without brackets does so too.
  lemma CanonicalBare(a: string, c: string, b: string)
    requires Blanks(a) && Blanks(b) && Clean(c)
    requires !(|c| >= 2 && c[0] == '<' && c[|c| - 1] == '>')
    ensures Canonicalize(a + c + b) == Some(Lower(c))
  {
    TrimLeaves(a, c, b);
    TrimNoop(c);
  }

  // What is turned away: nothing between the brackets, or a control character, a blank or
  // a comma there.
  lemma CanonicalRefused(s: string)
    ensures var t := Trim(s);
      var id := Trim(if |t| >= 2 && t[0] == '<' && t[|t| - 1] == '>' then t[1..|t| - 1] else t);
      Canonicalize(s).None?
      <==> id == "" || exists i :: 0 <= i < |id| && (IsControl(id[i]) || IsWhitespace(id[i]) || id[i] == ',')
  {
    if Trim(s) == "" {
      TrimNoop("");
    }
  }

  lemma LowerParts(a: string, b: string)
    ensures Lower(a + b) == Lower(a) + Lower(b)
  {
  }

  lemma LowerBlanks(s: string)
    ensures Blanks(Lower(s)) <==> Blanks(s)
  {
    assert forall i :: 0 <= i < |s| ==> (IsWhitespace(Lower(s)[i]) <==> IsWhitespace(s[i]));
  }

  lemma TrimLower(s: string)
    ensures Trim(Lower(s)) == Lower(Trim(s))
  {
    var a, b := TrimDrops(s);
    LowerParts(a + Trim(s), b);
    LowerParts(a, Trim(s));
    LowerBlanks(a);
    LowerBlanks(b);
    TrimLeaves(Lower(a), Lower(Trim(s)), Lower(b));
  }

  lemma InnerLower(s: string)
    ensures Inner(Lower(s)) == Lower(Inner(s))
  {
    var t := Trim(s);
    TrimLower(s);
    if Bracketed(t) {
      assert Lower(t)[1..|t| - 1] == Lower(t[1..|t| - 1]);
      TrimLower(t[1..|t| - 1]);
    } else {
      TrimLower(t);
    }
  }

  lemma CleanLower(s: string)
    ensures Clean(Lower(s)) <==> Clean(s)
  {
    assert forall i :: 0 <= i < |s| ==> (Forbidden(Lower(s)[i]) <==> Forbidden(s[i]));
  }

  // The case of ASCII letters never matters.
  lemma CanonicalCase(s: string)
    ensures Canonicalize(Lower(s)) == Canonicalize(s)
  {
    TrimLower(s);
    InnerLower(s);
    CleanLower(Inner(s));
    LowerTwice(Inner(s));
  }

  // Without brackets a canonical string is a fixed point unless it still carries
  // a pair of brackets of its own.
  lemma CanonicalWithoutBrackets(c: string)
    requires IsCanonical(c)
    ensures Canonicalize(c) == Some(c) <==> !Bracketed(c)
  {
    TrimNoop(c);
  }

  lemma TrimNoop(s: string)
    requires s == "" || (!IsWhitespace(s[0]) && !IsWhitespace(s[|s| - 1]))
    ensures Trim(s) == s
  {
  }

  function CanonicalOf(id: Option<string>): Option<string> {
    match id case None => None case Some(s) => Canonicalize(s)
  }

  // --- resolve_thread_root ---

  function Root(c: string): string {
    "<" + c + ">"
  }

  function FirstReference(m: EmailMeta): Option<string> {
    if m.references == [] then None else Canonicalize(m.references[0])
  }

  function ResolveThreadRoot(m: EmailMeta, fallbackUid: U32, account: string): string {
    if FirstReference(m).Some? then Root(FirstReference(m).value)
    else if CanonicalOf(m.inReplyTo).Some? then Root(CanonicalOf(m.inReplyTo).value)
    else if CanonicalOf(m.messageId).Some? then Root(CanonicalOf(m.messageId).value)
    else "<orphan-" + Decimal(fallbackUid) + "@" + (if account == "" then "nexo" else account) + ">"
  }

  // The first usable one of first reference, In-Reply-To and Message-ID names the thread;
  // a message with none of them is a thread of its own, named by its UID.
  lemma RootExactly(m: EmailMeta, uid: U32, account: string)
    ensures var root := ResolveThreadRoot(m, uid, account);
      if m.references != [] && Canonicalize(m.references[0]).Some?
      then root == "<" + Canonicalize(m.references[0]).value + ">"
      else if m.inReplyTo.Some? && Canonicalize(m.inReplyTo.value).Some?
      then root == "<" + Canonicalize(m.inReplyTo.value).value + ">"
      else if m.messageId.Some? && Canonicalize(m.messageId.value).Some?
      then root == "<" + Canonicalize(m.messageId.value).value + ">"
      else root == "<orphan-" + Decimal(uid) + "@" + (if account == "" then "nexo" else account) + ">"
  {
  }

  // The root a header with one id in brackets leads to.
  lemma RootOfId(m: EmailMeta, id: string, c: string, uid: U32, account: string)
    requires Clean(c) && id == "<" + c + ">"
    requires if m.references != [] then m.references[0] == id
             else if m.inReplyTo.Some? then m.inReplyTo.value == id
             else m.messageId == Some(id)
    ensures ResolveThreadRoot(m, uid, account) == "<" + Lower(c) + ">"
  {
    PlainBracketed(c);
    RootExactly(m, uid, account);
  }

  // --- truncate_references ---

  // The root and the newest max - 1 references.
  function Kept(refs: seq<string>, max: nat): seq<string>
    requires max > 0 || refs == []
  {
    if |refs| <= max then refs else [refs[0]] + refs[|refs| - (max - 1)..]
  }

  predicate AlreadyPresent(out: seq<string>, own: string) {
    Canonicalize(own).Some? && exists i :: 0 <= i < |out| && Canonicalize(out[i]) == Canonicalize(own)
  }

  // Room for one more at the cap: the oldest entry behind the root goes.
  function MakeRoom(out: seq<string>, max: nat): seq<string> {
    if |out| >= max && |out| > 1 then [out[0]] + out[2..] else out
  }

  function Truncated(refs: seq<string>, own: Option<string>, max: nat): seq<string>
    requires max > 0 || refs == []
  {
    var out := Kept(refs, max);
    if own.None? || AlreadyPresent(out, own.value) then out else MakeRoom(out, max) + [own.value]
  }

  method AppendOwn(kept: seq<string>, own: string, max: nat) returns (out: seq<string>)
    ensures out == if AlreadyPresent(kept, own) then kept else MakeRoom(kept, max) + [own]
  {
    out := kept;
    var present := AlreadyPresent(kept, own);
    if !present {
      if |out| >= max {
        if |out| > 1 {
          out := out[..1] + out[2..];
        }
      }
      out := out + [own];
    }
  }

  method KeepEnds(refs: seq<string>, max: nat) returns (out: seq<string>)
    requires max > 0 || refs == []
    ensures out == Kept(refs, max)
  {
    if |refs| <= max {
      return refs;
    }
    out := [refs[0]];
    var tailStart := |refs| - (max - 1);
    out := out + refs[tailStart..];
  }

  // max == 0 with references panics in the source (the subtraction underflows).
  method TruncateReferences(refs: seq<string>, own: Option<string>, max: nat) returns (out: seq<string>)
    requires max > 0 || refs == []
    ensures out == Truncated(refs, own, max)
  {
    out := KeepEnds(refs, max);
    if own.Some? {
      out := AppendOwn(out, own.value, max);
    }
  }

  function LastN(s: seq<string>, n: nat): seq<string> {
    if |s| <= n then s else s[|s| - n..]
  }

  // The parent's id is added unless a kept reference is the same id.
  predicate Appends(refs: seq<string>, own: Option<string>, max: nat)
    requires max > 0 || refs == []
  {
    own.Some? && !AlreadyPresent(Kept(refs, max), own.value)
  }

  // The newest n, in their order.
  lemma LastNIs(s: seq<string>, n: nat)
    ensures |s| <= n ==> LastN(s, n) == s
    ensures |s| > n ==> |LastN(s, n)| == n && forall i :: 0 <= i < n ==> LastN(s, n)[i] == s[|s| - n + i]
  {
  }

  // own is the same id as one of the references that are kept: the first and the newest
  // max - 1 of the others.
  ghost predicate Known(refs: seq<string>, own: string, max: nat)
    requires max >= 1 && refs != []
  {
    var kept := [refs[0]] + LastN(refs[1..], max - 1);
    Canonicalize(own).Some? && exists i :: 0 <= i < |kept| && Canonicalize(kept[i]) == Canonicalize(own)
  }

  // By index: the first reference, or one of the newest max - 1, has the same canonical id.
  lemma KnownExactly(refs: seq<string>, own: string, max: nat)
    requires max >= 1 && refs != []
    ensures Known(refs, own, max)
       <==> Canonicalize(own).Some?
            && exists i :: 0 <= i < |refs| && (i == 0 || i > |refs| - max)
                           && Canonicalize(refs[i]) == Canonicalize(own)
  {
    var later := LastN(refs[1..], max - 1);
    var kept := [refs[0]] + later;
    var cut := |refs| - |later|;
    assert forall k :: 0 <= k < |later| ==> later[k] == refs[cut + k];
    forall i | 0 <= i < |refs| && (i == 0 || i > |refs| - max) ensures refs[i] in kept {
      assert i > 0 ==> later[i - cut] == refs[i];
    }
    forall k | 0 <= k < |kept|
      ensures exists i :: 0 <= i < |refs| && (i == 0 || i > |refs| - max) && refs[i] == kept[k]
    {
      assert refs[if k == 0 then 0 else cut + k - 1] == kept[k];
    }
  }

  // From max 2 on: the root, the newest references there is room for, and the
  // parent's id at the end unless it is known. Never more than max.
  lemma TruncatedShape(refs: seq<string>, own: Option<string>, max: nat)
    requires max >= 2 && refs != []
    ensures own.None? || Known(refs, own.value, max) ==>
      Truncated(refs, own, max) == [refs[0]] + LastN(refs[1..], max - 1)
    ensures own.Some? && !Known(refs, own.value, max) ==>
      Truncated(refs, own, max) == [refs[0]] + LastN(refs[1..], max - 2) + [own.value]
    ensures |Truncated(refs, own, max)| <= max
  {
    KeptShape(refs, max);
    if Appends(refs, own, max) {
      RoomShape(refs[0], refs[1..], max);
    }
  }

  // Room for one more: the oldest of the newest goes.
  lemma RoomShape(root: string, later: seq<string>, max: nat)
    requires max >= 2
    ensures MakeRoom([root] + LastN(later, max - 1), max) == [root] + LastN(later, max - 2)
  {
    var out := [root] + LastN(later, max - 1);
    if |out| >= max {
      TailOfLast(later, max - 1);
      assert out[..1] == [root] && out[2..] == LastN(later, max - 1)[1..];
    }
  }

  // One fewer of the newest.
  lemma TailOfLast(s: seq<string>, n: nat)
    requires 0 < n <= |s|
    ensures LastN(s, n)[1..] == LastN(s, n - 1)
  {
  }

  lemma KeptShape(refs: seq<string>, max: nat)
    requires max >= 2 && refs != []
    ensures Kept(refs, max) == [refs[0]] + LastN(refs[1..], max - 1)
  {
  }

  // Where the bound of max fails: at max 1 when an id is added to a root, and at
  // max 0 when one is added at all.
  lemma BoundExactly(refs: seq<string>, own: Option<string>, max: nat)
    requires max > 0 || refs == []
    ensures |Truncated(refs, own, max)| <= max
       <==> !(Appends(refs, own, max) && (max == 0 || (max == 1 && refs != [])))
  {
    if max >= 2 && refs != [] {
      TruncatedShape(refs, own, max);
    }
  }

  // A second truncation with the same id changes nothing exactly when the id is
  // canonical, or the list is full and already holds nothing else but the root.
  lemma IdempotentExactly(refs: seq<string>, own: string, max: nat)
    requires max >= 2
    ensures var r := Truncated(refs, Some(own), max);
      Truncated(r, Some(own), max) == r
      <==> Canonicalize(own).Some? || (|r| == max && forall i :: 1 <= i < |r| ==> r[i] == own)
  {
    var r := Truncated(refs, Some(own), max);
    BoundExactly(refs, Some(own), max);
    if Canonicalize(own).Some? {
      TruncatedHoldsOwn(refs, own, max);
    } else {
      TruncatedAgain(r, own, max);
    }
  }

  // A canonical id is in the list afterwards, added or found.
  lemma TruncatedHoldsOwn(refs: seq<string>, own: string, max: nat)
    requires max >= 2 && Canonicalize(own).Some?
    ensures AlreadyPresent(Truncated(refs, Some(own), max), own)
  {
    var r := Truncated(refs, Some(own), max);
    if Appends(refs, Some(own), max) {
      assert r[|r| - 1] == own;
    }
  }

  lemma TruncatedAgain(r: seq<string>, own: string, max: nat)
    requires max >= 2 && |r| <= max && Canonicalize(own).None?
    ensures Truncated(r, Some(own), max) == r
      <==> |r| == max && forall i :: 1 <= i < |r| ==> r[i] == own
  {
    var again := Truncated(r, Some(own), max);
    assert !AlreadyPresent(r, own);
    if |r| < max {
      assert |again| == |r| + 1;
    } else {
      var tail := r[1..];
      assert again == [r[0]] + (tail[1..] + [own]);
      assert r == [r[0]] + tail;
      assert again[1..] == tail[1..] + [own];
      ShiftFixed(tail, own);
      assert forall i :: 1 <= i < |r| ==> r[i] == tail[i - 1];
    }
  }

  lemma {:induction false} ShiftFixed(s: seq<string>, x: string)
    requires s != []
    ensures s[1..] + [x] == s <==> forall i :: 0 <= i < |s| ==> s[i] == x
  {
    if s[1..] + [x] == s {
      var k := |s|;
      while k > 0
        invariant 0 <= k <= |s|
        invariant forall i :: k <= i < |s| ==> s[i] == x
      {
        k := k - 1;
        assert s[k] == (s[1..] + [x])[k];
      }
    }
  }
}
