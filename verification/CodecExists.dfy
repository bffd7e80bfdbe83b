// A codec that keeps every law QueueFile asks of one: the queue's theorems are about
// something. Rows are printed as a brace, a list of numbers and characters, and a brace;
// numbers and ASCII characters in unary, every other character raw, in UTF-8. So a
// crash can cut a character in two, as it can in the rows of the source.
module CodecExists {
  import opened Wrappers
  import opened Utf8
  import opened QueueLog
  import opened QueueFile

  const CLOSE_BRACE: Byte := 0x7D
  const MARK: Byte := 0x61
  const ESCAPE: Byte := 0x62
  const COMMA: Byte := 0x2C

  // --- A row as a list of numbers and characters ---

  datatype Item = Num(n: nat) | Chr(c: char)

  function Block(v: seq<Item>): seq<Item> {
    [Num(|v|)] + v
  }

  function Codes(s: string): (v: seq<Item>)
    ensures |v| == |s|
  {
    seq(|s|, i requires 0 <= i < |s| => Chr(s[i]))
  }

  function Blocks(ss: seq<string>): seq<Item> {
    if ss == [] then [] else Block(Codes(ss[0])) + Blocks(ss[1..])
  }

  function List(ss: seq<string>): seq<Item> {
    [Num(|ss|)] + Blocks(ss)
  }

  function Int(n: int): seq<Item> {
    if n < 0 then [Num(1), Num(-n)] else [Num(0), Num(n)]
  }

  function Maybe(o: Option<string>): seq<Item> {
    match o
    case None => [Num(0)]
    case Some(s) => [Num(1)] + Block(Codes(s))
  }

  function Raw(b: seq<Byte>): (v: seq<Item>)
    ensures |v| == |b|
  {
    seq(|b|, i requires 0 <= i < |b| => Num(b[i]))
  }

  lemma BlockInj(a: seq<Item>, x: seq<Item>, b: seq<Item>, y: seq<Item>)
    requires Block(a) + x == Block(b) + y
    ensures a == b && x == y
  {
    assert Num(|a|) == (Block(a) + x)[0] == (Block(b) + y)[0] == Num(|b|);
    assert a == (Block(a) + x)[1..|a| + 1] == (Block(b) + y)[1..|b| + 1] == b;
    assert x == (Block(a) + x)[|a| + 1..] == (Block(b) + y)[|b| + 1..] == y;
  }

  lemma CodesInj(s: string, t: string)
    requires Codes(s) == Codes(t)
    ensures s == t
  {
    forall i | 0 <= i < |s| ensures s[i] == t[i] {
      assert Codes(s)[i] == Codes(t)[i];
    }
  }

  lemma StringInj(s: string, x: seq<Item>, t: string, y: seq<Item>)
    requires Block(Codes(s)) + x == Block(Codes(t)) + y
    ensures s == t && x == y
  {
    BlockInj(Codes(s), x, Codes(t), y);
    CodesInj(s, t);
  }

  lemma {:induction false} BlocksInj(ss: seq<string>, x: seq<Item>, ts: seq<string>, y: seq<Item>)
    requires |ss| == |ts| && Blocks(ss) + x == Blocks(ts) + y
    ensures ss == ts && x == y
  {
    if ss == [] {
      assert [] + x == x && [] + y == y;
    } else {
      assert Blocks(ss) + x == Block(Codes(ss[0])) + (Blocks(ss[1..]) + x);
      assert Blocks(ts) + y == Block(Codes(ts[0])) + (Blocks(ts[1..]) + y);
      StringInj(ss[0], Blocks(ss[1..]) + x, ts[0], Blocks(ts[1..]) + y);
      BlocksInj(ss[1..], x, ts[1..], y);
    }
  }

  lemma ListInj(ss: seq<string>, x: seq<Item>, ts: seq<string>, y: seq<Item>)
    requires List(ss) + x == List(ts) + y
    ensures ss == ts && x == y
  {
    assert Num(|ss|) == (List(ss) + x)[0] == (List(ts) + y)[0] == Num(|ts|);
    assert Blocks(ss) + x == (List(ss) + x)[1..];
    assert Blocks(ts) + y == (List(ts) + y)[1..];
    BlocksInj(ss, x, ts, y);
  }

  lemma IntInj(m: int, x: seq<Item>, n: int, y: seq<Item>)
    requires Int(m) + x == Int(n) + y
    ensures m == n && x == y
  {
    assert (Int(m) + x)[0] == (Int(n) + y)[0] && (Int(m) + x)[1] == (Int(n) + y)[1];
    assert x == (Int(m) + x)[2..] && y == (Int(n) + y)[2..];
  }

  lemma MaybeTail(o: Option<string>, x: seq<Item>)
    ensures var v := Maybe(o) + x;
      v[0] == Num(if o.Some? then 1 else 0)
      && v[1..] == match o case None => x case Some(s) => Block(Codes(s)) + x
  {
    match o
    case None => assert (Maybe(o) + x)[1..] == x;
    case Some(s) => assert (Maybe(o) + x)[1..] == Block(Codes(s)) + x;
  }

  lemma MaybeInj(o: Option<string>, x: seq<Item>, p: Option<string>, y: seq<Item>)
    requires Maybe(o) + x == Maybe(p) + y
    ensures o == p && x == y
  {
    MaybeTail(o, x);
    MaybeTail(p, y);
    if o.Some? {
      StringInj(o.value, x, p.value, y);
    }
  }

  // The addresses of a row, in front of v.
  function Addressed(e: Envelope, v: seq<Item>): seq<Item> {
    Block(Codes(e.from)) + (List(e.to) + (List(e.cc) + (List(e.bcc) + v)))
  }

  function Timed(j: Job): seq<Item> {
    var tail := Maybe(j.lastError) + [Num(if j.done then 1 else 0)];
    Int(j.attempts) + (Int(j.nextAttemptAt) + (Int(j.createdAt) + tail))
  }

  function Numbers(j: Job): seq<Item> {
    Block(Codes(j.messageId)) + (Block(Codes(j.instance)) + (Block(Raw(j.rawMime)) + Addressed(j.envelope, Timed(j))))
  }

  lemma AddressedInj(e: Envelope, x: seq<Item>, f: Envelope, y: seq<Item>)
    requires Addressed(e, x) == Addressed(f, y)
    ensures e == f && x == y
  {
    StringInj(e.from, List(e.to) + (List(e.cc) + (List(e.bcc) + x)),
              f.from, List(f.to) + (List(f.cc) + (List(f.bcc) + y)));
    ListInj(e.to, List(e.cc) + (List(e.bcc) + x), f.to, List(f.cc) + (List(f.bcc) + y));
    ListInj(e.cc, List(e.bcc) + x, f.cc, List(f.bcc) + y);
    ListInj(e.bcc, x, f.bcc, y);
  }

  lemma TimedInj(j: Job, k: Job)
    requires Timed(j) == Timed(k)
    ensures j.attempts == k.attempts && j.nextAttemptAt == k.nextAttemptAt && j.createdAt == k.createdAt
    ensures j.lastError == k.lastError && j.done == k.done
  {
    var d, d' := [Num(if j.done then 1 else 0)], [Num(if k.done then 1 else 0)];
    var a, a' := Maybe(j.lastError) + d, Maybe(k.lastError) + d';
    var b, b' := Int(j.createdAt) + a, Int(k.createdAt) + a';
    IntInj(j.attempts, Int(j.nextAttemptAt) + b, k.attempts, Int(k.nextAttemptAt) + b');
    IntInj(j.nextAttemptAt, b, k.nextAttemptAt, b');
    IntInj(j.createdAt, a, k.createdAt, a');
    MaybeInj(j.lastError, d, k.lastError, d');
    assert d[0] == d'[0];
  }

  lemma NumbersInj(j: Job, k: Job)
    requires Numbers(j) == Numbers(k)
    ensures j == k
  {
    var a, a' := Addressed(j.envelope, Timed(j)), Addressed(k.envelope, Timed(k));
    var b, b' := Block(Raw(j.rawMime)) + a, Block(Raw(k.rawMime)) + a';
    StringInj(j.messageId, Block(Codes(j.instance)) + b, k.messageId, Block(Codes(k.instance)) + b');
    StringInj(j.instance, b, k.instance, b');
    BlockInj(Raw(j.rawMime), a, Raw(k.rawMime), a');
    forall i | 0 <= i < |j.rawMime| ensures j.rawMime[i] == k.rawMime[i] {
      assert Raw(j.rawMime)[i] == Raw(k.rawMime)[i];
    }
    AddressedInj(j.envelope, Timed(j), k.envelope, Timed(k));
    TimedInj(j, k);
  }

  // --- Characters as bytes ---

  // The number such bytes stand for.
  function ValueOf(b: seq<Byte>): int {
    if |b| == 2 then SixMore(Less(b[0], 0xC0), b[1])
    else if |b| == 3 then SixMore(SixMore(Less(b[0], 0xE0), b[1]), b[2])
    else if |b| == 4 then SixMore(SixMore(SixMore(Less(b[0], 0xF0), b[1]), b[2]), b[3])
    else 0
  }

  function Less(b: int, mark: int): int {
    b - mark
  }

  // Six more bits.
  function SixMore(high: int, b: int): int {
    high * 64 + b - 0x80
  }

  // The first byte tells the length, and the bytes give the number back.
  lemma Utf8OfBytes(c: char)
    requires c as int >= 0x80
    ensures ValueOf(Utf8Of(c)) == c as int
    ensures var b := Utf8Of(c);
      (|b| == 2 && 0xC2 <= b[0] <= 0xDF) || (|b| == 3 && 0xE0 <= b[0] <= 0xEF) || (|b| == 4 && 0xF0 <= b[0] <= 0xF4)
    ensures forall i :: 0 <= i < |Utf8Of(c)| ==> Utf8Of(c)[i] >= 0x80
  {
  }

  lemma Utf8OfInj(c: char, x: seq<Byte>, d: char, y: seq<Byte>)
    requires c as int >= 0x80 && d as int >= 0x80 && Utf8Of(c) + x == Utf8Of(d) + y
    ensures c == d && x == y
  {
    Utf8OfBytes(c);
    Utf8OfBytes(d);
    SplitSame(Utf8Of(c), x, Utf8Of(d), y);
  }

  // Two pieces in front of one text whose first bytes settle their length.
  lemma SplitSame(b: seq<Byte>, x: seq<Byte>, e: seq<Byte>, y: seq<Byte>)
    requires b != [] && e != [] && b + x == e + y && (b[0] == e[0] ==> |b| == |e|)
    ensures b == e && x == y
  {
    assert b[0] == (b + x)[0] == (e + y)[0] == e[0];
    assert b == (b + x)[..|b|] == (e + y)[..|e|] == e;
    assert x == (b + x)[|b|..] == (e + y)[|e|..] == y;
  }

  // --- The list as bytes ---

  function Unary(n: nat): seq<Byte> {
    if n == 0 then [COMMA] else [MARK] + Unary(n - 1)
  }

  function ItemBytes(i: Item): seq<Byte> {
    match i
    case Num(n) => Unary(n)
    case Chr(c) => if c as int < 0x80 then [ESCAPE] + Unary(c as int) else Utf8Of(c)
  }

  function Body(v: seq<Item>): seq<Byte> {
    if v == [] then [] else ItemBytes(v[0]) + Body(v[1..])
  }

  function Encode(j: Job): seq<Byte> {
    [OPEN_BRACE] + Body(Numbers(j)) + [CLOSE_BRACE]
  }

  // Neither a brace nor a line break.
  predicate PlainByte(b: Byte) {
    b == MARK || b == COMMA || b == ESCAPE || b >= 0x80
  }

  ghost predicate Plain(b: seq<Byte>) {
    forall i :: 0 <= i < |b| ==> PlainByte(b[i])
  }

  lemma {:induction false} UnaryPlain(n: nat)
    ensures Plain(Unary(n)) && ValidUtf8(Unary(n))
    ensures Unary(n)[0] == MARK || Unary(n)[0] == COMMA
  {
    if n > 0 {
      UnaryPlain(n - 1);
      assert Unary(n)[1..] == Unary(n - 1);
    }
  }

  lemma ItemPlain(i: Item)
    ensures Plain(ItemBytes(i)) && ValidUtf8(ItemBytes(i)) && ItemBytes(i) != []
  {
    match i
    case Num(n) => UnaryPlain(n);
    case Chr(c) =>
      if c as int < 0x80 {
        UnaryPlain(c as int);
        assert ItemBytes(i)[1..] == Unary(c as int);
      } else {
        EncodedIsValid([c]);
        assert [c][1..] == "" && Utf8Of(c) + [] == Utf8Of(c);
        Utf8OfBytes(c);
      }
  }

  lemma {:induction false} BodyPlain(v: seq<Item>)
    ensures Plain(Body(v)) && ValidUtf8(Body(v))
  {
    if v != [] {
      ItemPlain(v[0]);
      BodyPlain(v[1..]);
      ValidConcat(ItemBytes(v[0]), Body(v[1..]));
    }
  }

  lemma {:induction false} UnaryInj(m: nat, x: seq<Byte>, n: nat, y: seq<Byte>)
    requires Unary(m) + x == Unary(n) + y
    ensures m == n && x == y
  {
    assert (Unary(m) + x)[0] == (Unary(n) + y)[0];
    if m > 0 {
      assert Unary(m - 1) + x == (Unary(m) + x)[1..];
      assert Unary(n - 1) + y == (Unary(n) + y)[1..];
      UnaryInj(m - 1, x, n - 1, y);
    } else {
      assert x == (Unary(m) + x)[1..] && y == (Unary(n) + y)[1..];
    }
  }

  // The first byte of an item tells which sort it is.
  function Sort(i: Item): nat {
    match i case Num(_) => 0 case Chr(c) => if c as int < 0x80 then 1 else 2
  }

  lemma ItemHead(i: Item)
    ensures ItemBytes(i) != []
    ensures var b := ItemBytes(i)[0];
      Sort(i) == if b == MARK || b == COMMA then 0 else if b == ESCAPE then 1 else 2
  {
    match i
    case Num(n) => UnaryPlain(n);
    case Chr(c) => if c as int >= 0x80 { Utf8OfBytes(c); }
  }

  lemma ItemInj(i: Item, x: seq<Byte>, k: Item, y: seq<Byte>)
    requires ItemBytes(i) + x == ItemBytes(k) + y
    ensures i == k && x == y
  {
    SameSort(i, x, k, y);
    if i.Num? {
      UnaryInj(i.n, x, k.n, y);
    } else if i.c as int >= 0x80 {
      Utf8OfInj(i.c, x, k.c, y);
    } else {
      EscapedInj(i.c as int, x, k.c as int, y);
    }
  }

  lemma SameSort(i: Item, x: seq<Byte>, k: Item, y: seq<Byte>)
    requires ItemBytes(i) + x == ItemBytes(k) + y
    ensures Sort(i) == Sort(k)
  {
    ItemHead(i);
    ItemHead(k);
    var b, e := ItemBytes(i), ItemBytes(k);
    assert b[0] == (b + x)[0] == (e + y)[0] == e[0];
  }

  lemma EscapedInj(m: nat, x: seq<Byte>, n: nat, y: seq<Byte>)
    requires [ESCAPE] + Unary(m) + x == [ESCAPE] + Unary(n) + y
    ensures m == n && x == y
  {
    var b, e := [ESCAPE] + Unary(m), [ESCAPE] + Unary(n);
    assert Unary(m) + x == (b + x)[1..];
    assert Unary(n) + y == (e + y)[1..];
    UnaryInj(m, x, n, y);
  }

  lemma {:induction false} BodyInj(v: seq<Item>, w: seq<Item>)
    requires Body(v) == Body(w)
    ensures v == w
  {
    if v != [] && w != [] {
      ItemInj(v[0], Body(v[1..]), w[0], Body(w[1..]));
      BodyInj(v[1..], w[1..]);
      assert v == [v[0]] + v[1..] && w == [w[0]] + w[1..];
    } else if v != [] {
      ItemPlain(v[0]);
    } else if w != [] {
      ItemPlain(w[0]);
    }
  }

  lemma EncodeInj(j: Job, k: Job)
    requires Encode(j) == Encode(k)
    ensures j == k
  {
    assert Body(Numbers(j)) == Encode(j)[1..|Encode(j)| - 1] == Encode(k)[1..|Encode(k)| - 1] == Body(Numbers(k));
    BodyInj(Numbers(j), Numbers(k));
    NumbersInj(j, k);
  }

  // Braces at both ends and nowhere else.
  lemma EncodeShape(j: Job)
    ensures var b := Encode(j);
      |b| >= 2 && b[0] == OPEN_BRACE && b[|b| - 1] == CLOSE_BRACE
      && forall i :: 0 < i < |b| - 1 ==> PlainByte(b[i])
  {
    BodyPlain(Numbers(j));
  }

  lemma EncodeValid(j: Job)
    ensures ValidUtf8(Encode(j))
  {
    BodyPlain(Numbers(j));
    var open, close := [OPEN_BRACE], [CLOSE_BRACE];
    assert open[1..] == [] && close[1..] == [];
    ValidConcat(open, Body(Numbers(j)));
    ValidConcat(open + Body(Numbers(j)), close);
  }

  ghost function Parse(b: seq<Byte>): Option<Job> {
    if exists j :: Encode(j) == b then
      var j :| Encode(j) == b;
      Some(j)
    else None
  }

  ghost function RawText(): Codec {
    Codec(Encode, b => Parse(b))
  }

  lemma LawfulCodecExists()
    ensures RawText().Lawful()
  {
    var c := RawText();
    forall j: Job ensures c.RowLawful(j) {
      EncodeShape(j);
      EncodeValid(j);
      ParseEncoded(j);
    }
    forall j: Job, n: nat | 0 < n < |c.encode(j)| ensures c.parse(c.encode(j)[..n]) == None {
      CutShort(j, n);
    }
    forall pieces | |pieces| >= 2 && c.Pieces(pieces) ensures c.parse(Flat(pieces)) == None {
      Glued(pieces);
    }
  }

  lemma ParseEncoded(j: Job)
    ensures Parse(Encode(j)) == Some(j)
  {
    var k := Parse(Encode(j)).value;
    EncodeInj(j, k);
  }

  lemma CutShort(j: Job, n: nat)
    requires 0 < n < |Encode(j)|
    ensures Parse(Encode(j)[..n]) == None
  {
    EncodeShape(j);
    var b := Encode(j)[..n];
    assert b[|b| - 1] != CLOSE_BRACE;
    forall k ensures Encode(k) != b {
      EncodeShape(k);
    }
  }

  // The second piece opens a brace where a row has none.
  lemma Glued(pieces: seq<seq<Byte>>)
    requires |pieces| >= 2 && RawText().Pieces(pieces)
    ensures Parse(Flat(pieces)) == None
  {
    PieceHead(pieces[0]);
    PieceHead(pieces[1]);
    FlatHead(pieces);
    BraceInside(Flat(pieces), |pieces[0]|);
  }

  lemma FlatHead(pieces: seq<seq<Byte>>)
    requires |pieces| >= 2 && pieces[1] != []
    ensures |pieces[0]| < |Flat(pieces)| && Flat(pieces)[|pieces[0]|] == pieces[1][0]
  {
    var more := pieces[1..];
    assert Flat(more) == pieces[1] + Flat(more[1..]);
    assert Flat(pieces) == pieces[0] + Flat(more);
  }

  lemma PieceHead(p: seq<Byte>)
    requires RawText().IsPiece(p)
    ensures p != [] && p[0] == OPEN_BRACE
  {
    var j, n: nat :| RawText().IsCut(p, j, n);
    EncodeShape(j);
  }

  lemma BraceInside(b: seq<Byte>, i: nat)
    requires 0 < i < |b| && b[i] == OPEN_BRACE
    ensures Parse(b) == None
  {
    forall j ensures Encode(j) != b {
      EncodeShape(j);
    }
  }

  // A row with one accented letter, and the byte at which a crash makes the queue
  // unreadable: behind the brace, the length and the first half of the letter.
  function Accented(): Job {
    Job("\U{E9}", "", Envelope("", [], [], []), [], 0, 0, None, 0, false)
  }

  lemma BodyHead(v: seq<Item>, i: Item, k: Item, rest: seq<Item>)
    requires v == [i, k] + rest
    ensures Body(v) == ItemBytes(i) + (ItemBytes(k) + Body(rest))
  {
    assert v[1..] == [k] + rest && v[1..][1..] == rest;
  }

  lemma AccentedBytes()
    ensures |Encode(Accented())| > 4 && Encode(Accented())[4] == 0xA9
  {
    var j := Accented();
    var rest := Block(Codes(j.instance)) + (Block(Raw(j.rawMime)) + Addressed(j.envelope, Timed(j)));
    var letter := Chr('\U{E9}');
    assert Codes(j.messageId) == [letter];
    assert Block(Codes(j.messageId)) == [Num(1), letter];
    BodyHead(Numbers(j), Num(1), letter, rest);
    assert Unary(0) == [COMMA] && ItemBytes(Num(1)) == [MARK, COMMA];
    assert ItemBytes(letter) == [0xC3, 0xA9];
    EncodeAt(j, [MARK, COMMA], [0xC3, 0xA9], Body(rest));
  }

  lemma EncodeAt(j: Job, a: seq<Byte>, b: seq<Byte>, rest: seq<Byte>)
    requires |a| == 2 && |b| == 2 && Body(Numbers(j)) == a + (b + rest)
    ensures |Encode(j)| > 4 && Encode(j)[4] == b[1]
  {
    var body := a + (b + rest);
    assert body[3] == b[1];
    assert Encode(j) == [OPEN_BRACE] + body + [CLOSE_BRACE];
  }

  lemma UnreadableCut()
    ensures RawText().Lawful()
    ensures 4 < |Encode(Accented())| && ReadRows(RawText(), Encode(Accented())[..4]) == None
  {
    LawfulCodecExists();
    AccentedBytes();
    var c, cut := RawText(), Encode(Accented())[..4];
    TornTail(c, [], [], Accented(), 4, []);
    assert EncodeAll(c, []) == [];
    assert [] + (cut + []) == cut;
  }
}
