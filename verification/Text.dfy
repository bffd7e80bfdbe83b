// The string functions of the Rust standard library the model needs.
module Text {
  import opened Wrappers

  // char::is_whitespace: the Unicode White_Space property.
  predicate IsWhitespace(c: char) {
    var n := c as int;
    0x09 <= n <= 0x0D || n == 0x20 || n == 0x85 || n == 0xA0 || n == 0x1680
    || 0x2000 <= n <= 0x200A || n == 0x2028 || n == 0x2029 || n == 0x202F || n == 0x205F || n == 0x3000
  }

  // The property's 25 characters, one by one.
  lemma WhitespaceIs(c: char)
    ensures IsWhitespace(c) <==>
      c as int in {0x09, 0x0A, 0x0B, 0x0C, 0x0D, 0x20, 0x85, 0xA0, 0x1680, 0x2000, 0x2001, 0x2002, 0x2003, 0x2004,
                   0x2005, 0x2006, 0x2007, 0x2008, 0x2009, 0x200A, 0x2028, 0x2029, 0x202F, 0x205F, 0x3000}
  {
  }

  // char::is_control: general category Cc.
  predicate IsControl(c: char) {
    var n := c as int;
    n <= 0x1F || 0x7F <= n <= 0x9F
  }

  // The 32 characters before the space, and DEL with the 32 after it.
  lemma ControlIs(c: char)
    ensures IsControl(c) <==> c < ' ' || (0x7F <= c as int && c as int < 0x7F + 33)
  {
  }

  function TrimStart(s: string): (t: string)
    ensures t == "" || !IsWhitespace(t[0])
  {
    if s != "" && IsWhitespace(s[0]) then TrimStart(s[1..]) else s
  }

  function TrimEnd(s: string): (t: string)
    ensures t <= s
    ensures t == "" || !IsWhitespace(t[|t| - 1])
  {
    if s != "" && IsWhitespace(s[|s| - 1]) then TrimEnd(s[..|s| - 1]) else s
  }

  function Trim(s: string): (t: string)
    ensures t == "" || (!IsWhitespace(t[0]) && !IsWhitespace(t[|t| - 1]))
  {
    TrimEnd(TrimStart(s))
  }

  lemma {:induction false} TrimStartSkips(blanks: string, s: string)
    requires forall i :: 0 <= i < |blanks| ==> IsWhitespace(blanks[i])
    requires s == "" || !IsWhitespace(s[0])
    ensures TrimStart(blanks + s) == s
  {
    if blanks == "" {
      assert blanks + s == s;
    } else {
      assert (blanks + s)[1..] == blanks[1..] + s;
      TrimStartSkips(blanks[1..], s);
    }
  }

  lemma {:induction false} TrimEndKeepsHead(s: string)
    requires s != "" && !IsWhitespace(s[0])
    ensures TrimEnd(s) != "" && TrimEnd(s)[0] == s[0]
  {
    if IsWhitespace(s[|s| - 1]) {
      TrimEndKeepsHead(s[..|s| - 1]);
    }
  }

  // Nothing but whitespace.
  predicate Blanks(s: string) {
    forall i :: 0 <= i < |s| ==> IsWhitespace(s[i])
  }

  lemma {:induction false} TrimStartDrops(s: string) returns (a: string)
    ensures s == a + TrimStart(s) && Blanks(a)
  {
    if s != "" && IsWhitespace(s[0]) {
      var rest := TrimStartDrops(s[1..]);
      a := [s[0]] + rest;
    } else {
      a := "";
    }
  }

  lemma {:induction false} TrimEndDrops(s: string) returns (b: string)
    ensures s == TrimEnd(s) + b && Blanks(b)
  {
    if s != "" && IsWhitespace(s[|s| - 1]) {
      var rest := TrimEndDrops(s[..|s| - 1]);
      b := rest + [s[|s| - 1]];
    } else {
      b := "";
    }
  }

  lemma {:induction false} TrimEndSkips(s: string, blanks: string)
    requires Blanks(blanks) && (s == "" || !IsWhitespace(s[|s| - 1]))
    ensures TrimEnd(s + blanks) == s
  {
    if blanks == "" {
      assert s + blanks == s;
    } else {
      var n := |blanks| - 1;
      assert (s + blanks)[..|s| + n] == s + blanks[..n];
      TrimEndSkips(s, blanks[..n]);
    }
  }

  // trim takes blanks away at both ends ...
  lemma TrimDrops(s: string) returns (a: string, b: string)
    ensures s == a + Trim(s) + b && Blanks(a) && Blanks(b)
  {
    a := TrimStartDrops(s);
    b := TrimEndDrops(TrimStart(s));
    Assoc(a, Trim(s), b);
  }

  // ... and all of them: what begins and ends with something else is what is left.
  lemma TrimLeaves(a: string, t: string, b: string)
    requires Blanks(a) && Blanks(b)
    requires t == "" || (!IsWhitespace(t[0]) && !IsWhitespace(t[|t| - 1]))
    ensures Trim(a + t + b) == t
  {
    if t == "" {
      assert a + t + b == (a + b) + "";
      TrimStartSkips(a + b, "");
    } else {
      Assoc(a, t, b);
      TrimStartSkips(a, t + b);
      TrimEndSkips(t, b);
    }
  }

  lemma TrimStartFront(s: string, x: string)
    requires x != "" && !IsWhitespace(x[0])
    ensures TrimStart(s + x) == TrimStart(s) + x
  {
    var a := TrimStartDrops(s);
    Assoc(a, TrimStart(s), x);
    assert (TrimStart(s) + x)[0] == if TrimStart(s) == "" then x[0] else TrimStart(s)[0];
    TrimStartSkips(a, TrimStart(s) + x);
  }

  lemma TrimEndBack(x: string, s: string)
    requires x != "" && !IsWhitespace(x[|x| - 1])
    ensures TrimEnd(x + s) == x + TrimEnd(s)
  {
    var b := TrimEndDrops(s);
    Assoc(x, TrimEnd(s), b);
    TrimEndSkips(x + TrimEnd(s), b);
  }

  lemma TrimAfterEnd(s: string)
    ensures Trim(TrimEnd(s)) == Trim(s)
  {
    var t := Trim(TrimEnd(s));
    var a, b := TrimDrops(TrimEnd(s));
    var c := TrimEndDrops(s);
    Assoc(a + t, b, c);
    TrimLeaves(a, t, b + c);
  }

  lemma TrimTwice(s: string)
    ensures Trim(Trim(s)) == Trim(s)
  {
    var t := Trim(s);
    assert "" + t + "" == t;
    TrimLeaves("", t, "");
  }

  predicate IsBlank(s: string) {
    Trim(s) == ""
  }

  // to_ascii_lowercase
  function LowerChar(c: char): char {
    if 'A' <= c <= 'Z' then (c as int + 32) as char else c
  }

  const UPPER_CASE := "ABCDEFGHIJKLMNOPQRSTUVWXYZ"
  const LOWER_CASE := "abcdefghijklmnopqrstuvwxyz"

  // The 26 letters of ASCII and no other character.
  lemma LowerCharIs(k: nat, c: char)
    requires k < 26
    ensures LowerChar(UPPER_CASE[k]) == LOWER_CASE[k]
    ensures (forall i :: 0 <= i < 26 ==> UPPER_CASE[i] != c) ==> LowerChar(c) == c
  {
    assert UPPER_CASE[k] as int == 0x41 + k && LOWER_CASE[k] as int == 0x61 + k;
    if 'A' <= c <= 'Z' {
      assert UPPER_CASE[c as int - 0x41] == c;
    }
  }

  function Lower(s: string): (t: string)
    ensures |t| == |s| && forall i :: 0 <= i < |s| ==> t[i] == LowerChar(s[i])
  {
    seq(|s|, i requires 0 <= i < |s| => LowerChar(s[i]))
  }

  lemma LowerTwice(s: string)
    ensures Lower(Lower(s)) == Lower(s)
  {
  }

  // Index of the first c, or |s|.
  function Find(s: string, c: char): (k: nat)
    ensures k <= |s| && (k < |s| ==> s[k] == c) && forall i :: 0 <= i < k ==> s[i] != c
  {
    if s == "" || s[0] == c then 0 else 1 + Find(s[1..], c)
  }

  function Digit(n: nat): char
    requires n < 10
  {
    ('0' as int + n) as char
  }

  function Decimal(n: nat): string {
    if n < 10 then [Digit(n)] else Decimal(n / 10) + [Digit(n % 10)]
  }

  // What a reader makes of decimal digits.
  function ReadDecimal(s: string): int {
    if s == "" then 0 else ReadDecimal(s[..|s| - 1]) * 10 + (s[|s| - 1] as int - '0' as int)
  }

  // Digits without a leading zero, and they read back.
  lemma {:induction false} DecimalReads(n: nat)
    ensures Decimal(n) != "" && forall i :: 0 <= i < |Decimal(n)| ==> '0' <= Decimal(n)[i] <= '9'
    ensures n > 0 ==> Decimal(n)[0] != '0'
    ensures ReadDecimal(Decimal(n)) == n
  {
    if n < 10 {
      assert [Digit(n)][..0] == "";
    } else {
      DecimalReads(n / 10);
      assert Decimal(n)[..|Decimal(n)| - 1] == Decimal(n / 10);
    }
  }

  // str::lines: a line ends at \n or \r\n, the last one also without.
  function Lines(s: string): seq<string>
    decreases |s|
  {
    if s == "" then []
    else
      var k := Find(s, '\n');
      if k == |s| then [s]
      else
        var line := s[..k];
        [if line != "" && line[|line| - 1] == '\r' then line[..|line| - 1] else line] + Lines(s[k + 1..])
  }

  lemma FindAt(s: string, c: char, rest: string)
    requires c !in s
    ensures Find(s + [c] + rest, c) == |s| && Find(s, c) == |s|
  {
    assert (s + [c] + rest)[|s|] == c;
    assert forall i :: 0 <= i < |s| ==> s[i] != c;
    assert forall i :: 0 <= i < |s| ==> (s + [c] + rest)[i] == s[i];
  }

  // What comes before a line feed is the first line, less one carriage return; without a
  // line feed everything is.
  lemma LinesFirst(line: string, rest: string)
    requires '\n' !in line
    ensures Lines(line + "\n" + rest)
         == [if line != "" && line[|line| - 1] == '\r' then line[..|line| - 1] else line] + Lines(rest)
  {
    var s := line + "\n" + rest;
    FindAt(line, '\n', rest);
    assert s[..|line|] == line && s[|line| + 1..] == rest;
  }

  // A line is read back from either ending, and a last one without.
  lemma LineReadBack(line: string, rest: string)
    requires '\n' !in line
    ensures Lines(line + "\r" + "\n" + rest) == [line] + Lines(rest)
    ensures line == "" || line[|line| - 1] != '\r' ==> Lines(line + "\n" + rest) == [line] + Lines(rest)
    ensures Lines(line) == if line == "" then [] else [line]
  {
    LinesFirst(line + "\r", rest);
    assert (line + "\r")[..|line|] == line;
    LinesFirst(line, rest);
    FindAt(line, '\n', "");
  }
}
