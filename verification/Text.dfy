/** The string operations the adapters rely on, over sequences of bytes. */
module Text {
  import opened Domain

  // ---------- definitions ----------

  /** The Unicode White_Space property. */
  predicate IsSpaceRune(rune: int) {
    0x9 <= rune <= 0xD || rune == 0x20 || rune == 0x85 || rune == 0xA0 || rune == 0x1680 ||
    0x2000 <= rune <= 0x200A || rune == 0x2028 || rune == 0x2029 || rune == 0x202F || rune == 0x205F || rune == 0x3000
  }

  /** A byte that continues a character in UTF-8. */
  predicate Continues(c: char) { '\U{80}' <= c < '\U{C0}' }

  /** How many bytes a character takes that starts with this one; 0 for more than three, or none. */
  function Length(lead: char): nat {
    if lead < '\U{80}' then 1
    else if '\U{C2}' <= lead < '\U{E0}' then 2
    else if '\U{E0}' <= lead < '\U{F0}' then 3
    else 0
  }

  /** The number that the bytes of one character stand for. */
  function Code(u: string): int
    requires u != ""
  {
    if |u| > 1 then 64 * Code(u[..|u| - 1]) + (u[|u| - 1] as int - 0x80)
    else u[0] as int - (if u[0] < '\U{80}' then 0 else if u[0] < '\U{E0}' then 0xC0 else 0xE0)
  }

  /** The bytes of one white-space character, in the only encoding that is valid for it. */
  predicate IsSpace(u: string) {
    && u != "" && |u| == Length(u[0]) && (forall i :: 1 <= i < |u| ==> Continues(u[i]))
    && (|u| == 3 ==> Code(u) >= 0x800) && IsSpaceRune(Code(u))
  }

  /** How many bytes of white space `s` starts with: those of one character, or none. */
  function SpaceHead(s: string): (n: nat)
    ensures n <= |s|
  {
    if s != "" && Length(s[0]) <= |s| && IsSpace(s[..Length(s[0])]) then Length(s[0]) else 0
  }

  /** How many bytes at the end of `s` do not start a character. */
  function Trailing(s: string): (n: nat)
    ensures n <= |s|
  {
    if s != "" && Continues(s[|s| - 1]) then 1 + Trailing(s[..|s| - 1]) else 0
  }

  /** How many bytes of white space `s` ends with. */
  function SpaceLast(s: string): (n: nat)
    ensures n <= |s|
  {
    var n := 1 + Trailing(s);
    if n <= |s| && IsSpace(s[|s| - n..]) then n else 0
  }

  /** White space through and through. */
  ghost predicate Blank(s: string)
    decreases |s|
  {
    s == "" || (SpaceHead(s) > 0 && Blank(s[SpaceHead(s)..]))
  }

  /** Nothing, or something that starts with white space. */
  ghost predicate Breaks(s: string) {
    s == "" || SpaceHead(s) > 0
  }

  /** Non-empty, with no white space anywhere. */
  ghost predicate Token(s: string) {
    s != "" && forall i :: 0 <= i < |s| ==> SpaceHead(s[i..]) == 0
  }

  /** Non-empty, of visible ASCII characters only. */
  ghost predicate Plain(s: string) {
    s != "" && forall i :: 0 <= i < |s| ==> '!' <= s[i] <= '~'
  }

  /** Neither starts nor ends with white space. */
  ghost predicate Trimmed(s: string) {
    SpaceHead(s) == 0 && SpaceLast(s) == 0
  }

  function TrimLeft(s: string): string
    decreases |s|
  {
    if SpaceHead(s) > 0 then TrimLeft(s[SpaceHead(s)..]) else s
  }

  function TrimRight(s: string): string
    decreases |s|
  {
    if SpaceLast(s) > 0 then TrimRight(s[..|s| - SpaceLast(s)]) else s
  }

  function TrimSpace(s: string): string {
    TrimRight(TrimLeft(s))
  }

  predicate MatchesAt(s: string, m: string, i: int) {
    0 <= i <= |s| - |m| && s[i..i + |m|] == m
  }

  predicate Contains(s: string, m: string) {
    exists i :: 0 <= i <= |s| - |m| && MatchesAt(s, m, i)
  }

  /** The first position at or after `from` where `m` occurs, or -1. */
  function IndexFrom(s: string, m: string, from: nat): (i: int)
    ensures i == -1 || from <= i <= |s| - |m|
    decreases |s| - from
  {
    if from > |s| - |m| then -1
    else if MatchesAt(s, m, from) then from
    else IndexFrom(s, m, from + 1)
  }

  function Index(s: string, m: string): (i: int)
    ensures i == -1 || 0 <= i <= |s| - |m|
  {
    IndexFrom(s, m, 0)
  }

  /** Where the first white space starts. */
  function TokenEnd(s: string): (n: nat)
    ensures n <= |s|
    ensures forall i :: 0 <= i < n ==> SpaceHead(s[i..]) == 0
    ensures Breaks(s[n..])
  {
    if s == "" || SpaceHead(s) > 0 then
      assert s[0..] == s;
      0
    else
      var n := 1 + TokenEnd(s[1..]);
      assert forall i :: 1 <= i < n ==> s[1..][i - 1..] == s[i..];
      assert s[0..] == s && s[1..][n - 1..] == s[n..];
      n
  }

  /** The white-space separated tokens of `s`. */
  function Fields(s: string): seq<string>
    decreases |s|
  {
    if s == "" then []
    else if SpaceHead(s) > 0 then Fields(s[SpaceHead(s)..])
    else
      assert s[0..] == s;
      [s[..TokenEnd(s)]] + Fields(s[TokenEnd(s)..])
  }

  const INT_MIN := -0x8000_0000_0000_0000
  const INT_MAX := 0x7FFF_FFFF_FFFF_FFFF

  predicate IsDigit(c: char) { '0' <= c <= '9' }

  function Digits(n: nat): string {
    var last := ['0' + (n % 10) as char];
    if n < 10 then last else Digits(n / 10) + last
  }

  function Itoa(n: int): string {
    if n < 0 then "-" + Digits(-n) else Digits(n)
  }

  predicate AllDigits(s: string) {
    s != "" && forall i :: 0 <= i < |s| ==> IsDigit(s[i])
  }

  function Numeral(s: string): int
    requires forall i :: 0 <= i < |s| ==> IsDigit(s[i])
  {
    if s == "" then 0 else 10 * Numeral(s[..|s| - 1]) + (s[|s| - 1] as int - '0' as int)
  }

  /** Decimal text to a 64-bit integer: an optional sign, then digits, in range. */
  function Atoi(s: string): Option<int> {
    var signed := s != "" && (s[0] == '-' || s[0] == '+');
    var digits := if signed then s[1..] else s;
    if !AllDigits(digits) then None
    else
      var n := if signed && s[0] == '-' then -Numeral(digits) else Numeral(digits);
      if INT_MIN <= n <= INT_MAX then Some(n) else None
  }

  lemma Reassociate(a: string, b: string, c: string)
    ensures a + (b + c) == (a + b) + c
  {
  }

  lemma DropSeam(s: string, t: string, n: nat)
    requires n <= |s|
    ensures (s + t)[n..] == s[n..] + t
  {
  }

  // ---------- white space at either end ----------

  lemma HeadIs(s: string, n: nat)
    requires n <= |s| && IsSpace(s[..n])
    ensures SpaceHead(s) == n > 0
  {
    assert s[..n][0] == s[0];
  }

  lemma HeadStays(s: string, t: string)
    requires SpaceHead(s) > 0
    ensures SpaceHead(s + t) == SpaceHead(s)
  {
    assert (s + t)[..SpaceHead(s)] == s[..SpaceHead(s)];
  }

  lemma HeadOfPrefix(s: string, k: nat)
    requires k <= |s|
    ensures SpaceHead(s[..k]) > 0 ==> SpaceHead(s) == SpaceHead(s[..k])
  {
    if SpaceHead(s[..k]) > 0 {
      HeadStays(s[..k], s[k..]);
      assert s[..k] + s[k..] == s;
    }
  }

  lemma LastIs(s: string, n: nat)
    requires n <= |s| && IsSpace(s[|s| - n..])
    ensures SpaceLast(s) == n > 0
  {
    var u := s[|s| - n..];
    TrailingIs(s[..|s| - n] + [u[0]], u[1..]);
    assert s[..|s| - n] + [u[0]] + u[1..] == s;
  }

  lemma {:induction false} TrailingIs(s: string, t: string)
    requires forall i :: 0 <= i < |t| ==> Continues(t[i])
    ensures Trailing(s + t) == Trailing(s) + |t|
  {
    if t == "" {
      assert s + t == s;
    } else {
      assert (s + t)[..|s + t| - 1] == s + t[..|t| - 1];
      TrailingIs(s, t[..|t| - 1]);
    }
  }

  lemma {:induction false} TrailingSeam(s: string, t: string)
    ensures Trailing(s + t) == if Trailing(t) == |t| then Trailing(s) + |t| else Trailing(t)
  {
    if t == "" {
      assert s + t == s;
    } else if Continues(t[|t| - 1]) {
      assert (s + t)[..|s + t| - 1] == s + t[..|t| - 1];
      TrailingSeam(s, t[..|t| - 1]);
    }
  }

  /** What follows a string does not change whether it starts with white space, unless it goes on in
      the middle of a character. */
  lemma HeadSeam(s: string, t: string)
    requires s != "" && (Breaks(t) || !Continues(t[0]))
    ensures SpaceHead(s + t) == SpaceHead(s)
  {
    var n, w := Length(s[0]), s + t;
    if n <= |s| {
      assert w[..n] == s[..n];
    } else if n <= |w| {
      assert w[..n][|s|] == t[0];
      assert SpaceHead(t) > 0 ==> !Continues(t[0]);
    }
  }

  /** A string that does not stop in the middle of a character. */
  ghost predicate Whole(s: string) {
    s == "" || SpaceLast(s) > 0 || s[|s| - 1] < '\U{80}'
  }

  /** What precedes a string does not change whether it ends with white space, unless it stops in the
      middle of a character. */
  lemma LastSeam(s: string, t: string)
    requires t != "" && Whole(s)
    ensures SpaceLast(s + t) == SpaceLast(t)
  {
    if Trailing(t) < |t| {
      LastInside(s, t);
    } else if s != "" {
      NoStraddle(s, t);
    } else {
      assert s + t == t;
    }
  }

  lemma LastInside(s: string, t: string)
    requires Trailing(t) < |t|
    ensures SpaceLast(s + t) == SpaceLast(t)
  {
    var n, w := 1 + Trailing(t), s + t;
    TrailingSeam(s, t);
    TakeSeam(s, t, n);
    SameEnd(w, t, n);
  }

  lemma SameEnd(s: string, t: string, n: nat)
    requires n == 1 + Trailing(s) == 1 + Trailing(t) && n <= |s| && n <= |t|
    requires s[|s| - n..] == t[|t| - n..]
    ensures SpaceLast(s) == SpaceLast(t)
  {
  }

  lemma TakeSeam(s: string, t: string, n: nat)
    requires n <= |t|
    ensures (s + t)[|s + t| - n..] == t[|t| - n..]
  {
  }

  lemma NoStraddle(s: string, t: string)
    requires s != "" && t != "" && Whole(s) && Trailing(t) == |t|
    ensures SpaceLast(s + t) == 0
  {
    var m, w := 1 + Trailing(s), s + t;
    TrailingSeam(s, t);
    if m <= |s| {
      var u := w[|w| - (m + |t|)..];
      assert u[0] == s[|s| - m..][0];
      assert Length(u[0]) == m;
    }
  }

  lemma {:induction false} BlankAppend(s: string, t: string)
    requires Blank(s) && Blank(t)
    ensures Blank(s + t)
    decreases |s|
  {
    if s == "" {
      assert s + t == t;
    } else {
      var n := SpaceHead(s);
      HeadStays(s, t);
      DropSeam(s, t, n);
      BlankAppend(s[n..], t);
    }
  }

  lemma BlankUnit(u: string)
    requires IsSpace(u)
    ensures Blank(u)
  {
    assert u[..|u|] == u && u[|u|..] == "";
    HeadIs(u, |u|);
  }

  /** Blanks end with white space, and what is before it is blank. */
  lemma {:induction false} BlankBack(s: string) returns (front: string, u: string)
    requires Blank(s) && s != ""
    ensures s == front + u && IsSpace(u) && Blank(front)
    decreases |s|
  {
    var n := SpaceHead(s);
    if n == |s| {
      front, u := "", s;
      assert s[..n] == s;
    } else {
      var more;
      more, u := BlankBack(s[n..]);
      front := s[..n] + more;
      BlankUnit(s[..n]);
      BlankAppend(s[..n], more);
      Reassociate(s[..n], more, u);
    }
  }

  lemma BlankWhole(s: string)
    requires Blank(s)
    ensures Whole(s)
  {
    if s != "" {
      var front, u := BlankBack(s);
      assert s[|s| - |u|..] == u;
      LastIs(s, |u|);
    }
  }

  /** Blanks hold no visible ASCII character. */
  lemma {:induction false} BlankHides(s: string, c: char)
    requires Blank(s) && '!' <= c <= '~'
    ensures c !in s
    decreases |s|
  {
    if s != "" {
      var n := SpaceHead(s);
      BlankHides(s[n..], c);
      assert s == s[..n] + s[n..];
      SpaceHides(s[..n], c);
    }
  }

  lemma SpaceHides(u: string, c: char)
    requires IsSpace(u) && '!' <= c <= '~'
    ensures c !in u
  {
  }

  lemma PlainToken(s: string)
    requires Plain(s)
    ensures Token(s) && Trimmed(s)
  {
    forall i | 0 <= i < |s|
      ensures SpaceHead(s[i..]) == 0
    {
      if SpaceHead(s[i..]) > 0 {
        SpaceHides(s[i..][..1], s[i]);
      }
    }
    assert s[0..] == s;
    if SpaceLast(s) > 0 {
      SpaceHides(s[|s| - 1..], s[|s| - 1]);
    }
  }

  lemma PlainHead(head: string, s: string)
    requires Plain(head)
    ensures TrimLeft(head + s) == head + s
  {
    if SpaceHead(head + s) > 0 {
      SpaceHides((head + s)[..1], head[0]);
    }
  }

  // ---------- white space, encoded ----------

  /** The code points with the White_Space property. */
  const SPACES: set<int> :=
    {0x9, 0xA, 0xB, 0xC, 0xD, 0x20, 0x85, 0xA0, 0x1680, 0x2000, 0x2001, 0x2002, 0x2003, 0x2004, 0x2005, 0x2006, 0x2007,
     0x2008, 0x2009, 0x200A, 0x2028, 0x2029, 0x202F, 0x205F, 0x3000}

  /** The bytes of a code point of the basic plane in UTF-8. */
  function Encoded(rune: int): string
    requires 0 <= rune < 0x1_0000
  {
    if rune < 0x80 then [rune as char]
    else if rune < 0x800 then [(0xC0 + rune / 64) as char, (0x80 + rune % 64) as char]
    else [(0xE0 + rune / 4096) as char, (0x80 + rune / 64 % 64) as char, (0x80 + rune % 64) as char]
  }

  /** White space is exactly the encodings of those code points. */
  lemma SpacesEncoded(rune: int, u: string)
    requires 0 <= rune < 0x1_0000
    ensures IsSpace(Encoded(rune)) <==> rune in SPACES
    ensures IsSpace(u) ==> Code(u) in SPACES && u == Encoded(Code(u))
  {
    EncodedCode(rune);
    if IsSpace(u) {
      CodeEncoded(u);
    }
  }

  lemma EncodedCode(rune: int)
    requires 0 <= rune < 0x1_0000
    ensures var u := Encoded(rune);
            Code(u) == rune && |u| == Length(u[0]) && forall i :: 1 <= i < |u| ==> Continues(u[i])
  {
    var u := Encoded(rune);
    if |u| >= 2 {
      assert u[..|u| - 1][..1] == [u[0]] && Code([u[0]]) == u[0] as int - (if rune < 0x800 then 0xC0 else 0xE0);
      if |u| == 3 {
        assert u[..2][..1] == [u[0]] && u[..2][1] == u[1];
      } else {
        assert u[..1] == [u[0]];
      }
    }
  }

  lemma CodeEncoded(u: string)
    requires IsSpace(u)
    ensures 0 <= Code(u) < 0x1_0000 && u == Encoded(Code(u))
  {
    if |u| == 2 {
      assert u[..1] == [u[0]];
      assert u == [u[0], u[1]];
    } else if |u| == 3 {
      var a, b, c := u[0] as int - 0xE0, u[1] as int - 0x80, u[2] as int - 0x80;
      assert u[..2][..1] == [u[0]] && u[..2][1] == u[1];
      assert Code(u[..2]) == 64 * a + b;
      assert Code(u) == 4096 * a + 64 * b + c;
      ThreeDigits(a, b, c);
      assert u == [u[0], u[1], u[2]];
    } else {
      assert u == [u[0]];
    }
  }

  lemma ThreeDigits(a: int, b: int, c: int)
    requires 0 <= b < 64 && 0 <= c < 64
    ensures var n := 4096 * a + 64 * b + c; n / 4096 == a && n / 64 % 64 == b && n % 64 == c
  {
    var n := 4096 * a + 64 * b + c;
    assert n / 64 == 64 * a + b;
  }

  // ---------- trimming ----------

  lemma {:induction false} TrimLeftDrops(lead: string, s: string)
    requires Blank(lead)
    ensures TrimLeft(lead + s) == TrimLeft(s)
    decreases |lead|
  {
    if lead == "" {
      assert lead + s == s;
    } else {
      var n := SpaceHead(lead);
      HeadStays(lead, s);
      DropSeam(lead, s, n);
      TrimLeftDrops(lead[n..], s);
    }
  }

  lemma TrimRightStep(s: string, u: string)
    requires IsSpace(u)
    ensures TrimRight(s + u) == TrimRight(s)
  {
    assert (s + u)[|s|..] == u && (s + u)[..|s|] == s;
    LastIs(s + u, |u|);
  }

  lemma LastUnit(s: string) returns (front: string, u: string)
    requires SpaceLast(s) > 0
    ensures s == front + u && |u| == SpaceLast(s) && IsSpace(u)
    ensures TrimRight(s) == TrimRight(front)
  {
    front, u := s[..|s| - SpaceLast(s)], s[|s| - SpaceLast(s)..];
  }

  lemma {:induction false} TrimRightDrops(s: string, trail: string)
    requires Blank(trail)
    ensures TrimRight(s + trail) == TrimRight(s)
    decreases |trail|
  {
    if trail == "" {
      assert s + trail == s;
    } else {
      var front, u := BlankBack(trail);
      TrimRightDrops(s, front);
      Reassociate(s, front, u);
      TrimRightStep(s + front, u);
    }
  }

  /** What trimming on the right leaves is a prefix, and only white space went. */
  lemma {:induction false} TrimRightSplits(s: string) returns (trail: string)
    ensures s == TrimRight(s) + trail && Blank(trail) && SpaceLast(TrimRight(s)) == 0
    decreases |s|
  {
    trail := "";
    if SpaceLast(s) > 0 {
      var front, u := LastUnit(s);
      var t := TrimRightSplits(front);
      BlankUnit(u);
      BlankAppend(t, u);
      Reassociate(TrimRight(s), t, u);
      trail := t + u;
    }
  }

  /** Blanks around a text that starts and ends solid are all that trimming removes. */
  lemma TrimSpaceStrips(lead: string, s: string, trail: string)
    requires Blank(lead) && Blank(trail) && Trimmed(s)
    ensures TrimSpace(lead + s + trail) == s
  {
    Reassociate(lead, s, trail);
    TrimLeftDrops(lead, s + trail);
    if s == "" {
      assert s + trail == trail == trail + "" == "" + trail;
      TrimLeftDrops(trail, "");
    } else {
      HeadSeam(s, trail);
      TrimRightDrops(s, trail);
    }
  }

  lemma {:induction false} TrimRightAppend(head: string, s: string)
    requires Plain(head)
    ensures TrimRight(head + s) == head + TrimRight(s)
    decreases |s|
  {
    if s == "" {
      PlainToken(head);
      assert head + s == head;
    } else if SpaceLast(s) > 0 {
      var front, u := LastUnit(s);
      TrimRightAppend(head, front);
      Reassociate(head, front, u);
      TrimRightStep(head + front, u);
    } else {
      LastSeam(head, s);
    }
  }

  // ---------- tokens ----------

  lemma {:induction false} FieldsOfBlank(s: string)
    requires Blank(s)
    ensures Fields(s) == []
    decreases |s|
  {
    if s != "" {
      FieldsOfBlank(s[SpaceHead(s)..]);
    }
  }

  lemma {:induction false} FieldsSkip(lead: string, s: string)
    requires Blank(lead)
    ensures Fields(lead + s) == Fields(s)
    decreases |lead|
  {
    if lead == "" {
      assert lead + s == s;
    } else {
      var n := SpaceHead(lead);
      HeadStays(lead, s);
      DropSeam(lead, s, n);
      FieldsSkip(lead[n..], s);
    }
  }

  lemma FieldsFirst(token: string, rest: string)
    requires Token(token) && Breaks(rest)
    ensures Fields(token + rest) == [token] + Fields(rest)
  {
    var s := token + rest;
    var n := TokenEnd(s);
    forall i | 0 <= i < |token|
      ensures SpaceHead(s[i..]) == 0
    {
      assert s[i..] == token[i..] + rest;
      HeadSeam(token[i..], rest);
    }
    assert s[|token|..] == rest && s[0..] == s;
    assert n == |token|;
    assert s[..n] == token;
  }

  /** The first token of `s`, and what comes after it. */
  lemma FirstToken(s: string) returns (token: string, rest: string)
    requires s != "" && SpaceHead(s) == 0
    ensures s == token + rest && Token(token) && Breaks(rest)
    ensures Fields(s) == [token] + Fields(rest)
  {
    var n := TokenEnd(s);
    token, rest := s[..n], s[n..];
    assert s[0..] == s;
    forall i | 0 <= i < n
      ensures SpaceHead(token[i..]) == 0
    {
      assert token[i..] == s[i..][..n - i];
      HeadOfPrefix(s[i..], n - i);
    }
  }

  lemma BreaksAppend(rest: string, trail: string)
    requires Breaks(rest) && Blank(trail)
    ensures Breaks(rest + trail)
  {
    if rest != "" {
      HeadSeam(rest, trail);
    } else {
      assert rest + trail == trail;
    }
  }

  lemma {:induction false} FieldsIgnoreTrail(s: string, trail: string)
    requires Blank(trail)
    ensures Fields(s + trail) == Fields(s)
    decreases |s|
  {
    if s == "" {
      assert s + trail == trail;
      FieldsOfBlank(trail);
    } else if SpaceHead(s) > 0 {
      HeadSeam(s, trail);
      DropSeam(s, trail, SpaceHead(s));
      FieldsIgnoreTrail(s[SpaceHead(s)..], trail);
    } else {
      var token, rest := FirstToken(s);
      FieldsIgnoreTrail(rest, trail);
      BreaksAppend(rest, trail);
      FieldsFirst(token, rest + trail);
      Reassociate(token, rest, trail);
    }
  }

  /** Trimming changes no token. */
  lemma FieldsOfTrimmed(s: string)
    ensures Fields(TrimRight(s)) == Fields(s)
    ensures Fields(TrimSpace(s)) == Fields(s)
  {
    var trail := TrimRightSplits(s);
    FieldsIgnoreTrail(TrimRight(s), trail);
    var left := TrimLeft(s);
    trail := TrimRightSplits(left);
    FieldsIgnoreTrail(TrimRight(left), trail);
    FieldsOfTrimLeft(s);
  }

  lemma {:induction false} FieldsOfTrimLeft(s: string)
    ensures Fields(TrimLeft(s)) == Fields(s)
    decreases |s|
  {
    if SpaceHead(s) > 0 {
      FieldsOfTrimLeft(s[SpaceHead(s)..]);
    }
  }

  // ---------- occurrences ----------

  lemma {:induction false} IndexFromIs(s: string, m: string, from: nat)
    ensures var i := IndexFrom(s, m, from);
            && (i >= 0 ==> MatchesAt(s, m, i))
            && forall j :: from <= j < (if i >= 0 then i else |s| + 1) ==> !MatchesAt(s, m, j)
    decreases |s| - from
  {
    if from <= |s| - |m| && !MatchesAt(s, m, from) {
      IndexFromIs(s, m, from + 1);
    }
  }

  lemma ContainsPrefix(s: string, t: string, m: string)
    requires Contains(s, m)
    ensures Contains(s + t, m)
  {
    var i :| 0 <= i <= |s| - |m| && MatchesAt(s, m, i);
    assert (s + t)[i..i + |m|] == s[i..i + |m|];
    assert MatchesAt(s + t, m, i);
  }

  /** A marker in a whole starts in the head or lies in the rest. */
  lemma ContainsAfter(head: string, s: string, m: string)
    requires m != "" && Contains(head + s, m)
    ensures m[0] in head || Contains(s, m)
  {
    var w := head + s;
    var i :| 0 <= i <= |w| - |m| && MatchesAt(w, m, i);
    assert w[i] == m[0];
    if i >= |head| {
      assert s[i - |head|..i - |head| + |m|] == m;
      assert MatchesAt(s, m, i - |head|);
    } else {
      assert head[i] == m[0];
    }
  }

  /** A marker in a whole lies in one of the two parts or has the character at the seam. */
  lemma ContainsSplit(s: string, t: string, m: string)
    requires Contains(s + t, m)
    ensures Contains(s, m) || Contains(t, m) || (t != "" && t[0] in m)
  {
    var w := s + t;
    var i :| 0 <= i <= |w| - |m| && MatchesAt(w, m, i);
    if i + |m| <= |s| {
      assert s[i..i + |m|] == m;
      assert MatchesAt(s, m, i);
    } else if i >= |s| {
      assert t[i - |s|..i - |s| + |m|] == m;
      assert MatchesAt(t, m, i - |s|);
    } else {
      assert m[|s| - i] == w[i..i + |m|][|s| - i] == w[|s|] == t[0];
    }
  }

  /** Only text with every character of the marker can contain it. */
  lemma ContainsNeeds(s: string, m: string, c: char)
    requires c in m && Contains(s, m)
    ensures c in s
  {
    var i :| 0 <= i <= |s| - |m| && MatchesAt(s, m, i);
    var k :| 0 <= k < |m| && m[k] == c;
    assert s[i + k] == s[i..i + |m|][k] == c;
  }

  // ---------- numbers ----------

  lemma {:induction false} DigitsRead(n: nat)
    ensures AllDigits(Digits(n)) && Numeral(Digits(n)) == n
  {
    var d := Digits(n);
    if n >= 10 {
      DigitsRead(n / 10);
      assert d[..|d| - 1] == Digits(n / 10);
    }
  }

  /** Printing and reading an integer in range are inverse. */
  lemma ItoaAtoi(n: int)
    requires INT_MIN <= n <= INT_MAX
    ensures Atoi(Itoa(n)) == Some(n)
    ensures Plain(Itoa(n))
    ensures forall c | c in Itoa(n) :: IsDigit(c) || c == '-'
  {
    var d := Digits(if n < 0 then -n else n);
    DigitsRead(if n < 0 then -n else n);
    if n < 0 {
      SignedAtoi(d);
    } else {
      UnsignedAtoi(d);
    }
  }

  lemma SignedAtoi(digits: string)
    requires AllDigits(digits) && -Numeral(digits) >= INT_MIN
    requires Numeral(digits) > 0
    ensures Atoi("-" + digits) == Some(-Numeral(digits))
  {
    assert ("-" + digits)[1..] == digits;
  }

  lemma UnsignedAtoi(digits: string)
    requires AllDigits(digits) && 0 <= Numeral(digits) <= INT_MAX
    ensures Atoi(digits) == Some(Numeral(digits))
  {
    assert IsDigit(digits[0]);
  }
}
