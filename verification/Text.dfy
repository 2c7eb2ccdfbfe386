/** The string operations of Rust's standard library that the sources rely on. */
module Text {
  import opened Protocol

  /** Unicode White_Space. */
  predicate IsSpace(c: char) {
    || '\t' <= c <= '\r' || c == ' ' || c == '\U{85}' || c == '\U{A0}' || c == '\U{1680}'
    || '\U{2000}' <= c <= '\U{200A}' || c == '\U{2028}' || c == '\U{2029}' || c == '\U{202F}'
    || c == '\U{205F}' || c == '\U{3000}'
  }

  /** The code points of White_Space in the Unicode Character Database. */
  lemma SpacesExact(c: char)
    ensures IsSpace(c) <==>
              c as int in {0x9, 0xA, 0xB, 0xC, 0xD, 0x20, 0x85, 0xA0, 0x1680,
                           0x2000, 0x2001, 0x2002, 0x2003, 0x2004, 0x2005, 0x2006, 0x2007,
                           0x2008, 0x2009, 0x200A, 0x2028, 0x2029, 0x202F, 0x205F, 0x3000}
  {
  }

  function TrimEnd(s: string): string {
    if s != "" && IsSpace(s[|s| - 1]) then TrimEnd(s[..|s| - 1]) else s
  }

  function TrimStart(s: string): string {
    if s != "" && IsSpace(s[0]) then TrimStart(s[1..]) else s
  }

  function Trim(s: string): string {
    TrimEnd(TrimStart(s))
  }

  predicate AllBlank(s: string) {
    forall c | c in s :: IsSpace(c)
  }

  lemma {:induction false} TrimEndExact(s: string) returns (tail: string)
    ensures s == TrimEnd(s) + tail && AllBlank(tail)
    ensures TrimEnd(s) == "" || !IsSpace(TrimEnd(s)[|TrimEnd(s)| - 1])
    decreases |s|
  {
    if s != "" && IsSpace(s[|s| - 1]) {
      tail := TrimEndExact(s[..|s| - 1]);
      tail := tail + [s[|s| - 1]];
    } else {
      tail := "";
    }
  }

  lemma {:induction false} TrimStartExact(s: string) returns (head: string)
    ensures s == head + TrimStart(s) && AllBlank(head)
    ensures TrimStart(s) == "" || !IsSpace(TrimStart(s)[0])
  {
    if s != "" && IsSpace(s[0]) {
      head := TrimStartExact(s[1..]);
      head := [s[0]] + head;
    } else {
      head := "";
    }
  }

  /** Trimming takes off blanks at both ends and nothing else, and leaves none there. */
  ghost predicate TrimmedTo(s: string, t: string) {
    && (t == "" || (!IsSpace(t[0]) && !IsSpace(t[|t| - 1])))
    && exists head, tail :: Surrounds(s, head, t, tail)
  }

  predicate Surrounds(s: string, head: string, t: string, tail: string) {
    s == head + t + tail && AllBlank(head) && AllBlank(tail)
  }

  lemma TrimExact(s: string)
    ensures TrimmedTo(s, Trim(s))
    ensures Trim(s) == "" <==> AllBlank(s)
  {
    var head := TrimStartExact(s);
    var rest := TrimStart(s);
    var tail := TrimEndExact(rest);
    var t := Trim(s);
    assert s == head + t + tail;
    assert Surrounds(s, head, t, tail);
    if t != "" {
      assert t[0] == rest[0] && t[0] in s;
    } else {
      assert forall c | c in s :: c in head || c in tail;
    }
  }

  /** There is only one way to trim. */
  lemma TrimUnique(s: string, t: string)
    requires TrimmedTo(s, t)
    ensures t == Trim(s)
  {
    TrimExact(s);
    var u := Trim(s);
    var h1, e1 :| Surrounds(s, h1, t, e1);
    var h2, e2 :| Surrounds(s, h2, u, e2);
    if t == "" {
      assert forall c | c in s :: c in h1 || c in e1;
    } else {
      assert t[0] in s;
      SameEnds(s, h1, t, e1, h2, u, e2);
    }
  }

  lemma OnlyInside(s: string, head: string, t: string, tail: string, i: nat)
    requires Surrounds(s, head, t, tail) && i < |s| && !IsSpace(s[i])
    ensures |head| <= i < |head| + |t|
  {
    forall k | 0 <= k < |head| ensures IsSpace(s[k]) {
      assert head[k] in head;
    }
    forall k | |head| + |t| <= k < |s| ensures IsSpace(s[k]) {
      assert s[k] == tail[k - |head| - |t|] && tail[k - |head| - |t|] in tail;
    }
  }

  lemma SameEnds(s: string, h1: string, t: string, e1: string, h2: string, u: string, e2: string)
    requires Surrounds(s, h1, t, e1) && Surrounds(s, h2, u, e2) && t != "" && u != ""
    requires !IsSpace(t[0]) && !IsSpace(t[|t| - 1]) && !IsSpace(u[0]) && !IsSpace(u[|u| - 1])
    ensures t == u
  {
    var n1, n2 := |h1| + |t|, |h2| + |u|;
    assert s[|h1|] == t[0] && s[|h2|] == u[0] && s[n1 - 1] == t[|t| - 1] && s[n2 - 1] == u[|u| - 1];
    OnlyInside(s, h1, t, e1, |h2|);
    OnlyInside(s, h1, t, e1, n2 - 1);
    OnlyInside(s, h2, u, e2, |h1|);
    OnlyInside(s, h2, u, e2, n1 - 1);
    assert t == s[|h1|..n1] && u == s[|h2|..n2];
  }

  /** Lower case of the ASCII letters. */
  function Lower(s: string): string {
    seq(|s|, i requires 0 <= i < |s| => if 'A' <= s[i] <= 'Z' then (s[i] as int + 32) as char else s[i])
  }

  /** Folding the case changes no blank, so it commutes with trimming. */
  lemma {:induction false} TrimEndOfLower(s: string)
    ensures TrimEnd(Lower(s)) == Lower(TrimEnd(s))
    decreases |s|
  {
    if s != "" && IsSpace(s[|s| - 1]) {
      assert Lower(s)[..|s| - 1] == Lower(s[..|s| - 1]);
      TrimEndOfLower(s[..|s| - 1]);
    }
  }

  predicate Contains(s: string, part: string) {
    exists i | 0 <= i <= |s| :: part <= s[i..]
  }

  lemma ContainsExact(s: string, part: string)
    ensures Contains(s, part) <==> exists a, b :: s == a + part + b
  {
    if i :| 0 <= i <= |s| && part <= s[i..] {
      assert s == s[..i] + part + s[i + |part|..];
    }
    if a, b :| s == a + part + b {
      assert s[|a|..] == part + b;
    }
  }

  const UPPER := "ABCDEFGHIJKLMNOPQRSTUVWXYZ"
  const LOWER := "abcdefghijklmnopqrstuvwxyz"

  /** Folding replaces each capital by its small letter, and nothing else. */
  lemma LowerExact(s: string, i: nat)
    requires i < |s|
    ensures |Lower(s)| == |s|
    ensures forall k | 0 <= k < 26 :: s[i] == UPPER[k] ==> Lower(s)[i] == LOWER[k]
    ensures s[i] !in UPPER ==> Lower(s)[i] == s[i]
  {
    var c := s[i];
    if 'A' <= c <= 'Z' {
      var k := c as int - 'A' as int;
      assert UPPER[k] == c;
    }
  }

  /** The first position of `c`, or the length of `s`. */
  function Find(s: string, c: char): (i: nat)
    ensures i <= |s| && c !in s[..i] && (i < |s| ==> s[i] == c)
  {
    if s == "" || s[0] == c then 0
    else
      assert s[..1 + Find(s[1..], c)] == [s[0]] + s[1..][..Find(s[1..], c)];
      1 + Find(s[1..], c)
  }

  lemma FindIs(a: string, c: char, b: string)
    requires c !in a
    ensures Find(a + [c] + b, c) == |a|
  {
    var s := a + [c] + b;
    assert s[|a|] == c;
  }

  lemma FindNone(s: string, c: char)
    ensures c !in s <==> Find(s, c) == |s|
  {
    var i := Find(s, c);
    if i < |s| {
      assert s[i] in s;
    } else {
      assert s[..i] == s;
    }
  }

  function StripCr(line: string): string {
    if line != "" && line[|line| - 1] == '\r' then line[..|line| - 1] else line
  }

  /** `str::lines`: a line feed ends a line, a carriage return just before it is dropped,
      and a last line without a line feed is kept as it is. */
  function Lines(s: string): seq<string>
    decreases |s|
  {
    if s == "" then []
    else
      var i := Find(s, '\n');
      if i == |s| then [s] else [StripCr(s[..i])] + Lines(s[i + 1..])
  }

  lemma LinesCons(line: string, rest: string)
    requires '\n' !in line
    ensures Lines(line + "\n" + rest) == [StripCr(line)] + Lines(rest)
  {
    FindIs(line, '\n', rest);
    var s := line + "\n" + rest;
    assert s[..|line|] == line && s[|line| + 1..] == rest;
  }

  /** A last line without a line feed is kept whole, and an empty text has no line. */
  lemma LinesLast(s: string)
    requires '\n' !in s
    ensures Lines(s) == if s == "" then [] else [s]
  {
    FindNone(s, '\n');
  }

  /** `str::splitn(n, ' ')`. */
  function SplitN(s: string, n: nat): (parts: seq<string>)
    requires n > 0
    ensures 0 < |parts| <= n
    decreases |s|
  {
    var i := Find(s, ' ');
    if n == 1 || i == |s| then [s] else [s[..i]] + SplitN(s[i + 1..], n - 1)
  }

  /** Only the last of `n` parts can hold a space, and no part holds a new character. */
  lemma {:induction false} SplitNParts(s: string, n: nat)
    requires n > 0
    ensures forall i | 0 <= i < |SplitN(s, n)| && i < n - 1 :: ' ' !in SplitN(s, n)[i]
    ensures forall i, c | 0 <= i < |SplitN(s, n)| && c in SplitN(s, n)[i] :: c in s
    decreases n
  {
    var i := Find(s, ' ');
    if n > 1 {
      if i == |s| {
        assert s[..i] == s;
      } else {
        var rest := SplitN(s[i + 1..], n - 1);
        SplitNParts(s[i + 1..], n - 1);
        assert SplitN(s, n) == [s[..i]] + rest;
        forall k, c | 0 <= k < |rest| && c in rest[k] ensures c in s {
          assert c in s[i + 1..];
        }
      }
    }
  }

  function JoinSpaced(parts: seq<string>): string
    requires parts != []
  {
    if |parts| == 1 then parts[0] else parts[0] + " " + JoinSpaced(parts[1..])
  }

  /** Splitting loses nothing. */
  lemma {:induction false} SplitNJoins(s: string, n: nat)
    requires n > 0
    ensures JoinSpaced(SplitN(s, n)) == s
    decreases |s|
  {
    var i := Find(s, ' ');
    if n > 1 && i < |s| {
      SplitNJoins(s[i + 1..], n - 1);
      var rest := SplitN(s[i + 1..], n - 1);
      assert ([s[..i]] + rest)[1..] == rest;
      assert s == s[..i] + " " + s[i + 1..];
    }
  }

  function Spaced(field: string, rest: string): string {
    field + " " + rest
  }

  lemma SplitNCons(field: string, rest: string, n: nat)
    requires ' ' !in field && n > 1
    ensures SplitN(Spaced(field, rest), n) == [field] + SplitN(rest, n - 1)
  {
    FindIs(field, ' ', rest);
    var s := field + " " + rest;
    assert s[..|field|] == field && s[|field| + 1..] == rest;
  }

  // -------------------------------------------------------------- unsigned decimals

  type U32 = n: nat | n < 0x1_0000_0000

  predicate IsDigit(c: char) {
    '0' <= c <= '9'
  }

  function Decimal(n: nat): (s: string)
    ensures s != "" && forall c | c in s :: IsDigit(c)
  {
    var digit := ['0' + (n % 10) as char];
    if n < 10 then digit else Decimal(n / 10) + digit
  }

  function DigitsValue(s: string): nat
    requires forall c | c in s :: IsDigit(c)
  {
    if s == "" then 0
    else
      assert IsDigit(s[|s| - 1]);
      10 * DigitsValue(s[..|s| - 1]) + ((s[|s| - 1] as int) - ('0' as int))
  }

  /** `u32::from_str`: an optional plus sign, at least one digit, no overflow. */
  function ParseU32(s: string): Option<U32> {
    var digits := if s != "" && s[0] == '+' then s[1..] else s;
    if digits == "" || exists c | c in digits :: !IsDigit(c) then None
    else
      var v := DigitsValue(digits);
      if v < 0x1_0000_0000 then Some(v) else None
  }

  predicate Digits(s: string) {
    s != "" && forall c | c in s :: IsDigit(c)
  }

  /** Which texts are read as a number, and which number: digits, with or without a plus sign,
      of a value below 2^32. */
  lemma ParseU32Exact(s: string, n: U32)
    ensures ParseU32(s) == Some(n) <==>
              || (Digits(s) && DigitsValue(s) == n)
              || (s != "" && s[0] == '+' && Digits(s[1..]) && DigitsValue(s[1..]) == n)
  {
    if s != "" && s[0] == '+' {
      assert s[0] in s && !IsDigit(s[0]);
    }
  }

  lemma {:induction false} ValueOfDecimal(n: nat)
    ensures DigitsValue(Decimal(n)) == n
  {
    if n >= 10 {
      ValueOfDecimal(n / 10);
      var s := Decimal(n);
      assert s[..|s| - 1] == Decimal(n / 10);
    } else {
      var s := Decimal(n);
      assert s[..|s| - 1] == "";
    }
  }

  /** Printing a number and reading it back gives the same number. */
  lemma DecimalRoundTrip(n: U32)
    ensures ParseU32(Decimal(n)) == Some(n)
  {
    ValueOfDecimal(n);
    assert Decimal(n)[0] in Decimal(n);
  }
}
