/**
 * The few pieces of Python's string and integer semantics that the stack
 * visualizer relies on: str.isspace/str.strip, str.split with and without a
 * maximum split count, str.startswith, str(int) and the floor modulo `%`.
 */
module Text {

  /** Python's str.isspace() on a single character (ASCII and Unicode white space). */
  predicate IsSpace(c: char) {
    c == ' ' || ('\t' <= c <= '\r') || ('\U{1c}' <= c <= '\U{1f}') ||
    c == '\U{85}' || c == '\U{a0}' || c == '\U{1680}' ||
    ('\U{2000}' <= c <= '\U{200a}') || c == '\U{2028}' || c == '\U{2029}' ||
    c == '\U{202f}' || c == '\U{205f}' || c == '\U{3000}'
  }

  /** Drops leading white space: the result is the suffix of `s` that starts at its first non-space. */
  function TrimLeft(s: string): (r: string)
    ensures |r| <= |s| && r == s[|s| - |r|..]
    ensures forall i :: 0 <= i < |s| - |r| ==> IsSpace(s[i])
    ensures r == [] || !IsSpace(r[0])
  {
    if s != [] && IsSpace(s[0]) then
      var r := TrimLeft(s[1..]);
      assert s[1..][|s| - 1 - |r|..] == s[|s| - |r|..];
      assert forall i :: 1 <= i < |s| ==> s[1..][i - 1] == s[i];
      r
    else s
  }

  /** Drops trailing white space: the result is the prefix of `s` that ends at its last non-space. */
  function TrimRight(s: string): (r: string)
    ensures |r| <= |s| && r == s[..|r|]
    ensures forall i :: |r| <= i < |s| ==> IsSpace(s[i])
    ensures r == [] || !IsSpace(r[|r| - 1])
  {
    if s != [] && IsSpace(s[|s| - 1]) then
      var r := TrimRight(s[..|s| - 1]);
      assert s[..|s| - 1][..|r|] == s[..|r|];
      assert forall i :: 0 <= i < |s| - 1 ==> s[..|s| - 1][i] == s[i];
      r
    else s
  }

  /** Python's str.strip() with no argument. */
  function Strip(s: string): (r: string)
  {
    TrimRight(TrimLeft(s))
  }

  /** A stripped string is empty exactly when every character of the original is white space. */
  lemma StripEmptyIffBlank(s: string)
    ensures Strip(s) == [] <==> forall i :: 0 <= i < |s| ==> IsSpace(s[i])
  {
    var t := TrimLeft(s);
    if !forall i :: 0 <= i < |s| ==> IsSpace(s[i]) {
      var k :| 0 <= k < |s| && !IsSpace(s[k]);
      assert |s| - |t| <= k;
      assert t[k - (|s| - |t|)] == s[k];
      assert TrimRight(t) != [];
    }
  }

  /** Stripping twice is the same as stripping once. */
  lemma StripIdempotent(s: string)
    ensures Strip(Strip(s)) == Strip(s)
  {
    var r := Strip(s);
    if r != [] {
      assert TrimLeft(r) == r;
      assert TrimRight(r) == r;
    }
  }

  /** How often `c` occurs in `s`. */
  function Count(s: string, c: char): nat {
    multiset(s)[c]
  }

  /** Python's s.find(c, from) for one character: the first index of `c` at or after `from`, or -1. */
  function FindFrom(s: string, c: char, from: nat): (r: int)
    ensures r == -1 || from <= r < |s|
    ensures r != -1 ==> s[r] == c && forall k :: from <= k < r ==> s[k] != c
    ensures r == -1 ==> forall k :: from <= k < |s| ==> s[k] != c
    decreases |s| - from
  {
    if from >= |s| then -1
    else if s[from] == c then from
    else FindFrom(s, c, from + 1)
  }

  /** Python's s.find(c) for one character: the index of the first `c`, or -1 when there is none. */
  function Find(s: string, c: char): (r: int)
    ensures -1 <= r < |s|
    ensures 0 <= r ==> s[r] == c && forall k :: 0 <= k < r ==> s[k] != c
    ensures r == -1 ==> forall k :: 0 <= k < |s| ==> s[k] != c
  {
    FindFrom(s, c, 0)
  }

  /** `c` is found exactly when it occurs in `s`. */
  lemma FindIffIn(s: string, c: char)
    ensures Find(s, c) >= 0 <==> c in s
  {
    if c in s {
      var k :| 0 <= k < |s| && s[k] == c;
      assert s[k] == c;
    }
  }

  /** A string without `c` counts no `c`. */
  lemma CountNone(s: string, c: char)
    requires forall k :: 0 <= k < |s| ==> s[k] != c
    ensures Count(s, c) == 0
  {
    assert c !in s;
  }

  /** A string is the text before position i, the character at i and the text after it. */
  lemma SplitAt(s: string, i: nat)
    requires i < |s|
    ensures s == s[..i] + [s[i]] + s[i + 1..]
  {
  }

  /** Cutting out the first `c`: the count drops by one, none of them before it. */
  lemma CountAround(s: string, c: char, i: nat)
    requires Find(s, c) == i
    ensures Count(s, c) == 1 + Count(s[i + 1..], c)
  {
    SplitAt(s, i);
    assert multiset(s) == multiset(s[..i]) + multiset([c]) + multiset(s[i + 1..]);
    CountNone(s[..i], c);
  }

  /** The inverse of splitting: the pieces glued back together with `sep` between them. */
  function Join(parts: seq<string>, sep: char): string {
    if parts == [] then [] else if |parts| == 1 then parts[0] else parts[0] + [sep] + Join(parts[1..], sep)
  }

  /** Python's s.split(sep) for a one-character separator: every occurrence splits. */
  function Split(s: string, sep: char): seq<string>
    decreases |s|
  {
    var i := Find(s, sep);
    if i == -1 then [s] else [s[..i]] + Split(s[i + 1..], sep)
  }

  /**
   * Python's s.split(sep, maxsplit) for a one-character separator: at most
   * `maxsplit` splits are made, from the left, and the rest stays in the last piece.
   */
  function SplitMax(s: string, sep: char, maxsplit: nat): seq<string>
    decreases maxsplit
  {
    var i := Find(s, sep);
    if maxsplit == 0 || i == -1 then [s] else [s[..i]] + SplitMax(s[i + 1..], sep, maxsplit - 1)
  }

  /** A split yields one piece more than there are separators. */
  lemma {:induction false} SplitLength(s: string, sep: char)
    ensures |Split(s, sep)| == Count(s, sep) + 1
    decreases |s|
  {
    var i := Find(s, sep);
    if i == -1 {
      CountNone(s, sep);
    } else {
      SplitLength(s[i + 1..], sep);
      CountAround(s, sep, i);
    }
  }

  /** No piece of a split holds the separator. */
  lemma {:induction false} SplitPieces(s: string, sep: char)
    ensures var r := Split(s, sep);
            forall i :: 0 <= i < |r| ==> sep !in r[i]
    decreases |s|
  {
    var i := Find(s, sep);
    if i != -1 {
      SplitPieces(s[i + 1..], sep);
      assert Split(s, sep) == [s[..i]] + Split(s[i + 1..], sep);
      assert forall k :: 0 <= k < i ==> s[..i][k] != sep;
      assert sep !in s[..i];
    }
  }

  /** Joining a first piece in front of pieces that join to `tail` puts one separator between the two. */
  lemma JoinCons(head: string, rest: seq<string>, sep: char, tail: string)
    requires |rest| >= 1 && Join(rest, sep) == tail
    ensures Join([head] + rest, sep) == head + [sep] + tail
  {
    assert ([head] + rest)[1..] == rest;
  }

  /** Joining the pieces of a split gives back the string. */
  lemma {:induction false} SplitJoin(s: string, sep: char)
    ensures Join(Split(s, sep), sep) == s
    decreases |s|
  {
    var i := Find(s, sep);
    if i != -1 {
      var tail := s[i + 1..];
      SplitJoin(tail, sep);
      SplitLength(tail, sep);
      JoinCons(s[..i], Split(tail, sep), sep, tail);
      SplitAt(s, i);
    }
  }

  /** A bounded split yields at least one and at most maxsplit + 1 pieces. */
  lemma {:induction false} SplitMaxLength(s: string, sep: char, maxsplit: nat)
    ensures 1 <= |SplitMax(s, sep, maxsplit)| <= maxsplit + 1
    decreases maxsplit
  {
    var i := Find(s, sep);
    if maxsplit != 0 && i != -1 {
      SplitMaxLength(s[i + 1..], sep, maxsplit - 1);
    }
  }

  /** No piece of a bounded split but the last holds the separator. */
  lemma {:induction false} SplitMaxPieces(s: string, sep: char, maxsplit: nat)
    ensures var r := SplitMax(s, sep, maxsplit);
            forall i :: 0 <= i < |r| - 1 ==> sep !in r[i]
    decreases maxsplit
  {
    var i := Find(s, sep);
    if maxsplit != 0 && i != -1 {
      SplitMaxPieces(s[i + 1..], sep, maxsplit - 1);
      assert SplitMax(s, sep, maxsplit) == [s[..i]] + SplitMax(s[i + 1..], sep, maxsplit - 1);
      assert forall k :: 0 <= k < i ==> s[..i][k] != sep;
      assert sep !in s[..i];
    } else {
      assert SplitMax(s, sep, maxsplit) == [s];
    }
  }

  /** Joining the pieces of a bounded split gives back the string. */
  lemma {:induction false} SplitMaxJoin(s: string, sep: char, maxsplit: nat)
    ensures Join(SplitMax(s, sep, maxsplit), sep) == s
    decreases maxsplit
  {
    var i := Find(s, sep);
    if maxsplit != 0 && i != -1 {
      var tail := s[i + 1..];
      SplitMaxJoin(tail, sep, maxsplit - 1);
      SplitMaxLength(tail, sep, maxsplit - 1);
      JoinCons(s[..i], SplitMax(tail, sep, maxsplit - 1), sep, tail);
      SplitAt(s, i);
    }
  }

  /** The first of two splits on a space, when the string holds one. */
  lemma SplitMaxTwo(s: string, i: nat)
    requires Find(s, ' ') == i
    ensures SplitMax(s, ' ', 2) == [s[..i]] + SplitMax(s[i + 1..], ' ', 1)
  {
  }

  /** A single split on a space: one piece without a space, otherwise the text around the first one. */
  lemma SplitMaxOne(t: string)
    ensures var j := Find(t, ' ');
            SplitMax(t, ' ', 1) == if j == -1 then [t] else [t[..j], t[j + 1..]]
  {
    var j := Find(t, ' ');
    if j != -1 {
      assert SplitMax(t[j + 1..], ' ', 0) == [t[j + 1..]];
      assert SplitMax(t, ' ', 1) == [t[..j]] + SplitMax(t[j + 1..], ' ', 0);
    }
  }

  /**
   * `s.split(' ', 2)` yields exactly two pieces exactly when `s` holds exactly
   * one space, and then they are the text before and after that space.
   */
  lemma SplitTwoIffOneSpace(s: string)
    ensures |SplitMax(s, ' ', 2)| == 2 <==> Count(s, ' ') == 1
    ensures Count(s, ' ') == 1 ==>
              var i := Find(s, ' ');
              0 <= i && SplitMax(s, ' ', 2) == [s[..i], s[i + 1..]]
  {
    var i := Find(s, ' ');
    if i == -1 {
      CountNone(s, ' ');
      assert SplitMax(s, ' ', 2) == [s];
    } else {
      var rest := s[i + 1..];
      CountAround(s, ' ', i);
      SplitMaxTwo(s, i);
      SplitMaxOne(rest);
      var j := Find(rest, ' ');
      if j == -1 {
        CountNone(rest, ' ');
      } else {
        CountAround(rest, ' ', j);
      }
    }
  }

  /** Python's s.startswith(p). */
  predicate StartsWith(s: string, p: string) {
    |p| <= |s| && s[..|p|] == p
  }

  /** The decimal digit character of `d`. */
  function DigitChar(d: nat): (c: char)
    requires d < 10
    ensures '0' <= c <= '9'
  {
    "0123456789"[d]
  }

  predicate IsDigits(s: string) {
    forall i :: 0 <= i < |s| ==> '0' <= s[i] <= '9'
  }

  /** The decimal notation of a natural number, without leading zeros. */
  function NatToDecimal(n: nat): (s: string)
    ensures |s| >= 1 && IsDigits(s)
    ensures s[0] == '0' ==> n == 0
    decreases n
  {
    if n < 10 then [DigitChar(n)] else NatToDecimal(n / 10) + [DigitChar(n % 10)]
  }

  /** Python's str(n) for an int: an optional minus sign and the decimal digits. */
  function ToDecimal(n: int): (s: string)
  {
    if n < 0 then "-" + NatToDecimal(-n) else NatToDecimal(n)
  }

  /** Reads a string of decimal digits back as a number (the partner of NatToDecimal). */
  function ParseNat(s: string): nat
    requires IsDigits(s)
  {
    if s == [] then 0 else 10 * ParseNat(s[..|s| - 1]) + (s[|s| - 1] - '0') as nat
  }

  /** Reads an optionally signed decimal numeral back as an int (the partner of ToDecimal). */
  function ParseDecimal(s: string): int
    requires IsNumeral(s)
  {
    if s[0] == '-' then -(ParseNat(s[1..]) as int) else ParseNat(s)
  }

  /** A decimal numeral with an optional leading minus sign. */
  predicate IsNumeral(s: string) {
    s != [] && if s[0] == '-' then IsDigits(s[1..]) else IsDigits(s)
  }

  lemma {:induction false} ParseNatToDecimal(n: nat)
    ensures ParseNat(NatToDecimal(n)) == n
    decreases n
  {
    var s := NatToDecimal(n);
    if n < 10 {
      assert "0123456789"[n] as int - '0' as int == n;
    } else {
      ParseNatToDecimal(n / 10);
      assert s[..|s| - 1] == NatToDecimal(n / 10);
      assert "0123456789"[n % 10] as int - '0' as int == n % 10;
    }
  }

  /** A minus sign followed by digits is a numeral and reads back as the negated digits. */
  lemma ParseNegated(d: string)
    requires IsDigits(d) && d != []
    ensures IsNumeral("-" + d) && ParseDecimal("-" + d) == -(ParseNat(d) as int)
  {
    var s := "-" + d;
    assert s[0] == '-' && s[1..] == d;
  }

  /** str(n) is read back as n, so distinct numbers get distinct labels. */
  lemma ParseToDecimal(n: int)
    ensures IsNumeral(ToDecimal(n))
    ensures ParseDecimal(ToDecimal(n)) == n
  {
    if n < 0 {
      ParseNatToDecimal(-n);
      ParseNegated(NatToDecimal(-n));
    } else {
      ParseNatToDecimal(n);
    }
  }

  /** Python's a % b for b != 0: the remainder takes the sign of the divisor. */
  function PyMod(a: int, b: int): (r: int)
    requires b != 0
    ensures 0 < b ==> 0 <= r < b
    ensures b < 0 ==> b < r <= 0
    ensures a == b * FloorDiv(a, b) + r
  {
    var m := a % b;
    if b < 0 && m != 0 then m + b else m
  }

  /** Python's a // b for b != 0: the quotient rounded down. */
  function FloorDiv(a: int, b: int): int
    requires b != 0
  {
    if b < 0 && a % b != 0 then a / b - 1 else a / b
  }
}
