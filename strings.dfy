/**
 * The JavaScript string primitives the chat client and the relay rely on:
 * `includes`, `split` with a non-empty separator, `Array.prototype.join`
 * and `trim`, all on strings as sequences of characters.
 */
module Strings {

  /** The code points `String.prototype.trim` removes: ECMAScript's WhiteSpace and LineTerminator. */
  predicate IsWhitespace(c: char) {
    || c == '\t' || c == '\n' || c == '\U{000B}' || c == '\U{000C}' || c == '\r' || c == ' '
    || c == '\U{00A0}' || c == '\U{1680}' || ('\U{2000}' <= c <= '\U{200A}')
    || c == '\U{2028}' || c == '\U{2029}' || c == '\U{202F}' || c == '\U{205F}'
    || c == '\U{3000}' || c == '\U{FEFF}'
  }

  predicate AllWhitespace(s: string) {
    forall k :: 0 <= k < |s| ==> IsWhitespace(s[k])
  }

  /** Drops leading whitespace. */
  function TrimStart(s: string): string {
    if s != [] && IsWhitespace(s[0]) then TrimStart(s[1..]) else s
  }

  /** Drops trailing whitespace. */
  function TrimEnd(s: string): string {
    if s != [] && IsWhitespace(s[|s| - 1]) then TrimEnd(s[..|s| - 1]) else s
  }

  /** `s.trim()`. */
  function Trim(s: string): string {
    TrimEnd(TrimStart(s))
  }

  /** `TrimStart` removes a whitespace-only prefix and leaves no whitespace in front. */
  lemma {:induction false} TrimStartShape(s: string)
    ensures var r := TrimStart(s);
      && |r| <= |s| && r == s[|s| - |r|..]
      && AllWhitespace(s[..|s| - |r|])
      && (r == [] || !IsWhitespace(r[0]))
    decreases |s|
  {
    if s != [] && IsWhitespace(s[0]) {
      TrimStartShape(s[1..]);
      var r := TrimStart(s);
      assert s[1..][|s| - 1 - |r|..] == s[|s| - |r|..];
      assert s[..|s| - |r|][1..] == s[1..][..|s| - 1 - |r|];
    }
  }

  /** `TrimEnd` removes a whitespace-only suffix and leaves no whitespace at the end. */
  lemma {:induction false} TrimEndShape(s: string)
    ensures var r := TrimEnd(s);
      && |r| <= |s| && r == s[..|r|]
      && AllWhitespace(s[|r|..])
      && (r == [] || !IsWhitespace(r[|r| - 1]))
    decreases |s|
  {
    if s != [] && IsWhitespace(s[|s| - 1]) {
      var t := s[..|s| - 1];
      TrimEndShape(t);
      var r := TrimEnd(s);
      assert t[..|r|] == s[..|r|];
      assert forall k :: 0 <= k < |t| - |r| ==> s[|r|..][k] == t[|r|..][k];
      assert s[|r|..][|s| - 1 - |r|] == s[|s| - 1];
    }
  }

  /**
   * `trim()` removes a whitespace-only prefix and a whitespace-only suffix and
   * leaves no whitespace at either end.
   */
  lemma TrimShape(s: string)
    ensures var r := Trim(s);
      && (exists i :: 0 <= i <= |s| - |r| && r == s[i..i + |r|]
            && AllWhitespace(s[..i]) && AllWhitespace(s[i + |r|..]))
      && (r == [] || (!IsWhitespace(r[0]) && !IsWhitespace(r[|r| - 1])))
  {
    var t := TrimStart(s);
    TrimStartShape(s);
    TrimEndShape(t);
    var r := Trim(s);
    var i := |s| - |t|;
    assert r == t[..|r|] && t == s[i..];
    assert r == s[i..i + |r|];
    assert s[i + |r|..] == t[|r|..];
    if r != [] {
      assert r[0] == t[0];
    }
  }

  lemma {:induction false} TrimStartExact(s: string, i: nat)
    requires i <= |s| && AllWhitespace(s[..i])
    requires i == |s| || !IsWhitespace(s[i])
    ensures TrimStart(s) == s[i..]
    decreases i
  {
    if i > 0 {
      assert IsWhitespace(s[..i][0]);
      assert s[1..][..i - 1] == s[..i][1..];
      TrimStartExact(s[1..], i - 1);
      assert s[1..][i - 1..] == s[i..];
    }
  }

  lemma {:induction false} TrimEndExact(s: string, j: nat)
    requires j <= |s| && AllWhitespace(s[j..])
    requires j == 0 || !IsWhitespace(s[j - 1])
    ensures TrimEnd(s) == s[..j]
    decreases |s| - j
  {
    if j < |s| {
      assert IsWhitespace(s[j..][|s| - 1 - j]);
      var t := s[..|s| - 1];
      assert forall k :: 0 <= k < |t| - j ==> t[j..][k] == s[j..][k];
      TrimEndExact(t, j);
      assert t[..j] == s[..j];
    }
  }

  /**
   * The reference description of `trim`: whatever lies between a whitespace-only
   * prefix and a whitespace-only suffix, with no whitespace at either end, is the
   * trimmed string.
   */
  lemma TrimUnique(s: string, i: nat, j: nat)
    requires i <= j <= |s|
    requires AllWhitespace(s[..i]) && AllWhitespace(s[j..])
    requires i == j || (!IsWhitespace(s[i]) && !IsWhitespace(s[j - 1]))
    ensures Trim(s) == s[i..j]
  {
    if i == j {
      assert s[..i] + s[j..] == s;
      AllWhitespaceConcat(s[..i], s[j..]);
      TrimStartExact(s, |s|);
    } else {
      TrimInner(s, i, j);
    }
  }

  lemma TrimInner(s: string, i: nat, j: nat)
    requires i < j <= |s|
    requires AllWhitespace(s[..i]) && AllWhitespace(s[j..])
    requires !IsWhitespace(s[i]) && !IsWhitespace(s[j - 1])
    ensures Trim(s) == s[i..j]
  {
    TrimStartExact(s, i);
    var t := s[i..];
    assert t[j - i..] == s[j..];
    assert t[j - i - 1] == s[j - 1];
    TrimEndExact(t, j - i);
    assert t[..j - i] == s[i..j];
  }

  lemma AllWhitespaceConcat(a: string, b: string)
    requires AllWhitespace(a) && AllWhitespace(b)
    ensures AllWhitespace(a + b)
  {
    forall k | 0 <= k < |a + b| ensures IsWhitespace((a + b)[k]) {
      if k >= |a| { assert (a + b)[k] == b[k - |a|]; }
    }
  }

  /** A string with no whitespace at either end is its own trim. */
  lemma TrimUnpadded(s: string)
    requires s != [] && !IsWhitespace(s[0]) && !IsWhitespace(s[|s| - 1])
    ensures Trim(s) == s
  {
    assert s[..0] == [] && s[|s|..] == [] && s[0..|s|] == s;
    TrimUnique(s, 0, |s|);
  }

  /** `trim()` is empty exactly for a whitespace-only string. */
  lemma TrimEmpty(s: string)
    ensures Trim(s) == [] <==> AllWhitespace(s)
  {
    var t := TrimStart(s);
    TrimStartShape(s);
    TrimEndShape(t);
    if AllWhitespace(s) {
      TrimStartExact(s, |s|);
    }
  }

  /** Trimming twice is trimming once. */
  lemma TrimIdempotent(s: string)
    ensures Trim(Trim(s)) == Trim(s)
  {
    var r := Trim(s);
    TrimShape(s);
    assert r[..0] == [] && r[|r|..] == [] && r[0..|r|] == r;
    TrimUnique(r, 0, |r|);
  }

  /** `d` occurs in `s` starting at index `i`. */
  predicate OccursAt(s: string, d: string, i: int) {
    0 <= i && i + |d| <= |s| && s[i..i + |d|] == d
  }

  /** `s.includes(d)`. */
  function Includes(s: string, d: string): (b: bool)
    ensures b <==> exists i :: OccursAt(s, d, i)
    decreases |s|
  {
    if |s| < |d| then false
    else if s[..|d|] == d then assert OccursAt(s, d, 0); true
    else
      var b := Includes(s[1..], d);
      IncludesShift(s, d);
      b
  }

  lemma IncludesShift(s: string, d: string)
    requires s != [] && !OccursAt(s, d, 0)
    ensures (exists i :: OccursAt(s[1..], d, i)) <==> (exists i :: OccursAt(s, d, i))
  {
    OccursShift(s, d);
    if exists i :: OccursAt(s, d, i) {
      var i :| OccursAt(s, d, i);
      assert OccursAt(s[1..], d, i - 1);
    }
    if exists i :: OccursAt(s[1..], d, i) {
      var i :| OccursAt(s[1..], d, i);
      assert OccursAt(s, d, i + 1);
    }
  }

  /** Occurrences in `s[1..]` are the occurrences in `s` past index 0, shifted by one. */
  lemma OccursShift(s: string, d: string)
    requires s != []
    ensures forall i :: 0 <= i ==> (OccursAt(s[1..], d, i) <==> OccursAt(s, d, i + 1))
  {
    forall i | 0 <= i ensures OccursAt(s[1..], d, i) <==> OccursAt(s, d, i + 1) {
      if 0 <= i && i + |d| <= |s| - 1 {
        assert s[1..][i..i + |d|] == s[i + 1..i + 1 + |d|];
      }
    }
  }

  /** A string includes each of its prefixes. */
  lemma IncludesPrefix(p: string, rest: string)
    ensures Includes(p + rest, p)
  {
    assert (p + rest)[0..|p|] == p;
    assert OccursAt(p + rest, p, 0);
  }

  /** `parts.join(d)`. */
  function Join(parts: seq<string>, d: string): string {
    if parts == [] then []
    else if |parts| == 1 then parts[0]
    else parts[0] + d + Join(parts[1..], d)
  }

  /** Joining with one more part in front. */
  lemma JoinCons(x: string, parts: seq<string>, d: string)
    requires parts != []
    ensures Join([x] + parts, d) == x + d + Join(parts, d)
  {
    assert ([x] + parts)[1..] == parts;
  }

  /** Joining after extending the first part by one character. */
  lemma JoinExtendHead(c: char, parts: seq<string>, d: string)
    requires parts != []
    ensures Join([[c] + parts[0]] + parts[1..], d) == [c] + Join(parts, d)
  {
    if |parts| > 1 {
      JoinCons([c] + parts[0], parts[1..], d);
      JoinCons(parts[0], parts[1..], d);
      assert [parts[0]] + parts[1..] == parts;
    }
  }

  /** `s.split(d)` for a non-empty separator: cut at every occurrence, scanning left to right. */
  function Split(s: string, d: string): (parts: seq<string>)
    requires d != []
    ensures |parts| >= 1
    decreases |s|
  {
    if |s| >= |d| && s[..|d|] == d then [[]] + Split(s[|d|..], d)
    else if s == [] then [[]]
    else
      var rest := Split(s[1..], d);
      [[s[0]] + rest[0]] + rest[1..]
  }

  /** Joining the parts of a split with the separator gives back the string. */
  lemma {:induction false} SplitJoin(s: string, d: string)
    requires d != []
    ensures Join(Split(s, d), d) == s
    decreases |s|
  {
    if |s| >= |d| && s[..|d|] == d {
      SplitJoin(s[|d|..], d);
      JoinCons([], Split(s[|d|..], d), d);
      assert s == [] + d + s[|d|..];
    } else if s != [] {
      SplitJoin(s[1..], d);
      JoinExtendHead(s[0], Split(s[1..], d), d);
      assert s == [s[0]] + s[1..];
    }
  }

  lemma JoinHead(parts: seq<string>, d: string)
    requires parts != []
    ensures parts[0] <= Join(parts, d)
  {
  }

  /** No part of a split contains the separator. */
  lemma {:induction false} SplitPartsFree(s: string, d: string)
    requires d != []
    ensures forall k :: 0 <= k < |Split(s, d)| ==> !Includes(Split(s, d)[k], d)
    decreases |s|
  {
    var parts := Split(s, d);
    if |s| >= |d| && s[..|d|] == d {
      SplitPartsFree(s[|d|..], d);
      assert !OccursAt(parts[0], d, 0);
      assert forall k :: 1 <= k < |parts| ==> parts[k] == Split(s[|d|..], d)[k - 1];
    } else if s != [] {
      var rest := Split(s[1..], d);
      SplitPartsFree(s[1..], d);
      SplitJoin(s[1..], d);
      var first := [s[0]] + rest[0];
      JoinHead(rest, d);
      assert first <= s;
      OccursShift(first, d);
      assert first[1..] == rest[0];
      forall i ensures !OccursAt(first, d, i) {
        if i > 0 { assert !OccursAt(rest[0], d, i - 1); }
      }
      assert forall k :: 1 <= k < |parts| ==> parts[k] == rest[k];
    }
  }

  /** A split yields more than one part exactly when the separator occurs. */
  lemma SplitSingle(s: string, d: string)
    requires d != []
    ensures |Split(s, d)| == 1 <==> !Includes(s, d)
    ensures !Includes(s, d) ==> Split(s, d) == [s]
  {
    var parts := Split(s, d);
    SplitPartsFree(s, d);
    SplitJoin(s, d);
    if |parts| == 1 {
      assert Join(parts, d) == parts[0];
    } else {
      assert parts[0] + d + Join(parts[1..], d) == s;
      assert OccursAt(s, d, |parts[0]|) by {
        assert s[|parts[0]|..|parts[0]| + |d|] == (parts[0] + d + Join(parts[1..], d))[|parts[0]|..|parts[0]| + |d|];
      }
    }
  }

  /**
   * At the first occurrence `i` of the separator, the first part is `s[..i]` and the
   * remaining parts are the split of what follows the separator.
   */
  lemma {:induction false} SplitAtFirst(s: string, d: string, i: nat)
    requires d != [] && OccursAt(s, d, i)
    requires forall k :: 0 <= k < i ==> !OccursAt(s, d, k)
    ensures |Split(s, d)| >= 2
    ensures Split(s, d)[0] == s[..i]
    ensures Split(s, d)[1..] == Split(s[i + |d|..], d)
    decreases i
  {
    if i == 0 {
      assert s[..|d|] == d;
    } else {
      assert !OccursAt(s, d, 0);
      var rest := Split(s[1..], d);
      assert Split(s, d) == [[s[0]] + rest[0]] + rest[1..];
      FirstOccurrenceShift(s, d, i);
      SplitAtFirst(s[1..], d, i - 1);
      assert s[1..][i - 1 + |d|..] == s[i + |d|..];
      assert [s[0]] + s[1..][..i - 1] == s[..i];
    }
  }

  /** A first occurrence past index 0 is, one character later, a first occurrence in the tail. */
  lemma FirstOccurrenceShift(s: string, d: string, i: nat)
    requires 0 < i && OccursAt(s, d, i)
    requires forall k :: 0 <= k < i ==> !OccursAt(s, d, k)
    ensures OccursAt(s[1..], d, i - 1)
    ensures forall k :: 0 <= k < i - 1 ==> !OccursAt(s[1..], d, k)
  {
    assert s[1..][i - 1..i - 1 + |d|] == s[i..i + |d|];
    forall k | 0 <= k < i - 1 ensures !OccursAt(s[1..], d, k) {
      assert !OccursAt(s, d, k + 1);
      if k + |d| <= |s| - 1 {
        assert s[1..][k..k + |d|] == s[k + 1..k + 1 + |d|];
      }
    }
  }


  /** The delimiters `split` cuts at: the leftmost non-overlapping occurrences of `d`. */
  function Occurrences(s: string, d: string): nat
    requires d != []
    decreases |s|
  {
    if |s| >= |d| && s[..|d|] == d then 1 + Occurrences(s[|d|..], d)
    else if s == [] then 0
    else Occurrences(s[1..], d)
  }

  /** Splitting at `n` delimiters gives `n + 1` parts. */
  lemma {:induction false} SplitCount(s: string, d: string)
    requires d != []
    ensures |Split(s, d)| == Occurrences(s, d) + 1
    decreases |s|
  {
    if |s| >= |d| && s[..|d|] == d {
      SplitCount(s[|d|..], d);
    } else if s != [] {
      SplitCount(s[1..], d);
    }
  }

  /** Decimal digits of a natural number. */
  function NatToString(n: nat): (r: string)
    ensures r != []
    ensures forall k :: 0 <= k < |r| ==> '0' <= r[k] <= '9'
    decreases n
  {
    var digit := ['0' + (n % 10) as char];
    if n < 10 then digit else NatToString(n / 10) + digit
  }

  /** The value of a decimal digit. */
  function DigitValue(c: char): nat {
    if '0' <= c <= '9' then c as int - '0' as int else 0
  }

  /** The number a string of decimal digits denotes, most significant first. */
  function DigitsValue(s: string): nat
    decreases |s|
  {
    if s == [] then 0 else 10 * DigitsValue(s[..|s| - 1]) + DigitValue(s[|s| - 1])
  }

  /** The digits denote `n`, with no leading zero unless `n` is zero. */
  lemma {:induction false} NatToStringValue(n: nat)
    ensures DigitsValue(NatToString(n)) == n
    ensures n != 0 ==> NatToString(n)[0] != '0'
    decreases n
  {
    var r := NatToString(n);
    var digit := ['0' + (n % 10) as char];
    assert DigitValue(digit[0]) == n % 10;
    if n < 10 {
      assert r == digit && r[..0] == [];
    } else {
      var p := NatToString(n / 10);
      NatToStringValue(n / 10);
      assert r == p + digit;
      assert r[..|r| - 1] == p;
      assert r[0] == p[0];
    }
  }

  /** `String(n)` for an integer. */
  function IntToString(n: int): string {
    if n < 0 then "-" + NatToString(-n) else NatToString(n)
  }
}
