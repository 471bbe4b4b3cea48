/**
 * The few Qt string operations the font parser and the stroke engine rely
 * on: splitting with and without empty parts, trimming, ASCII lower-casing
 * and hexadecimal numbers.
 */
module Strings {

  import opened Primitives

  /** Separator-joined concatenation of parts: the inverse of SplitKeep. */
  function Join(parts: seq<string>, sep: char): string
    requires |parts| >= 1
  {
    if |parts| == 1 then parts[0] else parts[0] + [sep] + Join(parts[1..], sep)
  }

  /** Number of occurrences of c in s. */
  function Count(s: string, c: char): nat
  {
    if s == [] then 0 else (if s[0] == c then 1 else 0) + Count(s[1..], c)
  }

  /** QString::split(sep) keeping empty parts. */
  function SplitKeep(s: string, sep: char): (parts: seq<string>)
    ensures |parts| == Count(s, sep) + 1
  {
    if s == [] then [[]]
    else
      var rest := SplitKeep(s[1..], sep);
      if s[0] == sep then [[]] + rest else [[s[0]] + rest[0]] + rest[1..]
  }

  /** No part of SplitKeep holds the separator. */
  lemma {:induction false} SplitKeepSeparatorFree(s: string, sep: char)
    ensures forall i :: 0 <= i < |SplitKeep(s, sep)| ==> sep !in SplitKeep(s, sep)[i]
  {
    if s != [] {
      SplitKeepSeparatorFree(s[1..], sep);
      var rest := SplitKeep(s[1..], sep);
      if s[0] != sep {
        var parts := SplitKeep(s, sep);
        assert sep !in parts[0] by {
          assert parts[0] == [s[0]] + rest[0];
        }
        assert forall i :: 1 <= i < |parts| ==> parts[i] == rest[i];
      } else {
        assert forall i :: 1 <= i < |SplitKeep(s, sep)| ==> SplitKeep(s, sep)[i] == rest[i - 1];
      }
    }
  }

  lemma {:induction false} JoinSplitKeep(s: string, sep: char)
    ensures Join(SplitKeep(s, sep), sep) == s
  {
    if s != [] {
      JoinSplitKeep(s[1..], sep);
      if s[0] == sep {
        JoinSplitKeepAtSeparator(s, sep);
      } else {
        JoinSplitKeepAtOther(s, sep);
      }
    }
  }

  /** A separator first: an empty first part, then the parts of the rest. */
  lemma JoinSplitKeepAtSeparator(s: string, sep: char)
    requires s != [] && s[0] == sep
    requires Join(SplitKeep(s[1..], sep), sep) == s[1..]
    ensures Join(SplitKeep(s, sep), sep) == s
  {
    var rest, parts := SplitKeep(s[1..], sep), SplitKeep(s, sep);
    assert parts == [[]] + rest;
    assert parts[1..] == rest;
    assert Join(parts, sep) == [] + [sep] + Join(rest, sep);
    assert s == [s[0]] + s[1..];
  }

  /** Another character first: it starts the first part of the rest. */
  lemma JoinSplitKeepAtOther(s: string, sep: char)
    requires s != [] && s[0] != sep
    requires Join(SplitKeep(s[1..], sep), sep) == s[1..]
    ensures Join(SplitKeep(s, sep), sep) == s
  {
    var rest := SplitKeep(s[1..], sep);
    assert SplitKeep(s, sep) == [[s[0]] + rest[0]] + rest[1..];
    JoinPrepend(rest, s[0], sep);
    assert s == [s[0]] + s[1..];
  }

  /** Putting c in front of the first part puts it in front of the join. */
  lemma JoinPrepend(parts: seq<string>, c: char, sep: char)
    requires |parts| >= 1
    ensures Join([[c] + parts[0]] + parts[1..], sep) == [c] + Join(parts, sep)
  {
    var longer := [[c] + parts[0]] + parts[1..];
    if |parts| > 1 {
      var tail := Join(parts[1..], sep);
      assert longer[1..] == parts[1..];
      assert Join(longer, sep) == ([c] + parts[0]) + [sep] + tail;
      assert ([c] + parts[0]) + [sep] + tail == [c] + (parts[0] + [sep] + tail);
    }
  }

  lemma {:induction false} SplitKeepJoin(parts: seq<string>, sep: char)
    requires |parts| >= 1
    requires forall i :: 0 <= i < |parts| ==> sep !in parts[i]
    ensures SplitKeep(Join(parts, sep), sep) == parts
    decreases |parts|, |parts[0]|
  {
    if parts[0] == [] {
      if |parts| > 1 {
        assert Join(parts, sep) == [sep] + Join(parts[1..], sep);
        assert Join(parts, sep)[1..] == Join(parts[1..], sep);
        SplitKeepJoin(parts[1..], sep);
      }
    } else {
      var p := parts[0];
      var shorter := [p[1..]] + parts[1..];
      assert Join(parts, sep) == [p[0]] + Join(shorter, sep) by {
        if |parts| > 1 {
          assert shorter[1..] == parts[1..];
        }
      }
      assert Join(parts, sep)[1..] == Join(shorter, sep);
      assert sep !in shorter[0] by { assert forall c :: c in p[1..] ==> c in p; }
      SplitKeepJoin(shorter, sep);
      assert [p[0]] + shorter[0] == p;
      assert shorter[1..] == parts[1..];
      assert parts == [[p[0]] + shorter[0]] + shorter[1..];
    }
  }

  /** The non-empty parts of parts, in order. */
  function NonEmptyParts(parts: seq<string>): (r: seq<string>)
    ensures |r| <= |parts|
    ensures forall i :: 0 <= i < |r| ==> r[i] != []
  {
    if parts == [] then []
    else (if parts[0] == [] then [] else [parts[0]]) + NonEmptyParts(parts[1..])
  }

  /** Every part kept was a part, and every non-empty part is kept. */
  lemma {:induction false} NonEmptyPartsMembers(parts: seq<string>)
    ensures forall i :: 0 <= i < |NonEmptyParts(parts)| ==> NonEmptyParts(parts)[i] in parts
    ensures forall p :: p in parts && p != [] ==> p in NonEmptyParts(parts)
  {
    if parts != [] {
      NonEmptyPartsMembers(parts[1..]);
      var r, tail := NonEmptyParts(parts), NonEmptyParts(parts[1..]);
      if parts[0] == [] {
        assert r == tail;
      } else {
        assert r == [parts[0]] + tail;
        assert forall i :: 1 <= i < |r| ==> r[i] == tail[i - 1];
      }
      assert forall p :: p in parts[1..] ==> p in parts;
      assert forall p :: p in parts && p != parts[0] ==> p in parts[1..];
    }
  }

  /** QString::split(sep, QString::SkipEmptyParts). */
  function SplitSkipEmpty(s: string, sep: char): (parts: seq<string>)
    ensures forall i :: 0 <= i < |parts| ==> parts[i] != []
  {
    NonEmptyParts(SplitKeep(s, sep))
  }

  /** The parts SplitSkipEmpty keeps hold no separator. */
  lemma SplitSkipEmptySeparatorFree(s: string, sep: char)
    ensures forall i :: 0 <= i < |SplitSkipEmpty(s, sep)| ==> sep !in SplitSkipEmpty(s, sep)[i]
  {
    SplitKeepSeparatorFree(s, sep);
    NonEmptyPartsMembers(SplitKeep(s, sep));
    forall i | 0 <= i < |SplitSkipEmpty(s, sep)|
      ensures sep !in SplitSkipEmpty(s, sep)[i]
    {
      var p := SplitSkipEmpty(s, sep)[i];
      assert p in SplitKeep(s, sep);
    }
  }

  function Concat(parts: seq<string>): string
  {
    if parts == [] then [] else parts[0] + Concat(parts[1..])
  }

  /** s with every occurrence of c removed. */
  function Without(s: string, c: char): string
  {
    if s == [] then [] else (if s[0] == c then [] else [s[0]]) + Without(s[1..], c)
  }

  lemma {:induction false} ConcatNonEmptyParts(parts: seq<string>)
    ensures Concat(NonEmptyParts(parts)) == Concat(parts)
  {
    if parts != [] {
      ConcatNonEmptyParts(parts[1..]);
      if parts[0] != [] {
        assert ([parts[0]] + NonEmptyParts(parts[1..]))[1..] == NonEmptyParts(parts[1..]);
      } else {
        assert NonEmptyParts(parts) == NonEmptyParts(parts[1..]);
      }
    }
  }

  lemma {:induction false} ConcatSplitKeep(s: string, sep: char)
    ensures Concat(SplitKeep(s, sep)) == Without(s, sep)
  {
    if s != [] {
      ConcatSplitKeep(s[1..], sep);
      var rest := SplitKeep(s[1..], sep);
      if s[0] != sep {
        assert Concat(rest) == rest[0] + Concat(rest[1..]);
      }
    }
  }

  /** The parts kept by SplitSkipEmpty are exactly the non-separator characters, in order. */
  lemma SplitSkipEmptyContents(s: string, sep: char)
    ensures Concat(SplitSkipEmpty(s, sep)) == Without(s, sep)
  {
    ConcatNonEmptyParts(SplitKeep(s, sep));
    ConcatSplitKeep(s, sep);
  }

  /** The white space QString::trimmed removes (the Latin-1 part of QChar::isSpace). */
  predicate IsSpace(c: char)
  {
    c == ' ' || c == '\t' || c == '\n' || c == '\r' || c == '\U{000B}' || c == '\U{000C}'
    || c == '\U{0085}' || c == '\U{00A0}'
  }

  /** The number of white-space characters s starts with. */
  function LeadingSpaces(s: string): (n: nat)
    ensures n <= |s|
    ensures forall i :: 0 <= i < n ==> IsSpace(s[i])
    ensures n == |s| || !IsSpace(s[n])
  {
    if s != [] && IsSpace(s[0]) then 1 + LeadingSpaces(s[1..]) else 0
  }

  function TrimEnd(s: string): (r: string)
    ensures |r| <= |s| && r == s[..|r|]
    ensures forall i :: |r| <= i < |s| ==> IsSpace(s[i])
    ensures r == [] || !IsSpace(r[|r| - 1])
  {
    if s != [] && IsSpace(s[|s| - 1]) then TrimEnd(s[..|s| - 1]) else s
  }

  /** QString::trimmed: s without its leading and trailing white space. */
  function Trimmed(s: string): (r: string)
    ensures LeadingSpaces(s) + |r| <= |s|
    ensures r == s[LeadingSpaces(s)..LeadingSpaces(s) + |r|]
    ensures forall i :: LeadingSpaces(s) + |r| <= i < |s| ==> IsSpace(s[i])
    ensures r == [] || (!IsSpace(r[0]) && !IsSpace(r[|r| - 1]))
  {
    var a := LeadingSpaces(s);
    var r := TrimEnd(s[a..]);
    assert r == s[a..a + |r|];
    r
  }

  function LowerChar(c: char): char
  {
    if 'A' <= c <= 'Z' then (c as int + 32) as char else c
  }

  /** Lower-casing as QString::toLower does it on ASCII letters. */
  function LowerAscii(s: string): (r: string)
    ensures |r| == |s|
    ensures forall i :: 0 <= i < |s| ==> r[i] == LowerChar(s[i])
  {
    seq(|s|, i requires 0 <= i < |s| => LowerChar(s[i]))
  }

  predicate IsHexDigit(c: char)
  {
    '0' <= c <= '9' || 'a' <= c <= 'f' || 'A' <= c <= 'F'
  }

  predicate AllHex(s: string)
  {
    forall i :: 0 <= i < |s| ==> IsHexDigit(s[i])
  }

  function HexDigitValue(c: char): (v: nat)
    requires IsHexDigit(c)
    ensures v < 16
  {
    if '0' <= c <= '9' then c as int - '0' as int
    else if 'a' <= c <= 'f' then c as int - 'a' as int + 10
    else c as int - 'A' as int + 10
  }

  function Pow16(n: nat): (p: nat)
    ensures p >= 1
  {
    if n == 0 then 1 else 16 * Pow16(n - 1)
  }

  /** The value of a string of hexadecimal digits, most significant first. */
  function HexValue(s: string): (v: nat)
    requires AllHex(s)
    ensures v < Pow16(|s|)
  {
    if s == [] then 0 else 16 * HexValue(s[..|s| - 1]) + HexDigitValue(s[|s| - 1])
  }

  function HexDigit(d: nat): (c: char)
    requires d < 16
    ensures IsHexDigit(c) && HexDigitValue(c) == d
  {
    if d < 10 then ('0' as int + d) as char else ('A' as int + d - 10) as char
  }

  /** Upper-case hexadecimal digits of n, as LFF files write glyph codes. */
  function HexText(n: nat): (s: string)
    ensures s != [] && AllHex(s)
    ensures HexValue(s) == n
  {
    if n < 16 then [HexDigit(n)]
    else
      var s := HexText(n / 16) + [HexDigit(n % 16)];
      assert s[..|s| - 1] == HexText(n / 16);
      s
  }

  const MaxInt32: nat := 0x7FFF_FFFF

  /**
   * QString::toInt(nullptr, 16): the value of a string of hexadecimal digits,
   * or 0 when the string is empty, holds anything else, or overflows a 32-bit int.
   */
  function ToIntHex(s: string): (v: nat)
    ensures v <= MaxInt32
    ensures s != [] && AllHex(s) && HexValue(s) <= MaxInt32 ==> v == HexValue(s)
    ensures !(s != [] && AllHex(s) && HexValue(s) <= MaxInt32) ==> v == 0
  {
    if s != [] && AllHex(s) && HexValue(s) <= MaxInt32 then HexValue(s) else 0
  }

  /** The number of hexadecimal digits at s[i..], at most max. */
  function HexRunLength(s: string, i: nat, max: nat): (n: nat)
    requires i <= |s|
    ensures n <= max && i + n <= |s|
    ensures forall k :: i <= k < i + n ==> IsHexDigit(s[k])
    ensures n < max ==> i + n == |s| || !IsHexDigit(s[i + n])
    decreases max
  {
    if max == 0 || i == |s| || !IsHexDigit(s[i]) then 0 else 1 + HexRunLength(s, i + 1, max - 1)
  }

  /** The index of the first hexadecimal digit at or after i. */
  function FirstHexIndex(s: string, i: nat): (r: Option<nat>)
    requires i <= |s|
    ensures r.None? ==> forall k :: i <= k < |s| ==> !IsHexDigit(s[k])
    ensures r.Some? ==> i <= r.value < |s| && IsHexDigit(s[r.value])
    ensures r.Some? ==> forall k :: i <= k < r.value ==> !IsHexDigit(s[k])
    decreases |s| - i
  {
    if i == |s| then None else if IsHexDigit(s[i]) then Some(i) else FirstHexIndex(s, i + 1)
  }

  /**
   * The match of the regular expression [0-9A-Fa-f]{1,5} in line: the leftmost
   * run of hexadecimal digits, cut after five digits.
   */
  function HexCapture(line: string): (cap: Option<string>)
    ensures cap.None? <==> forall k :: 0 <= k < |line| ==> !IsHexDigit(line[k])
    ensures cap.Some? ==> 1 <= |cap.value| <= 5 && AllHex(cap.value)
    ensures cap.Some? ==> FirstHexIndex(line, 0).Some?
    ensures cap.Some? ==>
      var j, n := FirstHexIndex(line, 0).value, |cap.value|;
      j + n <= |line| && cap.value == line[j..j + n] &&
      (n < 5 ==> j + n == |line| || !IsHexDigit(line[j + n]))
  {
    match FirstHexIndex(line, 0)
    case None => None
    case Some(j) =>
      var n := HexRunLength(line, j, 5);
      assert n >= 1 by { assert IsHexDigit(line[j]); }
      Some(line[j..j + n])
  }
}
