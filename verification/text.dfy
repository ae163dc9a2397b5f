/** The string operations of JavaScript that the overlay scripts rely on:
    parseInt over digit runs, Number#toString, padStart, trim, includes,
    split and a global single-character replace. */
module Text {

  // ---------------------------------------------------------------------------
  // Decimal digits
  // ---------------------------------------------------------------------------

  /** The class `\d` of a JavaScript regular expression: ASCII digits only. */
  predicate IsDigit(c: char) {
    '0' <= c <= '9'
  }

  predicate AllDigits(s: string) {
    forall i | 0 <= i < |s| :: IsDigit(s[i])
  }

  function DigitValue(c: char): (d: nat)
    requires IsDigit(c)
    ensures d < 10
  {
    c as int - '0' as int
  }

  function DigitChar(d: nat): (c: char)
    requires d < 10
    ensures IsDigit(c) && DigitValue(c) == d
  {
    ('0' as int + d) as char
  }

  function Pow10(n: nat): (p: nat)
    ensures p >= 1
  {
    if n == 0 then 1 else 10 * Pow10(n - 1)
  }

  /** The value `parseInt` gives a non-empty run of decimal digits (0 for the empty run). */
  function DigitsValue(s: string): (n: nat)
    requires AllDigits(s)
    ensures n < Pow10(|s|)
  {
    if s == [] then 0 else DigitsValue(s[..|s| - 1]) * 10 + DigitValue(s[|s| - 1])
  }

  /** A leading zero does not change the value of a digit run. */
  lemma {:induction false} LeadingZero(s: string)
    requires AllDigits(s)
    ensures AllDigits("0" + s) && DigitsValue("0" + s) == DigitsValue(s)
  {
    var z := "0" + s;
    if s != [] {
      assert z[..|z| - 1] == "0" + s[..|s| - 1];
      LeadingZero(s[..|s| - 1]);
    }
  }

  /** `n.toString()` for a non-negative integer. */
  function NatToString(n: nat): (s: string)
    ensures AllDigits(s) && DigitsValue(s) == n
    ensures n < 10 ==> |s| == 1
    ensures 10 <= n < 100 ==> |s| == 2
    ensures 1 <= |s|
    ensures s[0] == '0' <==> n == 0
    ensures |s| > 1 ==> s[0] != '0'
  {
    if n < 10 then [DigitChar(n)]
    else
      var prefix := NatToString(n / 10);
      var s := prefix + [DigitChar(n % 10)];
      assert s[..|s| - 1] == prefix && s[0] == prefix[0];
      s
  }

  /** `n.toString()` for any integer: a minus sign before the digits of a negative value. */
  function IntToString(n: int): (s: string)
    ensures |s| >= 1
    ensures n >= 0 ==> AllDigits(s) && DigitsValue(s) == n
    ensures n < 0 ==> s[0] == '-' && AllDigits(s[1..]) && DigitsValue(s[1..]) == -n
    ensures n >= 0 && |s| > 1 ==> s[0] != '0'
    ensures n < 0 ==> |s| >= 2 && s[1] != '0'
  {
    if n < 0 then "-" + NatToString(-n) else NatToString(n)
  }

  /** `s.padStart(width, fill)` with a one-character fill: `s` itself when it is wide enough,
      otherwise `s` right-aligned in `width` places with the fill before it. */
  function PadStart(s: string, width: nat, fill: char): (r: string)
    ensures |r| == if |s| < width then width else |s|
    ensures forall i | 0 <= i < |r| :: r[i] == if i < |r| - |s| then fill else s[i - (|r| - |s|)]
  {
    if |s| >= width then s else seq(width - |s|, _ => fill) + s
  }

  /** What the overlay writes for a month, day, hour or minute: the number padded to two places. */
  function TwoDigits(n: nat): (r: string)
    ensures |r| >= 2
    ensures n < 100 ==> |r| == 2
    ensures n < 10 ==> r[0] == '0' && r[1..] == NatToString(n)
    ensures n >= 10 ==> r == NatToString(n)
  {
    PadStart(NatToString(n), 2, '0')
  }

  /** A value below 100 is written as exactly two digits that read back as the value. */
  lemma TwoDigitsRoundTrip(n: nat)
    requires n < 100
    ensures |TwoDigits(n)| == 2 && AllDigits(TwoDigits(n)) && DigitsValue(TwoDigits(n)) == n
  {
    var s := NatToString(n);
    var r := TwoDigits(n);
    if n < 10 {
      assert r == "0" + s;
      LeadingZero(s);
    } else {
      assert r == s;
    }
  }

  // ---------------------------------------------------------------------------
  // White space and trim
  // ---------------------------------------------------------------------------

  /** ECMAScript WhiteSpace and LineTerminator code points: what `trim` strips and `\s` matches. */
  predicate IsSpace(c: char) {
    c == '\t' || c == '\n' || c == '\U{000B}' || c == '\U{000C}' || c == '\r' || c == ' '
    || c == '\U{00A0}' || c == '\U{1680}' || ('\U{2000}' <= c <= '\U{200A}')
    || c == '\U{2028}' || c == '\U{2029}' || c == '\U{202F}' || c == '\U{205F}'
    || c == '\U{3000}' || c == '\U{FEFF}'
  }

  /** Number of white-space characters at the start of `s`. */
  function LeadingSpaces(s: string): (k: nat)
    ensures k <= |s|
    ensures forall i | 0 <= i < k :: IsSpace(s[i])
    ensures k < |s| ==> !IsSpace(s[k])
  {
    if s != [] && IsSpace(s[0]) then 1 + LeadingSpaces(s[1..]) else 0
  }

  /** Number of white-space characters at the end of `s`. */
  function TrailingSpaces(s: string): (k: nat)
    ensures k <= |s|
    ensures forall i | |s| - k <= i < |s| :: IsSpace(s[i])
    ensures k < |s| ==> !IsSpace(s[|s| - 1 - k])
  {
    if s != [] && IsSpace(s[|s| - 1]) then 1 + TrailingSpaces(s[..|s| - 1]) else 0
  }

  /** `s.trim()`: the part of `s` between its leading and its trailing white space. */
  function Trim(s: string): (r: string)
    ensures r == [] <==> forall i | 0 <= i < |s| :: IsSpace(s[i])
    ensures r != [] ==> !IsSpace(r[0]) && !IsSpace(r[|r| - 1])
    ensures exists a :: TrimmedAt(s, a, r)
  {
    var a := LeadingSpaces(s);
    var b := |s| - TrailingSpaces(s[a..]);
    assert a < |s| ==> b > a;
    assert TrimmedAt(s, a, s[a..b]);
    s[a..b]
  }

  /** `r` sits in `s` at position `a`, and everything of `s` before and after it is white space. */
  predicate TrimmedAt(s: string, a: int, r: string) {
    SliceAt(s, a, r)
    && (forall i | 0 <= i < a :: IsSpace(s[i]))
    && (forall i | a + |r| <= i < |s| :: IsSpace(s[i]))
  }

  /** `part` occurs in `s` starting at position `i`. */
  predicate SliceAt(s: string, i: int, part: string) {
    0 <= i && i + |part| <= |s| && s[i..i + |part|] == part
  }

  // ---------------------------------------------------------------------------
  // includes, indexOf, split
  // ---------------------------------------------------------------------------

  /** `hay.includes(needle)`. */
  predicate Contains(hay: string, needle: string)
  {
    if needle == [] then true
    else if |hay| < |needle| then false
    else hay[..|needle|] == needle || Contains(hay[1..], needle)
  }

  /** `includes` holds exactly when the needle occurs at some position of the haystack. */
  lemma {:induction false} ContainsIff(hay: string, needle: string)
    ensures Contains(hay, needle) <==> exists i :: SliceAt(hay, i, needle)
  {
    if needle == [] {
      assert SliceAt(hay, 0, needle);
    } else if |hay| >= |needle| {
      ContainsIff(hay[1..], needle);
      if Contains(hay, needle) {
        if hay[..|needle|] == needle {
          assert SliceAt(hay, 0, needle);
        } else {
          var i :| SliceAt(hay[1..], i, needle);
          assert hay[1..][i..i + |needle|] == hay[i + 1..i + 1 + |needle|];
          assert SliceAt(hay, i + 1, needle);
        }
      } else {
        forall i | SliceAt(hay, i, needle)
          ensures false
        {
          if i > 0 {
            assert hay[1..][i - 1..i - 1 + |needle|] == needle;
            assert SliceAt(hay[1..], i - 1, needle);
          }
        }
      }
    } else {
      forall i | SliceAt(hay, i, needle) ensures false { }
    }
  }

  /** Position of the first `c` in `s`. */
  function IndexOf(s: string, c: char): (i: nat)
    requires c in s
    ensures i < |s| && s[i] == c && c !in s[..i]
  {
    if s[0] == c then 0
    else
      var k := IndexOf(s[1..], c);
      assert s[..k + 1] == [s[0]] + s[1..][..k];
      k + 1
  }

  /** `s.split(sep)` for a one-character separator. */
  function Split(s: string, sep: char): (parts: seq<string>)
    ensures |parts| >= 1
    ensures forall i | 0 <= i < |parts| :: sep !in parts[i]
    decreases |s|
  {
    if sep !in s then [s]
    else
      var i := IndexOf(s, sep);
      [s[..i]] + Split(s[i + 1..], sep)
  }

  /** `parts.join(sep)`. */
  function Join(parts: seq<string>, sep: char): string
    requires |parts| >= 1
  {
    if |parts| == 1 then parts[0] else parts[0] + [sep] + Join(parts[1..], sep)
  }

  /** Splitting loses nothing: joining the parts with the separator gives back the string. */
  lemma {:induction false} JoinSplit(s: string, sep: char)
    ensures Join(Split(s, sep), sep) == s
    decreases |s|
  {
    if sep in s {
      var i := IndexOf(s, sep);
      JoinSplit(s[i + 1..], sep);
      assert s == s[..i] + [sep] + s[i + 1..];
    }
  }

  // ---------------------------------------------------------------------------
  // Global replace of one character: s.replace(/c/g, d) and s.replace(/c/g, '')
  // ---------------------------------------------------------------------------

  /** `s.replace(/c/g, d)`: every `c` becomes `d`, everything else stays in place. */
  function ReplaceChar(s: string, c: char, d: char): (r: string)
    ensures |r| == |s|
    ensures forall i | 0 <= i < |s| :: r[i] == if s[i] == c then d else s[i]
  {
    if s == [] then [] else [if s[0] == c then d else s[0]] + ReplaceChar(s[1..], c, d)
  }

  /** Replacing by a character the string does not hold can be undone. */
  lemma ReplaceCharUndo(s: string, c: char, d: char)
    requires d !in s
    ensures ReplaceChar(ReplaceChar(s, c, d), d, c) == s
  {
    var r := ReplaceChar(ReplaceChar(s, c, d), d, c);
    assert forall i | 0 <= i < |s| :: r[i] == s[i];
  }

  /** `s.replace(/c/g, '')`: every `c` is taken out, the rest keeps its order. */
  function RemoveChar(s: string, c: char): (r: string)
    ensures c !in r
    ensures forall x | x in r :: x in s && x != c
    ensures c !in s ==> r == s
    ensures |r| <= |s|
  {
    if s == [] then [] else (if s[0] == c then [] else [s[0]]) + RemoveChar(s[1..], c)
  }

  /** Removal works piece by piece: removing from a concatenation concatenates the removals. */
  lemma {:induction false} RemoveCharAppend(a: string, b: string, c: char)
    ensures RemoveChar(a + b, c) == RemoveChar(a, c) + RemoveChar(b, c)
  {
    if a != [] {
      assert (a + b)[1..] == a[1..] + b;
      RemoveCharAppend(a[1..], b, c);
    } else {
      assert a + b == b;
    }
  }

  /** Taking out the `d`s after turning every `c` into `d` is the same as taking out both. */
  lemma {:induction false} RemoveAfterReplace(s: string, c: char, d: char)
    ensures RemoveChar(ReplaceChar(s, c, d), d) == RemoveChar(RemoveChar(s, c), d)
  {
    if s != [] {
      RemoveAfterReplace(s[1..], c, d);
      var t := ReplaceChar(s, c, d);
      assert t[1..] == ReplaceChar(s[1..], c, d);
      var u := RemoveChar(s, c);
      if s[0] == c {
        assert u == RemoveChar(s[1..], c);
      } else {
        assert u == [s[0]] + RemoveChar(s[1..], c);
        assert u[1..] == RemoveChar(s[1..], c);
      }
    }
  }
}
