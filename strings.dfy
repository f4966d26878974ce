/**
 * The JavaScript string operations the two scripts rely on, over `seq<char>`:
 * `trim`, splitting on runs of `\s`, ASCII case mapping, `padEnd`,
 * `Number(...)` on integer literals and integer-to-decimal conversion.
 */
module Strings {

  /** The characters JavaScript's `trim` and the regular-expression class `\s` treat as white space. */
  predicate IsSpace(c: char) {
    if c < '\U{00A0}' then
      // space, and tab, line feed, vertical tab, form feed, carriage return
      c == ' ' || '\t' <= c <= '\r'
    else
      || c == '\U{00A0}' || c == '\U{1680}' || ('\U{2000}' <= c <= '\U{200A}')
      || c == '\U{2028}' || c == '\U{2029}' || c == '\U{202F}' || c == '\U{205F}'
      || c == '\U{3000}' || c == '\U{FEFF}'
  }

  predicate NoSpace(s: string) {
    forall i :: 0 <= i < |s| ==> !IsSpace(s[i])
  }

  predicate Blank(s: string) {
    forall i :: 0 <= i < |s| ==> IsSpace(s[i])
  }

  // ---------------------------------------------------------------- trim

  function TrimStart(s: string): (r: string)
    ensures |r| <= |s| && r == s[|s| - |r|..]
    ensures r == [] || !IsSpace(r[0])
    ensures Blank(s[..|s| - |r|])
  {
    if s != [] && IsSpace(s[0]) then
      var r := TrimStart(s[1..]);
      assert s[1..][..|s| - 1 - |r|] == s[1..|s| - |r|];
      r
    else
      s
  }

  function TrimEnd(s: string): (r: string)
    ensures |r| <= |s| && r == s[..|r|]
    ensures r == [] || !IsSpace(r[|r| - 1])
    ensures Blank(s[|r|..])
  {
    if s != [] && IsSpace(s[|s| - 1]) then
      var r := TrimEnd(s[..|s| - 1]);
      assert s[..|s| - 1][..|r|] == s[..|r|];
      assert s[|r|..] == s[..|s| - 1][|r|..] + [s[|s| - 1]];
      r
    else
      s
  }

  /** `r` is `s` with some white space removed from its start and its end. */
  predicate InnerPart(s: string, r: string) {
    exists i, j :: 0 <= i <= j <= |s| && r == s[i..j] && Blank(s[..i]) && Blank(s[j..])
  }

  /**
   * Cutting white space from the start and then from the end leaves an
   * inner part with no white space at either end, empty exactly when the
   * whole text is white space.
   */
  lemma TrimmedEnds(s: string, a: string, r: string)
    requires |a| <= |s| && a == s[|s| - |a|..] && (a == [] || !IsSpace(a[0])) && Blank(s[..|s| - |a|])
    requires |r| <= |a| && r == a[..|r|] && (r == [] || !IsSpace(r[|r| - 1])) && Blank(a[|r|..])
    ensures InnerPart(s, r)
    ensures r == [] || (!IsSpace(r[0]) && !IsSpace(r[|r| - 1]))
    ensures r == [] <==> Blank(s)
  {
    var i, j := |s| - |a|, |s| - |a| + |r|;
    assert r == s[i..j] && s[j..] == a[|r|..];
    if r == [] {
      assert a[|r|..] == a;
      assert a == [];
      assert s == s[..|s| - |a|];
    } else {
      assert r[0] == a[0] == s[i];
    }
  }

  /** Text without white space has none to cut at either end. */
  lemma TrimOfSpaceFree(s: string)
    ensures NoSpace(s) ==> TrimStart(s) == s && TrimEnd(s) == s
  {
    if NoSpace(s) && s != [] {
      assert !IsSpace(s[0]) && !IsSpace(s[|s| - 1]);
    }
  }

  /** `String.prototype.trim`: the text with leading and trailing white space removed. */
  function Trim(s: string): (r: string)
    ensures r == [] || (!IsSpace(r[0]) && !IsSpace(r[|r| - 1]))
    ensures r == [] <==> Blank(s)
    ensures NoSpace(s) ==> r == s
    ensures InnerPart(s, r)
  {
    var a := TrimStart(s);
    var r := TrimEnd(a);
    TrimmedEnds(s, a, r);
    TrimOfSpaceFree(s);
    r
  }

  // ---------------------------------------------------------------- words

  /** The longest prefix of `s` without white space. */
  function TakeWord(s: string): (w: string)
    ensures |w| <= |s| && w == s[..|w|]
    ensures NoSpace(w)
    ensures |w| == |s| || IsSpace(s[|w|])
  {
    if s == [] || IsSpace(s[0]) then [] else [s[0]] + TakeWord(s[1..])
  }

  /**
   * The maximal runs of non-white-space characters of `s`, in order. For a
   * string that is not blank this is `s.trim().split(/\s+/)`; for a blank one
   * that split yields `[""]` and this yields `[]`.
   */
  function Words(s: string): (ws: seq<string>)
    ensures forall i :: 0 <= i < |ws| ==> ws[i] != [] && NoSpace(ws[i])
    decreases |s|
  {
    if s == [] then []
    else if IsSpace(s[0]) then Words(s[1..])
    else
      var w := TakeWord(s);
      [w] + Words(s[|w|..])
  }

  /** `Array.prototype.join`. */
  function Join(ws: seq<string>, sep: string): (r: string)
    ensures ws == [] ==> r == []
    ensures ws != [] ==> ws[0] <= r
    ensures |ws| > 1 ==> |r| >= |ws[0]| + |sep| && r[|ws[0]|..|ws[0]| + |sep|] == sep
  {
    if ws == [] then []
    else if |ws| == 1 then ws[0]
    else
      var r := ws[0] + sep + Join(ws[1..], sep);
      assert r[|ws[0]|..|ws[0]| + |sep|] == sep;
      r
  }

  lemma {:induction false} TakeWordOfSpaceFree(w: string, t: string)
    requires NoSpace(w)
    requires t == [] || IsSpace(t[0])
    ensures TakeWord(w + t) == w
    decreases |w|
  {
    if w == [] {
      assert w + t == t;
    } else {
      assert (w + t)[1..] == w[1..] + t;
      TakeWordOfSpaceFree(w[1..], t);
    }
  }

  lemma {:induction false} WordsOfLeadingSpace(t: string)
    requires t != [] && IsSpace(t[0])
    ensures Words(t) == Words(t[1..])
  {
  }

  /** A blank string has no words, and a string with no words is blank. */
  lemma {:induction false} WordsEmptyIffBlank(s: string)
    ensures Words(s) == [] <==> Blank(s)
    decreases |s|
  {
    if s != [] {
      WordsEmptyIffBlank(s[1..]);
      if IsSpace(s[0]) {
        assert Blank(s) <==> Blank(s[1..]) by {
          if Blank(s[1..]) {
            forall i | 0 <= i < |s| ensures IsSpace(s[i]) {
              if i > 0 { assert s[1..][i - 1] == s[i]; }
            }
          }
        }
      }
    }
  }

  /**
   * Splitting a single-space join of words gives the words back: the words of
   * a command line are recovered exactly from its normalised form.
   */
  lemma {:induction false} WordsJoinRoundTrip(ws: seq<string>)
    requires forall i :: 0 <= i < |ws| ==> ws[i] != [] && NoSpace(ws[i])
    ensures Words(Join(ws, " ")) == ws
  {
    if ws == [] {
    } else if |ws| == 1 {
      var w := ws[0];
      TakeWordOfSpaceFree(w, []);
      assert w + [] == w;
      assert w[|w|..] == [];
    } else {
      var w, rest := ws[0], Join(ws[1..], " ");
      var s := w + " " + rest;
      assert s == w + (" " + rest);
      TakeWordOfSpaceFree(w, " " + rest);
      assert s[|w|..] == " " + rest;
      WordsOfLeadingSpace(" " + rest);
      assert (" " + rest)[1..] == rest;
      WordsJoinRoundTrip(ws[1..]);
      assert [ws[0]] + ws[1..] == ws;
    }
  }

  /**
   * A line of words with arbitrary white space around and between them:
   * `gaps[0]`, `ws[0]`, `gaps[1]`, ..., `ws[n - 1]`, `gaps[n]`.
   */
  function SpacedLine(ws: seq<string>, gaps: seq<string>): string
    requires |gaps| == |ws| + 1
  {
    if ws == [] then gaps[0] else gaps[0] + (ws[0] + SpacedLine(ws[1..], gaps[1..]))
  }

  /** Leading white space does not change the words. */
  lemma {:induction false} WordsOfBlankPrefix(g: string, t: string)
    requires Blank(g)
    ensures Words(g + t) == Words(t)
    decreases |g|
  {
    if g != [] {
      assert (g + t)[1..] == g[1..] + t;
      WordsOfLeadingSpace(g + t);
      WordsOfBlankPrefix(g[1..], t);
    } else {
      assert g + t == t;
    }
  }

  /** A word followed by the end of the text or by white space is the first word. */
  lemma WordsOfWordThen(w: string, t: string)
    requires w != [] && NoSpace(w)
    requires t == [] || IsSpace(t[0])
    ensures Words(w + t) == [w] + Words(t)
  {
    TakeWordOfSpaceFree(w, t);
    assert (w + t)[0] == w[0];
    assert (w + t)[|w|..] == t;
  }

  /**
   * The words of a line are its words whatever white space surrounds and
   * separates them: `trim().split(/\s+/)` of a line with any blank gaps
   * (non-empty between words) gives back exactly the words.
   */
  lemma {:induction false} WordsOfSpacedLine(ws: seq<string>, gaps: seq<string>)
    requires |gaps| == |ws| + 1
    requires forall i :: 0 <= i < |ws| ==> ws[i] != [] && NoSpace(ws[i])
    requires forall i :: 0 <= i < |gaps| ==> Blank(gaps[i])
    requires forall i :: 0 < i < |ws| ==> gaps[i] != []
    ensures Words(SpacedLine(ws, gaps)) == ws
  {
    if ws == [] {
      WordsEmptyIffBlank(gaps[0]);
    } else {
      var rest := SpacedLine(ws[1..], gaps[1..]);
      WordsOfBlankPrefix(gaps[0], ws[0] + rest);
      assert rest == [] || IsSpace(rest[0]) by {
        if ws[1..] == [] {
          assert rest == gaps[1];
        } else {
          assert gaps[1] != [];
          assert rest[0] == gaps[1][0];
        }
      }
      WordsOfWordThen(ws[0], rest);
      WordsOfSpacedLine(ws[1..], gaps[1..]);
      assert [ws[0]] + ws[1..] == ws;
    }
  }

  /** Joining two or more non-empty words with a space yields text holding a space. */
  lemma {:induction false} JoinOfSeveralHasSpace(ws: seq<string>)
    requires |ws| >= 2
    ensures !NoSpace(Join(ws, " "))
  {
    var s := Join(ws, " ");
    assert s == ws[0] + " " + Join(ws[1..], " ");
    assert s[|ws[0]|] == ' ';
  }

  // ---------------------------------------------------------------- case mapping

  function LowerChar(c: char): char {
    if 'A' <= c <= 'Z' then (c as int + 32) as char else c
  }

  function UpperChar(c: char): char {
    if 'a' <= c <= 'z' then (c as int - 32) as char else c
  }

  /** `toLowerCase` on the ASCII letters. */
  function Lower(s: string): (r: string)
    ensures |r| == |s|
    ensures forall i :: 0 <= i < |s| ==> !('A' <= r[i] <= 'Z')
    ensures forall i :: 0 <= i < |s| && !('A' <= s[i] <= 'Z') ==> r[i] == s[i]
    ensures forall i :: 0 <= i < |s| && 'A' <= s[i] <= 'Z' ==> r[i] as int == s[i] as int + 32
  {
    if s == [] then [] else [LowerChar(s[0])] + Lower(s[1..])
  }

  /** `toUpperCase` on the ASCII letters. */
  function Upper(s: string): (r: string)
    ensures |r| == |s|
    ensures forall i :: 0 <= i < |s| ==> !('a' <= r[i] <= 'z')
    ensures forall i :: 0 <= i < |s| && !('a' <= s[i] <= 'z') ==> r[i] == s[i]
    ensures forall i :: 0 <= i < |s| && 'a' <= s[i] <= 'z' ==> r[i] as int == s[i] as int - 32
  {
    if s == [] then [] else [UpperChar(s[0])] + Upper(s[1..])
  }

  /** Upper-casing twice is upper-casing once. */
  lemma {:induction false} UpperIdempotent(s: string)
    ensures Upper(Upper(s)) == Upper(s)
  {
    if s != [] {
      UpperIdempotent(s[1..]);
    }
  }

  /** Lower-casing leaves a string without upper-case letters as it is. */
  lemma LowerOfLowercase(s: string)
    requires forall i :: 0 <= i < |s| ==> !('A' <= s[i] <= 'Z')
    ensures Lower(s) == s
  {
  }

  /** A word of lower-case letters is one word, and lower-casing leaves it as it is. */
  lemma LowercaseWord(s: string)
    requires forall i :: 0 <= i < |s| ==> 'a' <= s[i] <= 'z'
    ensures NoSpace(s) && Lower(s) == s
  {
    LowerOfLowercase(s);
  }

  // ---------------------------------------------------------------- padding

  function Spaces(n: nat): (r: string)
    ensures |r| == n && forall i :: 0 <= i < n ==> r[i] == ' '
  {
    seq(n, _ => ' ')
  }

  /** `String.prototype.padEnd(n)` with the default pad character, a space. */
  function PadEnd(s: string, n: nat): (r: string)
    ensures |r| == if |s| >= n then |s| else n
    ensures r[..|s|] == s
    ensures forall i :: |s| <= i < |r| ==> r[i] == ' '
  {
    if |s| >= n then s else s + Spaces(n - |s|)
  }

  // ---------------------------------------------------------------- decimal numbers

  predicate IsDigit(c: char) {
    '0' <= c <= '9'
  }

  predicate AllDigits(s: string) {
    forall i :: 0 <= i < |s| ==> IsDigit(s[i])
  }

  predicate NoDigit(s: string) {
    forall i :: 0 <= i < |s| ==> !IsDigit(s[i])
  }

  function DigitValue(c: char): (d: nat)
    requires IsDigit(c)
    ensures d < 10
  {
    c as int - '0' as int
  }

  function DigitChar(d: nat): (c: char)
    requires d < 10
    ensures IsDigit(c) && DigitValue(c) == d
  {
    ('0' as int + d) as char
  }

  /** The value of a string of decimal digits. */
  function ParseDigits(s: string): nat
    requires AllDigits(s)
  {
    if s == [] then 0 else ParseDigits(s[..|s| - 1]) * 10 + DigitValue(s[|s| - 1])
  }

  /** `String(n)` for a non-negative integer: its decimal digits, no leading zero. */
  function NatToString(n: nat): (s: string)
    ensures s != [] && AllDigits(s)
    ensures |s| > 1 ==> s[0] != '0'
    ensures ParseDigits(s) == n
  {
    if n < 10 then [DigitChar(n)]
    else
      var p := NatToString(n / 10);
      var s := p + [DigitChar(n % 10)];
      assert s[..|s| - 1] == p;
      s
  }

  /** `String(i)` for an integer. */
  function IntToString(i: int): (s: string)
    ensures s != [] && NoSpace(s)
  {
    var s := if i < 0 then "-" + NatToString(-i) else NatToString(i);
    assert forall k :: 0 <= k < |s| ==> s[k] == '-' || IsDigit(s[k]);
    s
  }

  /**
   * `Number(s) || 0` for the texts a number field holds: an optionally signed
   * decimal integer, surrounded by optional white space, gives its value;
   * anything else (including the empty text, which `Number` maps to 0) gives 0.
   */
  function NumberOrZero(s: string): (r: int)
    ensures Blank(s) ==> r == 0
    ensures NoDigit(s) ==> r == 0
    ensures Trim(s) != [] && AllDigits(Trim(s)) ==> r == ParseDigits(Trim(s))
    ensures s != [] && AllDigits(s) ==> r == ParseDigits(s)
  {
    var t := Trim(s);
    NoDigitOfInnerPart(s, t);
    assert NoDigit(t) && t != [] ==> !IsDigit(t[0]);
    assert NoDigit(t) && |t| > 1 ==> !IsDigit(t[1..][0]);
    if t != [] && AllDigits(t) then ParseDigits(t)
    else if |t| > 1 && (t[0] == '-' || t[0] == '+') && AllDigits(t[1..]) then
      if t[0] == '-' then -(ParseDigits(t[1..]) as int) else ParseDigits(t[1..])
    else 0
  }

  /** Text without digits has none in any inner part. */
  lemma NoDigitOfInnerPart(s: string, t: string)
    requires InnerPart(s, t)
    ensures NoDigit(s) ==> NoDigit(t)
  {
    var i, j :| 0 <= i <= j <= |s| && t == s[i..j] && Blank(s[..i]) && Blank(s[j..]);
    assert forall k :: 0 <= k < |t| ==> t[k] == s[i + k];
  }

  /** The number field gives back every integer written into it with `String`. */
  lemma NumberOrZeroOfIntToString(i: int)
    ensures NumberOrZero(IntToString(i)) == i
  {
    if i < 0 {
      NumberOrZeroOfNegative(NatToString(-i));
    }
  }

  /** A minus sign followed by decimal digits reads as the negated value. */
  lemma NumberOrZeroOfNegative(digits: string)
    requires digits != [] && AllDigits(digits)
    ensures NumberOrZero("-" + digits) == -(ParseDigits(digits) as int)
  {
    var s := "-" + digits;
    assert |s| == |digits| + 1 && s[0] == '-' && s[1..] == digits;
    assert NoSpace(s) by {
      forall k | 0 <= k < |s| ensures !IsSpace(s[k]) {
        if k > 0 { assert s[k] == digits[k - 1]; }
      }
    }
    assert !AllDigits(s) by { assert !IsDigit(s[0]); }
    TrimOfSpaceFree(s);
  }
}
