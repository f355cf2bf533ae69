/** The JavaScript string routines the core relies on, written out over `seq<char>`. */
module Text {
  import opened Wrappers

  /** The characters `String.prototype.trim` removes: WhiteSpace (tab, vertical tab, form feed, space,
      no-break space, zero-width no-break space and the Unicode space separators) and LineTerminator. */
  predicate IsWhitespace(c: char) {
    || c == '\t' || c == '\U{B}' || c == '\U{C}' || c == ' ' || c == '\U{A0}' || c == '\U{FEFF}'
    || c == '\n' || c == '\r' || c == '\U{2028}' || c == '\U{2029}'
    || c == '\U{1680}' || ('\U{2000}' <= c <= '\U{200A}') || c == '\U{202F}' || c == '\U{205F}'
    || c == '\U{3000}'
  }

  predicate IsBlank(s: string) {
    forall i :: 0 <= i < |s| ==> IsWhitespace(s[i])
  }

  function TrimStart(s: string): (r: string)
    ensures |r| <= |s| && r == s[|s| - |r|..] && IsBlank(s[..|s| - |r|])
    ensures r == [] || !IsWhitespace(r[0])
    ensures r == [] <==> IsBlank(s)
  {
    if |s| > 0 && IsWhitespace(s[0]) then
      var r := TrimStart(s[1..]);
      TrimStartStep(s, r);
      r
    else s
  }

  function TrimEnd(s: string): (r: string)
    ensures |r| <= |s| && r == s[..|r|] && IsBlank(s[|r|..])
    ensures r == [] || !IsWhitespace(r[|r| - 1])
    ensures r == [] <==> IsBlank(s)
  {
    if |s| > 0 && IsWhitespace(s[|s| - 1]) then
      var r := TrimEnd(s[..|s| - 1]);
      TrimEndStep(s, r);
      r
    else s
  }

  /** Dropping one leading blank keeps what `TrimStart` promises. */
  lemma TrimStartStep(s: string, r: string)
    requires |s| > 0 && IsWhitespace(s[0])
    requires |r| <= |s| - 1 && r == s[1..][|s| - 1 - |r|..] && IsBlank(s[1..][..|s| - 1 - |r|])
    requires r == [] <==> IsBlank(s[1..])
    ensures r == s[|s| - |r|..] && IsBlank(s[..|s| - |r|])
    ensures r == [] <==> IsBlank(s)
  {
    var k := |s| - 1 - |r|;
    assert s == [s[0]] + s[1..];
    assert s[..|s| - |r|] == [s[0]] + s[1..][..k] && s[|s| - |r|..] == s[1..][k..];
    BlankConcat([s[0]], s[1..][..k]);
    BlankConcat([s[0]], s[1..]);
  }

  /** Dropping one trailing blank keeps what `TrimEnd` promises. */
  lemma TrimEndStep(s: string, r: string)
    requires |s| > 0 && IsWhitespace(s[|s| - 1])
    requires |r| <= |s| - 1 && r == s[..|s| - 1][..|r|] && IsBlank(s[..|s| - 1][|r|..])
    requires r == [] <==> IsBlank(s[..|s| - 1])
    ensures r == s[..|r|] && IsBlank(s[|r|..])
    ensures r == [] <==> IsBlank(s)
  {
    var p := s[..|s| - 1];
    assert s == p + [s[|s| - 1]];
    assert s[..|r|] == p[..|r|] && s[|r|..] == p[|r|..] + [s[|s| - 1]];
    BlankConcat(p[|r|..], [s[|s| - 1]]);
    BlankConcat(p, [s[|s| - 1]]);
  }

  lemma BlankConcat(a: string, b: string)
    ensures IsBlank(a + b) <==> IsBlank(a) && IsBlank(b)
  {
    if IsBlank(a) && IsBlank(b) {
      forall i | 0 <= i < |a + b| ensures IsWhitespace((a + b)[i]) {
        if i >= |a| { assert (a + b)[i] == b[i - |a|]; }
      }
    }
    if IsBlank(a + b) {
      forall i | 0 <= i < |a| ensures IsWhitespace(a[i]) { assert (a + b)[i] == a[i]; }
      forall i | 0 <= i < |b| ensures IsWhitespace(b[i]) { assert (a + b)[i + |a|] == b[i]; }
    }
  }

  /** `r` is the piece `s[a..b]` of `s`, with only whitespace before and after it. */
  predicate PaddedSlice(s: string, r: string, a: int, b: int) {
    0 <= a <= b <= |s| && r == s[a..b] && IsBlank(s[..a]) && IsBlank(s[b..])
  }

  /** `s.trim()`: the text without leading and trailing whitespace. */
  function Trim(s: string): (r: string)
    ensures |r| <= |s| && forall c :: c in r ==> c in s
    ensures exists a, b :: PaddedSlice(s, r, a, b)
    ensures r == [] || (!IsWhitespace(r[0]) && !IsWhitespace(r[|r| - 1]))
    ensures r == [] <==> IsBlank(s)
  {
    var t := TrimStart(s);
    var r := TrimEnd(t);
    SliceChars(s, |s| - |t|, |s| - |t| + |r|);
    PaddedPieces(s, |s| - |t|, r);
    r
  }

  lemma PaddedPieces(s: string, a: nat, r: string)
    requires a <= |s| && IsBlank(s[..a]) && |r| <= |s| - a
    requires r == s[a..][..|r|] && IsBlank(s[a..][|r|..])
    ensures PaddedSlice(s, r, a, a + |r|)
  {
    assert s[a..][..|r|] == s[a..a + |r|];
    assert s[a..][|r|..] == s[a + |r|..];
  }

  lemma {:induction false} TrimStartPadded(p: string, t: string)
    requires IsBlank(p) && (t == [] || !IsWhitespace(t[0]))
    ensures TrimStart(p + t) == t
  {
    if p == [] {
      assert p + t == t;
    } else {
      assert (p + t)[0] == p[0] && (p + t)[1..] == p[1..] + t;
      TrimStartPadded(p[1..], t);
    }
  }

  lemma {:induction false} TrimEndPadded(t: string, q: string)
    requires IsBlank(q) && (t == [] || !IsWhitespace(t[|t| - 1]))
    ensures TrimEnd(t + q) == t
  {
    if q == [] {
      assert t + q == t;
    } else {
      var q' := q[..|q| - 1];
      assert (t + q)[|t + q| - 1] == q[|q| - 1] && (t + q)[..|t + q| - 1] == t + q';
      TrimEndPadded(t, q');
    }
  }

  /** `trim` removes exactly the padding: a text with no whitespace at its ends, padded with
      whitespace on both sides, trims back to itself. With `Trim`'s own contract this fixes `Trim`. */
  lemma TrimOfPadded(p: string, m: string, q: string)
    requires IsBlank(p) && IsBlank(q) && (m == [] || (!IsWhitespace(m[0]) && !IsWhitespace(m[|m| - 1])))
    ensures Trim(p + m + q) == m
  {
    if m == [] {
      assert p + m + q == p + q;
      BlankConcat(p, q);
    } else {
      assert p + m + q == p + (m + q);
      assert (m + q)[0] == m[0];
      TrimStartPadded(p, m + q);
      TrimEndPadded(m, q);
    }
  }

  /** Trimming a trimmed text changes nothing. */
  lemma TrimIdempotent(s: string)
    ensures Trim(Trim(s)) == Trim(s)
  {
    var t := Trim(s);
    if t != [] {
      assert TrimStart(t) == t;
      assert TrimEnd(t) == t;
    }
  }

  lemma SliceChars(s: string, a: nat, b: nat)
    requires a <= b <= |s|
    ensures forall c :: c in s[a..b] ==> c in s
  {
    forall c | c in s[a..b] ensures c in s {
      var i :| 0 <= i < b - a && s[a..b][i] == c;
      assert s[a + i] == c;
    }
  }

  predicate OccursAt(s: string, sub: string, i: int) {
    0 <= i <= |s| - |sub| && s[i..i + |sub|] == sub
  }

  /** `s.includes(sub)`. */
  predicate Contains(s: string, sub: string) {
    exists i | 0 <= i <= |s| :: OccursAt(s, sub, i)
  }

  /** `s.split(sep)[0]`: the text before the first `sep`, or all of `s` when it has none. */
  function BeforeFirst(s: string, sep: char): (r: string)
    ensures sep !in r
    ensures |r| <= |s| && r == s[..|r|]
    ensures |r| < |s| ==> s[|r|] == sep
  {
    if s == [] then []
    else if s[0] == sep then []
    else [s[0]] + BeforeFirst(s[1..], sep)
  }

  function LowerAsciiChar(c: char): char {
    if 'A' <= c <= 'Z' then (c as int + 32) as char else c
  }

  /** `s.toLowerCase()` on the ASCII letters. */
  function LowerAscii(s: string): (r: string)
    ensures |r| == |s|
    ensures forall i :: 0 <= i < |s| ==> r[i] == LowerAsciiChar(s[i])
  {
    if s == [] then [] else [LowerAsciiChar(s[0])] + LowerAscii(s[1..])
  }

  /** The class `\d` of a JavaScript regular expression: the ASCII digits. */
  predicate IsDigit(c: char) {
    '0' <= c <= '9'
  }

  predicate AllDigits(s: string) {
    forall i :: 0 <= i < |s| ==> IsDigit(s[i])
  }

  /** The value of a run of decimal digits. */
  function DigitsValue(s: string): (n: nat)
    requires AllDigits(s)
  {
    if s == [] then 0 else 10 * DigitsValue(s[..|s| - 1]) + (s[|s| - 1] as int - '0' as int)
  }

  /** `Number(s)` on a string, None standing for NaN: surrounding whitespace is ignored, the empty
      string is 0, and an optional sign followed by decimal digits is that integer. */
  function StringToNumber(s: string): (r: Option<int>)
  {
    var t := Trim(s);
    if t == [] then Some(0)
    else if AllDigits(t) then Some(DigitsValue(t))
    else if |t| > 1 && t[0] == '-' && AllDigits(t[1..]) then Some(0 - DigitsValue(t[1..]))
    else if |t| > 1 && t[0] == '+' && AllDigits(t[1..]) then Some(DigitsValue(t[1..]))
    else None
  }

  /** `String(n)` for an integer. */
  function IntToDecimal(n: int): (r: string)
    decreases if n < 0 then 1 - n else n
  {
    if n < 0 then "-" + IntToDecimal(-n)
    else if n < 10 then [('0' as int + n) as char]
    else IntToDecimal(n / 10) + [('0' as int + n % 10) as char]
  }

  // Showing that a fixed text does not contain a word: the solver cannot search a literal for a
  // substring, so these lemmas reduce the question to where single characters occur.

  function UpperAsciiChar(c: char): char {
    if 'a' <= c <= 'z' then (c as int - 32) as char else c
  }

  /** Only `c` itself and its capital are lowercased to `c`. */
  lemma LowerAsciiCharAvoids(x: char, c: char)
    requires x != c && x != UpperAsciiChar(c)
    ensures LowerAsciiChar(x) != c
  {
  }

  /** A word with a character the text lacks does not occur in it. */
  lemma AbsentChar(s: string, sub: string, k: nat)
    requires k < |sub| && sub[k] !in s
    ensures !Contains(s, sub)
  {
    forall i | 0 <= i <= |s| ensures !OccursAt(s, sub, i) {
      if i <= |s| - |sub| {
        assert s[i..i + |sub|][k] == s[i + k];
      }
    }
  }

  /** A word found in either part is found in the whole. */
  lemma ContainsAppend(a: string, b: string, sub: string)
    requires Contains(a, sub) || Contains(b, sub)
    ensures Contains(a + b, sub)
  {
    if Contains(a, sub) {
      var i :| 0 <= i <= |a| && OccursAt(a, sub, i);
      assert (a + b)[i..i + |sub|] == a[i..i + |sub|];
      assert OccursAt(a + b, sub, i);
    } else {
      var i :| 0 <= i <= |b| && OccursAt(b, sub, i);
      assert (a + b)[|a| + i..|a| + i + |sub|] == b[i..i + |sub|];
      assert OccursAt(a + b, sub, |a| + i);
    }
  }

  /** A word without spaces found in neither part is not found across the space joining them. */
  lemma NotAcrossSpace(a: string, b: string, sub: string)
    requires ' ' !in sub && !Contains(a, sub) && !Contains(b, sub)
    ensures !Contains(a + " " + b, sub)
  {
    var s := a + " " + b;
    forall i | 0 <= i <= |s| ensures !OccursAt(s, sub, i) {
      if i > |s| - |sub| {
      } else if i + |sub| <= |a| {
        assert s[i..i + |sub|] == a[i..i + |sub|];
        assert !OccursAt(a, sub, i);
      } else if i > |a| {
        var j := i - |a| - 1;
        assert s[i..i + |sub|] == b[j..j + |sub|];
        assert !OccursAt(b, sub, j);
      } else {
        assert s[i..i + |sub|][|a| - i] == ' ';
        assert sub[|a| - i] in sub;
      }
    }
  }

  /** Words joined by single spaces. */
  function Words(ws: seq<string>): string {
    if ws == [] then "" else if |ws| == 1 then ws[0] else ws[0] + " " + Words(ws[1..])
  }

  /** A word without spaces occurs in a sentence only if it occurs in one of its words. */
  lemma {:induction false} NotInWords(ws: seq<string>, sub: string)
    requires sub != "" && ' ' !in sub && forall w | w in ws :: !Contains(w, sub)
    ensures !Contains(Words(ws), sub)
  {
    if ws == [] {
      assert !OccursAt("", sub, 0);
    } else if |ws| == 1 {
      assert ws[0] in ws;
    } else {
      assert ws[0] in ws;
      assert forall w | w in ws[1..] :: w in ws;
      NotInWords(ws[1..], sub);
      NotAcrossSpace(ws[0], Words(ws[1..]), sub);
    }
  }

  /** `s.toLowerCase().includes(sub)` for a lowercase `sub`, as a test on the characters of `s`. */
  predicate OccursAtCaseless(s: string, sub: string, i: int) {
    0 <= i <= |s| - |sub| && forall j | 0 <= j < |sub| :: LowerAsciiChar(s[i + j]) == sub[j]
  }

  predicate ContainsCaseless(s: string, sub: string) {
    exists i | 0 <= i <= |s| :: OccursAtCaseless(s, sub, i)
  }

  /** The caseless test is the test on the lowercased text. */
  lemma CaselessIsLowered(s: string, sub: string)
    ensures ContainsCaseless(s, sub) <==> Contains(LowerAscii(s), sub)
  {
    var l := LowerAscii(s);
    forall i | 0 <= i <= |s| ensures OccursAtCaseless(s, sub, i) <==> OccursAt(l, sub, i) {
      if 0 <= i <= |s| - |sub| {
        if OccursAtCaseless(s, sub, i) {
          assert l[i..i + |sub|] == sub;
        }
        if OccursAt(l, sub, i) {
          forall j | 0 <= j < |sub| ensures LowerAsciiChar(s[i + j]) == sub[j] {
            assert l[i..i + |sub|][j] == l[i + j];
          }
        }
      }
    }
  }

  /** A word with a character the text lacks in both cases does not occur in it, in either case. */
  lemma AbsentCharCaseless(s: string, sub: string, k: nat)
    requires k < |sub| && sub[k] !in s && UpperAsciiChar(sub[k]) !in s
    ensures !ContainsCaseless(s, sub)
  {
    forall i | 0 <= i <= |s| ensures !OccursAtCaseless(s, sub, i) {
      if i <= |s| - |sub| {
        LowerAsciiCharAvoids(s[i + k], sub[k]);
      }
    }
  }

  /** `NotAcrossSpace` for the caseless test. */
  lemma NotAcrossSpaceCaseless(a: string, b: string, sub: string)
    requires ' ' !in sub && !ContainsCaseless(a, sub) && !ContainsCaseless(b, sub)
    ensures !ContainsCaseless(a + " " + b, sub)
  {
    var s := a + " " + b;
    forall i | 0 <= i <= |s| ensures !OccursAtCaseless(s, sub, i) {
      if i > |s| - |sub| {
      } else if i + |sub| <= |a| {
        assert !OccursAtCaseless(a, sub, i);
        var j :| 0 <= j < |sub| && LowerAsciiChar(a[i + j]) != sub[j];
        assert s[i + j] == a[i + j];
      } else if i > |a| {
        var i' := i - |a| - 1;
        assert !OccursAtCaseless(b, sub, i');
        var j :| 0 <= j < |sub| && LowerAsciiChar(b[i' + j]) != sub[j];
        assert s[i + j] == b[i' + j];
      } else {
        assert s[i + (|a| - i)] == ' ';
        assert sub[|a| - i] in sub;
      }
    }
  }

  /** `NotInWords` for the caseless test. */
  lemma {:induction false} NotInWordsCaseless(ws: seq<string>, sub: string)
    requires sub != "" && ' ' !in sub && forall w | w in ws :: !ContainsCaseless(w, sub)
    ensures !ContainsCaseless(Words(ws), sub)
  {
    if ws == [] {
      assert !OccursAtCaseless("", sub, 0);
    } else if |ws| == 1 {
      assert ws[0] in ws;
    } else {
      assert ws[0] in ws;
      assert forall w | w in ws[1..] :: w in ws;
      NotInWordsCaseless(ws[1..], sub);
      NotAcrossSpaceCaseless(ws[0], Words(ws[1..]), sub);
    }
  }
}
