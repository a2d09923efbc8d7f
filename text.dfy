/**
 * The pieces of Python's `str` and of the `unicodedata` module that the assistant
 * relies on: `strip`, `upper`, `lower`, NFD decomposition, the general category Mn,
 * the regular-expression class `\w`, prefix and substring tests.
 *
 * Character tables cover ASCII and Latin-1 (U+0000 to U+00FF) exactly, plus the
 * characters those map to; see README.md for what lies outside them.
 */
module Text {

  // ---------------------------------------------------------------------------
  // Whitespace and str.strip()
  // ---------------------------------------------------------------------------

  /** Python's `str.isspace()`: the characters `str.strip()` removes. */
  predicate IsSpace(c: char) {
    || ('\t' <= c <= '\r')
    || ('\U{1C}' <= c <= '\U{1F}')
    || c == ' ' || c == '\U{85}' || c == '\U{A0}' || c == '\U{1680}'
    || ('\U{2000}' <= c <= '\U{200A}')
    || c == '\U{2028}' || c == '\U{2029}' || c == '\U{202F}' || c == '\U{205F}' || c == '\U{3000}'
  }

  /** The scan from the left in `str.strip()`: the first index at or after `from` that is not whitespace. */
  function SkipSpaces(s: string, from: nat): (i: nat)
    requires from <= |s|
    ensures from <= i <= |s|
    decreases |s| - from
  {
    if from < |s| && IsSpace(s[from]) then SkipSpaces(s, from + 1) else from
  }

  /** The scan from the right in `str.strip()`: it walks `hi` back over whitespace, never below `lo`. */
  function BackSpaces(s: string, lo: nat, hi: nat): (j: nat)
    requires lo <= hi <= |s|
    ensures lo <= j <= hi
    decreases hi
  {
    if lo < hi && IsSpace(s[hi - 1]) then BackSpaces(s, lo, hi - 1) else hi
  }

  /** `str.strip()`: `s` without leading and trailing whitespace. */
  function Strip(s: string): string {
    var i := SkipSpaces(s, 0);
    s[i..BackSpaces(s, i, |s|)]
  }

  /** The left scan passes over whitespace only and stops at a character that is not whitespace. */
  lemma {:induction false} SkipSpacesStops(s: string, from: nat)
    requires from <= |s|
    ensures var i := SkipSpaces(s, from);
            && (i < |s| ==> !IsSpace(s[i]))
            && forall k :: from <= k < i ==> IsSpace(s[k])
    decreases |s| - from
  {
    if from < |s| && IsSpace(s[from]) {
      SkipSpacesStops(s, from + 1);
    }
  }

  /** The right scan passes over whitespace only and stops after a character that is not whitespace. */
  lemma {:induction false} BackSpacesStops(s: string, lo: nat, hi: nat)
    requires lo <= hi <= |s|
    ensures var j := BackSpaces(s, lo, hi);
            && (lo < j ==> !IsSpace(s[j - 1]))
            && forall k :: j <= k < hi ==> IsSpace(s[k])
    decreases hi
  {
    if lo < hi && IsSpace(s[hi - 1]) {
      BackSpacesStops(s, lo, hi - 1);
    }
  }

  /**
   * `strip()` drops a prefix and a suffix of `s` made only of whitespace, and what it
   * keeps neither starts nor ends with whitespace; it is empty exactly when `s` is all
   * whitespace.
   */
  lemma StripMeaning(s: string)
    ensures var r := Strip(s);
            && (r != [] ==> !IsSpace(r[0]) && !IsSpace(r[|r| - 1]))
            && (r == [] <==> forall k :: 0 <= k < |s| ==> IsSpace(s[k]))
            && exists i, j | 0 <= i <= j <= |s| ::
                 && r == s[i..j]
                 && (forall k :: 0 <= k < i ==> IsSpace(s[k]))
                 && (forall k :: j <= k < |s| ==> IsSpace(s[k]))
  {
    var i := SkipSpaces(s, 0);
    var j := BackSpaces(s, i, |s|);
    SkipSpacesStops(s, 0);
    BackSpacesStops(s, i, |s|);
    var r := s[i..j];
    if i < j {
      assert r[0] == s[i] && r[|r| - 1] == s[j - 1];
    }
  }

  /** Text without whitespace at either end is left alone by `strip()`. */
  lemma StripUnpadded(s: string)
    requires s == [] || (!IsSpace(s[0]) && !IsSpace(s[|s| - 1]))
    ensures Strip(s) == s
  {
    assert s[0..|s|] == s;
  }

  /** Stripping twice is stripping once. */
  lemma StripIdempotent(s: string)
    ensures Strip(Strip(s)) == Strip(s)
  {
    StripMeaning(s);
    StripUnpadded(Strip(s));
  }

  // ---------------------------------------------------------------------------
  // Case mapping: str.upper() and str.lower()
  // ---------------------------------------------------------------------------

  /** `str.upper()` of one character; `ß` becomes the two letters `SS`. */
  function UpperChar(c: char): seq<char> {
    if 'a' <= c <= 'z' then [(c as int - 32) as char]
    else if c == '\U{B5}' then ['\U{39C}']
    else if c == '\U{DF}' then "SS"
    else if '\U{E0}' <= c <= '\U{FE}' && c != '\U{F7}' then [(c as int - 32) as char]
    else if c == '\U{FF}' then ['\U{178}']
    else [c]
  }

  /** `str.upper()`. */
  function ToUpper(s: string): string {
    if s == [] then [] else UpperChar(s[0]) + ToUpper(s[1..])
  }

  /** `str.lower()` of one character. */
  function LowerChar(c: char): char {
    if 'A' <= c <= 'Z' || ('\U{C0}' <= c <= '\U{DE}' && c != '\U{D7}') then (c as int + 32) as char
    else c
  }

  /** `str.lower()`; also the case folding Postgres applies on both sides of `ILIKE`. */
  function ToLower(s: string): (r: string)
    ensures |r| == |s|
  {
    if s == [] then [] else [LowerChar(s[0])] + ToLower(s[1..])
  }

  /** `lower()` maps each character on its own. */
  lemma {:induction false} ToLowerAt(s: string)
    ensures forall i :: 0 <= i < |s| ==> ToLower(s)[i] == LowerChar(s[i])
  {
    if s != [] {
      ToLowerAt(s[1..]);
    }
  }

  /** Capital ASCII letters are their own upper case. */
  lemma {:induction false} UpperOfCapitals(s: string)
    requires forall k :: 0 <= k < |s| ==> 'A' <= s[k] <= 'Z'
    ensures ToUpper(s) == s
  {
    if s != [] {
      UpperOfCapitals(s[1..]);
      assert UpperChar(s[0]) == [s[0]];
      assert s == [s[0]] + s[1..];
    }
  }

  /** Small ASCII letters upper-case to the capitals 32 code points below. */
  lemma {:induction false} UpperOfSmall(s: string)
    requires forall k :: 0 <= k < |s| ==> 'a' <= s[k] <= 'z'
    ensures ToUpper(s) == seq(|s|, k requires 0 <= k < |s| => (s[k] as int - 32) as char)
  {
    if s != [] {
      UpperOfSmall(s[1..]);
    }
  }

  /** A character that `upper()` leaves as it is. */
  predicate IsUpperStable(c: char) {
    UpperChar(c) == [c]
  }

  lemma {:induction false} ToUpperAppend(a: string, b: string)
    ensures ToUpper(a + b) == ToUpper(a) + ToUpper(b)
  {
    if a != [] {
      assert (a + b)[0] == a[0] && (a + b)[1..] == a[1..] + b;
      ToUpperAppend(a[1..], b);
      assert ToUpper(a + b) == UpperChar(a[0]) + (ToUpper(a[1..]) + ToUpper(b));
    } else {
      assert a + b == b;
    }
  }

  lemma UpperCharStable(c: char)
    ensures forall k :: 0 <= k < |UpperChar(c)| ==> IsUpperStable(UpperChar(c)[k])
  {
  }

  /** Every character of an upper-cased text is upper-case already. */
  lemma {:induction false} ToUpperStable(s: string)
    ensures forall k :: 0 <= k < |ToUpper(s)| ==> IsUpperStable(ToUpper(s)[k])
  {
    if s != [] {
      UpperCharStable(s[0]);
      ToUpperStable(s[1..]);
    }
  }

  /** `upper()` is the identity on text whose characters are all upper-case. */
  lemma {:induction false} ToUpperOfStable(s: string)
    requires forall k :: 0 <= k < |s| ==> IsUpperStable(s[k])
    ensures ToUpper(s) == s
  {
    if s != [] {
      ToUpperOfStable(s[1..]);
    }
  }

  /** What `RemoveMarks` leaves of an upper-case character is upper-case. */
  lemma MarkFreeStable(x: char)
    requires IsUpperStable(x)
    ensures forall i :: 0 <= i < |MarkFree(x)| ==> IsUpperStable(MarkFree(x)[i])
  {
    var d := Decompose(x);
    if |d| == 2 {
      assert !('\U{E0}' <= x <= '\U{FF}');
      assert 'A' <= d[0] <= 'Z';
    }
  }

  /** Removing marks from upper-case text leaves upper-case text. */
  lemma {:induction false} RemoveMarksStable(s: string)
    requires forall k :: 0 <= k < |s| ==> IsUpperStable(s[k])
    ensures forall k :: 0 <= k < |RemoveMarks(s)| ==> IsUpperStable(RemoveMarks(s)[k])
  {
    if s != [] {
      assert s == [s[0]] + s[1..];
      RemoveMarksAppend([s[0]], s[1..]);
      RemoveMarksStable(s[1..]);
      RemoveMarksChar(s[0]);
      MarkFreeStable(s[0]);
      var a, b := MarkFree(s[0]), RemoveMarks(s[1..]);
      forall k | 0 <= k < |a + b| ensures IsUpperStable((a + b)[k]) {
        if k >= |a| {
          assert (a + b)[k] == b[k - |a|];
        }
      }
    }
  }

  /** `upper()` is idempotent. */
  lemma ToUpperIdempotent(s: string)
    ensures ToUpper(ToUpper(s)) == ToUpper(s)
  {
    ToUpperStable(s);
    ToUpperOfStable(ToUpper(s));
  }

  // ---------------------------------------------------------------------------
  // unicodedata: general category Mn and NFD
  // ---------------------------------------------------------------------------

  /** General category Mn (non-spacing mark), for the combining-mark blocks. */
  predicate IsMn(c: char) {
    || ('\U{300}' <= c <= '\U{36F}')
    || ('\U{1AB0}' <= c <= '\U{1ABD}')
    || ('\U{1DC0}' <= c <= '\U{1DFF}')
    || ('\U{20D0}' <= c <= '\U{20DC}')
    || c == '\U{20E1}'
    || ('\U{20E5}' <= c <= '\U{20F0}')
    || ('\U{FE20}' <= c <= '\U{FE2F}')
  }

  const GRAVE: char := '\U{300}'
  const ACUTE: char := '\U{301}'
  const CIRCUMFLEX: char := '\U{302}'
  const TILDE: char := '\U{303}'
  const DIAERESIS: char := '\U{308}'
  const RING: char := '\U{30A}'
  const CEDILLA: char := '\U{327}'

  /**
   * Canonical decomposition of one character: a Latin-1 letter with a diacritic
   * (and U+0178) becomes its base letter followed by the combining mark; every
   * other character stands for itself.
   */
  function Decompose(c: char): (r: seq<char>)
    ensures 1 <= |r| <= 2
    ensures |r| == 1 ==> r == [c]
    ensures |r| == 2 ==> IsMn(r[1]) && (('A' <= r[0] <= 'Z') || ('a' <= r[0] <= 'z'))
    ensures IsMn(c) ==> r == [c]
  {
    var k := c as int;
    if 0xC0 <= k <= 0xFF then
      var shift := if k >= 0xE0 then 32 else 0;
      var off := k - 0xC0 - shift;
      if off <= 5 then [('A' as int + shift) as char, [GRAVE, ACUTE, CIRCUMFLEX, TILDE, DIAERESIS, RING][off]]
      else if off == 7 then [('C' as int + shift) as char, CEDILLA]
      else if 8 <= off <= 11 then [('E' as int + shift) as char, [GRAVE, ACUTE, CIRCUMFLEX, DIAERESIS][off - 8]]
      else if 12 <= off <= 15 then [('I' as int + shift) as char, [GRAVE, ACUTE, CIRCUMFLEX, DIAERESIS][off - 12]]
      else if off == 17 then [('N' as int + shift) as char, TILDE]
      else if 18 <= off <= 22 then [('O' as int + shift) as char, [GRAVE, ACUTE, CIRCUMFLEX, TILDE, DIAERESIS][off - 18]]
      else if 25 <= off <= 28 then [('U' as int + shift) as char, [GRAVE, ACUTE, CIRCUMFLEX, DIAERESIS][off - 25]]
      else if off == 29 then [('Y' as int + shift) as char, ACUTE]
      else if off == 31 && shift == 32 then ['y', DIAERESIS]
      else [c]
    else if k == 0x178 then ['Y', DIAERESIS]
    else [c]
  }

  /** A character that NFD leaves alone and that is not a mark. */
  predicate IsPlain(c: char) {
    !IsMn(c) && Decompose(c) == [c]
  }

  /** `unicodedata.normalize('NFD', s)`. */
  function Nfd(s: string): string {
    if s == [] then [] else Decompose(s[0]) + Nfd(s[1..])
  }

  /** The characters of `s` whose category is not Mn, in order. */
  function DropMn(s: string): (r: string)
    ensures |r| <= |s|
    ensures forall i :: 0 <= i < |r| ==> !IsMn(r[i])
  {
    if s == [] then []
    else if IsMn(s[0]) then DropMn(s[1..])
    else [s[0]] + DropMn(s[1..])
  }

  /**
   * `''.join(c for c in unicodedata.normalize('NFD', s) if unicodedata.category(c) != 'Mn')`:
   * the diacritic-stripping core of `sanitize_input` and `normalize`.
   */
  function RemoveMarks(s: string): (r: string)
    ensures forall i :: 0 <= i < |r| ==> !IsMn(r[i])
  {
    DropMn(Nfd(s))
  }

  lemma {:induction false} NfdAppend(a: string, b: string)
    ensures Nfd(a + b) == Nfd(a) + Nfd(b)
  {
    if a != [] {
      assert (a + b)[0] == a[0] && (a + b)[1..] == a[1..] + b;
      NfdAppend(a[1..], b);
      assert Nfd(a + b) == Decompose(a[0]) + (Nfd(a[1..]) + Nfd(b));
    } else {
      assert a + b == b;
    }
  }

  lemma {:induction false} DropMnAppend(a: string, b: string)
    ensures DropMn(a + b) == DropMn(a) + DropMn(b)
  {
    if a != [] {
      assert (a + b)[0] == a[0] && (a + b)[1..] == a[1..] + b;
      DropMnAppend(a[1..], b);
    } else {
      assert a + b == b;
    }
  }

  lemma RemoveMarksAppend(a: string, b: string)
    ensures RemoveMarks(a + b) == RemoveMarks(a) + RemoveMarks(b)
  {
    NfdAppend(a, b);
    DropMnAppend(Nfd(a), Nfd(b));
  }

  /** Text made only of plain characters (ASCII, for one) comes back unchanged. */
  lemma {:induction false} RemoveMarksOfPlain(s: string)
    requires forall i :: 0 <= i < |s| ==> IsPlain(s[i])
    ensures RemoveMarks(s) == s
  {
    if s != [] {
      RemoveMarksOfPlain(s[1..]);
      assert s == [s[0]] + s[1..];
      RemoveMarksAppend([s[0]], s[1..]);
    }
  }

  /** ASCII characters are plain. */
  lemma AsciiIsPlain(c: char)
    requires c < '\U{80}'
    ensures IsPlain(c)
  {
  }

  /** Every character that survives `RemoveMarks` is plain. */
  lemma {:induction false} RemoveMarksPlain(s: string)
    ensures forall i :: 0 <= i < |RemoveMarks(s)| ==> IsPlain(RemoveMarks(s)[i])
  {
    if s != [] {
      assert s == [s[0]] + s[1..];
      RemoveMarksAppend([s[0]], s[1..]);
      RemoveMarksPlain(s[1..]);
      MarkFreePlain(s[0]);
      RemoveMarksChar(s[0]);
      PlainAppend(MarkFree(s[0]), RemoveMarks(s[1..]));
    }
  }

  /** What is left of one character is plain: an ASCII base letter, nothing, or a plain character. */
  lemma MarkFreePlain(x: char)
    ensures forall i :: 0 <= i < |MarkFree(x)| ==> IsPlain(MarkFree(x)[i])
  {
    var d := Decompose(x);
    if |d| == 2 {
      AsciiIsPlain(d[0]);
    }
  }

  lemma PlainAppend(a: string, b: string)
    requires forall i :: 0 <= i < |a| ==> IsPlain(a[i])
    requires forall i :: 0 <= i < |b| ==> IsPlain(b[i])
    ensures forall i :: 0 <= i < |a + b| ==> IsPlain((a + b)[i])
  {
    forall i | 0 <= i < |a + b| ensures IsPlain((a + b)[i]) {
      if i >= |a| {
        assert (a + b)[i] == b[i - |a|];
      }
    }
  }

  /** Removing marks twice is removing them once. */
  lemma RemoveMarksIdempotent(s: string)
    ensures RemoveMarks(RemoveMarks(s)) == RemoveMarks(s)
  {
    RemoveMarksPlain(s);
    RemoveMarksOfPlain(RemoveMarks(s));
  }

  /** What `RemoveMarks` makes of one character: its base letter, nothing (a mark), or itself. */
  function MarkFree(x: char): string {
    var d := Decompose(x);
    if |d| == 2 then [d[0]] else if IsMn(x) then [] else [x]
  }

  lemma RemoveMarksChar(x: char)
    ensures RemoveMarks([x]) == MarkFree(x)
  {
    var d := Decompose(x);
    assert [x][1..] == [];
    assert Nfd([x]) == d;
    if |d| == 2 {
      assert d[1..][1..] == [];
      assert DropMn(d[1..]) == [];
      assert DropMn(d) == [d[0]] + DropMn(d[1..]);
    } else {
      assert d[1..] == [];
    }
  }

  lemma ToUpperChar(x: char)
    ensures ToUpper([x]) == UpperChar(x)
  {
    assert ToUpper([x]) == UpperChar(x) + ToUpper([]);
  }

  /** Upper-casing a Latin-1 lower-case letter keeps its diacritic and upper-cases its base. */
  lemma DecomposeUpper(c: char)
    requires '\U{E0}' <= c <= '\U{FE}' && c != '\U{F7}'
    ensures var d, e := Decompose(c), Decompose((c as int - 32) as char);
            |d| == |e| && (|d| == 2 ==> e[1] == d[1] && e[0] as int == d[0] as int - 32)
  {
  }

  /** The character-level fact behind `UpperCommutesChar`, one group of characters at a time. */
  lemma MarkFreeUpper(c: char)
    requires c != '\U{DF}'
    ensures |UpperChar(c)| == 1
    ensures MarkFree(UpperChar(c)[0]) == if MarkFree(c) == [] then [] else UpperChar(MarkFree(c)[0])
  {
    if 'a' <= c <= 'z' {
      var u := (c as int - 32) as char;
      assert UpperChar(c) == [u];
      assert Decompose(u) == [u];
    } else if c == '\U{B5}' {
      assert Decompose('\U{39C}') == ['\U{39C}'];
    } else if '\U{E0}' <= c <= '\U{FE}' && c != '\U{F7}' {
      DecomposeUpper(c);
    } else if c == '\U{FF}' {
      assert Decompose(c) == ['y', DIAERESIS];
      assert Decompose('\U{178}') == ['Y', DIAERESIS];
    } else {
      assert UpperChar(c) == [c];
      var d := Decompose(c);
      if |d| == 2 {
        assert '\U{C0}' <= c <= '\U{DE}' || c == '\U{178}';
        assert 'A' <= d[0] <= 'Z';
      }
    }
  }

  /** Upper-casing what `RemoveMarks` leaves of one character. */
  lemma UpperOfMarkFree(c: char)
    ensures ToUpper(RemoveMarks([c])) == if MarkFree(c) == [] then [] else UpperChar(MarkFree(c)[0])
  {
    RemoveMarksChar(c);
    var m := MarkFree(c);
    if m != [] {
      assert m == [m[0]];
      ToUpperChar(m[0]);
    }
  }

  /** `ß` upper-cases to `SS`, which has no marks to remove. */
  lemma SharpSUpper()
    ensures RemoveMarks(UpperChar('\U{DF}')) == "SS"
  {
    assert UpperChar('\U{DF}') == ['S'] + ['S'];
    RemoveMarksAppend(['S'], ['S']);
    RemoveMarksChar('S');
  }

  /** Per character: upper-casing before or after removing marks gives the same text. */
  lemma UpperCommutesChar(c: char)
    ensures RemoveMarks(UpperChar(c)) == ToUpper(RemoveMarks([c]))
  {
    UpperOfMarkFree(c);
    if c == '\U{DF}' {
      SharpSUpper();
      assert MarkFree(c) == [c];
    } else {
      MarkFreeUpper(c);
      var u := UpperChar(c);
      assert u == [u[0]];
      RemoveMarksChar(u[0]);
    }
  }

  /**
   * The characters on which the case and decomposition tables agree with Python: Latin-1,
   * and the two capitals outside it that Latin-1 letters upper-case to.
   */
  predicate Tabulated(c: char) {
    c <= '\U{FF}' || c == '\U{178}' || c == '\U{39C}'
  }

  /**
   * On tabulated text, upper-casing commutes with removing marks. (Beyond the tables it
   * does not: U+0345 is a mark, which Python's `upper()` maps to the letter U+0399.)
   */
  lemma {:induction false} UpperCommutes(s: string)
    requires forall i :: 0 <= i < |s| ==> Tabulated(s[i])
    ensures RemoveMarks(ToUpper(s)) == ToUpper(RemoveMarks(s))
  {
    if s != [] {
      assert s == [s[0]] + s[1..];
      assert forall i :: 0 <= i < |s[1..]| ==> s[1..][i] == s[i + 1];
      UpperCommutes(s[1..]);
      UpperCommutesChar(s[0]);
      RemoveMarksAppend(UpperChar(s[0]), ToUpper(s[1..]));
      RemoveMarksAppend([s[0]], s[1..]);
      ToUpperAppend(RemoveMarks([s[0]]), RemoveMarks(s[1..]));
    }
  }

  /** `lower()` maps a concatenation part by part. */
  lemma {:induction false} ToLowerAppend(a: string, b: string)
    ensures ToLower(a + b) == ToLower(a) + ToLower(b)
  {
    if a == [] {
      assert a + b == b;
    } else {
      assert (a + b)[1..] == a[1..] + b;
      ToLowerAppend(a[1..], b);
    }
  }

  lemma ToLowerChar(x: char)
    ensures ToLower([x]) == [LowerChar(x)]
  {
    assert [x][1..] == [];
  }

  /** Lower-casing a Latin-1 character keeps its diacritic and lower-cases its base. */
  lemma MarkFreeLower(c: char)
    requires c <= '\U{FF}'
    ensures MarkFree(LowerChar(c)) == ToLower(MarkFree(c))
  {
    if 'A' <= c <= 'Z' {
      assert Decompose(c) == [c];
      assert Decompose(LowerChar(c)) == [LowerChar(c)];
      ToLowerChar(c);
    } else if '\U{C0}' <= c <= '\U{DE}' && c != '\U{D7}' {
      var l := (c as int + 32) as char;
      DecomposeUpper(l);
      assert (l as int - 32) as char == c;
      var d := Decompose(c);
      if |d| == 2 {
        ToLowerChar(d[0]);
      } else {
        ToLowerChar(c);
      }
    } else {
      assert LowerChar(c) == c;
      var d := Decompose(c);
      if |d| == 2 {
        assert 'a' <= d[0] <= 'z';
        ToLowerChar(d[0]);
      } else {
        ToLowerChar(c);
      }
    }
  }

  /** Per character: lower-casing before or after removing marks gives the same text. */
  lemma LowerCommutesChar(c: char)
    requires c <= '\U{FF}'
    ensures RemoveMarks([LowerChar(c)]) == ToLower(RemoveMarks([c]))
  {
    RemoveMarksChar(c);
    RemoveMarksChar(LowerChar(c));
    MarkFreeLower(c);
  }

  /**
   * On Latin-1 text, lower-casing commutes with removing marks. (Beyond Latin-1 it does
   * not: U+0178 loses its mark to `Y`, which `lower()` maps to `y`, but the model's
   * `lower()` leaves U+0178 itself unchanged.)
   */
  lemma {:induction false} LowerCommutes(s: string)
    requires forall i :: 0 <= i < |s| ==> s[i] <= '\U{FF}'
    ensures ToLower(RemoveMarks(s)) == RemoveMarks(ToLower(s))
  {
    if s != [] {
      assert s == [s[0]] + s[1..];
      LowerCommutes(s[1..]);
      LowerCommutesChar(s[0]);
      assert ToLower(s) == [LowerChar(s[0])] + ToLower(s[1..]);
      RemoveMarksAppend([LowerChar(s[0])], ToLower(s[1..]));
      RemoveMarksAppend([s[0]], s[1..]);
      ToLowerAppend(RemoveMarks([s[0]]), RemoveMarks(s[1..]));
    }
  }

  // ---------------------------------------------------------------------------
  // Regular expressions and searching
  // ---------------------------------------------------------------------------

  /** The regular-expression class `\w` on `str` patterns (letters, digits, `_`). */
  predicate IsWordChar(c: char) {
    || ('0' <= c <= '9') || ('A' <= c <= 'Z') || ('a' <= c <= 'z') || c == '_'
    || c == '\U{AA}' || c == '\U{B2}' || c == '\U{B3}' || c == '\U{B5}' || c == '\U{B9}' || c == '\U{BA}'
    || ('\U{BC}' <= c <= '\U{BE}')
    || ('\U{C0}' <= c <= '\U{FF}' && c != '\U{D7}' && c != '\U{F7}')
  }

  /** `s.startswith(p)`. */
  predicate StartsWith(s: string, p: string) {
    |p| <= |s| && s[..|p|] == p
  }

  /** `p` occurs in `s` at position `i`. */
  predicate OccursAt(s: string, p: string, i: int) {
    0 <= i && i + |p| <= |s| && s[i..i + |p|] == p
  }

  /** `p in s`. */
  predicate Contains(s: string, p: string) {
    exists i | 0 <= i <= |s| :: OccursAt(s, p, i)
  }

  /** `s ILIKE '%p%'` (ignoring `%` and `_` inside `p`): case-insensitive substring test. */
  predicate ContainsIgnoreCase(s: string, p: string) {
    Contains(ToLower(s), ToLower(p))
  }

  /** The first position at or after `from` where `p` occurs in `s`, if any. */
  function FindFrom(s: string, p: string, from: nat): (r: int)
    requires from <= |s| + 1
    decreases |s| + 1 - from
    ensures r == -1 || (from <= r && OccursAt(s, p, r))
    ensures r == -1 ==> forall i :: from <= i ==> !OccursAt(s, p, i)
    ensures r != -1 ==> forall i :: from <= i < r ==> !OccursAt(s, p, i)
  {
    if from + |p| > |s| then -1
    else if s[from..from + |p|] == p then from
    else FindFrom(s, p, from + 1)
  }

  /** `s.find(p)`: the first position of `p` in `s`, or -1. */
  function Find(s: string, p: string): (r: int)
    ensures r == -1 <==> !Contains(s, p)
    ensures r != -1 ==> OccursAt(s, p, r) && forall i :: 0 <= i < r ==> !OccursAt(s, p, i)
  {
    FindFrom(s, p, 0)
  }
}
