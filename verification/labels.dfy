/**
  Column-label shortening (modules/ui.py, `shorten_label`): a period header
  such as "Apprentices and trainees, 2023_12" is shown as "2023_12".
 */
module Labels {

  /**
    The characters Python's `str.isspace` accepts, so the ones `strip()`
    removes: tab to carriage return, the four separators U+1C..U+1F, space,
    U+85, no-break space, ogham space, the spaces U+2000..U+200A, the line
    and paragraph separators, U+202F, U+205F and the ideographic space.
   */
  predicate IsSpace(c: char) {
    || '\t' <= c <= '\r'
    || '\U{1C}' <= c <= ' '
    || c == '\U{85}' || c == '\U{A0}' || c == '\U{1680}'
    || '\U{2000}' <= c <= '\U{200A}'
    || c == '\U{2028}' || c == '\U{2029}' || c == '\U{202F}' || c == '\U{205F}'
    || c == '\U{3000}'
  }

  /** Every character of `s` from position `lo` up to (not including) `hi` is whitespace. */
  predicate SpaceBetween(s: string, lo: int, hi: int)
    requires 0 <= lo && hi <= |s|
  {
    forall i :: lo <= i < hi ==> IsSpace(s[i])
  }

  /** `r` sits at offset `a` of `s` with only whitespace around it. */
  ghost predicate SurroundedBySpace(s: string, a: int, r: string) {
    && 0 <= a && a + |r| <= |s|
    && r == s[a..a + |r|]
    && SpaceBetween(s, 0, a)
    && SpaceBetween(s, a + |r|, |s|)
  }

  /** `r` is what `s.strip()` gives: `s` with all outer whitespace removed. */
  ghost predicate IsStripOf(s: string, r: string) {
    && (|r| == 0 || (!IsSpace(r[0]) && !IsSpace(r[|r| - 1])))
    && exists a :: SurroundedBySpace(s, a, r)
  }

  /** Skips whitespace forward from `lo`: the first non-space position before `hi`, or `hi`. */
  function SkipForward(s: string, lo: nat, hi: nat): (a: nat)
    requires lo <= hi <= |s|
    ensures lo <= a <= hi && SpaceBetween(s, lo, a)
    ensures a < hi ==> !IsSpace(s[a])
    decreases hi - lo
  {
    if lo < hi && IsSpace(s[lo]) then SkipForward(s, lo + 1, hi) else lo
  }

  /** Skips whitespace backward from `hi`: the end of the last non-space after `lo`, or `lo`. */
  function SkipBackward(s: string, lo: nat, hi: nat): (e: nat)
    requires lo <= hi <= |s|
    ensures lo <= e <= hi && SpaceBetween(s, e, hi)
    ensures lo < e ==> !IsSpace(s[e - 1])
    decreases hi - lo
  {
    if lo < hi && IsSpace(s[hi - 1]) then SkipBackward(s, lo, hi - 1) else hi
  }

  /** Python's `s.strip()` with no argument. */
  function Strip(s: string): (r: string)
    ensures IsStripOf(s, r)
    ensures |r| <= |s|
  {
    var a := SkipForward(s, 0, |s|);
    var e := SkipBackward(s, a, |s|);
    var r := s[a..e];
    assert SurroundedBySpace(s, a, r);
    r
  }

  /** Only one string is the strip of `s`: the stripping contract is complete. */
  lemma StripUnique(s: string, r1: string, r2: string)
    requires IsStripOf(s, r1) && IsStripOf(s, r2)
    ensures r1 == r2
  {
    var a1 :| SurroundedBySpace(s, a1, r1);
    var a2 :| SurroundedBySpace(s, a2, r2);
  }

  /** Number of times `c` occurs in `s`. */
  function Occurrences(s: string, c: char): nat {
    if |s| == 0 then 0 else (if s[0] == c then 1 else 0) + Occurrences(s[1..], c)
  }

  lemma {:induction false} OccurrencesAppend(s: string, t: string, c: char)
    ensures Occurrences(s + t, c) == Occurrences(s, c) + Occurrences(t, c)
    decreases |s|
  {
    if |s| > 0 {
      assert (s + t)[1..] == s[1..] + t;
      OccurrencesAppend(s[1..], t, c);
    } else {
      assert s + t == t;
    }
  }

  lemma {:induction false} OccurrencesAbsent(s: string, c: char)
    requires c !in s
    ensures Occurrences(s, c) == 0
    decreases |s|
  {
    if |s| > 0 {
      OccurrencesAbsent(s[1..], c);
    }
  }

  lemma {:induction false} OccurrencesInSpace(s: string, c: char)
    requires SpaceBetween(s, 0, |s|) && !IsSpace(c)
    ensures Occurrences(s, c) == 0
    decreases |s|
  {
    if |s| > 0 {
      OccurrencesInSpace(s[1..], c);
    }
  }

  /** Removing whitespace around `r` removes no occurrence of a non-space character. */
  lemma OccurrencesAround(s: string, a: int, r: string, c: char)
    requires SurroundedBySpace(s, a, r) && !IsSpace(c)
    ensures Occurrences(s, c) == Occurrences(r, c)
  {
    var front, back := s[..a], s[a + |r|..];
    assert s == front + r + back;
    assert SpaceBetween(front, 0, |front|) && SpaceBetween(back, 0, |back|);
    OccurrencesAppend(front + r, back, c);
    OccurrencesAppend(front, r, c);
    OccurrencesInSpace(front, c);
    OccurrencesInSpace(back, c);
  }

  /** Stripping never removes a character that is not whitespace. */
  lemma StripKeepsOccurrences(s: string, c: char)
    requires !IsSpace(c)
    ensures Occurrences(Strip(s), c) == Occurrences(s, c)
  {
    var r := Strip(s);
    var a :| SurroundedBySpace(s, a, r);
    OccurrencesAround(s, a, r, c);
  }

  /** Position of the first `c` in `s`. */
  function FirstIndex(s: string, c: char): (i: nat)
    requires c in s
    ensures i < |s| && s[i] == c && c !in s[..i]
  {
    if s[0] == c then 0
    else
      assert c in s[1..];
      assert s[..1 + FirstIndex(s[1..], c)] == [s[0]] + s[1..][..FirstIndex(s[1..], c)];
      1 + FirstIndex(s[1..], c)
  }

  /** Cutting at the first comma leaves every later comma in the tail. */
  lemma CommasAfterFirst(c: string, i: nat)
    requires i < |c| && c[i] == ',' && ',' !in c[..i]
    ensures Occurrences(c[i + 1..], ',') == Occurrences(c, ',') - 1
  {
    var head, tail := c[..i], c[i + 1..];
    assert c == head + [','] + tail;
    OccurrencesAppend(head + [','], tail, ',');
    OccurrencesAppend(head, [','], ',');
    OccurrencesAbsent(head, ',');
    assert Occurrences([','], ',') == 1;
  }

  /**
    `shorten_label`: with a comma, the stripped text after the first comma
    (later commas stay); without one, the name itself.
   */
  function ShortenLabel(c: string): (r: string)
    ensures ',' !in c ==> r == c
    ensures ',' in c ==> IsStripOf(c[FirstIndex(c, ',') + 1..], r)
    ensures ',' in c ==> Occurrences(r, ',') == Occurrences(c, ',') - 1
    ensures ',' in c ==> |r| < |c|
  {
    if ',' in c then
      var i := FirstIndex(c, ',');
      CommasAfterFirst(c, i);
      StripKeepsOccurrences(c[i + 1..], ',');
      Strip(c[i + 1..])
    else
      c
  }

  /** A shortened label without a comma is left alone by a second shortening. */
  lemma ShortenLabelStable(c: string)
    requires ',' !in ShortenLabel(c)
    ensures ShortenLabel(ShortenLabel(c)) == ShortenLabel(c)
  {
  }

  /** A comma-bearing label is shortened to a trimmed, shorter label. */
  lemma {:induction false} ShortenLabelTrimmed(c: string)
    requires ',' in c
    ensures var r := ShortenLabel(c); |r| == 0 || (!IsSpace(r[0]) && !IsSpace(r[|r| - 1]))
  {
  }

  /** The first occurrence is the one with no earlier occurrence. */
  lemma FirstIndexAt(s: string, c: char, i: nat)
    requires i < |s| && s[i] == c && c !in s[..i]
    ensures FirstIndex(s, c) == i
  {
  }

  /** Any `r` meeting the comma case's contract is the shortened label. */
  lemma ShortenLabelDetermined(c: string, i: nat, r: string)
    requires i < |c| && c[i] == ',' && ',' !in c[..i]
    requires IsStripOf(c[i + 1..], r)
    ensures ShortenLabel(c) == r
  {
    FirstIndexAt(c, ',', i);
    StripUnique(c[i + 1..], ShortenLabel(c), r);
  }

  /** A comma-bearing period header. */
  lemma ShortenLabelCommaExample()
    ensures ShortenLabel("Apprentices, 2023_Q4") == "2023_Q4"
  {
    var c := "Apprentices, 2023_Q4";
    assert c[11] == ',';
    assert c[..11] == "Apprentices";
    assert c[12..] == " 2023_Q4";
    ExampleTailStrip();
    ShortenLabelDetermined(c, 11, "2023_Q4");
  }

  /** The text after the example's comma strips to the period. */
  lemma ExampleTailStrip()
    ensures IsStripOf(" 2023_Q4", "2023_Q4")
  {
    var tail, short := " 2023_Q4", "2023_Q4";
    assert !IsSpace('2') && !IsSpace('4');
    assert SurroundedBySpace(tail, 1, short);
  }

  /** A header without a comma. */
  lemma ShortenLabelPlainExample()
    ensures ShortenLabel("2023_Q4") == "2023_Q4"
  {
    var c := "2023_Q4";
    assert c == ['2', '0', '2', '3', '_', 'Q', '4'];
    assert ',' !in c;
  }
}
