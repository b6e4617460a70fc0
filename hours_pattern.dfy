/**
 * The opening-hours pattern of the status job, `\d{4}\s*HS\s*A\s*\d{4}\s*HS`
 * searched case-insensitively (for example "0900 HS A 2100 HS"), written
 * as an explicit scanner.
 *
 * `\s*` is greedy and can never give a character back usefully, because it is
 * always followed by a letter or a digit, which is not whitespace; so at any
 * start position there is at most one match, and `MatchAt` finds it by
 * skipping all whitespace at each gap. `Search` is `re.search`: the leftmost
 * start position that matches. `MatchSpan` is the same pattern stated
 * declaratively, by the positions where its pieces begin.
 */
module HoursPattern {
  import opened Wrappers
  import opened Text

  /** `\d`, for ASCII digits. */
  predicate IsDigit(c: char)
  {
    '0' <= c <= '9'
  }

  /** `H` under case-insensitive matching. */
  predicate IsH(c: char)
  {
    c == 'H' || c == 'h'
  }

  /** `S` under case-insensitive matching, which also admits the long s (U+017F). */
  predicate IsS(c: char)
  {
    c == 'S' || c == 's' || c == 'ſ'
  }

  /** `A` under case-insensitive matching. */
  predicate IsA(c: char)
  {
    c == 'A' || c == 'a'
  }

  /** `\d{4}` at position `i`. */
  predicate DigitsAt(s: string, i: nat)
  {
    i + 4 <= |s| && forall k :: i <= k < i + 4 ==> IsDigit(s[k])
  }

  /** `HS` at position `i`. */
  predicate HsAt(s: string, i: nat)
  {
    i + 2 <= |s| && IsH(s[i]) && IsS(s[i + 1])
  }

  /** `A` at position `i`. */
  predicate AAt(s: string, i: nat)
  {
    i < |s| && IsA(s[i])
  }

  /** `s[lo..hi]` is all whitespace. */
  predicate SpacesBetween(s: string, lo: nat, hi: nat)
    requires lo <= hi <= |s|
  {
    forall k :: lo <= k < hi ==> IsSpace(s[k])
  }

  /** Greedy `\s*` from `i`: the first position at or after `i` that is not whitespace. */
  function SkipSpaces(s: string, i: nat): (j: nat)
    requires i <= |s|
    ensures i <= j <= |s|
    ensures SpacesBetween(s, i, j)
    ensures j == |s| || !IsSpace(s[j])
    decreases |s| - i
  {
    if i < |s| && IsSpace(s[i]) then SkipSpaces(s, i + 1) else i
  }

  /** The end of the match that starts at `i`, if one does. */
  function MatchAt(s: string, i: nat): (r: Option<nat>)
    requires i <= |s|
    ensures r.Some? ==> i + 12 <= r.value <= |s|
  {
    if !DigitsAt(s, i) then None
    else
      var a := SkipSpaces(s, i + 4);
      if !HsAt(s, a) then None
      else
        var b := SkipSpaces(s, a + 2);
        if !AAt(s, b) then None
        else
          var c := SkipSpaces(s, b + 1);
          if !DigitsAt(s, c) then None
          else
            var e := SkipSpaces(s, c + 4);
            if !HsAt(s, e) then None else Some(e + 2)
  }

  /**
   * The pieces of a match starting at `i`: four digits, spaces up to `a`,
   * `HS` at `a`, spaces up to `b`, `A` at `b`, spaces up to `c`, four digits
   * at `c`, spaces up to `e`, and `HS` at `e`.
   */
  ghost predicate Split(s: string, i: nat, a: nat, b: nat, c: nat, e: nat)
  {
    && i + 4 <= a && a + 2 <= b && b + 1 <= c && c + 4 <= e && e + 2 <= |s|
    && DigitsAt(s, i) && SpacesBetween(s, i + 4, a)
    && HsAt(s, a) && SpacesBetween(s, a + 2, b)
    && AAt(s, b) && SpacesBetween(s, b + 1, c)
    && DigitsAt(s, c) && SpacesBetween(s, c + 4, e)
    && HsAt(s, e)
  }

  /** `s[i..j]` is a match of the pattern. */
  ghost predicate MatchSpan(s: string, i: nat, j: nat)
  {
    exists a: nat, b: nat, c: nat, e: nat :: Split(s, i, a, b, c, e) && j == e + 2
  }

  /** A run of spaces followed by a non-space ends where greedy skipping stops. */
  lemma SkipSpacesStopsAt(s: string, i: nat, j: nat)
    requires i <= j < |s| && SpacesBetween(s, i, j) && !IsSpace(s[j])
    ensures SkipSpaces(s, i) == j
    decreases j - i
  {
    if i < j {
      SkipSpacesStopsAt(s, i + 1, j);
    }
  }

  /** What the scanner finds is a match. */
  lemma MatchAtSound(s: string, i: nat)
    requires i <= |s| && MatchAt(s, i).Some?
    ensures MatchSpan(s, i, MatchAt(s, i).value)
  {
    var a := SkipSpaces(s, i + 4);
    var b := SkipSpaces(s, a + 2);
    var c := SkipSpaces(s, b + 1);
    var e := SkipSpaces(s, c + 4);
    assert Split(s, i, a, b, c, e);
  }

  /** In a split match, greedy skipping stops exactly at each piece. */
  lemma SplitGaps(s: string, i: nat, a: nat, b: nat, c: nat, e: nat)
    requires Split(s, i, a, b, c, e)
    ensures SkipSpaces(s, i + 4) == a && SkipSpaces(s, a + 2) == b
    ensures SkipSpaces(s, b + 1) == c && SkipSpaces(s, c + 4) == e
  {
    assert !IsSpace(s[a]) && !IsSpace(s[b]) && !IsSpace(s[c]) && !IsSpace(s[e]) by {
      assert IsH(s[a]) && IsA(s[b]) && IsDigit(s[c]) && IsH(s[e]);
    }
    SkipSpacesStopsAt(s, i + 4, a);
    SkipSpacesStopsAt(s, a + 2, b);
    SkipSpacesStopsAt(s, b + 1, c);
    SkipSpacesStopsAt(s, c + 4, e);
  }

  /** Every match is the one the scanner finds: a start position has at most one match. */
  lemma MatchAtComplete(s: string, i: nat, j: nat)
    requires i <= |s| && MatchSpan(s, i, j)
    ensures MatchAt(s, i) == Some(j)
  {
    var a: nat, b: nat, c: nat, e: nat :| Split(s, i, a, b, c, e) && j == e + 2;
    SplitScans(s, i, a, b, c, e);
  }

  /** The scanner follows any split of the pattern piece by piece. */
  lemma SplitScans(s: string, i: nat, a: nat, b: nat, c: nat, e: nat)
    requires Split(s, i, a, b, c, e)
    ensures MatchAt(s, i) == Some(e + 2)
  {
    SplitGaps(s, i, a, b, c, e);
    assert DigitsAt(s, i) && HsAt(s, a) && AAt(s, b) && DigitsAt(s, c) && HsAt(s, e);
  }

  /** The scanner matches at `i` exactly when the pattern does. */
  lemma MatchAtIff(s: string, i: nat)
    requires i <= |s|
    ensures MatchAt(s, i).Some? <==> exists j :: MatchSpan(s, i, j)
  {
    if MatchAt(s, i).Some? {
      MatchAtSound(s, i);
    }
    if exists j :: MatchSpan(s, i, j) {
      var j :| MatchSpan(s, i, j);
      MatchAtComplete(s, i, j);
    }
  }

  /** A found match: where it starts and where it ends. */
  datatype Span = Span(start: nat, end: nat)

  /** Whether a match of the pattern starts at a position. */
  function StartsMatch(s: string): nat -> bool
  {
    (j: nat) => j <= |s| && MatchAt(s, j).Some?
  }

  /** The first position from `i` to `n` at which `found` holds, if any. */
  function Leftmost(found: nat -> bool, i: nat, n: nat): (r: Option<nat>)
    ensures r.Some? ==> i <= r.value <= n && found(r.value)
    decreases n + 1 - i
  {
    if i > n then None
    else if found(i) then Some(i)
    else Leftmost(found, i + 1, n)
  }

  /** A position where `found` holds is reached, or one before it. */
  lemma {:induction false} LeftmostReaches(found: nat -> bool, i: nat, k: nat, n: nat)
    requires i <= k <= n && found(k)
    ensures Leftmost(found, i, n).Some? && Leftmost(found, i, n).value <= k
    decreases k - i
  {
    if !found(i) {
      LeftmostReaches(found, i + 1, k, n);
    }
  }

  /** The leftmost match starting at or after `i`. */
  function SearchFrom(s: string, i: nat): (r: Option<Span>)
    requires i <= |s|
    ensures r.Some? ==> i <= r.value.start <= |s| && MatchAt(s, r.value.start) == Some(r.value.end)
  {
    var start := Leftmost(StartsMatch(s), i, |s|);
    if start.None? then None else Some(Span(start.value, MatchAt(s, start.value).value))
  }

  /** A match at `k` is found from any earlier position, at `k` or before it. */
  lemma SearchFromReaches(s: string, i: nat, k: nat)
    requires i <= k <= |s| && MatchAt(s, k).Some?
    ensures SearchFrom(s, i).Some? && SearchFrom(s, i).value.start <= k
  {
    assert StartsMatch(s)(k);
    LeftmostReaches(StartsMatch(s), i, k, |s|);
  }

  /** `re.search(pattern, s, re.IGNORECASE)`: the leftmost match, if any. */
  function Search(s: string): Option<Span>
  {
    SearchFrom(s, 0)
  }

  /**
   * The search finds a match exactly when the text holds one, and what it
   * finds is a match that starts before every other one.
   */
  lemma SearchIsLeftmost(s: string)
    ensures Search(s).Some? <==> exists i: nat, j: nat :: i <= |s| && MatchSpan(s, i, j)
    ensures Search(s).Some? ==> MatchSpan(s, Search(s).value.start, Search(s).value.end)
    ensures Search(s).Some? ==>
              forall i: nat, j: nat :: MatchSpan(s, i, j) ==> Search(s).value.start <= i
  {
    var r := Search(s);
    if r.Some? {
      MatchAtSound(s, r.value.start);
    }
    forall i: nat, j: nat | MatchSpan(s, i, j)
      ensures i <= |s| && r.Some? && r.value.start <= i
    {
      MatchAtComplete(s, i, j);
      SearchFromReaches(s, 0, i);
    }
  }

  /** Text that starts with four digits and ends with `HS` is left as it is by `strip`. */
  lemma SpanShape(s: string, i: nat, j: nat)
    requires i + 12 <= j <= |s| && DigitsAt(s, i) && HsAt(s, j - 2)
    ensures var w := s[i..j];
            && (forall k :: 0 <= k < 4 ==> IsDigit(w[k]))
            && IsH(w[|w| - 2]) && IsS(w[|w| - 1])
            && Strip(w) == w
  {
    var w := s[i..j];
    assert IsH(w[|w| - 2]) && IsS(w[|w| - 1]) by {
      assert w[|w| - 1] == s[j - 1] && w[|w| - 2] == s[j - 2];
    }
    assert forall k :: 0 <= k < 4 ==> IsDigit(w[k]) by {
      assert forall k :: 0 <= k < 4 ==> w[k] == s[i + k];
    }
    assert Strip(w) == w by {
      assert !IsSpace(w[0]) && !IsSpace(w[|w| - 1]);
      StripKeepsTrimmed(w);
    }
  }

  /**
   * A match starts with four digits and ends with "HS" in either case, so
   * stripping it changes nothing.
   */
  lemma MatchShape(s: string, i: nat, j: nat)
    requires i <= |s| && MatchAt(s, i) == Some(j)
    ensures i + 12 <= j <= |s|
    ensures var w := s[i..j];
            && (forall k :: 0 <= k < 4 ==> IsDigit(w[k]))
            && IsH(w[|w| - 2]) && IsS(w[|w| - 1])
            && Strip(w) == w
  {
    assert DigitsAt(s, i) && HsAt(s, j - 2) by {
      var a := SkipSpaces(s, i + 4);
      var b := SkipSpaces(s, a + 2);
      var c := SkipSpaces(s, b + 1);
      var e := SkipSpaces(s, c + 4);
      assert j == e + 2;
    }
    SpanShape(s, i, j);
  }

  /** "0900 HS A 2100 HS" matches as a whole. */
  lemma OpeningHoursExample()
    ensures Search("0900 HS A 2100 HS") == Some(Span(0, 17))
  {
    var s := "0900 HS A 2100 HS";
    assert Split(s, 0, 5, 8, 10, 15) by {
      assert DigitsAt(s, 0) && DigitsAt(s, 10);
      assert HsAt(s, 5) && AAt(s, 8) && HsAt(s, 15);
    }
    SplitScans(s, 0, 5, 8, 10, 15);
  }
}
