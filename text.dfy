/** The Python `str` operations the nodes rely on, over Unicode scalar values:
    `in`, `replace`, `split()`, `" ".join(...)`, `strip()`, `lower()` and
    `int(...)` / `str(...)` on natural numbers. */
module Text {
  import opened Values

  /** `c.isspace()`: the characters that `str.split()` and `str.strip()`
      treat as whitespace. */
  predicate IsSpace(c: char) {
    || c == ' '
    || ('\t' <= c <= '\r')
    || ('\U{1C}' <= c <= '\U{1F}')
    || c == '\U{85}' || c == '\U{A0}' || c == '\U{1680}'
    || ('\U{2000}' <= c <= '\U{200A}')
    || c == '\U{2028}' || c == '\U{2029}' || c == '\U{202F}' || c == '\U{205F}'
    || c == '\U{3000}'
  }

  predicate AllSpace(s: string) {
    forall i :: 0 <= i < |s| ==> IsSpace(s[i])
  }

  predicate IsPrefix(p: string, s: string) {
    |p| <= |s| && s[..|p|] == p
  }

  /** `p` occurs in `s` starting at index `i`. */
  predicate OccursAt(s: string, p: string, i: nat) {
    i + |p| <= |s| && s[i..i + |p|] == p
  }

  /** `p in s` on strings. */
  predicate Contains(s: string, p: string)
    decreases |s|
  {
    IsPrefix(p, s) || (s != [] && Contains(s[1..], p))
  }

  lemma {:induction false} ContainsAt(s: string, p: string, i: nat)
    requires i + |p| <= |s| && s[i..i + |p|] == p
    ensures Contains(s, p)
  {
    if i > 0 {
      assert s[1..][i - 1..i - 1 + |p|] == s[i..i + |p|];
      ContainsAt(s[1..], p, i - 1);
    }
  }

  /** `p in s` holds exactly when `p` occurs at some index of `s`. */
  lemma {:induction false} ContainsIff(s: string, p: string)
    ensures Contains(s, p) <==> exists i: nat :: OccursAt(s, p, i)
    decreases |s|
  {
    if exists i: nat :: OccursAt(s, p, i) {
      var i: nat :| OccursAt(s, p, i);
      ContainsAt(s, p, i);
    }
    if Contains(s, p) {
      if IsPrefix(p, s) {
        assert OccursAt(s, p, 0);
      } else {
        ContainsIff(s[1..], p);
        var i: nat :| OccursAt(s[1..], p, i);
        assert s[i + 1..i + 1 + |p|] == s[1..][i..i + |p|];
        assert OccursAt(s, p, i + 1);
      }
    }
  }

  /** Containment is transitive. */
  lemma ContainsTrans(s: string, p: string, q: string)
    requires Contains(s, p) && Contains(p, q)
    ensures Contains(s, q)
  {
    ContainsIff(s, p);
    ContainsIff(p, q);
    var i: nat :| OccursAt(s, p, i);
    var j: nat :| OccursAt(p, q, j);
    forall m | 0 <= m < |q|
      ensures s[i + j + m] == q[m]
    {
      assert s[i..i + |p|][j + m] == s[i + j + m];
      assert p[j..j + |q|][m] == p[j + m];
    }
    assert s[i + j..i + j + |q|] == q;
    ContainsAt(s, q, i + j);
  }

  /** A string that lacks one of the characters of `p` does not contain `p`. */
  lemma NotContainsWithout(s: string, p: string, k: nat)
    requires k < |p|
    requires forall i :: 0 <= i < |s| ==> s[i] != p[k]
    ensures !Contains(s, p)
  {
    ContainsIff(s, p);
  }

  /** A string in which the first character of `p` never occurs does not contain `p`. */
  lemma {:induction false} NotContainsWithoutHead(s: string, p: string)
    requires p != []
    requires forall i :: 0 <= i < |s| ==> s[i] != p[0]
    ensures !Contains(s, p)
  {
    if s != [] {
      assert !IsPrefix(p, s) by {
        if |p| <= |s| {
          assert s[..|p|][0] == s[0];
        }
      }
      NotContainsWithoutHead(s[1..], p);
    }
  }

  // ---------------------------------------------------------------------------
  // str.replace

  /** `s.replace(p, r)`: every occurrence of `p`, scanning left to right
      without overlaps, becomes `r`. */
  function ReplaceAll(s: string, p: string, r: string): string
    requires p != []
    decreases |s|
  {
    if |s| < |p| then s
    else if s[..|p|] == p then r + ReplaceAll(s[|p|..], p, r)
    else [s[0]] + ReplaceAll(s[1..], p, r)
  }

  /** Replacing a pattern that does not occur changes nothing. */
  lemma {:induction false} ReplaceAbsent(s: string, p: string, r: string)
    requires p != [] && !Contains(s, p)
    ensures ReplaceAll(s, p, r) == s
  {
    if |s| >= |p| {
      assert !IsPrefix(p, s);
      ReplaceAbsent(s[1..], p, r);
      assert [s[0]] + s[1..] == s;
    }
  }

  /** An occurrence in the tail is an occurrence one index further on. */
  lemma OccursInTail(s: string, p: string, j: nat)
    requires s != []
    ensures OccursAt(s[1..], p, j) <==> OccursAt(s, p, j + 1)
  {
    if j + 1 + |p| <= |s| {
      assert s[1..][j..j + |p|] == s[j + 1..j + 1 + |p|];
    }
  }

  /** One step of the scan when `p` occurs at the head. */
  lemma ReplaceAtHead(s: string, p: string, r: string)
    requires p != [] && OccursAt(s, p, 0)
    ensures ReplaceAll(s, p, r) == r + ReplaceAll(s[|p|..], p, r)
  {
    assert s[..|p|] == s[0..0 + |p|];
  }

  /** One step of the scan when `p` does not occur at the head. */
  lemma ReplacePastHead(s: string, p: string, r: string)
    requires p != [] && s != [] && !OccursAt(s, p, 0)
    ensures ReplaceAll(s, p, r) == [s[0]] + ReplaceAll(s[1..], p, r)
  {
    if |s| >= |p| {
      assert s[..|p|] == s[0..0 + |p|];
    } else {
      assert [s[0]] + s[1..] == s;
    }
  }

  /** No occurrence before `i` in `s` means none before `i - 1` in its tail. */
  lemma NoOccurrenceBeforeInTail(s: string, p: string, i: nat)
    requires s != [] && 0 < i
    requires forall j :: 0 <= j < i ==> !OccursAt(s, p, j)
    ensures forall j :: 0 <= j < i - 1 ==> !OccursAt(s[1..], p, j)
  {
    forall j | 0 <= j < i - 1
      ensures !OccursAt(s[1..], p, j)
    {
      OccursInTail(s, p, j);
    }
  }

  /** Re-bracketing a head in front of a three-part concatenation. */
  lemma ConsConcat(x: string, y: string, h: string, front: string, mid: string, rest: string)
    requires x == h + y && y == front + mid + rest
    ensures x == (h + front) + mid + rest
  {
  }

  /** Dropping the head and then `i - 1 + k` more is dropping `i + k`. */
  lemma TailSlices(s: string, i: nat, k: nat)
    requires 0 < i && i + k <= |s|
    ensures s[1..][i - 1 + k..] == s[i + k..]
    ensures [s[0]] + s[1..][..i - 1] == s[..i]
  {
  }

  /** The leftmost occurrence is replaced and the scan resumes after it. */
  lemma {:induction false} ReplaceLeftmost(s: string, p: string, r: string, i: nat)
    requires p != [] && OccursAt(s, p, i)
    requires forall j :: 0 <= j < i ==> !OccursAt(s, p, j)
    ensures ReplaceAll(s, p, r) == s[..i] + r + ReplaceAll(s[i + |p|..], p, r)
    decreases i, 1
  {
    if i == 0 {
      ReplaceAtHead(s, p, r);
    } else {
      ReplaceLeftmostInTail(s, p, r, i);
      ReplacePastHead(s, p, r);
      TailSlices(s, i, |p|);
      ConsConcat(ReplaceAll(s, p, r), ReplaceAll(s[1..], p, r), [s[0]], s[1..][..i - 1], r, ReplaceAll(s[i + |p|..], p, r));
    }
  }

  /** The induction hypothesis of `ReplaceLeftmost`, applied to the tail. */
  lemma {:induction false} ReplaceLeftmostInTail(s: string, p: string, r: string, i: nat)
    requires p != [] && 0 < i && OccursAt(s, p, i)
    requires forall j :: 0 <= j < i ==> !OccursAt(s, p, j)
    ensures i + |p| <= |s|
    ensures ReplaceAll(s[1..], p, r) == s[1..][..i - 1] + r + ReplaceAll(s[1..][i - 1 + |p|..], p, r)
    decreases i, 0
  {
    NoOccurrenceBeforeInTail(s, p, i);
    OccursInTail(s, p, i - 1);
    ReplaceLeftmost(s[1..], p, r, i - 1);
  }

  /** Deleting occurrences never lengthens a string. */
  lemma {:induction false} ReplaceByEmptyShrinks(s: string, p: string)
    requires p != []
    ensures |ReplaceAll(s, p, "")| <= |s|
  {
    if |s| >= |p| {
      if s[..|p|] == p {
        ReplaceByEmptyShrinks(s[|p|..], p);
      } else {
        ReplaceByEmptyShrinks(s[1..], p);
      }
    }
  }

  /** With a non-empty replacement a non-empty string stays non-empty. */
  lemma {:induction false} ReplaceKeepsNonEmpty(s: string, p: string, r: string)
    requires p != []
    ensures r != [] && s != [] ==> ReplaceAll(s, p, r) != []
  {
  }

  /** Deleting a trailing `p` from `s + p`, where `s` never holds the first
      character of `p`, gives back `s`. */
  lemma {:induction false} ReplaceTrailing(s: string, p: string)
    requires p != []
    requires forall i :: 0 <= i < |s| ==> s[i] != p[0]
    ensures ReplaceAll(s + p, p, "") == s
  {
    if s == [] {
      assert (s + p)[..|p|] == p;
      assert (s + p)[|p|..] == [];
    } else {
      assert (s + p)[0] == s[0] != p[0];
      assert (s + p)[1..] == s[1..] + p;
      ReplaceTrailing(s[1..], p);
      assert [s[0]] + s[1..] == s;
    }
  }

  // ---------------------------------------------------------------------------
  // str.split() and " ".join(...)

  /** Length of the leading run of non-whitespace characters. */
  function WordEnd(s: string): (n: nat)
    ensures n <= |s|
    ensures s != [] && !IsSpace(s[0]) ==> n >= 1
    ensures forall i :: 0 <= i < n ==> !IsSpace(s[i])
    ensures n < |s| ==> IsSpace(s[n])
    decreases |s|
  {
    if s == [] || IsSpace(s[0]) then 0 else 1 + WordEnd(s[1..])
  }

  /** `s.split()`: the maximal runs of non-whitespace characters, in order. */
  function Words(s: string): seq<string>
    decreases |s|
  {
    if s == [] then []
    else if IsSpace(s[0]) then Words(s[1..])
    else
      var n := WordEnd(s);
      [s[..n]] + Words(s[n..])
  }

  /** `sep.join(ws)`. */
  function Join(ws: seq<string>, sep: string): string
    decreases |ws|
  {
    if ws == [] then ""
    else if |ws| == 1 then ws[0]
    else ws[0] + sep + Join(ws[1..], sep)
  }

  /** What `str.split()` can produce: non-empty and free of whitespace. */
  predicate IsWord(w: string) {
    w != [] && forall i :: 0 <= i < |w| ==> !IsSpace(w[i])
  }

  predicate AllWords(ws: seq<string>) {
    forall k :: 0 <= k < |ws| ==> IsWord(ws[k])
  }

  /** `" ".join(s.split())`: trims `s` and collapses every whitespace run to one space. */
  function CollapseSpaces(s: string): string {
    Join(Words(s), " ")
  }

  /** A trimmed string whose words are separated by exactly one space. */
  predicate SingleSpaced(s: string) {
    CollapseSpaces(s) == s
  }

  lemma {:induction false} WordsAreWords(s: string)
    ensures AllWords(Words(s))
    decreases |s|
  {
    if s != [] {
      if IsSpace(s[0]) {
        WordsAreWords(s[1..]);
      } else {
        var n := WordEnd(s);
        WordsAreWords(s[n..]);
      }
    }
  }

  lemma {:induction false} WordEndOfWord(w: string, t: string)
    requires IsWord(w)
    requires t == [] || IsSpace(t[0])
    ensures WordEnd(w + t) == |w|
    decreases |w|
  {
    assert (w + t)[0] == w[0];
    if |w| > 1 {
      assert (w + t)[1..] == w[1..] + t;
      WordEndOfWord(w[1..], t);
    } else {
      assert (w + t)[1..] == t;
    }
  }

  /** Splitting a single-space join of words gives the words back. */
  lemma {:induction false} WordsOfJoin(ws: seq<string>)
    requires AllWords(ws)
    ensures Words(Join(ws, " ")) == ws
    decreases |ws|
  {
    if |ws| == 1 {
      var w := ws[0];
      WordEndOfWord(w, []);
      assert w + [] == w;
      assert w[..|w|] == w && w[|w|..] == [];
    } else if |ws| > 1 {
      var w, rest := ws[0], Join(ws[1..], " ");
      var j := w + " " + rest;
      assert j == w + (" " + rest);
      WordEndOfWord(w, " " + rest);
      assert j[..|w|] == w;
      assert j[|w|..] == " " + rest;
      assert (" " + rest)[1..] == rest;
      WordsOfJoin(ws[1..]);
      assert [w] + ws[1..] == ws;
    }
  }

  /** A single-space join of words starts and ends with a non-whitespace character. */
  lemma {:induction false} JoinEnds(ws: seq<string>)
    requires AllWords(ws) && ws != []
    ensures var j := Join(ws, " "); j != [] && !IsSpace(j[0]) && !IsSpace(j[|j| - 1])
    decreases |ws|
  {
    if |ws| > 1 {
      JoinEnds(ws[1..]);
      var rest := Join(ws[1..], " ");
      assert Join(ws, " ") == ws[0] + " " + rest;
    }
  }

  lemma {:induction false} WordsEmptyIff(s: string)
    ensures Words(s) == [] <==> AllSpace(s)
    decreases |s|
  {
    if s != [] && IsSpace(s[0]) {
      WordsEmptyIff(s[1..]);
      assert forall i :: 1 <= i < |s| ==> s[i] == s[1..][i - 1];
    }
  }

  /** Collapsing never lengthens a string. */
  lemma {:induction false} CollapseShrinks(s: string)
    ensures |CollapseSpaces(s)| <= |s|
    decreases |s|
  {
    if s != [] {
      if IsSpace(s[0]) {
        CollapseShrinks(s[1..]);
      } else {
        var n := WordEnd(s);
        var w := s[..n];
        assert Words(s) == [w] + Words(s[n..]);
        if n < |s| {
          assert s[n..][1..] == s[n + 1..];
          assert Words(s[n..]) == Words(s[n + 1..]);
          CollapseShrinks(s[n + 1..]);
          if Words(s[n + 1..]) != [] {
            assert ([w] + Words(s[n + 1..]))[1..] == Words(s[n + 1..]);
          }
        }
      }
    }
  }

  /** The collapsed form is a fixed point of collapsing. */
  lemma CollapseIdempotent(s: string)
    ensures SingleSpaced(CollapseSpaces(s))
  {
    WordsAreWords(s);
    WordsOfJoin(Words(s));
  }

  /** The collapsed form is empty exactly when `s` is all whitespace. */
  lemma CollapseEmptyIff(s: string)
    ensures CollapseSpaces(s) == "" <==> AllSpace(s)
  {
    WordsEmptyIff(s);
    WordsAreWords(s);
    if Words(s) != [] {
      JoinEnds(Words(s));
    }
  }

  /** A single word is already collapsed. */
  lemma CollapseWord(w: string)
    requires IsWord(w)
    ensures CollapseSpaces(w) == w
  {
    WordsOfJoin([w]);
  }

  // ---------------------------------------------------------------------------
  // str.strip()

  function TrimLeft(s: string): string
    decreases |s|
  {
    if s != [] && IsSpace(s[0]) then TrimLeft(s[1..]) else s
  }

  function TrimRight(s: string): string
    decreases |s|
  {
    if s != [] && IsSpace(s[|s| - 1]) then TrimRight(s[..|s| - 1]) else s
  }

  /** `s.strip()`. */
  function Strip(s: string): string {
    TrimRight(TrimLeft(s))
  }

  lemma {:induction false} TrimLeftEmptyIff(s: string)
    ensures TrimLeft(s) == [] <==> AllSpace(s)
    ensures TrimLeft(s) != [] ==> !IsSpace(TrimLeft(s)[0])
    decreases |s|
  {
    if s != [] && IsSpace(s[0]) {
      TrimLeftEmptyIff(s[1..]);
      assert forall i :: 1 <= i < |s| ==> s[i] == s[1..][i - 1];
    }
  }

  lemma {:induction false} TrimRightKeepsHead(s: string)
    requires s != [] && !IsSpace(s[0])
    ensures TrimRight(s) != []
    decreases |s|
  {
    if IsSpace(s[|s| - 1]) {
      TrimRightKeepsHead(s[..|s| - 1]);
    }
  }

  /** `s.strip()` is empty exactly when `s` is all whitespace. */
  lemma StripEmptyIff(s: string)
    ensures Strip(s) == "" <==> AllSpace(s)
  {
    TrimLeftEmptyIff(s);
    if TrimLeft(s) != [] {
      TrimRightKeepsHead(TrimLeft(s));
    }
  }

  /** A collapsed string has nothing left to strip. */
  lemma StripCollapsed(s: string)
    ensures Strip(CollapseSpaces(s)) == CollapseSpaces(s)
  {
    WordsAreWords(s);
    if Words(s) != [] {
      JoinEnds(Words(s));
    }
  }

  // ---------------------------------------------------------------------------
  // str.lower()

  /** `lower()` on ASCII letters; every other character is kept. */
  function LowerChar(c: char): char {
    if 'A' <= c <= 'Z' then (c as int + 32) as char else c
  }

  function Lower(s: string): (t: string)
    ensures |t| == |s|
  {
    seq(|s|, i requires 0 <= i < |s| => LowerChar(s[i]))
  }

  predicate HasNoAsciiLetter(p: string) {
    forall i :: 0 <= i < |p| ==> !('A' <= p[i] <= 'Z') && !('a' <= p[i] <= 'z')
  }

  lemma LowerMatch(x: string, p: string)
    requires |x| == |p| && HasNoAsciiLetter(p)
    ensures Lower(x) == p <==> x == p
  {
    if x == p {
      assert forall i :: 0 <= i < |x| ==> Lower(x)[i] == p[i];
    }
    if Lower(x) == p {
      forall i | 0 <= i < |x|
        ensures x[i] == p[i]
      {
        assert LowerChar(x[i]) == p[i];
      }
    }
  }

  /** Lower-casing the haystack does not change whether a pattern without
      ASCII letters occurs in it. */
  lemma {:induction false} ContainsLower(s: string, p: string)
    requires HasNoAsciiLetter(p)
    ensures Contains(Lower(s), p) <==> Contains(s, p)
    decreases |s|
  {
    if |p| <= |s| {
      assert Lower(s)[..|p|] == Lower(s[..|p|]);
      LowerMatch(s[..|p|], p);
    }
    if s != [] {
      assert Lower(s)[1..] == Lower(s[1..]);
      ContainsLower(s[1..], p);
    }
  }

  // ---------------------------------------------------------------------------
  // int(...) and str(...) on natural numbers

  predicate IsDigit(c: char) {
    '0' <= c <= '9'
  }

  predicate AllDigits(s: string) {
    forall i :: 0 <= i < |s| ==> IsDigit(s[i])
  }

  function DigitValue(c: char): nat
    requires IsDigit(c)
  {
    c as int - '0' as int
  }

  function DigitChar(d: nat): char
    requires d < 10
  {
    ('0' as int + d) as char
  }

  function DigitsValue(s: string): nat
    requires AllDigits(s)
    decreases |s|
  {
    if s == [] then 0 else DigitsValue(s[..|s| - 1]) * 10 + DigitValue(s[|s| - 1])
  }

  /** `int(s)` on a string of ASCII digits; `None` where Python raises ValueError. */
  function ParseNat(s: string): Option<nat> {
    if s != [] && AllDigits(s) then Some(DigitsValue(s)) else None
  }

  /** `str(n)`: decimal digits without leading zeros. */
  function NatToString(n: nat): string
    decreases n
  {
    if n < 10 then [DigitChar(n)] else NatToString(n / 10) + [DigitChar(n % 10)]
  }

  lemma {:induction false} NatToStringDigits(n: nat)
    ensures NatToString(n) != [] && AllDigits(NatToString(n))
    ensures DigitsValue(NatToString(n)) == n
    decreases n
  {
    if n >= 10 {
      NatToStringDigits(n / 10);
      var s := NatToString(n / 10);
      var t := s + [DigitChar(n % 10)];
      assert t[..|t| - 1] == s;
    }
  }

  /** `int(str(n)) == n`. */
  lemma ParseNatToString(n: nat)
    ensures ParseNat(NatToString(n)) == Some(n)
  {
    NatToStringDigits(n);
  }
}
