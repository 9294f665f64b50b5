/**
 The inline patterns. Each one comes as a predicate that reads the pattern off
 its source (`Span`, `Bracket`, `BareUrl`, `IssueNumber`) and a scanner whose
 contract says that it matches exactly when the predicate can hold, and then
 takes the match a greedy leftmost matcher takes (ECMA-262, section 22.2).
 */
module Patterns {
  import opened Text

  /** `mark`^width, one or more of [^mark\n], `mark`^width: code, strong, em and del. */
  ghost predicate Span(s: string, i: nat, j: nat, mark: char, width: nat) {
    && i + width < j && j + width <= |s|
    && AllIn(s, i, i + width, Only(mark))
    && AllIn(s, i + width, j, Body(mark))
    && AllIn(s, j, j + width, Only(mark))
  }

  /** Where the closing marks of a span opened at `i` begin. */
  function SpanAt(s: string, i: nat, mark: char, width: nat): (r: Option<nat>)
    requires i <= |s| && 1 <= width <= 2
    ensures r.Some? ==> Span(s, i, r.value, mark, width)
    ensures forall j: nat :: Span(s, i, j, mark, width) ==> r == Some(j)
  {
    if i + width <= |s| && s[i] == mark && s[i + width - 1] == mark then
      var j := RunEnd(s, i + width, Body(mark));
      assert forall other: nat :: Span(s, i, other, mark, width) ==> other == j by {
        forall other: nat | Span(s, i, other, mark, width) ensures other == j {
          RunUnique(s, i + width, j, other, Body(mark));
        }
      }
      if i + width < j && j + width <= |s| && s[j] == mark && s[j + width - 1] == mark
      then Some(j) else None
    else
      None
  }

  /** A run that is followed by a character outside the class has one end. */
  lemma RunUnique(s: string, i: nat, j: nat, other: nat, cl: CharClass)
    requires i <= j <= |s| && i <= other < |s|
    requires AllIn(s, i, j, cl) && (j < |s| ==> !In(s[j], cl))
    requires AllIn(s, i, other, cl)
    requires !In(s[other], cl)
    ensures j == other
  {
  }

  /** `[` label `](` target `)`: the label ends at `j`, the target at `k`. */
  ghost predicate Bracket(s: string, i: nat, j: nat, k: nat) {
    && i + 1 <= j && j + 2 < k < |s|
    && s[i] == '[' && AllIn(s, i + 1, j, Label) && s[j] == ']'
    && s[j + 1] == '(' && AllIn(s, j + 2, k, Target) && s[k] == ')'
  }

  function BracketAt(s: string, i: nat): (r: Option<(nat, nat)>)
    ensures r.Some? ==> Bracket(s, i, r.value.0, r.value.1)
    ensures forall j: nat, k: nat :: Bracket(s, i, j, k) ==> r == Some((j, k))
  {
    if i < |s| && s[i] == '[' then
      var j := RunEnd(s, i + 1, Label);
      assert forall other: nat, end: nat :: Bracket(s, i, other, end) ==> other == j by {
        forall other: nat, end: nat | Bracket(s, i, other, end) ensures other == j {
          RunUnique(s, i + 1, j, other, Label);
        }
      }
      if j + 1 < |s| && s[j] == ']' && s[j + 1] == '(' then
        var k := RunEnd(s, j + 2, Target);
        assert forall end: nat :: Bracket(s, i, j, end) ==> end == k by {
          forall end: nat | Bracket(s, i, j, end) ensures end == k {
            RunUnique(s, j + 2, k, end, Target);
          }
        }
        if j + 2 < k < |s| && s[k] == ')' then Some((j, k)) else None
      else None
    else None
  }

  /** `(^|[\s(])`: what a pasted URL or an issue number stands behind, unless it begins the text. */
  predicate Opens(c: char) { IsSpace(c) || c == '(' }

  /** The characters a pasted URL may contain but not end with. */
  predicate IsTrailing(c: char) {
    c == '.' || c == ',' || c == ';' || c == ':' || c == '!' || c == '?' || c == ')'
  }

  /** Where the text after `http://` or `https://` begins. */
  function SchemeEnd(s: string, i: nat): (r: Option<nat>)
    ensures r.Some? ==> i + 7 <= r.value <= |s| && (Has(s, i, "http://") || Has(s, i, "https://"))
  {
    if Has(s, i, "http://") then Some(i + 7)
    else if Has(s, i, "https://") then Some(i + 8)
    else None
  }

  ghost predicate BareUrl(s: string, i: nat, e: nat) {
    var q := SchemeEnd(s, i);
    q.Some? && q.value + 2 <= e <= |s| && AllIn(s, q.value, e, BareTarget) && !IsTrailing(s[e - 1])
  }

  /** The last index in [low, high] that does not follow a trailing character. */
  function TrimTrailing(s: string, low: nat, high: nat): (e: nat)
    requires low <= high <= |s|
    ensures low <= e <= high
    ensures low < e ==> !IsTrailing(s[e - 1])
    ensures forall k :: e <= k < high ==> IsTrailing(s[k])
  {
    if low < high && IsTrailing(s[high - 1]) then TrimTrailing(s, low, high - 1) else high
  }

  /** The longest pasted URL that starts at `i`. */
  function BareUrlAt(s: string, i: nat): (r: Option<nat>)
    ensures r.Some? ==> BareUrl(s, i, r.value)
    ensures r.Some? && r.value < |s| ==> !In(s[r.value], BareTarget) || IsTrailing(s[r.value])
    ensures forall e: nat :: BareUrl(s, i, e) ==> r.Some? && e <= r.value
  {
    var q := SchemeEnd(s, i);
    if q.None? then None
    else
      var high := RunEnd(s, q.value, BareTarget);
      var e := TrimTrailing(s, q.value, high);
      if q.value + 2 <= e then Some(e) else None
  }

  /** `#`, one to nine digits, and a word boundary. */
  ghost predicate IssueNumber(s: string, i: nat, e: nat) {
    && i + 2 <= e <= i + 10 && e <= |s|
    && s[i] == '#' && AllIn(s, i + 1, e, Digit) && (e < |s| ==> !IsWord(s[e]))
  }

  function IssueNumberAt(s: string, i: nat): (r: Option<nat>)
    ensures r.Some? ==> IssueNumber(s, i, r.value)
    ensures forall e: nat :: IssueNumber(s, i, e) ==> r == Some(e)
  {
    if i < |s| && s[i] == '#' then
      var e := RunEnd(s, i + 1, Digit);
      if i + 2 <= e <= i + 10 && (e < |s| ==> !IsWord(s[e])) then Some(e) else None
    else None
  }
}
