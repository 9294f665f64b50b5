/**
 What a global replacement means, told by its matches instead of by a scan
 (`String.prototype.replace` with a global pattern, ECMA-262, section 22.2).
 */
module PassMatches {
  import opened Text
  import opened Patterns
  import opened Links
  import opened Placeholders
  import opened Rewriting

  datatype Match = Match(at: nat, hit: Hit)

  /** No match of the rule begins in [from, to). */
  ghost predicate NoMatch(rule: Rule, s: string, from: nat, to: nat)
    requires Applies(rule, s) && from <= to <= |s|
  {
    forall k :: from <= k < to ==> HitAt(rule, s, k).None?
  }

  /**
   The matches from `i` on: each is the first that begins at or behind the end
   of the one before, and behind the last there is none.
   */
  ghost predicate AreMatches(rule: Rule, s: string, i: nat, matches: seq<Match>)
    requires Applies(rule, s) && i <= |s|
    decreases |matches|
  {
    if matches == [] then NoMatch(rule, s, i, |s|)
    else
      var m := matches[0];
      && i <= m.at < |s| && NoMatch(rule, s, i, m.at)
      && HitAt(rule, s, m.at) == Some(m.hit)
      && AreMatches(rule, s, m.hit.end, matches[1..])
  }

  /** The match lies in the text, at or behind `i`. */
  predicate Reaches(s: string, i: nat, hit: Hit) {
    i <= (if hit.Keep? then hit.end else hit.from) <= hit.end <= |s|
  }

  /** The text from `i` to the end of a match, with the match replaced. */
  function Piece(s: string, i: nat, hit: Hit): string
    requires Reaches(s, i, hit)
  {
    if hit.Keep? then s[i..hit.end] else s[i..hit.from] + hit.html
  }

  /** The text from `i` on in which each match is replaced, and everything else is kept. */
  function Replaced(s: string, i: nat, matches: seq<Match>): string
    requires i <= |s|
    decreases |matches|
  {
    if matches == [] || !Reaches(s, i, matches[0].hit) then s[i..]
    else Piece(s, i, matches[0].hit) + Replaced(s, matches[0].hit.end, matches[1..])
  }

  lemma {:induction false} RewriteSkips(rule: Rule, s: string, i: nat, to: nat)
    requires Applies(rule, s) && i <= to <= |s| && NoMatch(rule, s, i, to)
    ensures Rewrite(rule, s, i) == s[i..to] + Rewrite(rule, s, to)
    decreases |s| - i
  {
    hide HitAt;
    if i == to {
      assert s[i..to] == "";
    } else {
      RewriteSkips(rule, s, i + 1, to);
      Regroup([s[i]], s[i + 1..to], Rewrite(rule, s, to));
      assert s[i..to] == [s[i]] + s[i + 1..to];
    }
  }

  lemma RewriteMatch(rule: Rule, s: string, i: nat, m: Match)
    requires Applies(rule, s) && i <= m.at < |s| && NoMatch(rule, s, i, m.at) && HitAt(rule, s, m.at) == Some(m.hit)
    ensures Reaches(s, i, m.hit)
    ensures Rewrite(rule, s, i) == Piece(s, i, m.hit) + Rewrite(rule, s, m.hit.end)
  {
    hide HitAt;
    RewriteSkips(rule, s, i, m.at);
    var rest := Rewrite(rule, s, m.hit.end);
    match m.hit {
      case Keep(end) =>
        Regroup(s[i..m.at], s[m.at..end], rest);
        assert s[i..end] == s[i..m.at] + s[m.at..end];
      case Replace(from, end, html) =>
        Regroup(s[i..m.at], s[m.at..from] + html, rest);
        Regroup(s[i..m.at], s[m.at..from], html);
        assert s[i..from] == s[i..m.at] + s[m.at..from];
    }
  }

  /** A pass replaces the leftmost matches that do not overlap, and nothing else. */
  lemma {:induction false} RewriteIsReplacement(rule: Rule, s: string, i: nat, matches: seq<Match>)
    requires Applies(rule, s) && i <= |s| && AreMatches(rule, s, i, matches)
    ensures Rewrite(rule, s, i) == Replaced(s, i, matches)
    decreases |matches|
  {
    hide HitAt, Rewrite;
    if matches == [] {
      RewriteSkips(rule, s, i, |s|);
      RewriteEnd(rule, s);
      assert s[i..|s|] + "" == s[i..];
    } else {
      RewriteMatch(rule, s, i, matches[0]);
      RewriteIsReplacement(rule, s, matches[0].hit.end, matches[1..]);
    }
  }

  lemma RewriteEnd(rule: Rule, s: string)
    requires Applies(rule, s)
    ensures Rewrite(rule, s, |s|) == ""
  {
  }

  lemma FirstMatch(rule: Rule, s: string, i: nat) returns (k: nat)
    requires Applies(rule, s) && i <= |s|
    ensures i <= k <= |s| && NoMatch(rule, s, i, k)
    ensures k < |s| ==> HitAt(rule, s, k).Some?
    decreases |s| - i
  {
    hide HitAt;
    if i == |s| || HitAt(rule, s, i).Some? {
      k := i;
    } else {
      k := FirstMatch(rule, s, i + 1);
    }
  }

  /** Every text has such a list of matches. */
  lemma {:induction false} MatchesExist(rule: Rule, s: string, i: nat) returns (matches: seq<Match>)
    requires Applies(rule, s) && i <= |s|
    ensures AreMatches(rule, s, i, matches)
    decreases |s| - i
  {
    hide HitAt;
    var k := FirstMatch(rule, s, i);
    if k == |s| {
      matches := [];
    } else {
      var hit := HitAt(rule, s, k).value;
      var rest := MatchesExist(rule, s, hit.end);
      matches := [Match(k, hit)] + rest;
      assert matches[1..] == rest;
    }
  }

  // ----- what is refused stays as it was typed

  lemma {:induction false} NothingReplaced(rule: Rule, s: string, i: nat)
    requires Applies(rule, s) && i <= |s|
    requires forall k :: 0 <= k < |s| && HitAt(rule, s, k).Some? ==> HitAt(rule, s, k).value.Keep?
    ensures Rewrite(rule, s, i) == s[i..]
    decreases |s| - i
  {
    hide HitAt, Rewrite;
    if i == |s| {
      RewriteEnd(rule, s);
    } else {
      var end := SkipTo(rule, s, i);
      SkipKeeps(rule, s, i, i);
      NothingReplaced(rule, s, end);
      assert s[i..end] + s[end..] == s[i..];
      assert s[i..i] == "" && "" + Rewrite(rule, s, i) == Rewrite(rule, s, i);
    }
  }

  /** A text in which no bracket has an allowed target comes out of the link pass as it went in. */
  lemma RefusedLinksKept(s: string)
    requires forall i: nat, j: nat, k: nat :: Bracket(s, i, j, k) ==> SafeHref(s[j + 2..k]).None?
    ensures Rewrite(Link, s, 0) == s
  {
    hide SafeHref, Anchor;
    forall i | 0 <= i < |s| && HitAt(Link, s, i).Some? ensures HitAt(Link, s, i).value.Keep? {
      var (j, k) := BracketAt(s, i).value;
      assert Bracket(s, i, j, k);
    }
    NothingReplaced(Link, s, 0);
  }

  /** The same for images, which are matched behind their exclamation mark. */
  lemma RefusedImagesKept(s: string, spans: seq<string>)
    requires Disciplined(s, |spans|)
    requires forall i: nat, j: nat, k: nat :: Bracket(s, i, j, k) ==> SafeHref(s[j + 2..k]).None?
    ensures Rewrite(Image(spans), s, 0) == s
  {
    hide SafeHref, Anchor, Disciplined, ImageText;
    forall i | 0 <= i < |s| && HitAt(Image(spans), s, i).Some? ensures HitAt(Image(spans), s, i).value.Keep? {
      var (j, k) := BracketAt(s, i + 1).value;
      assert Bracket(s, i + 1, j, k);
    }
    NothingReplaced(Image(spans), s, 0);
  }
}
