/** A pass told by what it replaces: the text up to the first replacement is kept, and so on behind it. */
module Replacing {
  import opened Text
  import opened Rewriting

  /** The matches that are replaced, in their order. */
  function Replacements(rule: Rule, s: string, i: nat): seq<Hit>
    requires i <= |s| && Applies(rule, s)
    decreases |s| - i
  {
    if i == |s| then []
    else
      match HitAt(rule, s, i)
      case None => Replacements(rule, s, i + 1)
      case Some(Keep(end)) => Replacements(rule, s, end)
      case Some(Replace(from, end, html)) => [Replace(from, end, html)] + Replacements(rule, s, end)
  }

  /** A match the rule replaces, found at `at`. */
  ghost predicate IsReplaced(rule: Rule, s: string, at: nat, hit: Hit)
    requires Applies(rule, s)
  {
    at < |s| && HitAt(rule, s, at) == Some(hit) && hit.Replace?
  }

  ghost predicate Replaces(rule: Rule, s: string, i: nat, hit: Hit)
    requires Applies(rule, s)
  {
    && hit.Replace? && i <= hit.from < hit.end <= |s|
    && exists at: nat :: IsReplaced(rule, s, at, hit)
  }

  lemma Skipped(rule: Rule, s: string, i: nat)
    requires i < |s| && Applies(rule, s)
    requires HitAt(rule, s, i).Some? ==> HitAt(rule, s, i).value.Keep?
    ensures var end := SkipTo(rule, s, i);
            Replacements(rule, s, i) == Replacements(rule, s, end) && Rewrite(rule, s, i) == s[i..end] + Rewrite(rule, s, end)
  {
    hide HitAt;
    SkipKeeps(rule, s, i, i);
    assert s[i..i] + Rewrite(rule, s, i) == Rewrite(rule, s, i);
  }

  lemma {:induction false} NoReplacement(rule: Rule, s: string, i: nat)
    requires i <= |s| && Applies(rule, s) && Replacements(rule, s, i) == []
    ensures Rewrite(rule, s, i) == s[i..]
    decreases |s| - i
  {
    hide HitAt;
    if i < |s| {
      var end := SkipTo(rule, s, i);
      Skipped(rule, s, i);
      NoReplacement(rule, s, end);
      assert s[i..end] + s[end..] == s[i..];
    }
  }

  /** Up to its first replacement a text is kept. */
  lemma {:induction false} FirstReplacement(rule: Rule, s: string, i: nat)
    requires i <= |s| && Applies(rule, s) && Replacements(rule, s, i) != []
    ensures var hits := Replacements(rule, s, i);
            && Replaces(rule, s, i, hits[0]) && hits[1..] == Replacements(rule, s, hits[0].end)
            && Rewrite(rule, s, i) == s[i..hits[0].from] + (hits[0].html + Rewrite(rule, s, hits[0].end))
    decreases |s| - i
  {
    hide HitAt, Rewrite, Replacements;
    ReplacementsEnd(rule, s);
    if HitAt(rule, s, i).Some? && HitAt(rule, s, i).value.Replace? {
      ReplacedHere(rule, s, i);
    } else {
      var end := SkipTo(rule, s, i);
      Skipped(rule, s, i);
      FirstReplacement(rule, s, end);
      var hit := Replacements(rule, s, end)[0];
      Regroup(s[i..end], s[end..hit.from], hit.html + Rewrite(rule, s, hit.end));
      assert s[i..end] + s[end..hit.from] == s[i..hit.from];
    }
  }

  lemma ReplacementsEnd(rule: Rule, s: string)
    requires Applies(rule, s)
    ensures Replacements(rule, s, |s|) == []
  {
  }

  lemma ReplacedHere(rule: Rule, s: string, i: nat)
    requires i < |s| && Applies(rule, s) && HitAt(rule, s, i).Some? && HitAt(rule, s, i).value.Replace?
    ensures var hits, hit := Replacements(rule, s, i), HitAt(rule, s, i).value;
            && hits == [hit] + Replacements(rule, s, hit.end) && Replaces(rule, s, i, hit)
            && Rewrite(rule, s, i) == s[i..hit.from] + (hit.html + Rewrite(rule, s, hit.end))
  {
    hide HitAt;
    var hit := HitAt(rule, s, i).value;
    assert IsReplaced(rule, s, i, hit);
    Regroup(s[i..hit.from], hit.html, Rewrite(rule, s, hit.end));
  }
}
