/**
 In a line without images a mail address that a link was written for is cut
 exactly when its name holds a parenthesis with a URL or an issue number
 directly behind it.
 */
module MailExact {
  import opened Text
  import opened Patterns
  import opened Links
  import opened Placeholders
  import opened Rewriting
  import opened TagSafety
  import opened PassSafety
  import opened Inline
  import opened Replacing
  import opened MailScan
  import opened MailMarkup
  import opened MailPasses
  import opened MailTargets
  import opened Literals
  import opened MailTexts
  import TagPasses

  // ----- matches that begin in a name

  predicate FindsBehind(rule: Rule) { rule.PastedUrl? || rule.Issue? }

  /** What the rule finds at `b`, behind an opening character. */
  function FromHit(rule: Rule, s: string, b: nat): Option<Hit>
    requires FindsBehind(rule) && b <= |s|
  {
    if rule.PastedUrl? then UrlHitFrom(s, b) else IssueHitFrom(s, b, rule.href)
  }

  ghost predicate CutAt(rule: Rule, s: string, b: nat)
    requires FindsBehind(rule)
  {
    && 16 < b <= |s| && Opens(s[b - 1]) && InName(false, s, b)
    && FromHit(rule, s, b).Some? && FromHit(rule, s, b).value.Replace?
  }

  /** Such a match is found in front of `b`, if the scan comes there. */
  lemma HitBehind(rule: Rule, s: string, b: nat)
    requires FindsBehind(rule) && CutAt(rule, s, b)
    ensures HitAt(rule, s, b - 1) == FromHit(rule, s, b) && FromHit(rule, s, b).value.from == b
  {
    hide Anchor, SafeHref, InName;
  }

  /** Every match the rule replaces begins so. */
  lemma HitFrom(rule: Rule, s: string, at: nat, hit: Hit)
    requires FindsBehind(rule) && IsReplaced(rule, s, at, hit)
    ensures hit.from <= |s| && at <= hit.from <= at + 1 && FromHit(rule, s, hit.from) == Some(hit)
    ensures hit.from > 0 ==> Opens(s[hit.from - 1])
  {
    hide Anchor, SafeHref;
  }

  /** A pasted URL holds no quote. */
  lemma UrlInner(s: string, at: nat, hit: Hit, k: nat)
    requires at < |s| && HitAt(PastedUrl, s, at) == Some(hit) && hit.Replace? && hit.from <= k < hit.end
    ensures k < |s| && s[k] != '"'
  {
    hide Anchor;
    var b := UrlStart(s, at).value;
    var e := BareUrlAt(s, b).value;
    TagPasses.UrlValue(s, b, e);
    assert s[k] == s[b..e][k - b];
  }

  /** An issue number holds no parenthesis behind its first character. */
  lemma NumberInner(s: string, href: nat -> string, at: nat, hit: Hit, k: nat)
    requires at < |s| && HitAt(Issue(href), s, at) == Some(hit) && at < k < hit.end
    ensures k < |s| && s[k] != '('
  {
    hide Anchor, SafeHref;
    var b := IssueStart(s, at).value;
    var e := IssueNumberAt(s, b).value;
    assert k > b ==> In(s[k], Digit);
  }

  /** What stands in front of a place in a name is a parenthesis, if a match can begin behind it. */
  lemma ParenInName(s: string, b: nat)
    requires 0 < b <= |s| && InName(false, s, b) && Opens(s[b - 1])
    ensures s[b - 1] == '('
    ensures exists i: nat :: MailAt(s, i) && NameUpTo(false, s, i, b) && i + 16 < b
  {
    hide MailAt;
    var i: nat :| MailAt(s, i) && NameUpTo(false, s, i, b);
    MailBegun(s, i);
    assert Fits(i + 15 - i, s[i + 15]);
    assert b > i + 16 ==> IsNameChar(false, s[b - 1]);
  }

  /** From its quote to its colon a mail address holds no opening character. */
  lemma MailShut(s: string, i: nat)
    requires MailAt(s, i)
    ensures i + 16 <= |s| && s[i + 8] == '"' && forall k :: i + 8 <= k < i + 16 ==> !Opens(s[k])
  {
    hide MailAt;
    MailBegun(s, i);
    assert Fits(i + 8 - i, s[i + 8]);
    forall k | i + 8 <= k < i + 16 ensures !Opens(s[k]) {
      assert Fits(k - i, s[k]);
    }
  }

  /** What reaches into a name without a quote, behind an opening character, begins in it. */
  lemma BeginsInName(s: string, from: nat, b: nat)
    requires from < b <= |s| && InName(false, s, b) && (from > 0 ==> Opens(s[from - 1]))
    requires forall k :: from <= k < b ==> s[k] != '"'
    ensures InName(false, s, from)
  {
    hide MailAt;
    var i: nat :| MailAt(s, i) && NameUpTo(false, s, i, b);
    MailShut(s, i);
    assert NameUpTo(false, s, i, from);
  }

  ghost predicate BeginsIn(s: string, hit: Hit) { hit.Replace? && InName(false, s, hit.from) }

  lemma {:induction false} Covered(rule: Rule, s: string, i: nat, b: nat) returns (k: nat)
    requires FindsBehind(rule) && CutAt(rule, s, b) && i < b
    ensures k < |Replacements(rule, s, i)| && BeginsIn(s, Replacements(rule, s, i)[k])
    decreases |s| - i
  {
    hide HitAt, Replacements, Rewrite, InName, FromHit;
    ParenInName(s, b);
    HitBehind(rule, s, b);
    var found := HitAt(rule, s, i);
    if found.Some? && found.value.Replace? {
      ReplacedHere(rule, s, i);
      var hit := found.value;
      assert IsReplaced(rule, s, i, hit);
      HitFrom(rule, s, i, hit);
      if hit.end < b {
        var m := Covered(rule, s, hit.end, b);
        k := m + 1;
      } else {
        k := 0;
        CoveredHere(rule, s, i, hit, b);
      }
    } else {
      Skipped(rule, s, i);
      if found.Some? && found.value.end >= b && i < b - 1 {
        KeptBefore(rule, s, i, found.value, b);
      }
      k := Covered(rule, s, SkipTo(rule, s, i), b);
    }
  }

  lemma KeptBefore(rule: Rule, s: string, i: nat, hit: Hit, b: nat)
    requires FindsBehind(rule) && i < b - 1 < |s| && s[b - 1] == '(' && HitAt(rule, s, i) == Some(hit) && hit.Keep?
    ensures hit.end < b
  {
    hide HitAt;
    if hit.end >= b {
      match rule {
        case PastedUrl => NoKeptUrl(s, i);
        case Issue(href) => NumberInner(s, href, i, hit, b - 1);
      }
    }
  }

  lemma NoKeptUrl(s: string, i: nat)
    requires i < |s|
    ensures HitAt(PastedUrl, s, i).Some? ==> HitAt(PastedUrl, s, i).value.Replace?
  {
    hide Anchor;
  }

  lemma CoveredHere(rule: Rule, s: string, i: nat, hit: Hit, b: nat)
    requires FindsBehind(rule) && CutAt(rule, s, b) && i < b && HitAt(rule, s, i) == Some(hit) && hit.Replace? && hit.end >= b
    requires i <= hit.from <= i + 1 && hit.from <= |s| && (hit.from > 0 ==> Opens(s[hit.from - 1]))
    requires HitAt(rule, s, b - 1) == FromHit(rule, s, b) && FromHit(rule, s, b).value.from == b && s[b - 1] == '('
    ensures InName(false, s, hit.from)
  {
    hide HitAt, InName, FromHit;
    if i < b - 1 {
      match rule {
        case PastedUrl =>
          forall k | hit.from <= k < b ensures s[k] != '"' {
            if k < hit.end {
              UrlInner(s, i, hit, k);
            }
          }
          BeginsInName(s, hit.from, b);
        case Issue(href) => NumberInner(s, href, i, hit, b - 1);
      }
    }
  }

  /** A pass cuts a name exactly where something is found behind a parenthesis in it. */
  lemma CutsExactly(rule: Rule, s: string)
    requires FindsBehind(rule) && AllNamed(false, s)
    ensures NamesUncut(rule, s) <==> forall b: nat :: !CutAt(rule, s, b)
  {
    hide HitAt, Replacements, InName, AllNamed, FromHit;
    var hits := Replacements(rule, s, 0);
    if b: nat :| CutAt(rule, s, b) {
      var k := Covered(rule, s, 0, b);
      assert NamesUncut(rule, s) ==> CutsNoName(rule, s, hits, k);
    }
    if forall b: nat :: !CutAt(rule, s, b) {
      HitsFound(rule, s, 0);
      forall k: nat | k < |hits| ensures CutsNoName(rule, s, hits, k) {
        assert Replaces(rule, s, 0, hits[k]);
        var at: nat :| IsReplaced(rule, s, at, hits[k]);
        HitFrom(rule, s, at, hits[k]);
        if InName(false, s, hits[k].from) {
          ParenBound(s, hits[k].from);
        }
        assert !CutAt(rule, s, hits[k].from);
      }
    }
  }

  lemma ParenBound(s: string, b: nat)
    requires b <= |s| && InName(false, s, b) && (b > 0 ==> Opens(s[b - 1]))
    ensures b > 16
  {
    hide MailAt;
    var i: nat :| MailAt(s, i) && NameUpTo(false, s, i, b);
    ParenInName(s, b);
  }

  // ----- links that were written, by their targets

  /** The target of a link that is replaced. */
  function Target(t: string, hit: Hit): string {
    var j := if hit.Replace? && hit.from <= |t| then LabelEnd(t, hit.from) else 0;
    if j + 2 < hit.end <= |t| then t[j + 2..hit.end - 1] else ""
  }

  /** A link with this target begins at `i`. */
  ghost predicate LinkAt(s: string, i: nat, url: string) { Has(s, i, ANCHOR_TAG + (url + "\"")) }

  lemma LinkShape(t: string, at: nat, hit: Hit) returns (caption: string)
    requires IsReplaced(Link, t, at, hit)
    ensures hit.from == at && hit.end <= |t| && IsTarget(false, Target(t, hit)) && hit.html == Anchor(Target(t, hit), caption)
    ensures Lacks(t, '<') ==> Lacks(Target(t, hit), '<') && Lacks(caption, '<')
  {
    hide Anchor, SafeHref, IsTarget;
    LinkHitShape(t, at, hit);
    var url := Target(t, hit);
    TargetOf(url);
    caption := t[at + 1..LabelEnd(t, at)];
    if caption == "" {
      caption := url;
    }
  }

  lemma MailBound(s: string, i: nat)
    requires MailAt(s, i)
    ensures i < |s|
  {
  }

  lemma MailNotIn(a: string, b: string, i: nat)
    requires i < |a| && Lacks(a[i..], '<')
    ensures !MailAt(a + b, i)
  {
    assert (a + b)[i] == a[i..][0];
    if MailAt(a + b, i) {
      MailStart(a + b, i);
    }
  }

  lemma MailShift(a: string, b: string, i: nat)
    ensures MailAt(a + b, |a| + i) <==> MailAt(b, i)
  {
    HasShifts(a, b, i, ANCHOR_TAG);
    if MailAt(b, i) {
      HasFoldShifts(a, b, i + 9, MAIL);
    }
    if MailAt(a + b, |a| + i) {
      HasFoldUnshifts(a, b, i + 9, MAIL);
    }
  }

  lemma LinkShift(a: string, b: string, i: nat, url: string)
    ensures LinkAt(a + b, |a| + i, url) <==> LinkAt(b, i, url)
  {
    HasShifts(a, b, i, ANCHOR_TAG + (url + "\""));
  }

  lemma AnchorParts(url: string, caption: string)
    ensures Anchor(url, caption) == ANCHOR_TAG + (url + "\"") + (AnchorTail(url)[1..] + caption + "</a>")
    ensures Anchor(url, caption) == ANCHOR_TAG + url + AnchorTail(url) + caption + "</a>"
  {
    hide IsExternal;
    var tail := AnchorTail(url);
    assert tail == "\"" + tail[1..];
  }

  /** In the markup of a link only its own beginning begins a link. */
  lemma InsideAnchor(url: string, caption: string, rest: string, i: nat)
    requires Lacks(url, '<') && Lacks(caption, '<')
    ensures var html := Anchor(url, caption);
            && 0 < |html| && LinkAt(html + rest, 0, url)
            && (0 < i < |html| ==> !MailAt(html + rest, i))
  {
    hide Anchor, MailAt, IsExternal;
    var html, back := Anchor(url, caption), AnchorTail(url)[1..] + caption + "</a>";
    AnchorParts(url, caption);
    Regroup(ANCHOR_TAG + (url + "\""), back, rest);
    PartAtStart(ANCHOR_TAG + (url + "\""), back + rest);
    if 0 < i < |html| && MailAt(html + rest, i) {
      MailStart(html + rest, i);
      if i != |html| - 4 {
        OnlyTwoTags(url, caption, i);
      }
    }
  }

  lemma PartAtStart(a: string, b: string)
    ensures Has(a + b, 0, a)
  {
    assert (a + b)[0..|a|] == a;
  }

  lemma OnlyTwoTags(url: string, caption: string, i: nat)
    requires Lacks(url, '<') && Lacks(caption, '<')
    requires var html := Anchor(url, caption); 0 < i < |html| && i != |html| - 4
    ensures Anchor(url, caption)[i] != '<'
  {
    AnchorTailUntagged(url);
    var html := Anchor(url, caption);
    var front := ANCHOR_TAG + url + AnchorTail(url) + caption;
    assert html == front + "</a>";
    if i < |front| {
      assert html[i] == front[i];
    }
  }

  /** In the compiled text the links to mail addresses are those that were written. */
  lemma {:induction false} WrittenLinks(t: string, pos: nat, i: nat)
    requires Lacks(t, '<') && pos <= |t| && MailAt(Rewrite(Link, t, pos), i)
    ensures exists hit <- Replacements(Link, t, pos) :: LinkAt(Rewrite(Link, t, pos), i, Target(t, hit))
    decreases |t| - pos
  {
    hide Rewrite, Replacements, HitAt, IsReplaced, MailAt, LinkAt, Anchor, Target;
    var hits, text := Replacements(Link, t, pos), Rewrite(Link, t, pos);
    if hits == [] {
      NoReplacement(Link, t, pos);
      SliceLacks(t, pos, |t|, '<');
      assert text + "" == text && t[pos..|t|] == text;
      MailBound(text, i);
      MailNotIn(text, "", i);
    } else {
      FirstReplacement(Link, t, pos);
      var hit := hits[0];
      var at: nat :| IsReplaced(Link, t, at, hit);
      var caption := LinkShape(t, at, hit);
      var gap, rest, url := t[pos..hit.from], Rewrite(Link, t, hit.end), Target(t, hit);
      if i < |gap| {
        MailNotIn(gap, hit.html + rest, i);
      } else {
        MailShift(gap, hit.html + rest, i - |gap|);
        InsideAnchor(url, caption, rest, i - |gap|);
        if i == |gap| {
          LinkShift(gap, hit.html + rest, 0, url);
          assert hit in hits;
        } else {
          var m := i - |gap| - |hit.html|;
          MailShift(hit.html, rest, m);
          WrittenLinks(t, hit.end, m);
          var later :| later in Replacements(Link, t, hit.end) && LinkAt(rest, m, Target(t, later));
          LinkShift(hit.html, rest, m, Target(t, later));
          LinkShift(gap, hit.html + rest, i - |gap|, Target(t, later));
          assert later in hits[1..] && later in hits;
        }
      }
    }
  }

  lemma {:induction false} LinksStand(t: string, pos: nat, hit: Hit) returns (i: nat)
    requires Lacks(t, '<') && pos <= |t| && hit in Replacements(Link, t, pos)
    ensures LinkAt(Rewrite(Link, t, pos), i, Target(t, hit)) && IsTarget(false, Target(t, hit))
    decreases |t| - pos
  {
    hide Rewrite, Replacements, HitAt, IsReplaced, MailAt, LinkAt, Anchor, Target, IsTarget;
    var hits := Replacements(Link, t, pos);
    FirstReplacement(Link, t, pos);
    var first := hits[0];
    var at: nat :| IsReplaced(Link, t, at, first);
    var caption := LinkShape(t, at, first);
    var gap, rest, url := t[pos..first.from], Rewrite(Link, t, first.end), Target(t, first);
    if hit == first {
      InsideAnchor(url, caption, rest, 0);
      LinkShift(gap, first.html + rest, 0, url);
      i := |gap|;
    } else {
      assert hits == [first] + hits[1..];
      var m := LinksStand(t, first.end, hit);
      LinkShift(first.html, rest, m, Target(t, hit));
      LinkShift(gap, first.html + rest, |first.html| + m, Target(t, hit));
      i := |gap| + (|first.html| + m);
    }
  }

  // ----- a URL in the name

  /** In the name of the address a URL begins directly behind a parenthesis. */
  ghost predicate UrlInName(url: string) {
    HasFold(url, 0, MAIL)
    && exists p: nat :: 7 <= p < RunEnd(url, 7, MailName) && url[p] == '(' && BareUrlAt(url, p + 1).Some?
  }

  /** The target stands at `o`, with its closing quote. */
  ghost predicate QuotedAt(s: string, o: nat, url: string) {
    o + |url| < |s| && s[o..o + |url|] == url && s[o + |url|] == '"'
  }

  lemma QuotedChar(s: string, o: nat, url: string, k: nat)
    requires QuotedAt(s, o, url) && k < |url|
    ensures o + k < |s| && s[o + k] == url[k]
  {
    assert s[o..o + |url|][k] == s[o + k];
  }

  lemma LinkChars(s: string, i: nat, url: string)
    requires LinkAt(s, i, url)
    ensures QuotedAt(s, i + 9, url) && Has(s, i, ANCHOR_TAG)
  {
    var w, n := ANCHOR_TAG + (url + "\""), |url|;
    assert |w| == 10 + n && w[0..9] == ANCHOR_TAG && w[9..9 + n] == url && w[9 + n] == '"';
    CharOf(s, i, w, i + 9 + n);
    SliceOfSlice(s, i, i + |w|, 0, 9);
    SliceOfSlice(s, i, i + |w|, 9, 9 + n);
  }

  lemma HasSame(s: string, o: nat, url: string, b: nat, lit: string)
    requires QuotedAt(s, o, url)
    requires b <= |url| && Lacks(lit, '"')
    ensures Has(s, o + b, lit) <==> Has(url, b, lit)
  {
    var n := |lit|;
    CharOf(s, o + b, lit, o + |url|);
    assert Has(s, o + b, lit) ==> b + n <= |url|;
    if b + n <= |url| {
      SliceOfSlice(s, o, o + |url|, b, b + n);
    }
  }

  /** A URL in the target is a URL in the text, and ends before the quote. */
  lemma UrlSame(s: string, o: nat, url: string, b: nat, e: nat)
    requires QuotedAt(s, o, url)
    requires b <= |url|
    ensures BareUrl(s, o + b, o + e) <==> BareUrl(url, b, e)
  {
    HasSame(s, o, url, b, "http://");
    HasSame(s, o, url, b, "https://");
    var q, r := SchemeEnd(s, o + b), SchemeEnd(url, b);
    assert q.Some? <==> r.Some?;
    if q.Some? {
      assert q.value == o + r.value;
      if BareUrl(s, o + b, o + e) {
        assert !In(s[o + |url|], BareTarget);
        assert e <= |url|;
        forall k | r.value <= k < e ensures In(url[k], BareTarget) {
          QuotedChar(s, o, url, k);
          assert In(s[o + k], BareTarget);
        }
        QuotedChar(s, o, url, e - 1);
      }
      if BareUrl(url, b, e) {
        forall k | o + r.value <= k < o + e ensures In(s[k], BareTarget) {
          QuotedChar(s, o, url, k - o);
        }
        QuotedChar(s, o, url, e - 1);
      }
    }
  }

  lemma UrlAtSame(s: string, o: nat, url: string, b: nat)
    requires QuotedAt(s, o, url)
    requires b <= |url|
    ensures BareUrlAt(s, o + b).Some? <==> BareUrlAt(url, b).Some?
  {
    hide BareUrl, QuotedAt;
    if BareUrlAt(url, b).Some? {
      UrlSame(s, o, url, b, BareUrlAt(url, b).value);
    }
    if BareUrlAt(s, o + b).Some? {
      var e := BareUrlAt(s, o + b).value;
      UrlBehind(s, o + b, e);
      UrlSame(s, o, url, b, e - o);
    }
  }

  lemma UrlBehind(s: string, b: nat, e: nat)
    requires BareUrl(s, b, e)
    ensures b < e
  {
  }

  /** A target that begins like a mail address has a name and an `@`. */
  lemma MailParts(url: string)
    requires IsTarget(false, url) && HasFold(url, 0, MAIL)
    ensures var at := RunEnd(url, 7, MailName);
            && 7 < at < |url| && url[at] == '@' && (forall k :: 7 <= k < at ==> IsNameChar(false, url[k]))
  {
    hide IsAllowed;
    AllowedMail(url);
    var at := RunEnd(url, 7, MailName);
    assert forall k :: 7 <= k < at ==> url[7..at][k - 7] == url[k];
  }

  lemma MailSame(s: string, i: nat, url: string)
    requires LinkAt(s, i, url) && IsTarget(false, url)
    ensures MailAt(s, i) <==> HasFold(url, 0, MAIL)
  {
    hide IsAllowed;
    LinkChars(s, i, url);
    if MailAt(s, i) {
      TargetStarts(url);
      assert LowerAscii(s[i + 9 + 0]) == MAIL[0];
      QuotedChar(s, i + 9, url, 0);
      AllowedIsMail(url);
    }
    if HasFold(url, 0, MAIL) {
      forall k | 0 <= k < 7 ensures LowerAscii(s[i + 9 + k]) == MAIL[k] {
        assert LowerAscii(url[0 + k]) == MAIL[k];
        QuotedChar(s, i + 9, url, k);
      }
    }
  }

  lemma TargetStarts(url: string)
    requires IsTarget(false, url)
    ensures url != ""
  {
  }

  lemma AllowedIsMail(url: string)
    requires IsTarget(false, url) && url != "" && LowerAscii(url[0]) == 'm'
    ensures HasFold(url, 0, MAIL)
  {
    hide IsAllowed;
    if !MailTarget(url) {
      AllowedFirst(url);
    }
  }

  /** The link pass leaves an address with such a URL exactly where the pasted-URL pass cuts it. */
  lemma UrlCutsExactly(t: string)
    requires Lacks(t, '<')
    ensures (exists b: nat :: CutAt(PastedUrl, Rewrite(Link, t, 0), b))
            <==> exists hit <- Replacements(Link, t, 0) :: UrlInName(Target(t, hit))
  {
    hide Rewrite, Replacements, IsTarget, LinkAt, Target, MailAt, BareUrlAt, InName;
    var s := Rewrite(Link, t, 0);
    if b: nat :| CutAt(PastedUrl, s, b) {
      var hit := CutIsWritten(t, b);
    }
    if hit :| hit in Replacements(Link, t, 0) && UrlInName(Target(t, hit)) {
      var i := LinksStand(t, 0, hit);
      UrlIsCut(s, i, Target(t, hit));
    }
  }

  /** The name of a written address stands in the text as in its target. */
  lemma NameStandsThere(s: string, i: nat, url: string, p: nat)
    requires LinkAt(s, i, url) && IsTarget(false, url) && HasFold(url, 0, MAIL) && 7 <= p <= RunEnd(url, 7, MailName)
    ensures MailAt(s, i) && NameUpTo(false, s, i, i + 9 + p)
  {
    hide LinkAt, IsTarget, MailAt, RunEnd, HasFold;
    LinkChars(s, i, url);
    MailSame(s, i, url);
    MailParts(url);
    forall k | i + 16 <= k < i + 9 + p ensures IsNameChar(false, s[k]) {
      QuotedChar(s, i + 9, url, k - i - 9);
    }
  }

  /** A name that reaches up to `b` ends in the target behind it. */
  lemma NameReaches(s: string, i: nat, url: string, b: nat)
    requires LinkAt(s, i, url) && IsTarget(false, url) && MailAt(s, i) && NameUpTo(false, s, i, b)
    ensures HasFold(url, 0, MAIL) && b <= i + 9 + RunEnd(url, 7, MailName) && RunEnd(url, 7, MailName) < |url|
  {
    hide LinkAt, IsTarget, MailAt, RunEnd, HasFold;
    LinkChars(s, i, url);
    MailSame(s, i, url);
    MailParts(url);
    var at := RunEnd(url, 7, MailName);
    QuotedChar(s, i + 9, url, at);
    assert s[i + 9 + at] == '@' && !IsNameChar(false, s[i + 9 + at]);
  }

  lemma UrlCutHere(s: string, i: nat, b: nat)
    requires 16 < b <= |s| && s[b - 1] == '(' && MailAt(s, i) && NameUpTo(false, s, i, b) && BareUrlAt(s, b).Some?
    ensures CutAt(PastedUrl, s, b)
  {
    hide MailAt, NameUpTo, Anchor;
    assert InName(false, s, b);
  }

  lemma UrlIsCut(s: string, i: nat, url: string)
    requires LinkAt(s, i, url) && IsTarget(false, url) && UrlInName(url)
    ensures exists b: nat :: CutAt(PastedUrl, s, b)
  {
    hide IsTarget, LinkAt, BareUrlAt, CutAt, RunEnd;
    var p: nat :| 7 <= p < RunEnd(url, 7, MailName) && url[p] == '(' && BareUrlAt(url, p + 1).Some?;
    UrlCutAt(s, i, url, p);
  }

  lemma UrlCutAt(s: string, i: nat, url: string, p: nat)
    requires LinkAt(s, i, url) && IsTarget(false, url) && HasFold(url, 0, MAIL)
    requires 7 <= p < RunEnd(url, 7, MailName) && url[p] == '(' && BareUrlAt(url, p + 1).Some?
    ensures CutAt(PastedUrl, s, i + 9 + (p + 1))
  {
    hide IsTarget, LinkAt, BareUrlAt, MailAt, CutAt, RunEnd, HasFold, NameUpTo, QuotedAt;
    LinkChars(s, i, url);
    NameStandsThere(s, i, url, p + 1);
    UrlAtSame(s, i + 9, url, p + 1);
    QuotedChar(s, i + 9, url, p);
    UrlCutHere(s, i, i + 9 + (p + 1));
  }

  lemma CutUrl(s: string, b: nat)
    requires CutAt(PastedUrl, s, b)
    ensures 0 < b <= |s| && InName(false, s, b) && Opens(s[b - 1]) && BareUrlAt(s, b).Some?
  {
    hide InName, Anchor;
  }

  lemma CutIsWritten(t: string, b: nat) returns (hit: Hit)
    requires Lacks(t, '<') && CutAt(PastedUrl, Rewrite(Link, t, 0), b)
    ensures hit in Replacements(Link, t, 0) && UrlInName(Target(t, hit))
  {
    hide Rewrite, Replacements, IsTarget, LinkAt, Target, MailAt, BareUrlAt, CutAt, RunEnd, HasFold, InName, Opens;
    var s := Rewrite(Link, t, 0);
    CutUrl(s, b);
    ParenInName(s, b);
    var i: nat :| MailAt(s, i) && NameUpTo(false, s, i, b) && i + 16 < b;
    WrittenLinks(t, 0, i);
    hit :| hit in Replacements(Link, t, 0) && LinkAt(s, i, Target(t, hit));
    var j := LinksStand(t, 0, hit);
    UrlInThere(s, i, Target(t, hit), b);
  }

  lemma UrlInThere(s: string, i: nat, url: string, b: nat)
    requires LinkAt(s, i, url) && IsTarget(false, url) && MailAt(s, i) && NameUpTo(false, s, i, b) && i + 16 < b
    requires s[b - 1] == '(' && BareUrlAt(s, b).Some?
    ensures UrlInName(url)
  {
    hide IsTarget, LinkAt, MailAt, BareUrlAt, RunEnd, HasFold, QuotedAt;
    LinkChars(s, i, url);
    NameReaches(s, i, url, b);
    var p: nat := b - 1 - (i + 9);
    QuotedChar(s, i + 9, url, p);
    UrlAtSame(s, i + 9, url, p + 1);
  }

  // ----- addresses up to their `@`

  /** A mail address from its scheme to its `@`. */
  ghost predicate IsHead(w: string) {
    && HasFold(w, 0, MAIL) && |w| >= 9 && w[|w| - 1] == '@'
    && forall k :: 7 <= k < |w| - 1 ==> IsNameChar(false, w[k])
  }

  ghost predicate HeadAt(s: string, i: nat, w: string) { IsHead(w) && Has(s, i, ANCHOR_TAG + w) }

  ghost predicate HasHead(s: string, w: string) { exists i: nat :: HeadAt(s, i, w) }

  lemma HeadChar(s: string, i: nat, w: string, k: nat)
    requires HeadAt(s, i, w) && k < 9 + |w|
    ensures i + k < |s| && s[i + k] == (ANCHOR_TAG + w)[k]
  {
    CharOf(s, i, ANCHOR_TAG + w, i + k);
  }

  lemma SliceChar(s: string, o: nat, w: string, k: nat)
    requires o + |w| <= |s| && s[o..o + |w|] == w && k < |w|
    ensures s[o + k] == w[k]
  {
    assert s[o..o + |w|][k] == s[o + k];
  }

  lemma HeadText(s: string, i: nat, w: string)
    requires HeadAt(s, i, w)
    ensures i + 9 + |w| <= |s| && s[i + 9..i + 9 + |w|] == w && MailAt(s, i)
  {
    var n := 9 + |w|;
    var part := s[i..i + n];
    assert part == ANCHOR_TAG + w;
    assert part[9..n] == w && part[0..9] == ANCHOR_TAG;
    SliceOfSlice(s, i, i + n, 9, n);
    SliceOfSlice(s, i, i + n, 0, 9);
    forall k | 0 <= k < 7 ensures LowerAscii(s[i + 9 + k]) == MAIL[k] {
      SliceChar(s, i + 9, w, k);
      assert LowerAscii(w[0 + k]) == MAIL[k];
    }
  }

  lemma HeadName(s: string, i: nat, w: string, p: nat)
    requires HeadAt(s, i, w) && 7 <= p < |w|
    ensures NameUpTo(false, s, i, i + 9 + p)
  {
    HeadText(s, i, w);
    forall k | i + 16 <= k < i + 9 + p ensures IsNameChar(false, s[k]) {
      SliceChar(s, i + 9, w, k - i - 9);
      assert IsNameChar(false, w[k - i - 9]);
    }
  }

  lemma HeadFound(s: string, i: nat) returns (w: string)
    requires MailAt(s, i) && NamedBefore(false, s, i, |s|)
    ensures HeadAt(s, i, w)
  {
    var e: nat :| i + 16 < e < |s| && s[e] == '@' && NameUpTo(false, s, i, e);
    w := s[i + 9..e + 1];
    forall k | 0 <= k < |w| ensures w[k] == s[i + 9 + k] {
    }
    assert HasFold(w, 0, MAIL) by {
      forall k | 0 <= k < 7 ensures LowerAscii(w[0 + k]) == MAIL[k] {
        assert LowerAscii(s[i + 9 + k]) == MAIL[k];
      }
    }
    forall k | 7 <= k < |w| - 1 ensures IsNameChar(false, w[k]) {
      assert IsNameChar(false, s[i + 9 + k]);
    }
    assert s[i..i + (9 + |w|)] == s[i..i + 9] + w;
  }

  // ----- an issue number in the name

  ghost predicate IsReplace(hit: Option<Hit>) { hit.Some? && hit.value.Replace? }

  /** In the name an issue number whose link is let through stands directly behind a parenthesis. */
  ghost predicate NumberInName(w: string, href: nat -> string) {
    exists p: nat :: 7 <= p && p + 1 < |w| && w[p] == '(' && IsReplace(IssueHitFrom(w, p + 1, href))
  }

  lemma NumberSame(s: string, o: nat, w: string, b: nat, e: nat)
    requires o + |w| <= |s| && s[o..o + |w|] == w && |w| > 0 && w[|w| - 1] == '@' && b < |w|
    ensures IssueNumber(s, o + b, o + e) <==> IssueNumber(w, b, e)
  {
    var n := |w| - 1;
    SliceChar(s, o, w, n);
    SliceChar(s, o, w, b);
    if IssueNumber(s, o + b, o + e) {
      assert !In(s[o + n], Digit) && s[o + n] != '#';
      forall k | b + 1 <= k < e ensures k < |w| && In(w[k], Digit) {
        assert In(s[o + k], Digit);
        SliceChar(s, o, w, k);
      }
      if e < |w| {
        SliceChar(s, o, w, e);
      }
    }
    if IssueNumber(w, b, e) {
      forall k | o + b + 1 <= k < o + e ensures In(s[k], Digit) {
        SliceChar(s, o, w, k - o);
        assert In(w[k - o], Digit);
      }
      assert !In(w[n], Digit) && e <= n;
      SliceChar(s, o, w, e);
    }
  }

  lemma NumberBack(s: string, o: nat, w: string, b: nat)
    requires o + |w| <= |s| && s[o..o + |w|] == w && |w| > 0 && w[|w| - 1] == '@' && b < |w|
    requires IssueNumberAt(s, o + b).Some?
    ensures IssueNumberAt(w, b).Some?
  {
    hide IssueNumber;
    var e := IssueNumberAt(s, o + b).value;
    NumberEnds(s, o + b, e);
    NumberSame(s, o, w, b, e - o);
  }

  lemma NumberAtSame(s: string, o: nat, w: string, b: nat, href: nat -> string)
    requires o + |w| <= |s| && s[o..o + |w|] == w && |w| > 0 && w[|w| - 1] == '@' && b < |w|
    ensures IsReplace(IssueHitFrom(s, o + b, href)) <==> IsReplace(IssueHitFrom(w, b, href))
  {
    hide IssueNumber, SafeHref, Anchor;
    if IssueNumberAt(s, o + b).Some? {
      NumberBack(s, o, w, b);
    }
    if IssueNumberAt(w, b).Some? {
      var e := IssueNumberAt(w, b).value;
      NumberSame(s, o, w, b, e);
      NumberEnds(w, b, e);
      SliceOfSlice(s, o, o + |w|, b + 1, e);
      assert IssueNumberAt(s, o + b) == Some(o + e);
      assert s[o + b + 1..o + e] == w[b + 1..e];
    }
  }

  lemma NumberEnds(s: string, b: nat, e: nat)
    requires IssueNumber(s, b, e)
    ensures b + 1 < e <= |s|
  {
  }

  lemma CutNumber(s: string, b: nat, href: nat -> string)
    requires CutAt(Issue(href), s, b)
    ensures 16 < b <= |s| && InName(false, s, b) && Opens(s[b - 1]) && IsReplace(IssueHitFrom(s, b, href))
  {
    hide InName;
  }

  lemma NumberCutHere(s: string, i: nat, b: nat, href: nat -> string)
    requires 16 < b <= |s| && s[b - 1] == '(' && MailAt(s, i) && NameUpTo(false, s, i, b) && IsReplace(IssueHitFrom(s, b, href))
    ensures CutAt(Issue(href), s, b)
  {
    hide MailAt, NameUpTo;
    assert InName(false, s, b);
  }

  /** An address with such a number, wherever it stands, is one the issue pass cuts. */
  lemma NumberIsCut(s: string, i: nat, w: string, href: nat -> string)
    requires HeadAt(s, i, w) && NumberInName(w, href)
    ensures exists b: nat :: CutAt(Issue(href), s, b)
  {
    hide HeadAt, MailAt, CutAt, NameUpTo, IssueHitFrom;
    var p: nat :| 7 <= p && p + 1 < |w| && w[p] == '(' && IsReplace(IssueHitFrom(w, p + 1, href));
    HeadText(s, i, w);
    HeadName(s, i, w, p + 1);
    HeadEnds(s, i, w);
    NumberAtSame(s, i + 9, w, p + 1, href);
    SliceChar(s, i + 9, w, p);
    NumberCutHere(s, i, i + 9 + (p + 1), href);
  }

  lemma HeadEnds(s: string, i: nat, w: string)
    requires HeadAt(s, i, w)
    ensures |w| >= 9 && w[|w| - 1] == '@'
  {
  }

  lemma CutHasNumber(s: string, b: nat, href: nat -> string) returns (i: nat, w: string)
    requires AllNamed(false, s) && CutAt(Issue(href), s, b)
    ensures HeadAt(s, i, w) && NumberInName(w, href)
  {
    hide HeadAt, MailAt, CutAt, IssueHitFrom, InName, Opens;
    CutNumber(s, b, href);
    ParenInName(s, b);
    i :| MailAt(s, i) && NameUpTo(false, s, i, b) && i + 16 < b;
    w := HeadFound(s, i);
    HeadText(s, i, w);
    HeadEnds(s, i, w);
    var o, n := i + 9, |w| - 1;
    SliceChar(s, o, w, n);
    assert b <= o + n;
    var p: nat := b - 1 - o;
    SliceChar(s, o, w, p);
    NumberAtSame(s, o, w, p + 1, href);
  }

  lemma NumberCutsExactly(s: string, href: nat -> string)
    requires AllNamed(false, s)
    ensures (exists b: nat :: CutAt(Issue(href), s, b)) <==> exists w: string :: HasHead(s, w) && NumberInName(w, href)
  {
    hide HeadAt, CutAt, NumberInName, AllNamed;
    if b: nat :| CutAt(Issue(href), s, b) {
      var i, w := CutHasNumber(s, b, href);
      assert HasHead(s, w);
    }
    if w: string :| HasHead(s, w) && NumberInName(w, href) {
      var i: nat :| HeadAt(s, i, w);
      NumberIsCut(s, i, w, href);
    }
  }

  // ----- the addresses of the links

  /** A target up to the `@` of its name. */
  function Head(url: string): string {
    var at := if |url| >= 7 then RunEnd(url, 7, MailName) else |url|;
    if at < |url| then url[..at + 1] else url
  }

  lemma HeadOfLink(s: string, i: nat, url: string)
    requires LinkAt(s, i, url) && IsTarget(false, url) && HasFold(url, 0, MAIL)
    ensures HeadAt(s, i, Head(url))
  {
    hide LinkAt, IsTarget;
    LinkChars(s, i, url);
    MailParts(url);
    var at := RunEnd(url, 7, MailName);
    var w := Head(url);
    assert w == url[..at + 1];
    forall k | 0 <= k < 7 ensures LowerAscii(w[0 + k]) == MAIL[k] {
      assert LowerAscii(url[0 + k]) == MAIL[k];
    }
    SliceOfSlice(s, i + 9, i + 9 + |url|, 0, at + 1);
    assert s[i + 9..i + 9 + |w|] == w;
    assert s[i..i + (9 + |w|)] == s[i..i + 9] + s[i + 9..i + 9 + |w|];
  }

  lemma OneHead(s: string, i: nat, v: string, w: string)
    requires HeadAt(s, i, v) && HeadAt(s, i, w)
    ensures v == w
  {
    hide Has, HasFold;
    HeadText(s, i, v);
    HeadText(s, i, w);
    HeadOrder(s, i, v, w);
    HeadOrder(s, i, w, v);
  }

  lemma HeadOrder(s: string, i: nat, v: string, w: string)
    requires HeadAt(s, i, v) && HeadAt(s, i, w)
    ensures |v| >= |w|
  {
    HeadText(s, i, v);
    HeadText(s, i, w);
    HeadPlaces(s, i, w);
    SliceChar(s, i + 9, v, |v| - 1);
  }

  /** Where in an address which characters cannot stand. */
  lemma HeadPlaces(s: string, i: nat, w: string)
    requires HeadAt(s, i, w)
    ensures i + 9 + |w| <= |s|
    ensures forall k :: i < k < i + 16 ==> s[k] != '<'
    ensures forall k :: i + 16 <= k < i + 8 + |w| ==> s[k] != ' ' && s[k] != '@'
    ensures s[i + 8 + |w|] == '@'
  {
    HeadText(s, i, w);
    MailBegun(s, i);
    forall k | i < k < i + 16 ensures s[k] != '<' {
      assert Fits(k - i, s[k]);
    }
    forall k | i + 16 <= k < i + 8 + |w| ensures IsNameChar(false, s[k]) {
      SliceChar(s, i + 9, w, k - (i + 9));
      assert IsNameChar(false, w[k - (i + 9)]);
    }
    SliceChar(s, i + 9, w, |w| - 1);
  }

  /** The addresses in the compiled text are those of the links that were written. */
  lemma HeadsOfLinks(t: string, w: string)
    requires Lacks(t, '<')
    ensures HasHead(Rewrite(Link, t, 0), w)
            <==> exists hit <- Replacements(Link, t, 0) :: HasFold(Target(t, hit), 0, MAIL) && Head(Target(t, hit)) == w
  {
    hide Rewrite, Replacements, IsTarget, LinkAt, Target, HeadAt, Head, MailAt, HasFold;
    var s := Rewrite(Link, t, 0);
    if i: nat :| HeadAt(s, i, w) {
      HeadText(s, i, w);
      WrittenLinks(t, 0, i);
      var hit :| hit in Replacements(Link, t, 0) && LinkAt(s, i, Target(t, hit));
      var j := LinksStand(t, 0, hit);
      MailSame(s, i, Target(t, hit));
      HeadOfLink(s, i, Target(t, hit));
      OneHead(s, i, w, Head(Target(t, hit)));
    }
    if hit :| hit in Replacements(Link, t, 0) && HasFold(Target(t, hit), 0, MAIL) && Head(Target(t, hit)) == w {
      var i := LinksStand(t, 0, hit);
      HeadOfLink(s, i, Target(t, hit));
    }
  }

  // ----- the pasted-URL pass keeps the addresses it does not cut

  /** No link begins inside the text of an address. */
  lemma NoAnchorInHead(s: string, i: nat, w: string, g: nat)
    requires HeadAt(s, i, w) && i < g && g + 2 < |s| && s[g] == '<' && s[g + 1] == 'a' && s[g + 2] == ' '
    ensures i + 9 + |w| <= g
  {
    hide HeadAt;
    HeadPlaces(s, i, w);
  }

  lemma HeadShift(a: string, b: string, i: nat, w: string)
    ensures HeadAt(a + b, |a| + i, w) <==> HeadAt(b, i, w)
  {
    HasShifts(a, b, i, ANCHOR_TAG + w);
  }

  lemma HeadFront(a: string, b: string, i: nat, w: string)
    requires i + 9 + |w| <= |a|
    ensures HeadAt(a + b, i, w) <==> HeadAt(a, i, w)
  {
    assert (a + b)[i..i + (9 + |w|)] == a[i..i + (9 + |w|)];
  }

  /** Where an address and a pasted URL can meet: the URL begins in the name, or behind its `@`, or the address behind the URL. */
  lemma HeadAndUrl(s: string, i: nat, w: string, at: nat, hit: Hit)
    requires HeadAt(s, i, w) && IsReplaced(PastedUrl, s, at, hit)
    ensures hit.from <= hit.end <= |s|
    ensures i + 9 + |w| <= hit.from || hit.end <= i || InName(false, s, hit.from)
  {
    hide HeadAt, HitAt, InName;
    HitFrom(PastedUrl, s, at, hit);
    UrlText(s, at, hit);
    HeadPlaces(s, i, w);
    HeadText(s, i, w);
    MailShut(s, i);
    MailStart(s, i);
    HrefText(s, i);
    if i + 16 <= hit.from < i + 8 + |w| {
      HeadName(s, i, w, hit.from - (i + 9));
      InNameHere(s, i, hit.from);
    }
  }

  lemma InNameHere(s: string, i: nat, b: nat)
    requires MailAt(s, i) && NameUpTo(false, s, i, b)
    ensures InName(false, s, b)
  {
  }

  lemma HrefText(s: string, i: nat)
    requires MailAt(s, i)
    ensures i + 16 <= |s| && s[i] == '<' && s[i + 1] == 'a' && s[i + 3] == 'h' && s[i + 4] == 'r'
    ensures forall k :: i <= k < i + 16 && k != i + 2 ==> !Opens(s[k])
  {
    hide MailAt;
    MailBegun(s, i);
    forall k | i <= k < i + 16 ensures Fits(k - i, s[k]) {
    }
    assert Fits(i + 1 - i, s[i + 1]) && Fits(i + 3 - i, s[i + 3]) && Fits(i + 4 - i, s[i + 4]);
  }

  /** A pasted URL begins with `ht` and holds no `<`. */
  lemma UrlText(s: string, at: nat, hit: Hit)
    requires IsReplaced(PastedUrl, s, at, hit)
    ensures hit.from + 2 <= hit.end <= |s| && s[hit.from] == 'h' && s[hit.from + 1] == 't'
    ensures forall k :: hit.from <= k < hit.end ==> s[k] != '<'
    ensures hit.html == Anchor(s[hit.from..hit.end], s[hit.from..hit.end])
  {
    hide Anchor;
    var b := UrlStart(s, at).value;
    var e := BareUrlAt(s, b).value;
    BareUrlShape(s, b, e);
    assert s[b..b + 2][0] == s[b] && s[b..b + 2][1] == s[b + 1];
    forall k | b <= k < e ensures s[k] != '<' {
      assert s[b..e][k - b] == s[k];
    }
  }

  lemma HeadInGap(s: string, pos: nat, from: nat, i: nat, w: string, x: string)
    requires pos <= from <= |s| && i + 9 + |w| <= from - pos
    ensures HeadAt(s[pos..from] + x, i, w) <==> HeadAt(s, pos + i, w)
  {
    hide HeadAt;
    var gap := s[pos..from];
    HeadFront(gap, x, i, w);
    HeadFront(gap, s[from..], i, w);
    HeadShift(s[..pos], gap + s[from..], i, w);
    assert s[..pos] + (gap + s[from..]) == s;
  }

  lemma NotAtUrl(u: string, rest: string, w: string, m: nat)
    requires u != "" && u[0] == 'h' && Lacks(u, '<') && m < |Anchor(u, u)|
    ensures !HeadAt(Anchor(u, u) + rest, m, w)
  {
    hide HeadAt, MailAt, Anchor;
    var text := Anchor(u, u) + rest;
    InsideAnchor(u, u, rest, m);
    UrlBehindQuote(u, rest);
    if HeadAt(text, m, w) {
      HeadText(text, m, w);
      NotMail(text, m);
    }
  }

  lemma UrlBehindQuote(u: string, rest: string)
    requires u != "" && u[0] == 'h'
    ensures var text := Anchor(u, u) + rest; |text| > 9 && text[9] == 'h'
  {
  }

  lemma NotMail(text: string, m: nat)
    requires MailAt(text, m)
    ensures m + 9 < |text| && text[m + 9] != 'h'
  {
    hide MailAt;
    MailBegun(text, m);
    assert Fits(m + 9 - m, text[m + 9]);
  }

  lemma AnchorOpens(u: string, rest: string)
    ensures var text := Anchor(u, u) + rest; |text| > 2 && text[0] == '<' && text[1] == 'a' && text[2] == ' '
  {
  }

  lemma {:induction false} HeadsForward(s: string, pos: nat, i: nat, w: string) returns (j: nat)
    requires pos <= |s| && HeadAt(Rewrite(PastedUrl, s, pos), i, w)
    ensures HeadAt(s, j, w)
    decreases |s| - pos
  {
    hide Rewrite, Replacements, HitAt, IsReplaced, HeadAt, Anchor;
    var hits := Replacements(PastedUrl, s, pos);
    if hits == [] {
      NoReplacement(PastedUrl, s, pos);
      HeadShift(s[..pos], s[pos..], i, w);
      assert s[..pos] + s[pos..] == s;
      j := pos + i;
    } else {
      FirstReplacement(PastedUrl, s, pos);
      var hit := hits[0];
      var at: nat :| IsReplaced(PastedUrl, s, at, hit);
      UrlText(s, at, hit);
      var gap, u, rest := s[pos..hit.from], s[hit.from..hit.end], Rewrite(PastedUrl, s, hit.end);
      var back := hit.html + rest;
      assert u[0] == s[hit.from];
      if i < |gap| {
        AnchorOpens(u, rest);
        assert (gap + back)[|gap|] == back[0] && (gap + back)[|gap| + 1] == back[1] && (gap + back)[|gap| + 2] == back[2];
        NoAnchorInHead(gap + back, i, w, |gap|);
        HeadInGap(s, pos, hit.from, i, w, back);
        j := pos + i;
      } else {
        HeadShift(gap, back, i - |gap|, w);
        if i - |gap| < |hit.html| {
          NotAtUrl(u, rest, w, i - |gap|);
        }
        HeadShift(hit.html, rest, i - |gap| - |hit.html|, w);
        j := HeadsForward(s, hit.end, i - |gap| - |hit.html|, w);
      }
    }
  }

  lemma {:induction false} HeadsBackward(s: string, pos: nat, j: nat, w: string) returns (i: nat)
    requires pos <= j && pos <= |s| && HeadAt(s, j, w)
    requires forall hit <- Replacements(PastedUrl, s, pos) :: hit.Replace? && !InName(false, s, hit.from)
    ensures HeadAt(Rewrite(PastedUrl, s, pos), i, w)
    decreases |s| - pos
  {
    hide Rewrite, Replacements, HitAt, IsReplaced, HeadAt, Anchor, InName;
    var hits := Replacements(PastedUrl, s, pos);
    if hits == [] {
      NoReplacement(PastedUrl, s, pos);
      HeadShift(s[..pos], s[pos..], j - pos, w);
      assert s[..pos] + s[pos..] == s;
      i := j - pos;
    } else {
      FirstReplacement(PastedUrl, s, pos);
      var hit := hits[0];
      var at: nat :| IsReplaced(PastedUrl, s, at, hit);
      HeadAndUrl(s, j, w, at, hit);
      var gap, rest := s[pos..hit.from], Rewrite(PastedUrl, s, hit.end);
      assert hit in hits && forall later <- hits[1..] :: later in hits;
      if hit.end <= j {
        var m := HeadsBackward(s, hit.end, j, w);
        HeadShift(hit.html, rest, m, w);
        HeadShift(gap, hit.html + rest, |hit.html| + m, w);
        i := |gap| + (|hit.html| + m);
      } else {
        HeadInGap(s, pos, hit.from, j - pos, w, hit.html + rest);
        i := j - pos;
      }
    }
  }

  lemma HeadsKept(s: string, w: string)
    requires NamesUncut(PastedUrl, s)
    ensures HasHead(Rewrite(PastedUrl, s, 0), w) <==> HasHead(s, w)
  {
    hide Rewrite, Replacements, HeadAt, InName;
    if i: nat :| HeadAt(Rewrite(PastedUrl, s, 0), i, w) {
      var j := HeadsForward(s, 0, i, w);
    }
    if j: nat :| HeadAt(s, j, w) {
      UncutHits(s);
      var i := HeadsBackward(s, 0, j, w);
    }
  }

  lemma UncutHits(s: string)
    requires NamesUncut(PastedUrl, s)
    ensures forall hit <- Replacements(PastedUrl, s, 0) :: hit.Replace? && !InName(false, s, hit.from)
  {
    hide Replacements, InName, Closes, LabelEnd;
    var hits := Replacements(PastedUrl, s, 0);
    forall hit <- hits ensures hit.Replace? && !InName(false, s, hit.from) {
      var k: nat :| k < |hits| && hits[k] == hit;
      assert CutsNoName(PastedUrl, s, hits, k);
    }
  }

  // ----- the line

  /** Some later pass takes a part of the name of the address for something else. */
  ghost predicate TargetCut(url: string, options: Options) {
    && HasFold(url, 0, MAIL)
    && (UrlInName(url) || (options.issueHref.Some? && NumberInName(Head(url), options.issueHref.value)))
  }

  lemma NoCodeInNames(s: string)
    requires AllNamed(false, s)
    ensures !RunsIntoCode(s)
  {
    hide MailAt;
    forall b: nat | b < |s| && InName(false, s, b) ensures s[b] != NUL {
      var i: nat :| MailAt(s, i) && NameUpTo(false, s, i, b);
      var e: nat :| i + 16 < e < |s| && s[e] == '@' && NameUpTo(false, s, i, e);
      assert e < b ==> IsNameChar(false, s[e]);
      assert b < e ==> IsNameChar(false, s[b]);
    }
  }

  lemma NumbersCut(t: string, href: nat -> string)
    requires Lacks(t, '<') && AllNamed(false, Rewrite(Link, t, 0)) && NamesUncut(PastedUrl, Rewrite(Link, t, 0))
    ensures NamesUncut(Issue(href), Rewrite(PastedUrl, Rewrite(Link, t, 0), 0))
            <==> forall hit <- Replacements(Link, t, 0) ::
                   HasFold(Target(t, hit), 0, MAIL) ==> !NumberInName(Head(Target(t, hit)), href)
  {
    hide Rewrite, Replacements, NumberInName, CutAt, Head, Target, NamesUncut, AllNamed, HasHead, HasFold;
    var links := Rewrite(Link, t, 0);
    var urls := Rewrite(PastedUrl, links, 0);
    PassKeepsNames(PastedUrl, links);
    CutsExactly(Issue(href), urls);
    NumberCutsExactly(urls, href);
    forall w: string ensures HasHead(urls, w)
      <==> exists hit <- Replacements(Link, t, 0) :: HasFold(Target(t, hit), 0, MAIL) && Head(Target(t, hit)) == w
    {
      HeadsKept(links, w);
      HeadsOfLinks(t, w);
    }
  }

  /**
   A line without images is compiled with all mail addresses whole exactly when
   no link was written for an address whose name holds a parenthesis with a URL,
   or with an issue number whose link is let through, directly behind it.
   */
  lemma LineCutExactly(escaped: string, options: Options)
    requires IsEscaped(escaped) && Free(false, escaped, "![")
    ensures var t := Lift(escaped, 0, []).text;
            AllNamed(false, InlineHtml(escaped, options))
            <==> forall hit <- Replacements(Link, t, 0) :: !TargetCut(Target(t, hit), options)
  {
    hide Rewrite, Replacements, NumberInName, UrlInName, CutAt, Head, Target, NamesUncut, AllNamed, HasFold, Disciplined, Refs,
      Free, Lift, Run, InlineHtml;
    var lifted := Lift(escaped, 0, []);
    var t := lifted.text;
    LiftDisciplined(escaped, 0, []);
    LiftedFree(false, escaped, "![");
    NoImagesIn(t, lifted.spans);
    var stages := StagesOf(escaped);
    FirstLinksUncut(t);
    FirstLinksRun(false, t);
    ScanDecides(false, stages.links);
    NoCodeInNames(stages.links);
    LineNamed(escaped, options);
    CutsExactly(PastedUrl, stages.links);
    UrlCutsExactly(t);
    UrlsAreMail(t);
    if options.issueHref.Some? && NamesUncut(PastedUrl, stages.links) {
      NumbersCut(t, options.issueHref.value);
    }
  }

  lemma UrlsAreMail(t: string)
    ensures forall hit <- Replacements(Link, t, 0) :: UrlInName(Target(t, hit)) ==> HasFold(Target(t, hit), 0, MAIL)
  {
    hide Replacements, Target;
  }
}
