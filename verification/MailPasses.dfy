/**
 Which passes keep every mail address in its link, and exactly when: emphasis
 always does, and a pass that writes links does exactly when none of them
 begins in the name of an address, and no label ends in one.
 */
module MailPasses {
  import opened Text
  import opened Patterns
  import opened Links
  import opened Placeholders
  import opened Rewriting
  import opened RuleShapes
  import opened Replacing
  import opened PassSafety
  import opened TagSafety
  import opened MailScan
  import opened MailMarkup

  // ----- emphasis

  /** A tag or a mark that a name can hold. */
  ghost predicate IsMark(strict: bool, t: string) { Resets(t) && Lacks(t[1..], '<') && NameChars(strict, t) }

  lemma MarkedRun(strict: bool, q: State, open: string, body: string, close: string)
    requires IsMark(strict, open) && IsMark(strict, close)
    ensures Run(strict, q, open + body + close) == Passed(Run(strict, Passed(q), body))
  {
    RunJoin(strict, q, open + body, close);
    RunJoin(strict, q, open, body);
    PassedRun(strict, q, open);
    PassedRun(strict, Run(strict, Passed(q), body), close);
  }

  lemma ElementRun(strict: bool, q: State, tag: string, body: string)
    requires IsMark(strict, "<" + tag + ">") && IsMark(strict, "</" + tag + ">")
    ensures Run(strict, q, Element(tag, body)) == Passed(Run(strict, Passed(q), body))
  {
    ElementText(tag, body);
    MarkedRun(strict, q, "<" + tag + ">", body, "</" + tag + ">");
  }

  lemma TagMarks(strict: bool, tag: string)
    requires tag != "" && tag[0] != 'a' && Lacks(tag, '<') && NameChars(strict, tag)
    ensures IsMark(strict, "<" + tag + ">") && IsMark(strict, "</" + tag + ">")
  {
    var open, close := "<" + tag + ">", "</" + tag + ">";
    assert open[1] == tag[0] && close[1] == '/';
    assert open[1..] == tag + ">" && close[1..] == "/" + tag + ">";
  }

  lemma EmphasisTag(strict: bool, tag: string)
    requires tag == "strong" || tag == "em" || tag == "del"
    ensures IsMark(strict, "<" + tag + ">") && IsMark(strict, "</" + tag + ">")
  {
    hide IsMark;
    TagMarks(strict, tag);
  }

  lemma SpanRun(strict: bool, q: State, s: string, i: nat, j: nat, mark: char, width: nat)
    requires Span(s, i, j, mark, width) && 1 <= width <= 2 && (mark == '*' || mark == '~')
    ensures Run(strict, q, s[i..j + width]) == Passed(Run(strict, Passed(q), s[i + width..j]))
  {
    var open, close := s[i..i + width], s[j..j + width];
    assert forall k :: 0 <= k < width ==> open[k] == s[i + k] && In(s[i + k], Only(mark));
    assert forall k :: 0 <= k < width ==> close[k] == s[j + k] && In(s[j + k], Only(mark));
    assert s[i..j + width] == open + s[i + width..j] + close;
    MarkedRun(strict, q, open, s[i + width..j], close);
  }

  predicate IsEmphasis(rule: Rule) { rule.Strong? || rule.Emphasis? || rule.Deleted? }

  /** Tags in place of marks: no scan can tell the difference. */
  lemma EmphasisHitRun(strict: bool, rule: Rule, s: string, at: nat, hit: Hit, q: State)
    requires IsEmphasis(rule) && IsReplaced(rule, s, at, hit)
    ensures Run(strict, q, hit.html) == Run(strict, q, s[hit.from..hit.end])
  {
    hide Run, Element, IsMark, Span, Passed;
    match rule {
      case Strong =>
        EmphasisTag(strict, "strong");
        var j := SpanAt(s, at, '*', 2).value;
        SpanRun(strict, q, s, at, j, '*', 2);
        ElementRun(strict, q, "strong", s[at + 2..j]);
      case Emphasis =>
        var b := EmphasisStart(s, at).value;
        var j := SpanAt(s, b, '*', 1).value;
        SpanRun(strict, q, s, b, j, '*', 1);
        EmphasisTag(strict, "em");
        ElementRun(strict, q, "em", s[b + 1..j]);
      case Deleted =>
        var j := SpanAt(s, at, '~', 2).value;
        SpanRun(strict, q, s, at, j, '~', 2);
        EmphasisTag(strict, "del");
        ElementRun(strict, q, "del", s[at + 2..j]);
    }
  }

  lemma {:induction false} EmphasisRun(strict: bool, rule: Rule, s: string, i: nat, q: State)
    requires IsEmphasis(rule) && i <= |s|
    ensures Run(strict, q, Rewrite(rule, s, i)) == Run(strict, q, s[i..])
    decreases |s| - i
  {
    hide Run, Rewrite, Replacements, HitAt, IsReplaced;
    var hits := Replacements(rule, s, i);
    if hits == [] {
      NoReplacement(rule, s, i);
    } else {
      FirstReplacement(rule, s, i);
      var hit := hits[0];
      var at: nat :| IsReplaced(rule, s, at, hit);
      var gap, inner, rest := s[i..hit.from], s[hit.from..hit.end], s[hit.end..];
      var p := Run(strict, q, gap);
      EmphasisHitRun(strict, rule, s, at, hit, p);
      EmphasisRun(strict, rule, s, hit.end, Run(strict, p, inner));
      RunThree(strict, q, gap, hit.html, Rewrite(rule, s, hit.end));
      RunThree(strict, q, gap, inner, rest);
      assert s[i..] == gap + (inner + rest);
    }
  }

  lemma RunThree(strict: bool, q: State, a: string, b: string, c: string)
    ensures Run(strict, q, a + (b + c)) == Run(strict, Run(strict, Run(strict, q, a), b), c)
  {
    RunJoin(strict, q, a, b + c);
    RunJoin(strict, Run(strict, q, a), b, c);
  }

  // ----- pasted URLs and issue numbers

  /** A pasted URL is a target, and reading it leaves nothing begun. */
  lemma UrlRun(strict: bool, s: string, b: nat, e: nat, q: State)
    requires BareUrl(s, b, e)
    ensures IsTarget(strict, s[b..e]) && Lacks(s[b..e], '<')
    ensures q.Matching? ==> Run(strict, q, s[b..e]) == START
  {
    var url := s[b..e];
    BareUrlShape(s, b, e);
    assert url[0] == s[b..b + 2][0] && url[1] == s[b..b + 2][1];
    if q.Matching? {
      var p := Step(strict, q, 'h');
      assert p == Matching(4) || p == START;
      assert Step(strict, p, 't') == START;
      assert url[1..][0] == 't' && url[1..][1..] == url[2..];
      Quiet(strict, url[2..]);
    }
    var m := SchemeEnd(s, b).value;
    forall k | 0 <= k < |url| ensures url[k] != ' ' {
      assert b + k < m ==> s[b..m][k] == s[b + k];
      assert m <= b + k ==> In(s[b + k], BareTarget);
    }
    CharOf(url, 0, MAIL, 0);
  }

  lemma UrlHitRun(strict: bool, s: string, at: nat, hit: Hit, q: State)
    requires IsReplaced(PastedUrl, s, at, hit)
    ensures Run(strict, q, hit.html) == if q.Name? then Broken else Run(strict, q, s[hit.from..hit.end])
  {
    hide Run, Anchor, IsTarget;
    var b := UrlStart(s, at).value;
    var e := BareUrlAt(s, b).value;
    UrlRun(strict, s, b, e, q);
    Quiet(strict, s[b..e]);
    AnchorRun(strict, q, s[b..e], s[b..e]);
    if !q.Matching? && !q.Name? {
      Sticks(strict, q, s[b..e]);
    }
  }

  lemma IssueTyped(s: string, b: nat, e: nat)
    requires IssueNumber(s, b, e)
    ensures var number, typed := s[b + 1..e], s[b..e];
            && typed == "#" + number && typed[0] == '#' && Lacks(typed, '<') && Lacks(typed[1..], '<')
            && forall k :: 0 <= k < |number| ==> IsDigit(number[k])
  {
    var number, typed := s[b + 1..e], s[b..e];
    forall k | 0 <= k < |number| ensures IsDigit(number[k]) && typed[k + 1] == number[k] {
      assert number[k] == s[b + 1 + k] && In(s[b + 1 + k], Digit);
    }
    assert typed[1..] == number && typed == "#" + number;
  }

  lemma IssueHitRun(s: string, href: nat -> string, at: nat, hit: Hit, q: State)
    requires IsReplaced(Issue(href), s, at, hit)
    ensures Run(false, q, hit.html) == if q.Name? then Broken else Run(false, q, s[hit.from..hit.end])
  {
    hide Run, Anchor, IsTarget, SafeHref, IssueNumber;
    var b := IssueStart(s, at).value;
    var e := IssueNumberAt(s, b).value;
    var typed := s[b..e];
    IssueTyped(s, b, e);
    var number := s[b + 1..e];
    TargetOf(href(Value(number)));
    Quiet(false, typed);
    AnchorRun(false, q, SafeHref(href(Value(number))).value, typed);
    if q.Matching? {
      Reset(false, q, typed);
    } else if !q.Name? {
      Sticks(false, q, typed);
    }
  }

  predicate IsPlainAnchor(strict: bool, rule: Rule) { rule.PastedUrl? || (rule.Issue? && !strict) }

  lemma PlainAnchorRun(strict: bool, rule: Rule, s: string, at: nat, hit: Hit, q: State)
    requires IsPlainAnchor(strict, rule) && IsReplaced(rule, s, at, hit)
    ensures Run(strict, q, hit.html) == if q.Name? then Broken else Run(strict, q, s[hit.from..hit.end])
  {
    match rule
    case PastedUrl => UrlHitRun(strict, s, at, hit, q);
    case Issue(href) => IssueHitRun(s, href, at, hit, q);
  }

  /** No replaced match begins where a name is being read. */
  ghost predicate OutsideNames(strict: bool, s: string, hits: seq<Hit>) {
    forall hit <- hits :: hit.Replace? && hit.from <= |s| && !StateAt(strict, s, hit.from).Name?
  }

  lemma {:induction false} AnchorsRun(strict: bool, rule: Rule, s: string, i: nat)
    requires IsPlainAnchor(strict, rule) && i <= |s|
    ensures var hits, q := Replacements(rule, s, i), StateAt(strict, s, i);
            Run(strict, q, Rewrite(rule, s, i)) == if OutsideNames(strict, s, hits) then Run(strict, q, s[i..]) else Broken
    decreases |s| - i
  {
    hide Run, Rewrite, Replacements, HitAt, IsReplaced, StateAt;
    var hits, q := Replacements(rule, s, i), StateAt(strict, s, i);
    if hits == [] {
      NoReplacement(rule, s, i);
    } else {
      FirstReplacement(rule, s, i);
      var hit := hits[0];
      var at: nat :| IsReplaced(rule, s, at, hit);
      var gap, inner, rest := s[i..hit.from], s[hit.from..hit.end], s[hit.end..];
      StateMoves(strict, s, i, hit.from);
      StateMoves(strict, s, hit.from, hit.end);
      var p := StateAt(strict, s, hit.from);
      PlainAnchorRun(strict, rule, s, at, hit, p);
      RunThree(strict, q, gap, hit.html, Rewrite(rule, s, hit.end));
      RunThree(strict, q, gap, inner, rest);
      assert s[i..] == gap + (inner + rest);
      if p.Name? {
        Sticks(strict, Broken, Rewrite(rule, s, hit.end));
        assert !OutsideNames(strict, s, hits);
      } else {
        AnchorsRun(strict, rule, s, hit.end);
        assert hits == [hit] + hits[1..];
        assert OutsideNames(strict, s, hits) <==> OutsideNames(strict, s, hits[1..]);
      }
    }
  }

  // ----- links

  /** In s[a..b) an `@` comes before anything that cannot stand in a name. */
  ghost predicate Closes(s: string, a: nat, b: nat) {
    exists e: nat :: a <= e < b <= |s| && s[e] == '@' && forall x :: a <= x < e ==> IsNameChar(false, s[x])
  }

  /** A name that goes on at `a` ends well exactly if it is closed, and from then on nothing tells that it was there. */
  lemma {:induction false} CarriedRun(s: string, a: nat, b: nat, k: nat)
    requires a <= b <= |s| && k <= 2
    ensures Closes(s, a, b) ==> Run(false, Name(true), s[a..b]) == Run(false, Matching(k), s[a..b])
    ensures !Closes(s, a, b) ==> !Run(false, Name(true), s[a..b]).Matching?
    decreases b - a
  {
    var w := s[a..b];
    if a < b {
      assert w[0] == s[a] && w[1..] == s[a + 1..b];
      if s[a] == '@' {
        assert Step(false, Matching(k), '@') == START;
        assert Closes(s, a, b);
      } else if IsNameChar(false, s[a]) {
        CarriedRun(s, a + 1, b, Step(false, Matching(k), s[a]).k);
        assert Closes(s, a, b) <==> Closes(s, a + 1, b);
      } else {
        Sticks(false, Step(false, Name(true), s[a]), w[1..]);
      }
    }
  }

  /** Where the label of a link that begins at `i` ends. */
  function LabelEnd(s: string, i: nat): (j: nat)
    requires i <= |s|
    ensures j <= |s|
  {
    match BracketAt(s, i)
    case Some((j, _)) => j
    case None => i
  }

  function NextFrom(s: string, hits: seq<Hit>, k: nat): nat {
    if k < |hits| && hits[k].Replace? then hits[k].from else |s|
  }

  /** The link does not begin in a name; and if its label ends in one, that name is closed behind the link. */
  ghost predicate LinkKeeps(s: string, hits: seq<Hit>, k: nat)
    requires k < |hits|
  {
    var hit := hits[k];
    && hit.Replace? && hit.from <= |s| && !StateAt(false, s, hit.from).Name?
    && (StateAt(false, s, LabelEnd(s, hit.from)).Name? ==> Closes(s, hit.end, NextFrom(s, hits, k + 1)))
  }

  ghost predicate LinksKeep(s: string, hits: seq<Hit>) {
    forall k: nat :: k < |hits| ==> LinkKeeps(s, hits, k)
  }

  /** The target of a replaced link, read inside a name or outside of one. */
  lemma LinkTargetRun(url: string, q: State)
    requires SafeHref(url).Some? && SafeHref(url).value == url && AllIn(url, 0, |url|, Target)
    requires q.Matching? || q.Name?
    ensures var end := Run(false, q, "](" + url + ")");
            if q.Matching? then end == START else end == START || end == Name(true)
  {
    hide Run, SafeHref, IsAllowed, IsTarget, AllIn;
    var text := "](" + url;
    TargetOf(url);
    RunJoin(false, q, text, ")");
    RunJoin(false, q, "](", url);
    SafeHrefSound(url);
    if q.Matching? {
      Reset(false, q, "](");
      SpacelessRun(false, 0, url);
    } else {
      NameRun(false, q.started, "](");
      SpacelessName(url);
    }
    ParenRun(Run(false, q, text));
  }

  lemma ParenRun(q: State)
    ensures q.Matching? ==> Run(false, q, ")") == START
    ensures q.Name? ==> Run(false, q, ")") == Name(true)
  {
    assert ")"[1..] == "";
  }

  lemma {:induction false} SpacelessName(s: string)
    requires AllIn(s, 0, |s|, Target) && Lacks(s, NUL)
    ensures var q := Run(false, Name(true), s); q == Name(true) || (q.Matching? && q.k <= 2)
    decreases |s|
  {
    if s != "" {
      assert In(s[0], Target);
      assert forall k :: 0 <= k < |s[1..]| ==> In(s[k + 1], Target) && s[1..][k] == s[k + 1];
      if s[0] == '@' {
        SpacelessRun(false, 0, s[1..]);
      } else {
        SpacelessName(s[1..]);
      }
    }
  }

  lemma LinkHitShape(s: string, at: nat, hit: Hit)
    requires IsReplaced(Link, s, at, hit)
    ensures var j := LabelEnd(s, at);
            && hit.from == at && Bracket(s, at, j, hit.end - 1)
            && var url, caption := s[j + 2..hit.end - 1], s[at + 1..j];
               && SafeHref(url).Some? && SafeHref(url).value == url && AllIn(url, 0, |url|, Target)
               && hit.html == Anchor(url, if caption == "" then url else caption)
  {
    hide Anchor, SafeHref;
    var (j, k) := BracketAt(s, at).value;
    TargetTrimmed(s, j + 2, k);
  }

  lemma TargetTrimmed(s: string, a: nat, b: nat)
    requires a < b <= |s| && AllIn(s, a, b, Target)
    ensures var url := s[a..b]; AllIn(url, 0, |url|, Target) && (SafeHref(url).Some? ==> SafeHref(url).value == url)
  {
    hide IsAllowed;
    var url := s[a..b];
    assert forall n :: 0 <= n < |url| ==> url[n] == s[a + n] && In(s[a + n], Target);
    TrimFixed(url);
  }

  /** A link is read like its label, and its text behind it. */
  lemma LinkHitRun(s: string, at: nat, hit: Hit)
    requires IsReplaced(Link, s, at, hit)
    ensures var q, inner, end := StateAt(false, s, at), StateAt(false, s, LabelEnd(s, at)), StateAt(false, s, hit.end);
            && (q.Name? ==> Run(false, q, hit.html) == Broken)
            && (q.Matching? && inner.Matching? ==> Run(false, q, hit.html) == START && end == START)
            && (q.Matching? && inner.Name? ==> Run(false, q, hit.html) == Name(true) && (end == START || end == Name(true)))
  {
    hide Run, Anchor, SafeHref, IsTarget, StateAt, IsReplaced;
    LinkHitShape(s, at, hit);
    var j := LabelEnd(s, at);
    var url, caption := s[j + 2..hit.end - 1], s[at + 1..j];
    var q, inner := StateAt(false, s, at), StateAt(false, s, j);
    TargetOf(url);
    AnchorRun(false, q, url, if caption == "" then url else caption);
    StateMoves(false, s, at, j);
    StateMoves(false, s, j, hit.end);
    assert s[j..hit.end] == "](" + url + ")";
    if inner.Matching? || inner.Name? {
      LinkTargetRun(url, inner);
    }
    if q.Matching? {
      LabelRun(q, s, at, j);
      UrlCaptionRun(url);
    }
  }

  lemma LabelRun(q: State, s: string, at: nat, j: nat)
    requires q.Matching? && at < j <= |s| && s[at] == '['
    ensures Run(false, q, s[at..j]) == Run(false, START, s[at + 1..j])
  {
    assert s[at..j][0] == '[' && s[at..j][1..] == s[at + 1..j];
    assert Step(false, q, '[') == START;
  }

  lemma UrlCaptionRun(url: string)
    requires IsTarget(false, url)
    ensures Passed(Run(false, START, url)) == START && Run(false, START, "") == START
  {
    SpacelessRun(false, 0, url);
  }

  lemma LinksUnfold(s: string, hits: seq<Hit>)
    requires hits != []
    ensures LinksKeep(s, hits) <==> LinkKeeps(s, hits, 0) && LinksKeep(s, hits[1..])
  {
    hide Closes, LabelEnd, StateAt;
    forall k: nat | k < |hits[1..]| ensures LinkKeeps(s, hits[1..], k) <==> LinkKeeps(s, hits, k + 1) {
      assert NextFrom(s, hits[1..], k + 1) == NextFrom(s, hits, k + 2);
    }
    if LinkKeeps(s, hits, 0) && LinksKeep(s, hits[1..]) {
      forall k: nat | k < |hits| ensures LinkKeeps(s, hits, k) {
        assert k > 0 ==> LinkKeeps(s, hits[1..], k - 1);
      }
    }
  }

  /** A complete text is never Broken or Torn on the way. */
  lemma Sound(s: string, b: nat)
    requires Run(false, START, s).Matching? && b <= |s|
    ensures StateAt(false, s, b).Matching? || StateAt(false, s, b).Name?
  {
    ScanDecides(false, s);
    NameStandsIn(false, s, b);
  }

  /**
   Where the scans of a complete text and of its compiled form meet: in the same
   state, or with a name carried on that the text itself does not have.
   */
  lemma {:induction false} LinksRun(s: string, i: nat, carried: bool)
    requires Run(false, START, s).Matching? && i <= |s| && (carried ==> StateAt(false, s, i) == START)
    ensures var hits, q := Replacements(Link, s, i), if carried then Name(true) else StateAt(false, s, i);
            Run(false, q, Rewrite(Link, s, i)).Matching?
            <==> (carried ==> Closes(s, i, NextFrom(s, hits, 0))) && LinksKeep(s, hits)
    decreases |s| - i
  {
    hide Run, Rewrite, Replacements, HitAt, IsReplaced, StateAt, Closes, LinkKeeps, LabelEnd;
    var hits, q := Replacements(Link, s, i), if carried then Name(true) else StateAt(false, s, i);
    var n := NextFrom(s, hits, 0);
    if hits == [] {
      NoReplacement(Link, s, i);
    } else {
      FirstReplacement(Link, s, i);
    }
    var gap := s[i..n];
    var g := Run(false, q, gap);
    StateMoves(false, s, i, n);
    Sound(s, n);
    if carried {
      CarriedRun(s, i, n, 0);
    }
    if hits == [] {
      assert s[..|s|] == s && s[i..] == gap;
      assert StateAt(false, s, |s|) == Run(false, START, s) by { StateEnd(s); }
    } else {
      RunThree(false, q, gap, hits[0].html, Rewrite(Link, s, hits[0].end));
      LinksUnfold(s, hits);
      if carried && !Closes(s, i, n) {
        var at: nat :| IsReplaced(Link, s, at, hits[0]);
        NotClosed(g, s, at, hits[0]);
        StaysUnmatched(Run(false, g, hits[0].html), Rewrite(Link, s, hits[0].end));
      } else {
        LinksRunHit(s, i);
      }
    }
  }

  lemma StateEnd(s: string)
    ensures StateAt(false, s, |s|) == Run(false, START, s)
  {
    assert s[..|s|] == s;
  }

  lemma NotClosed(q: State, s: string, at: nat, hit: Hit)
    requires IsReplaced(Link, s, at, hit) && !q.Matching?
    ensures var p := Run(false, q, hit.html); p.Broken? || p.Torn?
  {
    hide Run, Anchor, SafeHref, IsTarget, IsReplaced;
    LinkHitShape(s, at, hit);
    var j := LabelEnd(s, at);
    var url, caption := s[j + 2..hit.end - 1], s[at + 1..j];
    TargetOf(url);
    AnchorRun(false, q, url, if caption == "" then url else caption);
  }

  lemma StaysUnmatched(q: State, s: string)
    requires q.Broken? || q.Torn?
    ensures !Run(false, q, s).Matching?
  {
    Sticks(false, q, s);
  }

  /** The first link and what is behind it, when the scans agree in front of it. */
  lemma {:induction false} LinksRunHit(s: string, i: nat)
    requires Run(false, START, s).Matching? && i <= |s| && Replacements(Link, s, i) != []
    requires Replacements(Link, s, i)[0].Replace? && Replacements(Link, s, i)[0].from <= |s|
    ensures var hits := Replacements(Link, s, i);
            && hits[0].end <= |s|
            && (Run(false, Run(false, StateAt(false, s, hits[0].from), hits[0].html), Rewrite(Link, s, hits[0].end)).Matching?
                <==> LinkKeeps(s, hits, 0) && LinksKeep(s, hits[1..]))
    decreases |s| - i, 0
  {
    hide Run, Rewrite, Replacements, HitAt, IsReplaced, StateAt, Closes, LabelEnd, Bracket, SafeHref, Anchor, AllIn;
    var hits := Replacements(Link, s, i);
    FirstReplacement(Link, s, i);
    var hit, rest := hits[0], hits[1..];
    var at: nat :| IsReplaced(Link, s, at, hit);
    LinkHitRun(s, at, hit);
    LinkHitShape(s, at, hit);
    Sound(s, at);
    Sound(s, LabelEnd(s, at));
    var next := NextFrom(s, hits, 1);
    assert next == NextFrom(s, rest, 0);
    var end := StateAt(false, s, hit.end);
    if StateAt(false, s, at).Name? {
      StaysUnmatched(Broken, Rewrite(Link, s, hit.end));
    } else if StateAt(false, s, LabelEnd(s, at)).Name? && end == START {
      LinksRun(s, hit.end, true);
    } else {
      LinksRun(s, hit.end, false);
      if StateAt(false, s, LabelEnd(s, at)).Name? && LinksKeep(s, rest) {
        NextBounds(s, hit.end);
        ClosedAnyway(s, hit.end, rest);
      }
    }
  }

  lemma NextBounds(s: string, i: nat)
    requires i <= |s|
    ensures i <= NextFrom(s, Replacements(Link, s, i), 0) <= |s|
  {
    hide Replacements, Rewrite, HitAt;
    if Replacements(Link, s, i) != [] {
      FirstReplacement(Link, s, i);
    }
  }

  /** A name that a link has not ended is closed before the next link. */
  lemma ClosedAnyway(s: string, i: nat, hits: seq<Hit>)
    requires Run(false, START, s).Matching? && i <= |s| && StateAt(false, s, i) == Name(true)
    requires LinksKeep(s, hits) && i <= NextFrom(s, hits, 0) <= |s|
    ensures Closes(s, i, NextFrom(s, hits, 0))
  {
    hide Run, StateAt, Closes, LabelEnd;
    var n := NextFrom(s, hits, 0);
    StateMoves(false, s, i, n);
    Sound(s, n);
    CarriedRun(s, i, n, 0);
    StateEnd(s);
    assert hits != [] ==> LinkKeeps(s, hits, 0);
  }

  // ----- the passes that write links, and the pass that is first

  /**
   A link that is written cuts no name: it does not begin in one, and a name
   that its label ends in is closed behind it, before the next link.
   */
  ghost predicate CutsNoName(rule: Rule, s: string, hits: seq<Hit>, k: nat)
    requires k < |hits|
  {
    var hit := hits[k];
    && hit.Replace? && hit.from <= |s| && !InName(false, s, hit.from)
    && (rule.Link? && InName(false, s, LabelEnd(s, hit.from)) ==> Closes(s, hit.end, NextFrom(s, hits, k + 1)))
  }

  ghost predicate NamesUncut(rule: Rule, s: string)
    requires Applies(rule, s)
  {
    var hits := Replacements(rule, s, 0);
    forall k: nat :: k < |hits| ==> CutsNoName(rule, s, hits, k)
  }

  predicate WritesLinks(rule: Rule) { rule.Link? || rule.PastedUrl? || rule.Issue? }

  /** Every mail address keeps its name and its `@` in a pass exactly when the pass cuts no name. */
  lemma PassKeepsNames(rule: Rule, s: string)
    requires !rule.Image? && AllNamed(false, s)
    ensures AllNamed(false, Rewrite(rule, s, 0)) <==> (WritesLinks(rule) ==> NamesUncut(rule, s))
  {
    hide Rewrite, Replacements, Run, StateAt, InName, AllNamed, Closes, LabelEnd;
    ScanDecides(false, s);
    ScanDecides(false, Rewrite(rule, s, 0));
    StateStart(s);
    assert s[0..] == s;
    var hits := Replacements(rule, s, 0);
    if IsEmphasis(rule) {
      EmphasisRun(false, rule, s, 0, START);
    } else {
      forall k: nat | k < |hits| && hits[k].Replace? && hits[k].from <= |s|
        ensures InName(false, s, hits[k].from) <==> StateAt(false, s, hits[k].from).Name?
        ensures InName(false, s, LabelEnd(s, hits[k].from)) <==> StateAt(false, s, LabelEnd(s, hits[k].from)).Name?
      {
        NameStandsIn(false, s, hits[k].from);
        NameStandsIn(false, s, LabelEnd(s, hits[k].from));
      }
      if rule.Link? {
        LinksRun(s, 0, false);
        assert forall k: nat :: k < |hits| ==> (CutsNoName(rule, s, hits, k) <==> LinkKeeps(s, hits, k));
      } else {
        AnchorsRun(false, rule, s, 0);
        OutsideEach(rule, s, hits);
      }
    }
  }

  lemma StateStart(s: string)
    ensures StateAt(false, s, 0) == START
  {
    assert s[..0] == "";
  }

  lemma OutsideEach(rule: Rule, s: string, hits: seq<Hit>)
    requires !rule.Link?
    requires forall k: nat :: k < |hits| && hits[k].Replace? && hits[k].from <= |s| ==>
               (InName(false, s, hits[k].from) <==> StateAt(false, s, hits[k].from).Name?)
    ensures OutsideNames(false, s, hits) <==> forall k: nat :: k < |hits| ==> CutsNoName(rule, s, hits, k)
  {
    hide InName, StateAt;
    if OutsideNames(false, s, hits) {
      forall k: nat | k < |hits| ensures CutsNoName(rule, s, hits, k) {
        assert hits[k] in hits;
      }
    }
    if forall k: nat :: k < |hits| ==> CutsNoName(rule, s, hits, k) {
      forall hit <- hits ensures hit.Replace? && hit.from <= |s| && !StateAt(false, s, hit.from).Name? {
        var k: nat :| k < |hits| && hits[k] == hit;
        assert CutsNoName(rule, s, hits, k);
      }
    }
  }

  /** A pass over a text without `<`, all of whose markup is read to its end. */
  lemma {:induction false} FreshRun(strict: bool, rule: Rule, s: string, i: nat)
    requires Applies(rule, s) && i <= |s| && Lacks(s, '<')
    requires forall at: nat, hit: Hit :: IsReplaced(rule, s, at, hit) ==> Run(strict, START, hit.html) == START
    ensures Run(strict, START, Rewrite(rule, s, i)) == START
    decreases |s| - i
  {
    hide Run, Rewrite, Replacements, HitAt, IsReplaced;
    var hits := Replacements(rule, s, i);
    if hits == [] {
      NoReplacement(rule, s, i);
      Quiet(strict, s[i..]);
    } else {
      FirstReplacement(rule, s, i);
      var hit := hits[0];
      var at: nat :| IsReplaced(rule, s, at, hit);
      RunThree(strict, START, s[i..hit.from], hit.html, Rewrite(rule, s, hit.end));
      Quiet(strict, s[i..hit.from]);
      FreshRun(strict, rule, s, hit.end);
    }
  }

  lemma NoteRun(strict: bool)
    ensures Run(strict, START, NOTE) == START
  {
    hide Run;
    RunJoin(strict, START, " " + NOTE_TAG + NOTE_TEXT, "</span>");
    RunJoin(strict, START, " " + NOTE_TAG, NOTE_TEXT);
    RunJoin(strict, START, " ", NOTE_TAG);
    Quiet(strict, " ");
    TagRun(strict, NOTE_TAG);
    Quiet(strict, NOTE_TEXT);
    TagRun(strict, "</span>");
  }

  lemma TagRun(strict: bool, t: string)
    requires IsFixedTag(t)
    ensures forall q: State :: q.Matching? ==> Run(strict, q, t) == START
  {
    hide Run, IsFixedTag;
    FixedTagShape(t);
    assert forall k :: 1 <= k < |t| ==> TagChar(t[k]);
    forall q: State | q.Matching? ensures Run(strict, q, t) == START {
      Reset(strict, q, t);
    }
  }

  lemma ImageElementRun(src: string, alt: string)
    requires Lacks(src, '<') && Lacks(alt, '<')
    ensures Run(false, START, ImageElement(src, alt)) == START
  {
    var s := ImageElement(src, alt);
    assert s[0] == '<' && s[1] == 'i';
    assert Lacks(IMAGE_TAG[1..], '<') && Lacks(ImageTail(alt), '<');
    assert s[1..] == IMAGE_TAG[1..] + src + ImageTail(alt);
    Reset(false, START, s);
  }

  lemma ImageHitRun(s: string, spans: seq<string>, at: nat, hit: Hit)
    requires Premise(Image(spans), s) && IsReplaced(Image(spans), s, at, hit)
    ensures Run(false, START, hit.html) == START
  {
    hide Run, Anchor, SafeHref, IsTarget, Disciplined, ImageElement, Plain, NOTE;
    ImageExact(s, at, spans);
    var (j, k) := BracketAt(s, at + 1).value;
    assert ImageShape(s, at, j, k);
    var url, alt := s[j + 2..k], s[at + 2..j];
    TargetOf(url);
    ImageUrlShape(s, j, k);
    if LocalTarget(url, 0) {
      PlainLacks(url, spans);
      PlainLacks(alt, spans);
      ImageElementRun(Plain(url, spans), Plain(alt, spans));
    } else {
      var caption := if alt == "" then url else alt;
      AnchorRun(false, START, url, caption);
      Quiet(false, caption);
      RunJoin(false, START, Anchor(url, caption), NOTE);
      NoteRun(false);
    }
  }

  /** What the image pass writes is complete: it runs over the escaped line, which holds no link. */
  lemma ImagesRun(s: string, spans: seq<string>)
    requires Premise(Image(spans), s)
    ensures Run(false, START, Rewrite(Image(spans), s, 0)) == START
  {
    hide Run, HitAt;
    forall at: nat, hit: Hit | IsReplaced(Image(spans), s, at, hit) ensures Run(false, START, hit.html) == START {
      ImageHitRun(s, spans, at, hit);
    }
    FreshRun(false, Image(spans), s, 0);
  }

  /** The same for links in a line without images, also in a strict scan if the targets allow it. */
  lemma FirstLinksRun(strict: bool, s: string)
    requires Lacks(s, '<')
    requires strict ==> forall i: nat, j: nat, k: nat :: Bracket(s, i, j, k) && SafeHref(s[j + 2..k]).Some? ==> IsTarget(true, s[j + 2..k])
    ensures Run(strict, START, Rewrite(Link, s, 0)) == START
  {
    hide Run, Anchor, SafeHref, IsTarget, HitAt;
    forall at: nat, hit: Hit | IsReplaced(Link, s, at, hit) ensures Run(strict, START, hit.html) == START {
      LinkHitShape(s, at, hit);
      var j := LabelEnd(s, at);
      var url, caption := s[j + 2..hit.end - 1], s[at + 1..j];
      TargetOf(url);
      Quiet(strict, if caption == "" then url else caption);
      AnchorRun(strict, START, url, if caption == "" then url else caption);
    }
    FreshRun(strict, Link, s, 0);
  }
}
