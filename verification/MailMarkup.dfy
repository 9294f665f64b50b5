/** What the scan for mail addresses does over the markup that the passes write. */
module MailMarkup {
  import opened Text
  import opened Links
  import opened Rewriting
  import opened MailScan

  /** No character of `<a href="mailto:`. */
  predicate IsInert(c: char) {
    !IsAlpha(c) && c != '<' && c != ' ' && c != '=' && c != '"' && c != ':'
  }

  /** The state behind a tag that is no link, or behind the marks it replaces. */
  function Passed(q: State): State {
    match q
    case Matching(_) => START
    case Name(_) => Name(true)
    case _ => q
  }

  ghost predicate NameChars(strict: bool, s: string) { forall k :: 0 <= k < |s| ==> IsNameChar(strict, s[k]) }

  lemma {:induction false} Quiet(strict: bool, s: string)
    requires Lacks(s, '<')
    ensures Run(strict, START, s) == START
    decreases |s|
  {
    if s != "" {
      assert Step(strict, START, s[0]) == START;
      Quiet(strict, s[1..]);
    }
  }

  lemma {:induction false} NameRun(strict: bool, started: bool, s: string)
    requires NameChars(strict, s)
    ensures Run(strict, Name(started), s) == Name(started || s != "")
    decreases |s|
  {
    if s != "" {
      assert IsNameChar(strict, s[0]);
      NameRun(strict, true, s[1..]);
    }
  }

  /** Only `<a ` can be begun in a text without spaces. */
  lemma {:induction false} SpacelessRun(strict: bool, k: nat, s: string)
    requires k <= 2 && Lacks(s, ' ')
    ensures var q := Run(strict, Matching(k), s); q.Matching? && q.k <= 2
    decreases |s|
  {
    if s != "" {
      var q := Step(strict, Matching(k), s[0]);
      assert s[0] != ' ';
      SpacelessRun(strict, q.k, s[1..]);
    }
  }

  /** An inert character or a tag that does not begin like a link, and more without `<`. */
  predicate Resets(s: string) {
    s != "" && (IsInert(s[0]) || (s[0] == '<' && |s| >= 2 && s[1] != 'a' && s[1] != '<'))
  }

  lemma Reset(strict: bool, q: State, s: string)
    requires Resets(s) && Lacks(s[1..], '<') && q.Matching?
    ensures Run(strict, q, s) == START
  {
    var next := s[1..];
    if IsInert(s[0]) {
      assert Step(strict, q, s[0]) == START;
      Quiet(strict, next);
    } else {
      assert Step(strict, q, s[0]) == Matching(1);
      assert next[0] == s[1] && Step(strict, Matching(1), next[0]) == START;
      assert forall k :: 0 <= k < |next[1..]| ==> next[1..][k] == next[k + 1];
      Quiet(strict, next[1..]);
    }
  }

  /** A piece that resets a match and that a name can hold. */
  lemma PassedRun(strict: bool, q: State, s: string)
    requires Resets(s) && Lacks(s[1..], '<') && NameChars(strict, s)
    ensures Run(strict, q, s) == Passed(q)
  {
    match q
    case Matching(_) => Reset(strict, q, s);
    case Name(started) => NameRun(strict, started, s);
    case _ => Sticks(strict, q, s);
  }

  // ----- links

  /** A target that is let through, and whose name the scan can read up to its `@`. */
  ghost predicate IsTarget(strict: bool, href: string) {
    && IsAllowed(href) && Lacks(href, ' ')
    && (HasFold(href, 0, MAIL) ==> NameChars(strict, href[7..RunEnd(href, 7, MailName)]))
  }

  lemma {:induction false} MailTargetRun(strict: bool, href: string)
    requires IsTarget(strict, href) && MailTarget(href)
    ensures var q := Run(strict, Matching(9), href); q.Matching? && q.k <= 2
  {
    var at := RunEnd(href, 7, MailName);
    var scheme, name, rest := href[..7], href[7..at], href[at..];
    assert href == scheme + (name + rest) by { assert href == scheme + name + rest; Regroup(scheme, name, rest); }
    RunJoin(strict, Matching(9), scheme, name + rest);
    RunJoin(strict, Name(false), name, rest);
    SchemeRun(strict, href);
    NameRun(strict, false, name);
    assert rest[0] == '@' && Step(strict, Name(true), '@') == START;
    SpacelessRun(strict, 0, rest[1..]);
  }

  lemma SchemeRun(strict: bool, href: string)
    requires HasFold(href, 0, MAIL)
    ensures Run(strict, Matching(9), href[..7]) == Name(false)
  {
    var s := href[..7];
    assert forall k :: 0 <= k < 7 ==> LowerAscii(href[0 + k]) == MAIL[k];
    SchemeSteps(strict, s, 0);
    assert s[0..] == s;
  }

  lemma {:induction false} SchemeSteps(strict: bool, s: string, i: nat)
    requires |s| == 7 && i < 7 && forall k :: 0 <= k < 7 ==> LowerAscii(s[k]) == MAIL[k]
    ensures Run(strict, Matching(9 + i), s[i..]) == Name(false)
    decreases 7 - i
  {
    assert s[i..][1..] == s[i + 1..];
    if i < 6 {
      SchemeSteps(strict, s, i + 1);
    } else {
      assert s[7..] == "";
    }
  }

  lemma TargetRun(strict: bool, href: string)
    requires IsTarget(strict, href)
    ensures var q := Run(strict, Matching(9), href); q.Matching? && q.k <= 2
  {
    if MailTarget(href) {
      MailTargetRun(strict, href);
    } else {
      assert href != "" && Step(strict, Matching(9), href[0]) == START by { AllowedFirst(href); }
      SpacelessRun(strict, 0, href[1..]);
    }
  }

  lemma AllowedFirst(href: string)
    requires IsAllowed(href) && !MailTarget(href)
    ensures href != "" && href[0] in ['h', 'H', '/', '#', '.']
  {
    if HasFold(href, 0, "http://") {
      assert LowerAscii(href[0 + 0]) == "http://"[0];
    } else if HasFold(href, 0, "https://") {
      assert LowerAscii(href[0 + 0]) == "https://"[0];
    } else {
      assert href[0] == href[..1][0];
      assert Has(href, 0, "./") ==> href[0..2][0] == '.';
      assert Has(href, 0, "../") ==> href[0..3][0] == '.';
    }
  }

  lemma OpenerRun(strict: bool, q: State)
    requires q.Matching? || q.Name?
    ensures Run(strict, q, ANCHOR_TAG) == if q.Matching? then Matching(9) else Broken
  {
    if q.Matching? {
      assert Step(strict, q, '<') == Matching(1);
      OpenerSteps(strict, 1);
    } else {
      OpenerBreaks(strict, q.started);
    }
  }

  lemma OpenerBreaks(strict: bool, started: bool)
    ensures Run(strict, Name(started), ANCHOR_TAG) == Broken
  {
    assert "<a" + " href=\"" == ANCHOR_TAG;
    SpaceBreaks(strict, started, "<a", " href=\"");
  }

  lemma SpaceBreaks(strict: bool, started: bool, a: string, b: string)
    requires NameChars(strict, a) && b != "" && b[0] == ' '
    ensures Run(strict, Name(started), a + b) == Broken
  {
    RunJoin(strict, Name(started), a, b);
    NameRun(strict, started, a);
    Sticks(strict, Broken, b[1..]);
  }

  lemma {:induction false} OpenerSteps(strict: bool, i: nat)
    requires i <= 9
    ensures Run(strict, Matching(i), ANCHOR_TAG[i..]) == Matching(9)
    decreases 9 - i
  {
    if i < 9 {
      assert ANCHOR_TAG[i..][1..] == ANCHOR_TAG[i + 1..];
      OpenerSteps(strict, i + 1);
    }
  }

  /** The end of the opening tag of a link. */
  lemma TailRun(strict: bool, q: State, href: string)
    requires q.Matching? && q.k <= 2
    ensures Run(strict, q, AnchorTail(href)) == START
  {
    var s := AnchorTail(href);
    assert s[0] == '"' && Step(strict, q, s[0]) == START;
    assert Lacks(NEW_TAB, '<') && Lacks(NO_REFERRER, '<');
    Quiet(strict, s[1..]);
  }

  lemma CloserRun(strict: bool, q: State)
    ensures Run(strict, q, "</a>") == Passed(q)
  {
    PassedRun(strict, q, "</a>");
  }

  /** A link leaves the scan in the state its caption leaves it in, but must not begin in a name. */
  lemma AnchorRun(strict: bool, q: State, href: string, caption: string)
    requires IsTarget(strict, href)
    ensures Run(strict, q, Anchor(href, caption)) ==
            if q.Matching? then Passed(Run(strict, START, caption)) else if q.Name? then Broken else q
  {
    hide IsTarget, Run, Step;
    var opener, tail := ANCHOR_TAG, AnchorTail(href);
    RunJoin(strict, q, opener + href + tail + caption, "</a>");
    RunJoin(strict, q, opener + href + tail, caption);
    RunJoin(strict, q, opener + href, tail);
    RunJoin(strict, q, opener, href);
    if q.Matching? || q.Name? {
      OpenerRun(strict, q);
    }
    if q.Matching? {
      TargetRun(strict, href);
      TailRun(strict, Run(strict, Matching(9), href), href);
      CloserRun(strict, Run(strict, START, caption));
    } else {
      var p := if q.Name? then Broken else q;
      Sticks(strict, p, opener);
      Sticks(strict, p, href);
      Sticks(strict, p, tail);
      Sticks(strict, p, caption);
      Sticks(strict, p, "</a>");
    }
  }

  /** What is let through is a target in the sense of the scan. */
  lemma TargetOf(url: string)
    requires SafeHref(url).Some?
    ensures IsTarget(false, SafeHref(url).value)
  {
    var href := SafeHref(url).value;
    assert forall k :: 0 <= k < |href| ==> !IsControl(href[k]);
    if HasFold(href, 0, MAIL) {
      var at := RunEnd(href, 7, MailName);
      assert forall k :: 0 <= k < at - 7 ==> href[7..at][k] == href[7 + k] && In(href[7 + k], MailName);
    }
  }
}
