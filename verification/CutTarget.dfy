/**
 A text whose link loses its target: the name of the mail address holds
 `(#1`, which the issue pass takes for an issue number.
 */
module CutTarget {
  import opened Text
  import opened Escaping
  import opened Patterns
  import opened Links
  import opened Lines
  import opened Placeholders
  import opened Rewriting
  import opened RuleShapes
  import opened PassMatches
  import opened TagSafety
  import opened PassSafety
  import opened Inline
  import opened Renderer
  import opened BlockShapes
  import opened Literals
  import opened MailScan

  const TYPED := "[x](mailto:(#1@b)"
  const ADDRESS := "mailto:(#1@b"
  const LINKED := "<a href=\"mailto:(#1@b\">x</a>"
  const ISSUE_LINK := "<a href=\"/1\">#1</a>"
  const CUT := "<a href=\"mailto:(" + ISSUE_LINK + "@b\">x</a>"

  /** Every issue is found under the same path. */
  const OPTIONS := Options(Some((number: nat) => "/1"))

  // ----- the text reaches the line compiler as it was typed

  ghost predicate IsPlain(s: string) {
    forall k :: 0 <= k < |s| ==> ' ' <= s[k] < '\U{007F}' && Entity(s[k]) == [s[k]] && s[k] != '`'
  }

  lemma {:induction false} PlainKept(s: string)
    requires IsPlain(s)
    ensures Strip(s) == s && Normalize(s) == s && SplitLines(s) == [s] && EscapeHtml(s) == s
  {
    if s != "" {
      PlainKept(s[1..]);
      NormalizeUnfold(s);
      assert s == [s[0]] + s[1..];
    }
  }

  lemma {:induction false} NothingLifted(s: string, i: nat)
    requires i <= |s| && Lacks(s, '`')
    ensures Lift(s, i, []) == Lifted(s[i..], [])
    decreases |s| - i
  {
    if i < |s| {
      NothingLifted(s, i + 1);
      assert s[i..] == [s[i]] + s[i + 1..];
    }
  }

  lemma LacksFree(s: string, lit: string, k: nat)
    requires k < |lit| && Lacks(s, lit[k])
    ensures Free(false, s, lit)
  {
    forall p: nat ensures !Found(false, s, p, lit) {
      assert p + k < |s| ==> Folded(false, s[p + k]) != lit[p + k - p];
    }
  }

  // ----- the passes

  lemma AllowedSafe(url: string)
    requires IsAllowed(url) && url != "" && forall k :: 0 <= k < |url| ==> ' ' < url[k] < '\U{007F}'
    ensures SafeHref(url) == Some(url)
  {
    hide IsAllowed;
    TrimFixed(url);
  }

  lemma AddressIsMail()
    ensures MailTarget(ADDRESS)
  {
    var url := ADDRESS;
    assert forall k :: 0 <= k < 7 ==> LowerAscii(url[0 + k]) == MAIL[k];
    RunEndsAt(url, 7, 10, MailName);
  }

  lemma MailAllowed(url: string)
    requires MailTarget(url)
    ensures IsAllowed(url)
  {
  }

  lemma AddressAllowed()
    ensures SafeHref(ADDRESS) == Some(ADDRESS)
  {
    hide IsAllowed, MailTarget, SafeHref;
    AddressIsMail();
    MailAllowed(ADDRESS);
    AllowedSafe(ADDRESS);
  }

  lemma PathAllowed()
    ensures SafeHref("/1") == Some("/1")
  {
    hide SafeHref;
    assert IsAllowed("/1") by {
      assert Has("/1", 0, "/");
    }
    AllowedSafe("/1");
  }

  lemma LinkBracket()
    ensures Bracket(TYPED, 0, 2, 16) && TYPED[4..16] == ADDRESS && TYPED[1..2] == "x" && |TYPED| == 17
  {
    var caption := TYPED[1..2];
    assert caption[0] == 'x' && |caption| == 1;
  }

  lemma PlainTail(href: string)
    requires href != "" && LowerAscii(href[0]) != 'h'
    ensures AnchorTail(href) == "\">"
  {
    CharOf(href, 0, "http://", 0);
    CharOf(href, 0, "https://", 0);
  }

  lemma LinkText()
    ensures Anchor(ADDRESS, "x") == LINKED
  {
    hide AnchorTail;
    PlainTail(ADDRESS);
  }

  lemma LinkWritten()
    ensures Rewrite(Link, TYPED, 0) == LINKED
  {
    hide SafeHref, Anchor, Bracket, Rewrite;
    AddressAllowed();
    LinkBracket();
    LinkText();
    LinkExact(TYPED, 0);
    OneMatch(Link, TYPED, 0, Replace(0, 17, LINKED));
  }

  /** A pass with a single match. */
  lemma OneMatch(rule: Rule, s: string, at: nat, hit: Hit)
    requires Applies(rule, s) && at < |s| && HitAt(rule, s, at) == Some(hit) && hit.Replace?
    requires NoMatch(rule, s, 0, at) && NoMatch(rule, s, hit.end, |s|)
    ensures Rewrite(rule, s, 0) == s[..hit.from] + hit.html + s[hit.end..]
  {
    hide HitAt, Rewrite;
    var matches := [Match(at, hit)];
    assert matches[1..] == [];
    assert AreMatches(rule, s, hit.end, []);
    assert AreMatches(rule, s, 0, matches);
    RewriteIsReplacement(rule, s, 0, matches);
    assert Replaced(s, hit.end, []) == s[hit.end..];
  }

  lemma IssueLinkText()
    ensures Anchor("/1", "#" + "1") == ISSUE_LINK
  {
  }

  lemma IssueNumberText()
    ensures var s := LINKED;
            |s| == 28 && IssueNumber(s, 17, 19) && s[16] == '(' && s[18..19] == "1" && s[0] != '#' && s[3] != '#'
            && s[..17] == "<a href=\"mailto:(" && s[19..] == "@b\">x</a>"
  {
  }

  lemma Openings()
    ensures |LINKED| == 28 && forall k :: 0 <= k < 28 && Opens(LINKED[k]) ==> k == 2 || k == 16
  {
  }

  lemma NoIssueAt(s: string, k: nat, href: nat -> string)
    requires k < |s| && s[0] != '#' && (Opens(s[k]) ==> k + 1 < |s| && s[k + 1] != '#')
    ensures HitAt(Issue(href), s, k).None?
  {
  }

  lemma IssueAt(s: string, k: nat, e: nat, href: nat -> string)
    requires k + 1 < e <= |s| && s[0] != '#' && Opens(s[k]) && IssueNumber(s, k + 1, e) && s[k + 2..e] == "1"
    requires href(1) == "/1"
    ensures HitAt(Issue(href), s, k) == Some(Replace(k + 1, e, ISSUE_LINK))
  {
    hide Anchor, SafeHref, IssueNumber;
    PathAllowed();
    IssueLinkText();
    assert IssueNumberAt(s, k + 1) == Some(e);
    assert "1"[..0] == "" && Value("") == 0 && Value("1") == 1;
  }

  lemma IssueWritten()
    ensures Rewrite(Issue(OPTIONS.issueHref.value), LINKED, 0) == CUT
  {
    hide SafeHref, Anchor, HitAt, IssueNumber, Rewrite;
    var s, href := LINKED, OPTIONS.issueHref.value;
    IssueNumberText();
    Openings();
    IssueAt(s, 16, 19, href);
    forall k | 0 <= k < 28 && k != 16 ensures HitAt(Issue(href), s, k).None? {
      NoIssueAt(s, k, href);
    }
    OneMatch(Issue(href), s, 16, Replace(17, 19, ISSUE_LINK));
  }

  lemma NoSpan(s: string, i: nat, mark: char, width: nat)
    requires i <= |s| && Lacks(s, mark) && 1 <= width <= 2
    ensures SpanAt(s, i, mark, width).None?
  {
    assert i < |s| ==> !In(s[i], Only(mark));
  }

  lemma NoMarkAt(rule: Rule, s: string, i: nat)
    requires rule.Strong? || rule.Emphasis? || rule.Deleted?
    requires Lacks(s, '*') && Lacks(s, '~') && i < |s|
    ensures HitAt(rule, s, i).None?
  {
    hide SpanAt, Element;
    match rule {
      case Strong => NoSpan(s, i, '*', 2);
      case Deleted => NoSpan(s, i, '~', 2);
      case Emphasis =>
        NoSpan(s, 0, '*', 1);
        NoSpan(s, i + 1, '*', 1);
    }
  }

  lemma NoMarks(rule: Rule, s: string)
    requires rule.Strong? || rule.Emphasis? || rule.Deleted?
    requires Lacks(s, '*') && Lacks(s, '~')
    ensures Rewrite(rule, s, 0) == s
  {
    hide HitAt, Rewrite;
    forall i | 0 <= i < |s| ensures HitAt(rule, s, i).None? {
      NoMarkAt(rule, s, i);
    }
    NothingReplaced(rule, s, 0);
    assert s[0..] == s;
  }

  // ----- the output

  lemma Characters()
    ensures IsPlain(TYPED) && TYPED[0] == '[' && Lacks(TYPED, '!') && Lacks(TYPED, '`') && Lacks(TYPED, NUL) && Lacks(TYPED, '<')
  {
  }

  lemma MarkupCharacters()
    ensures Lacks(LINKED, 'p') && Lacks(CUT, '*') && Lacks(CUT, '~') && Lacks(CUT, NUL)
  {
  }

  lemma Compile(typed: string, linked: string, cut: string)
    requires Lacks(typed, NUL) && Lacks(typed, '<') && Lacks(typed, '!') && Lacks(typed, '`') && Rewrite(Link, typed, 0) == linked
    requires Lacks(linked, 'p') && Rewrite(Issue(OPTIONS.issueHref.value), linked, 0) == cut
    requires Lacks(cut, '*') && Lacks(cut, '~') && Lacks(cut, NUL)
    ensures InlineHtml(typed, OPTIONS) == cut
  {
    hide Rewrite, Disciplined, RunPasses, Free;
    NothingLifted(typed, 0);
    assert typed[0..] == typed;
    LiftDisciplined(typed, 0, []);
    LacksFree(typed, "![", 0);
    NoImagesIn(typed, []);
    LacksFree(linked, "http://", 3);
    LacksFree(linked, "https://", 3);
    NoPastedUrls(linked);
    HeadPasses(OPTIONS, typed);
    TailPasses(cut);
    NoMarks(Strong, cut);
    NoMarks(Emphasis, cut);
    NoMarks(Deleted, cut);
    CompiledDisciplined(typed, OPTIONS);
    PlainText(cut, []);
  }

  lemma TypedIsProse()
    ensures IsProse(TYPED)
  {
    hide IsFence, IsBlank, IsHeading, IsRuleLine, IsQuote, IsBullet, IsNumbered;
    assert Begins(TYPED, 0);
    ShapesBegin(TYPED, 0);
  }

  lemma OneParagraph(line: string)
    requires IsPlain(line) && IsProse(line) && |line| <= MAX_INPUT
    ensures Lacks(line, NUL) && Rendered(line, OPTIONS) == "<p>" + LineHtml(line, OPTIONS) + "</p>"
  {
    hide LineHtml, IsProse, ParagraphHtml, Strip, Normalize, SplitLines, ChunkHtml;
    PlainKept(line);
    var lines := [line];
    assert Lacks(lines[0], NUL);
    assert SourceLines(line) == lines;
    ParagraphBlock(lines, OPTIONS, 1);
    assert lines[..1] == lines && lines[1..] == [];
    ParagraphText(lines, OPTIONS);
    var parts := seq(1, k requires 0 <= k < 1 => LineHtml(lines[k], OPTIONS));
    assert Join(parts, "<br>") == LineHtml(line, OPTIONS);
  }

  lemma LineIsCut()
    ensures IsPlain(TYPED) && IsProse(TYPED) && Lacks(TYPED, NUL) && LineHtml(TYPED, OPTIONS) == CUT
  {
    hide InlineHtml, Rewrite, EscapeHtml, IsProse, IsPlain;
    Characters();
    MarkupCharacters();
    TypedIsProse();
    PlainKept(TYPED);
    LinkWritten();
    IssueWritten();
    Compile(TYPED, LINKED, CUT);
  }

  /**
   The output of the text: the link to the mail address ends in the middle of
   its name, and what is left of it is no target that the allow-list admits.
   */
  lemma TargetIsCut()
    ensures var html := Rendered(TYPED, OPTIONS);
            && html == "<p>" + CUT + "</p>"
            && Has(html, 3, ANCHOR_TAG) && !IsAllowed(html[12..])
  {
    hide Rendered, LineHtml, IsPlain, IsProse;
    LineIsCut();
    OneParagraph(TYPED);
    CutText("<p>" + CUT + "</p>");
  }

  lemma CutText(html: string)
    requires html == "<p>" + CUT + "</p>"
    ensures Has(html, 3, ANCHOR_TAG) && !IsAllowed(html[12..])
  {
    hide IsAllowed;
    var rest := html[12..];
    assert html[3..12] == ANCHOR_TAG;
    assert rest[0] == 'm' && rest[7] == '(' && rest[8] == '<' && rest[9] == 'a' && rest[10] == ' ';
    SpaceInName(rest, 10);
  }

  lemma SpaceInName(rest: string, e: nat)
    requires 7 <= e < |rest| && rest[0] == 'm' && AllIn(rest, 7, e, MailName) && rest[e] == ' '
    ensures !IsAllowed(rest)
  {
    RunEndsAt(rest, 7, e, MailName);
    CharOf(rest, 0, "http://", 0);
    CharOf(rest, 0, "https://", 0);
    CharOf(rest, 0, "/", 0);
    CharOf(rest, 0, "#", 0);
    CharOf(rest, 0, "./", 0);
    CharOf(rest, 0, "../", 0);
  }
}
