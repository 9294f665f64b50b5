/** Every pass keeps a text in which only the renderer's own tags stand. */
module PassSafety {
  import opened Text
  import opened Patterns
  import opened Links
  import opened Placeholders
  import opened Rewriting
  import opened TagSafety

  // ----- texts the rules emit

  lemma Untagged(s: string)
    requires Lacks(s, '<')
    ensures OnlyOwnTags(s)
  {
  }

  lemma OneTag(t: string)
    requires IsFixedTag(t)
    ensures OnlyOwnTags(t) && t != "" && t[0] == '<' && t[|t| - 1] != '/'
  {
    hide IsFixedTag, LacksSpaceH;
    FixedTagShape(t);
    assert t[0..0 + |t|] == t;
    assert FixedTagAt(t, 0);
    assert forall k :: 1 <= k < |t| ==> TagChar(t[k]);
  }

  lemma AnchorTailUntagged(href: string)
    ensures Lacks(AnchorTail(href), '<')
    ensures AnchorTail(href)[0] == '"' && AnchorTail(href)[|AnchorTail(href)| - 1] == '>'
  {
    assert Lacks(NEW_TAB, '<');
    assert Lacks(NO_REFERRER, '<');
  }

  /** Emitted markup begins with `<` and ends with `>`, so no `//` arises around it. */
  ghost predicate IsMarkupText(html: string) {
    html != "" && html[0] == '<' && html[|html| - 1] == '>' && OnlyOwnTags(html)
  }

  lemma MarkupJoin(a: string, html: string, b: string)
    requires OnlyOwnTags(a) && IsMarkupText(html) && OnlyOwnTags(b)
    ensures OnlyOwnTags(a + html + b)
  {
    hide OnlyOwnTags;
    TagsJoin(a, html);
    TagsJoin(a + html, b);
  }

  lemma ElementSafe(tag: string, body: string)
    requires IsFixedTag("<" + tag + ">") && IsFixedTag("</" + tag + ">")
    requires OnlyOwnTags(body)
    ensures IsMarkupText(Element(tag, body))
  {
    hide OnlyOwnTags, IsFixedTag;
    var open, close := "<" + tag + ">", "</" + tag + ">";
    OneTag(open);
    OneTag(close);
    TagsJoin(open, body);
    TagsJoin(open + body, close);
    assert Element(tag, body) == open + body + close;
  }

  lemma AnchorOpenerSafe(href: string)
    requires SafeTarget(href, 0) && OnlyOwnTags(href)
    ensures OnlyOwnTags(ANCHOR_TAG + href)
  {
    hide FixedTagAt, SafeTarget;
    var s := ANCHOR_TAG + href;
    assert s[0..9] == ANCHOR_TAG;
    SafeTargetShifts(ANCHOR_TAG, href, 0);
    forall i | 0 <= i < |s| && s[i] == '<' ensures TagAt(s, i) {
      if i >= 9 {
        TagAtShifts(ANCHOR_TAG, href, i - 9);
      }
    }
  }

  lemma FourJoin(a: string, b: string, c: string, d: string)
    requires OnlyOwnTags(a) && OnlyOwnTags(b) && OnlyOwnTags(c) && OnlyOwnTags(d)
    requires b != "" && b[0] != '/' && b[|b| - 1] != '/'
    requires d != "" && d[0] != '/'
    ensures OnlyOwnTags(a + b + c + d)
  {
    hide OnlyOwnTags;
    TagsJoin(a, b);
    TagsJoin(a + b, c);
    TagsJoin(a + b + c, d);
  }

  lemma AnchorEndSafe()
    ensures OnlyOwnTags("</a>")
  {
    OneTag("</a>");
  }

  lemma AnchorSafe(href: string, caption: string)
    requires SafeTarget(href, 0) && OnlyOwnTags(href) && OnlyOwnTags(caption)
    ensures IsMarkupText(Anchor(href, caption))
  {
    hide OnlyOwnTags, IsFixedTag, SafeTarget;
    AnchorOpenerSafe(href);
    AnchorTailUntagged(href);
    Untagged(AnchorTail(href));
    AnchorEndSafe();
    FourJoin(ANCHOR_TAG + href, AnchorTail(href), caption, "</a>");
  }

  lemma ImageSafe(src: string, alt: string)
    requires LocalTarget(src, 0) && Lacks(src, '<') && Lacks(alt, '<')
    ensures IsMarkupText(ImageElement(src, alt))
  {
    var opener := IMAGE_TAG + src;
    forall i | 0 <= i < |opener| && opener[i] == '<' ensures TagAt(opener, i) {
      assert opener[0..10] == IMAGE_TAG;
      LocalTargetShifts(IMAGE_TAG, src, 0);
    }
    Untagged(ImageTail(alt));
    TagsJoin(opener, ImageTail(alt));
  }

  lemma NoteTags()
    ensures IsFixedTag(NOTE_TAG) && IsFixedTag("</span>")
  {
  }

  lemma NoteSafe()
    ensures OnlyOwnTags(NOTE) && NOTE[0] == ' ' && NOTE[|NOTE| - 1] == '>'
  {
    hide OnlyOwnTags, IsFixedTag;
    Untagged(" ");
    Untagged(NOTE_TEXT);
    NoteTags();
    OneTag(NOTE_TAG);
    OneTag("</span>");
    FourJoin(" ", NOTE_TAG, NOTE_TEXT, "</span>");
  }

  // ----- the premises of the rules

  /** What stands between the tags of a lifted code span: escaped text. */
  ghost predicate IsCodeSpan(span: string) {
    exists code :: span == CodeElement(code) && Lacks(code, '<') && Lacks(code, NUL)
  }

  ghost predicate CodeSpans(spans: seq<string>) {
    forall k :: 0 <= k < |spans| ==> IsCodeSpan(spans[k])
  }

  ghost predicate NoTagsFrom(href: nat -> string) {
    forall n: nat :: Lacks(href(n), '<')
  }

  /**
   The image rule sees the escaped line, which holds no `<` at all; issue links
   must come without `<`, which is the caller's side of the bargain.
   */
  ghost predicate Premise(rule: Rule, s: string) {
    && Applies(rule, s)
    && (rule.Image? ==> Lacks(s, '<') && CodeSpans(rule.spans))
    && (rule.Issue? ==> NoTagsFrom(rule.href))
  }

  lemma PlainLacks(s: string, spans: seq<string>)
    requires Disciplined(s, |spans|) && Lacks(s, '<') && CodeSpans(spans)
    ensures Lacks(Plain(s, spans), '<') && Lacks(Plain(s, spans), NUL)
  {
    var values := seq(|spans|, k requires 0 <= k < |spans| => StripCode(spans[k]));
    forall k | 0 <= k < |spans| ensures Lacks(values[k], '<') && Lacks(values[k], NUL) {
      assert IsCodeSpan(spans[k]);
      var code :| spans[k] == CodeElement(code) && Lacks(code, '<') && Lacks(code, NUL);
      StripCodeElement(code);
    }
    SymbolsLack(s, '<');
    assert forall symbol <- Symbols(s) :: IsSound(symbol, |values|);
    FillLacks(Symbols(s), values, '<');
    FillLacksNul(s, values);
  }

  lemma TrimmedHref(s: string, a: nat, b: nat)
    requires a <= b <= |s| && AllIn(s, a, b, Target) && SafeHref(s[a..b]).Some?
    ensures SafeHref(s[a..b]).value == s[a..b]
  {
    hide IsAllowed;
    var url := s[a..b];
    assert Trim("") == "";
    if url != "" {
      assert url[0] == s[a] && url[|url| - 1] == s[b - 1];
      TrimFixed(url);
    }
  }

  /** A safe target cut out of a text is itself free of foreign tags. */
  lemma HrefSafe(s: string, a: nat, b: nat)
    requires OnlyOwnTags(s) && a <= b < |s| && s[b] == ')' && AllIn(s, a, b, Target)
    requires SafeHref(s[a..b]).Some?
    ensures SafeHref(s[a..b]).value == s[a..b] && SafeTarget(s[a..b], 0) && OnlyOwnTags(s[a..b])
  {
    hide OnlyOwnTags, SafeHref, SafeTarget, IsAllowed;
    SafeHrefSound(s[a..b]);
    TrimmedHref(s, a, b);
    SliceSafe(s, a, b);
  }

  lemma SliceSafe(s: string, a: nat, b: nat)
    requires OnlyOwnTags(s) && a <= b <= |s| && (b < |s| ==> !TagChar(s[b]))
    ensures OnlyOwnTags(s[a..b])
  {
    CutBefore(s, b);
    TagsSplit(s, a, b);
  }

  // ----- rule by rule

  /** A replacement cuts no tag and puts well-behaved markup in its place. */
  ghost predicate SafeHit(s: string, hit: Hit) {
    hit.Replace? ==> hit.from <= |s| && TagCut(s, hit.from) && IsMarkupText(hit.html)
  }

  lemma LinkHitSafe(s: string, i: nat)
    requires i < |s| && OnlyOwnTags(s) && LinkHit(s, i).Some?
    ensures SafeHit(s, LinkHit(s, i).value)
  {
    hide OnlyOwnTags, SafeHref, Anchor, TagCut;
    var (j, k) := BracketAt(s, i).value;
    if SafeHref(s[j + 2..k]).Some? {
      HrefSafe(s, j + 2, k);
      SliceSafe(s, i + 1, j);
      CutBefore(s, i);
      AnchorSafe(s[j + 2..k], if s[i + 1..j] == "" then s[j + 2..k] else s[i + 1..j]);
    }
  }

  lemma LocalImageSafe(url: string, alt: string, spans: seq<string>)
    requires Disciplined(url, |spans|) && Disciplined(alt, |spans|) && CodeSpans(spans)
    requires Lacks(url, '<') && Lacks(url, NUL) && Lacks(alt, '<') && LocalTarget(url, 0)
    ensures IsMarkupText(ImageElement(Plain(url, spans), Plain(alt, spans)))
  {
    PlainText(url, seq(|spans|, n requires 0 <= n < |spans| => StripCode(spans[n])));
    PlainLacks(alt, spans);
    ImageSafe(url, Plain(alt, spans));
  }

  lemma RemoteImageSafe(url: string, caption: string)
    requires Lacks(url, '<') && Lacks(caption, '<') && SafeTarget(url, 0)
    ensures IsMarkupText(Anchor(url, caption) + NOTE)
  {
    hide SafeTarget, Anchor, NOTE;
    Untagged(url);
    Untagged(caption);
    AnchorSafe(url, caption);
    NoteSafe();
    TagsJoin(Anchor(url, caption), NOTE);
  }

  lemma ImageUrlShape(s: string, j: nat, k: nat)
    requires Lacks(s, '<') && j + 2 <= k < |s| && s[k] == ')' && AllIn(s, j + 2, k, Target)
    requires SafeHref(s[j + 2..k]).Some?
    ensures var url := s[j + 2..k];
            SafeHref(url).value == url && Lacks(url, '<') && Lacks(url, NUL) && SafeTarget(url, 0)
  {
    hide OnlyOwnTags, SafeHref, SafeTarget;
    Untagged(s);
    HrefSafe(s, j + 2, k);
    SafeHrefSound(s[j + 2..k]);
  }

  /** The markup for an image, whether it is shown or replaced by a link. */
  lemma ImageTextSafe(url: string, alt: string, spans: seq<string>)
    requires Lacks(url, '<') && Lacks(url, NUL) && SafeTarget(url, 0) && Lacks(alt, '<')
    requires CodeSpans(spans) && Disciplined(alt, |spans|)
    ensures Disciplined(url, |spans|) && IsMarkupText(ImageText(url, alt, spans))
  {
    hide OnlyOwnTags;
    PlainText(url, spans);
    if LocalTarget(url, 0) {
      LocalImageSafe(url, alt, spans);
    } else {
      RemoteImageSafe(url, if alt == "" then url else alt);
    }
  }

  lemma ImageHtmlSafe(s: string, i: nat, j: nat, k: nat, spans: seq<string>)
    requires Lacks(s, '<') && CodeSpans(spans) && Disciplined(s, |spans|) && Bracket(s, i + 1, j, k)
    requires ImageHtml(s, i, j, k, spans).Some?
    ensures IsMarkupText(ImageHtml(s, i, j, k, spans).value)
  {
    hide OnlyOwnTags, Disciplined, Lacks, CodeSpans, ImageText, SafeTarget;
    var url, alt := s[j + 2..k], s[i + 2..j];
    DisciplinedSlice(s, i + 2, j, |spans|);
    ImageUrlShape(s, j, k);
    SliceLacks(s, i + 2, j, '<');
    ImageTextSafe(url, alt, spans);
  }

  lemma ImageHitMarkup(s: string, i: nat, spans: seq<string>)
    requires i < |s| && Disciplined(s, |spans|) && Lacks(s, '<') && CodeSpans(spans)
    requires ImageHit(s, i, spans).Some? && ImageHit(s, i, spans).value.Replace?
    ensures IsMarkupText(ImageHit(s, i, spans).value.html)
    ensures ImageHit(s, i, spans).value.from == i && s[i] == '!'
  {
    hide OnlyOwnTags, ImageHtml;
    var (j, k) := BracketAt(s, i + 1).value;
    ImageHtmlSafe(s, i, j, k, spans);
  }

  lemma ImageHitSafe(s: string, i: nat, spans: seq<string>)
    requires i < |s| && Premise(Image(spans), s) && ImageHit(s, i, spans).Some?
    ensures SafeHit(s, ImageHit(s, i, spans).value)
  {
    hide OnlyOwnTags, ImageHtml, CodeSpans, Disciplined;
    if ImageHit(s, i, spans).value.Replace? {
      ImageHitMarkup(s, i, spans);
      CutBefore(s, i);
    }
  }

  /** A pasted URL begins with its scheme and holds no tag. */
  lemma BareUrlShape(s: string, b: nat, e: nat)
    requires BareUrl(s, b, e)
    ensures Lacks(s[b..e], '<') && SafeTarget(s[b..e], 0) && Has(s, b, "ht")
  {
    var url := s[b..e];
    var q := SchemeEnd(s, b).value;
    var scheme := s[b..q];
    assert scheme == "http://" || scheme == "https://";
    assert s[b..b + 2] == scheme[..2] == "ht";
    assert forall k :: 0 <= k < |scheme| ==> url[0 + k] == scheme[k];
    assert HasFold(url, 0, scheme);
    assert Lacks(scheme, '<');
    forall k | 0 <= k < |url| ensures url[k] != '<' {
      assert b + k < q ==> url[k] == scheme[k];
      assert q <= b + k ==> In(s[b + k], BareTarget);
    }
  }

  lemma UrlHitSafe(s: string, b: nat)
    requires b <= |s| && OnlyOwnTags(s) && UrlHitFrom(s, b).Some? && (b > 0 ==> Opens(s[b - 1]))
    ensures SafeHit(s, UrlHitFrom(s, b).value)
  {
    hide OnlyOwnTags, Anchor;
    var e := BareUrlAt(s, b).value;
    BareUrlShape(s, b, e);
    CutBehindOpening(s, b);
    Untagged(s[b..e]);
    AnchorSafe(s[b..e], s[b..e]);
  }

  lemma HrefUntagged(given: string)
    requires Lacks(given, '<') && SafeHref(given).Some?
    ensures Lacks(SafeHref(given).value, '<')
  {
    hide SafeHref, IsAllowed, SafeTarget;
    SafeHrefSound(given);
    var a: nat, b: nat :| a <= b <= |given| && SafeHref(given).value == given[a..b];
  }

  lemma IssueAnchorSafe(given: string, number: string)
    requires Lacks(given, '<') && Lacks(number, '<') && SafeHref(given).Some?
    ensures IsMarkupText(Anchor(SafeHref(given).value, "#" + number))
  {
    hide SafeHref, IsAllowed, SafeTarget, OnlyOwnTags, Anchor;
    SafeHrefSound(given);
    HrefUntagged(given);
    Untagged(SafeHref(given).value);
    Untagged("#" + number);
    AnchorSafe(SafeHref(given).value, "#" + number);
  }

  lemma IssueHitSafe(s: string, b: nat, href: nat -> string)
    requires b <= |s| && OnlyOwnTags(s) && NoTagsFrom(href)
    requires IssueHitFrom(s, b, href).Some? && (b > 0 ==> Opens(s[b - 1]))
    ensures SafeHit(s, IssueHitFrom(s, b, href).value)
  {
    hide OnlyOwnTags, SafeHref, Anchor;
    var e := IssueNumberAt(s, b).value;
    var number := s[b + 1..e];
    assert forall k :: 0 <= k < |number| ==> number[k] == s[b + 1 + k] && In(s[b + 1 + k], Digit);
    if IssueHitFrom(s, b, href).value.Replace? {
      CutBehindOpening(s, b);
      IssueAnchorSafe(href(Value(number)), number);
    }
  }

  lemma SpanHitSafe(s: string, i: nat, mark: char, width: nat, tag: string)
    requires i < |s| && OnlyOwnTags(s) && 1 <= width <= 2 && !TagChar(mark)
    requires SpanHit(s, i, mark, width, tag).Some?
    requires IsFixedTag("<" + tag + ">") && IsFixedTag("</" + tag + ">")
    ensures SafeHit(s, SpanHit(s, i, mark, width, tag).value)
  {
    hide OnlyOwnTags, Element;
    var j := SpanAt(s, i, mark, width).value;
    CutBefore(s, i);
    SliceSafe(s, i + width, j);
    ElementSafe(tag, s[i + width..j]);
  }

  lemma EmphasisHitSafe(s: string, b: nat)
    requires b <= |s| && OnlyOwnTags(s) && EmphasisHitFrom(s, b).Some?
    ensures SafeHit(s, EmphasisHitFrom(s, b).value)
  {
    hide OnlyOwnTags, Element;
    var j := SpanAt(s, b, '*', 1).value;
    CutBefore(s, b);
    SliceSafe(s, b + 1, j);
    assert "<" + "em" + ">" == "<em>" && "</" + "em" + ">" == "</em>";
    ElementSafe("em", s[b + 1..j]);
  }

  lemma UrlRuleSafe(s: string, i: nat)
    requires i < |s| && OnlyOwnTags(s) && UrlHit(s, i).Some?
    ensures SafeHit(s, UrlHit(s, i).value)
  {
    UrlHitSafe(s, UrlStart(s, i).value);
  }

  lemma IssueRuleSafe(s: string, i: nat, href: nat -> string)
    requires i < |s| && OnlyOwnTags(s) && NoTagsFrom(href) && IssueHit(s, i, href).Some?
    ensures SafeHit(s, IssueHit(s, i, href).value)
  {
    IssueHitSafe(s, IssueStart(s, i).value, href);
  }

  lemma EmphasisRuleSafe(s: string, i: nat)
    requires i < |s| && OnlyOwnTags(s) && EmphasisHit(s, i).Some?
    ensures SafeHit(s, EmphasisHit(s, i).value)
  {
    EmphasisHitSafe(s, EmphasisStart(s, i).value);
  }

  lemma ElementTags()
    ensures IsFixedTag("<" + "strong" + ">") && IsFixedTag("</" + "strong" + ">")
    ensures IsFixedTag("<" + "del" + ">") && IsFixedTag("</" + "del" + ">")
  {
    assert "<" + "strong" + ">" == "<strong>" && "</" + "strong" + ">" == "</strong>";
    assert "<" + "del" + ">" == "<del>" && "</" + "del" + ">" == "</del>";
  }

  lemma HitSafe(rule: Rule, s: string, i: nat)
    requires i < |s| && Premise(rule, s) && OnlyOwnTags(s) && HitAt(rule, s, i).Some?
    ensures SafeHit(s, HitAt(rule, s, i).value)
  {
    hide OnlyOwnTags;
    match rule
    case Image(spans) => ImageHitSafe(s, i, spans);
    case Link => LinkHitSafe(s, i);
    case PastedUrl => UrlRuleSafe(s, i);
    case Issue(href) => IssueRuleSafe(s, i, href);
    case Strong => ElementTags(); SpanHitSafe(s, i, '*', 2, "strong");
    case Emphasis => EmphasisRuleSafe(s, i);
    case Deleted => ElementTags(); SpanHitSafe(s, i, '~', 2, "del");
  }

  /** One step of the pass; s[a..i) is text the pass has gone over without replacing it. */
  lemma StepSafe(s: string, a: nat, i: nat, hit: Hit, rest: string)
    requires OnlyOwnTags(s) && a <= i < |s| && InBounds(hit, s, i) && hit.Replace? && SafeHit(s, hit)
    requires OnlyOwnTags(rest)
    ensures OnlyOwnTags(s[a..i] + (s[i..hit.from] + hit.html + rest))
  {
    hide OnlyOwnTags;
    TagsSplit(s, a, hit.from);
    MarkupJoin(s[a..hit.from], hit.html, rest);
    var kept, gap := s[a..i], s[i..hit.from];
    assert kept + gap == s[a..hit.from];
    assert kept + (gap + hit.html + rest) == (kept + gap) + hit.html + rest;
  }

  lemma {:induction false} RewriteSafe(rule: Rule, s: string, a: nat, i: nat)
    requires a <= i <= |s| && Premise(rule, s) && OnlyOwnTags(s)
    ensures OnlyOwnTags(s[a..i] + Rewrite(rule, s, i))
    decreases |s| - i
  {
    hide OnlyOwnTags, HitAt;
    if i == |s| {
      SliceSafe(s, a, i);
      assert s[a..i] + "" == s[a..i];
    } else {
      var hit := HitAt(rule, s, i);
      if hit.Some? && hit.value.Replace? {
        var end := hit.value.end;
        HitSafe(rule, s, i);
        RewriteSafe(rule, s, end, end);
        assert s[end..end] + Rewrite(rule, s, end) == Rewrite(rule, s, end);
        StepSafe(s, a, i, hit.value, Rewrite(rule, s, end));
      } else {
        SkipKeeps(rule, s, a, i);
        RewriteSafe(rule, s, a, SkipTo(rule, s, i));
      }
    }
  }

  /** No pass lets anything but the renderer's own tags into the text. */
  lemma PassKeepsOwnTags(rule: Rule, s: string)
    requires Premise(rule, s) && OnlyOwnTags(s)
    ensures OnlyOwnTags(Rewrite(rule, s, 0))
  {
    RewriteSafe(rule, s, 0, 0);
    assert s[0..0] + Rewrite(rule, s, 0) == Rewrite(rule, s, 0);
  }
}
