/**
 Placeholders go through the passes whole: no pass splits one or invents an
 index, and all but the image and pasted-URL passes leave their sequence alone.
 */
module PassDiscipline {
  import opened Text
  import opened Patterns
  import opened Links
  import opened Placeholders
  import opened Rewriting
  import opened PassSafety

  /** The passes that copy every placeholder exactly once. */
  predicate KeepsRefs(rule: Rule) { !rule.Image? && !rule.PastedUrl? }

  // ----- cutting a match out of a text

  lemma SplitAt(s: string, a: nat, b: nat, e: nat, n: nat)
    requires a <= b <= e <= |s| && Disciplined(s[a..e], n) && CleanCut(s, b)
    ensures Disciplined(s[a..b], n) && Disciplined(s[b..e], n)
    ensures Refs(s[a..e]) == Refs(s[a..b]) + Refs(s[b..e])
  {
    var t := s[a..e];
    assert 0 < b - a < |t| ==> t[b - a] == s[b] && t[b - a - 1] == s[b - 1];
    DisciplinedSplit(t, b - a, n);
    assert t[..b - a] == s[a..b] && t[b - a..] == s[b..e];
  }

  lemma CutOut(s: string, a: nat, b: nat, e: nat, n: nat)
    requires a <= b <= e <= |s| && Disciplined(s[a..], n) && CleanCut(s, b) && CleanCut(s, e)
    ensures Disciplined(s[a..b], n) && Disciplined(s[b..e], n) && Disciplined(s[e..], n)
    ensures Refs(s[a..]) == Refs(s[a..b]) + Refs(s[b..e]) + Refs(s[e..])
  {
    hide Disciplined, Refs;
    assert s[a..] == s[a..|s|] && s[e..] == s[e..|s|];
    SplitAt(s, a, e, |s|, n);
    SplitAt(s, a, b, e, n);
  }

  /** The part of a match between two stretches that hold no placeholder. */
  lemma Inner(s: string, b: nat, x: nat, y: nat, e: nat, n: nat)
    requires b <= x <= y <= e <= |s| && Disciplined(s[b..e], n) && CleanCut(s, x) && CleanCut(s, y)
    requires Lacks(s[b..x], NUL) && Lacks(s[y..e], NUL)
    ensures Disciplined(s[x..y], n) && Refs(s[b..e]) == Refs(s[x..y])
  {
    hide Disciplined, Refs;
    SplitAt(s, b, y, e, n);
    SplitAt(s, b, x, y, n);
    PlainRefs(s[b..x], n);
    PlainRefs(s[y..e], n);
  }

  // ----- what the rules put in place of a match

  lemma AnchorRefs(href: string, caption: string, n: nat)
    requires Disciplined(href, n) && Disciplined(caption, n)
    ensures Disciplined(Anchor(href, caption), n)
    ensures Refs(Anchor(href, caption)) == Refs(href) + Refs(caption)
  {
    hide Disciplined, Refs;
    var tail := AnchorTail(href);
    assert Lacks(NEW_TAB, NUL) && Lacks(NO_REFERRER, NUL);
    assert Lacks(tail, NUL);
    assert Lacks(ANCHOR_TAG, NUL);
    Wrapped(ANCHOR_TAG, href, tail, n);
    DisciplinedJoin(ANCHOR_TAG + href + tail, caption, n);
    Wrapped("", ANCHOR_TAG + href + tail + caption, "</a>", n);
    assert "" + (ANCHOR_TAG + href + tail + caption) == ANCHOR_TAG + href + tail + caption;
  }

  /** A replacement leaves disciplined pieces, and keeps the placeholders where the rule does. */
  ghost predicate DisciplinedHit(rule: Rule, s: string, a: nat, hit: Hit, n: nat)
    requires a <= |s| && InBounds(hit, s, a)
  {
    hit.Replace? ==>
      && Disciplined(s[a..hit.from], n) && Disciplined(hit.html, n) && Disciplined(s[hit.end..], n)
      && (KeepsRefs(rule) ==> Refs(s[a..]) == Refs(s[a..hit.from]) + Refs(hit.html) + Refs(s[hit.end..]))
  }

  /** A target that is let through held no NUL to begin with. */
  lemma TargetLacksNul(s: string, a: nat, b: nat)
    requires a <= b <= |s| && AllIn(s, a, b, Target) && SafeHref(s[a..b]).Some?
    ensures Lacks(s[a..b], NUL)
  {
    var url := s[a..b];
    SafeHrefSound(url);
    assert Trim("") == "";
    assert url[0] == s[a] && url[|url| - 1] == s[b - 1];
    TrimFixed(url);
  }

  lemma LinkInner(s: string, i: nat, j: nat, k: nat, n: nat)
    requires Bracket(s, i, j, k) && Disciplined(s[i..k + 1], n) && SafeHref(s[j + 2..k]).Some?
    ensures Disciplined(s[i + 1..j], n) && Refs(s[i..k + 1]) == Refs(s[i + 1..j])
  {
    hide Disciplined, Refs, SafeHref;
    TargetLacksNul(s, j + 2, k);
    assert s[j..k + 1] == s[j..j + 2] + s[j + 2..k] + s[k..k + 1];
    Inner(s, i, i + 1, j, k + 1, n);
  }

  lemma LinkHtmlRefs(href: string, caption: string, n: nat)
    requires Lacks(href, NUL) && Disciplined(caption, n)
    ensures var html := Anchor(href, if caption == "" then href else caption);
            Disciplined(html, n) && Refs(html) == Refs(caption)
  {
    hide Disciplined, Refs, Anchor;
    PlainRefs(href, n);
    PlainRefs("", n);
    AnchorRefs(href, if caption == "" then href else caption, n);
  }

  lemma LinkHitDisciplined(s: string, a: nat, i: nat, n: nat)
    requires a <= i < |s| && Disciplined(s[a..], n) && LinkHit(s, i).Some?
    ensures DisciplinedHit(Link, s, a, LinkHit(s, i).value, n)
  {
    hide Disciplined, Refs, Anchor, SafeHref;
    var (j, k) := BracketAt(s, i).value;
    if SafeHref(s[j + 2..k]).Some? {
      CutOut(s, a, i, k + 1, n);
      LinkInner(s, i, j, k, n);
      SafeHrefSound(s[j + 2..k]);
      LinkHtmlRefs(SafeHref(s[j + 2..k]).value, s[i + 1..j], n);
    }
  }

  lemma ImageTextDisciplined(href: string, alt: string, spans: seq<string>)
    requires Lacks(href, NUL) && Disciplined(href, |spans|) && Disciplined(alt, |spans|) && CodeSpans(spans)
    ensures Disciplined(ImageText(href, alt, spans), |spans|)
  {
    if LocalTarget(href, 0) {
      PlainLacksNul(href, spans);
      PlainLacksNul(alt, spans);
      assert Lacks(ImageTail(Plain(alt, spans)), NUL);
      assert Lacks(IMAGE_TAG, NUL);
      PlainRefs(ImageElement(Plain(href, spans), Plain(alt, spans)), |spans|);
    } else {
      LinkHtmlRefs(href, alt, |spans|);
      NoteLacksNul();
      PlainRefs(NOTE, |spans|);
      DisciplinedJoin(Anchor(href, if alt == "" then href else alt), NOTE, |spans|);
    }
  }

  lemma NoteLacksNul()
    ensures Lacks(NOTE, NUL)
  {
    assert Lacks(NOTE_TAG, NUL) && Lacks(NOTE_TEXT, NUL);
  }

  lemma PlainLacksNul(s: string, spans: seq<string>)
    requires Disciplined(s, |spans|) && CodeSpans(spans)
    ensures Lacks(Plain(s, spans), NUL)
  {
    var values := seq(|spans|, k requires 0 <= k < |spans| => StripCode(spans[k]));
    forall k | 0 <= k < |spans| ensures Lacks(values[k], NUL) {
      SpanLacksNul(spans, k);
    }
    FillLacksNul(s, values);
  }

  lemma SpanLacksNul(spans: seq<string>, k: nat)
    requires CodeSpans(spans) && k < |spans|
    ensures Lacks(spans[k], NUL) && Lacks(StripCode(spans[k]), NUL)
  {
    assert IsCodeSpan(spans[k]);
    var code :| spans[k] == CodeElement(code) && Lacks(code, '<') && Lacks(code, NUL);
    StripCodeElement(code);
  }

  lemma ImageHitDisciplined(s: string, a: nat, i: nat, spans: seq<string>)
    requires a <= i < |s| && Disciplined(s, |spans|) && Disciplined(s[a..], |spans|) && CodeSpans(spans)
    requires ImageHit(s, i, spans).Some?
    ensures DisciplinedHit(Image(spans), s, a, ImageHit(s, i, spans).value, |spans|)
  {
    hide Disciplined, Refs, ImageHtml;
    if ImageHit(s, i, spans).value.Replace? {
      var (j, k) := BracketAt(s, i + 1).value;
      CutOut(s, a, i, k + 1, |spans|);
      ImageHtmlDisciplined(s, i, j, k, spans);
    }
  }

  lemma ImageHtmlDisciplined(s: string, i: nat, j: nat, k: nat, spans: seq<string>)
    requires Disciplined(s, |spans|) && Bracket(s, i + 1, j, k) && CodeSpans(spans)
    requires ImageHtml(s, i, j, k, spans).Some?
    ensures Disciplined(ImageHtml(s, i, j, k, spans).value, |spans|)
  {
    hide Disciplined, Refs, ImageText, SafeHref, SafeTarget, CodeSpans;
    SafeHrefSound(s[j + 2..k]);
    PlainText(SafeHref(s[j + 2..k]).value, spans);
    DisciplinedSlice(s, i + 2, j, |spans|);
    ImageTextDisciplined(SafeHref(s[j + 2..k]).value, s[i + 2..j], spans);
  }

  lemma UrlHitDisciplined(s: string, a: nat, b: nat, n: nat)
    requires a <= b <= |s| && Disciplined(s[a..], n) && UrlHitFrom(s, b).Some?
    ensures DisciplinedHit(PastedUrl, s, a, UrlHitFrom(s, b).value, n)
  {
    hide Disciplined, Refs, Anchor;
    var e := BareUrlAt(s, b).value;
    BareUrlShape(s, b, e);
    assert s[b] == s[b..b + 2][0] == 'h';
    CutOut(s, a, b, e, n);
    AnchorRefs(s[b..e], s[b..e], n);
  }

  lemma IssueHitDisciplined(s: string, a: nat, b: nat, href: nat -> string, n: nat)
    requires a <= b <= |s| && Disciplined(s[a..], n) && IssueHitFrom(s, b, href).Some?
    ensures DisciplinedHit(Issue(href), s, a, IssueHitFrom(s, b, href).value, n)
  {
    hide Disciplined, Refs, Anchor, SafeHref;
    var e := IssueNumberAt(s, b).value;
    var number := s[b + 1..e];
    assert forall k :: 0 <= k < |number| ==> number[k] == s[b + 1 + k] && In(s[b + 1 + k], Digit);
    if IssueHitFrom(s, b, href).value.Replace? {
      assert s[a..|s|] == s[a..] && s[b..|s|] == s[b..];
      SplitAt(s, a, b, |s|, n);
      assert s[b..][..e - b] == s[b..e] && s[b..][e - b..] == s[e..];
      assert forall k :: b <= k < e ==> s[k] != NUL;
      PlainPrefix(s[b..], e - b, n);
      var given := href(Value(number));
      SafeHrefSound(given);
      PlainRefs("#" + number, n);
      LinkHtmlRefs(SafeHref(given).value, "#" + number, n);
    }
  }

  lemma MarkCuts(s: string, i: nat, j: nat, mark: char, width: nat)
    requires 1 <= width && Span(s, i, j, mark, width) && !InsideRef(mark)
    ensures CleanCut(s, i) && CleanCut(s, i + width) && CleanCut(s, j) && CleanCut(s, j + width)
    ensures Lacks(s[i..i + width], NUL) && Lacks(s[j..j + width], NUL)
  {
    assert In(s[i], Only(mark)) && In(s[i + width - 1], Only(mark));
    assert In(s[j], Only(mark)) && In(s[j + width - 1], Only(mark));
  }

  lemma SpanInner(s: string, a: nat, i: nat, j: nat, mark: char, width: nat, n: nat)
    requires a <= i && 1 <= width <= 2 && Span(s, i, j, mark, width) && !InsideRef(mark)
    requires Disciplined(s[a..], n)
    ensures Disciplined(s[a..i], n) && Disciplined(s[i + width..j], n) && Disciplined(s[j + width..], n)
    ensures Refs(s[a..]) == Refs(s[a..i]) + Refs(s[i + width..j]) + Refs(s[j + width..])
  {
    hide Disciplined, Refs, CleanCut, Lacks;
    MarkCuts(s, i, j, mark, width);
    CutOut(s, a, i, j + width, n);
    Inner(s, i, i + width, j, j + width, n);
  }

  lemma ElementRefs(tag: string, body: string, n: nat)
    requires Lacks(tag, NUL) && Disciplined(body, n)
    ensures Disciplined(Element(tag, body), n) && Refs(Element(tag, body)) == Refs(body)
  {
    hide Disciplined, Refs;
    Wrapped("<" + tag + ">", body, "</" + tag + ">", n);
    assert Element(tag, body) == "<" + tag + ">" + body + ("</" + tag + ">");
  }

  lemma SpanHitDisciplined(rule: Rule, s: string, a: nat, i: nat, mark: char, width: nat, tag: string, n: nat)
    requires a <= i < |s| && 1 <= width <= 2 && !InsideRef(mark) && Lacks(tag, NUL)
    requires Disciplined(s[a..], n) && SpanHit(s, i, mark, width, tag).Some?
    ensures DisciplinedHit(rule, s, a, SpanHit(s, i, mark, width, tag).value, n)
  {
    hide Disciplined, Refs, Element;
    var j := SpanAt(s, i, mark, width).value;
    SpanInner(s, a, i, j, mark, width, n);
    ElementRefs(tag, s[i + width..j], n);
  }

  lemma EmphasisHitDisciplined(s: string, a: nat, b: nat, n: nat)
    requires a <= b <= |s| && Disciplined(s[a..], n) && EmphasisHitFrom(s, b).Some?
    ensures DisciplinedHit(Emphasis, s, a, EmphasisHitFrom(s, b).value, n)
  {
    hide Disciplined, Refs, Element;
    var j := SpanAt(s, b, '*', 1).value;
    SpanInner(s, a, b, j, '*', 1, n);
    ElementRefs("em", s[b + 1..j], n);
  }

  /** The image rule runs with the spans its text is disciplined for. */
  ghost predicate Fits(rule: Rule, s: string, n: nat) {
    Applies(rule, s) && (rule.Image? ==> n == |rule.spans| && CodeSpans(rule.spans))
  }

  lemma HitDisciplined(rule: Rule, s: string, a: nat, i: nat, n: nat)
    requires a <= i < |s| && Fits(rule, s, n) && Disciplined(s[a..], n) && HitAt(rule, s, i).Some?
    ensures DisciplinedHit(rule, s, a, HitAt(rule, s, i).value, n)
  {
    hide Disciplined, Refs;
    match rule
    case Image(spans) => ImageHitDisciplined(s, a, i, spans);
    case Link => LinkHitDisciplined(s, a, i, n);
    case PastedUrl => UrlHitDisciplined(s, a, UrlStart(s, i).value, n);
    case Issue(href) => IssueHitDisciplined(s, a, IssueStart(s, i).value, href, n);
    case Strong => SpanHitDisciplined(rule, s, a, i, '*', 2, "strong", n);
    case Emphasis => EmphasisHitDisciplined(s, a, EmphasisStart(s, i).value, n);
    case Deleted => SpanHitDisciplined(rule, s, a, i, '~', 2, "del", n);
  }

  lemma StepDisciplined(rule: Rule, s: string, a: nat, i: nat, hit: Hit, rest: string, n: nat)
    requires a <= i < |s| && InBounds(hit, s, i) && hit.Replace? && DisciplinedHit(rule, s, a, hit, n)
    requires Disciplined(rest, n) && (KeepsRefs(rule) ==> Refs(rest) == Refs(s[hit.end..]))
    ensures Disciplined(s[a..i] + (s[i..hit.from] + hit.html + rest), n)
    ensures KeepsRefs(rule) ==> Refs(s[a..i] + (s[i..hit.from] + hit.html + rest)) == Refs(s[a..])
  {
    hide Disciplined, Refs;
    DisciplinedJoin(s[a..hit.from], hit.html, n);
    DisciplinedJoin(s[a..hit.from] + hit.html, rest, n);
    var kept, gap := s[a..i], s[i..hit.from];
    assert kept + gap == s[a..hit.from];
    assert kept + (gap + hit.html + rest) == (kept + gap) + hit.html + rest;
  }

  lemma {:induction false} RewriteDisciplined(rule: Rule, s: string, a: nat, i: nat, n: nat)
    requires a <= i <= |s| && Fits(rule, s, n) && Disciplined(s[a..], n)
    ensures Disciplined(s[a..i] + Rewrite(rule, s, i), n)
    ensures KeepsRefs(rule) ==> Refs(s[a..i] + Rewrite(rule, s, i)) == Refs(s[a..])
    decreases |s| - i
  {
    hide Disciplined, Refs, HitAt;
    if i == |s| {
      assert s[a..i] + "" == s[a..];
    } else {
      var hit := HitAt(rule, s, i);
      if hit.Some? && hit.value.Replace? {
        var end := hit.value.end;
        HitDisciplined(rule, s, a, i, n);
        RewriteDisciplined(rule, s, end, end, n);
        assert s[end..end] + Rewrite(rule, s, end) == Rewrite(rule, s, end);
        StepDisciplined(rule, s, a, i, hit.value, Rewrite(rule, s, end), n);
      } else {
        SkipKeeps(rule, s, a, i);
        RewriteDisciplined(rule, s, a, SkipTo(rule, s, i), n);
      }
    }
  }

  /** Every pass keeps a text disciplined for the same spans. */
  lemma PassKeepsDiscipline(rule: Rule, s: string, n: nat)
    requires Fits(rule, s, n) && Disciplined(s, n)
    ensures Disciplined(Rewrite(rule, s, 0), n)
    ensures KeepsRefs(rule) ==> Refs(Rewrite(rule, s, 0)) == Refs(s)
  {
    hide Disciplined, Refs, Rewrite;
    assert s[0..] == s;
    RewriteDisciplined(rule, s, 0, 0, n);
    assert s[0..0] + Rewrite(rule, s, 0) == Rewrite(rule, s, 0);
  }
}
