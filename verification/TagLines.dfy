/** Which lines are compiled with every tag whole: exactly those in which no pass and no code span cuts one. */
module TagLines {
  import opened Text
  import opened Patterns
  import opened Links
  import opened Placeholders
  import opened Rewriting
  import opened RuleShapes
  import opened Replacing
  import opened TagSafety
  import opened PassSafety
  import opened Inline
  import opened TagScan
  import opened TagPasses

  // ----- lines without quotes

  ghost predicate NoQuotes(spans: seq<string>) { forall k :: 0 <= k < |spans| ==> Lacks(spans[k], '"') }

  lemma {:induction false} LiftQuotes(s: string, i: nat, spans: seq<string>)
    requires i <= |s| && Lacks(s, '"') && NoQuotes(spans)
    ensures var r := Lift(s, i, spans); Lacks(r.text, '"') && NoQuotes(r.spans)
    decreases |s| - i
  {
    hide CodeElement, Placeholder;
    if i < |s| {
      match SpanAt(s, i, '`', 1) {
        case Some(j) =>
          var more := spans + [CodeElement(s[i + 1..j])];
          ElementQuotes(s, i + 1, j);
          LiftQuotes(s, j + 1, more);
          PlaceholderQuotes(|spans|);
        case None => LiftQuotes(s, i + 1, spans);
      }
    }
  }

  lemma ElementQuotes(s: string, a: nat, b: nat)
    requires a <= b <= |s| && Lacks(s, '"')
    ensures Lacks(CodeElement(s[a..b]), '"')
  {
  }

  lemma PlaceholderQuotes(k: nat)
    ensures Lacks(Placeholder(k), '"')
  {
    var d := Decimal(k);
    assert forall i :: 0 <= i < |d| ==> IsDigit(d[i]);
  }

  lemma SpanQuotes(span: string)
    requires IsCodeSpan(span) && Lacks(span, '"')
    ensures Lacks(StripCode(span), '"')
  {
    var code :| span == CodeElement(code) && Lacks(code, '<') && Lacks(code, NUL);
    StripCodeElement(code);
    forall k | 0 <= k < |code| ensures code[k] != '"' {
      assert span[6 + k] == code[k];
    }
  }

  lemma PlainQuotes(s: string, spans: seq<string>)
    requires Disciplined(s, |spans|) && Lacks(s, '"') && CodeSpans(spans) && NoQuotes(spans)
    ensures Lacks(Plain(s, spans), '"')
  {
    hide StripCode, Disciplined;
    var values := seq(|spans|, k requires 0 <= k < |spans| => StripCode(spans[k]));
    forall k | 0 <= k < |spans| ensures Lacks(values[k], '"') {
      assert IsCodeSpan(spans[k]);
      SpanQuotes(spans[k]);
    }
    SymbolsLack(s, '"');
    Sound(s, |spans|);
    FillLacks(Symbols(s), values, '"');
  }

  lemma Sound(s: string, n: nat)
    requires Disciplined(s, n)
    ensures forall symbol <- Symbols(s) :: IsSound(symbol, n)
  {
  }

  // ----- images

  lemma NoteClean()
    ensures IsClean(NOTE)
  {
    hide Scan, IsWholeTag;
    NoteParts();
    ScanJoin(Outside, " " + NOTE_TAG + NOTE_TEXT, "</span>");
    ScanJoin(Outside, " " + NOTE_TAG, NOTE_TEXT);
    ScanJoin(Outside, " ", NOTE_TAG);
    PlainScan(" ");
    FixedTagScan(NOTE_TAG);
    PlainScan(NOTE_TEXT);
    ShortTagScan("</span>");
  }

  lemma NoteParts()
    ensures IsValue(NOTE_TEXT) && IsShortTag("</span>")
  {
  }

  /** What an image becomes is whole. */
  lemma ImageHitClean(s: string, spans: seq<string>, at: nat, hit: Hit)
    requires Premise(Image(spans), s) && Lacks(s, '"') && NoQuotes(spans) && IsReplaced(Image(spans), s, at, hit)
    ensures IsClean(hit.html)
  {
    hide Scan, Anchor, SafeHref, IsAllowed, Disciplined, ImageElement, Plain, NOTE, IsWholeTag, CodeSpans;
    ImageExact(s, at, spans);
    var (j, k) := BracketAt(s, at + 1).value;
    assert ImageShape(s, at, j, k);
    var url, alt := s[j + 2..k], s[at + 2..j];
    ImageUrlShape(s, j, k);
    SafeHrefSound(url);
    if LocalTarget(url, 0) {
      PlainLacks(alt, spans);
      PlainQuotes(alt, spans);
      UrlPlain(url, spans);
      ImageTagScan(url, Plain(alt, spans));
    } else {
      var caption := if alt == "" then url else alt;
      PlainScan(caption);
      AnchorScan(Outside, url, caption);
      ScanJoin(Outside, Anchor(url, caption), NOTE);
      NoteClean();
    }
  }

  lemma UrlPlain(url: string, spans: seq<string>)
    requires Lacks(url, NUL)
    ensures Disciplined(url, |spans|) && Plain(url, spans) == url
  {
    PlainText(url, seq(|spans|, k requires 0 <= k < |spans| => StripCode(spans[k])));
  }

  lemma {:induction false} ImagesScan(s: string, spans: seq<string>, i: nat)
    requires Premise(Image(spans), s) && Lacks(s, '"') && NoQuotes(spans) && i <= |s|
    ensures Scan(Outside, Rewrite(Image(spans), s, i)) == Outside
    decreases |s| - i
  {
    hide Scan, Rewrite, Replacements, HitAt, IsReplaced, CodeSpans, Disciplined;
    var rule := Image(spans);
    var hits := Replacements(rule, s, i);
    if hits == [] {
      NoReplacement(rule, s, i);
      PlainScan(s[i..]);
    } else {
      FirstReplacement(rule, s, i);
      var hit := hits[0];
      var at: nat :| IsReplaced(rule, s, at, hit);
      ImageHitClean(s, spans, at, hit);
      PlainScan(s[i..hit.from]);
      ScanThree(Outside, s[i..hit.from], hit.html, Rewrite(rule, s, hit.end));
      ImagesScan(s, spans, hit.end);
    }
  }

  // ----- code spans

  /** Every placeholder stands outside of tags. */
  ghost predicate RefsOutside(q: Place, s: string) {
    forall b: nat :: b < |s| && s[b] == NUL ==> Scan(q, s[..b]).Outside?
  }

  lemma RefsJoin(q: Place, a: string, b: string)
    ensures RefsOutside(q, a + b) <==> RefsOutside(q, a) && RefsOutside(Scan(q, a), b)
  {
    hide Scan;
    var s := a + b;
    forall k: nat | k < |a| ensures s[..k] == a[..k] && s[k] == a[k] {
    }
    forall k: nat | k < |b| ensures Scan(q, s[..|a| + k]) == Scan(Scan(q, a), b[..k]) && s[|a| + k] == b[k] {
      ScanJoin(q, a, b[..k]);
      assert s[..|a| + k] == a + b[..k];
    }
    forall k: nat | |a| <= k < |s| ensures s[k] == b[k - |a|] && s[..k] == a + b[..k - |a|] {
    }
  }

  lemma SpanClean(span: string)
    requires IsCodeSpan(span) && Lacks(span, '"')
    ensures IsClean(span) && span != "" && span[0] == '<'
  {
    hide Scan, IsShortTag, IsWholeTag;
    var code :| span == CodeElement(code) && Lacks(code, '<') && Lacks(code, NUL);
    CodeTags();
    ScanJoin(Outside, "<code>" + code, "</code>");
    ScanJoin(Outside, "<code>", code);
    ShortTagScan("<code>");
    ShortTagScan("</code>");
    forall k | 0 <= k < |code| ensures code[k] != '"' {
      assert span[6 + k] == code[k];
    }
    PlainScan(code);
  }

  lemma CodeTags()
    ensures IsShortTag("<code>") && IsShortTag("</code>")
  {
  }

  lemma RefHead(s: string)
    requires RefAt(s).Some?
    ensures var head := s[..HeadEnd(s)]; head != "" && head[0] == NUL && IsValue(head) && RefsOutside(Outside, head)
  {
    var head := s[..HeadEnd(s)];
    assert forall k :: 1 <= k < |head| - 1 ==> head[k] == s[k] && In(s[k], Digit);
    forall b: nat | b < |head| ensures Scan(Outside, head[..b]).Outside? {
      PlainScan(head[..b]);
    }
  }

  /** A placeholder outside of tags gives way to an element; inside one, the element breaks it. */
  lemma RefScan(q: Place, s: string, span: string)
    requires RefAt(s).Some? && IsCodeSpan(span) && Lacks(span, '"')
    ensures var head := s[..HeadEnd(s)];
            && (RefsOutside(q, head) <==> q.Outside?)
            && (q.Outside? ==> Scan(q, head) == Outside && Scan(q, span) == Outside)
            && (!q.Outside? ==> Scan(q, span) == Broken)
  {
    hide Scan, IsWholeTag;
    var head := s[..HeadEnd(s)];
    RefHead(s);
    SpanClean(span);
    PlainScan(head);
    if !q.Outside? {
      OpenedInside(q, span);
      assert head[..0] == "";
      NothingScanned(q);
    }
  }

  lemma NothingScanned(q: Place)
    ensures Scan(q, "") == q
  {
  }

  lemma {:induction false} FillScan(q: Place, s: string, spans: seq<string>)
    requires Disciplined(s, |spans|) && CodeSpans(spans) && NoQuotes(spans)
    ensures Scan(q, Fill(s, spans)) == if RefsOutside(q, s) then Scan(q, s) else Broken
    decreases |s|
  {
    hide Scan, CodeSpans, NoQuotes, RefsOutside;
    if s == "" {
      assert Fill(s, spans) == "";
      NoRefs(q, "");
    } else {
      SymbolsUnfold(s, |spans|);
      var e := HeadEnd(s);
      var head, rest := s[..e], s[e..];
      assert s == head + rest;
      ScanJoin(q, head, rest);
      RefsJoin(q, head, rest);
      if RefAt(s).Some? {
        FillUnfold(s, spans);
        var span := spans[RefIndex(s)];
        OneSpan(spans, RefIndex(s));
        ScanJoin(q, span, Fill(rest, spans));
        RefScan(q, s, span);
        if q.Outside? {
          FillScan(Outside, rest, spans);
        } else {
          StaysBroken(Fill(rest, spans));
        }
      } else {
        NoRefs(q, head);
        ScanJoin(q, head, Fill(rest, spans));
        FillScan(Scan(q, head), rest, spans);
        assert Fill(s, spans) == head + Fill(rest, spans);
      }
    }
  }

  lemma OneSpan(spans: seq<string>, k: nat)
    requires CodeSpans(spans) && NoQuotes(spans) && k < |spans|
    ensures IsCodeSpan(spans[k]) && Lacks(spans[k], '"')
  {
  }

  lemma NoRefs(q: Place, s: string)
    requires Lacks(s, NUL)
    ensures RefsOutside(q, s)
  {
  }

  // ----- one line

  /** No pass of the list cuts a tag of the text it runs over. */
  ghost predicate Uncut(rules: seq<Rule>, text: string)
    requires NoImages(rules)
    decreases |rules|
  {
    rules == [] || (TagsUncut(rules[0], text) && Uncut(rules[1..], Rewrite(rules[0], text, 0)))
  }

  lemma {:induction false} PassesScan(rules: seq<Rule>, text: string)
    requires NoImages(rules) && forall rule <- rules :: IsLater(rule) && QuotableLinks(rule)
    ensures Scan(Outside, RunPasses(rules, text)) == if Uncut(rules, text) then Scan(Outside, text) else Broken
    decreases |rules|
  {
    hide Scan, Rewrite, QuotableLinks, TagsUncut, PlaceAt;
    if rules != [] {
      var next := Rewrite(rules[0], text, 0);
      WholeLaterScan(rules[0], text);
      PassesScan(rules[1..], next);
    }
  }

  lemma WholeLaterScan(rule: Rule, s: string)
    requires IsLater(rule) && QuotableLinks(rule)
    ensures Scan(Outside, Rewrite(rule, s, 0)) == if TagsUncut(rule, s) then Scan(Outside, s) else Broken
  {
    hide Scan, Rewrite, Replacements, LaterKeeps, QuotableLinks;
    LaterScan(rule, s, 0);
    PlaceEnds(s);
    assert s[0..] == s;
  }

  /** An escaped line: no quotes either. */
  ghost predicate IsQuoteless(line: string) { IsEscaped(line) && Lacks(line, '"') }

  ghost predicate QuotableOptions(options: Options) {
    options.issueHref.Some? ==> forall n: nat :: IsValue(options.issueHref.value(n))
  }

  function ImagesDone(escaped: string): string
    requires IsEscaped(escaped)
  {
    var lifted := Lift(escaped, 0, []);
    LiftDisciplined(escaped, 0, []);
    Rewrite(Image(lifted.spans), lifted.text, 0)
  }

  /** No pass cuts a tag, and no code span comes to stand in one. */
  ghost predicate LineUncut(escaped: string, options: Options)
    requires IsEscaped(escaped)
  {
    Uncut(LaterRules(options), ImagesDone(escaped)) && RefsOutside(Outside, Compiled(escaped, options))
  }

  lemma ImagesClean(escaped: string)
    requires IsQuoteless(escaped)
    ensures IsClean(ImagesDone(escaped)) && NoQuotes(Lift(escaped, 0, []).spans)
  {
    hide Scan, Rewrite, Disciplined, Refs;
    var lifted := Lift(escaped, 0, []);
    LiftDisciplined(escaped, 0, []);
    LiftQuotes(escaped, 0, []);
    ImagesScan(lifted.text, lifted.spans, 0);
  }

  lemma LaterQuotable(options: Options)
    requires QuotableOptions(options)
    ensures var rules := LaterRules(options);
            && rules[0] == Link && NoImages(rules[1..])
            && forall rule <- rules[1..] :: IsLater(rule) && QuotableLinks(rule)
  {
    hide IsValue;
  }

  lemma CompiledScan(escaped: string, options: Options)
    requires IsQuoteless(escaped) && QuotableOptions(options)
    ensures IsClean(Compiled(escaped, options)) <==> Uncut(LaterRules(options), ImagesDone(escaped))
  {
    hide Scan, Rewrite, Disciplined, Refs, TagsUncut, QuotableOptions, TagsWhole;
    var rules, images := LaterRules(options), ImagesDone(escaped);
    ImagesClean(escaped);
    LaterQuotable(options);
    var links := Rewrite(Link, images, 0);
    PassesScan(rules[1..], links);
    PassKeepsTags(Link, images) by { TagScan.ScanDecides(images); }
    TagScan.ScanDecides(images);
    TagScan.ScanDecides(links);
  }

  /** A line is compiled with every tag whole exactly when no pass cuts one and no code span comes to stand in one. */
  lemma LineKeepsTags(escaped: string, options: Options)
    requires IsQuoteless(escaped) && QuotableOptions(options)
    ensures TagsWhole(InlineHtml(escaped, options)) <==> LineUncut(escaped, options)
  {
    hide Scan, Rewrite, Disciplined, Refs, TagsUncut, TagsWhole, RefsOutside, Uncut, Compiled;
    var spans := Lift(escaped, 0, []).spans;
    LiftDisciplined(escaped, 0, []);
    ImagesClean(escaped);
    CompiledScan(escaped, options);
    CompiledDisciplined(escaped, options);
    FillScan(Outside, Compiled(escaped, options), spans);
    TagScan.ScanDecides(InlineHtml(escaped, options));
  }
}
