/** Texts of which every link comes out with a target that the allow-list admits as a whole. */
module WholeTargets {
  import opened Text
  import opened Escaping
  import opened Links
  import opened Lines
  import opened Blocks
  import opened Rewriting
  import opened RuleShapes
  import opened Inline
  import opened TagSafety
  import opened PassSafety
  import opened Renderer
  import opened MailScan
  import opened MailMarkup
  import opened MailPasses
  import opened MailLines
  import opened Guarantees

  // ----- the texts that lines are compiled from

  ghost predicate IsStretch(t: string, line: string) {
    exists a: nat, b: nat :: a <= b <= |line| && t == line[a..b]
  }

  lemma StretchOfStretch(t: string, u: string, line: string)
    requires IsStretch(t, u) && IsStretch(u, line)
    ensures IsStretch(t, line)
  {
    var a: nat, b: nat :| a <= b <= |u| && t == u[a..b];
    var c: nat, d: nat :| c <= d <= |line| && u == line[c..d];
    SliceOfSlice(line, c, d, a, b);
  }

  lemma StretchKeeps(t: string, line: string)
    requires IsStretch(t, line) && KeepsMail(line)
    ensures KeepsMail(t)
  {
    hide KeepsMail;
    var a: nat, b: nat :| a <= b <= |line| && t == line[a..b];
    KeepsMailSlice(line, a, b);
  }

  lemma Rest(line: string, m: nat)
    requires m <= |line| && RestOf(line, m).Some?
    ensures IsStretch(RestOf(line, m).value, line)
  {
    assert line[m..] == line[m..|line|];
  }

  lemma HeadingStretch(line: string)
    requires Heading(line).Some?
    ensures IsStretch(Heading(line).value.1, line)
  {
    var m := RunEnd(line, RunEnd(line, 0, Only('#')), Space);
    var rest := line[m..];
    assert rest == line[m..|line|];
    assert IsStretch(Trim(rest), rest);
    StretchOfStretch(Trim(rest), rest, line);
  }

  lemma QuoteStretch(line: string)
    requires Quote(line).Some?
    ensures IsStretch(Quote(line).value, line)
  {
    Rest(line, if 1 < |line| && IsSpace(line[1]) then 2 else 1);
  }

  lemma BulletStretch(line: string)
    requires Bullet(line).Some?
    ensures IsStretch(Bullet(line).value, line)
  {
    Rest(line, RunEnd(line, RunEnd(line, 0, Space) + 1, Space));
  }

  lemma NumberedStretch(line: string)
    requires Numbered(line).Some?
    ensures IsStretch(Numbered(line).value, line)
  {
    Rest(line, RunEnd(line, RunEnd(line, RunEnd(line, 0, Space), Digit) + 1, Space));
  }

  lemma TaskStretch(raw: string)
    requires Task(raw).Some?
    ensures IsStretch(Task(raw).value.1, raw)
  {
    Rest(raw, RunEnd(raw, 3, Space));
  }

  /** Whatever of a line is compiled is a stretch of it. */
  lemma KindStretch(line: string)
    ensures var kind := Classify(line);
            && (kind.HeadingLine? || kind.QuoteLine? ==> IsStretch(kind.text, line))
            && (kind.ItemLine? ==> IsStretch(kind.body, line))
  {
    hide Heading, Quote, Bullet, Numbered, IsRule, FenceLanguage;
    var kind := Classify(line);
    if kind.HeadingLine? {
      HeadingStretch(line);
    } else if kind.QuoteLine? {
      QuoteStretch(line);
    } else if kind.ItemLine? && !kind.ordered {
      BulletStretch(line);
    } else if kind.ItemLine? {
      NumberedStretch(line);
    }
  }

  // ----- blocks

  /** Behind the text the scan is outside of a name. */
  ghost predicate IsRead(html: string) { Run(false, START, html).Matching? }

  /** Behind the text the scan is where it began. */
  ghost predicate IsClosed(html: string) { Run(false, START, html) == START }

  lemma ElementClosed(tag: string, body: string)
    requires IsBlockName(tag) && IsRead(body)
    ensures IsClosed(Element(tag, body))
  {
    hide Run, IsFixedTag, IsBlockName;
    var open, close := "<" + tag + ">", "</" + tag + ">";
    BlockNames(tag);
    TagRun(false, open);
    TagRun(false, close);
    ElementText(tag, body);
    RunJoin(false, START, open + body, close);
    RunJoin(false, START, open, body);
  }

  lemma {:induction false} BreaksRead(parts: seq<string>)
    requires forall part <- parts :: IsRead(part)
    ensures IsRead(Join(parts, "<br>"))
  {
    hide Run, IsFixedTag;
    Quiet(false, "");
    if |parts| == 1 {
      assert parts[0] in parts;
    } else if |parts| > 1 {
      assert parts[0] in parts;
      BreaksRead(parts[1..]);
      LineTags();
      TagRun(false, "<br>");
      RunJoin(false, START, parts[0] + "<br>", Join(parts[1..], "<br>"));
      RunJoin(false, START, parts[0], "<br>");
    }
  }

  lemma {:induction false} PartsClosed(parts: seq<string>)
    requires forall part <- parts :: IsClosed(part)
    ensures IsClosed(Join(parts, ""))
  {
    hide Run;
    Quiet(false, "");
    if |parts| == 1 {
      assert parts[0] in parts;
    } else if |parts| > 1 {
      assert parts[0] in parts;
      PartsClosed(parts[1..]);
      RunJoin(false, START, parts[0], Join(parts[1..], ""));
      assert parts[0] + "" + Join(parts[1..], "") == parts[0] + Join(parts[1..], "");
    }
  }

  lemma ParagraphClosed(lines: seq<string>, options: Options)
    requires CleanLines(lines, NUL) && forall line <- lines :: KeepsMail(line)
    ensures IsClosed(ParagraphHtml(lines, options))
  {
    hide LineHtml, Element, KeepsMail, Run;
    var parts := seq(|lines|, k requires 0 <= k < |lines| => LineHtml(lines[k], options));
    forall part <- parts ensures IsRead(part) {
      var k :| 0 <= k < |lines| && part == LineHtml(lines[k], options);
      assert lines[k] in lines;
      LineKept(lines[k], options);
    }
    BreaksRead(parts);
    ElementClosed("p", Join(parts, "<br>"));
  }

  lemma TaskTags()
    ensures IsFixedTag(OPEN_TASK_TAG) && IsFixedTag(DONE_TASK_TAG)
  {
  }

  lemma ItemRead(body: string, options: Options)
    requires Lacks(body, NUL) && KeepsMail(body)
    ensures IsRead(ItemHtml(body, options))
  {
    hide LineHtml, Run, IsFixedTag, KeepsMail;
    match Task(body) {
      case None => LineKept(body, options);
      case Some((done, text)) =>
        TaskStretch(body);
        StretchKeeps(text, body);
        LineKept(text, options);
        var tag := if done then DONE_TASK_TAG else OPEN_TASK_TAG;
        TaskTags();
        TagRun(false, tag);
        Quiet(false, " ");
        RunJoin(false, START, tag + " ", LineHtml(text, options));
        RunJoin(false, START, tag, " ");
    }
  }

  lemma ListClosed(lines: seq<string>, ordered: bool, options: Options)
    requires CleanLines(lines, NUL) && forall line <- lines :: KeepsMail(line)
    ensures IsClosed(ListHtml(ordered, Items(lines, options)))
  {
    hide ItemHtml, Element, KeepsMail, Run, Classify;
    var items := Items(lines, options);
    var parts := seq(|items|, k requires 0 <= k < |items| => Element("li", items[k]));
    forall part <- parts ensures IsClosed(part) {
      var k :| 0 <= k < |items| && part == Element("li", items[k]);
      assert lines[k] in lines;
      KindStretch(lines[k]);
      if Classify(lines[k]).ItemLine? {
        StretchKeeps(ItemBody(lines[k]), lines[k]);
      }
      ItemRead(ItemBody(lines[k]), options);
      ElementClosed("li", items[k]);
    }
    PartsClosed(parts);
    ElementClosed(ListTag(ordered), Join(parts, ""));
  }

  lemma FencedClosed(language: string, body: seq<string>)
    ensures IsClosed(FencedHtml(language, body))
  {
    hide Run, IsFixedTag, EscapeHtml;
    var text := EscapeHtml(Join(body, "\n"));
    FenceTags();
    TagRun(false, "<pre>");
    TagRun(false, "</pre>");
    TagRun(false, "</code>");
    CodeOpenerClosed(language);
    Quiet(false, text);
    var opener := CodeOpener(language);
    RunJoin(false, START, "<pre>" + opener + text + "</code>", "</pre>");
    RunJoin(false, START, "<pre>" + opener + text, "</code>");
    RunJoin(false, START, "<pre>" + opener, text);
    RunJoin(false, START, "<pre>", opener);
  }

  lemma CodeOpenerClosed(language: string)
    ensures IsClosed(CodeOpener(language))
  {
    hide Run, EscapeHtml;
    if language == "" {
      FenceTags();
      TagRun(false, "<code>");
    } else {
      var text := EscapeHtml(language);
      TagRun(false, LANGUAGE_TAG);
      Quiet(false, text);
      Quiet(false, "\">");
      RunJoin(false, START, LANGUAGE_TAG + text, "\">");
      RunJoin(false, START, LANGUAGE_TAG, text);
    }
  }

  lemma RuleClosed()
    ensures IsClosed("<hr>")
  {
    hide Run, IsFixedTag;
    LineTags();
    TagRun(false, "<hr>");
  }

  lemma HeadingClosed(level: nat, text: string, options: Options)
    requires 1 <= level <= 6 && Lacks(text, NUL) && KeepsMail(text)
    ensures IsClosed(Element(HeadingTag(level), LineHtml(text, options)))
  {
    hide KeepsMail, Run, LineHtml, Element;
    LineKept(text, options);
    var tag := HeadingTag(level);
    assert tag[0] == 'h' && |tag| == 2;
    assert tag == "h1" || tag == "h2" || tag == "h3" || tag == "h4" || tag == "h5" || tag == "h6";
    ElementClosed(tag, LineHtml(text, options));
  }

  lemma ChunkClosed(chunk: seq<string>, options: Options)
    requires chunk != [] && CleanLines(chunk, NUL) && forall line <- chunk :: KeepsMail(line)
    ensures IsClosed(ChunkHtml(chunk, options))
  {
    hide KeepsMail, Run, LineHtml, Element, ParagraphHtml, ListHtml, FencedHtml, Items, HeadingTag, FenceEnd, Classify;
    var line := chunk[0];
    assert line in chunk && Lacks(line, NUL);
    KindStretch(line);
    match Classify(line) {
      case FenceLine(language) => FencedClosed(language, chunk[1..FenceEnd(chunk, 1)]);
      case BlankLine => Quiet(false, "");
      case HeadingLine(level, text) =>
        StretchKeeps(text, line);
        HeadingClosed(level, text, options);
      case RuleLine => RuleClosed();
      case QuoteLine(text) =>
        StretchKeeps(text, line);
        LineKept(text, options);
        ElementClosed("blockquote", LineHtml(text, options));
      case ItemLine(ordered, _) => ListClosed(chunk, ordered, options);
      case ProseLine => ParagraphClosed(chunk, options);
    }
  }

  lemma {:induction false} HtmlClosed(lines: seq<string>, options: Options)
    requires CleanLines(lines, NUL) && forall line <- lines :: KeepsMail(line)
    ensures IsClosed(Html(lines, options))
  {
    hide KeepsMail, Run, ChunkHtml, ChunkLength;
    Quiet(false, "");
    if lines != [] {
      var n := ChunkLength(lines);
      FirstChunkHtml(lines, options, n);
      assert forall line <- lines[..n] :: line in lines;
      assert forall line <- lines[n..] :: line in lines;
      ChunkClosed(lines[..n], options);
      HtmlClosed(lines[n..], options);
      RunJoin(false, START, ChunkHtml(lines[..n], options), Html(lines[n..], options));
    }
  }

  /** Every line of the text keeps its mail addresses. */
  ghost predicate TextKeepsMail(text: string) { forall line <- SourceLines(text) :: KeepsMail(line) }

  lemma RestHas(s: string, p: nat, lit: string)
    requires Has(s, p, lit)
    ensures p <= |s| && Has(s[p..], 0, lit)
  {
    assert s[p..][0..|lit|] == s[p..p + |lit|];
  }

  lemma RestHasFold(s: string, p: nat, lit: string)
    requires HasFold(s, p, lit)
    ensures p <= |s| && HasFold(s[p..], 0, lit)
  {
    forall k | 0 <= k < |lit| ensures LowerAscii(s[p..][0 + k]) == lit[k] {
      assert LowerAscii(s[p + k]) == lit[k];
    }
  }

  /** A target with an allowed beginning is allowed, if it is no mail address or a whole one. */
  lemma WholeTarget(html: string, i: nat)
    requires SafeTarget(html, i + 9) && Has(html, i, ANCHOR_TAG) && AllNamed(false, html)
    ensures i + 9 <= |html| && IsAllowed(html[i + 9..])
  {
    var p := i + 9;
    if HasFold(html, p, "http://") {
      RestHasFold(html, p, "http://");
    } else if HasFold(html, p, "https://") {
      RestHasFold(html, p, "https://");
    } else if HasFold(html, p, MAIL) {
      RestHasFold(html, p, MAIL);
      assert MailAt(html, i);
      var e: nat :| i + 16 < e < |html| && html[e] == '@' && NameUpTo(false, html, i, e);
      var rest := html[p..];
      forall k | 7 <= k < e - p ensures In(rest[k], MailName) {
        assert rest[k] == html[p + k] && IsNameChar(false, html[p + k]);
      }
      RunEndsAt(rest, 7, e - p, MailName);
    } else if Has(html, p, "/") {
      RestHas(html, p, "/");
    } else if Has(html, p, "#") {
      RestHas(html, p, "#");
    } else if Has(html, p, "./") {
      RestHas(html, p, "./");
    } else {
      RestHas(html, p, "../");
    }
  }

  /**
   In the output of such a text what follows each `<a href="` is admitted by
   the allow-list of `safeHref`, a mail address with its name and its `@`.
   */
  lemma TargetsWhole(text: string, options: Options, i: nat)
    requires CleanOptions(options) && TextKeepsMail(text)
    ensures var html := Rendered(text, options);
            Has(html, i, ANCHOR_TAG) ==> i + 9 <= |html| && IsAllowed(html[i + 9..])
  {
    hide Html, SafeTarget, IsAllowed, KeepsMail, Run;
    var html := Rendered(text, options);
    HtmlClosed(SourceLines(text), options);
    ScanDecides(false, html);
    TargetsAllowed(text, options, i);
    if Has(html, i, ANCHOR_TAG) {
      WholeTarget(html, i);
    }
  }
}
