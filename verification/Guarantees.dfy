/** What a caller of `renderMarkdown` may rely on, for every text. */
module Guarantees {
  import opened Text
  import opened Escaping
  import opened Links
  import opened Lines
  import opened Blocks
  import opened Inline
  import opened TagSafety
  import opened PassSafety
  import opened Renderer

  ghost predicate IsSafe(html: string) { OnlyOwnTags(html) && Lacks(html, NUL) }

  ghost predicate IsSafeMarkup(html: string) { IsMarkupText(html) && Lacks(html, NUL) }

  lemma SafeJoin(a: string, b: string)
    requires IsSafe(a) && IsSafe(b) && NoSlashesMeet(a, b)
    ensures IsSafe(a + b)
  {
    hide OnlyOwnTags;
    TagsJoin(a, b);
  }

  lemma MarkupBetween(a: string, html: string, b: string)
    requires IsSafe(a) && IsSafeMarkup(html) && IsSafe(b)
    ensures IsSafe(a + html + b)
  {
    hide OnlyOwnTags;
    MarkupJoin(a, html, b);
  }

  /** The names of the elements that blocks are emitted as. */
  predicate IsBlockName(tag: string) {
    || tag == "p" || tag == "ul" || tag == "ol" || tag == "li" || tag == "blockquote"
    || tag == "h1" || tag == "h2" || tag == "h3" || tag == "h4" || tag == "h5" || tag == "h6"
  }

  lemma TextBlockNames(tag: string)
    requires tag == "p" || tag == "ul" || tag == "ol" || tag == "li" || tag == "blockquote"
    ensures IsFixedTag("<" + tag + ">") && IsFixedTag("</" + tag + ">") && Lacks(tag, NUL)
  {
    if tag == "p" { assert "<" + tag + ">" == "<p>" && "</" + tag + ">" == "</p>"; }
    else if tag == "blockquote" { assert "<" + tag + ">" == "<blockquote>" && "</" + tag + ">" == "</blockquote>"; }
    else { ListNames(tag); }
  }

  lemma ListNames(tag: string)
    requires tag == "ul" || tag == "ol" || tag == "li"
    ensures IsFixedTag("<" + tag + ">") && IsFixedTag("</" + tag + ">") && Lacks(tag, NUL)
  {
    if tag == "ul" { assert "<" + tag + ">" == "<ul>" && "</" + tag + ">" == "</ul>"; }
    else if tag == "ol" { assert "<" + tag + ">" == "<ol>" && "</" + tag + ">" == "</ol>"; }
    else if tag == "li" { assert "<" + tag + ">" == "<li>" && "</" + tag + ">" == "</li>"; }
  }

  lemma HeadingNames(tag: string)
    requires tag == "h1" || tag == "h2" || tag == "h3" || tag == "h4" || tag == "h5" || tag == "h6"
    ensures IsFixedTag("<" + tag + ">") && IsFixedTag("</" + tag + ">") && Lacks(tag, NUL)
  {
    if tag == "h1" { assert "<" + tag + ">" == "<h1>" && "</" + tag + ">" == "</h1>"; }
    else if tag == "h2" { assert "<" + tag + ">" == "<h2>" && "</" + tag + ">" == "</h2>"; }
    else if tag == "h3" { assert "<" + tag + ">" == "<h3>" && "</" + tag + ">" == "</h3>"; }
    else if tag == "h4" { assert "<" + tag + ">" == "<h4>" && "</" + tag + ">" == "</h4>"; }
    else if tag == "h5" { assert "<" + tag + ">" == "<h5>" && "</" + tag + ">" == "</h5>"; }
    else if tag == "h6" { assert "<" + tag + ">" == "<h6>" && "</" + tag + ">" == "</h6>"; }
  }

  lemma BlockNames(tag: string)
    requires IsBlockName(tag)
    ensures IsFixedTag("<" + tag + ">") && IsFixedTag("</" + tag + ">") && Lacks(tag, NUL)
  {
    hide IsFixedTag;
    if tag == "p" || tag == "ul" || tag == "ol" || tag == "li" || tag == "blockquote" {
      TextBlockNames(tag);
    } else {
      HeadingNames(tag);
    }
  }

  lemma TagSafe(t: string)
    requires IsFixedTag(t) && Lacks(t, NUL)
    ensures IsSafe(t) && t != "" && t[0] == '<' && t[|t| - 1] != '/'
    ensures t[|t| - 1] == '>' ==> IsSafeMarkup(t)
  {
    hide OnlyOwnTags, IsFixedTag;
    OneTag(t);
  }

  lemma BlockElementSafe(tag: string, body: string)
    requires IsBlockName(tag) && IsSafe(body)
    ensures IsSafeMarkup(Element(tag, body))
  {
    hide OnlyOwnTags, IsFixedTag, IsBlockName;
    BlockNames(tag);
    ElementSafe(tag, body);
  }

  lemma LineSafe(raw: string, options: Options)
    requires Lacks(raw, NUL) && CleanOptions(options)
    ensures IsSafe(LineHtml(raw, options))
  {
    hide InlineHtml;
    EscapedLine(raw);
    InlineSafe(EscapeHtml(raw), options);
  }

  lemma TaskTagSafe(done: bool)
    ensures IsSafe((if done then DONE_TASK_TAG else OPEN_TASK_TAG) + " ")
  {
    hide OnlyOwnTags;
    var tag := if done then DONE_TASK_TAG else OPEN_TASK_TAG;
    TagSafe(tag);
    Untagged(" ");
    SafeJoin(tag, " ");
  }

  lemma ItemSafe(body: string, options: Options)
    requires Lacks(body, NUL) && CleanOptions(options)
    ensures IsSafe(ItemHtml(body, options))
  {
    hide LineHtml, OnlyOwnTags;
    match Task(body) {
      case None => LineSafe(body, options);
      case Some((done, text)) =>
        LineSafe(text, options);
        TaskTagSafe(done);
        SafeJoin((if done then DONE_TASK_TAG else OPEN_TASK_TAG) + " ", LineHtml(text, options));
    }
  }

  lemma {:induction false} BrokenLinesSafe(parts: seq<string>)
    requires forall part <- parts :: IsSafe(part)
    ensures IsSafe(Join(parts, "<br>"))
  {
    hide OnlyOwnTags;
    BreakSafe();
    if |parts| == 0 {
      Untagged("");
    } else if |parts| > 1 {
      BrokenLinesSafe(parts[1..]);
      assert parts[0] in parts;
      MarkupBetween(parts[0], "<br>", Join(parts[1..], "<br>"));
    }
  }

  lemma LineTags()
    ensures IsFixedTag("<br>") && IsFixedTag("<hr>")
  {
  }

  lemma BreakSafe()
    ensures IsSafeMarkup("<br>") && IsSafeMarkup("<hr>")
  {
    hide OnlyOwnTags, IsFixedTag;
    LineTags();
    TagSafe("<br>");
    TagSafe("<hr>");
  }

  lemma {:induction false} MarkupListSafe(parts: seq<string>)
    requires forall part <- parts :: part != "" ==> IsSafeMarkup(part)
    ensures IsSafe(Join(parts, ""))
  {
    hide OnlyOwnTags;
    Untagged("");
    if |parts| > 1 {
      MarkupListSafe(parts[1..]);
      var rest := Join(parts[1..], "");
      assert parts[0] in parts;
      if parts[0] == "" {
        assert parts[0] + "" + rest == rest;
      } else {
        MarkupBetween("", parts[0], rest);
        assert "" + parts[0] + rest == parts[0] + "" + rest;
      }
    } else if |parts| == 1 {
      assert parts[0] in parts;
    }
  }

  lemma ParagraphSafe(lines: seq<string>, options: Options)
    requires CleanLines(lines, NUL) && CleanOptions(options)
    ensures IsSafeMarkup(ParagraphHtml(lines, options))
  {
    hide LineHtml, IsSafe, Element, CleanOptions;
    var parts := seq(|lines|, k requires 0 <= k < |lines| => LineHtml(lines[k], options));
    forall part <- parts ensures IsSafe(part) {
      var k :| 0 <= k < |lines| && part == LineHtml(lines[k], options);
      LineSafe(lines[k], options);
    }
    BrokenLinesSafe(parts);
    BlockElementSafe("p", Join(parts, "<br>"));
  }

  lemma ListSafe(ordered: bool, items: seq<string>)
    requires forall item <- items :: IsSafe(item)
    ensures IsSafeMarkup(ListHtml(ordered, items))
  {
    hide IsSafe, Element, IsSafeMarkup;
    var parts := seq(|items|, k requires 0 <= k < |items| => Element("li", items[k]));
    forall part <- parts ensures IsSafeMarkup(part) {
      var k :| 0 <= k < |items| && part == Element("li", items[k]);
      assert items[k] in items;
      BlockElementSafe("li", items[k]);
    }
    MarkupListSafe(parts);
    BlockElementSafe(ListTag(ordered), Join(parts, ""));
  }

  lemma ItemsSafe(lines: seq<string>, options: Options)
    requires CleanLines(lines, NUL) && CleanOptions(options)
    ensures forall item <- Items(lines, options) :: IsSafe(item)
  {
    hide ItemHtml, ItemBody, IsSafe, CleanOptions;
    forall item <- Items(lines, options) ensures IsSafe(item) {
      var k :| 0 <= k < |lines| && item == ItemHtml(ItemBody(lines[k]), options);
      ItemSafe(ItemBody(lines[k]), options);
    }
  }

  // ----- fences

  lemma EscapedSafe(value: string)
    requires Lacks(value, NUL)
    ensures IsSafe(EscapeHtml(value))
  {
    EscapedLine(value);
    Untagged(EscapeHtml(value));
  }

  lemma {:induction false} JoinLacksNul(lines: seq<string>)
    requires CleanLines(lines, NUL)
    ensures Lacks(Join(lines, "\n"), NUL)
  {
    if |lines| > 1 {
      JoinLacksNul(lines[1..]);
      assert Lacks(lines[0], NUL);
    } else if |lines| == 1 {
      assert Lacks(lines[0], NUL);
    }
  }

  lemma FenceTags()
    ensures IsFixedTag("<pre>") && IsFixedTag("</pre>") && IsFixedTag("<code>") && IsFixedTag("</code>")
  {
  }

  lemma FenceTagsSafe()
    ensures IsSafeMarkup("<pre>") && IsSafeMarkup("</pre>") && IsSafeMarkup("<code>") && IsSafeMarkup("</code>")
  {
    hide OnlyOwnTags, IsFixedTag;
    FenceTags();
    TagSafe("<pre>");
    TagSafe("</pre>");
    TagSafe("<code>");
    TagSafe("</code>");
  }

  lemma LanguageTagSafe()
    ensures IsSafe(LANGUAGE_TAG) && LANGUAGE_TAG[0] == '<' && LANGUAGE_TAG[|LANGUAGE_TAG| - 1] != '/'
  {
    hide OnlyOwnTags;
    TagSafe(LANGUAGE_TAG);
  }

  function CodeOpener(language: string): string {
    if language == "" then "<code>" else LANGUAGE_TAG + EscapeHtml(language) + "\">"
  }

  lemma CodeOpenerSafe(language: string)
    requires Lacks(language, NUL)
    ensures IsSafeMarkup(CodeOpener(language))
  {
    hide OnlyOwnTags;
    FenceTagsSafe();
    LanguageTagSafe();
    if language != "" {
      EscapedSafe(language);
      assert forall k :: 0 <= k < |EscapeHtml(language)| ==> !IsMarkup(EscapeHtml(language)[k]);
      SafeJoin(LANGUAGE_TAG, EscapeHtml(language));
      Untagged("\">");
      SafeJoin(LANGUAGE_TAG + EscapeHtml(language), "\">");
    }
  }

  lemma FencedSafe(language: string, body: seq<string>)
    requires Lacks(language, NUL) && CleanLines(body, NUL)
    ensures IsSafeMarkup(FencedHtml(language, body))
  {
    hide OnlyOwnTags, EscapeHtml;
    FenceTagsSafe();
    CodeOpenerSafe(language);
    JoinLacksNul(body);
    EscapedSafe(Join(body, "\n"));
    var opener, text := CodeOpener(language), EscapeHtml(Join(body, "\n"));
    SafeJoin("<pre>", opener);
    SafeJoin("<pre>" + opener, text);
    MarkupBetween("<pre>" + opener + text, "</code>", "</pre>");
  }

  // ----- the whole text

  ghost predicate IsBlockText(html: string) { html != "" ==> IsSafeMarkup(html) }

  lemma HeadingSafe(level: nat, text: string, options: Options)
    requires 1 <= level <= 6 && Lacks(text, NUL) && CleanOptions(options)
    ensures IsSafeMarkup(Element(HeadingTag(level), LineHtml(text, options)))
  {
    hide IsSafe, IsSafeMarkup, LineHtml;
    LineSafe(text, options);
    var tag := HeadingTag(level);
    assert tag[0] == 'h' && |tag| == 2;
    assert tag == "h1" || tag == "h2" || tag == "h3" || tag == "h4" || tag == "h5" || tag == "h6";
    BlockElementSafe(tag, LineHtml(text, options));
  }

  lemma ChunkSafe(chunk: seq<string>, options: Options)
    requires chunk != [] && CleanLines(chunk, NUL) && CleanOptions(options)
    ensures IsBlockText(ChunkHtml(chunk, options))
  {
    hide IsSafe, IsSafeMarkup, LineHtml, ParagraphHtml, ListHtml, FencedHtml, CleanOptions, Items, Element, HeadingTag, FenceEnd;
    assert Lacks(chunk[0], NUL);
    match Classify(chunk[0]) {
      case FenceLine(language) =>
        LanguageLacksNul(language);
        FencedSafe(language, chunk[1..FenceEnd(chunk, 1)]);
      case BlankLine =>
      case HeadingLine(level, text) => HeadingSafe(level, text, options);
      case RuleLine => BreakSafe();
      case QuoteLine(text) =>
        LineSafe(text, options);
        BlockElementSafe("blockquote", LineHtml(text, options));
      case ItemLine(ordered, _) =>
        ItemsSafe(chunk, options);
        ListSafe(ordered, Items(chunk, options));
      case ProseLine => ParagraphSafe(chunk, options);
    }
  }

  lemma LanguageLacksNul(language: string)
    requires forall k :: 0 <= k < |language| ==> In(language[k], Language)
    ensures Lacks(language, NUL)
  {
  }

  lemma {:induction false} HtmlSafe(lines: seq<string>, options: Options)
    requires CleanLines(lines, NUL) && CleanOptions(options)
    ensures IsSafe(Html(lines, options))
  {
    hide IsSafe, ChunkHtml, CleanOptions;
    if lines == [] {
      EmptySafe();
    } else {
      var n := ChunkLength(lines);
      CleanSlice(lines, 0, n);
      CleanSlice(lines, n, |lines|);
      assert lines[0..n] == lines[..n] && lines[n..|lines|] == lines[n..];
      ChunkSafe(lines[..n], options);
      HtmlSafe(lines[n..], options);
      BlockJoin(ChunkHtml(lines[..n], options), Html(lines[n..], options));
    }
  }

  lemma EmptySafe()
    ensures IsSafe("")
  {
  }

  lemma BlockJoin(html: string, rest: string)
    requires IsBlockText(html) && IsSafe(rest)
    ensures IsSafe(html + rest)
  {
    hide OnlyOwnTags;
    if html == "" {
      assert html + rest == rest;
    } else {
      SafeJoin(html, rest);
    }
  }

  /**
   For every text: each `<` of the output begins a tag that the renderer wrote,
   links and images have allow-listed targets, and no placeholder is left.
   */
  lemma RenderedIsSafe(text: string, options: Options)
    requires CleanOptions(options)
    ensures OnlyOwnTags(Rendered(text, options)) && Lacks(Rendered(text, options), NUL)
  {
    HtmlSafe(SourceLines(text), options);
  }

  /** A text beyond 200 000 characters is rendered like its beginning. */
  lemma LongTextCut(text: string, options: Options)
    requires |text| > 200_000
    ensures Rendered(text, options) == Rendered(text[..200_000], options)
  {
    hide SourceLines, Html;
    SourceText(text);
  }

  /** A path on this host begins at `p`, and no other host can be meant: `/` without a second one, `./` or `../`. */
  predicate IsPathAt(html: string, p: nat) {
    || (p < |html| && html[p] == '/' && (p + 1 < |html| ==> html[p + 1] != '/'))
    || (p + 1 < |html| && html[p] == '.' && html[p + 1] == '/')
    || (p + 2 < |html| && html[p] == '.' && html[p + 1] == '.' && html[p + 2] == '/')
  }

  lemma PathBegins(html: string, p: nat)
    requires LocalTarget(html, p)
    ensures IsPathAt(html, p)
  {
    assert Has(html, p, "/") ==> html[p..p + 1][0] == html[p];
    assert Has(html, p, "./") ==> html[p..p + 2][0] == html[p] && html[p..p + 2][1] == html[p + 1];
    assert Has(html, p, "../") ==> html[p..p + 3][0] == html[p] && html[p..p + 3][1] == html[p + 1] && html[p..p + 3][2] == html[p + 2];
  }

  /** What that means for the links and the images of the output. */
  lemma TargetsAllowed(text: string, options: Options, i: nat)
    requires CleanOptions(options)
    ensures var html := Rendered(text, options);
            && (Has(html, i, ANCHOR_TAG) ==>
                  var scheme := SchemeAt(html, i + 9);
                  SafeTarget(html, i + 9)
                  && (scheme.None? || scheme.value == "http" || scheme.value == "https" || scheme.value == "mailto"))
            && (Has(html, i, IMAGE_TAG) ==> IsPathAt(html, i + 10))
  {
    hide Rendered;
    var html := Rendered(text, options);
    RenderedIsSafe(text, options);
    if Has(html, i, ANCHOR_TAG) {
      assert html[i] == html[i..i + 9][0] == '<';
      OnlyAnchor(html, i);
      SafeTargetScheme(html, i + 9);
    }
    if Has(html, i, IMAGE_TAG) {
      assert html[i] == html[i..i + 10][0] == '<';
      OnlyImage(html, i);
      PathBegins(html, i + 10);
    }
  }

  lemma OnlyAnchor(html: string, i: nat)
    requires i < |html| && Has(html, i, ANCHOR_TAG) && TagAt(html, i)
    ensures AnchorAt(html, i)
  {
    hide SafeTarget, LocalTarget, IsFixedTag, LacksSpaceH, HasTagChars;
    NotFixed(html, i, ANCHOR_TAG);
    CharOf(html, i, ANCHOR_TAG, i + 1);
    CharOf(html, i, IMAGE_TAG, i + 1);
  }

  lemma OnlyImage(html: string, i: nat)
    requires i < |html| && Has(html, i, IMAGE_TAG) && TagAt(html, i)
    ensures ImageAt(html, i)
  {
    hide SafeTarget, LocalTarget, IsFixedTag, LacksSpaceH, HasTagChars;
    NotFixed(html, i, IMAGE_TAG);
    CharOf(html, i, ANCHOR_TAG, i + 1);
    CharOf(html, i, IMAGE_TAG, i + 1);
  }

  /** No fixed tag begins like the link or the image tag. */
  lemma NotFixed(html: string, i: nat, opener: string)
    requires i < |html| && Has(html, i, opener) && (opener == ANCHOR_TAG || opener == IMAGE_TAG)
    ensures !FixedTagAt(html, i)
  {
    hide IsFixedTag, LacksSpaceH, HasTagChars;
    CharOf(html, i, opener, i + 1);
    CharOf(html, i, opener, i + 2);
    forall t | IsFixedTag(t) ensures !Has(html, i, t) {
      FixedTagShape(t);
      CharOf(html, i, t, i + 1);
      CharOf(html, i, t, i + 2);
    }
  }

  // ----- fenced blocks

  lemma FirstChunkHtml(lines: seq<string>, options: Options, n: nat)
    requires lines != [] && CleanLines(lines, NUL) && n == ChunkLength(lines)
    ensures CleanLines(lines[..n], NUL) && CleanLines(lines[n..], NUL)
    ensures Html(lines, options) == ChunkHtml(lines[..n], options) + Html(lines[n..], options)
  {
    hide ChunkHtml, ChunkLength;
  }

  /** The body of a fence reads back as exactly the lines it encloses. */
  lemma FencedBodyLiteral(lines: seq<string>, options: Options, end: nat)
    requires CleanLines(lines, NUL) && 1 <= end <= |lines| && Classify(lines[0]).FenceLine?
    requires forall k :: 1 <= k < end ==> !IsFenceClose(lines[k])
    requires end < |lines| ==> IsFenceClose(lines[end])
    ensures var body := EscapeHtml(Join(lines[1..end], "\n"));
            var rest := if end < |lines| then lines[end + 1..] else [];
            && CleanLines(rest, NUL)
            && Html(lines, options)
               == "<pre>" + CodeOpener(Classify(lines[0]).language) + body + "</code>" + "</pre>" + Html(rest, options)
            && Unescape(body) == Join(lines[1..end], "\n")
  {
    hide Classify, IsFenceClose, EscapeHtml, Unescape, Join, Html, ChunkLength, FenceEnd;
    EscapeRoundTrip(Join(lines[1..end], "\n"));
    FenceChunk(lines, 0, end);
    var next := if end < |lines| then end + 1 else end;
    assert lines[0..] == lines && lines[0..next] == lines[..next];
    FirstChunkHtml(lines, options, next);
    FencedMarkup(lines, options, 0, end, Classify(lines[0]).language);
    assert end == |lines| ==> lines[next..] == [];
  }

  // ----- blocks

  ghost predicate CleanChunks(chunks: seq<seq<string>>) {
    forall k :: 0 <= k < |chunks| ==> chunks[k] != [] && CleanLines(chunks[k], NUL)
  }

  /** One element a chunk, in the order of the chunks. */
  function MarkupOf(chunks: seq<seq<string>>, options: Options): string
    requires CleanChunks(chunks)
  {
    if chunks == [] then "" else ChunkHtml(chunks[0], options) + MarkupOf(chunks[1..], options)
  }

  lemma {:induction false} HtmlOfChunks(lines: seq<string>, options: Options)
    requires CleanLines(lines, NUL)
    ensures CleanChunks(Chunks(lines)) && Html(lines, options) == MarkupOf(Chunks(lines), options)
  {
    hide ChunkHtml, CleanLines, ChunkLength;
    if lines != [] {
      var n := ChunkLength(lines);
      CleanSlice(lines, 0, n);
      CleanSlice(lines, n, |lines|);
      assert lines[0..n] == lines[..n] && lines[n..|lines|] == lines[n..];
      HtmlOfChunks(lines[n..], options);
      assert Chunks(lines)[1..] == Chunks(lines[n..]);
    }
  }

  /**
   The output is the markup of the one way to divide the lines into blocks:
   whoever divides them correctly gets this text, so no line is dropped,
   repeated or moved, and neighbouring lists of different kinds stay apart.
   */
  lemma RenderedByBlocks(text: string, options: Options, chunks: seq<seq<string>>)
    requires IsChunking(SourceLines(text), chunks)
    ensures CleanChunks(chunks) && Rendered(text, options) == MarkupOf(chunks, options)
    ensures Flatten(chunks) == SourceLines(text)
  {
    hide ChunkHtml, ChunkLength, Html, MarkupOf;
    ChunkingUnique(SourceLines(text), chunks);
    ChunksKeepLines(SourceLines(text));
    HtmlOfChunks(SourceLines(text), options);
  }
}
