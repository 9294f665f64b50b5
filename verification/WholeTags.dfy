/** The tags of a whole text: all of them are whole exactly when those of every line that is compiled are. */
module WholeTags {
  import opened Text
  import opened Escaping
  import opened Links
  import opened Lines
  import opened Blocks
  import opened Rewriting
  import opened RuleShapes
  import opened Inline
  import opened TagSafety
  import opened PassSafety
  import opened Renderer
  import opened Guarantees
  import opened TagScan
  import opened TagPasses
  import opened TagLines

  // ----- lines

  lemma EscapedQuoteless(raw: string)
    requires Lacks(raw, NUL)
    ensures IsQuoteless(EscapeHtml(raw))
  {
    EscapedLine(raw);
    assert forall k :: 0 <= k < |EscapeHtml(raw)| ==> !IsMarkup(EscapeHtml(raw)[k]);
  }

  /** A text that is compiled without cutting a tag. */
  ghost predicate CompilesWhole(raw: string, options: Options)
    requires Lacks(raw, NUL)
  {
    EscapedLine(raw);
    LineUncut(EscapeHtml(raw), options)
  }

  lemma LineClean(raw: string, options: Options)
    requires Lacks(raw, NUL) && QuotableOptions(options)
    ensures IsClean(LineHtml(raw, options)) <==> CompilesWhole(raw, options)
  {
    hide InlineHtml, LineUncut, QuotableOptions, TagsWhole, Scan;
    EscapedQuoteless(raw);
    LineKeepsTags(EscapeHtml(raw), options);
    TagScan.ScanDecides(InlineHtml(EscapeHtml(raw), options));
  }

  // ----- elements

  /** The text is passed over, or it breaks. */
  ghost predicate IsSettled(html: string) { IsClean(html) || Scan(Outside, html) == Broken }

  lemma BlockShort(tag: string)
    requires IsBlockName(tag)
    ensures IsShortTag("<" + tag + ">") && IsShortTag("</" + tag + ">")
  {
    hide IsShortTag;
    BlockNames(tag);
    assert |"<" + tag + ">"| <= 12 && |"</" + tag + ">"| <= 13;
  }

  lemma ElementClean(tag: string, body: string)
    requires IsBlockName(tag)
    ensures IsSettled(Element(tag, body)) && (IsClean(Element(tag, body)) <==> IsClean(body))
  {
    hide Scan, IsShortTag, Element, IsBlockName;
    BlockShort(tag);
    ElementScan(Outside, tag, body);
  }

  lemma RuleTags()
    ensures IsShortTag("<br>") && IsShortTag("<hr>")
  {
  }

  ghost predicate AreClean(parts: seq<string>) { forall part <- parts :: IsClean(part) }

  lemma {:induction false} BreaksClean(parts: seq<string>)
    ensures IsClean(Join(parts, "<br>")) <==> AreClean(parts)
  {
    hide Scan, IsShortTag;
    NothingScanned(Outside);
    if |parts| == 1 {
      assert parts == [parts[0]];
    } else if |parts| > 1 {
      var first, rest := parts[0], Join(parts[1..], "<br>");
      BreaksClean(parts[1..]);
      RuleTags();
      ShortTagScan("<br>");
      ScanJoin(Outside, first + "<br>", rest);
      ScanJoin(Outside, first, "<br>");
      if !IsClean(first) {
        OpenedInside(Scan(Outside, first), "<br>");
        StaysBroken(rest);
      }
      assert parts == [first] + parts[1..];
    }
  }

  lemma {:induction false} PartsClean(parts: seq<string>)
    requires forall part <- parts :: IsSettled(part)
    ensures IsSettled(Join(parts, "")) && (IsClean(Join(parts, "")) <==> AreClean(parts))
  {
    hide Scan;
    NothingScanned(Outside);
    if |parts| == 1 {
      assert parts == [parts[0]] && parts[0] in parts;
    } else if |parts| > 1 {
      var first, rest := parts[0], Join(parts[1..], "");
      PartsClean(parts[1..]);
      assert parts == [first] + parts[1..] && first in parts;
      ScanJoin(Outside, first, rest);
      assert first + "" + rest == first + rest;
      StaysBroken(rest);
    }
  }

  // ----- blocks

  /** The texts of a block that are compiled. */
  function ItemTyped(body: string): string {
    match Task(body)
    case None => body
    case Some((_, text)) => text
  }

  function Compiles(chunk: seq<string>): seq<string>
    requires chunk != []
  {
    match Classify(chunk[0])
    case HeadingLine(_, text) => [text]
    case QuoteLine(text) => [text]
    case ItemLine(_, _) => seq(|chunk|, k requires 0 <= k < |chunk| => ItemTyped(ItemBody(chunk[k])))
    case ProseLine => chunk
    case _ => []
  }

  lemma CompilesLack(chunk: seq<string>)
    requires chunk != [] && CleanLines(chunk, NUL)
    ensures forall text <- Compiles(chunk) :: Lacks(text, NUL)
  {
    hide Classify;
    assert Lacks(chunk[0], NUL);
    forall text <- Compiles(chunk) ensures Lacks(text, NUL) {
      if Classify(chunk[0]).ItemLine? {
        var k :| 0 <= k < |chunk| && text == ItemTyped(ItemBody(chunk[k]));
        assert Lacks(chunk[k], NUL);
      } else if Classify(chunk[0]).ProseLine? {
        var k :| 0 <= k < |chunk| && text == chunk[k];
      }
    }
  }

  ghost predicate ChunkWhole(chunk: seq<string>, options: Options)
    requires chunk != [] && CleanLines(chunk, NUL)
  {
    forall text <- Compiles(chunk) :: CompilesLack(chunk); CompilesWhole(text, options)
  }

  lemma TaskTagClean(done: bool)
    ensures IsClean((if done then DONE_TASK_TAG else OPEN_TASK_TAG) + " ")
  {
    hide Scan, IsWholeTag;
    var tag := if done then DONE_TASK_TAG else OPEN_TASK_TAG;
    FixedTagScan(tag);
    PlainScan(" ");
    ScanJoin(Outside, tag, " ");
  }

  lemma ItemClean(body: string, options: Options)
    requires Lacks(body, NUL) && QuotableOptions(options)
    ensures Lacks(ItemTyped(body), NUL) && (IsClean(ItemHtml(body, options)) <==> CompilesWhole(ItemTyped(body), options))
  {
    hide Scan, LineHtml, CompilesWhole, QuotableOptions;
    match Task(body) {
      case None => LineClean(body, options);
      case Some((done, text)) =>
        LineClean(text, options);
        TaskTagClean(done);
        ScanJoin(Outside, (if done then DONE_TASK_TAG else OPEN_TASK_TAG) + " ", LineHtml(text, options));
    }
  }

  lemma ListClean(lines: seq<string>, ordered: bool, options: Options)
    requires CleanLines(lines, NUL) && QuotableOptions(options)
    ensures forall k :: 0 <= k < |lines| ==> Lacks(ItemTyped(ItemBody(lines[k])), NUL)
    ensures var html := ListHtml(ordered, Items(lines, options));
            IsSettled(html)
            && (IsClean(html) <==> forall k :: 0 <= k < |lines| ==> CompilesWhole(ItemTyped(ItemBody(lines[k])), options))
  {
    hide Scan, ItemHtml, Element, CompilesWhole, QuotableOptions, ItemBody, ItemTyped, IsClean;
    var items := Items(lines, options);
    var parts := seq(|items|, k requires 0 <= k < |items| => Element("li", items[k]));
    forall k | 0 <= k < |lines|
      ensures Lacks(ItemTyped(ItemBody(lines[k])), NUL)
      ensures IsClean(parts[k]) <==> CompilesWhole(ItemTyped(ItemBody(lines[k])), options)
      ensures IsSettled(parts[k])
    {
      assert Lacks(lines[k], NUL);
      ItemClean(ItemBody(lines[k]), options);
      ElementClean("li", items[k]);
    }
    forall part <- parts ensures IsSettled(part) {
      var k :| 0 <= k < |parts| && part == parts[k];
    }
    PartsClean(parts);
    AllParts(parts);
    ElementClean(ListTag(ordered), Join(parts, ""));
  }

  lemma AllParts(parts: seq<string>)
    ensures AreClean(parts) <==> forall k :: 0 <= k < |parts| ==> IsClean(parts[k])
  {
    hide IsClean;
    if forall k :: 0 <= k < |parts| ==> IsClean(parts[k]) {
      forall part <- parts ensures IsClean(part) {
        var k :| 0 <= k < |parts| && part == parts[k];
      }
    }
    if AreClean(parts) {
      forall k | 0 <= k < |parts| ensures IsClean(parts[k]) {
        assert parts[k] in parts;
      }
    }
  }

  lemma ParagraphClean(lines: seq<string>, options: Options)
    requires CleanLines(lines, NUL) && QuotableOptions(options)
    ensures var html := ParagraphHtml(lines, options);
            IsSettled(html) && (IsClean(html) <==> forall k :: 0 <= k < |lines| ==> CompilesWhole(lines[k], options))
  {
    hide Scan, LineHtml, Element, CompilesWhole, QuotableOptions, IsClean;
    var parts := seq(|lines|, k requires 0 <= k < |lines| => LineHtml(lines[k], options));
    forall k | 0 <= k < |lines| ensures IsClean(parts[k]) <==> CompilesWhole(lines[k], options) {
      assert Lacks(lines[k], NUL);
      LineClean(lines[k], options);
    }
    BreaksClean(parts);
    AllParts(parts);
    ElementClean("p", Join(parts, "<br>"));
  }

  lemma FencedClean(language: string, body: seq<string>)
    ensures IsClean(FencedHtml(language, body))
  {
    hide Scan, IsShortTag, EscapeHtml;
    var text, opener := EscapeHtml(Join(body, "\n")), CodeOpener(language);
    FenceShort();
    ShortTagScan("<pre>");
    ShortTagScan("</pre>");
    ShortTagScan("</code>");
    OpenerClean(language);
    EscapedValue(Join(body, "\n"));
    PlainScan(text);
    ScanJoin(Outside, "<pre>" + opener + text + "</code>", "</pre>");
    ScanJoin(Outside, "<pre>" + opener + text, "</code>");
    ScanJoin(Outside, "<pre>" + opener, text);
    ScanJoin(Outside, "<pre>", opener);
  }

  lemma FenceShort()
    ensures IsShortTag("<pre>") && IsShortTag("</pre>") && IsShortTag("<code>") && IsShortTag("</code>")
  {
  }

  lemma EscapedValue(value: string)
    ensures IsValue(EscapeHtml(value))
  {
    assert forall k :: 0 <= k < |EscapeHtml(value)| ==> !IsMarkup(EscapeHtml(value)[k]);
  }

  lemma OpenerClean(language: string)
    ensures IsClean(CodeOpener(language))
  {
    hide Scan, IsShortTag, EscapeHtml;
    if language == "" {
      FenceShort();
      ShortTagScan("<code>");
    } else {
      EscapedValue(language);
      CodeTagScan(EscapeHtml(language));
    }
  }

  lemma OneLineClean(tag: string, text: string, options: Options)
    requires IsBlockName(tag) && Lacks(text, NUL) && QuotableOptions(options)
    ensures var html := Element(tag, LineHtml(text, options));
            IsSettled(html) && (IsClean(html) <==> CompilesWhole(text, options))
  {
    hide Scan, LineHtml, Element, CompilesWhole, QuotableOptions, IsBlockName;
    LineClean(text, options);
    ElementClean(tag, LineHtml(text, options));
  }

  lemma HeadingName(level: nat)
    requires 1 <= level <= 6
    ensures IsBlockName(HeadingTag(level))
  {
    var tag := HeadingTag(level);
    assert tag[0] == 'h' && |tag| == 2;
    assert tag == "h1" || tag == "h2" || tag == "h3" || tag == "h4" || tag == "h5" || tag == "h6";
  }

  lemma RuleClean()
    ensures IsClean("<hr>") && IsClean("")
  {
    hide IsShortTag;
    RuleTags();
    ShortTagScan("<hr>");
    NothingScanned(Outside);
  }

  /** A block is passed over, or it breaks; it is passed over exactly when all its texts compile whole. */
  lemma ChunkClean(chunk: seq<string>, options: Options)
    requires chunk != [] && CleanLines(chunk, NUL) && QuotableOptions(options)
    ensures IsSettled(ChunkHtml(chunk, options)) && (IsClean(ChunkHtml(chunk, options)) <==> ChunkWhole(chunk, options))
  {
    hide Scan, Classify, LineHtml, ParagraphHtml, ListHtml, FencedHtml, Items, Element, HeadingTag, FenceEnd, CompilesWhole,
      QuotableOptions, IsClean, ItemTyped, ItemBody;
    assert Lacks(chunk[0], NUL);
    CompilesLack(chunk);
    var texts := Compiles(chunk);
    assert ChunkWhole(chunk, options) <==> forall k :: 0 <= k < |texts| ==> CompilesWhole(texts[k], options) by {
      TextsWhole(chunk, options);
    }
    match Classify(chunk[0]) {
      case FenceLine(language) => FencedClean(language, chunk[1..FenceEnd(chunk, 1)]);
      case BlankLine => RuleClean();
      case HeadingLine(level, text) =>
        HeadingName(level);
        OneLineClean(HeadingTag(level), text, options);
      case RuleLine => RuleClean();
      case QuoteLine(text) => OneLineClean("blockquote", text, options);
      case ItemLine(ordered, _) =>
        ListClean(chunk, ordered, options);
        assert |texts| == |chunk| && forall k :: 0 <= k < |chunk| ==> texts[k] == ItemTyped(ItemBody(chunk[k]));
        if forall k :: 0 <= k < |texts| ==> CompilesWhole(texts[k], options) {
          forall k | 0 <= k < |chunk| ensures CompilesWhole(ItemTyped(ItemBody(chunk[k])), options) {
            assert CompilesWhole(texts[k], options);
          }
        }
      case ProseLine => ParagraphClean(chunk, options);
    }
  }

  lemma TextsWhole(chunk: seq<string>, options: Options)
    requires chunk != [] && CleanLines(chunk, NUL)
    ensures forall text <- Compiles(chunk) :: Lacks(text, NUL)
    ensures ChunkWhole(chunk, options)
            <==> forall k :: 0 <= k < |Compiles(chunk)| ==> CompilesWhole(Compiles(chunk)[k], options)
  {
    hide CompilesWhole, Compiles;
    CompilesLack(chunk);
    var texts := Compiles(chunk);
    forall text <- texts ensures exists k :: 0 <= k < |texts| && texts[k] == text {
    }
  }

  ghost predicate ChunksWhole(chunks: seq<seq<string>>, options: Options)
    requires CleanChunks(chunks)
  {
    forall k :: 0 <= k < |chunks| ==> ChunkWhole(chunks[k], options)
  }

  lemma {:induction false} MarkupClean(chunks: seq<seq<string>>, options: Options)
    requires CleanChunks(chunks) && QuotableOptions(options)
    ensures IsSettled(MarkupOf(chunks, options)) && (IsClean(MarkupOf(chunks, options)) <==> ChunksWhole(chunks, options))
  {
    hide Scan, ChunkHtml, ChunkWhole, QuotableOptions, CleanLines;
    if chunks == [] {
      NothingScanned(Outside);
    } else {
      var first, rest := ChunkHtml(chunks[0], options), MarkupOf(chunks[1..], options);
      MarkupClean(chunks[1..], options);
      ChunkClean(chunks[0], options);
      ScanJoin(Outside, first, rest);
      StaysBroken(rest);
      assert chunks == [chunks[0]] + chunks[1..];
    }
  }

  /**
   For every text, however it is divided into blocks: all tags of the output
   are whole, so that none has an attribute or an end that the renderer did not
   write, exactly when every text that is compiled keeps its tags.
   */
  lemma RenderedTags(text: string, options: Options, chunks: seq<seq<string>>)
    requires QuotableOptions(options) && IsChunking(SourceLines(text), chunks)
    ensures CleanChunks(chunks) && (TagsWhole(Rendered(text, options)) <==> ChunksWhole(chunks, options))
  {
    hide Scan, Rendered, MarkupOf, ChunkWhole, QuotableOptions, TagsWhole, IsChunking;
    RenderedByBlocks(text, options, chunks);
    MarkupClean(chunks, options);
    TagScan.ScanDecides(Rendered(text, options));
  }

  // ----- what that means for a link

  lemma SecondChar(t: string)
    requires IsWholeTag(t) && !IsLinkTag(t) && |t| >= 2
    ensures t[1] != 'a'
  {
    hide LocalTarget, IsShortTag, IsValue;
    if IsShortTag(t) {
      ShortTagScan(t);
      ShortSecond(t);
    } else if IsImageTag(t) {
      var src: string, alt: string :| LocalTarget(src, 0) && IsValue(src) && IsValue(alt) && t == ImageElement(src, alt);
    } else if IsCodeTag(t) {
      var language: string :| IsValue(language) && t == CodeTag(language);
    }
  }

  lemma ShortSecond(t: string)
    requires IsShortTag(t)
    ensures |t| >= 2 && t[1] != 'a'
  {
    hide IsFixedTag;
    ShortTagShape(t);
  }

  /** The target of the link that opens at `i` begins with `http://` or `https://`, in any case. */
  predicate LeadsOut(html: string, i: nat) { HasFold(html, i + 9, "http://") || HasFold(html, i + 9, "https://") }

  /** At `i` stands a link to a target that the allow-list admits, and what follows the target closes the tag. */
  ghost predicate LinkCloses(html: string, i: nat, tail: string) {
    exists href: string :: IsAllowed(href) && IsValue(href) && Has(html, i, "<a href=\"" + href + tail)
  }

  /**
   In such an output each link opening is a whole tag of a link: a target that
   the allow-list admits, its closing quote, and, exactly if it leads out, the
   two attributes that keep the page it opens away from this one.
   */
  lemma LinksWhole(html: string, i: nat)
    requires TagsWhole(html) && Has(html, i, "<a href=\"")
    ensures LeadsOut(html, i) ==> LinkCloses(html, i, "\" target=\"_blank\" rel=\"noopener noreferrer nofollow\">")
    ensures !LeadsOut(html, i) ==> LinkCloses(html, i, "\">")
  {
    hide IsWholeTag, IsAllowed, IsValue, LinkTag, HasFold;
    CharOf(html, i, ANCHOR_TAG, i);
    CharOf(html, i, ANCHOR_TAG, i + 1);
    var e: nat :| TagStands(html, i, e);
    var t := html[i..e];
    WholeEnds(t);
    assert t[1] == html[i + 1] == 'a';
    LinkTagIs(t);
    var href: string :| IsAllowed(href) && IsValue(href) && t == LinkTag(href);
    assert html[i..i + |t|] == t;
    LinkTagTexts(href);
    SameTarget(html, i, href, "http://");
    SameTarget(html, i, href, "https://");
  }

  /** A target begins alike in its tag and by itself: the closing quote is no part of `lit`. */
  lemma SameTarget(html: string, i: nat, href: string, lit: string)
    requires Has(html, i, LinkTag(href)) && Lacks(lit, '"')
    ensures HasFold(html, i + 9, lit) <==> HasFold(href, 0, lit)
  {
    var t := LinkTag(href);
    assert forall k :: 0 <= k < |t| ==> html[i + k] == html[i..i + |t|][k] == t[k];
    assert forall k :: 0 <= k < |href| ==> t[9 + k] == href[k];
    assert t[9 + |href|] == '"';
    assert |href| < |lit| ==> LowerAscii(html[i + 9 + |href|]) != lit[|href|];
  }

  lemma LinkTagTexts(href: string)
    ensures LinkTag(href)
            == "<a href=\"" + href
               + if HasFold(href, 0, "http://") || HasFold(href, 0, "https://")
                 then "\" target=\"_blank\" rel=\"noopener noreferrer nofollow\">" else "\">"
  {
    AnchorTexts();
  }

  lemma WholeEnds(t: string)
    requires IsWholeTag(t)
    ensures |t| >= 2
  {
    hide LocalTarget, IsShortTag, IsValue, IsAllowed;
    if IsShortTag(t) {
      ShortSecond(t);
    }
  }

  lemma LinkTagIs(t: string)
    requires IsWholeTag(t) && |t| >= 2 && t[1] == 'a'
    ensures IsLinkTag(t)
  {
    hide IsWholeTag;
    if !IsLinkTag(t) {
      SecondChar(t);
    }
  }
}
