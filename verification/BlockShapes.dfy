/**
 From the shape of a line to the markup of its block. The shapes exclude each
 other, so the order in which the renderer tries them does not matter, and what
 each block becomes can be said without the renderer's own vocabulary.
 */
module BlockShapes {
  import opened Text
  import opened Links
  import opened Lines
  import opened LineShapes
  import opened Blocks
  import opened Inline
  import opened TagSafety
  import opened Renderer
  import opened Escaping
  import opened Guarantees
  import opened RuleShapes

  ghost predicate IsFence(line: string) { exists i: nat, j: nat, k: nat :: FenceShape(line, i, j, k) }

  ghost predicate IsBlank(line: string) { AllIn(line, 0, |line|, Space) }

  ghost predicate IsHeading(line: string) { exists h: nat, m: nat :: HeadingShape(line, h, m) }

  ghost predicate IsRuleLine(line: string) { exists i: nat, k: nat :: RuleShape(line, i, k) }

  ghost predicate IsQuote(line: string) { exists m: nat :: QuoteShape(line, m) }

  ghost predicate IsBullet(line: string) { exists i: nat, m: nat :: BulletShape(line, i, m) }

  ghost predicate IsNumbered(line: string) { exists i: nat, d: nat, m: nat :: NumberedShape(line, i, d, m) }

  /** A line of no shape is prose. */
  ghost predicate IsProse(line: string) {
    && !IsFence(line) && !IsBlank(line) && !IsHeading(line) && !IsRuleLine(line) && !IsQuote(line)
    && !IsBullet(line) && !IsNumbered(line)
  }

  // ----- the first mark of a line tells its shape

  /** The first character that is not a space stands at `f`. */
  ghost predicate Begins(line: string, f: nat) {
    f < |line| && AllIn(line, 0, f, Space) && !IsSpace(line[f])
  }

  lemma OneBeginning(line: string, f: nat, g: nat)
    requires Begins(line, f) && Begins(line, g)
    ensures f == g
  {
  }

  lemma FenceBegins(line: string) returns (f: nat)
    requires IsFence(line)
    ensures Begins(line, f) && line[f] == '`'
  {
    var i: nat, j: nat, k: nat :| FenceShape(line, i, j, k);
    f := i;
    assert line[i] == line[i..i + 3][0];
  }

  lemma HeadingBegins(line: string)
    requires IsHeading(line)
    ensures Begins(line, 0) && line[0] == '#'
  {
    var h: nat, m: nat :| HeadingShape(line, h, m);
    assert In(line[0], Only('#'));
  }

  lemma RuleBegins(line: string) returns (f: nat)
    requires IsRuleLine(line)
    ensures Begins(line, f) && f + 1 < |line| && line[f + 1] == line[f]
    ensures line[f] == '-' || line[f] == '*' || line[f] == '_'
  {
    var i: nat, k: nat :| RuleShape(line, i, k);
    f := i;
    assert In(line[i + 1], Only(line[i]));
  }

  lemma QuoteBegins(line: string)
    requires IsQuote(line)
    ensures Begins(line, 0) && line[0] == '>'
  {
  }

  lemma BulletBegins(line: string) returns (f: nat)
    requires IsBullet(line)
    ensures Begins(line, f) && f + 1 < |line| && IsSpace(line[f + 1])
    ensures line[f] == '-' || line[f] == '*' || line[f] == '+'
  {
    var i: nat, m: nat :| BulletShape(line, i, m);
    f := i;
    assert In(line[i + 1], Space);
  }

  lemma NumberedBegins(line: string) returns (f: nat)
    requires IsNumbered(line)
    ensures Begins(line, f) && IsDigit(line[f])
  {
    var i: nat, d: nat, m: nat :| NumberedShape(line, i, d, m);
    f := i;
    assert In(line[i], Digit);
  }

  /** What the shapes say about the mark that a line begins with. */
  lemma ShapesBegin(line: string, f: nat)
    requires Begins(line, f)
    ensures IsFence(line) ==> line[f] == '`'
    ensures !IsBlank(line)
    ensures IsHeading(line) ==> line[f] == '#'
    ensures IsRuleLine(line) ==> (line[f] == '-' || line[f] == '*' || line[f] == '_') && f + 1 < |line| && line[f + 1] == line[f]
    ensures IsQuote(line) ==> line[f] == '>'
    ensures IsBullet(line) ==> (line[f] == '-' || line[f] == '*' || line[f] == '+') && f + 1 < |line| && IsSpace(line[f + 1])
    ensures IsNumbered(line) ==> IsDigit(line[f])
  {
    hide IsFence, IsHeading, IsRuleLine, IsQuote, IsBullet, IsNumbered;
    assert !In(line[f], Space);
    if IsFence(line) { var g := FenceBegins(line); OneBeginning(line, f, g); }
    if IsHeading(line) { HeadingBegins(line); OneBeginning(line, f, 0); }
    if IsRuleLine(line) { var g := RuleBegins(line); OneBeginning(line, f, g); }
    if IsQuote(line) { QuoteBegins(line); OneBeginning(line, f, 0); }
    if IsBullet(line) { var g := BulletBegins(line); OneBeginning(line, f, g); }
    if IsNumbered(line) { var g := NumberedBegins(line); OneBeginning(line, f, g); }
  }

  /** A line without a first mark is blank and nothing else. */
  lemma BlankHasNoShape(line: string)
    requires IsBlank(line)
    ensures !IsFence(line) && !IsHeading(line) && !IsRuleLine(line) && !IsQuote(line) && !IsBullet(line) && !IsNumbered(line)
  {
    hide IsFence, IsHeading, IsRuleLine, IsQuote, IsBullet, IsNumbered;
    forall f: nat ensures !Begins(line, f) {
      assert f < |line| ==> In(line[f], Space);
    }
    if IsFence(line) { var g := FenceBegins(line); assert false; }
    if IsHeading(line) { HeadingBegins(line); assert false; }
    if IsRuleLine(line) { var g := RuleBegins(line); assert false; }
    if IsQuote(line) { QuoteBegins(line); assert false; }
    if IsBullet(line) { var g := BulletBegins(line); assert false; }
    if IsNumbered(line) { var g := NumberedBegins(line); assert false; }
  }

  /** No line has two shapes: the order in which the renderer tries them is immaterial. */
  lemma OneShape(line: string)
    ensures IsFence(line) ==>
              !IsBlank(line) && !IsHeading(line) && !IsRuleLine(line) && !IsQuote(line) && !IsBullet(line) && !IsNumbered(line)
    ensures IsBlank(line) ==> !IsHeading(line) && !IsRuleLine(line) && !IsQuote(line) && !IsBullet(line) && !IsNumbered(line)
    ensures IsHeading(line) ==> !IsRuleLine(line) && !IsQuote(line) && !IsBullet(line) && !IsNumbered(line)
    ensures IsRuleLine(line) ==> !IsQuote(line) && !IsBullet(line) && !IsNumbered(line)
    ensures IsQuote(line) ==> !IsBullet(line) && !IsNumbered(line)
    ensures IsBullet(line) ==> !IsNumbered(line)
  {
    hide IsFence, IsBlank, IsHeading, IsRuleLine, IsQuote, IsBullet, IsNumbered;
    if IsBlank(line) {
      BlankHasNoShape(line);
    } else {
      MarkOf(line);
      ShapesBegin(line, RunEnd(line, 0, Space));
    }
  }

  lemma MarkOf(line: string)
    requires !IsBlank(line)
    ensures Begins(line, RunEnd(line, 0, Space))
  {
  }

  /** What the renderer takes a line for is its shape. */
  lemma KindIsShape(line: string)
    ensures var kind := Classify(line);
            && (kind.FenceLine? <==> IsFence(line)) && (kind.BlankLine? <==> IsBlank(line))
            && (kind.HeadingLine? <==> IsHeading(line)) && (kind.RuleLine? <==> IsRuleLine(line))
            && (kind.QuoteLine? <==> IsQuote(line))
            && (kind == ItemLine(false, ItemBody(line)) <==> IsBullet(line))
            && (kind == ItemLine(true, ItemBody(line)) <==> IsNumbered(line))
            && (kind.ProseLine? <==> IsProse(line))
  {
    hide FenceLanguage, Trim, Heading, IsRule, Quote, Bullet, Numbered, FenceShape, HeadingShape, RuleShape, QuoteShape,
         BulletShape, NumberedShape, AllIn;
    FenceExact(line);
    HeadingExact(line);
    RuleExact(line);
    QuoteExact(line);
    BulletExact(line);
    NumberedExact(line);
    BlankExact(line);
    OneShape(line);
  }

  lemma BlankExact(line: string)
    ensures Trim(line) == "" <==> IsBlank(line)
  {
    var a: nat, b: nat :| a <= b <= |line| && Trim(line) == line[a..b] && AllIn(line, 0, a, Space) && AllIn(line, b, |line|, Space);
  }

  // ----- blocks of one line

  /** A heading has the level of its number signs. */
  lemma HeadingBlock(lines: seq<string>, options: Options, h: nat, m: nat)
    requires lines != [] && CleanLines(lines, NUL) && HeadingShape(lines[0], h, m)
    ensures CleanLines(lines[1..], NUL) && Lacks(Trim(lines[0][m..]), NUL)
    ensures Html(lines, options)
            == ("<h" + Decimal(h) + ">") + LineHtml(Trim(lines[0][m..]), options) + ("</h" + Decimal(h) + ">") + Html(lines[1..], options)
  {
    assert Lacks(lines[0], NUL);
    hide LineHtml, HeadingShape, Classify, Heading, Element, CleanLines;
    assert IsHeading(lines[0]);
    KindIsShape(lines[0]);
    HeadingExact(lines[0]);
    OneLineBlock(lines, options);
    HeadingParts(lines[0], h, m, options);
  }

  lemma HeadingParts(line: string, h: nat, m: nat, options: Options)
    requires Lacks(line, NUL) && HeadingShape(line, h, m) && Heading(line) == Some((h, Trim(line[m..])))
    requires Classify(line).HeadingLine?
    ensures Lacks(Trim(line[m..]), NUL)
    ensures ChunkHtml([line], options)
            == ("<h" + Decimal(h) + ">") + LineHtml(Trim(line[m..]), options) + ("</h" + Decimal(h) + ">")
  {
    hide LineHtml, FenceLanguage, IsRule, Trim, RunEnd, Element, Decimal, HeadingTag;
    ElementText(HeadingTag(h), LineHtml(Trim(line[m..]), options));
    HeadingTagText(h);
  }

  lemma HeadingTagText(h: nat)
    requires 1 <= h <= 6
    ensures "<" + HeadingTag(h) + ">" == "<h" + Decimal(h) + ">"
    ensures "</" + HeadingTag(h) + ">" == "</h" + Decimal(h) + ">"
  {
    assert Decimal(h) == [('0' as int + h) as char];
  }

  lemma OneLineBlock(lines: seq<string>, options: Options)
    requires lines != [] && CleanLines(lines, NUL)
    requires var kind := Classify(lines[0]); kind.BlankLine? || kind.HeadingLine? || kind.RuleLine? || kind.QuoteLine?
    ensures CleanLines(lines[1..], NUL) && CleanLines([lines[0]], NUL)
    ensures Html(lines, options) == ChunkHtml([lines[0]], options) + Html(lines[1..], options)
  {
    hide ChunkHtml, Classify, ChunkLength;
    SingleLine(lines, 0);
    assert lines[0..] == lines && lines[..1] == [lines[0]];
  }

  lemma QuoteBlock(lines: seq<string>, options: Options, m: nat)
    requires lines != [] && CleanLines(lines, NUL) && QuoteShape(lines[0], m)
    ensures CleanLines(lines[1..], NUL) && Lacks(lines[0][m..], NUL)
    ensures Html(lines, options)
            == "<blockquote>" + LineHtml(lines[0][m..], options) + "</blockquote>" + Html(lines[1..], options)
  {
    assert Lacks(lines[0], NUL);
    hide LineHtml, QuoteShape, Classify, Quote, Element, CleanLines;
    assert IsQuote(lines[0]);
    KindIsShape(lines[0]);
    QuoteExact(lines[0]);
    OneLineBlock(lines, options);
    QuoteParts(lines[0], m, options);
  }

  lemma QuoteParts(line: string, m: nat, options: Options)
    requires Lacks(line, NUL) && m <= |line| && Quote(line) == Some(line[m..])
    requires Classify(line).QuoteLine?
    ensures Lacks(line[m..], NUL)
    ensures ChunkHtml([line], options) == "<blockquote>" + LineHtml(line[m..], options) + "</blockquote>"
  {
    hide LineHtml, FenceLanguage, IsRule, Trim, RunEnd, Element, Heading, Quote;
    ElementText("blockquote", LineHtml(line[m..], options));
    assert "<" + "blockquote" + ">" == "<blockquote>" && "</" + "blockquote" + ">" == "</blockquote>";
  }

  lemma RuleOrBlankBlock(lines: seq<string>, options: Options)
    requires lines != [] && CleanLines(lines, NUL) && (IsRuleLine(lines[0]) || IsBlank(lines[0]))
    ensures CleanLines(lines[1..], NUL)
    ensures Html(lines, options) == (if IsRuleLine(lines[0]) then "<hr>" else "") + Html(lines[1..], options)
  {
    hide Classify, CleanLines, IsBlank, IsRuleLine;
    KindIsShape(lines[0]);
    OneShape(lines[0]);
    OneLineBlock(lines, options);
  }

  // ----- fences

  /** The line opens a fence whose language stands from `j` to `k`. */
  ghost predicate FenceOpens(line: string, j: nat, k: nat) { exists i: nat :: FenceShape(line, i, j, k) }

  /** Three backticks and spaces around them. */
  ghost predicate Closes(line: string) { exists i: nat, j: nat :: FenceShape(line, i, j, j) }

  lemma ClosesExact(line: string)
    ensures Closes(line) <==> IsFenceClose(line)
  {
    hide IsFenceClose, FenceLanguage;
    FenceExact(line);
    FenceCloseExact(line);
    if IsFenceClose(line) {
      var i: nat, j: nat, k: nat :| FenceShape(line, i, j, k);
      assert FenceShape(line, i, j, j);
    }
  }

  lemma FenceKind(line: string, j: nat, k: nat)
    requires FenceOpens(line, j, k)
    ensures j <= k <= |line| && Classify(line) == FenceLine(line[j..k]) && EscapeHtml(line[j..k]) == line[j..k]
  {
    hide FenceLanguage;
    FenceExact(line);
    assert forall n :: j <= n < k ==> In(line[n], Language);
    NothingEscaped(line[j..k]);
  }

  lemma CodeOpenerText(language: string)
    requires EscapeHtml(language) == language
    ensures CodeOpener(language) == if language == "" then "<code>" else "<code class=\"language-" + language + "\">"
  {
  }

  /** A fence runs to its first closing line or to the end, and holds the lines between as they are. */
  lemma FenceBlock(lines: seq<string>, options: Options, j: nat, k: nat, end: nat)
    requires CleanLines(lines, NUL) && 1 <= end <= |lines| && FenceOpens(lines[0], j, k)
    requires (forall n :: 1 <= n < end ==> !Closes(lines[n])) && (end < |lines| ==> Closes(lines[end]))
    ensures var rest := if end < |lines| then lines[end + 1..] else [];
            && j <= k <= |lines[0]| && CleanLines(rest, NUL)
            && Html(lines, options)
               == "<pre>" + (if j == k then "<code>" else "<code class=\"language-" + lines[0][j..k] + "\">")
                  + EscapeHtml(Join(lines[1..end], "\n")) + "</code>" + "</pre>" + Html(rest, options)
  {
    hide Closes, FenceOpens, IsFenceClose, Classify, EscapeHtml, Html, Join, CodeOpener, CleanLines;
    FenceKind(lines[0], j, k);
    forall n | 0 <= n < |lines| ensures Closes(lines[n]) <==> IsFenceClose(lines[n]) {
      ClosesExact(lines[n]);
    }
    CodeOpenerText(lines[0][j..k]);
    FencedBodyLiteral(lines, options, end);
  }

  // ----- lists and paragraphs

  ghost predicate IsItem(line: string, ordered: bool) { if ordered then IsNumbered(line) else IsBullet(line) }

  lemma ItemKind(line: string, ordered: bool)
    ensures IsItem(line, ordered) <==> Classify(line).ItemLine? && Classify(line).ordered == ordered
  {
    hide IsBullet, IsNumbered, Classify;
    KindIsShape(line);
  }

  /** The text of an item is what stands behind its marker. */
  lemma ItemText(line: string, i: nat, d: nat, m: nat)
    ensures BulletShape(line, i, m) ==> ItemBody(line) == line[m..]
    ensures NumberedShape(line, i, d, m) ==> ItemBody(line) == line[m..]
  {
    hide FenceLanguage, Trim, Heading, IsRule, Quote, Bullet, Numbered, BulletShape, NumberedShape;
    BulletExact(line);
    NumberedExact(line);
    KindIsShape(line);
    if NumberedShape(line, i, d, m) {
      OneShape(line);
    }
  }

  lemma GroupBlock(lines: seq<string>, options: Options, n: nat)
    requires CleanLines(lines, NUL) && 1 <= n <= |lines| && Ends(lines, 0, n)
    requires var kind := Classify(lines[0]); kind.ProseLine? || kind.ItemLine?
    requires forall k :: 0 < k < n ==> Continues(Classify(lines[0]), lines[k])
    ensures CleanLines(lines[..n], NUL) && CleanLines(lines[n..], NUL)
    ensures Html(lines, options) == ChunkHtml(lines[..n], options) + Html(lines[n..], options)
  {
    hide Classify, ChunkHtml, ChunkLength, Continues, Ends;
    assert lines[0..] == lines;
    PendingChunk(lines, 0, n);
  }

  /** A longest run of items of one kind is one list. */
  lemma ListBlock(lines: seq<string>, options: Options, n: nat, ordered: bool)
    requires CleanLines(lines, NUL) && 1 <= n <= |lines|
    requires forall k :: 0 <= k < n ==> IsItem(lines[k], ordered)
    requires n < |lines| ==> !IsItem(lines[n], ordered)
    ensures CleanLines(lines[..n], NUL) && CleanLines(lines[n..], NUL)
    ensures Html(lines, options) == ListHtml(ordered, Items(lines[..n], options)) + Html(lines[n..], options)
  {
    hide Classify, IsItem, ListHtml, Items, Html, CleanLines;
    forall k | 0 <= k < |lines| ensures IsItem(lines[k], ordered) <==> Classify(lines[k]).ItemLine? && Classify(lines[k]).ordered == ordered {
      ItemKind(lines[k], ordered);
    }
    GroupBlock(lines, options, n);
  }

  /** The markup of a list: its tag, and each item in its own. */
  lemma ListText(ordered: bool, items: seq<string>)
    ensures ListHtml(ordered, items)
            == (if ordered then "<ol>" else "<ul>")
               + Join(seq(|items|, k requires 0 <= k < |items| => "<li>" + items[k] + "</li>"), "")
               + (if ordered then "</ol>" else "</ul>")
  {
    hide Element, Join;
    var wrapped := seq(|items|, k requires 0 <= k < |items| => "<li>" + items[k] + "</li>");
    var elements := seq(|items|, k requires 0 <= k < |items| => Element("li", items[k]));
    forall k | 0 <= k < |items| ensures elements[k] == wrapped[k] {
      ElementText("li", items[k]);
      assert "<" + "li" + ">" == "<li>" && "</" + "li" + ">" == "</li>";
    }
    assert elements == wrapped;
    ElementText(ListTag(ordered), Join(wrapped, ""));
    assert "<" + "ol" + ">" == "<ol>" && "</" + "ol" + ">" == "</ol>";
    assert "<" + "ul" + ">" == "<ul>" && "</" + "ul" + ">" == "</ul>";
  }

  /** `html` is the body of an item whose text is `raw`: a task shows a disabled box, checked for an x of either case. */
  ghost predicate IsItemBody(html: string, raw: string, options: Options)
    requires Lacks(raw, NUL)
  {
    && (forall m: nat :: TaskShape(raw, m) ==>
          html == (if raw[1] == ' ' then "<input type=\"checkbox\" disabled> " else "<input type=\"checkbox\" disabled checked> ")
                  + LineHtml(raw[m..], options))
    && ((forall m: nat :: !TaskShape(raw, m)) ==> html == LineHtml(raw, options))
  }

  lemma ItemBodyExact(raw: string, options: Options)
    requires Lacks(raw, NUL)
    ensures IsItemBody(ItemHtml(raw, options), raw, options)
  {
    hide TaskShape, Task, LineHtml;
    TaskExact(raw);
    TaskBoxes();
    forall m: nat | TaskShape(raw, m) ensures |raw| >= 3 && (raw[1] == ' ' || raw[1] == 'x' || raw[1] == 'X') {
      TaskMark(raw, m);
    }
  }

  lemma TaskMark(raw: string, m: nat)
    requires TaskShape(raw, m)
    ensures |raw| >= 3 && (raw[1] == ' ' || raw[1] == 'x' || raw[1] == 'X')
  {
  }

  lemma TaskBoxes()
    ensures OPEN_TASK_TAG + " " == "<input type=\"checkbox\" disabled> "
    ensures DONE_TASK_TAG + " " == "<input type=\"checkbox\" disabled checked> "
  {
  }

  /** The marker of an item, and the space behind it, end in front of `m`. */
  ghost predicate MarkerEnds(line: string, ordered: bool, m: nat) {
    if ordered then exists i: nat, d: nat :: NumberedShape(line, i, d, m) else exists i: nat :: BulletShape(line, i, m)
  }

  lemma MarkerBody(line: string, ordered: bool, m: nat)
    requires MarkerEnds(line, ordered, m)
    ensures m <= |line| && ItemBody(line) == line[m..]
  {
    hide ItemBody;
    if ordered {
      var i: nat, d: nat :| NumberedShape(line, i, d, m);
      ItemText(line, i, d, m);
    } else {
      var i: nat :| BulletShape(line, i, m);
      ItemText(line, i, 0, m);
    }
  }

  ghost predicate IsListElement(element: string, raw: string, options: Options)
    requires Lacks(raw, NUL)
  {
    exists body: string :: IsItemBody(body, raw, options) && element == "<li>" + body + "</li>"
  }

  lemma CleanElements(lines: seq<string>, options: Options, ordered: bool)
    requires CleanLines(lines, NUL)
    ensures forall k: nat, m: nat :: k < |lines| && MarkerEnds(lines[k], ordered, m) ==>
              m <= |lines[k]| && Lacks(lines[k][m..], NUL)
              && IsListElement("<li>" + Items(lines, options)[k] + "</li>", lines[k][m..], options)
  {
    hide ItemBody, ItemHtml, MarkerEnds, IsItemBody;
    forall k: nat, m: nat | k < |lines| && MarkerEnds(lines[k], ordered, m)
      ensures m <= |lines[k]| && Lacks(lines[k][m..], NUL)
      ensures IsListElement("<li>" + Items(lines, options)[k] + "</li>", lines[k][m..], options)
    {
      assert Lacks(lines[k], NUL);
      MarkerBody(lines[k], ordered, m);
      ItemBodyExact(lines[k][m..], options);
    }
  }

  /**
   A longest run of items of one kind is one list with an element for each line:
   the text behind the marker, and in front of it the box of a task, checked or not.
   */
  lemma ListElements(lines: seq<string>, options: Options, n: nat, ordered: bool) returns (elements: seq<string>)
    requires CleanLines(lines, NUL) && 1 <= n <= |lines|
    requires forall k :: 0 <= k < n ==> IsItem(lines[k], ordered)
    requires n < |lines| ==> !IsItem(lines[n], ordered)
    ensures CleanLines(lines[n..], NUL) && |elements| == n
    ensures Html(lines, options)
            == (if ordered then "<ol>" else "<ul>") + Join(elements, "") + (if ordered then "</ol>" else "</ul>")
               + Html(lines[n..], options)
    ensures forall k: nat, m: nat :: k < n && MarkerEnds(lines[k], ordered, m) ==>
              m <= |lines[k]| && Lacks(lines[k][m..], NUL) && IsListElement(elements[k], lines[k][m..], options)
  {
    hide Items, IsItem, IsListElement, Join, Html, ListHtml, MarkerEnds;
    ListBlock(lines, options, n, ordered);
    var items := Items(lines[..n], options);
    ListText(ordered, items);
    CleanElements(lines[..n], options, ordered);
    elements := seq(n, k requires 0 <= k < n => "<li>" + items[k] + "</li>");
    assert elements == seq(|items|, k requires 0 <= k < |items| => "<li>" + items[k] + "</li>");
    forall k: nat, m: nat | k < n && MarkerEnds(lines[k], ordered, m)
      ensures m <= |lines[k]| && Lacks(lines[k][m..], NUL) && IsListElement(elements[k], lines[k][m..], options)
    {
      assert lines[..n][k] == lines[k];
    }
  }

  lemma ParagraphText(lines: seq<string>, options: Options)
    requires CleanLines(lines, NUL)
    ensures ParagraphHtml(lines, options)
            == "<p>" + Join(seq(|lines|, k requires 0 <= k < |lines| => LineHtml(lines[k], options)), "<br>") + "</p>"
  {
    hide LineHtml, Join, Element;
    ElementText("p", Join(seq(|lines|, k requires 0 <= k < |lines| => LineHtml(lines[k], options)), "<br>"));
    assert "<" + "p" + ">" == "<p>" && "</" + "p" + ">" == "</p>";
  }

  /** A longest run of prose is one paragraph, its lines kept apart by breaks. */
  lemma ParagraphBlock(lines: seq<string>, options: Options, n: nat)
    requires CleanLines(lines, NUL) && 1 <= n <= |lines|
    requires forall k :: 0 <= k < n ==> IsProse(lines[k])
    requires n < |lines| ==> !IsProse(lines[n])
    ensures CleanLines(lines[..n], NUL) && CleanLines(lines[n..], NUL)
    ensures Html(lines, options) == ParagraphHtml(lines[..n], options) + Html(lines[n..], options)
  {
    hide Classify, IsProse, ParagraphHtml, Html, CleanLines;
    forall k | 0 <= k < |lines| ensures IsProse(lines[k]) <==> Classify(lines[k]).ProseLine? {
      KindIsShape(lines[k]);
    }
    GroupBlock(lines, options, n);
  }
}
