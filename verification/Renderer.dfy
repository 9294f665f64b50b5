/** `renderMarkdown`: the markup of a chunk, and the loop that emits it. */
module Renderer {
  import opened Text
  import opened Escaping
  import opened Links
  import opened Lines
  import opened Blocks
  import opened Inline
  import opened TagSafety
  import opened PassSafety

  lemma EscapedLine(raw: string)
    requires Lacks(raw, NUL)
    ensures IsEscaped(EscapeHtml(raw))
  {
    EscapeLacks(raw, NUL);
    assert forall k :: 0 <= k < |EscapeHtml(raw)| ==> !IsMarkup(EscapeHtml(raw)[k]);
  }

  /** `renderInline(escapeHtml(raw), options)` */
  function LineHtml(raw: string, options: Options): string
    requires Lacks(raw, NUL)
  {
    EscapedLine(raw);
    InlineHtml(EscapeHtml(raw), options)
  }

  /** `listItemBody`: a task gets a disabled box in front of its text. */
  function ItemHtml(body: string, options: Options): string
    requires Lacks(body, NUL)
  {
    match Task(body)
    case None => LineHtml(body, options)
    case Some((done, text)) => (if done then DONE_TASK_TAG else OPEN_TASK_TAG) + " " + LineHtml(text, options)
  }

  function ListTag(ordered: bool): string { if ordered then "ol" else "ul" }

  function ListHtml(ordered: bool, items: seq<string>): string {
    Element(ListTag(ordered), Join(seq(|items|, k requires 0 <= k < |items| => Element("li", items[k])), ""))
  }

  function ParagraphHtml(lines: seq<string>, options: Options): string
    requires CleanLines(lines, NUL)
  {
    Element("p", Join(seq(|lines|, k requires 0 <= k < |lines| => LineHtml(lines[k], options)), "<br>"))
  }

  function FencedHtml(language: string, body: seq<string>): string {
    "<pre>" + (if language == "" then "<code>" else LANGUAGE_TAG + EscapeHtml(language) + "\">")
    + EscapeHtml(Join(body, "\n")) + "</code>" + "</pre>"
  }

  function HeadingTag(level: nat): string
    requires 1 <= level <= 6
  {
    "h" + [('0' as int + level) as char]
  }

  /** The body of the list item that a line holds. */
  function ItemBody(line: string): (body: string)
    ensures Lacks(line, NUL) ==> Lacks(body, NUL)
  {
    match Classify(line)
    case ItemLine(_, body) => body
    case _ => line
  }

  function Items(lines: seq<string>, options: Options): (items: seq<string>)
    requires CleanLines(lines, NUL)
    ensures |items| == |lines|
  {
    seq(|lines|, k requires 0 <= k < |lines| => ItemHtml(ItemBody(lines[k]), options))
  }

  /** The one element a chunk becomes; a blank line becomes nothing. */
  function ChunkHtml(chunk: seq<string>, options: Options): string
    requires chunk != [] && CleanLines(chunk, NUL)
  {
    match Classify(chunk[0])
    case FenceLine(language) => FencedHtml(language, chunk[1..FenceEnd(chunk, 1)])
    case BlankLine => ""
    case HeadingLine(level, text) => Element(HeadingTag(level), LineHtml(text, options))
    case RuleLine => "<hr>"
    case QuoteLine(text) => Element("blockquote", LineHtml(text, options))
    case ItemLine(ordered, _) => ListHtml(ordered, Items(chunk, options))
    case ProseLine => ParagraphHtml(chunk, options)
  }

  function Html(lines: seq<string>, options: Options): string
    requires CleanLines(lines, NUL)
  {
    if lines == [] then ""
    else ChunkHtml(lines[..ChunkLength(lines)], options) + Html(lines[ChunkLength(lines)..], options)
  }

  function Rendered(text: string, options: Options): string {
    Html(SourceLines(text), options)
  }

  // ----- the loop

  datatype PendingList = PendingList(ordered: bool, items: seq<string>)

  lemma {:induction false} JoinAppend(out: seq<string>, html: string)
    ensures Join(out + [html], "") == Join(out, "") + html
  {
    if |out| == 0 {
      assert out + [html] == [html];
    } else if |out| == 1 {
      assert (out + [html])[1..] == [html];
    } else {
      JoinAppend(out[1..], html);
      assert (out + [html])[1..] == out[1..] + [html];
    }
  }

  /**
   Lines start..index are pending, in the paragraph or in the list but never in
   both; what was emitted before them is the markup of the lines before `start`.
   */
  ghost predicate Inv(lines: seq<string>, options: Options, start: nat, index: nat,
                      out: seq<string>, paragraph: seq<string>, list: Option<PendingList>)
  {
    && CleanLines(lines, NUL) && start <= index <= |lines|
    && Join(out, "") + Html(lines[start..], options) == Html(lines, options)
    && IsPending(lines[start..index], options, paragraph, list)
  }

  ghost predicate IsPending(pending: seq<string>, options: Options, paragraph: seq<string>, list: Option<PendingList>)
    requires CleanLines(pending, NUL)
  {
    match list
    case None => paragraph == pending && forall line <- pending :: Classify(line).ProseLine?
    case Some(l) =>
      && paragraph == [] && pending != [] && l.items == Items(pending, options)
      && forall line <- pending :: Classify(line).ItemLine? && Classify(line).ordered == l.ordered
  }

  /** What a pending paragraph or list is emitted as. */
  function PendingHtml(options: Options, paragraph: seq<string>, list: Option<PendingList>): seq<string>
    requires CleanLines(paragraph, NUL)
  {
    (if paragraph == [] then [] else [ParagraphHtml(paragraph, options)])
    + (match list case None => [] case Some(l) => [ListHtml(l.ordered, l.items)])
  }

  /** The pending lines end here: at the end of the text, or before a line they cannot take. */
  ghost predicate Ends(lines: seq<string>, start: nat, index: nat)
    requires start < index <= |lines|
  {
    index == |lines| || !Continues(Classify(lines[start]), lines[index])
  }

  lemma PendingChunk(lines: seq<string>, start: nat, index: nat)
    requires start < index <= |lines| && Ends(lines, start, index)
    requires var kind := Classify(lines[start]); kind.ProseLine? || kind.ItemLine?
    requires forall k :: start < k < index ==> Continues(Classify(lines[start]), lines[k])
    ensures ChunkLength(lines[start..]) == index - start
  {
    hide Classify, Continues;
    var rest, n := lines[start..], index - start;
    assert rest[..n] == lines[start..index];
    assert IsChunk(rest[..n]);
    assert rest[n..] != [] ==> rest[n..][0] == lines[index];
    assert IsComplete(rest[..n], rest[n..]);
    ChunkLengthUnique(rest, n);
  }

  lemma CleanSlice(lines: seq<string>, a: nat, b: nat)
    requires CleanLines(lines, NUL) && a <= b <= |lines|
    ensures CleanLines(lines[a..b], NUL)
  {
  }

  /** Emitting what is pending, when the pending lines end here, leaves nothing pending. */
  lemma FlushKeeps(lines: seq<string>, options: Options, start: nat, index: nat,
                   out: seq<string>, paragraph: seq<string>, list: Option<PendingList>)
    requires Inv(lines, options, start, index, out, paragraph, list)
    requires start < index ==> Ends(lines, start, index)
    ensures CleanLines(paragraph, NUL)
    ensures Inv(lines, options, index, index, out + PendingHtml(options, paragraph, list), [], None)
  {
    hide LineHtml, ItemHtml, ListHtml, ParagraphHtml, Classify, FencedHtml, Join;
    var pending := lines[start..index];
    CleanSlice(lines, start, index);
    assert lines[index..index] == [];
    if start == index {
      assert pending == [] && paragraph == [] && list.None?;
      assert out + PendingHtml(options, paragraph, list) == out;
    } else {
      FlushChunk(lines, options, start, index, paragraph, list);
      var html := ChunkHtml(pending, options);
      assert PendingHtml(options, paragraph, list) == [html];
      JoinAppend(out, html);
      Regroup(Join(out, ""), html, Html(lines[index..], options));
    }
  }

  lemma FlushChunk(lines: seq<string>, options: Options, start: nat, index: nat,
                   paragraph: seq<string>, list: Option<PendingList>)
    requires CleanLines(lines, NUL) && start < index <= |lines| && Ends(lines, start, index)
    requires IsPending(lines[start..index], options, paragraph, list)
    ensures CleanLines(paragraph, NUL)
    ensures PendingHtml(options, paragraph, list) == [ChunkHtml(lines[start..index], options)]
    ensures Html(lines[start..], options) == ChunkHtml(lines[start..index], options) + Html(lines[index..], options)
  {
    hide LineHtml, ItemHtml, ListHtml, ParagraphHtml, Classify, FencedHtml, Items, ChunkLength, Html;
    var pending, rest := lines[start..index], lines[start..];
    assert pending[0] == lines[start] && lines[start] in pending;
    forall k | start < k < index ensures Continues(Classify(lines[start]), lines[k]) {
      assert lines[k] == pending[k - start] && lines[k] in pending;
    }
    PendingChunk(lines, start, index);
    assert rest[..index - start] == pending && rest[index - start..] == lines[index..];
    HtmlUnfold(rest, options);
  }

  lemma HtmlUnfold(lines: seq<string>, options: Options)
    requires lines != [] && CleanLines(lines, NUL)
    ensures var n := ChunkLength(lines);
            Html(lines, options) == ChunkHtml(lines[..n], options) + Html(lines[n..], options)
  {
    hide ChunkHtml, ChunkLength;
  }

  /** A chunk that begins at `index` with nothing pending is emitted as a whole. */
  lemma EmitKeeps(lines: seq<string>, options: Options, index: nat, next: nat, out: seq<string>, html: seq<string>)
    requires Inv(lines, options, index, index, out, [], None) && index < next <= |lines|
    requires ChunkLength(lines[index..]) == next - index
    requires CleanLines(lines[index..next], NUL)
    requires var markup := ChunkHtml(lines[index..next], options); html == if markup == "" then [] else [markup]
    ensures Inv(lines, options, next, next, out + html, [], None)
  {
    hide ChunkHtml, Classify, Join, ChunkLength;
    var rest := lines[index..];
    var markup := ChunkHtml(lines[index..next], options);
    assert rest[..next - index] == lines[index..next] && rest[next - index..] == lines[next..];
    assert lines[next..next] == [];
    if markup == "" {
      assert out + html == out && "" + Html(lines[next..], options) == Html(lines[next..], options);
    } else {
      JoinAppend(out, markup);
      Regroup(Join(out, ""), markup, Html(lines[next..], options));
    }
  }

  lemma ItemsAppend(pending: seq<string>, line: string, options: Options)
    requires CleanLines(pending, NUL) && Lacks(line, NUL)
    ensures CleanLines(pending + [line], NUL)
    ensures Items(pending + [line], options) == Items(pending, options) + [ItemHtml(ItemBody(line), options)]
  {
    hide ItemHtml, ItemBody;
  }

  lemma PushProse(lines: seq<string>, options: Options, start: nat, index: nat,
                  out: seq<string>, paragraph: seq<string>)
    requires Inv(lines, options, start, index, out, paragraph, None)
    requires index < |lines| && Classify(lines[index]).ProseLine?
    ensures Inv(lines, options, start, index + 1, out, paragraph + [lines[index]], None)
  {
    hide Html, Classify, Join;
    assert lines[start..index + 1] == lines[start..index] + [lines[index]];
  }

  lemma PushItem(lines: seq<string>, options: Options, start: nat, index: nat, out: seq<string>, list: Option<PendingList>)
    requires Inv(lines, options, start, index, out, [], list)
    requires index < |lines| && Classify(lines[index]).ItemLine?
    requires list.Some? ==> list.value.ordered == Classify(lines[index]).ordered
    requires list.None? ==> start == index
    ensures Lacks(ItemBody(lines[index]), NUL)
    ensures var item := ItemHtml(ItemBody(lines[index]), options);
            var items := (if list.None? then [] else list.value.items) + [item];
            Inv(lines, options, start, index + 1, out, [], Some(PendingList(Classify(lines[index]).ordered, items)))
  {
    hide Html, Classify, Join, ItemHtml, ItemBody;
    var pending, line := lines[start..index], lines[index];
    assert lines[start..index + 1] == pending + [line];
    CleanSlice(lines, start, index);
    assert Lacks(line, NUL);
    ItemsAppend(pending, line, options);
    if list.None? {
      assert pending == [] && Items([], options) == [];
      var item := [ItemHtml(ItemBody(line), options)];
      assert [] + item == item;
    }
  }

  /** The pending lines end before a line that joins neither the paragraph nor the list. */
  lemma PendingEnds(lines: seq<string>, options: Options, start: nat, index: nat,
                    out: seq<string>, paragraph: seq<string>, list: Option<PendingList>)
    requires Inv(lines, options, start, index, out, paragraph, list)
    requires index < |lines| ==> Separates(Classify(lines[index]), paragraph, list)
    ensures start < index ==> Ends(lines, start, index)
  {
    hide Html, Classify, Join, Items;
    if start < index {
      var pending := lines[start..index];
      assert pending[0] == lines[start] && lines[start] in pending;
    }
  }

  /** A line of this kind does not join what is pending. */
  predicate Separates(kind: Kind, paragraph: seq<string>, list: Option<PendingList>) {
    match kind
    case ProseLine => paragraph == []
    case ItemLine(ordered, _) => list.None? || list.value.ordered != ordered
    case _ => true
  }

  lemma FlushStep(lines: seq<string>, options: Options, start: nat, index: nat,
                  out: seq<string>, paragraph: seq<string>, list: Option<PendingList>)
    requires Inv(lines, options, start, index, out, paragraph, list)
    requires index < |lines| ==> Separates(Classify(lines[index]), paragraph, list)
    ensures CleanLines(paragraph, NUL)
    ensures Inv(lines, options, index, index, out + PendingHtml(options, paragraph, list), [], None)
    ensures paragraph == [] || list.None?
  {
    hide Html, Classify, Join, Items, Ends;
    PendingEnds(lines, options, start, index, out, paragraph, list);
    FlushKeeps(lines, options, start, index, out, paragraph, list);
  }

  method FlushParagraph(out: seq<string>, paragraph: seq<string>, options: Options)
    returns (newOut: seq<string>, newParagraph: seq<string>)
    requires CleanLines(paragraph, NUL)
    ensures newParagraph == [] && newOut == out + PendingHtml(options, paragraph, None)
    ensures paragraph == [] ==> newOut == out
  {
    newOut, newParagraph := out, paragraph;
    if |paragraph| != 0 {
      newOut, newParagraph := out + [ParagraphHtml(paragraph, options)], [];
    }
  }

  method FlushList(out: seq<string>, list: Option<PendingList>, ghost options: Options)
    returns (newOut: seq<string>, newList: Option<PendingList>)
    ensures newList.None? && newOut == out + PendingHtml(options, [], list)
    ensures list.None? ==> newOut == out
  {
    newOut, newList := out, list;
    if list.Some? {
      newOut, newList := out + [ListHtml(list.value.ordered, list.value.items)], None;
    }
  }

  method Flush(out: seq<string>, paragraph: seq<string>, list: Option<PendingList>, options: Options)
    returns (newOut: seq<string>, newParagraph: seq<string>, newList: Option<PendingList>)
    requires CleanLines(paragraph, NUL)
    ensures newParagraph == [] && newList.None? && newOut == out + PendingHtml(options, paragraph, list)
  {
    newOut, newParagraph := FlushParagraph(out, paragraph, options);
    newOut, newList := FlushList(newOut, list, options);
  }

  lemma FenceChunk(lines: seq<string>, index: nat, end: nat)
    requires index < |lines| && Classify(lines[index]).FenceLine? && index < end <= |lines|
    requires forall k :: index < k < end ==> !IsFenceClose(lines[k])
    requires end < |lines| ==> IsFenceClose(lines[end])
    ensures var next := if end < |lines| then end + 1 else end;
            && ChunkLength(lines[index..]) == next - index
            && FenceEnd(lines[index..next], 1) == end - index
            && lines[index..next][1..end - index] == lines[index + 1..end]
  {
    hide IsFenceClose, Classify;
    var next := if end < |lines| then end + 1 else end;
    FenceEndIs(lines[index..], end - index);
    FenceEndIs(lines[index..next], end - index);
  }

  lemma FenceEndIs(lines: seq<string>, e: nat)
    requires 1 <= e <= |lines|
    requires forall k :: 1 <= k < e ==> !IsFenceClose(lines[k])
    requires e < |lines| ==> IsFenceClose(lines[e])
    ensures FenceEnd(lines, 1) == e
  {
    hide IsFenceClose;
    var found := FenceEnd(lines, 1);
  }

  lemma SingleLine(lines: seq<string>, index: nat)
    requires index < |lines|
    requires var kind := Classify(lines[index]);
             kind.BlankLine? || kind.HeadingLine? || kind.RuleLine? || kind.QuoteLine?
    ensures ChunkLength(lines[index..]) == 1 && lines[index..index + 1] == [lines[index]]
  {
    hide Classify;
  }

  /** The body of the fence opened at `index`, and where its close or the end of the text stands. */
  method ReadFence(lines: seq<string>, index: nat) returns (body: seq<string>, end: nat)
    requires index < |lines|
    ensures index < end <= |lines| && body == lines[index + 1..end]
    ensures forall k :: index < k < end ==> !IsFenceClose(lines[k])
    ensures end < |lines| ==> IsFenceClose(lines[end])
  {
    hide IsFenceClose;
    body, end := [], index + 1;
    while end < |lines| && !IsFenceClose(lines[end])
      invariant index < end <= |lines| && body == lines[index + 1..end]
      invariant forall k :: index < k < end ==> !IsFenceClose(lines[k])
    {
      body := body + [lines[end]];
      end := end + 1;
    }
  }

  /** The text as the page gets it. */
  method RenderMarkdown(text: string, options: Options) returns (html: string)
    ensures html == Rendered(text, options)
  {
    hide Html, Classify, Join, ItemHtml, ItemBody, ChunkHtml, PendingHtml, IsFenceClose, LineHtml,
         FencedHtml, Element, Inv, CleanLines, ListHtml, SingleHtml;
    var lines := SourceLines(text);
    var out: seq<string> := [];
    var paragraph: seq<string> := [];
    var list: Option<PendingList> := None;
    var index := 0;
    ghost var start := 0;
    InvStarts(lines, options);
    while index < |lines|
      invariant index <= |lines| + 1
      invariant Inv(lines, options, start, if index > |lines| then |lines| else index, out, paragraph, list)
      decreases |lines| - index
    {
      var line := lines[index];
      var kind := Classify(line);
      InvFacts(lines, options, start, index, out, paragraph, list);
      if kind.FenceLine? {
        FlushStep(lines, options, start, index, out, paragraph, list);
        out, paragraph, list := Flush(out, paragraph, list, options);
        var body, end := ReadFence(lines, index);
        FenceStep(lines, options, index, end, out);
        out := out + [FencedHtml(kind.language, body)];
        start := if end < |lines| then end + 1 else end;
        index := end;
      } else if kind.ItemLine? {
        if paragraph != [] || (list.Some? && list.value.ordered != kind.ordered) {
          FlushStep(lines, options, start, index, out, paragraph, list);
          start := index;
        } else {
          NothingPending(lines, options, start, index, out, list);
        }
        out, paragraph := FlushParagraph(out, paragraph, options);
        if list.Some? && list.value.ordered != kind.ordered {
          out, list := FlushList(out, list, options);
        }
        PushItem(lines, options, start, index, out, list);
        var items := if list.None? then [] else list.value.items;
        list := Some(PendingList(kind.ordered, items + [ItemHtml(ItemBody(line), options)]));
      } else if kind.ProseLine? {
        if list.Some? {
          FlushStep(lines, options, start, index, out, paragraph, list);
          start := index;
        }
        out, list := FlushList(out, list, options);
        PushProse(lines, options, start, index, out, paragraph);
        paragraph := paragraph + [line];
      } else {
        FlushStep(lines, options, start, index, out, paragraph, list);
        out, paragraph, list := Flush(out, paragraph, list, options);
        LineStep(lines, options, index, out);
        out := out + SingleHtml(kind, options);
        start := index + 1;
      }
      index := index + 1;
    }
    FlushStep(lines, options, start, |lines|, out, paragraph, list);
    out, paragraph, list := Flush(out, paragraph, list, options);
    InvEnds(lines, options, out);
    html := Join(out, "");
  }

  lemma NothingPending(lines: seq<string>, options: Options, start: nat, index: nat,
                       out: seq<string>, list: Option<PendingList>)
    requires Inv(lines, options, start, index, out, [], list)
    ensures list.None? ==> start == index
  {
    hide Html, Classify, Join, Items;
  }

  lemma FenceStep(lines: seq<string>, options: Options, at: nat, end: nat, out: seq<string>)
    requires Inv(lines, options, at, at, out, [], None)
    requires at < |lines| && Classify(lines[at]).FenceLine? && at < end <= |lines|
    requires forall k :: at < k < end ==> !IsFenceClose(lines[k])
    requires end < |lines| ==> IsFenceClose(lines[end])
    ensures var next := if end < |lines| then end + 1 else end;
            var html := FencedHtml(Classify(lines[at]).language, lines[at + 1..end]);
            Inv(lines, options, next, next, out + [html], [], None)
  {
    hide Html, Classify, Join, IsPending, FencedHtml, ChunkHtml, ChunkLength, FenceEnd, IsFenceClose, CleanLines;
    InvFacts(lines, options, at, at, out, [], None);
    FenceChunk(lines, at, end);
    FencedMarkup(lines, options, at, end, Classify(lines[at]).language);
    EmitKeeps(lines, options, at, if end < |lines| then end + 1 else end, out,
      [FencedHtml(Classify(lines[at]).language, lines[at + 1..end])]);
  }

  /** What the lines that are blocks of their own are emitted as. */
  function SingleHtml(kind: Kind, options: Options): seq<string>
    requires kind.HeadingLine? ==> 1 <= kind.level <= 6 && Lacks(kind.text, NUL)
    requires kind.QuoteLine? ==> Lacks(kind.text, NUL)
  {
    match kind
    case HeadingLine(level, text) => [Element(HeadingTag(level), LineHtml(text, options))]
    case RuleLine => ["<hr>"]
    case QuoteLine(text) => [Element("blockquote", LineHtml(text, options))]
    case _ => []
  }

  lemma LineStep(lines: seq<string>, options: Options, index: nat, out: seq<string>)
    requires Inv(lines, options, index, index, out, [], None) && index < |lines|
    requires var kind := Classify(lines[index]);
             kind.BlankLine? || kind.HeadingLine? || kind.RuleLine? || kind.QuoteLine?
    ensures Lacks(lines[index], NUL)
    ensures Inv(lines, options, index + 1, index + 1, out + SingleHtml(Classify(lines[index]), options), [], None)
  {
    hide Html, Join, IsPending, ChunkHtml, ChunkLength, CleanLines, LineHtml, Element;
    InvFacts(lines, options, index, index, out, [], None);
    SingleLine(lines, index);
    SingleMarkup(lines, options, index);
    EmitKeeps(lines, options, index, index + 1, out, SingleHtml(Classify(lines[index]), options));
  }

  lemma InvStarts(lines: seq<string>, options: Options)
    requires CleanLines(lines, NUL)
    ensures Inv(lines, options, 0, 0, [], [], None)
  {
    hide Html, Classify;
    assert lines[0..] == lines && lines[0..0] == [];
  }

  lemma InvEnds(lines: seq<string>, options: Options, out: seq<string>)
    requires Inv(lines, options, |lines|, |lines|, out, [], None)
    ensures CleanLines(lines, NUL) && Join(out, "") == Html(lines, options)
  {
    assert lines[|lines|..] == [];
  }

  /** At every loop head at most one of the two buffers is pending. */
  lemma InvFacts(lines: seq<string>, options: Options, start: nat, index: nat,
                 out: seq<string>, paragraph: seq<string>, list: Option<PendingList>)
    requires Inv(lines, options, start, index, out, paragraph, list)
    ensures paragraph == [] || list.None?
    ensures CleanLines(lines, NUL) && CleanLines(paragraph, NUL)
    ensures forall k :: 0 <= k < |lines| ==> Lacks(lines[k], NUL)
  {
    hide Html, Classify, Join, Items;
  }

  lemma FencedMarkup(lines: seq<string>, options: Options, at: nat, end: nat, language: string)
    requires CleanLines(lines, NUL) && at < |lines| && Classify(lines[at]) == FenceLine(language)
    requires at < end <= |lines|
    requires var next := if end < |lines| then end + 1 else end;
             FenceEnd(lines[at..next], 1) == end - at && lines[at..next][1..end - at] == lines[at + 1..end]
    ensures var next := if end < |lines| then end + 1 else end;
            && CleanLines(lines[at..next], NUL)
            && ChunkHtml(lines[at..next], options) == FencedHtml(language, lines[at + 1..end])
            && FencedHtml(language, lines[at + 1..end]) != ""
  {
    hide FenceEnd, Classify;
    var next := if end < |lines| then end + 1 else end;
    CleanSlice(lines, at, next);
    assert lines[at..next][0] == lines[at];
  }

  lemma SingleMarkup(lines: seq<string>, options: Options, index: nat)
    requires CleanLines(lines, NUL) && index < |lines|
    ensures CleanLines(lines[index..index + 1], NUL) && Lacks(lines[index], NUL)
    ensures var html := ChunkHtml(lines[index..index + 1], options);
            match Classify(lines[index])
            case BlankLine => html == ""
            case HeadingLine(level, text) => html == Element(HeadingTag(level), LineHtml(text, options)) && html != ""
            case RuleLine => html == "<hr>"
            case QuoteLine(text) => html == Element("blockquote", LineHtml(text, options)) && html != ""
            case _ => true
  {
    hide Classify, LineHtml;
    CleanSlice(lines, index, index + 1);
    assert lines[index..index + 1][0] == lines[index];
  }
}
