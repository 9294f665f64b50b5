/** `renderInline`: one escaped line through lifting, the passes, and restoring. */
module Inline {
  import opened Text
  import opened Patterns
  import opened Placeholders
  import opened Rewriting
  import opened TagSafety
  import opened PassSafety
  import opened PassDiscipline

  datatype Options = Options(issueHref: Option<nat -> string>)

  // ----- lifting code spans out

  datatype Lifted = Lifted(text: string, spans: seq<string>)

  function Lift(s: string, i: nat, spans: seq<string>): (r: Lifted)
    requires i <= |s|
    ensures spans <= r.spans
    decreases |s| - i
  {
    if i == |s| then Lifted("", spans)
    else
      match SpanAt(s, i, '`', 1)
      case Some(j) =>
        var rest := Lift(s, j + 1, spans + [CodeElement(s[i + 1..j])]);
        Lifted(Placeholder(|spans|) + rest.text, rest.spans)
      case None =>
        var rest := Lift(s, i + 1, spans);
        Lifted([s[i]] + rest.text, rest.spans)
  }

  function Interval(from: nat, to: nat): seq<nat>
    requires from <= to
  {
    seq(to - from, k requires 0 <= k => from + k)
  }

  lemma PlaceholderDisciplined(k: nat, n: nat)
    requires k < n
    ensures Disciplined(Placeholder(k), n) && Refs(Placeholder(k)) == [k] && Lacks(Placeholder(k), '<')
  {
    PlaceholderRef(k, "");
    assert Placeholder(k) + "" == Placeholder(k);
    var p := Placeholder(k);
    assert Symbols(p) == [Ref(k)] + Symbols("");
    assert RefsOf([Ref(k)]) == [k];
    forall i | 0 <= i < |p| ensures p[i] != '<' {
      assert 1 <= i < |p| - 1 ==> p[i] == Decimal(k)[i - 1];
    }
  }

  /** Lifting numbers the spans in order and leaves a disciplined text behind. */
  lemma {:induction false} LiftDisciplined(s: string, i: nat, spans: seq<string>)
    requires i <= |s| && Lacks(s, NUL) && Lacks(s, '<') && CodeSpans(spans)
    ensures var r := Lift(s, i, spans);
            && CodeSpans(r.spans) && Lacks(r.text, '<')
            && Disciplined(r.text, |r.spans|)
            && Refs(r.text) == Interval(|spans|, |r.spans|)
    decreases |s| - i
  {
    hide Disciplined, Refs, CodeSpans;
    var r := Lift(s, i, spans);
    if i == |s| {
      PlainRefs("", |r.spans|);
    } else {
      var span := SpanAt(s, i, '`', 1);
      if span.Some? {
        LiftOneSpan(s, i, span.value, spans);
      } else {
        LiftDisciplined(s, i + 1, spans);
        PlainRefs([s[i]], |r.spans|);
        DisciplinedJoin([s[i]], Lift(s, i + 1, spans).text, |r.spans|);
      }
    }
  }

  lemma {:induction false} LiftOneSpan(s: string, i: nat, j: nat, spans: seq<string>)
    requires i < |s| && SpanAt(s, i, '`', 1) == Some(j)
    requires Lacks(s, NUL) && Lacks(s, '<') && CodeSpans(spans)
    ensures var r := Lift(s, i, spans);
            && CodeSpans(r.spans) && Lacks(r.text, '<')
            && Disciplined(r.text, |r.spans|)
            && Refs(r.text) == Interval(|spans|, |r.spans|)
    decreases |s| - i, 0
  {
    hide Disciplined, Refs;
    var more := spans + [CodeElement(s[i + 1..j])];
    assert IsCodeSpan(CodeElement(s[i + 1..j]));
    assert CodeSpans(more);
    LiftDisciplined(s, j + 1, more);
    var rest := Lift(s, j + 1, more);
    PlaceholderDisciplined(|spans|, |rest.spans|);
    DisciplinedJoin(Placeholder(|spans|), rest.text, |rest.spans|);
  }

  /** A lifted span as the author wrote it. */
  function Quoted(spans: seq<string>): (quoted: seq<string>)
    ensures |quoted| == |spans|
  {
    seq(|spans|, k requires 0 <= k < |spans| => "`" + StripCode(spans[k]) + "`")
  }

  /** Lifting loses nothing: with the spans put back in backticks the line is as it was. */
  lemma {:induction false} LiftRoundTrip(s: string, i: nat, spans: seq<string>)
    requires i <= |s| && Lacks(s, NUL) && Lacks(s, '<') && CodeSpans(spans)
    ensures var r := Lift(s, i, spans);
            Disciplined(r.text, |r.spans|) && Fill(r.text, Quoted(r.spans)) == s[i..]
    decreases |s| - i
  {
    hide Disciplined, Fill, Quoted, CodeSpans;
    LiftDisciplined(s, i, spans);
    var r := Lift(s, i, spans);
    if i == |s| {
      PlainText("", Quoted(r.spans));
    } else {
      var span := SpanAt(s, i, '`', 1);
      if span.Some? {
        RoundTripSpan(s, i, span.value, spans);
      } else {
        LiftRoundTrip(s, i + 1, spans);
        RoundTripChar(s, i, spans);
      }
    }
  }

  lemma RoundTripChar(s: string, i: nat, spans: seq<string>)
    requires i < |s| && Lacks(s, NUL) && SpanAt(s, i, '`', 1).None?
    requires var r := Lift(s, i + 1, spans); Disciplined(r.text, |r.spans|) && Fill(r.text, Quoted(r.spans)) == s[i + 1..]
    ensures var r := Lift(s, i, spans); Disciplined(r.text, |r.spans|) && Fill(r.text, Quoted(r.spans)) == s[i..]
  {
    hide Disciplined, Fill, Quoted;
    var rest := Lift(s, i + 1, spans);
    PlainText([s[i]], Quoted(rest.spans));
    FillJoin([s[i]], rest.text, Quoted(rest.spans));
  }

  lemma {:induction false} RoundTripSpan(s: string, i: nat, j: nat, spans: seq<string>)
    requires i < |s| && SpanAt(s, i, '`', 1) == Some(j)
    requires Lacks(s, NUL) && Lacks(s, '<') && CodeSpans(spans)
    ensures var r := Lift(s, i, spans);
            Disciplined(r.text, |r.spans|) && Fill(r.text, Quoted(r.spans)) == s[i..]
    decreases |s| - i, 0
  {
    hide Disciplined, Fill, StripCode, CodeElement, Placeholder;
    var code := s[i + 1..j];
    var more := spans + [CodeElement(code)];
    assert IsCodeSpan(CodeElement(code));
    LiftRoundTrip(s, j + 1, more);
    var rest := Lift(s, j + 1, more);
    var values := Quoted(rest.spans);
    FillPlaceholder(|spans|, values);
    FillJoin(Placeholder(|spans|), rest.text, values);
    assert rest.spans[|spans|] == CodeElement(code);
    StripCodeElement(code);
    assert In(s[i], Only('`')) && In(s[j], Only('`'));
    assert s[i..] == ("`" + code + "`") + s[j + 1..];
  }

  lemma FillPlaceholder(k: nat, values: seq<string>)
    requires k < |values|
    ensures Disciplined(Placeholder(k), |values|) && Fill(Placeholder(k), values) == values[k]
  {
    PlaceholderDisciplined(k, |values|);
    PlaceholderRef(k, "");
    assert Placeholder(k) + "" == Placeholder(k);
    assert Symbols(Placeholder(k)) == [Ref(k)] + Symbols("");
    assert FillSymbols([], values) == "";
  }

  // ----- the passes, and putting the spans back

  /** The passes behind the image pass, in their fixed order. */
  function LaterRules(options: Options): seq<Rule> {
    [Link, PastedUrl]
    + (if options.issueHref.Some? then [Issue(options.issueHref.value)] else [])
    + [Strong, Emphasis, Deleted]
  }

  predicate NoImages(rules: seq<Rule>) { forall k :: 0 <= k < |rules| ==> !rules[k].Image? }

  function RunPasses(rules: seq<Rule>, text: string): string
    requires NoImages(rules)
  {
    if rules == [] then text else RunPasses(rules[1..], Rewrite(rules[0], text, 0))
  }

  /** An escaped line: no NUL, no `<`. */
  ghost predicate IsEscaped(line: string) { Lacks(line, NUL) && Lacks(line, '<') }

  /** The text after all passes, with the code spans still lifted out. */
  function Compiled(escaped: string, options: Options): string
    requires IsEscaped(escaped)
  {
    var lifted := Lift(escaped, 0, []);
    LiftDisciplined(escaped, 0, []);
    RunPasses(LaterRules(options), Rewrite(Image(lifted.spans), lifted.text, 0))
  }

  /** Restoring is total: every placeholder that is left names a lifted span. */
  function InlineHtml(escaped: string, options: Options): string
    requires IsEscaped(escaped)
  {
    CompiledDisciplined(escaped, options);
    Fill(Compiled(escaped, options), Lift(escaped, 0, []).spans)
  }

  lemma {:induction false} PassesKeepDiscipline(rules: seq<Rule>, text: string, n: nat)
    requires NoImages(rules) && Disciplined(text, n)
    ensures Disciplined(RunPasses(rules, text), n)
    ensures (forall rule <- rules :: KeepsRefs(rule)) ==> Refs(RunPasses(rules, text)) == Refs(text)
  {
    hide Disciplined, Refs, Rewrite;
    if rules != [] {
      PassKeepsDiscipline(rules[0], text, n);
      PassesKeepDiscipline(rules[1..], Rewrite(rules[0], text, 0), n);
    }
  }

  lemma CompiledDisciplined(escaped: string, options: Options)
    requires IsEscaped(escaped)
    ensures Disciplined(Compiled(escaped, options), |Lift(escaped, 0, []).spans|)
  {
    hide Disciplined, Refs, Rewrite, RunPasses;
    var lifted := Lift(escaped, 0, []);
    LiftDisciplined(escaped, 0, []);
    PassKeepsDiscipline(Image(lifted.spans), lifted.text, |lifted.spans|);
    PassesKeepDiscipline(LaterRules(options), Rewrite(Image(lifted.spans), lifted.text, 0), |lifted.spans|);
  }

  /** `renderInline` as it is written: the text is reassigned pass by pass. */
  method RenderInline(escaped: string, options: Options) returns (html: string)
    requires IsEscaped(escaped)
    ensures html == InlineHtml(escaped, options)
  {
    hide Rewrite, Disciplined;
    var lifted := Lift(escaped, 0, []);
    var text, spans := lifted.text, lifted.spans;
    LiftDisciplined(escaped, 0, []);
    text := Rewrite(Image(spans), text, 0);
    ghost var start := text;
    text := Rewrite(Link, text, 0);
    text := Rewrite(PastedUrl, text, 0);
    if options.issueHref.Some? {
      text := Rewrite(Issue(options.issueHref.value), text, 0);
    }
    ghost var mid := text;
    text := Rewrite(Strong, text, 0);
    text := Rewrite(Emphasis, text, 0);
    text := Rewrite(Deleted, text, 0);
    TailPasses(mid);
    HeadPasses(options, start);
    CompiledDisciplined(escaped, options);
    html := Fill(text, spans);
  }

  lemma TailPasses(text: string)
    ensures RunPasses([Strong, Emphasis, Deleted], text)
         == Rewrite(Deleted, Rewrite(Emphasis, Rewrite(Strong, text, 0), 0), 0)
  {
    hide Rewrite;
    var rules := [Strong, Emphasis, Deleted];
    assert rules[1..] == [Emphasis, Deleted] && rules[1..][1..] == [Deleted];
    var t := Rewrite(Strong, text, 0);
    assert RunPasses([Deleted], Rewrite(Emphasis, t, 0)) == Rewrite(Deleted, Rewrite(Emphasis, t, 0), 0);
    assert RunPasses([Emphasis, Deleted], t) == RunPasses([Deleted], Rewrite(Emphasis, t, 0)) by {
      assert [Emphasis, Deleted][1..] == [Deleted];
    }
  }

  /** The text when emphasis is about to be compiled. */
  function Linked(options: Options, text: string): string {
    var t := Rewrite(PastedUrl, Rewrite(Link, text, 0), 0);
    if options.issueHref.Some? then Rewrite(Issue(options.issueHref.value), t, 0) else t
  }

  lemma HeadPasses(options: Options, start: string)
    ensures RunPasses(LaterRules(options), start) == RunPasses([Strong, Emphasis, Deleted], Linked(options, start))
  {
    hide Rewrite;
    var rules := LaterRules(options);
    var last := [Strong, Emphasis, Deleted];
    var t1 := Rewrite(Link, start, 0);
    assert RunPasses(rules, start) == RunPasses(rules[1..], t1);
    assert rules[1..][0] == PastedUrl && rules[1..][1..] == rules[2..];
    assert RunPasses(rules[1..], t1) == RunPasses(rules[2..], Rewrite(PastedUrl, t1, 0));
    if options.issueHref.Some? {
      assert rules[2..][0] == rules[2] && rules[2..][1..] == last;
    } else {
      assert rules[2..] == last;
    }
  }

  // ----- only the renderer's own tags

  ghost predicate CleanOptions(options: Options) {
    options.issueHref.Some? ==> NoTagsFrom(options.issueHref.value)
  }

  lemma {:induction false} PassesKeepOwnTags(rules: seq<Rule>, text: string)
    requires NoImages(rules) && (forall rule <- rules :: Premise(rule, text)) && OnlyOwnTags(text)
    ensures OnlyOwnTags(RunPasses(rules, text))
  {
    hide OnlyOwnTags, Rewrite;
    if rules != [] {
      var next := Rewrite(rules[0], text, 0);
      PassKeepsOwnTags(rules[0], text);
      assert forall rule <- rules[1..] :: Premise(rule, next) by {
        assert forall rule <- rules[1..] :: rule in rules && Premise(rule, text);
      }
      PassesKeepOwnTags(rules[1..], next);
    }
  }

  lemma CompiledOwnTags(escaped: string, options: Options)
    requires IsEscaped(escaped) && CleanOptions(options)
    ensures OnlyOwnTags(Compiled(escaped, options))
  {
    hide Rewrite, RunPasses;
    var lifted := Lift(escaped, 0, []);
    LiftDisciplined(escaped, 0, []);
    Untagged(lifted.text);
    PassKeepsOwnTags(Image(lifted.spans), lifted.text);
    var text := Rewrite(Image(lifted.spans), lifted.text, 0);
    PassesKeepOwnTags(LaterRules(options), text);
  }

  ghost predicate MarkupSpans(spans: seq<string>) {
    forall k :: 0 <= k < |spans| ==> IsMarkupText(spans[k])
  }

  lemma CodeSpanMarkup(spans: seq<string>)
    requires CodeSpans(spans)
    ensures MarkupSpans(spans)
  {
    forall k | 0 <= k < |spans| ensures IsMarkupText(spans[k]) {
      CodeElementSafe(spans, k);
    }
  }

  lemma CodeElementSafe(spans: seq<string>, k: nat)
    requires CodeSpans(spans) && k < |spans|
    ensures IsMarkupText(spans[k])
  {
    assert IsCodeSpan(spans[k]);
    var code :| spans[k] == CodeElement(code) && Lacks(code, '<') && Lacks(code, NUL);
    Untagged(code);
    OneTag("<code>");
    OneTag("</code>");
    TagsJoin("<code>", code);
    TagsJoin("<code>" + code, "</code>");
  }

  /** Restoring puts whole elements where placeholders stood, which no tag reaches into. */
  lemma {:induction false} FillOwnTags(before: string, s: string, values: seq<string>)
    requires OnlyOwnTags(before + s) && Disciplined(s, |values|) && MarkupSpans(values)
    ensures OnlyOwnTags(before + Fill(s, values))
    decreases |s|
  {
    if s == "" {
      assert Fill(s, values) == "";
    } else {
      SymbolsUnfold(s, |values|);
      var rest := s[HeadEnd(s)..];
      if RefAt(s).Some? {
        FillOwnTagsRef(before, s, values);
      } else {
        FillOwnTags(before + [s[0]], rest, values) by {
          assert before + [s[0]] + rest == before + s;
        }
        assert before + Fill(s, values) == before + [s[0]] + Fill(rest, values);
      }
    }
  }

  /** A placeholder cuts no tag: what stands before and behind it is as safe as the whole. */
  lemma AroundPlaceholder(before: string, s: string, e: nat)
    requires OnlyOwnTags(before + s) && s != "" && s[0] == NUL && e <= |s|
    ensures OnlyOwnTags(before) && OnlyOwnTags(s[e..])
  {
    hide OnlyOwnTags;
    var all, b := before + s, |before|;
    SliceSafe(all, 0, b);
    assert all[0..b] == before;
    SliceSafe(all, b + e, |all|);
    assert all[b + e..|all|] == s[e..];
  }

  lemma FillUnfold(s: string, values: seq<string>)
    requires Disciplined(s, |values|) && RefAt(s).Some?
    ensures RefIndex(s) < |values| && Disciplined(s[HeadEnd(s)..], |values|)
    ensures Fill(s, values) == values[RefIndex(s)] + Fill(s[HeadEnd(s)..], values)
  {
    SymbolsUnfold(s, |values|);
  }

  lemma {:induction false} FillOwnTagsRef(before: string, s: string, values: seq<string>)
    requires OnlyOwnTags(before + s) && Disciplined(s, |values|) && MarkupSpans(values) && RefAt(s).Some?
    ensures OnlyOwnTags(before + Fill(s, values))
    decreases |s|, 0
  {
    hide OnlyOwnTags, Disciplined, Fill, RefIndex;
    var rest := s[HeadEnd(s)..];
    AroundPlaceholder(before, s, HeadEnd(s));
    FillUnfold(s, values);
    assert "" + rest == rest && "" + Fill(rest, values) == Fill(rest, values);
    FillOwnTags("", rest, values);
    var value := values[RefIndex(s)];
    MarkupJoin(before, value, Fill(rest, values));
    Regroup(before, value, Fill(rest, values));
  }

  /** The guarantee for one line: own tags only, allow-listed targets, no NUL left. */
  lemma InlineSafe(escaped: string, options: Options)
    requires IsEscaped(escaped) && CleanOptions(options)
    ensures OnlyOwnTags(InlineHtml(escaped, options)) && Lacks(InlineHtml(escaped, options), NUL)
  {
    hide OnlyOwnTags, Compiled;
    var spans := Lift(escaped, 0, []).spans;
    var text := Compiled(escaped, options);
    LiftDisciplined(escaped, 0, []);
    CompiledDisciplined(escaped, options);
    CompiledOwnTags(escaped, options);
    CodeSpanMarkup(spans);
    assert "" + text == text && "" + Fill(text, spans) == Fill(text, spans);
    FillOwnTags("", text, spans);
    SpansLackNul(spans);
    FillLacksNul(text, spans);
  }

  lemma SpansLackNul(spans: seq<string>)
    requires CodeSpans(spans)
    ensures forall k :: 0 <= k < |spans| ==> Lacks(spans[k], NUL)
  {
    forall k | 0 <= k < |spans| ensures Lacks(spans[k], NUL) {
      SpanLacksNul(spans, k);
    }
  }

  // ----- every code span once, in order

  /** gaps[0], values[0], gaps[1], values[1], ..., gaps[n]. */
  function Weave(gaps: seq<string>, values: seq<string>): string
    requires |gaps| == |values| + 1
  {
    if values == [] then gaps[0] else gaps[0] + values[0] + Weave(gaps[1..], values[1..])
  }

  function Chosen(refs: seq<nat>, values: seq<string>): (chosen: seq<string>)
    requires forall k <- refs :: k < |values|
    ensures |chosen| == |refs|
  {
    seq(|refs|, i requires 0 <= i < |refs| => (assert refs[i] in refs; values[refs[i]]))
  }

  lemma {:induction false} RefsInRange(symbols: seq<Symbol>, n: nat)
    requires forall symbol <- symbols :: IsSound(symbol, n)
    ensures forall k <- RefsOf(symbols) :: k < n
  {
    if symbols != [] {
      assert IsSound(symbols[0], n);
      RefsInRange(symbols[1..], n);
    }
  }

  /** The stretches of text before, between and behind the placeholders. */
  function Gaps(symbols: seq<Symbol>): (gaps: seq<string>)
    ensures |gaps| == |RefsOf(symbols)| + 1
  {
    if symbols == [] then [""]
    else
      var rest := Gaps(symbols[1..]);
      if symbols[0].Ref? then [""] + rest else [[symbols[0].c] + rest[0]] + rest[1..]
  }

  /** Restoring weaves the named spans into the text between the placeholders. */
  lemma {:induction false} FillWeaves(symbols: seq<Symbol>, values: seq<string>)
    requires forall symbol <- symbols :: IsSound(symbol, |values|)
    ensures forall k <- RefsOf(symbols) :: k < |values|
    ensures FillSymbols(symbols, values) == Weave(Gaps(symbols), Chosen(RefsOf(symbols), values))
  {
    RefsInRange(symbols, |values|);
    if symbols != [] {
      FillWeaves(symbols[1..], values);
      assert IsSound(symbols[0], |values|);
      if symbols[0].Ref? {
        WeaveRef(symbols, values);
      } else {
        assert RefsOf(symbols) == RefsOf(symbols[1..]);
        WeaveGlyph(symbols[0].c, Gaps(symbols[1..]), Chosen(RefsOf(symbols), values));
      }
    }
  }

  lemma ChosenCons(k: nat, refs: seq<nat>, values: seq<string>)
    requires k < |values| && forall r <- refs :: r < |values|
    ensures Chosen([k] + refs, values) == [values[k]] + Chosen(refs, values)
  {
  }

  lemma WeaveCons(value: string, gaps: seq<string>, values: seq<string>)
    requires |gaps| == |values| + 1
    ensures Weave([""] + gaps, [value] + values) == value + Weave(gaps, values)
  {
    var g, v := [""] + gaps, [value] + values;
    assert g[1..] == gaps && v[1..] == values;
    assert Weave(g, v) == g[0] + v[0] + Weave(g[1..], v[1..]);
  }

  lemma WeaveRef(symbols: seq<Symbol>, values: seq<string>)
    requires symbols != [] && symbols[0].Ref? && symbols[0].index < |values|
    requires forall k <- RefsOf(symbols) :: k < |values|
    requires forall k <- RefsOf(symbols[1..]) :: k < |values|
    ensures Weave(Gaps(symbols), Chosen(RefsOf(symbols), values))
         == values[symbols[0].index] + Weave(Gaps(symbols[1..]), Chosen(RefsOf(symbols[1..]), values))
  {
    hide Weave, Chosen;
    var refs := RefsOf(symbols[1..]);
    ChosenCons(symbols[0].index, refs, values);
    WeaveCons(values[symbols[0].index], Gaps(symbols[1..]), Chosen(refs, values));
  }

  lemma WeaveGlyph(c: char, gaps: seq<string>, values: seq<string>)
    requires |gaps| == |values| + 1
    ensures Weave([[c] + gaps[0]] + gaps[1..], values) == [c] + Weave(gaps, values)
  {
    assert ([[c] + gaps[0]] + gaps[1..])[1..] == gaps[1..];
  }

  /** The image pass and the pasted-URL pass find nothing in the line. */
  ghost predicate NoImageOrPastedUrl(escaped: string)
    requires IsEscaped(escaped)
  {
    var lifted := Lift(escaped, 0, []);
    LiftDisciplined(escaped, 0, []);
    var linked := Rewrite(Link, lifted.text, 0);
    Rewrite(Image(lifted.spans), lifted.text, 0) == lifted.text && Rewrite(PastedUrl, linked, 0) == linked
  }

  lemma RefsKept(escaped: string, options: Options)
    requires IsEscaped(escaped) && NoImageOrPastedUrl(escaped)
    ensures Refs(Compiled(escaped, options)) == Interval(0, |Lift(escaped, 0, []).spans|)
  {
    hide Disciplined, Rewrite, Refs;
    var lifted := Lift(escaped, 0, []);
    var n := |lifted.spans|;
    LiftDisciplined(escaped, 0, []);
    var linked := Rewrite(Link, lifted.text, 0);
    PassKeepsDiscipline(Link, lifted.text, n);
    var rules := LaterRules(options);
    PassesKeepDiscipline(rules[2..], linked, n);
    assert RunPasses(rules, lifted.text) == RunPasses(rules[1..], linked);
    assert rules[1..][0] == PastedUrl && rules[1..][1..] == rules[2..];
    assert RunPasses(rules[1..], linked) == RunPasses(rules[2..], linked);
  }

  /**
   In a line without images and pasted URLs every code span comes back exactly
   once, in order, with its escaped content unchanged, whatever links, issue
   numbers and emphasis stand around it; all else in the output is the compiled
   text, which holds no span.
   */
  lemma CodeSpansRestoredInOrder(escaped: string, options: Options)
    requires IsEscaped(escaped) && NoImageOrPastedUrl(escaped)
    ensures var spans, gaps := Lift(escaped, 0, []).spans, Gaps(Symbols(Compiled(escaped, options)));
            |gaps| == |spans| + 1 && InlineHtml(escaped, options) == Weave(gaps, spans)
  {
    hide Compiled;
    var spans := Lift(escaped, 0, []).spans;
    var text := Compiled(escaped, options);
    RefsKept(escaped, options);
    CompiledDisciplined(escaped, options);
    FillWeaves(Symbols(text), spans);
    assert Chosen(Refs(text), spans) == spans;
  }
}
