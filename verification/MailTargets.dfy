/** Which lines and which texts come out with every mail address whole. */
module MailTargets {
  import opened Text
  import opened Patterns
  import opened Links
  import opened Placeholders
  import opened Rewriting
  import opened PassSafety
  import opened Inline
  import opened MailScan
  import opened MailMarkup
  import opened Replacing
  import opened MailPasses

  // ----- restoring code spans

  lemma PlaceholderRun(q: State, s: string)
    requires RefAt(s).Some? && (q.Matching? || q.Name?)
    ensures Run(false, q, s[..HeadEnd(s)]) == if q.Matching? then START else Torn
  {
    var head := s[..HeadEnd(s)];
    assert forall k :: 1 <= k < |head| - 1 ==> head[k] == s[k] && In(s[k], Digit);
    if q.Matching? {
      Reset(false, q, head);
    } else {
      Sticks(false, Torn, head[1..]);
    }
  }

  lemma CodeSpanRun(q: State, span: string)
    requires IsCodeSpan(span) && q.Matching?
    ensures Run(false, q, span) == START
  {
    hide Run;
    var code :| span == CodeElement(code) && Lacks(code, '<') && Lacks(code, NUL);
    RunJoin(false, q, "<code>" + code, "</code>");
    RunJoin(false, q, "<code>", code);
    TagRun(false, "<code>");
    Quiet(false, code);
    TagRun(false, "</code>");
  }

  /** Restoring changes nothing for the scan, unless a name runs into a placeholder. */
  lemma {:induction false} FillRun(q: State, s: string, spans: seq<string>)
    requires Disciplined(s, |spans|) && CodeSpans(spans) && !Run(false, q, s).Torn?
    ensures Run(false, q, Fill(s, spans)) == Run(false, q, s)
    decreases |s|
  {
    hide Run, CodeSpans, Step;
    if s == "" {
      assert Fill(s, spans) == "";
    } else {
      SymbolsUnfold(s, |spans|);
      var e := HeadEnd(s);
      var head, rest := s[..e], s[e..];
      assert s == head + rest;
      RunJoin(false, q, head, rest);
      if RefAt(s).Some? {
        FillUnfold(s, spans);
        var span := spans[RefIndex(s)];
        assert IsCodeSpan(span) by { OneSpan(spans, RefIndex(s)); }
        RunJoin(false, q, span, Fill(rest, spans));
        HeadRun(q, s, span);
        if Run(false, q, head).Torn? {
          Sticks(false, Torn, rest);
        }
        FillRun(Run(false, q, head), rest, spans);
      } else {
        RunJoin(false, q, head, Fill(rest, spans));
        FillRun(Run(false, q, head), rest, spans);
        assert Fill(s, spans) == head + Fill(rest, spans);
      }
    }
  }

  lemma OneSpan(spans: seq<string>, k: nat)
    requires CodeSpans(spans) && k < |spans|
    ensures IsCodeSpan(spans[k])
  {
  }

  lemma HeadRun(q: State, s: string, span: string)
    requires RefAt(s).Some? && IsCodeSpan(span)
    ensures var p := Run(false, q, s[..HeadEnd(s)]); p.Torn? || p == Run(false, q, span)
  {
    match q
    case Matching(_) => PlaceholderRun(q, s); CodeSpanRun(q, span);
    case Name(_) => PlaceholderRun(q, s);
    case _ => Sticks(false, q, s[..HeadEnd(s)]); Sticks(false, q, span);
  }

  // ----- one line

  /** The texts that the link, the pasted-URL and the issue pass run over. */
  datatype Stages = Stages(images: string, links: string, urls: string)

  function StagesOf(escaped: string): (stages: Stages)
    requires IsEscaped(escaped)
  {
    var lifted := Lift(escaped, 0, []);
    LiftDisciplined(escaped, 0, []);
    var images := Rewrite(Image(lifted.spans), lifted.text, 0);
    var links := Rewrite(Link, images, 0);
    Stages(images, links, Rewrite(PastedUrl, links, 0))
  }

  /** None of the three passes that write links cuts a name. */
  ghost predicate LineUncut(escaped: string, options: Options)
    requires IsEscaped(escaped)
  {
    var stages := StagesOf(escaped);
    && NamesUncut(Link, stages.images) && NamesUncut(PastedUrl, stages.links)
    && (options.issueHref.Some? ==> NamesUncut(Issue(options.issueHref.value), stages.urls))
  }

  /** A name that the label of a link has cut runs into a code span. */
  ghost predicate RunsIntoCode(s: string) { exists b: nat :: b < |s| && InName(false, s, b) && s[b] == NUL }

  /** Neither emphasis nor restoring is seen by the scan. */
  lemma LastPassesRun(escaped: string, options: Options)
    requires IsEscaped(escaped)
    ensures var q := Run(false, START, Linked(options, StagesOf(escaped).images));
            && Run(false, START, Compiled(escaped, options)) == q
            && (!q.Torn? ==> Run(false, START, InlineHtml(escaped, options)) == q)
  {
    hide Run, Rewrite, Disciplined, RunPasses, Refs;
    var spans := Lift(escaped, 0, []).spans;
    LiftDisciplined(escaped, 0, []);
    var linked := Linked(options, StagesOf(escaped).images);
    HeadPasses(options, StagesOf(escaped).images);
    TailPasses(linked);
    var strong := Rewrite(Strong, linked, 0);
    var emphasis := Rewrite(Emphasis, strong, 0);
    WholeEmphasisRun(Strong, linked);
    WholeEmphasisRun(Emphasis, strong);
    WholeEmphasisRun(Deleted, emphasis);
    CompiledDisciplined(escaped, options);
    if !Run(false, START, linked).Torn? {
      FillRun(START, Compiled(escaped, options), spans);
    }
  }

  lemma WholeEmphasisRun(rule: Rule, s: string)
    requires IsEmphasis(rule)
    ensures Run(false, START, Rewrite(rule, s, 0)) == Run(false, START, s)
  {
    EmphasisRun(false, rule, s, 0, START);
    assert s[0..] == s;
  }

  /** A pass behind the link pass leaves the end of the scan as it is, or breaks it. */
  lemma PlainAnchorPass(rule: Rule, s: string)
    requires IsPlainAnchor(false, rule)
    ensures var q := Run(false, START, Rewrite(rule, s, 0)); q == Run(false, START, s) || q == Broken
  {
    hide Run;
    AnchorsRun(false, rule, s, 0);
    StateStart(s);
    assert s[0..] == s;
  }

  lemma LinkedRun(images: string, options: Options)
    ensures var links := Rewrite(Link, images, 0);
            var q := Run(false, START, Linked(options, images)); q == Run(false, START, links) || q == Broken
  {
    hide Run, Rewrite;
    var links := Rewrite(Link, images, 0);
    PlainAnchorPass(PastedUrl, links);
    if options.issueHref.Some? {
      PlainAnchorPass(Issue(options.issueHref.value), Rewrite(PastedUrl, links, 0));
    }
  }

  lemma StagesNamed(escaped: string, options: Options)
    requires IsEscaped(escaped)
    ensures AllNamed(false, Linked(options, StagesOf(escaped).images)) <==> LineUncut(escaped, options)
  {
    hide Run, Rewrite, AllNamed, NamesUncut, Disciplined, Refs;
    var stages := StagesOf(escaped);
    var lifted := Lift(escaped, 0, []);
    LiftDisciplined(escaped, 0, []);
    ImagesRun(lifted.text, lifted.spans);
    ScanDecides(false, stages.images);
    PassKeepsNames(Link, stages.images);
    ScanDecides(false, stages.links);
    ScanDecides(false, stages.urls);
    ScanDecides(false, Linked(options, stages.images));
    PlainAnchorPass(PastedUrl, stages.links);
    if AllNamed(false, stages.links) {
      PassKeepsNames(PastedUrl, stages.links);
    }
    if options.issueHref.Some? {
      PlainAnchorPass(Issue(options.issueHref.value), stages.urls);
      if AllNamed(false, stages.urls) {
        PassKeepsNames(Issue(options.issueHref.value), stages.urls);
      }
    }
  }

  /**
   With its code spans lifted out, a line is compiled with every mail address
   whole exactly if no link, no pasted URL and no issue number cuts one.
   Restoring the spans keeps them whole, and a broken one broken, unless what a
   link has cut off ends in a code span: what follows then is for the code.
   */
  lemma LineNamed(escaped: string, options: Options)
    requires IsEscaped(escaped)
    ensures AllNamed(false, Compiled(escaped, options)) <==> LineUncut(escaped, options)
    ensures LineUncut(escaped, options) ==> AllNamed(false, InlineHtml(escaped, options))
    ensures AllNamed(false, InlineHtml(escaped, options)) && !RunsIntoCode(StagesOf(escaped).links) ==> LineUncut(escaped, options)
  {
    hide Run, Rewrite, AllNamed, LineUncut, InName, InlineHtml, Compiled, StagesOf;
    var stages := StagesOf(escaped);
    var linked := Linked(options, stages.images);
    StagesNamed(escaped, options);
    ScanDecides(false, Compiled(escaped, options));
    ScanDecides(false, linked);
    ScanDecides(false, InlineHtml(escaped, options));
    LastPassesRun(escaped, options);
    LinkedRun(stages.images, options);
    LinksStage(escaped);
    if Run(false, START, linked).Torn? {
      TornAtNul(false, stages.links);
    }
  }

  lemma LinksStage(escaped: string)
    requires IsEscaped(escaped)
    ensures StagesOf(escaped).links == Rewrite(Link, StagesOf(escaped).images, 0)
  {
  }
}
