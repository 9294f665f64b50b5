/** `renderInline` told step by step: which spans are lifted, which pass follows which, and what a code span shows. */
module InlineSteps {
  import opened Text
  import opened Patterns
  import opened Links
  import opened Placeholders
  import opened Rewriting
  import opened PassMatches
  import opened Inline
  import opened Escaping
  import opened Renderer

  // ----- lifting

  /** No code span begins in [from, to). */
  ghost predicate NoSpan(s: string, from: nat, to: nat) {
    forall k: nat, j: nat :: from <= k < to ==> !Span(s, k, j, '`', 1)
  }

  lemma {:induction false} LiftSkips(s: string, i: nat, end: nat, spans: seq<string>)
    requires i <= end <= |s| && NoSpan(s, i, end)
    ensures Lift(s, i, spans) == Lifted(s[i..end] + Lift(s, end, spans).text, Lift(s, end, spans).spans)
    decreases end - i
  {
    hide Span;
    if i == end {
      assert s[i..end] == "";
    } else {
      LiftSkips(s, i + 1, end, spans);
      Regroup([s[i]], s[i + 1..end], Lift(s, end, spans).text);
      assert s[i..end] == [s[i]] + s[i + 1..end];
    }
  }

  /** The first code span gives way to the number that comes next between two NULs, and what follows it is lifted in turn. */
  lemma {:induction false} SpanLifted(s: string, i: nat, k: nat, j: nat, spans: seq<string>)
    requires i <= k && NoSpan(s, i, k) && Span(s, k, j, '`', 1)
    ensures var rest := Lift(s, j + 1, spans + ["<code>" + s[k + 1..j] + "</code>"]);
            Lift(s, i, spans) == Lifted(s[i..k] + ([NUL] + Decimal(|spans|) + [NUL] + rest.text), rest.spans)
  {
    LiftSkips(s, i, k, spans);
  }

  lemma NothingLifted(s: string, i: nat, spans: seq<string>)
    requires i <= |s| && NoSpan(s, i, |s|)
    ensures Lift(s, i, spans) == Lifted(s[i..], spans)
  {
    LiftSkips(s, i, |s|, spans);
    assert s[i..|s|] + "" == s[i..];
  }

  // ----- the passes

  /** `t` is `s` with the leftmost matches of the rule replaced. */
  ghost predicate Becomes(rule: Rule, s: string, t: string) {
    Applies(rule, s) && exists matches: seq<Match> :: AreMatches(rule, s, 0, matches) && t == Replaced(s, 0, matches)
  }

  lemma Rewritten(rule: Rule, s: string)
    requires Applies(rule, s)
    ensures Becomes(rule, s, Rewrite(rule, s, 0))
  {
    hide Rewrite, Replaced, AreMatches;
    var matches := MatchesExist(rule, s, 0);
    RewriteIsReplacement(rule, s, 0, matches);
  }

  /**
   The text without its code spans is rewritten for images, links, pasted URLs,
   issue numbers if there is something to link them to, strong, emphasis and
   deleted text, in this order, and then the spans are put back.
   */
  lemma PassesInOrder(escaped: string, options: Options) returns (t: seq<string>)
    requires IsEscaped(escaped)
    ensures var lifted := Lift(escaped, 0, []);
            && |t| == 8 && t[0] == lifted.text
            && Becomes(Image(lifted.spans), t[0], t[1]) && Becomes(Link, t[1], t[2]) && Becomes(PastedUrl, t[2], t[3])
            && (if options.issueHref == None then t[4] == t[3] else Becomes(Issue(options.issueHref.value), t[3], t[4]))
            && Becomes(Strong, t[4], t[5]) && Becomes(Emphasis, t[5], t[6]) && Becomes(Deleted, t[6], t[7])
            && Disciplined(t[7], |lifted.spans|) && InlineHtml(escaped, options) == Fill(t[7], lifted.spans)
  {
    hide Rewrite, Disciplined, Fill, Becomes, RunPasses;
    LiftDisciplined(escaped, 0, []);
    CompiledDisciplined(escaped, options);
    var lifted := Lift(escaped, 0, []);
    var a := Rewrite(Image(lifted.spans), lifted.text, 0);
    var b := Rewrite(Link, a, 0);
    var c := Rewrite(PastedUrl, b, 0);
    var d := if options.issueHref == None then c else Rewrite(Issue(options.issueHref.value), c, 0);
    var e := Rewrite(Strong, d, 0);
    var f := Rewrite(Emphasis, e, 0);
    t := [lifted.text, a, b, c, d, e, f, Rewrite(Deleted, f, 0)];
    HeadPasses(options, a);
    TailPasses(d);
    Rewritten(Image(lifted.spans), lifted.text);
    Rewritten(Link, a);
    Rewritten(PastedUrl, b);
    if options.issueHref.Some? { Rewritten(Issue(options.issueHref.value), c); }
    Rewritten(Strong, d);
    Rewritten(Emphasis, e);
    Rewritten(Deleted, f);
  }

  // ----- code spans in attributes

  /** In an attribute each span stands as the characters that were typed between its backticks, and other text as it is. */
  lemma SpanInAttribute(before: string, k: nat, after: string, spans: seq<string>, code: string)
    requires k < |spans| && spans[k] == "<code>" + code + "</code>" && Lacks(code, '<')
    requires Lacks(before, NUL) && Disciplined(after, |spans|)
    ensures Disciplined(before + Placeholder(k) + after, |spans|)
    ensures Plain(before + Placeholder(k) + after, spans) == before + code + Plain(after, spans)
  {
    hide Disciplined, Fill, StripCode;
    var stripped := seq(|spans|, n requires 0 <= n < |spans| => StripCode(spans[n]));
    StripCodeElement(code);
    PlainText(before, stripped);
    FillPlaceholder(k, stripped);
    FillJoin(before, Placeholder(k), stripped);
    FillJoin(before + Placeholder(k), after, stripped);
  }

  // ----- what a code span shows

  /** None of the characters that every match of a pass needs. */
  ghost predicate IsUnmarked(s: string) {
    Lacks(s, '[') && Lacks(s, ':') && Lacks(s, '#') && Lacks(s, '*') && Lacks(s, '~')
  }

  lemma NoUrl(s: string, b: nat)
    requires Lacks(s, ':')
    ensures BareUrlAt(s, b).None?
  {
    LiteralLacks(s, b, "http://", 4);
    LiteralLacks(s, b, "https://", 5);
  }

  lemma LiteralLacks(s: string, b: nat, lit: string, k: nat)
    requires k < |lit| && Lacks(s, lit[k])
    ensures !Has(s, b, lit)
  {
    assert b + |lit| <= |s| ==> s[b..b + |lit|][k] == s[b + k];
  }

  lemma NoSpanAt(s: string, i: nat, mark: char, width: nat)
    requires i <= |s| && 1 <= width <= 2 && Lacks(s, mark)
    ensures SpanAt(s, i, mark, width).None?
  {
  }

  lemma NoHit(rule: Rule, s: string, i: nat)
    requires i < |s| && Applies(rule, s) && IsUnmarked(s)
    ensures HitAt(rule, s, i).None?
  {
    hide Disciplined, SpanAt, BareUrlAt, IssueNumberAt, ImageHtml, SafeHref, Anchor, Element;
    NoUrl(s, i);
    NoUrl(s, i + 1);
    NoUrl(s, 0);
    NoIssue(s, i);
    NoIssue(s, i + 1);
    NoSpanAt(s, i, '*', 2);
    NoSpanAt(s, i, '*', 1);
    NoSpanAt(s, i + 1, '*', 1);
    NoSpanAt(s, i, '~', 2);
  }

  lemma NoIssue(s: string, b: nat)
    requires Lacks(s, '#')
    ensures IssueNumberAt(s, b).None?
  {
  }

  lemma Unchanged(rule: Rule, s: string)
    requires Applies(rule, s) && IsUnmarked(s)
    ensures Rewrite(rule, s, 0) == s
  {
    hide IsUnmarked, HitAt, Disciplined;
    forall k | 0 <= k < |s| ensures HitAt(rule, s, k).None? {
      NoHit(rule, s, k);
    }
    NothingReplaced(rule, s, 0);
  }

  lemma {:induction false} AllUnchanged(rules: seq<Rule>, s: string)
    requires NoImages(rules) && IsUnmarked(s)
    ensures RunPasses(rules, s) == s
  {
    hide Rewrite, IsUnmarked;
    if rules != [] {
      Unchanged(rules[0], s);
      AllUnchanged(rules[1..], s);
    }
  }

  /** A line whose text without its code spans holds no mark is that text with the spans put back. */
  lemma UnmarkedLine(escaped: string, options: Options)
    requires IsEscaped(escaped) && IsUnmarked(Lift(escaped, 0, []).text)
    ensures var lifted := Lift(escaped, 0, []);
            Disciplined(lifted.text, |lifted.spans|) && InlineHtml(escaped, options) == Fill(lifted.text, lifted.spans)
  {
    hide Disciplined, Fill, RunPasses, IsUnmarked, Rewrite, Lift, LaterRules;
    LiftDisciplined(escaped, 0, []);
    CompiledDisciplined(escaped, options);
    Unchanged(Image(Lift(escaped, 0, []).spans), Lift(escaped, 0, []).text);
    NoImagesLater(options);
    AllUnchanged(LaterRules(options), Lift(escaped, 0, []).text);
  }

  lemma NoImagesLater(options: Options)
    ensures NoImages(LaterRules(options))
  {
  }

  lemma NumberUnmarked(before: string, n: nat, after: string)
    requires IsUnmarked(before) && IsUnmarked(after)
    ensures IsUnmarked(before + Placeholder(n) + after)
  {
    var d := Decimal(n);
    var s := before + Placeholder(n) + after;
    forall k | 0 <= k < |s| ensures s[k] != '[' && s[k] != ':' && s[k] != '#' && s[k] != '*' && s[k] != '~' {
      assert |before| < k < |before| + 1 + |d| ==> s[k] == d[k - |before| - 1];
    }
  }

  /**
   Whatever stands in a code span is shown as it was typed, marks and all: none
   of it is taken for markup, in the midst of a text without marks.
   */
  lemma {:induction false} CodeShownLiterally(before: string, code: string, after: string, options: Options)
    requires IsEscaped(before + "`" + code + "`" + after) && code != "" && Lacks(code, '`') && Lacks(code, '\n')
    requires IsUnmarked(before) && Lacks(before, '`') && IsUnmarked(after) && Lacks(after, '`')
    ensures InlineHtml(before + "`" + code + "`" + after, options) == before + ("<code>" + code + "</code>") + after
  {
    hide IsUnmarked, Fill, Lift, InlineHtml, Disciplined;
    var s := before + "`" + code + "`" + after;
    var span := "<code>" + code + "</code>";
    OneSpanLifted(before, code, after);
    NumberUnmarked(before, 0, after);
    UnmarkedLine(s, options);
    PartsLackNul(before, code, after);
    PlainText(before, [span]);
    PlainText(after, [span]);
    FillPlaceholder(0, [span]);
    FillJoin(before, Placeholder(0), [span]);
    FillJoin(before + Placeholder(0), after, [span]);
  }

  lemma PartsLackNul(before: string, code: string, after: string)
    requires IsEscaped(before + "`" + code + "`" + after)
    ensures Lacks(before, NUL) && Lacks(after, NUL)
  {
    var s := before + "`" + code + "`" + after;
    assert forall k :: 0 <= k < |before| ==> before[k] == s[k];
    assert forall k :: 0 <= k < |after| ==> after[k] == s[|before| + |code| + 2 + k];
  }

  lemma {:induction false} OneSpanLifted(before: string, code: string, after: string)
    requires code != "" && Lacks(code, '`') && Lacks(code, '\n') && Lacks(before, '`') && Lacks(after, '`')
    ensures Lift(before + "`" + code + "`" + after, 0, [])
            == Lifted(before + Placeholder(0) + after, ["<code>" + code + "</code>"])
  {
    hide Lift;
    var s := before + "`" + code + "`" + after;
    var k, j := |before|, |before| + 1 + |code|;
    assert forall m :: 0 <= m < |before| ==> s[m] == before[m];
    assert forall m :: 0 <= m < |code| ==> s[k + 1 + m] == code[m];
    assert forall m :: 0 <= m < |after| ==> s[j + 1 + m] == after[m];
    SpanHere(s, k, j);
    NoSpanWithout(s, 0, k);
    NoSpanWithout(s, j + 1, |s|);
    SpanLifted(s, 0, k, j, []);
    assert s[k + 1..j] == code && s[j + 1..] == after && s[0..k] == before;
    NothingLifted(s, j + 1, ["<code>" + code + "</code>"]);
    assert [] + ["<code>" + code + "</code>"] == ["<code>" + code + "</code>"];
    Regroup(before, Placeholder(0), after);
  }

  lemma SpanHere(s: string, k: nat, j: nat)
    requires k + 1 < j < |s| && s[k] == '`' && s[j] == '`' && forall m :: k < m < j ==> s[m] != '`' && s[m] != '\n'
    ensures Span(s, k, j, '`', 1)
  {
  }

  lemma NoSpanWithout(s: string, from: nat, to: nat)
    requires forall m :: from <= m < to && m < |s| ==> s[m] != '`'
    ensures NoSpan(s, from, to)
  {
    forall k: nat, j: nat | from <= k < to ensures !Span(s, k, j, '`', 1) {
      assert k < |s| ==> !In(s[k], Only('`'));
    }
  }

  ghost predicate IsPlain(s: string) { IsUnmarked(s) && Lacks(s, '`') }

  lemma {:induction false} EscapedPlain(raw: string)
    requires IsPlain(raw) && Lacks(raw, '\'')
    ensures IsPlain(EscapeHtml(raw))
  {
    if raw != "" {
      assert forall k :: 0 <= k < |raw[1..]| ==> raw[1..][k] == raw[k + 1];
      EscapedPlain(raw[1..]);
      EntityPlain(raw[0]);
      PlainJoin(Entity(raw[0]), EscapeHtml(raw[1..]));
    }
  }

  lemma EntityPlain(c: char)
    requires c != '[' && c != ':' && c != '#' && c != '*' && c != '~' && c != '`' && c != '\''
    ensures IsPlain(Entity(c))
  {
  }

  lemma PlainJoin(a: string, b: string)
    requires IsPlain(a) && IsPlain(b)
    ensures IsPlain(a + b)
  {
  }

  /** A line without a mark is shown as it was typed. */
  lemma PlainLineShown(raw: string, options: Options)
    requires Lacks(raw, NUL) && IsPlain(raw) && Lacks(raw, '\'')
    ensures LineHtml(raw, options) == EscapeHtml(raw) && Unescape(LineHtml(raw, options)) == raw
  {
    hide IsUnmarked, Fill, Lift, InlineHtml, Disciplined, EscapeHtml, Unescape;
    var escaped := EscapeHtml(raw);
    EscapedLine(raw);
    EscapedPlain(raw);
    NoSpanWithout(escaped, 0, |escaped|);
    NothingLifted(escaped, 0, []);
    assert escaped[0..] == escaped;
    UnmarkedLine(escaped, options);
    PlainText(escaped, []);
    EscapeRoundTrip(raw);
  }
}
