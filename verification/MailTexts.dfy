/** A condition on a text under which every link of the output has a whole target. */
module MailTexts {
  import opened Text
  import opened Patterns
  import opened Links
  import opened Placeholders
  import opened Rewriting
  import opened RuleShapes
  import opened PassSafety
  import opened Inline
  import opened MailScan
  import opened MailMarkup
  import opened Replacing
  import opened MailPasses
  import opened MailTargets
  import opened Literals

  /** The name that the text begins with holds no opening parenthesis. */
  ghost predicate PlainName(s: string) {
    forall k: nat :: k < |s| && AllIn(s, 0, k, MailName) ==> s[k] != '('
  }

  /** Nor does the name of any mail address in the text. */
  ghost predicate PlainNames(s: string) { forall p: nat :: HasFold(s, p, MAIL) ==> PlainName(s[p + 7..]) }

  // ----- lines without images

  /** A stretch of the lifted text that no placeholder touches stands in the line. */
  lemma FoundInLine(escaped: string, a: nat, b: nat) returns (m: nat)
    requires IsEscaped(escaped)
    requires var t := Lift(escaped, 0, []).text;
             a < b <= |t| && Lacks(t[a..b], NUL) && !InsideRef(t[a]) && !InsideRef(t[b - 1])
    ensures m + (b - a) <= |escaped| && escaped[m..m + (b - a)] == Lift(escaped, 0, []).text[a..b]
  {
    hide Disciplined, Fill, Lift;
    var lifted := Lift(escaped, 0, []);
    LiftDisciplined(escaped, 0, []);
    LiftRoundTrip(escaped, 0, []);
    assert escaped[0..] == escaped;
    m := Contiguous(lifted.text, a, b, Quoted(lifted.spans));
  }

  lemma PlainTarget(escaped: string, i: nat, j: nat, k: nat)
    requires IsEscaped(escaped) && PlainNames(escaped)
    requires var t := Lift(escaped, 0, []).text; Bracket(t, i, j, k) && SafeHref(t[j + 2..k]).Some?
    ensures IsTarget(true, Lift(escaped, 0, []).text[j + 2..k])
  {
    hide Lift, PlainNames, IsAllowed, SafeHref;
    var t := Lift(escaped, 0, []).text;
    var url := t[j + 2..k];
    TargetTrimmed(t, j + 2, k);
    TargetOf(url);
    if HasFold(url, 0, MAIL) {
      var at := RunEnd(url, 7, MailName);
      MailIsNamed(url);
      assert t[j + 2..j + 3 + at] == url[..at + 1];
      assert url[..at + 1][0] == url[0] && url[..at + 1][at] == '@';
      assert t[j + 2] == url[0] && t[j + 2 + at] == url[at];
      var m := FoundInLine(escaped, j + 2, j + 3 + at);
      SameName(escaped, m, url, at);
    }
  }

  lemma AllowedMail(url: string)
    requires IsAllowed(url) && HasFold(url, 0, MAIL)
    ensures MailTarget(url) && url != "" && !InsideRef(url[0])
  {
    assert LowerAscii(url[0 + 0]) == MAIL[0];
    if !MailTarget(url) {
      AllowedFirst(url);
    }
  }

  /** An address that was let through has a name and an `@`. */
  lemma MailIsNamed(url: string)
    requires SafeHref(url) == Some(url) && HasFold(url, 0, MAIL)
    ensures var at := RunEnd(url, 7, MailName); 7 < at < |url| && url[at] == '@'
    ensures Lacks(url, NUL) && url != "" && !InsideRef(url[0])
  {
    hide IsAllowed, SafeHref;
    SafeHrefSound(url);
    AllowedMail(url);
  }

  lemma SameName(line: string, m: nat, url: string, at: nat)
    requires PlainNames(line) && 7 < at < |url| && url[at] == '@' && HasFold(url, 0, MAIL)
    requires AllIn(url, 7, at, MailName) && Lacks(url, NUL)
    requires m + at < |line| && line[m..m + at + 1] == url[..at + 1]
    ensures NameChars(true, url[7..at])
  {
    forall k | 0 <= k <= at ensures line[m + k] == url[k] {
      assert line[m..m + at + 1][k] == url[..at + 1][k];
    }
    assert forall k :: 0 <= k < 7 ==> LowerAscii(url[0 + k]) == MAIL[k];
    assert HasFold(line, m, MAIL);
    var rest := line[m + 7..];
    forall k | 0 <= k < at - 7 ensures rest[k] == url[7 + k] && In(url[7 + k], MailName) {
      assert line[m + (7 + k)] == url[7 + k];
    }
    forall k | 0 <= k < at - 7 ensures IsNameChar(true, url[7..at][k]) {
      assert url[7..at][k] == url[7 + k] == rest[k];
      assert AllIn(rest, 0, k, MailName);
    }
  }

  lemma NoLinkYet(s: string, b: nat)
    requires Lacks(s, '<')
    ensures !InName(false, s, b)
  {
    forall i: nat ensures !MailAt(s, i) {
      if MailAt(s, i) {
        MailStart(s, i);
      }
    }
  }

  lemma BehindOpening(rule: Rule, s: string, at: nat, hit: Hit)
    requires (rule.PastedUrl? || rule.Issue?) && IsReplaced(rule, s, at, hit)
    ensures hit.from > 0 ==> hit.from <= |s| && Opens(s[hit.from - 1])
  {
    hide Anchor, SafeHref;
  }

  /** A name without parentheses goes on behind its own characters and behind the colon. */
  lemma BehindName(s: string, i: nat, b: nat)
    requires MailAt(s, i) && NamedBefore(true, s, i, |s|) && NameUpTo(false, s, i, b)
    ensures 0 < b <= |s| && !Opens(s[b - 1])
  {
    hide MailAt;
    var e: nat :| i + 16 < e < |s| && s[e] == '@' && NameUpTo(true, s, i, e);
    MailBegun(s, i);
    assert Fits(i + 15 - i, s[i + 15]);
    assert !IsNameChar(false, s[e]) && b <= e;
  }

  /** No name without parentheses goes on behind a space or a parenthesis. */
  lemma NoNameGoesOn(s: string, b: nat)
    requires AllNamed(true, s) && b <= |s| && (b > 0 ==> Opens(s[b - 1]))
    ensures !InName(false, s, b)
  {
    hide MailAt, Opens;
    forall i: nat | MailAt(s, i) ensures !NameUpTo(false, s, i, b) {
      if NameUpTo(false, s, i, b) {
        BehindName(s, i, b);
      }
    }
  }

  lemma {:induction false} HitsFound(rule: Rule, s: string, i: nat)
    requires Applies(rule, s) && i <= |s|
    ensures forall k: nat :: k < |Replacements(rule, s, i)| ==> Replaces(rule, s, i, Replacements(rule, s, i)[k])
    decreases |s| - i
  {
    hide HitAt, IsReplaced, Rewrite, Replacements;
    var hits := Replacements(rule, s, i);
    if hits != [] {
      FirstReplacement(rule, s, i);
      HitsFound(rule, s, hits[0].end);
      forall k: nat | k < |hits| ensures Replaces(rule, s, i, hits[k]) {
        if k > 0 {
          assert Replaces(rule, s, hits[0].end, hits[1..][k - 1]);
        }
      }
    }
  }

  lemma PlainAnchorsUncut(rule: Rule, s: string)
    requires (rule.PastedUrl? || rule.Issue?) && AllNamed(true, s)
    ensures NamesUncut(rule, s)
    ensures OutsideNames(true, s, Replacements(rule, s, 0))
  {
    hide HitAt, AllNamed, InName, StateAt, Replacements;
    var hits := Replacements(rule, s, 0);
    HitsFound(rule, s, 0);
    forall k: nat | k < |hits| ensures CutsNoName(rule, s, hits, k) && !StateAt(true, s, hits[k].from).Name? {
      assert Replaces(rule, s, 0, hits[k]);
      var at: nat :| IsReplaced(rule, s, at, hits[k]);
      BehindOpening(rule, s, at, hits[k]);
      NoNameGoesOn(s, hits[k].from);
      NameStandsIn(true, s, hits[k].from);
      StrictInName(s, hits[k].from);
    }
    forall hit <- hits ensures hit.Replace? && hit.from <= |s| && !StateAt(true, s, hit.from).Name? {
      var k: nat :| k < |hits| && hits[k] == hit;
      assert CutsNoName(rule, s, hits, k);
    }
  }

  lemma StrictInName(s: string, b: nat)
    ensures InName(true, s, b) ==> InName(false, s, b)
  {
    if InName(true, s, b) {
      var i: nat :| MailAt(s, i) && NameUpTo(true, s, i, b);
      assert NameUpTo(false, s, i, b);
    }
  }

  lemma FirstLinksUncut(s: string)
    requires Lacks(s, '<')
    ensures NamesUncut(Link, s)
  {
    hide HitAt, Replacements, InName, Closes, LabelEnd;
    var hits := Replacements(Link, s, 0);
    HitsFound(Link, s, 0);
    forall k: nat | k < |hits| ensures CutsNoName(Link, s, hits, k) {
      assert Replaces(Link, s, 0, hits[k]);
      NoLinkYet(s, hits[k].from);
      NoLinkYet(s, LabelEnd(s, hits[k].from));
    }
  }

  /** Without images, and with plain names, no pass cuts anything. */
  lemma UncutWithoutImages(escaped: string, options: Options)
    requires IsEscaped(escaped) && Free(false, escaped, "![") && PlainNames(escaped)
    ensures LineUncut(escaped, options)
  {
    hide Disciplined, Refs, Rewrite, Run, Free, PlainNames, NamesUncut, Replacements, AllNamed, IsTarget, SafeHref, Lift, OutsideNames;
    var lifted := Lift(escaped, 0, []);
    var t := lifted.text;
    LiftDisciplined(escaped, 0, []);
    LiftedFree(false, escaped, "![");
    NoImagesIn(t, lifted.spans);
    FirstLinksUncut(t);
    forall i: nat, j: nat, k: nat | Bracket(t, i, j, k) && SafeHref(t[j + 2..k]).Some? ensures IsTarget(true, t[j + 2..k]) {
      PlainTarget(escaped, i, j, k);
    }
    FirstLinksRun(true, t);
    var stages := StagesOf(escaped);
    ScanDecides(true, stages.links);
    PlainAnchorsUncut(PastedUrl, stages.links);
    StrictStart(stages.links);
    AnchorsRun(true, PastedUrl, stages.links, 0);
    ScanDecides(true, stages.urls);
    if options.issueHref.Some? {
      PlainAnchorsUncut(Issue(options.issueHref.value), stages.urls);
    }
  }

  lemma StrictStart(s: string)
    ensures StateAt(true, s, 0) == START && s[0..] == s
  {
    assert s[..0] == "";
  }

  // ----- lines without mail addresses

  function WithoutTicks(s: string): (r: string)
    ensures Lacks(r, '`')
  {
    if s == "" then "" else (if s[0] == '`' then "" else [s[0]]) + WithoutTicks(s[1..])
  }

  lemma {:induction false} TicksJoin(a: string, b: string)
    ensures WithoutTicks(a + b) == WithoutTicks(a) + WithoutTicks(b)
    decreases |a|
  {
    if a == "" {
      assert a + b == b;
    } else {
      assert (a + b)[1..] == a[1..] + b;
      TicksJoin(a[1..], b);
    }
  }

  lemma {:induction false} NoTicks(s: string)
    requires Lacks(s, '`')
    ensures WithoutTicks(s) == s
  {
    if s != "" {
      assert s[0] != '`';
      NoTicks(s[1..]);
    }
  }

  lemma FoundWithoutTicks(s: string, p: nat)
    requires Found(true, s, p, MAIL)
    ensures Found(true, WithoutTicks(s), |WithoutTicks(s[..p])|, MAIL)
  {
    var a, w, b := s[..p], s[p..p + 7], s[p + 7..];
    forall k | 0 <= k < 7 ensures LowerAscii(w[k]) == MAIL[k] {
      assert Folded(true, s[p + k]) == MAIL[p + k - p];
    }
    assert s == a + w + b;
    TicksJoin(a + w, b);
    TicksJoin(a, w);
    assert forall k :: 0 <= k < 7 ==> MAIL[k] != '`';
    NoTicks(w);
    var r, m := WithoutTicks(s), |WithoutTicks(a)|;
    forall k | m <= k < m + 7 ensures Folded(true, r[k]) == MAIL[k - m] {
      assert r[k] == w[k - m];
    }
  }

  /** No mail address in any case, not even one with backticks in it. */
  ghost predicate NoMail(s: string) { Free(true, WithoutTicks(s), MAIL) }

  lemma NoMailFree(s: string)
    requires NoMail(s)
    ensures Free(true, s, MAIL)
  {
    forall p: nat ensures !Found(true, s, p, MAIL) {
      if Found(true, s, p, MAIL) {
        FoundWithoutTicks(s, p);
      }
    }
  }

  /** The spans as they stand in an attribute. */
  function Bare(spans: seq<string>): (bare: seq<string>)
    ensures |bare| == |spans|
  {
    seq(|spans|, k requires 0 <= k < |spans| => StripCode(spans[k]))
  }

  lemma {:induction false} TicksOfFill(symbols: seq<Symbol>, spans: seq<string>)
    requires forall symbol <- symbols :: IsSound(symbol, |spans|)
    ensures WithoutTicks(FillSymbols(symbols, Quoted(spans))) == WithoutTicks(FillSymbols(symbols, Bare(spans)))
  {
    hide WithoutTicks, StripCode;
    if symbols != [] {
      var rest := symbols[1..];
      assert forall symbol <- rest :: symbol in symbols;
      assert IsSound(symbols[0], |spans|);
      TicksOfFill(rest, spans);
      if symbols[0].Ref? {
        var bare := Bare(spans)[symbols[0].index];
        TicksJoin("`" + bare + "`", FillSymbols(rest, Quoted(spans)));
        TicksJoin(bare, FillSymbols(rest, Bare(spans)));
        TicksAround(bare);
      } else {
        TicksJoin([symbols[0].c], FillSymbols(rest, Quoted(spans)));
        TicksJoin([symbols[0].c], FillSymbols(rest, Bare(spans)));
      }
    }
  }

  lemma TicksAround(s: string)
    ensures WithoutTicks("`" + s + "`") == WithoutTicks(s)
  {
    TicksJoin("`" + s, "`");
    TicksJoin("`", s);
    assert "`"[1..] == "";
  }

  /** What an attribute can take up from the line holds no address either. */
  lemma BareFree(escaped: string)
    requires IsEscaped(escaped) && NoMail(escaped)
    ensures var r := Lift(escaped, 0, []);
            Disciplined(r.text, |r.spans|) && Free(true, Fill(r.text, Bare(r.spans)), MAIL) && Free(true, r.text, MAIL)
  {
    hide Lift, StripCode, WithoutTicks, Free;
    var r := Lift(escaped, 0, []);
    LiftDisciplined(escaped, 0, []);
    LiftRoundTrip(escaped, 0, []);
    assert escaped[0..] == escaped;
    TicksOfFill(Symbols(r.text), r.spans);
    NoMailFree(Fill(r.text, Bare(r.spans)));
    TagForeign(true, MAIL);
    UnfilledFree(true, r.text, Bare(r.spans), MAIL);
  }

  lemma PlainSliceFree(s: string, a: nat, b: nat, spans: seq<string>)
    requires Disciplined(s, |spans|) && a <= b <= |s| && CleanCut(s, a) && CleanCut(s, b)
    requires Free(true, Fill(s, Bare(spans)), MAIL)
    ensures Disciplined(s[a..b], |spans|) && Free(true, Plain(s[a..b], spans), MAIL)
  {
    hide Disciplined, Fill, Free, StripCode, CleanCut;
    var values := Bare(spans);
    var x := FillSlice(s, a, b, values);
    FreeSlice(true, Fill(s, values), x, x + |Fill(s[a..b], values)|, MAIL);
  }

  /** A stretch between two clean cuts is filled as it is filled in the text. */
  lemma FillSlice(s: string, a: nat, b: nat, values: seq<string>) returns (x: nat)
    requires Disciplined(s, |values|) && a <= b <= |s| && CleanCut(s, a) && CleanCut(s, b)
    ensures Disciplined(s[a..b], |values|)
    ensures var part := Fill(s[a..b], values); x + |part| <= |Fill(s, values)| && Fill(s, values)[x..x + |part|] == part
  {
    hide Disciplined, Fill;
    var front, part, back := s[..a], s[a..b], s[b..];
    DisciplinedSplit(s, b, |values|);
    assert CleanCut(s[..b], a);
    DisciplinedSplit(s[..b], a, |values|);
    assert s[..b][..a] == front && s[..b][a..] == part;
    FillJoin(front, part, values);
    FillJoin(front + part, back, values);
    assert front + part + back == s;
    x := |Fill(front, values)|;
    Middle(Fill(front, values), Fill(part, values), Fill(back, values));
  }

  lemma Middle(a: string, b: string, c: string)
    ensures (a + b + c)[|a|..|a| + |b|] == b
  {
  }

  lemma ImageElementFree(src: string, alt: string)
    requires Free(true, src, MAIL) && Free(true, alt, MAIL)
    ensures FreeMarkup(true, ImageElement(src, alt), MAIL)
  {
    hide Free, Foreign;
    TagForeign(true, MAIL);
    var middle, end := "\" alt=\"", "\" loading=\"lazy\">";
    ColonFree(true, IMAGE_TAG, MAIL);
    ColonFree(true, middle, MAIL);
    ColonFree(true, end, MAIL);
    FreeBetween(true, IMAGE_TAG, src, middle, MAIL);
    FreeBetween(true, IMAGE_TAG + src + middle, alt, end, MAIL);
    var html := ImageElement(src, alt);
    assert html == IMAGE_TAG + src + middle + alt + end;
    assert html[0] == '<' && html[|html| - 1] == '>';
  }

  lemma NoteFree(href: string, caption: string)
    requires Free(true, href, MAIL) && Free(true, caption, MAIL)
    ensures FreeMarkup(true, Anchor(href, caption) + NOTE, MAIL)
  {
    hide Free, Foreign, Anchor;
    AnchorMarkup(true, href, caption, MAIL);
    TagForeign(true, MAIL);
    assert Lacks(NOTE_TAG, ':') && Lacks(NOTE_TEXT, ':');
    ColonFree(true, NOTE, MAIL);
    FreeJoin(true, Anchor(href, caption), NOTE, MAIL);
    assert NOTE[|NOTE| - 1] == '>';
  }

  lemma ImageHitFree(s: string, spans: seq<string>, at: nat, hit: Hit)
    requires Premise(Image(spans), s) && IsReplaced(Image(spans), s, at, hit)
    requires Free(true, s, MAIL) && Free(true, Fill(s, Bare(spans)), MAIL)
    ensures FreeMarkup(true, hit.html, MAIL)
  {
    hide Anchor, SafeHref, Disciplined, ImageElement, Plain, NOTE, Free, Foreign, Fill, FreeMarkup, CodeSpans;
    ImageExact(s, at, spans);
    var (j, k) := BracketAt(s, at + 1).value;
    assert ImageShape(s, at, j, k);
    var url, alt := s[j + 2..k], s[at + 2..j];
    ImageUrlShape(s, j, k);
    FreeSlice(true, s, j + 2, k, MAIL);
    FreeSlice(true, s, at + 2, j, MAIL);
    if LocalTarget(url, 0) {
      PlainUrl(url, spans);
      PlainSliceFree(s, at + 2, j, spans);
      ImageElementFree(Plain(url, spans), Plain(alt, spans));
    } else {
      NoteFree(url, if alt == "" then url else alt);
    }
  }

  lemma PlainUrl(url: string, spans: seq<string>)
    requires Lacks(url, NUL)
    ensures Disciplined(url, |spans|) && Plain(url, spans) == url
  {
    PlainText(url, seq(|spans|, k requires 0 <= k < |spans| => StripCode(spans[k])));
  }

  lemma NoNameIn(s: string)
    requires Free(true, s, MAIL)
    ensures forall b: nat :: !InName(false, s, b)
  {
    forall i: nat ensures !MailAt(s, i) {
      if MailAt(s, i) {
        MailFound(s, i);
      }
    }
  }

  lemma MailFound(s: string, i: nat)
    requires MailAt(s, i)
    ensures Found(true, s, i + 9, MAIL)
  {
    forall k | i + 9 <= k < i + 16 ensures Folded(true, s[k]) == MAIL[k - (i + 9)] {
      assert LowerAscii(s[i + 9 + (k - (i + 9))]) == MAIL[k - (i + 9)];
    }
  }

  lemma NamelessUncut(rule: Rule, s: string)
    requires !rule.Image? && Free(true, s, MAIL)
    ensures NamesUncut(rule, s)
  {
    hide HitAt, Free, Replacements, InName, Closes, LabelEnd;
    NoNameIn(s);
    HitsFound(rule, s, 0);
    var hits := Replacements(rule, s, 0);
    forall k: nat | k < |hits| ensures CutsNoName(rule, s, hits, k) {
      assert Replaces(rule, s, 0, hits[k]);
    }
  }

  /** Without a mail address, no pass has one to cut. */
  lemma UncutWithoutMail(escaped: string, options: Options)
    requires IsEscaped(escaped) && NoMail(escaped)
    ensures LineUncut(escaped, options)
  {
    hide Disciplined, Refs, Rewrite, Free, NoMail, NamesUncut, Replacements, HitAt, Lift, FreeMarkup;
    var lifted := Lift(escaped, 0, []);
    LiftDisciplined(escaped, 0, []);
    BareFree(escaped);
    forall at: nat, hit: Hit | IsReplaced(Image(lifted.spans), lifted.text, at, hit) ensures FreeMarkup(true, hit.html, MAIL) {
      ImageHitFree(lifted.text, lifted.spans, at, hit);
    }
    FreeRewrite(true, Image(lifted.spans), lifted.text, 0, MAIL);
    var stages := StagesOf(escaped);
    LinksFree(true, Link, stages.images, MAIL);
    LinksFree(true, PastedUrl, stages.links, MAIL);
    NamelessUncut(Link, stages.images);
    NamelessUncut(PastedUrl, stages.links);
    if options.issueHref.Some? {
      NamelessUncut(Issue(options.issueHref.value), stages.urls);
    }
  }
}
