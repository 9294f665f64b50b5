/**
 Which passes keep every tag whole, and exactly when: a match must neither
 begin nor end inside a tag, and the target of a link must hold none.
 */
module TagPasses {
  import opened Text
  import opened Patterns
  import opened Links
  import opened Placeholders
  import opened Rewriting
  import opened RuleShapes
  import opened Replacing
  import opened TagSafety
  import opened PassSafety
  import opened TagScan
  import MailScan
  import opened MailMarkup
  import MailPasses

  // ----- the markup that is written

  lemma OpenedInside(q: Place, html: string)
    requires html != "" && html[0] == '<' && !q.Outside?
    ensures Scan(q, html) == Broken
  {
    TagOpens(html);
  }

  /** An element is passed over if it stands outside, and its body does. */
  lemma ElementScan(q: Place, tag: string, body: string)
    requires IsShortTag("<" + tag + ">") && IsShortTag("</" + tag + ">")
    ensures Scan(q, Element(tag, body)) == if q.Outside? && IsClean(body) then Outside else Broken
  {
    hide Scan, IsShortTag;
    var open, close := "<" + tag + ">", "</" + tag + ">";
    ElementText(tag, body);
    ShortTagScan(open);
    ShortTagScan(close);
    if q.Outside? {
      ScanJoin(q, open + body, close);
      ScanJoin(q, open, body);
      if !IsClean(body) {
        OpenedInside(Scan(Outside, body), close);
      }
    } else {
      OpenedInside(q, Element(tag, body));
    }
  }

  lemma AnchorText(href: string, caption: string)
    ensures Anchor(href, caption) == LinkTag(href) + caption + "</a>"
  {
  }

  lemma AnchorEnd()
    ensures IsShortTag("</a>")
  {
  }

  /** The same for a link with a target that can be quoted. */
  lemma AnchorScan(q: Place, href: string, caption: string)
    requires IsAllowed(href) && IsValue(href)
    ensures Scan(q, Anchor(href, caption)) == if q.Outside? && IsClean(caption) then Outside else Broken
  {
    hide Scan, IsAllowed, IsValue, LinkTag, IsShortTag;
    AnchorText(href, caption);
    AnchorEnd();
    ShortTagScan("</a>");
    LinkTagScan(href);
    if q.Outside? {
      ScanJoin(q, LinkTag(href) + caption, "</a>");
      ScanJoin(q, LinkTag(href), caption);
      if !IsClean(caption) {
        OpenedInside(Scan(Outside, caption), "</a>");
      }
    } else {
      OpenedInside(q, Anchor(href, caption));
    }
  }

  /** A tag in the target breaks the tag of the link. */
  lemma TagInTarget(before: string, after: string, rest: string)
    requires IsValue(before)
    ensures Scan(Outside, ANCHOR_TAG + (before + "<" + after) + rest) == Broken
  {
    hide Scan, IsWholeTag;
    var s := ANCHOR_TAG + (before + "<" + after) + rest;
    assert ANCHOR_TAG == "<" + ("a href=" + "\"");
    assert s == "<" + ("a href=" + "\"") + before + ("<" + after + rest);
    ScanJoin(Outside, "<" + ("a href=" + "\"") + before, "<" + after + rest);
    ScanJoin(Outside, "<" + ("a href=" + "\""), before);
    OpenerScan();
    InsideScan("<a href=\"", true, before);
    OpenedInside(Inside("<a href=\"" + before, true), "<" + after + rest);
  }

  lemma OpenerScan()
    ensures Scan(Outside, "<" + ("a href=" + "\"")) == Inside("<a href=\"", true)
  {
    hide Scan, IsWholeTag;
    var t := "<" + ("a href=" + "\"");
    TagOpens(t);
    assert t[1..] == "a href=" + "\"";
    ScanJoin(Inside("<", false), "a href=", "\"");
    InsideScan("<", false, "a href=");
    QuoteScan("<a href=", false);
    assert "<" + "a href=" == "<a href=" && "<a href=" + "\"" == "<a href=\"";
  }

  // ----- emphasis, pasted URLs, issue numbers

  predicate IsLater(rule: Rule) { !rule.Image? && !rule.Link? }

  /** Issue links come without quotes and without `<`, which is the caller's side of the bargain. */
  ghost predicate QuotableLinks(rule: Rule) {
    rule.Issue? ==> forall n: nat :: IsValue(rule.href(n))
  }

  predicate IsEmphasis(rule: Rule) { rule.Strong? || rule.Emphasis? || rule.Deleted? }

  /** Where the closing mark of a span stands. */
  function CloseAt(rule: Rule, hit: Hit): int { if rule.Emphasis? then hit.end - 1 else hit.end - 2 }

  /** The match begins outside of tags, and so does the closing mark of a span. */
  ghost predicate LaterKeeps(rule: Rule, s: string, hit: Hit) {
    && hit.Replace? && hit.from <= |s| && PlaceAt(s, hit.from).Outside?
    && (IsEmphasis(rule) ==> 0 <= CloseAt(rule, hit) <= |s| && PlaceAt(s, CloseAt(rule, hit)).Outside?)
  }

  lemma UrlValue(s: string, b: nat, e: nat)
    requires BareUrl(s, b, e)
    ensures IsAllowed(s[b..e]) && IsValue(s[b..e])
  {
    var m := SchemeEnd(s, b).value;
    assert Lacks("http://", '"') && Lacks("https://", '"');
    forall k | 0 <= k < e - b ensures s[b..e][k] != '"' {
      assert b + k < m ==> s[b..m][k] == s[b + k];
      assert m <= b + k ==> In(s[b + k], BareTarget);
    }
    MailPasses.UrlRun(false, s, b, e, MailScan.START);
  }

  lemma UrlHitScan(s: string, at: nat, hit: Hit)
    requires IsReplaced(PastedUrl, s, at, hit)
    ensures hit.from <= hit.end <= |s|
    ensures Scan(PlaceAt(s, hit.from), hit.html)
            == if LaterKeeps(PastedUrl, s, hit) then Scan(PlaceAt(s, hit.from), s[hit.from..hit.end]) else Broken
  {
    hide Scan, Anchor, IsAllowed, IsValue;
    var b := UrlStart(s, at).value;
    var e := BareUrlAt(s, b).value;
    UrlValue(s, b, e);
    PlainScan(s[b..e]);
    AnchorScan(PlaceAt(s, b), s[b..e], s[b..e]);
  }

  lemma SafeValue(given: string)
    requires IsValue(given) && SafeHref(given).Some?
    ensures IsAllowed(SafeHref(given).value) && IsValue(SafeHref(given).value)
  {
    hide SafeHref, IsAllowed;
    SafeHrefSound(given);
    var a: nat, b: nat :| a <= b <= |given| && SafeHref(given).value == given[a..b];
  }

  lemma IssueHitScan(s: string, href: nat -> string, at: nat, hit: Hit)
    requires IsReplaced(Issue(href), s, at, hit) && QuotableLinks(Issue(href))
    ensures hit.from <= hit.end <= |s|
    ensures Scan(PlaceAt(s, hit.from), hit.html)
            == if LaterKeeps(Issue(href), s, hit) then Scan(PlaceAt(s, hit.from), s[hit.from..hit.end]) else Broken
  {
    hide Scan, Anchor, IsAllowed, IsValue, SafeHref, IssueNumber;
    var b := IssueStart(s, at).value;
    var e := IssueNumberAt(s, b).value;
    MailPasses.IssueTyped(s, b, e);
    var number := s[b + 1..e];
    var given := href(Value(number));
    assert IsValue(given);
    SafeValue(given);
    TypedValue(s, b, e);
    PlainScan(s[b..e]);
    AnchorScan(PlaceAt(s, b), SafeHref(given).value, s[b..e]);
  }

  lemma TypedValue(s: string, b: nat, e: nat)
    requires IssueNumber(s, b, e)
    ensures IsValue(s[b..e])
  {
    forall k | 0 <= k < e - b ensures s[b..e][k] != '"' && s[b..e][k] != '<' {
      assert k > 0 ==> In(s[b + k], Digit);
    }
  }

  lemma MarkScan(s: string, a: nat, b: nat, mark: char)
    requires a <= b <= |s| && AllIn(s, a, b, Only(mark)) && mark != '"' && mark != '<'
    ensures Scan(Outside, s[a..b]) == Outside
  {
    forall k | 0 <= k < b - a ensures s[a..b][k] == mark {
      assert In(s[a + k], Only(mark));
    }
    PlainScan(s[a..b]);
  }

  /** A span between marks and the element in its place. */
  lemma SpanScan(s: string, i: nat, j: nat, mark: char, width: nat, tag: string)
    requires Span(s, i, j, mark, width) && mark != '"' && mark != '<'
    requires IsShortTag("<" + tag + ">") && IsShortTag("</" + tag + ">")
    ensures Scan(PlaceAt(s, i), Element(tag, s[i + width..j]))
            == if PlaceAt(s, i).Outside? && PlaceAt(s, j).Outside? then Scan(PlaceAt(s, i), s[i..j + width]) else Broken
  {
    hide Scan, IsShortTag, Element;
    var body := s[i + width..j];
    ElementScan(PlaceAt(s, i), tag, body);
    if PlaceAt(s, i).Outside? {
      MarkScan(s, i, i + width, mark);
      MarkScan(s, j, j + width, mark);
      PlaceMoves(s, i, i + width);
      PlaceMoves(s, i + width, j);
      PlaceMoves(s, j, j + width);
      PlaceMoves(s, i, j + width);
    }
  }

  /** The span that an emphasis rule replaces: its mark, how often it stands, and the element. */
  function Mark(rule: Rule): char { if rule.Deleted? then '~' else '*' }

  function Width(rule: Rule): nat { if rule.Emphasis? then 1 else 2 }

  function TagOf(rule: Rule): string { if rule.Strong? then "strong" else if rule.Emphasis? then "em" else "del" }

  lemma TagNames(tag: string)
    requires tag == "strong" || tag == "em" || tag == "del"
    ensures IsShortTag("<" + tag + ">") && IsShortTag("</" + tag + ">")
  {
    if tag == "strong" {
      assert "<" + tag + ">" == "<strong>" && "</" + tag + ">" == "</strong>";
    } else if tag == "em" {
      assert "<" + tag + ">" == "<em>" && "</" + tag + ">" == "</em>";
    } else {
      assert "<" + tag + ">" == "<del>" && "</" + tag + ">" == "</del>";
    }
  }

  lemma EmphasisTag(rule: Rule)
    requires IsEmphasis(rule)
    ensures IsShortTag("<" + TagOf(rule) + ">") && IsShortTag("</" + TagOf(rule) + ">")
    ensures Mark(rule) != '"' && Mark(rule) != '<' && 1 <= Width(rule) <= 2
  {
    hide IsShortTag;
    TagNames(TagOf(rule));
  }

  lemma EmphasisHit(rule: Rule, s: string, at: nat, hit: Hit)
    requires IsEmphasis(rule) && IsReplaced(rule, s, at, hit)
    ensures hit.Replace?
    ensures var i, j := hit.from, hit.end - Width(rule);
            && j >= 0 && Span(s, i, j, Mark(rule), Width(rule))
            && hit.html == Element(TagOf(rule), s[i + Width(rule)..j])
  {
    hide Element, Span;
  }

  lemma EmphasisHitScan(rule: Rule, s: string, at: nat, hit: Hit)
    requires IsEmphasis(rule) && IsReplaced(rule, s, at, hit)
    ensures hit.from <= hit.end <= |s|
    ensures Scan(PlaceAt(s, hit.from), hit.html)
            == if LaterKeeps(rule, s, hit) then Scan(PlaceAt(s, hit.from), s[hit.from..hit.end]) else Broken
  {
    hide Scan, Element, Span, IsShortTag, PlaceAt, HitAt, IsReplaced, TagOf, Mark;
    EmphasisHit(rule, s, at, hit);
    EmphasisTag(rule);
    var j := hit.end - Width(rule);
    SpanEnds(s, hit.from, j, Mark(rule), Width(rule));
    SpanScan(s, hit.from, j, Mark(rule), Width(rule), TagOf(rule));
  }

  lemma SpanEnds(s: string, i: nat, j: nat, mark: char, width: nat)
    requires Span(s, i, j, mark, width)
    ensures i + width < j && j + width <= |s|
  {
  }

  lemma LaterHitScan(rule: Rule, s: string, at: nat, hit: Hit)
    requires IsLater(rule) && QuotableLinks(rule) && IsReplaced(rule, s, at, hit)
    ensures hit.from <= hit.end <= |s|
    ensures Scan(PlaceAt(s, hit.from), hit.html)
            == if LaterKeeps(rule, s, hit) then Scan(PlaceAt(s, hit.from), s[hit.from..hit.end]) else Broken
  {
    hide Scan, IsReplaced, LaterKeeps;
    match rule
    case PastedUrl => UrlHitScan(s, at, hit);
    case Issue(href) => IssueHitScan(s, href, at, hit);
    case _ => EmphasisHitScan(rule, s, at, hit);
  }

  ghost predicate AllLaterKeep(rule: Rule, s: string, hits: seq<Hit>) {
    forall hit <- hits :: LaterKeeps(rule, s, hit)
  }

  lemma ScanThree(q: Place, a: string, b: string, c: string)
    ensures Scan(q, a + (b + c)) == Scan(Scan(Scan(q, a), b), c)
  {
    ScanJoin(q, a, b + c);
    ScanJoin(Scan(q, a), b, c);
  }

  /** What stands behind the first replacement, in the text and in the compiled text. */
  lemma FirstParts(s: string, i: nat, from: nat, end: nat)
    requires i <= from <= end <= |s|
    ensures Scan(PlaceAt(s, i), s[i..]) == Scan(PlaceAt(s, end), s[end..])
    ensures Scan(PlaceAt(s, from), s[from..end]) == PlaceAt(s, end) && Scan(PlaceAt(s, i), s[i..from]) == PlaceAt(s, from)
  {
    PlaceMoves(s, i, from);
    PlaceMoves(s, from, end);
    ScanThree(PlaceAt(s, i), s[i..from], s[from..end], s[end..]);
    assert s[i..] == s[i..from] + (s[from..end] + s[end..]);
  }

  /** A later pass changes nothing for the scan, or breaks it, whatever the text. */
  lemma {:induction false} LaterScan(rule: Rule, s: string, i: nat)
    requires IsLater(rule) && QuotableLinks(rule) && i <= |s|
    ensures var hits, q := Replacements(rule, s, i), PlaceAt(s, i);
            Scan(q, Rewrite(rule, s, i)) == if AllLaterKeep(rule, s, hits) then Scan(q, s[i..]) else Broken
    decreases |s| - i
  {
    hide Scan, Rewrite, Replacements, HitAt, IsReplaced, PlaceAt, LaterKeeps, QuotableLinks;
    var hits, q := Replacements(rule, s, i), PlaceAt(s, i);
    if hits == [] {
      NoReplacement(rule, s, i);
    } else {
      FirstReplacement(rule, s, i);
      var hit := hits[0];
      var at: nat :| IsReplaced(rule, s, at, hit);
      LaterHitScan(rule, s, at, hit);
      FirstParts(s, i, hit.from, hit.end);
      ScanThree(q, s[i..hit.from], hit.html, Rewrite(rule, s, hit.end));
      assert hits == [hit] + hits[1..];
      if LaterKeeps(rule, s, hit) {
        LaterScan(rule, s, hit.end);
        assert AllLaterKeep(rule, s, hits) <==> AllLaterKeep(rule, s, hits[1..]);
      } else {
        StaysBroken(Rewrite(rule, s, hit.end));
      }
    }
  }

  // ----- links

  lemma LinkTagInner(href: string)
    requires IsValue(href)
    ensures forall k :: 1 <= k < |LinkTag(href)| ==> LinkTag(href)[k] != '<'
  {
    AnchorTailUntagged(href);
  }

  lemma ImageTagInner(src: string, alt: string)
    requires IsValue(src) && IsValue(alt)
    ensures forall k :: 1 <= k < |ImageElement(src, alt)| ==> ImageElement(src, alt)[k] != '<'
  {
    var tail := ImageTail(alt);
    assert Lacks(tail, '<');
  }

  /** A whole tag holds no second `<`. */
  lemma NoInnerTag(t: string)
    requires IsWholeTag(t)
    ensures forall k :: 1 <= k < |t| ==> t[k] != '<'
  {
    hide LocalTarget, IsAllowed, IsShortTag, IsValue, LinkTag, ImageElement;
    if IsShortTag(t) {
      ShortTagScan(t);
    } else if IsLinkTag(t) {
      var href: string :| IsAllowed(href) && IsValue(href) && t == LinkTag(href);
      LinkTagInner(href);
    } else if IsImageTag(t) {
      var src: string, alt: string :| LocalTarget(src, 0) && IsValue(src) && IsValue(alt) && t == ImageElement(src, alt);
      ImageTagInner(src, alt);
    } else if IsCodeTag(t) {
      var language: string :| IsValue(language) && t == CodeTag(language);
      CodeTagInner(language);
    } else {
      FixedQuotes();
    }
  }

  lemma CodeTagInner(language: string)
    requires IsValue(language)
    ensures forall k :: 1 <= k < |CodeTag(language)| ==> CodeTag(language)[k] != '<'
  {
  }

  lemma NoTagInside(s: string, a: nat, e: nat, k: nat)
    requires TagStands(s, a, e) && a < k < e
    ensures s[k] != '<'
  {
    NoInnerTag(s[a..e]);
    assert s[a..e][k - a] == s[k];
  }

  /** A label that ends inside a tag leaves that tag without its end. */
  lemma LabelCut(x: string, caption: string, y: string)
    requires Scan(Outside, caption).Inside?
    ensures !IsClean(x + caption + ("</a>" + y))
  {
    hide Scan, IsWholeTag, IsClean, TagsWhole;
    var s := x + caption + ("</a>" + y);
    assert s[|x| + |caption|] == '<';
    if IsClean(s) {
      TagScan.ScanDecides(s);
      PlaceEnds(caption);
      var a := InsideMeans(caption, |caption|);
      var e := TagAtLabel(x, caption, y, a);
      if e <= |x| + |caption| {
        assert s[|x| + a..e] == caption[a..e - |x|];
        ThroughTag(caption, a, e - |x|, a);
      } else {
        NoTagInside(s, |x| + a, e, |x| + |caption|);
      }
    }
  }

  lemma TagAtLabel(x: string, caption: string, y: string, a: nat) returns (e: nat)
    requires TagsWhole(x + caption + ("</a>" + y)) && a < |caption| && caption[a] == '<'
    ensures TagStands(x + caption + ("</a>" + y), |x| + a, e)
  {
    var s := x + caption + ("</a>" + y);
    assert s[|x| + a] == '<';
    e :| TagStands(s, |x| + a, e);
  }

  /** The link begins outside of tags, its label ends there, and its target holds no tag. */
  ghost predicate LinkKeeps(s: string, hit: Hit) {
    && hit.Replace? && hit.from <= |s| && PlaceAt(s, hit.from).Outside?
    && var j := MailPasses.LabelEnd(s, hit.from);
       PlaceAt(s, j).Outside? && j + 2 < hit.end <= |s| && Lacks(s[j + 2..hit.end - 1], '<')
  }

  /** Up to its first `<`, text outside of tags holds no quote. */
  lemma {:induction false} QuoteFree(s: string, a: nat, b: nat)
    requires IsClean(s) && a <= b <= |s| && PlaceAt(s, a).Outside? && Lacks(s[a..b], '<')
    ensures IsValue(s[a..b]) && PlaceAt(s, b).Outside?
    decreases b - a
  {
    hide Scan, IsWholeTag, IsClean;
    if a < b {
      PlaceStep(s, a);
      NeverBroken(s, a + 1);
      assert s[a] == s[a..b][0];
      SliceLacks(s[a..b], 1, b - a, '<');
      assert s[a..b][1..b - a] == s[a + 1..b];
      QuoteFree(s, a + 1, b);
      assert s[a..b] == [s[a]] + s[a + 1..b];
    }
  }

  lemma {:induction false} FirstTag(s: string) returns (k: nat)
    requires !Lacks(s, '<')
    ensures k < |s| && s[k] == '<' && Lacks(s[..k], '<')
    decreases |s|
  {
    if s[0] == '<' {
      k := 0;
    } else {
      var n :| 0 <= n < |s| && s[n] == '<';
      assert s[1..][n - 1] == '<';
      var m := FirstTag(s[1..]);
      k := m + 1;
      assert s[..k] == [s[0]] + s[1..][..m];
    }
  }

  /** The parts of a link that is replaced. */
  lemma LinkParts(s: string, at: nat, hit: Hit)
    requires IsReplaced(Link, s, at, hit)
    ensures hit.Replace?
    ensures var j := MailPasses.LabelEnd(s, at);
            && hit.from == at && at + 1 <= j && j + 2 < hit.end <= |s| && s[at] == '[' && s[j..j + 2] == "](" && s[hit.end - 1] == ')'
            && var url, caption := s[j + 2..hit.end - 1], s[at + 1..j];
               IsAllowed(url) && hit.html == Anchor(url, if caption == "" then url else caption)
  {
    hide Anchor, SafeHref, IsAllowed, HitAt;
    MailPasses.LinkHitShape(s, at, hit);
    var j := MailPasses.LabelEnd(s, at);
    SafeHrefSound(s[j + 2..hit.end - 1]);
  }

  lemma LabelPlace(s: string, at: nat, j: nat)
    requires at < j <= |s| && s[at] == '[' && PlaceAt(s, at).Outside?
    ensures PlaceAt(s, j) == Scan(Outside, s[at + 1..j])
  {
    hide IsWholeTag;
    PlaceStep(s, at);
    PlaceMoves(s, at + 1, j);
  }

  lemma LinkHitScan(s: string, at: nat, hit: Hit)
    requires IsClean(s) && IsReplaced(Link, s, at, hit) && LinkKeeps(s, hit)
    ensures Scan(PlaceAt(s, hit.from), hit.html) == Scan(PlaceAt(s, hit.from), s[hit.from..hit.end])
  {
    hide Scan, Anchor, IsAllowed, IsReplaced, IsClean, IsValue;
    LinkParts(s, at, hit);
    var j := MailPasses.LabelEnd(s, at);
    var url, caption := s[j + 2..hit.end - 1], s[at + 1..j];
    LabelPlace(s, at, j);
    AfterLabel(s, j, hit.end);
    PlainScan(url);
    CleanIs(caption);
    CleanIs(url);
    AnchorScan(Outside, url, if caption == "" then url else caption);
    PlaceMoves(s, at, hit.end);
  }

  lemma CleanIs(s: string)
    ensures IsClean(s) <==> Scan(Outside, s) == Outside
  {
  }

  /** From the end of the label on. */
  lemma AfterLabel(s: string, j: nat, end: nat)
    requires IsClean(s) && j + 2 < end <= |s| && s[j..j + 2] == "](" && PlaceAt(s, j).Outside?
    ensures PlaceAt(s, j + 2).Outside?
    ensures Lacks(s[j + 2..end - 1], '<') ==> IsValue(s[j + 2..end - 1])
    ensures Lacks(s[j + 2..end - 1], '<') && s[end - 1] == ')' ==> PlaceAt(s, end).Outside?
  {
    hide Scan, IsWholeTag, IsClean;
    assert s[j] == s[j..j + 2][0] && s[j + 1] == s[j..j + 2][1];
    PlaceStep(s, j);
    PlaceStep(s, j + 1);
    if Lacks(s[j + 2..end - 1], '<') {
      QuoteFree(s, j + 2, end - 1);
      PlaceStep(s, end - 1);
    }
  }

  ghost predicate AllLinksKeep(s: string, hits: seq<Hit>) { forall hit <- hits :: LinkKeeps(s, hit) }

  lemma {:induction false} LinksKept(s: string, i: nat)
    requires IsClean(s) && i <= |s| && AllLinksKeep(s, Replacements(Link, s, i))
    ensures Scan(PlaceAt(s, i), Rewrite(Link, s, i)) == Scan(PlaceAt(s, i), s[i..])
    decreases |s| - i
  {
    hide Scan, Rewrite, Replacements, HitAt, IsReplaced, PlaceAt, LinkKeeps, IsClean;
    var hits := Replacements(Link, s, i);
    if hits == [] {
      NoReplacement(Link, s, i);
    } else {
      FirstReplacement(Link, s, i);
      var hit := hits[0];
      var at: nat :| IsReplaced(Link, s, at, hit);
      assert hit in hits && forall later <- hits[1..] :: later in hits;
      LinkHitScan(s, at, hit);
      FirstParts(s, i, hit.from, hit.end);
      ScanThree(PlaceAt(s, i), s[i..hit.from], hit.html, Rewrite(Link, s, hit.end));
      LinksKept(s, hit.end);
    }
  }

  lemma BeginsInside(s: string, hit: Hit, x: string, y: string)
    requires hit.Replace? && hit.html != "" && hit.html[0] == '<' && !Scan(Outside, x).Outside?
    ensures !IsClean(x + (hit.html + y))
  {
    hide Scan;
    ScanThree(Outside, x, hit.html, y);
    OpenedInside(Scan(Outside, x), hit.html);
    StaysBroken(y);
  }

  lemma LabelInside(s: string, url: string, caption: string, x: string, y: string)
    requires Scan(Outside, caption).Inside?
    ensures !IsClean(x + (Anchor(url, caption) + y))
  {
    hide Scan, IsClean, LinkTag;
    AnchorText(url, caption);
    LabelCut(x + LinkTag(url), caption, y);
    assert x + (LinkTag(url) + caption + "</a>" + y) == x + LinkTag(url) + caption + ("</a>" + y);
  }

  lemma TargetInside(url: string, caption: string, k: nat, x: string, y: string)
    requires Scan(Outside, x) == Outside && k < |url| && url[k] == '<' && IsValue(url[..k])
    ensures !IsClean(x + (Anchor(url, caption) + y))
  {
    hide Scan, IsValue, AnchorTail;
    var rest := AnchorTail(url) + caption + "</a>";
    var before, after := url[..k], url[k + 1..];
    assert url == before + "<" + after;
    assert Anchor(url, caption) == ANCHOR_TAG + url + rest;
    TagInTarget(before, after, rest);
    ScanThree(Outside, x, Anchor(url, caption), y);
    StaysBroken(y);
  }

  /** A link that does not keep the tags breaks the text, whatever stands around it. */
  lemma LinkBreaks(s: string, at: nat, hit: Hit, x: string, y: string)
    requires IsClean(s) && IsReplaced(Link, s, at, hit) && !LinkKeeps(s, hit)
    requires at <= |s| && Scan(Outside, x) == PlaceAt(s, at)
    ensures !IsClean(x + (hit.html + y))
  {
    hide Scan, Anchor, IsAllowed, IsReplaced, IsClean, IsValue, PlaceAt;
    LinkParts(s, at, hit);
    var j := MailPasses.LabelEnd(s, at);
    var url, caption := s[j + 2..hit.end - 1], s[at + 1..j];
    if !PlaceAt(s, at).Outside? {
      AnchorStarts(url, if caption == "" then url else caption);
      BeginsInside(s, hit, x, y);
    } else {
      LabelPlace(s, at, j);
      NeverBroken(s, j);
      if PlaceAt(s, j).Inside? {
        assert caption != "" by { ScanNothing(); }
        LabelInside(s, url, caption, x, y);
      } else {
        var k := FirstTag(url);
        AfterLabel(s, j, hit.end);
        SliceOfSlice(s, j + 2, hit.end - 1, 0, k);
        assert url[0..k] == url[..k];
        QuoteFree(s, j + 2, j + 2 + k);
        TargetInside(url, if caption == "" then url else caption, k, x, y);
      }
    }
  }

  lemma ScanNothing()
    ensures Scan(Outside, "") == Outside
  {
  }

  lemma AnchorStarts(href: string, caption: string)
    ensures Anchor(href, caption) != "" && Anchor(href, caption)[0] == '<'
  {
  }

  lemma {:induction false} LinksBreak(s: string, i: nat, x: string)
    requires IsClean(s) && i <= |s| && Scan(Outside, x) == PlaceAt(s, i) && !AllLinksKeep(s, Replacements(Link, s, i))
    ensures !IsClean(x + Rewrite(Link, s, i))
    decreases |s| - i
  {
    hide Scan, Rewrite, Replacements, HitAt, IsReplaced, PlaceAt, LinkKeeps, IsClean;
    var hits := Replacements(Link, s, i);
    FirstReplacement(Link, s, i);
    var hit := hits[0];
    var at: nat :| IsReplaced(Link, s, at, hit);
    LinkParts(s, at, hit);
    var gap, rest := s[i..hit.from], Rewrite(Link, s, hit.end);
    PlaceMoves(s, i, hit.from);
    ScanJoin(Outside, x, gap);
    if LinkKeeps(s, hit) {
      assert hits == [hit] + hits[1..];
      LinkHitScan(s, at, hit);
      PlaceMoves(s, hit.from, hit.end);
      ScanJoin(Outside, x + gap, hit.html);
      LinksBreak(s, hit.end, x + gap + hit.html);
      FourParts(x, gap, hit.html, rest);
    } else {
      LinkBreaks(s, at, hit, x + gap, rest);
      FourParts(x, gap, hit.html, rest);
    }
  }

  lemma FourParts(a: string, b: string, c: string, d: string)
    ensures a + b + c + d == a + (b + (c + d)) && a + b + (c + d) == a + (b + (c + d))
  {
  }

  // ----- any pass

  /** No match of the pass begins or ends inside a tag, and no link has a tag in its target. */
  ghost predicate TagsUncut(rule: Rule, s: string)
    requires Applies(rule, s)
  {
    var hits := Replacements(rule, s, 0);
    if rule.Link? then AllLinksKeep(s, hits) else AllLaterKeep(rule, s, hits)
  }

  /** Every tag stays whole in a pass exactly when the pass cuts none. */
  lemma PassKeepsTags(rule: Rule, s: string)
    requires !rule.Image? && QuotableLinks(rule) && TagsWhole(s)
    ensures TagsWhole(Rewrite(rule, s, 0)) <==> TagsUncut(rule, s)
  {
    hide Scan, Rewrite, Replacements, PlaceAt, LinkKeeps, LaterKeeps, QuotableLinks, TagsWhole;
    TagScan.ScanDecides(s);
    TagScan.ScanDecides(Rewrite(rule, s, 0));
    PlaceEnds(s);
    assert s[0..] == s && "" + Rewrite(rule, s, 0) == Rewrite(rule, s, 0);
    ScanNothing();
    if rule.Link? {
      if AllLinksKeep(s, Replacements(Link, s, 0)) {
        LinksKept(s, 0);
      } else {
        LinksBreak(s, 0, "");
      }
    } else {
      LaterScan(rule, s, 0);
    }
  }
}
