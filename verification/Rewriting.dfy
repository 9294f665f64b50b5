/**
 The seven inline passes. Each is one `String.prototype.replace` over the whole
 text: at every position a rule either does not match, matches and returns what
 it matched, or matches and puts markup in its place; the scan goes on behind
 the match.
 */
module Rewriting {
  import opened Text
  import opened Patterns
  import opened Links
  import opened Placeholders

  datatype Rule =
    | Image(spans: seq<string>)
    | Link
    | PastedUrl
    | Issue(href: nat -> string)
    | Strong
    | Emphasis
    | Deleted

  /** A match: everything from `i` to `end` is kept, or s[from..end) gives way to `html`. */
  datatype Hit = Keep(end: nat) | Replace(from: nat, end: nat, html: string)

  predicate InBounds(hit: Hit, s: string, i: nat) {
    match hit
    case Keep(end) => i < end <= |s|
    case Replace(from, end, html) => i <= from < end <= |s|
  }

  /** The image rule looks code spans up, so it runs on disciplined text only. */
  predicate Applies(rule: Rule, s: string) {
    rule.Image? ==> Disciplined(s, |rule.spans|)
  }

  // ----- code spans in attributes

  /** `</?code>` taken out everywhere. */
  function StripCode(s: string): string {
    if s == "" then ""
    else if Has(s, 0, "<code>") then StripCode(s[6..])
    else if Has(s, 0, "</code>") then StripCode(s[7..])
    else [s[0]] + StripCode(s[1..])
  }

  function CodeElement(code: string): string { "<code>" + code + "</code>" }

  lemma StripCodeClose()
    ensures StripCode("</code>") == ""
  {
    var s := "</code>";
    assert s[0..6][1] == '/' && "<code>"[1] == 'c';
    assert s[0..7] == s && s[7..] == "";
  }

  lemma NoCodeTag(s: string)
    requires s != "" && s[0] != '<'
    ensures !Has(s, 0, "<code>") && !Has(s, 0, "</code>")
  {
    assert |s| >= 6 ==> s[0..6][0] == s[0];
    assert |s| >= 7 ==> s[0..7][0] == s[0];
  }

  lemma {:induction false} StripCodeBody(code: string)
    requires Lacks(code, '<')
    ensures StripCode(code + "</code>") == code
  {
    var s := code + "</code>";
    if code == "" {
      StripCodeClose();
      assert s == "</code>";
    } else {
      assert s[0] == code[0] && s[1..] == code[1..] + "</code>";
      assert s[0] != '<';
      NoCodeTag(s);
      StripCodeBody(code[1..]);
    }
  }

  /** In an attribute a span goes back as the characters the author typed. */
  lemma StripCodeElement(code: string)
    requires Lacks(code, '<')
    ensures StripCode(CodeElement(code)) == code
  {
    var s := CodeElement(code);
    assert s[..6] == "<code>" && s[6..] == code + "</code>";
    StripCodeBody(code);
  }

  function Plain(s: string, spans: seq<string>): string
    requires Disciplined(s, |spans|)
  {
    Fill(s, seq(|spans|, k requires 0 <= k < |spans| => StripCode(spans[k])))
  }

  // ----- the rules

  /** An image from this host is shown; any other becomes a link with a note. */
  function ImageText(href: string, alt: string, spans: seq<string>): string
    requires Disciplined(href, |spans|) && Disciplined(alt, |spans|)
  {
    if LocalTarget(href, 0) then ImageElement(Plain(href, spans), Plain(alt, spans))
    else Anchor(href, if alt == "" then href else alt) + NOTE
  }

  /** What a matched image turns into, or None when its target is refused. */
  function ImageHtml(s: string, i: nat, j: nat, k: nat, spans: seq<string>): Option<string>
    requires Disciplined(s, |spans|) && Bracket(s, i + 1, j, k)
  {
    var alt := s[i + 2..j];
    var href := SafeHref(s[j + 2..k]);
    if href.None? then None
    else
      assert Disciplined(href.value, |spans|) by {
        SafeHrefSound(s[j + 2..k]);
        PlainText(href.value, spans);
      }
      assert Disciplined(alt, |spans|) by {
        DisciplinedSlice(s, i + 2, j, |spans|);
      }
      Some(ImageText(href.value, alt, spans))
  }

  function ImageHit(s: string, i: nat, spans: seq<string>): (r: Option<Hit>)
    requires i < |s| && Disciplined(s, |spans|)
    ensures r.Some? ==> InBounds(r.value, s, i)
  {
    if s[i] == '!' && BracketAt(s, i + 1).Some? then
      var (j, k) := BracketAt(s, i + 1).value;
      match ImageHtml(s, i, j, k, spans)
      case None => Some(Keep(k + 1))
      case Some(html) => Some(Replace(i, k + 1, html))
    else None
  }

  function LinkHit(s: string, i: nat): (r: Option<Hit>)
    requires i < |s|
    ensures r.Some? ==> InBounds(r.value, s, i)
  {
    if BracketAt(s, i).Some? then
      var (j, k) := BracketAt(s, i).value;
      var href := SafeHref(s[j + 2..k]);
      var caption := s[i + 1..j];
      if href.None? then Some(Keep(k + 1))
      else Some(Replace(i, k + 1, Anchor(href.value, if caption == "" then href.value else caption)))
    else None
  }

  /** Where a URL would start for a match that begins at `i`. */
  function UrlStart(s: string, i: nat): (r: Option<nat>)
    requires i < |s|
    ensures r.Some? ==> i <= r.value <= i + 1 && (r.value > 0 ==> Opens(s[r.value - 1]))
  {
    if i == 0 && BareUrlAt(s, 0).Some? then Some(0)
    else if Opens(s[i]) then Some(i + 1)
    else None
  }

  function UrlHit(s: string, i: nat): (r: Option<Hit>)
    requires i < |s|
    ensures r.Some? ==> InBounds(r.value, s, i)
  {
    match UrlStart(s, i)
    case None => None
    case Some(b) => UrlHitFrom(s, b)
  }

  function UrlHitFrom(s: string, b: nat): (r: Option<Hit>)
    requires b <= |s|
    ensures r.Some? ==> r.value.Replace? && InBounds(r.value, s, b) && r.value.from == b
  {
    match BareUrlAt(s, b)
    case None => None
    case Some(e) => Some(Replace(b, e, Anchor(s[b..e], s[b..e])))
  }

  function IssueStart(s: string, i: nat): (r: Option<nat>)
    requires i < |s|
    ensures r.Some? ==> i <= r.value <= i + 1 && (r.value > 0 ==> Opens(s[r.value - 1]))
  {
    if i == 0 && IssueNumberAt(s, 0).Some? then Some(0)
    else if Opens(s[i]) then Some(i + 1)
    else None
  }

  function IssueHit(s: string, i: nat, href: nat -> string): (r: Option<Hit>)
    requires i < |s|
    ensures r.Some? ==> InBounds(r.value, s, i)
  {
    match IssueStart(s, i)
    case None => None
    case Some(b) => IssueHitFrom(s, b, href)
  }

  function IssueHitFrom(s: string, b: nat, href: nat -> string): (r: Option<Hit>)
    requires b <= |s|
    ensures r.Some? ==> InBounds(r.value, s, b) && (r.value.Replace? ==> r.value.from == b)
  {
    match IssueNumberAt(s, b)
    case None => None
    case Some(e) =>
      var number := s[b + 1..e];
      assert forall k :: 0 <= k < |number| ==> number[k] == s[b + 1 + k] && In(s[b + 1 + k], Digit);
      match SafeHref(href(Value(number)))
      case None => Some(Keep(e))
      case Some(target) => Some(Replace(b, e, Anchor(target, "#" + number)))
  }

  function SpanHit(s: string, i: nat, mark: char, width: nat, tag: string): (r: Option<Hit>)
    requires i < |s| && 1 <= width <= 2
    ensures r.Some? ==> InBounds(r.value, s, i)
  {
    match SpanAt(s, i, mark, width)
    case None => None
    case Some(j) => Some(Replace(i, j + width, Element(tag, s[i + width..j])))
  }

  function EmphasisStart(s: string, i: nat): (r: Option<nat>)
    requires i < |s|
    ensures r.Some? ==> i <= r.value <= i + 1
  {
    if i == 0 && EmphasisHitFrom(s, 0).Some? then Some(0)
    else if s[i] != '*' && !IsWord(s[i]) then Some(i + 1)
    else None
  }

  function EmphasisHit(s: string, i: nat): (r: Option<Hit>)
    requires i < |s|
    ensures r.Some? ==> InBounds(r.value, s, i)
  {
    match EmphasisStart(s, i)
    case None => None
    case Some(b) => EmphasisHitFrom(s, b)
  }

  function EmphasisHitFrom(s: string, b: nat): (r: Option<Hit>)
    requires b <= |s|
    ensures r.Some? ==> r.value.Replace? && InBounds(r.value, s, b) && r.value.from == b
  {
    match SpanAt(s, b, '*', 1)
    case None => None
    case Some(j) =>
      if j + 1 < |s| && (s[j + 1] == '*' || IsWord(s[j + 1])) then None
      else Some(Replace(b, j + 1, Element("em", s[b + 1..j])))
  }

  function HitAt(rule: Rule, s: string, i: nat): (r: Option<Hit>)
    requires i < |s| && Applies(rule, s)
    ensures r.Some? ==> InBounds(r.value, s, i)
  {
    match rule
    case Image(spans) => ImageHit(s, i, spans)
    case Link => LinkHit(s, i)
    case PastedUrl => UrlHit(s, i)
    case Issue(href) => IssueHit(s, i, href)
    case Strong => SpanHit(s, i, '*', 2, "strong")
    case Emphasis => EmphasisHit(s, i)
    case Deleted => SpanHit(s, i, '~', 2, "del")
  }

  /** The text from `i` on, rewritten: leftmost matches first, none overlapping. */
  function Rewrite(rule: Rule, s: string, i: nat): string
    requires i <= |s| && Applies(rule, s)
    decreases |s| - i
  {
    if i == |s| then ""
    else
      match HitAt(rule, s, i)
      case None => [s[i]] + Rewrite(rule, s, i + 1)
      case Some(Keep(end)) => s[i..end] + Rewrite(rule, s, end)
      case Some(Replace(from, end, html)) => s[i..from] + html + Rewrite(rule, s, end)
  }

  /** Where the scan goes on when nothing is replaced at `i`. */
  function SkipTo(rule: Rule, s: string, i: nat): (end: nat)
    requires i < |s| && Applies(rule, s)
    requires HitAt(rule, s, i).Some? ==> HitAt(rule, s, i).value.Keep?
    ensures i < end <= |s|
  {
    match HitAt(rule, s, i)
    case None => i + 1
    case Some(hit) => hit.end
  }

  lemma SkipKeeps(rule: Rule, s: string, a: nat, i: nat)
    requires a <= i < |s| && Applies(rule, s)
    requires HitAt(rule, s, i).Some? ==> HitAt(rule, s, i).value.Keep?
    ensures var end := SkipTo(rule, s, i); s[a..i] + Rewrite(rule, s, i) == s[a..end] + Rewrite(rule, s, end)
  {
    hide HitAt;
    var end := SkipTo(rule, s, i);
    assert Rewrite(rule, s, i) == s[i..end] + Rewrite(rule, s, end) by {
      assert s[i..i + 1] == [s[i]];
    }
    Regroup(s[a..i], s[i..end], Rewrite(rule, s, end));
    assert s[a..i] + s[i..end] == s[a..end];
  }
}
