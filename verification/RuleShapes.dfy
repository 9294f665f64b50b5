/**
 The inline rules read off their sources: for each rule, the shape its pattern
 describes, and the lemma that the rule matches at exactly the positions where
 the shape can be found and puts exactly this in its place.
 */
module RuleShapes {
  import opened Text
  import opened Patterns
  import opened Links
  import opened Placeholders
  import opened Rewriting

  lemma ElementText(tag: string, body: string)
    ensures Element(tag, body) == ("<" + tag + ">") + body + ("</" + tag + ">")
  {
    var head := "<" + tag + ">" + body;
    Regroup(head, "</", tag);
    Regroup(head, "</" + tag, ">");
  }

  lemma StrongExact(s: string, i: nat)
    requires i < |s|
    ensures HitAt(Strong, s, i).Some? <==> exists j: nat :: Span(s, i, j, '*', 2)
    ensures forall j: nat :: Span(s, i, j, '*', 2) ==>
              HitAt(Strong, s, i) == Some(Replace(i, j + 2, "<strong>" + s[i + 2..j] + "</strong>"))
  {
    hide Element;
    forall j: nat | Span(s, i, j, '*', 2)
      ensures Element("strong", s[i + 2..j]) == "<strong>" + s[i + 2..j] + "</strong>"
    {
      ElementText("strong", s[i + 2..j]);
      assert "<" + "strong" + ">" == "<strong>" && "</" + "strong" + ">" == "</strong>";
    }
  }

  lemma DeletedExact(s: string, i: nat)
    requires i < |s|
    ensures HitAt(Deleted, s, i).Some? <==> exists j: nat :: Span(s, i, j, '~', 2)
    ensures forall j: nat :: Span(s, i, j, '~', 2) ==>
              HitAt(Deleted, s, i) == Some(Replace(i, j + 2, "<del>" + s[i + 2..j] + "</del>"))
  {
    hide Element;
    forall j: nat | Span(s, i, j, '~', 2)
      ensures Element("del", s[i + 2..j]) == "<del>" + s[i + 2..j] + "</del>"
    {
      ElementText("del", s[i + 2..j]);
      assert "<" + "del" + ">" == "<del>" && "</" + "del" + ">" == "</del>";
    }
  }

  /** Behind the start of the text, or behind a character that is neither a star nor part of a word. */
  ghost predicate EmphasisShape(s: string, i: nat, b: nat, j: nat) {
    && i <= b && (b == i ==> i == 0) && (b > i ==> b == i + 1 && i < |s| && s[i] != '*' && !IsWord(s[i]))
    && Span(s, b, j, '*', 1) && (j + 1 < |s| ==> s[j + 1] != '*' && !IsWord(s[j + 1]))
  }

  lemma EmphasisFits(s: string, i: nat, b: nat, j: nat)
    requires i < |s| && EmphasisShape(s, i, b, j)
    ensures HitAt(Emphasis, s, i) == Some(Replace(b, j + 1, "<em>" + s[b + 1..j] + "</em>"))
  {
    hide Element;
    ElementText("em", s[b + 1..j]);
    assert "<" + "em" + ">" == "<em>" && "</" + "em" + ">" == "</em>";
    assert EmphasisHitFrom(s, b).Some?;
  }

  lemma EmphasisExact(s: string, i: nat)
    requires i < |s|
    ensures HitAt(Emphasis, s, i).Some? <==> exists b: nat, j: nat :: EmphasisShape(s, i, b, j)
    ensures forall b: nat, j: nat :: EmphasisShape(s, i, b, j) ==>
              HitAt(Emphasis, s, i) == Some(Replace(b, j + 1, "<em>" + s[b + 1..j] + "</em>"))
  {
    forall b: nat, j: nat | EmphasisShape(s, i, b, j)
      ensures HitAt(Emphasis, s, i) == Some(Replace(b, j + 1, "<em>" + s[b + 1..j] + "</em>"))
    {
      EmphasisFits(s, i, b, j);
    }
    if HitAt(Emphasis, s, i).Some? {
      var b := EmphasisStart(s, i).value;
      assert EmphasisShape(s, i, b, SpanAt(s, b, '*', 1).value);
    }
  }

  lemma NewTabText()
    ensures "\"" + NEW_TAB == "\" target=\"_blank\""
  {
  }

  lemma ReferrerText()
    ensures NO_REFERRER + ">" == " rel=\"noopener noreferrer nofollow\">"
  {
  }

  lemma AttributesText()
    ensures "\" target=\"_blank\"" + " rel=\"noopener noreferrer nofollow\">"
            == "\" target=\"_blank\" rel=\"noopener noreferrer nofollow\">"
  {
  }

  lemma FourParts(a: string, b: string, c: string, d: string)
    ensures a + (b + c) + d == (a + b) + (c + d)
  {
  }

  lemma AnchorTexts()
    ensures "\"" + (NEW_TAB + NO_REFERRER) + ">" == "\" target=\"_blank\" rel=\"noopener noreferrer nofollow\">"
    ensures "\"" + "" + ">" == "\">"
  {
    NewTabText();
    ReferrerText();
    AttributesText();
    FourParts("\"", NEW_TAB, NO_REFERRER, ">");
  }

  /** Only a link to the web opens a new tab, and that tab can neither reach this page nor learn of it. */
  lemma AnchorExact(href: string, caption: string)
    ensures Anchor(href, caption)
            == "<a href=\"" + href
               + (if HasFold(href, 0, "http://") || HasFold(href, 0, "https://")
                  then "\" target=\"_blank\" rel=\"noopener noreferrer nofollow\">" else "\">")
               + caption + "</a>"
  {
    AnchorTexts();
  }

  /** A link whose target is refused is kept as it was typed. */
  lemma LinkExact(s: string, i: nat)
    requires i < |s|
    ensures HitAt(Link, s, i).Some? <==> exists j: nat, k: nat :: Bracket(s, i, j, k)
    ensures forall j: nat, k: nat :: Bracket(s, i, j, k) ==>
              HitAt(Link, s, i) == match SafeHref(s[j + 2..k])
                case None => Some(Keep(k + 1))
                case Some(href) => Some(Replace(i, k + 1, Anchor(href, if j == i + 1 then href else s[i + 1..j])))
  {
    hide SafeHref, Anchor;
  }

  ghost predicate ImageShape(s: string, i: nat, j: nat, k: nat) {
    i < |s| && s[i] == '!' && Bracket(s, i + 1, j, k)
  }

  /** Only an image of this host becomes an element that loads it; in its attributes spans are plain text. */
  lemma ImageExact(s: string, i: nat, spans: seq<string>)
    requires i < |s| && Disciplined(s, |spans|)
    ensures HitAt(Image(spans), s, i).Some? <==> exists j: nat, k: nat :: ImageShape(s, i, j, k)
    ensures forall j: nat, k: nat :: ImageShape(s, i, j, k) ==>
              var hit, alt := HitAt(Image(spans), s, i), s[i + 2..j];
              match SafeHref(s[j + 2..k])
              case None => hit == Some(Keep(k + 1))
              case Some(href) =>
                if LocalTarget(href, 0) then
                  Disciplined(href, |spans|) && Disciplined(alt, |spans|)
                  && hit == Some(Replace(i, k + 1, ImageElement(Plain(href, spans), Plain(alt, spans))))
                else hit == Some(Replace(i, k + 1, Anchor(href, if alt == "" then href else alt) + NOTE))
  {
    hide SafeHref, Anchor, Disciplined, Plain, ImageElement;
    if HitAt(Image(spans), s, i).Some? {
      var (j, k) := BracketAt(s, i + 1).value;
      assert ImageShape(s, i, j, k);
    }
    forall j: nat, k: nat | ImageShape(s, i, j, k)
      ensures Disciplined(s[i + 2..j], |spans|)
      ensures SafeHref(s[j + 2..k]).Some? ==> Disciplined(SafeHref(s[j + 2..k]).value, |spans|)
    {
      DisciplinedSlice(s, i + 2, j, |spans|);
      if SafeHref(s[j + 2..k]).Some? {
        SafeHrefSound(s[j + 2..k]);
        PlainText(SafeHref(s[j + 2..k]).value, spans);
      }
    }
  }

  lemma ImageElementExact(src: string, alt: string)
    ensures ImageElement(src, alt) == "<img src=\"" + src + ("\" alt=\"" + alt + "\" loading=\"lazy\">")
  {
  }

  lemma NoteExact()
    ensures NOTE == " " + "<span class=\"kg-md-note\">" + "(image, not loaded)" + "</span>"
  {
  }

  /** What a pasted URL or an issue number begins behind. */
  ghost predicate StandsFree(s: string, i: nat, b: nat) {
    (b == i && i == 0) || (b == i + 1 && i < |s| && Opens(s[i]))
  }

  ghost predicate IsLongestUrl(s: string, b: nat, e: nat) {
    BareUrl(s, b, e) && forall longer: nat :: BareUrl(s, b, longer) ==> longer <= e
  }

  /** The URL is as long as it can be, and is its own caption. */
  lemma UrlExact(s: string, i: nat)
    requires i < |s|
    ensures HitAt(PastedUrl, s, i).Some? <==> exists b: nat, e: nat :: StandsFree(s, i, b) && BareUrl(s, b, e)
    ensures forall b: nat, e: nat :: StandsFree(s, i, b) && IsLongestUrl(s, b, e) ==>
              HitAt(PastedUrl, s, i) == Some(Replace(b, e, Anchor(s[b..e], s[b..e])))
  {
    hide Anchor, BareUrlAt, UrlStart, BareUrl;
    if HitAt(PastedUrl, s, i).Some? { UrlFound(s, i); }
    forall b: nat, e: nat | StandsFree(s, i, b) && BareUrl(s, b, e) ensures UrlStart(s, i) == Some(b) && BareUrlAt(s, b).Some? {
      UrlFits(s, i, b, e);
    }
    forall b: nat, e: nat | IsLongestUrl(s, b, e) ensures BareUrlAt(s, b) == Some(e) {
      LongestFound(s, b, e);
    }
  }

  lemma UrlFound(s: string, i: nat)
    requires i < |s| && HitAt(PastedUrl, s, i).Some?
    ensures exists b: nat, e: nat :: StandsFree(s, i, b) && BareUrl(s, b, e)
  {
    hide Anchor;
    var b := UrlStart(s, i).value;
    assert StandsFree(s, i, b) && BareUrl(s, b, BareUrlAt(s, b).value);
  }

  lemma LongestFound(s: string, b: nat, e: nat)
    requires IsLongestUrl(s, b, e)
    ensures BareUrlAt(s, b) == Some(e)
  {
    hide BareUrl;
  }

  lemma UrlFits(s: string, i: nat, b: nat, e: nat)
    requires i < |s| && StandsFree(s, i, b) && BareUrl(s, b, e)
    ensures UrlStart(s, i) == Some(b) && BareUrlAt(s, b).Some?
  {
    assert !Opens('h');
    assert b == i + 1 && i == 0 ==> BareUrlAt(s, 0).None?;
  }

  /** `http://` or `https://` and two characters more, none of them a delimiter and the last no punctuation. */
  ghost predicate UrlShape(s: string, b: nat, e: nat) {
    && b + 2 <= e <= |s| && !IsTrailing(s[e - 1])
    && ((Has(s, b, "http://") && b + 9 <= e && AllIn(s, b + 7, e, BareTarget))
        || (Has(s, b, "https://") && b + 10 <= e && AllIn(s, b + 8, e, BareTarget)))
  }

  lemma OneScheme(s: string, b: nat)
    ensures !(Has(s, b, "http://") && Has(s, b, "https://"))
  {
    assert Has(s, b, "http://") ==> s[b..b + 7][4] == s[b + 4];
    assert Has(s, b, "https://") ==> s[b..b + 8][4] == s[b + 4];
  }

  lemma UrlShapeExact(s: string, b: nat, e: nat)
    ensures UrlShape(s, b, e) <==> BareUrl(s, b, e)
  {
    OneScheme(s, b);
  }

  lemma UrlLeadsOut(s: string, b: nat, e: nat)
    requires UrlShape(s, b, e)
    ensures HasFold(s[b..e], 0, "http://") || HasFold(s[b..e], 0, "https://")
  {
    var lit := if Has(s, b, "http://") then "http://" else "https://";
    assert forall k :: 0 <= k < |lit| ==> s[b..e][k] == s[b..b + |lit|][k];
  }

  /** A pasted URL always leads out: it is a link to itself with both attributes. */
  lemma PastedUrlWritten(s: string, i: nat, b: nat, e: nat)
    requires i < |s| && StandsFree(s, i, b) && UrlShape(s, b, e) && forall longer: nat :: UrlShape(s, b, longer) ==> longer <= e
    ensures HitAt(PastedUrl, s, i)
            == Some(Replace(b, e, "<a href=\"" + s[b..e] + "\" target=\"_blank\" rel=\"noopener noreferrer nofollow\">" + s[b..e] + "</a>"))
  {
    hide StandsFree, UrlShape, BareUrl, HitAt, Anchor;
    forall longer: nat ensures UrlShape(s, b, longer) <==> BareUrl(s, b, longer) {
      UrlShapeExact(s, b, longer);
    }
    UrlExact(s, i);
    UrlLeadsOut(s, b, e);
    AnchorExact(s[b..e], s[b..e]);
  }

  /** The number is read in decimal, and its link is checked like any other. */
  lemma IssueExact(s: string, i: nat, target: nat -> string)
    requires i < |s|
    ensures HitAt(Issue(target), s, i).Some? <==> exists b: nat, e: nat :: StandsFree(s, i, b) && IssueNumber(s, b, e)
    ensures forall b: nat, e: nat :: StandsFree(s, i, b) && IssueNumber(s, b, e) ==>
              var number := s[b + 1..e];
              (forall k :: 0 <= k < |number| ==> IsDigit(number[k]))
              && HitAt(Issue(target), s, i) == match SafeHref(target(Value(number)))
                   case None => Some(Keep(e))
                   case Some(href) => Some(Replace(b, e, Anchor(href, "#" + number)))
  {
    hide SafeHref, Anchor, Value;
    if HitAt(Issue(target), s, i).Some? {
      var b := IssueStart(s, i).value;
      assert StandsFree(s, i, b) && IssueNumber(s, b, IssueNumberAt(s, b).value);
    }
    forall b: nat, e: nat | StandsFree(s, i, b) && IssueNumber(s, b, e)
      ensures IssueStart(s, i) == Some(b) && IssueNumberAt(s, b) == Some(e)
      ensures var number := s[b + 1..e]; forall k :: 0 <= k < |number| ==> IsDigit(number[k])
    {
      assert s[b] == '#' && !Opens('#');
      DigitsOf(s, b + 1, e);
    }
  }
}
