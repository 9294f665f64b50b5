/**
 A text whose image loses its last attribute: a URL in the alternative text is
 taken for a pasted one, and the quotes of its link end the attribute.
 */
module CutAttribute {
  import opened Text
  import opened Escaping
  import opened Patterns
  import opened Links
  import opened Lines
  import opened Placeholders
  import opened Rewriting
  import opened RuleShapes
  import opened PassMatches
  import opened TagSafety
  import opened PassSafety
  import opened Inline
  import opened Renderer
  import opened BlockShapes
  import opened Literals
  import opened TagScan
  import opened TagPasses
  import opened TagLines
  import CutTarget

  const TYPED := "![ http://a.bc](/x)"
  const URL := "http://a.bc"
  const BEFORE := "<img src=\"/x\" alt=\" "
  const BEHIND := "\" loading=\"lazy\">"
  const IMAGE := "<img src=\"/x\" alt=\" http://a.bc\" loading=\"lazy\">"

  // ----- the passes

  lemma ImageBracket()
    ensures Bracket(TYPED, 1, 14, 18) && TYPED[16..18] == "/x" && TYPED[2..14] == " http://a.bc" && |TYPED| == 19 && TYPED[0] == '!'
  {
  }

  lemma TypedCharacters()
    ensures Lacks(TYPED, NUL) && Lacks(TYPED, '<') && Lacks(TYPED, '`') && CutTarget.IsPlain(TYPED) && TYPED[0] == '!'
  {
  }

  lemma ImageParts()
    ensures ImageElement("/x", " http://a.bc") == IMAGE
  {
  }

  lemma PathLocal()
    ensures LocalTarget("/x", 0) && SafeHref("/x") == Some("/x")
  {
    assert Has("/x", 0, "/");
    CutTarget.AllowedSafe("/x");
  }

  lemma ImageWritten()
    ensures Disciplined(TYPED, 0) && Rewrite(Image([]), TYPED, 0) == IMAGE
  {
    hide SafeHref, LocalTarget, ImageElement, Plain, Disciplined, Bracket, Rewrite;
    TypedCharacters();
    ImageBracket();
    PathLocal();
    UrlPlain(TYPED, []);
    UrlPlain("/x", []);
    UrlPlain(" http://a.bc", []);
    ImageExact(TYPED, 0, []);
    assert ImageShape(TYPED, 0, 14, 18);
    ImageParts();
    CutTarget.OneMatch(Image([]), TYPED, 0, Replace(0, 19, IMAGE));
  }

  lemma Parts()
    ensures IMAGE == BEFORE + URL + BEHIND && |BEFORE| == 20 && |URL| == 11 && |BEHIND| == 17
  {
  }

  /** Behind a space or a parenthesis there is no URL. */
  predicate NoUrlBehind(s: string, k: nat)
    requires k < |s|
  {
    Opens(s[k]) ==> k + 1 < |s| && s[k + 1] != 'h'
  }

  lemma PartCharacters()
    ensures Lacks(BEFORE, '[') && Lacks(BEFORE, '#') && Lacks(BEHIND, '[') && Lacks(BEHIND, '#') && Lacks(URL, '[') && Lacks(URL, '#')
    ensures BEFORE[0] != 'h' && forall k :: 0 <= k < 19 ==> NoUrlBehind(BEFORE, k)
    ensures (forall k :: 0 <= k < 11 ==> !Opens(URL[k])) && forall k :: 0 <= k < 17 ==> NoUrlBehind(BEHIND, k)
  {
  }

  lemma NoScheme(s: string, p: nat)
    requires p < |s| ==> s[p] != 'h'
    ensures SchemeEnd(s, p).None?
  {
    CharOf(s, p, "http://", p);
    CharOf(s, p, "https://", p);
  }

  lemma NoUrlAt(s: string, k: nat)
    requires k < |s| && s[0] != 'h' && NoUrlBehind(s, k)
    ensures HitAt(PastedUrl, s, k).None?
  {
    hide Anchor, SchemeEnd;
    NoScheme(s, 0);
    if Opens(s[k]) {
      NoScheme(s, k + 1);
    }
  }

  lemma NoLinks(s: string)
    requires Lacks(s, '[')
    ensures Rewrite(Link, s, 0) == s
  {
    hide HitAt, Rewrite;
    forall i | 0 <= i < |s| ensures HitAt(Link, s, i).None? {
      LinkExact(s, i);
    }
    NothingReplaced(Link, s, 0);
    assert s[0..] == s;
  }

  lemma NoIssues(s: string, href: nat -> string)
    requires Lacks(s, '#')
    ensures Rewrite(Issue(href), s, 0) == s
  {
    hide Rewrite, SafeHref, Anchor;
    forall i | 0 <= i < |s| ensures HitAt(Issue(href), s, i).None? {
      NoIssueAt(s, i, href);
    }
    NothingReplaced(Issue(href), s, 0);
    assert s[0..] == s;
  }

  lemma NoIssueAt(s: string, i: nat, href: nat -> string)
    requires Lacks(s, '#') && i < |s|
    ensures HitAt(Issue(href), s, i).None?
  {
    hide SafeHref, Anchor;
  }

  /** The URL ends at the quote. */
  lemma UrlFound(s: string, behind: string)
    requires s == BEFORE + URL + behind && behind != "" && behind[0] == '"' && |BEFORE| == 20 && |URL| == 11
    ensures HitAt(PastedUrl, s, 19) == Some(Replace(20, 31, Anchor(URL, URL)))
  {
    hide Anchor;
    assert s[20..31] == URL && s[19] == ' ' && s[31] == '"';
    assert s[20..27] == URL[..7] == "http://";
    assert URL[7] == 'a' && URL[8] == '.' && URL[9] == 'b' && URL[10] == 'c';
    assert s[27] == URL[7] && s[28] == URL[8] && s[29] == URL[9] && s[30] == URL[10];
    assert BareUrl(s, 20, 31);
    var e := BareUrlAt(s, 20).value;
    assert !In(s[31], BareTarget);
    assert e == 31;
  }

  lemma UrlWritten()
    ensures Rewrite(PastedUrl, IMAGE, 0) == BEFORE + Anchor(URL, URL) + BEHIND
  {
    hide Anchor, HitAt, Rewrite, NoUrlBehind;
    Parts();
    PartCharacters();
    UrlFound(IMAGE, BEHIND);
    forall k | 0 <= k < 48 && k != 19 ensures HitAt(PastedUrl, IMAGE, k).None? {
      NoUrlIn(BEFORE, URL, BEHIND, k);
      NoUrlAt(IMAGE, k);
    }
    CutTarget.OneMatch(PastedUrl, IMAGE, 19, Replace(20, 31, Anchor(URL, URL)));
    assert IMAGE[..20] == BEFORE && IMAGE[31..] == BEHIND;
  }

  lemma NoUrlIn(a: string, b: string, c: string, k: nat)
    requires |a| == 20 && |b| == 11 && |c| == 17 && k < 48 && k != 19
    requires forall i :: 0 <= i < 19 ==> NoUrlBehind(a, i)
    requires (forall i :: 0 <= i < 11 ==> !Opens(b[i])) && forall i :: 0 <= i < 17 ==> NoUrlBehind(c, i)
    ensures NoUrlBehind(a + b + c, k) && (a + b + c)[0] == a[0]
  {
    var s := a + b + c;
    if k < 19 {
      assert NoUrlBehind(a, k) && s[k] == a[k] && s[k + 1] == a[k + 1];
    } else if k < 31 {
      assert s[k] == b[k - 20];
    } else {
      assert NoUrlBehind(c, k - 31) && s[k] == c[k - 31] && (k < 47 ==> s[k + 1] == c[k - 30]);
    }
  }

  // ----- the output

  lemma AnchorLacks(href: string, c: char)
    requires Lacks(href, c) && Lacks(ANCHOR_TAG, c) && Lacks(NEW_TAB, c) && Lacks(NO_REFERRER, c) && Lacks("\"></a>", c)
    ensures Lacks(Anchor(href, href), c)
  {
    hide IsExternal;
    assert "\"></a>"[0] == '"' && "\"></a>"[1] == '>' && "\"></a>"[2..] == "</a>";
    var tail := AnchorTail(href);
    assert Lacks(tail, c);
    JoinLacks(ANCHOR_TAG + href, tail, href + "</a>", c);
    assert Anchor(href, href) == ANCHOR_TAG + href + tail + (href + "</a>");
  }

  lemma OpenerCharacters()
    ensures Lacks(ANCHOR_TAG, '*') && Lacks(ANCHOR_TAG, '~') && Lacks(ANCHOR_TAG, '#') && Lacks(ANCHOR_TAG, NUL)
    ensures Lacks("\"></a>", '*') && Lacks("\"></a>", '~') && Lacks("\"></a>", '#') && Lacks("\"></a>", NUL)
    ensures Lacks(URL, '*') && Lacks(URL, '~') && Lacks(URL, '#') && Lacks(URL, NUL)
  {
  }

  lemma AnchorCharacters()
    ensures var html := Anchor(URL, URL); Lacks(html, '*') && Lacks(html, '~') && Lacks(html, '#') && Lacks(html, NUL)
    ensures Anchor(URL, URL) != "" && Anchor(URL, URL)[0] == '<'
  {
    hide Anchor, Lacks;
    TailCharacters();
    OpenerCharacters();
    AnchorLacks(URL, '*');
    AnchorLacks(URL, '~');
    AnchorLacks(URL, '#');
    AnchorLacks(URL, NUL);
    AnchorStarts(URL, URL);
  }

  lemma TailCharacters()
    ensures Lacks(NEW_TAB, '*') && Lacks(NEW_TAB, '~') && Lacks(NEW_TAB, '#') && Lacks(NEW_TAB, NUL)
    ensures Lacks(NO_REFERRER, '*') && Lacks(NO_REFERRER, '~') && Lacks(NO_REFERRER, '#') && Lacks(NO_REFERRER, NUL)
  {
  }

  lemma AroundCharacters()
    ensures Lacks(BEFORE, '*') && Lacks(BEFORE, '~') && Lacks(BEFORE, '#') && Lacks(BEFORE, NUL)
    ensures Lacks(BEHIND, '*') && Lacks(BEHIND, '~') && Lacks(BEHIND, '#') && Lacks(BEHIND, NUL)
  {
  }

  lemma ImageLacks()
    ensures Lacks(IMAGE, '[')
  {
    Parts();
    PartCharacters();
    JoinLacks(BEFORE, URL, BEHIND, '[');
  }

  lemma JoinLacks(a: string, b: string, c: string, x: char)
    requires Lacks(a, x) && Lacks(b, x) && Lacks(c, x)
    ensures Lacks(a + b + c, x)
  {
  }

  /** A line that only the image pass and the pasted-URL pass change. */
  lemma Compile(typed: string, image: string, cut: string)
    requires Lacks(typed, NUL) && Lacks(typed, '<') && Lacks(typed, '`')
    requires Disciplined(typed, 0) && Rewrite(Image([]), typed, 0) == image
    requires Lacks(image, '[') && Rewrite(PastedUrl, image, 0) == cut
    requires Lacks(cut, '*') && Lacks(cut, '~') && Lacks(cut, '#') && Lacks(cut, NUL)
    ensures InlineHtml(typed, CutTarget.OPTIONS) == cut
  {
    hide Rewrite, Disciplined, RunPasses;
    var options := CutTarget.OPTIONS;
    CutTarget.NothingLifted(typed, 0);
    assert typed[0..] == typed;
    LiftDisciplined(typed, 0, []);
    NoLinks(image);
    NoIssues(cut, options.issueHref.value);
    HeadPasses(options, image);
    TailPasses(cut);
    CutTarget.NoMarks(Strong, cut);
    CutTarget.NoMarks(Emphasis, cut);
    CutTarget.NoMarks(Deleted, cut);
    CompiledDisciplined(typed, options);
    PlainText(cut, []);
  }

  lemma TypedIsProse()
    ensures IsProse(TYPED)
  {
    hide IsFence, IsBlank, IsHeading, IsRuleLine, IsQuote, IsBullet, IsNumbered;
    assert Begins(TYPED, 0);
    ShapesBegin(TYPED, 0);
  }

  lemma LineIsCut()
    ensures CutTarget.IsPlain(TYPED) && IsProse(TYPED) && Lacks(TYPED, NUL)
    ensures LineHtml(TYPED, CutTarget.OPTIONS) == BEFORE + Anchor(URL, URL) + BEHIND
  {
    hide InlineHtml, Rewrite, EscapeHtml, IsProse, CutTarget.IsPlain, Disciplined, Anchor;
    TypedCharacters();
    TypedIsProse();
    CutTarget.PlainKept(TYPED);
    ImageWritten();
    ImageLacks();
    UrlWritten();
    AnchorCharacters();
    AroundCharacters();
    var cut := BEFORE + Anchor(URL, URL) + BEHIND;
    JoinLacks(BEFORE, Anchor(URL, URL), BEHIND, '*');
    JoinLacks(BEFORE, Anchor(URL, URL), BEHIND, '~');
    JoinLacks(BEFORE, Anchor(URL, URL), BEHIND, '#');
    JoinLacks(BEFORE, Anchor(URL, URL), BEHIND, NUL);
    Compile(TYPED, IMAGE, cut);
  }

  lemma OpenParts()
    ensures BEFORE == "<" + (Attribute("img src=", "/x") + " alt=" + "\"" + " ")
  {
  }

  /** Up to the URL the alternative text is still open. */
  lemma AltOpen(before: string, first: string)
    requires first == Attribute("img src=", "/x") && before == "<" + (first + " alt=" + "\"" + " ")
    ensures Scan(Outside, before) == Inside(before, true)
  {
    hide Scan, IsWholeTag, Attribute;
    TagOpens(before);
    var inner := first + " alt=" + "\"" + " ";
    assert before[1..] == inner;
    ScanJoin(Inside("<", false), first + " alt=" + "\"", " ");
    ScanJoin(Inside("<", false), first + " alt=", "\"");
    ScanJoin(Inside("<", false), first, " alt=");
    AttributeScan("<", "img src=", "/x");
    InsideScan("<" + first, false, " alt=");
    QuoteScan("<" + first + " alt=", false);
    InsideScan("<" + first + " alt=" + "\"", true, " ");
    FiveParts("<", first, " alt=", "\"", " ");
  }

  lemma FiveParts(a: string, b: string, c: string, d: string, e: string)
    ensures a + b + c + d + e == a + (b + c + d + e)
  {
  }

  lemma ParagraphTag()
    ensures IsClean("<p>")
  {
    ShortTagScan("<p>");
  }

  /**
   The output of the text: the tag of the image holds the tag of a link, so it
   is no tag that the renderer writes.
   */
  lemma AttributeIsCut()
    ensures var html := Rendered(TYPED, CutTarget.OPTIONS);
            html == "<p>" + (BEFORE + Anchor(URL, URL) + BEHIND) + "</p>" && !TagsWhole(html)
  {
    hide Rendered, LineHtml, CutTarget.IsPlain, IsProse, Scan, TagsWhole, Anchor, Attribute;
    LineIsCut();
    CutTarget.OneParagraph(TYPED);
    AnchorCharacters();
    ParagraphTag();
    OpenParts();
    AltOpen(BEFORE, Attribute("img src=", "/x"));
    var html := "<p>" + (BEFORE + Anchor(URL, URL) + BEHIND) + "</p>";
    var rest := BEHIND + "</p>";
    assert html == "<p>" + (BEFORE + (Anchor(URL, URL) + rest));
    ScanThree(Outside, "<p>", BEFORE, Anchor(URL, URL) + rest);
    ScanJoin(Inside(BEFORE, true), Anchor(URL, URL), rest);
    OpenedInside(Inside(BEFORE, true), Anchor(URL, URL));
    StaysBroken(rest);
    TagScan.ScanDecides(html);
  }
}
