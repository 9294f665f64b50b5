/**
 Tags read to their end. That every `<` begins a tag of the renderer's own does
 not say that the tag ends as the renderer wrote it: a pass that matches inside
 an attribute puts quotes there. The scan keeps what it has read of a tag, and
 breaks where a tag does not end whole.
 */
module TagScan {
  import opened Text
  import opened Links
  import opened TagSafety

  // ----- whole tags

  /** What may stand between the quotes of an attribute. */
  ghost predicate IsValue(s: string) { Lacks(s, '"') && Lacks(s, '<') }

  function LinkTag(href: string): string { ANCHOR_TAG + href + AnchorTail(href) }

  function CodeTag(language: string): string { LANGUAGE_TAG + language + "\">" }

  /** A link with a target that the allow-list admits as a whole, and nothing but the attributes that belong to it. */
  ghost predicate IsLinkTag(t: string) { exists href: string :: IsAllowed(href) && IsValue(href) && t == LinkTag(href) }

  ghost predicate IsImageTag(t: string) {
    exists src: string, alt: string :: LocalTarget(src, 0) && IsValue(src) && IsValue(alt) && t == ImageElement(src, alt)
  }

  ghost predicate IsCodeTag(t: string) { exists language: string :: IsValue(language) && t == CodeTag(language) }

  ghost predicate IsWholeTag(t: string) {
    IsShortTag(t) || t == NOTE_TAG || t == OPEN_TASK_TAG || t == DONE_TASK_TAG || IsLinkTag(t) || IsImageTag(t) || IsCodeTag(t)
  }

  // ----- the scan

  datatype Place = Outside | Inside(read: string, quoted: bool) | Broken

  ghost function Next(q: Place, c: char): Place {
    match q
    case Outside => if c == '<' then Inside("<", false) else if c == '"' then Broken else Outside
    case Inside(read, quoted) =>
      if c == '<' then Broken
      else if c == '"' then Inside(read + [c], !quoted)
      else if c == '>' && !quoted then (if IsWholeTag(read + [c]) then Outside else Broken)
      else Inside(read + [c], quoted)
    case Broken => Broken
  }

  ghost function Scan(q: Place, s: string): Place
    decreases |s|
  {
    if s == "" then q else Scan(Next(q, s[0]), s[1..])
  }

  /** Quotes stand in tags only, and every tag is whole. */
  ghost predicate IsClean(s: string) { Scan(Outside, s) == Outside }

  lemma {:induction false} ScanJoin(q: Place, a: string, b: string)
    ensures Scan(q, a + b) == Scan(Scan(q, a), b)
    decreases |a|
  {
    hide Next;
    if a == "" {
      assert a + b == b;
    } else {
      assert (a + b)[1..] == a[1..] + b;
      ScanJoin(Next(q, a[0]), a[1..], b);
    }
  }

  /** The place in front of position `b`. */
  ghost function PlaceAt(s: string, b: nat): Place
    requires b <= |s|
  {
    Scan(Outside, s[..b])
  }

  lemma PlaceMoves(s: string, a: nat, b: nat)
    requires a <= b <= |s|
    ensures PlaceAt(s, b) == Scan(PlaceAt(s, a), s[a..b])
  {
    ScanJoin(Outside, s[..a], s[a..b]);
    assert s[..a] + s[a..b] == s[..b];
  }

  lemma {:induction false} StaysBroken(s: string)
    ensures Scan(Broken, s) == Broken
    decreases |s|
  {
    if s != "" {
      StaysBroken(s[1..]);
    }
  }

  lemma {:induction false} PlainScan(s: string)
    requires IsValue(s)
    ensures Scan(Outside, s) == Outside
    decreases |s|
  {
    if s != "" {
      assert Next(Outside, s[0]) == Outside;
      PlainScan(s[1..]);
    }
  }

  /** Inside a tag everything is collected up to its end. */
  lemma {:induction false} InsideScan(read: string, quoted: bool, s: string)
    requires IsValue(s) && (quoted || Lacks(s, '>'))
    ensures Scan(Inside(read, quoted), s) == Inside(read + s, quoted)
    decreases |s|
  {
    if s == "" {
      assert read + s == read;
    } else {
      assert s[0] != '"' && s[0] != '<';
      assert Next(Inside(read, quoted), s[0]) == Inside(read + [s[0]], quoted);
      InsideScan(read + [s[0]], quoted, s[1..]);
      assert read + [s[0]] + s[1..] == read + s;
    }
  }

  lemma QuoteScan(read: string, quoted: bool)
    ensures Scan(Inside(read, quoted), "\"") == Inside(read + "\"", !quoted)
  {
    assert "\""[1..] == "";
  }

  /** An attribute up to its closing quote. */
  lemma ValueScan(read: string, name: string, value: string)
    requires IsValue(name) && Lacks(name, '>') && IsValue(value)
    ensures Scan(Inside(read, false), name + "\"" + value + "\"") == Inside(read + name + "\"" + value + "\"", false)
  {
    hide Scan, IsValue;
    ScanJoin(Inside(read, false), name + "\"" + value, "\"");
    ScanJoin(Inside(read, false), name + "\"", value);
    ScanJoin(Inside(read, false), name, "\"");
    InsideScan(read, false, name);
    QuoteScan(read + name, false);
    InsideScan(read + name + "\"", true, value);
    QuoteScan(read + name + "\"" + value, true);
  }

  lemma TagOpens(t: string)
    requires t != "" && t[0] == '<'
    ensures Scan(Outside, t) == Scan(Inside("<", false), t[1..])
    ensures Scan(Broken, t) == Broken
    ensures forall read: string, quoted: bool :: Scan(Inside(read, quoted), t) == Broken
  {
    StaysBroken(t);
    StaysBroken(t[1..]);
  }

  /** A whole tag whose last character is the first `>` outside of quotes is passed over. */
  lemma TagCloses(t: string)
    requires IsWholeTag(t) && |t| >= 2 && t[|t| - 1] == '>'
    requires Scan(Inside("<", false), t[1..|t| - 1]) == Inside(t[..|t| - 1], false)
    requires t[0] == '<'
    ensures IsClean(t)
  {
    hide IsWholeTag;
    var n := |t| - 1;
    TagOpens(t);
    assert t[1..] == t[1..n] + ">";
    ScanJoin(Inside("<", false), t[1..n], ">");
    assert t[..n] + ">" == t;
    assert ">"[1..] == "";
  }

  // ----- the tags of the renderer

  function Attribute(name: string, value: string): string { name + "\"" + value + "\"" }

  /** An attribute name, and a value that fits it. */
  ghost predicate AreValues(name: string, value: string) { IsValue(name) && Lacks(name, '>') && IsValue(value) }

  /** A tag of a name, one attribute, and what stands behind it. */
  lemma OneAttributeScan(t: string, name: string, value: string, rest: string)
    requires IsWholeTag(t) && t == "<" + (Attribute(name, value) + rest) + ">"
    requires AreValues(name, value) && IsValue(rest) && Lacks(rest, '>')
    ensures IsClean(t)
  {
    hide IsWholeTag, Scan, IsValue;
    var inner := Attribute(name, value) + rest;
    assert t[1..|t| - 1] == inner && t[..|t| - 1] == "<" + inner;
    ValueScan("<", name, value);
    ScanJoin(Inside("<", false), Attribute(name, value), rest);
    assert "<" + name + "\"" + value + "\"" == "<" + Attribute(name, value);
    InsideScan("<" + Attribute(name, value), false, rest);
    Regroup("<", Attribute(name, value), rest);
    TagCloses(t);
  }

  lemma AttributeScan(read: string, name: string, value: string)
    requires AreValues(name, value)
    ensures Scan(Inside(read, false), Attribute(name, value)) == Inside(read + Attribute(name, value), false)
  {
    ValueScan(read, name, value);
    assert read + name + "\"" + value + "\"" == read + Attribute(name, value);
  }

  /** A tag with three attributes. */
  lemma ThreeAttributesScan(t: string, a: string, x: string, b: string, y: string, c: string, z: string)
    requires IsWholeTag(t) && t == "<" + (Attribute(a, x) + Attribute(b, y) + Attribute(c, z)) + ">"
    requires AreValues(a, x) && AreValues(b, y) && AreValues(c, z)
    ensures IsClean(t)
  {
    hide IsWholeTag, Scan, AreValues, Attribute;
    var p, q, r := Attribute(a, x), Attribute(b, y), Attribute(c, z);
    assert t[1..|t| - 1] == p + q + r && t[..|t| - 1] == "<" + (p + q + r);
    ScanJoin(Inside("<", false), p + q, r);
    ScanJoin(Inside("<", false), p, q);
    AttributeScan("<", a, x);
    AttributeScan("<" + p, b, y);
    AttributeScan("<" + p + q, c, z);
    assert "<" + p + q + r == "<" + (p + q + r);
    TagCloses(t);
  }

  predicate IsBareTag(t: string) {
    && |t| >= 2 && t[0] == '<' && t[|t| - 1] == '>'
    && forall k :: 1 <= k < |t| - 1 ==> t[k] != '>' && t[k] != '<' && t[k] != '"'
  }

  lemma InlineTagBare(t: string)
    requires t in INLINE_TAGS
    ensures IsBareTag(t)
  {
  }

  lemma BlockTagBare(t: string)
    requires t in BLOCK_TAGS
    ensures IsBareTag(t)
  {
  }

  lemma HeadingTagBare(t: string)
    requires t in HEADING_TAGS
    ensures IsBareTag(t)
  {
  }

  lemma ShortTagScan(t: string)
    requires IsShortTag(t)
    ensures IsClean(t) && IsBareTag(t)
  {
    if t in INLINE_TAGS {
      InlineTagBare(t);
    } else if t in BLOCK_TAGS {
      BlockTagBare(t);
    } else {
      HeadingTagBare(t);
    }
    BareTagScan(t);
  }

  lemma BareTagScan(t: string)
    requires IsBareTag(t) && IsWholeTag(t)
    ensures IsClean(t)
  {
    hide IsWholeTag, Scan;
    var inner := t[1..|t| - 1];
    assert forall k :: 0 <= k < |inner| ==> inner[k] == t[k + 1];
    InsideScan("<", false, inner);
    assert "<" + inner == t[..|t| - 1];
    TagCloses(t);
  }

  lemma FixedWhole()
    ensures IsWholeTag(NOTE_TAG) && IsWholeTag(OPEN_TASK_TAG) && IsWholeTag(DONE_TASK_TAG)
  {
    hide IsShortTag, IsLinkTag, IsImageTag, IsCodeTag;
  }

  /** A tag with one pair of quotes. */
  predicate IsQuotedTag(t: string, a: nat, b: nat) {
    && 1 <= a < b < |t| - 1 && t[0] == '<' && t[|t| - 1] == '>'
    && forall k :: 1 <= k < |t| - 1 ==> t[k] != '<' && t[k] != '>' && (t[k] == '"' <==> k == a || k == b)
  }

  lemma QuotedTagScan(t: string, a: nat, b: nat)
    requires IsWholeTag(t) && IsQuotedTag(t, a, b)
    ensures IsClean(t)
  {
    hide IsWholeTag, Scan;
    var name, value, rest := t[1..a], t[a + 1..b], t[b + 1..|t| - 1];
    assert forall k :: 0 <= k < |value| ==> value[k] == t[a + 1 + k];
    assert forall k :: 0 <= k < |rest| ==> rest[k] == t[b + 1 + k];
    assert t == "<" + (Attribute(name, value) + rest) + ">";
    OneAttributeScan(t, name, value, rest);
  }

  lemma FixedQuotes()
    ensures IsQuotedTag(NOTE_TAG, 12, 23) && IsQuotedTag(OPEN_TASK_TAG, 12, 21) && IsQuotedTag(DONE_TASK_TAG, 12, 21)
  {
  }

  lemma FixedTagScan(t: string)
    requires t == NOTE_TAG || t == OPEN_TASK_TAG || t == DONE_TASK_TAG
    ensures IsClean(t)
  {
    hide Scan, IsWholeTag, IsQuotedTag;
    FixedWhole();
    FixedQuotes();
    if t == NOTE_TAG {
      QuotedTagScan(t, 12, 23);
    } else {
      QuotedTagScan(t, 12, 21);
    }
  }

  lemma CodeTagText(language: string)
    ensures CodeTag(language) == "<" + (Attribute("code class=", "language-" + language) + "") + ">"
  {
    assert LANGUAGE_TAG == "<" + "code class=" + "\"" + "language-";
  }

  lemma CodeTagScan(language: string)
    requires IsValue(language)
    ensures IsClean(CodeTag(language))
  {
    hide Scan, CodeTag, Attribute;
    CodeTagText(language);
    assert IsCodeTag(CodeTag(language));
    assert IsValue("language-" + language);
    OneAttributeScan(CodeTag(language), "code class=", "language-" + language, "");
  }

  lemma ImageTexts()
    ensures IMAGE_TAG == "<" + "img src=" + "\"" && "\" alt=\"" == "\"" + " alt=" + "\""
    ensures "\" loading=\"lazy\">" == "\"" + (" loading=" + "\"" + "lazy" + "\"") + ">"
  {
  }

  lemma ImageParts(a: string, src: string, b: string, alt: string, c: string)
    ensures "<" + a + "\"" + src + ("\"" + b + "\"" + alt + ("\"" + c + ">"))
         == "<" + (Attribute(a, src) + Attribute(b, alt) + c) + ">"
  {
  }

  lemma ImageTagText(src: string, alt: string)
    ensures ImageElement(src, alt)
            == "<" + (Attribute("img src=", src) + Attribute(" alt=", alt) + Attribute(" loading=", "lazy")) + ">"
  {
    ImageTexts();
    ImageParts("img src=", src, " alt=", alt, Attribute(" loading=", "lazy"));
  }

  lemma ImageTagScan(src: string, alt: string)
    requires LocalTarget(src, 0) && IsValue(src) && IsValue(alt)
    ensures IsClean(ImageElement(src, alt))
  {
    hide LocalTarget, Scan, ImageElement, Attribute;
    ImageTagText(src, alt);
    assert IsImageTag(ImageElement(src, alt));
    ThreeAttributesScan(ImageElement(src, alt), "img src=", src, " alt=", alt, " loading=", "lazy");
  }

  lemma LinkTexts()
    ensures ANCHOR_TAG == "<" + "a href=" + "\"" && NEW_TAB == Attribute(" target=", "_blank")
  {
  }

  lemma ReferrerText()
    ensures NO_REFERRER == Attribute(" rel=", "noopener noreferrer nofollow")
  {
  }

  lemma LinkTagText(href: string)
    ensures var first := Attribute("a href=", href);
            LinkTag(href) == if IsExternal(href) then "<" + (first + NEW_TAB + NO_REFERRER) + ">" else "<" + (first + "") + ">"
  {
    hide IsExternal;
    LinkTexts();
    var a, b := NEW_TAB, NO_REFERRER;
    LinkParts("a href=", href, a, b);
  }

  lemma LinkParts(name: string, href: string, a: string, b: string)
    ensures "<" + name + "\"" + href + ("\"" + (a + b) + ">") == "<" + (Attribute(name, href) + a + b) + ">"
    ensures "<" + name + "\"" + href + ("\"" + "" + ">") == "<" + (Attribute(name, href) + "") + ">"
  {
  }

  lemma ReferrerValues()
    ensures AreValues(" target=", "_blank") && AreValues(" rel=", "noopener noreferrer nofollow")
  {
  }

  lemma ExternalTagScan(t: string, href: string, newTab: string, referrer: string)
    requires newTab == Attribute(" target=", "_blank") && referrer == Attribute(" rel=", "noopener noreferrer nofollow")
    requires IsWholeTag(t) && IsValue(href) && t == "<" + (Attribute("a href=", href) + newTab + referrer) + ">"
    ensures IsClean(t)
  {
    hide IsWholeTag, Scan, Attribute;
    ReferrerValues();
    ThreeAttributesScan(t, "a href=", href, " target=", "_blank", " rel=", "noopener noreferrer nofollow");
  }

  lemma LinkTagScan(href: string)
    requires IsAllowed(href) && IsValue(href)
    ensures IsClean(LinkTag(href))
  {
    hide IsAllowed, IsExternal, Scan, LinkTag, Attribute, IsWholeTag;
    LinkTagText(href);
    LinkWhole(href);
    if IsExternal(href) {
      LinkTexts();
      ReferrerText();
      ExternalTagScan(LinkTag(href), href, NEW_TAB, NO_REFERRER);
    } else {
      OneAttributeScan(LinkTag(href), "a href=", href, "");
    }
  }

  lemma LinkWhole(href: string)
    requires IsAllowed(href) && IsValue(href)
    ensures IsWholeTag(LinkTag(href))
  {
    assert IsLinkTag(LinkTag(href));
  }

  lemma WholeScan(t: string)
    requires IsWholeTag(t)
    ensures IsClean(t)
  {
    hide LocalTarget, IsAllowed, IsValue, Scan, IsShortTag;
    if IsShortTag(t) {
      ShortTagScan(t);
    } else if IsLinkTag(t) {
      var href :| IsAllowed(href) && IsValue(href) && t == LinkTag(href);
      LinkTagScan(href);
    } else if IsImageTag(t) {
      var src, alt :| LocalTarget(src, 0) && IsValue(src) && IsValue(alt) && t == ImageElement(src, alt);
      ImageTagScan(src, alt);
    } else if IsCodeTag(t) {
      var language :| IsValue(language) && t == CodeTag(language);
      CodeTagScan(language);
    } else {
      FixedTagScan(t);
    }
  }

  // ----- what the scan decides

  ghost predicate TagStands(s: string, i: nat, e: nat) { i < e <= |s| && IsWholeTag(s[i..e]) }

  /** Every `<` begins a whole tag, and every quote stands in one. */
  ghost predicate TagsWhole(s: string) {
    && (forall i: nat :: i < |s| && s[i] == '<' ==> exists e: nat :: TagStands(s, i, e))
    && (forall i: nat :: i < |s| && s[i] == '"' ==> exists a: nat, e: nat :: a < i < e && TagStands(s, a, e))
  }

  lemma PlaceStep(s: string, b: nat)
    requires b < |s|
    ensures PlaceAt(s, b + 1) == Next(PlaceAt(s, b), s[b])
  {
    PlaceMoves(s, b, b + 1);
    assert s[b..b + 1] == [s[b]] && s[b..b + 1][1..] == "";
  }

  lemma PlaceEnds(s: string)
    ensures PlaceAt(s, 0) == Outside && PlaceAt(s, |s|) == Scan(Outside, s)
  {
    hide Next;
    var front, whole := s[..0], s[..|s|];
    assert front == "" && whole == s;
    assert Scan(Outside, "") == Outside;
  }

  /** What is read of a tag is the text since its `<`, in front of which the scan was outside. */
  lemma {:induction false} InsideMeans(s: string, b: nat) returns (a: nat)
    requires b <= |s| && PlaceAt(s, b).Inside?
    ensures a < b && s[a] == '<' && PlaceAt(s, a) == Outside && PlaceAt(s, b).read == s[a..b]
    ensures forall k: nat :: a < k <= b ==> PlaceAt(s, k).Inside?
    decreases b
  {
    hide Scan, IsWholeTag;
    if b == 0 {
      PlaceEnds(s);
    }
    PlaceStep(s, b - 1);
    if PlaceAt(s, b - 1).Outside? {
      a := b - 1;
      assert s[a..b] == [s[a]];
    } else {
      a := InsideMeans(s, b - 1);
      assert s[a..b] == s[a..b - 1] + [s[b - 1]];
    }
  }

  lemma {:induction false} NeverBroken(s: string, b: nat)
    requires IsClean(s) && b <= |s|
    ensures !PlaceAt(s, b).Broken?
  {
    PlaceEnds(s);
    PlaceMoves(s, b, |s|);
    StaysBroken(s[b..|s|]);
  }

  /** A tag that is being read ends whole. */
  lemma {:induction false} TagEnds(s: string, a: nat, k: nat) returns (e: nat)
    requires IsClean(s) && a < k <= |s| && PlaceAt(s, k).Inside? && PlaceAt(s, k).read == s[a..k]
    ensures k < e && TagStands(s, a, e)
    decreases |s| - k
  {
    hide Scan, IsWholeTag;
    PlaceEnds(s);
    PlaceStep(s, k);
    NeverBroken(s, k + 1);
    assert s[a..k + 1] == s[a..k] + [s[k]];
    if PlaceAt(s, k + 1).Outside? {
      e := k + 1;
    } else {
      e := TagEnds(s, a, k + 1);
    }
  }

  lemma CleanIsWhole(s: string)
    requires IsClean(s)
    ensures TagsWhole(s)
  {
    hide Scan, IsWholeTag, IsClean;
    forall i: nat | i < |s| && s[i] == '<' ensures exists e: nat :: TagStands(s, i, e) {
      NeverBroken(s, i + 1);
      PlaceStep(s, i);
      assert s[i..i + 1] == "<";
      var e := TagEnds(s, i, i + 1);
    }
    forall i: nat | i < |s| && s[i] == '"' ensures exists a: nat, e: nat :: a < i < e && TagStands(s, a, e) {
      NeverBroken(s, i + 1);
      PlaceStep(s, i);
      var a := InsideMeans(s, i);
      var e := TagEnds(s, a, i);
    }
  }

  /** From the beginning of a whole tag the scan goes through it, and a quote in it is read inside. */
  lemma ThroughTag(s: string, a: nat, e: nat, i: nat)
    requires TagStands(s, a, e) && a <= i <= e && PlaceAt(s, a) == Outside
    ensures PlaceAt(s, e) == Outside
    ensures !PlaceAt(s, i).Broken? && (i < e && s[i] == '"' ==> !PlaceAt(s, i).Outside?)
  {
    hide Scan, IsWholeTag, Next;
    WholeScan(s[a..e]);
    PlaceMoves(s, a, e);
    PlaceMoves(s, i, e);
    StaysBroken(s[i..e]);
    if i < e && s[i] == '"' && PlaceAt(s, i).Outside? {
      QuoteBreaks(s, i, e);
    }
  }

  lemma QuoteBreaks(s: string, i: nat, e: nat)
    requires i < e <= |s| && s[i] == '"' && PlaceAt(s, i).Outside?
    ensures PlaceAt(s, e).Broken?
  {
    PlaceStep(s, i);
    PlaceMoves(s, i + 1, e);
    StaysBroken(s[i + 1..e]);
  }

  lemma WholeStarts(t: string)
    requires IsWholeTag(t)
    ensures t != "" && t[0] == '<'
  {
    hide LocalTarget, IsAllowed, IsValue, IsShortTag;
    if IsShortTag(t) {
      ShortTagScan(t);
    }
  }

  lemma {:induction false} WholeNotBroken(s: string, b: nat)
    requires TagsWhole(s) && b <= |s|
    ensures !PlaceAt(s, b).Broken?
    decreases b
  {
    hide Scan, IsWholeTag;
    if b == 0 {
      PlaceEnds(s);
    } else {
      var i := b - 1;
      WholeNotBroken(s, i);
      PlaceStep(s, i);
      if PlaceAt(s, i).Inside? {
        var a := InsideMeans(s, i);
        var e: nat :| TagStands(s, a, e);
        ThroughTag(s, a, e, if b <= e then b else e);
      } else if s[i] == '"' {
        var a: nat, e: nat :| a < i < e && TagStands(s, a, e);
        WholeStarts(s[a..e]);
        assert s[a] == s[a..e][0];
        WholeNotBroken(s, a);
        WholeNotBroken(s, a + 1);
        PlaceStep(s, a);
        ThroughTag(s, a, e, i);
      }
    }
  }

  /** The scan ends outside exactly when all tags are whole and all quotes stand in them. */
  lemma ScanDecides(s: string)
    ensures IsClean(s) <==> TagsWhole(s)
  {
    hide Scan, IsWholeTag, TagsWhole;
    PlaceEnds(s);
    if IsClean(s) {
      CleanIsWhole(s);
    }
    if TagsWhole(s) {
      WholeNotBroken(s, |s|);
      if PlaceAt(s, |s|).Inside? {
        EndsOutside(s);
      }
    }
  }

  lemma EndsOutside(s: string)
    requires TagsWhole(s)
    ensures !PlaceAt(s, |s|).Inside?
  {
    hide Scan, IsWholeTag;
    if PlaceAt(s, |s|).Inside? {
      var a := InsideMeans(s, |s|);
      var e: nat :| TagStands(s, a, e);
      ThroughTag(s, a, e, e);
    }
  }
}
