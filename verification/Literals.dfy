/** What a text cannot come to hold: the literals that images, pasted URLs and mail addresses begin with. */
module Literals {
  import opened Text
  import opened Patterns
  import opened Links
  import opened Placeholders
  import opened Rewriting
  import opened RuleShapes
  import opened Replacing
  import opened PassMatches
  import opened MailPasses
  import opened PassSafety
  import opened Inline

  function Folded(fold: bool, c: char): char { if fold then LowerAscii(c) else c }

  ghost predicate Found(fold: bool, s: string, p: nat, lit: string) {
    p + |lit| <= |s| && forall k :: p <= k < p + |lit| ==> Folded(fold, s[k]) == lit[k - p]
  }

  /** `lit` stands nowhere in the text; with `fold`, in no case. */
  ghost predicate Free(fold: bool, s: string, lit: string) { forall p: nat :: !Found(fold, s, p, lit) }

  ghost predicate Foreign(fold: bool, c: char, lit: string) { forall k :: 0 <= k < |lit| ==> Folded(fold, c) != lit[k] }

  /** The beginnings of URLs, none of which stands in a tag. */
  predicate IsScheme(lit: string) { lit == "mailto:" || lit == "http://" || lit == "https://" }

  lemma FreeSlice(fold: bool, s: string, a: nat, b: nat, lit: string)
    requires Free(fold, s, lit) && a <= b <= |s|
    ensures Free(fold, s[a..b], lit)
  {
    forall p: nat ensures !Found(fold, s[a..b], p, lit) {
      if Found(fold, s[a..b], p, lit) {
        forall k | a + p <= k < a + p + |lit| ensures Folded(fold, s[k]) == lit[k - (a + p)] {
          assert s[a..b][k - a] == s[k];
        }
        assert Found(fold, s, a + p, lit);
      }
    }
  }

  /** Free texts can be joined where a character that the literal does not hold stands. */
  lemma FreeJoin(fold: bool, a: string, b: string, lit: string)
    requires Free(fold, a, lit) && Free(fold, b, lit) && lit != ""
    requires a != "" && b != "" ==> Foreign(fold, a[|a| - 1], lit) || Foreign(fold, b[0], lit)
    ensures Free(fold, a + b, lit)
  {
    var s := a + b;
    forall p: nat ensures !Found(fold, s, p, lit) {
      assert p < |a| < |s| ==> s[|a| - 1] == a[|a| - 1] && s[|a|] == b[0];
      if Found(fold, s, p, lit) {
        if p >= |a| {
          assert Found(fold, b, p - |a|, lit) by {
            forall k | p - |a| <= k < p - |a| + |lit| ensures Folded(fold, b[k]) == lit[k - (p - |a|)] {
              assert s[k + |a|] == b[k];
            }
          }
        } else if p + |lit| <= |a| {
          assert Found(fold, a, p, lit) by {
            assert forall k :: p <= k < p + |lit| ==> s[k] == a[k];
          }
        } else {
          assert false;
        }
      }
    }
  }

  lemma ColonFree(fold: bool, s: string, lit: string)
    requires Lacks(s, ':') && IsScheme(lit)
    ensures Free(fold, s, lit)
  {
    var k := if lit == "mailto:" then 6 else if lit == "http://" then 4 else 5;
    assert lit[k] == ':';
    forall p: nat ensures !Found(fold, s, p, lit) {
      assert p + k < |s| ==> Folded(fold, s[p + k]) != ':';
    }
  }

  lemma TagForeign(fold: bool, lit: string)
    requires IsScheme(lit)
    ensures lit != "" && Foreign(fold, '<', lit) && Foreign(fold, '>', lit) && Foreign(fold, '"', lit) && Foreign(fold, ' ', lit)
    ensures forall k :: 0 <= k < |lit| ==> !InsideRef(lit[k]) && lit[k] != '`'
  {
  }

  /** Nothing is found in `lit` that is cut off by tags on both sides. */
  lemma FreeBetween(fold: bool, a: string, s: string, b: string, lit: string)
    requires Free(fold, a, lit) && Free(fold, s, lit) && Free(fold, b, lit) && lit != ""
    requires a != "" && Foreign(fold, a[|a| - 1], lit) && b != "" && Foreign(fold, b[0], lit)
    ensures Free(fold, a + s + b, lit)
  {
    FreeJoin(fold, a, s, lit);
    FreeJoin(fold, a + s, b, lit);
  }

  lemma AnchorFree(fold: bool, href: string, caption: string, lit: string)
    requires IsScheme(lit) && Free(fold, href, lit) && Free(fold, caption, lit)
    ensures Free(fold, Anchor(href, caption), lit)
  {
    hide Free, Foreign, IsScheme;
    var tail := AnchorTail(href);
    TagForeign(fold, lit);
    assert Lacks(NEW_TAB, ':') && Lacks(NO_REFERRER, ':');
    AnchorTailUntagged(href);
    ColonFree(fold, ANCHOR_TAG, lit);
    ColonFree(fold, tail, lit);
    ColonFree(fold, "</a>", lit);
    FreeBetween(fold, ANCHOR_TAG, href, tail, lit);
    FreeBetween(fold, ANCHOR_TAG + href + tail, caption, "</a>", lit);
  }

  // ----- passes

  /** What is put into a text brings no literal in, and completes none. */
  ghost predicate FreeMarkup(fold: bool, html: string, lit: string) {
    html != "" && Free(fold, html, lit) && Foreign(fold, html[0], lit) && Foreign(fold, html[|html| - 1], lit)
  }

  lemma {:induction false} FreeRewrite(fold: bool, rule: Rule, s: string, i: nat, lit: string)
    requires Applies(rule, s) && i <= |s| && Free(fold, s, lit) && lit != ""
    requires forall at: nat, hit: Hit :: IsReplaced(rule, s, at, hit) ==> FreeMarkup(fold, hit.html, lit)
    ensures Free(fold, Rewrite(rule, s, i), lit)
    decreases |s| - i
  {
    hide Free, Foreign, Rewrite, Replacements, HitAt, IsReplaced;
    var hits := Replacements(rule, s, i);
    if hits == [] {
      NoReplacement(rule, s, i);
      FreeSlice(fold, s, i, |s|, lit);
      assert s[i..|s|] == s[i..];
    } else {
      FirstReplacement(rule, s, i);
      var hit := hits[0];
      var at: nat :| IsReplaced(rule, s, at, hit);
      FreeRewrite(fold, rule, s, hit.end, lit);
      FreeSlice(fold, s, i, hit.from, lit);
      FreeJoin(fold, hit.html, Rewrite(rule, s, hit.end), lit);
      FreeJoin(fold, s[i..hit.from], hit.html + Rewrite(rule, s, hit.end), lit);
    }
  }

  /** A link is put together from two stretches of the text. */
  lemma LinkFromText(s: string, i: nat, hit: Hit)
    requires IsReplaced(Link, s, i, hit)
    ensures exists a: nat, b: nat, c: nat, d: nat ::
              && a <= b <= |s| && c <= d <= |s| && hit.html == Anchor(s[a..b], s[c..d])
  {
    hide Anchor, SafeHref, HitAt;
    LinkHitShape(s, i, hit);
    var j := LabelEnd(s, i);
    if i + 1 == j {
      assert hit.html == Anchor(s[j + 2..hit.end - 1], s[j + 2..hit.end - 1]);
    } else {
      assert hit.html == Anchor(s[j + 2..hit.end - 1], s[i + 1..j]);
    }
  }

  lemma AnchorMarkup(fold: bool, href: string, caption: string, lit: string)
    requires IsScheme(lit) && Free(fold, href, lit) && Free(fold, caption, lit)
    ensures FreeMarkup(fold, Anchor(href, caption), lit)
  {
    hide Free, Foreign, IsScheme;
    TagForeign(fold, lit);
    AnchorFree(fold, href, caption, lit);
    var html := Anchor(href, caption);
    assert html[0] == '<' && html[|html| - 1] == '>';
  }

  /** A pass that writes links from what it finds brings no scheme into the text. */
  lemma LinksFree(fold: bool, rule: Rule, s: string, lit: string)
    requires rule.Link? || rule.PastedUrl?
    requires IsScheme(lit) && Free(fold, s, lit)
    ensures Free(fold, Rewrite(rule, s, 0), lit)
  {
    hide Free, Anchor, Foreign, IsScheme;
    forall at: nat, hit: Hit | IsReplaced(rule, s, at, hit) ensures FreeMarkup(fold, hit.html, lit) {
      if rule.Link? {
        LinkFromText(s, at, hit);
        var a: nat, b: nat, c: nat, d: nat :| a <= b <= |s| && c <= d <= |s| && hit.html == Anchor(s[a..b], s[c..d]);
        FreeSlice(fold, s, a, b, lit);
        FreeSlice(fold, s, c, d, lit);
        AnchorMarkup(fold, s[a..b], s[c..d], lit);
      } else {
        FreeSlice(fold, s, hit.from, hit.end, lit);
        AnchorMarkup(fold, s[hit.from..hit.end], s[hit.from..hit.end], lit);
      }
    }
    TagForeign(fold, lit);
    FreeRewrite(fold, rule, s, 0, lit);
  }

  // ----- lifting

  /** A stretch without placeholders stands in the filled text as it stands in the text. */
  lemma Contiguous(t: string, p: nat, e: nat, values: seq<string>) returns (m: nat)
    requires Disciplined(t, |values|) && p < e <= |t| && Lacks(t[p..e], NUL)
    requires !InsideRef(t[p]) && !InsideRef(t[e - 1])
    ensures m + (e - p) <= |Fill(t, values)| && Fill(t, values)[m..m + (e - p)] == t[p..e]
  {
    hide Fill, Disciplined;
    var a, w, b := t[..p], t[p..e], t[e..];
    DisciplinedSplit(t, e, |values|);
    assert CleanCut(t[..e], p);
    DisciplinedSplit(t[..e], p, |values|);
    assert t[..e][..p] == a && t[..e][p..] == w;
    PlainText(w, values);
    FillJoin(a, w, values);
    FillJoin(a + w, b, values);
    assert a + w + b == t;
    m := |Fill(a, values)|;
  }

  lemma FoundFilled(fold: bool, t: string, p: nat, values: seq<string>, lit: string) returns (m: nat)
    requires Disciplined(t, |values|) && Found(fold, t, p, lit)
    requires lit != "" && forall k :: 0 <= k < |lit| ==> !InsideRef(lit[k])
    ensures Found(fold, Fill(t, values), m, lit)
  {
    hide Fill, Disciplined;
    var n := |lit|;
    forall k | p <= k < p + n ensures !InsideRef(t[k]) {
      assert Folded(fold, t[k]) == lit[k - p];
    }
    m := Contiguous(t, p, p + n, values);
    var filled := Fill(t, values);
    forall k | m <= k < m + n ensures Folded(fold, filled[k]) == lit[k - m] {
      assert filled[m..m + n][k - m] == t[p + (k - m)];
    }
  }

  /** What the filled text does not hold, the text with the placeholders does not hold. */
  lemma UnfilledFree(fold: bool, t: string, values: seq<string>, lit: string)
    requires Disciplined(t, |values|) && Free(fold, Fill(t, values), lit)
    requires lit != "" && forall k :: 0 <= k < |lit| ==> !InsideRef(lit[k])
    ensures Free(fold, t, lit)
  {
    hide Fill, Disciplined;
    forall p: nat ensures !Found(fold, t, p, lit) {
      if Found(fold, t, p, lit) {
        var m := FoundFilled(fold, t, p, values, lit);
      }
    }
  }

  /** What a line does not hold, the line with its code spans lifted out does not hold. */
  lemma LiftedFree(fold: bool, escaped: string, lit: string)
    requires IsEscaped(escaped) && Free(fold, escaped, lit)
    requires lit != "" && forall k :: 0 <= k < |lit| ==> !InsideRef(lit[k])
    ensures Free(fold, Lift(escaped, 0, []).text, lit)
  {
    hide Fill, Disciplined, Free;
    var lifted := Lift(escaped, 0, []);
    LiftRoundTrip(escaped, 0, []);
    assert escaped[0..] == escaped;
    UnfilledFree(fold, lifted.text, Quoted(lifted.spans), lit);
  }

  // ----- lines without images and pasted URLs

  lemma ImageFound(s: string, spans: seq<string>, i: nat)
    requires Disciplined(s, |spans|) && i < |s| && HitAt(Image(spans), s, i).Some?
    ensures Found(false, s, i, "![")
  {
    hide SafeHref, Anchor, Disciplined, ImageText;
  }

  lemma NoImagesIn(s: string, spans: seq<string>)
    requires Disciplined(s, |spans|) && Free(false, s, "![")
    ensures Rewrite(Image(spans), s, 0) == s
  {
    hide HitAt, Disciplined;
    forall i | 0 <= i < |s| ensures HitAt(Image(spans), s, i).None? {
      if HitAt(Image(spans), s, i).Some? {
        ImageFound(s, spans, i);
      }
    }
    NothingReplaced(Image(spans), s, 0);
  }

  lemma HasFound(s: string, p: nat, lit: string)
    requires Has(s, p, lit)
    ensures Found(false, s, p, lit)
  {
    forall k | p <= k < p + |lit| ensures Folded(false, s[k]) == lit[k - p] {
      assert s[p..p + |lit|][k - p] == s[k];
    }
  }

  lemma NoPastedUrls(s: string)
    requires Free(false, s, "http://") && Free(false, s, "https://")
    ensures Rewrite(PastedUrl, s, 0) == s
  {
    hide Anchor;
    forall p: nat ensures SchemeEnd(s, p).None? {
      if Has(s, p, "http://") {
        HasFound(s, p, "http://");
      } else if Has(s, p, "https://") {
        HasFound(s, p, "https://");
      }
    }
    forall i | 0 <= i < |s| ensures HitAt(PastedUrl, s, i).None? {
    }
    NothingReplaced(PastedUrl, s, 0);
  }

  /** A line without `![`, `http://` and `https://` is one in which these two passes find nothing. */
  lemma PlainLines(escaped: string)
    requires IsEscaped(escaped)
    requires Free(false, escaped, "![") && Free(false, escaped, "http://") && Free(false, escaped, "https://")
    ensures NoImageOrPastedUrl(escaped)
  {
    hide Free, Disciplined, Rewrite;
    var lifted := Lift(escaped, 0, []);
    LiftDisciplined(escaped, 0, []);
    LiftedFree(false, escaped, "![");
    LiftedFree(false, escaped, "http://");
    LiftedFree(false, escaped, "https://");
    NoImagesIn(lifted.text, lifted.spans);
    LinksFree(false, Link, lifted.text, "http://");
    LinksFree(false, Link, lifted.text, "https://");
    NoPastedUrls(Rewrite(Link, lifted.text, 0));
  }
}
