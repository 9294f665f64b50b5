/**
 Every `<` of a rendered text begins a tag the renderer itself writes, and a
 link or an image begins with an allow-listed target. The passes rewrite text
 that already holds markup, so this is stated as a property of a text and shown
 to survive every rewrite.
 */
module TagSafety {
  import opened Text
  import opened Links
  import opened Patterns

  const INLINE_TAGS: seq<string> := [
    "<code>", "</code>", "</a>", "</span>", "<strong>", "</strong>", "<em>", "</em>", "<del>", "</del>"]

  const BLOCK_TAGS: seq<string> := [
    "<p>", "</p>", "<br>", "<hr>", "<ul>", "</ul>", "<ol>", "</ol>", "<li>", "</li>",
    "<blockquote>", "</blockquote>", "<pre>", "</pre>"]

  const HEADING_TAGS: seq<string> := [
    "<h1>", "</h1>", "<h2>", "</h2>", "<h3>", "</h3>", "<h4>", "</h4>", "<h5>", "</h5>", "<h6>", "</h6>"]

  const LANGUAGE_TAG := "<code class=\"language-"
  const OPEN_TASK_TAG := "<input type=\"checkbox\" disabled>"
  const DONE_TASK_TAG := "<input type=\"checkbox\" disabled checked>"

  predicate IsShortTag(t: string) { t in INLINE_TAGS || t in BLOCK_TAGS || t in HEADING_TAGS }

  /** The tags without a user-supplied part, and the fixed beginning of `<code class=...>`. */
  predicate IsFixedTag(t: string) {
    IsShortTag(t) || t == NOTE_TAG || t == LANGUAGE_TAG || t == OPEN_TASK_TAG || t == DONE_TASK_TAG
  }

  ghost predicate FixedTagAt(s: string, i: nat) { exists t :: IsFixedTag(t) && Has(s, i, t) }

  predicate AnchorAt(s: string, i: nat) { Has(s, i, ANCHOR_TAG) && SafeTarget(s, i + 9) }

  predicate ImageAt(s: string, i: nat) { Has(s, i, IMAGE_TAG) && LocalTarget(s, i + 10) }

  ghost predicate TagAt(s: string, i: nat) { FixedTagAt(s, i) || AnchorAt(s, i) || ImageAt(s, i) }

  ghost predicate OnlyOwnTags(s: string) {
    forall i :: 0 <= i < |s| && s[i] == '<' ==> TagAt(s, i)
  }

  /** The characters that occur in a tag behind its `<`. */
  predicate TagChar(c: char) {
    IsWord(c) || c == ' ' || c == '=' || c == '"' || c == '>' || c == '/' || c == '-' || c == '#' || c == '.' || c == ':'
  }

  /**
   What the rewrites rely on: no fixed tag holds `#`, ` h`, or anything but
   TagChars behind `<`, and none begins like the link or the image tag.
   */
  predicate IsTag(t: string) {
    && |t| >= 3 && t[0] == '<' && t[|t| - 1] != '/' && HasTagChars(t) && LacksSpaceH(t)
    && t[1] != 'a' && (t[1] == 'i' ==> t[2] != 'm')
  }

  predicate HasTagChars(t: string) { forall k :: 1 <= k < |t| ==> TagChar(t[k]) && t[k] != '#' }

  predicate LacksSpaceH(t: string) { forall k :: 0 <= k < |t| - 1 && t[k] == ' ' ==> t[k + 1] != 'h' }

  /** Short tags hold no space, and none begins like the link or the image tag. */
  predicate IsSpaceless(t: string) {
    && |t| >= 3 && t[0] == '<' && t[1] != 'a' && t[1] != 'i' && t[|t| - 1] == '>'
    && forall k :: 1 <= k < |t| ==> IsAlpha(t[k]) || IsDigit(t[k]) || t[k] == '/' || t[k] == '>'
  }

  lemma InlineTagShape(t: string)
    requires t in INLINE_TAGS
    ensures IsSpaceless(t)
  {
  }

  lemma BlockTagShape(t: string)
    requires t in BLOCK_TAGS
    ensures IsSpaceless(t)
  {
  }

  lemma HeadingTagShape(t: string)
    requires t in HEADING_TAGS
    ensures IsSpaceless(t)
  {
  }

  lemma ShortTagShape(t: string)
    requires IsShortTag(t)
    ensures IsTag(t)
  {
    if t in INLINE_TAGS {
      InlineTagShape(t);
    } else if t in BLOCK_TAGS {
      BlockTagShape(t);
    } else {
      HeadingTagShape(t);
    }
  }

  lemma NoteTagShape()
    ensures IsTag(NOTE_TAG)
  {
  }

  lemma LanguageTagShape()
    ensures IsTag(LANGUAGE_TAG)
  {
  }

  lemma OpenTaskTagShape()
    ensures IsTag(OPEN_TASK_TAG)
  {
  }

  lemma DoneTaskTagChars()
    ensures HasTagChars(DONE_TASK_TAG)
  {
  }

  lemma DoneTaskTagShape()
    ensures IsTag(DONE_TASK_TAG)
  {
    DoneTaskTagChars();
  }

  lemma FixedTagShape(t: string)
    requires IsFixedTag(t)
    ensures IsTag(t)
  {
    if IsShortTag(t) {
      ShortTagShape(t);
    } else {
      NoteTagShape();
      LanguageTagShape();
      OpenTaskTagShape();
      DoneTaskTagShape();
    }
  }

  // ----- concatenation

  lemma HasExtends(a: string, b: string, p: nat, lit: string)
    requires Has(a, p, lit)
    ensures Has(a + b, p, lit)
  {
    assert (a + b)[p..p + |lit|] == a[p..p + |lit|];
  }

  lemma SafeTargetExtends(a: string, b: string, p: nat)
    requires SafeTarget(a, p)
    ensures SafeTarget(a + b, p)
  {
    if Has(a, p, "/") {
      HasExtends(a, b, p, "/");
    } else if Has(a, p, "#") {
      HasExtends(a, b, p, "#");
    } else if Has(a, p, "./") {
      HasExtends(a, b, p, "./");
    } else if Has(a, p, "../") {
      HasExtends(a, b, p, "../");
    }
  }

  /** No `//` arises where `a` and `b` meet. */
  predicate NoSlashesMeet(a: string, b: string) {
    a != "" && b != "" ==> b[0] != '/' || a[|a| - 1] != '/'
  }

  lemma LocalTargetExtends(a: string, b: string, p: nat)
    requires LocalTarget(a, p) && NoSlashesMeet(a, b)
    ensures LocalTarget(a + b, p)
  {
    if Has(a, p, "./") {
      HasExtends(a, b, p, "./");
    } else if Has(a, p, "../") {
      HasExtends(a, b, p, "../");
    } else {
      HasExtends(a, b, p, "/");
      assert a[p..p + 1][0] == a[p];
    }
  }

  /** A tag that stands in a piece stands in every text the piece is extended to. */
  lemma TagAtExtends(a: string, b: string, i: nat)
    requires i < |a| && TagAt(a, i) && NoSlashesMeet(a, b)
    ensures TagAt(a + b, i)
  {
    if FixedTagAt(a, i) {
      var t :| IsFixedTag(t) && Has(a, i, t);
      HasExtends(a, b, i, t);
    } else if AnchorAt(a, i) {
      HasExtends(a, b, i, ANCHOR_TAG);
      SafeTargetExtends(a, b, i + 9);
    } else {
      HasExtends(a, b, i, IMAGE_TAG);
      LocalTargetExtends(a, b, i + 10);
    }
  }

  lemma HasShifts(a: string, b: string, p: nat, lit: string)
    ensures Has(b, p, lit) <==> Has(a + b, |a| + p, lit)
  {
    if p + |lit| <= |b| {
      assert (a + b)[|a| + p..|a| + p + |lit|] == b[p..p + |lit|];
    }
  }

  lemma HasFoldShifts(a: string, b: string, p: nat, lit: string)
    requires HasFold(b, p, lit)
    ensures HasFold(a + b, |a| + p, lit)
  {
    forall k | 0 <= k < |lit| ensures LowerAscii((a + b)[|a| + p + k]) == lit[k] {
      assert LowerAscii(b[p + k]) == lit[k];
    }
  }

  lemma SafeTargetShifts(a: string, b: string, p: nat)
    requires SafeTarget(b, p)
    ensures SafeTarget(a + b, |a| + p)
  {
    HasShifts(a, b, p, "/");
    HasShifts(a, b, p, "#");
    HasShifts(a, b, p, "./");
    HasShifts(a, b, p, "../");
    if HasFold(b, p, "http://") {
      HasFoldShifts(a, b, p, "http://");
    } else if HasFold(b, p, "https://") {
      HasFoldShifts(a, b, p, "https://");
    } else if HasFold(b, p, "mailto:") {
      HasFoldShifts(a, b, p, "mailto:");
    }
  }

  lemma LocalTargetShifts(a: string, b: string, p: nat)
    requires LocalTarget(b, p)
    ensures LocalTarget(a + b, |a| + p)
  {
    HasShifts(a, b, p, "/");
    HasShifts(a, b, p, "./");
    HasShifts(a, b, p, "../");
  }

  lemma TagAtShifts(a: string, b: string, i: nat)
    requires TagAt(b, i)
    ensures TagAt(a + b, |a| + i)
  {
    if FixedTagAt(b, i) {
      var t :| IsFixedTag(t) && Has(b, i, t);
      HasShifts(a, b, i, t);
    } else if AnchorAt(b, i) {
      HasShifts(a, b, i, ANCHOR_TAG);
      SafeTargetShifts(a, b, i + 9);
    } else {
      HasShifts(a, b, i, IMAGE_TAG);
      LocalTargetShifts(a, b, i + 10);
    }
  }

  /** Texts with only own tags can be joined where no `//` arises. */
  lemma TagsJoin(a: string, b: string)
    requires OnlyOwnTags(a) && OnlyOwnTags(b) && NoSlashesMeet(a, b)
    ensures OnlyOwnTags(a + b)
  {
    forall i | 0 <= i < |a + b| && (a + b)[i] == '<' ensures TagAt(a + b, i) {
      if i < |a| {
        TagAtExtends(a, b, i);
      } else {
        TagAtShifts(a, b, i - |a|);
      }
    }
  }

  // ----- cuts

  /** No tag that begins before `b` reaches past it. */
  ghost predicate TagCut(s: string, b: nat) {
    b <= |s| && forall i :: 0 <= i < b && s[i] == '<' && TagAt(s, i) ==> TagAt(s[..b], i)
  }

  lemma TagsSplit(s: string, a: nat, b: nat)
    requires OnlyOwnTags(s) && a <= b && TagCut(s, b)
    ensures OnlyOwnTags(s[a..b])
  {
    hide TagAt;
    forall i | 0 <= i < b - a && s[a..b][i] == '<' ensures TagAt(s[a..b], i) {
      assert s[a + i] == '<';
      assert TagAt(s[..b], a + i);
      assert s[..a] + s[a..b] == s[..b];
      TagAtUnshifts(s[..a], s[a..b], i);
    }
  }

  /** Whether a tag stands at `i` depends on nothing before `i`. */
  lemma TagAtUnshifts(a: string, b: string, i: nat)
    requires TagAt(a + b, |a| + i)
    ensures TagAt(b, i)
  {
    hide IsFixedTag, SafeTarget;
    if FixedTagAt(a + b, |a| + i) {
      var t :| IsFixedTag(t) && Has(a + b, |a| + i, t);
      HasShifts(a, b, i, t);
    } else if AnchorAt(a + b, |a| + i) {
      HasShifts(a, b, i, ANCHOR_TAG);
      SafeTargetUnshifts(a, b, i + 9);
    } else {
      HasShifts(a, b, i, IMAGE_TAG);
      HasShifts(a, b, i + 10, "/");
      HasShifts(a, b, i + 10, "./");
      HasShifts(a, b, i + 10, "../");
    }
  }

  lemma HasFoldUnshifts(a: string, b: string, p: nat, lit: string)
    requires HasFold(a + b, |a| + p, lit)
    ensures HasFold(b, p, lit)
  {
    forall k | 0 <= k < |lit| ensures LowerAscii(b[p + k]) == lit[k] {
      assert LowerAscii((a + b)[|a| + p + k]) == lit[k];
    }
  }

  lemma SafeTargetUnshifts(a: string, b: string, p: nat)
    requires SafeTarget(a + b, |a| + p)
    ensures SafeTarget(b, p)
  {
    HasShifts(a, b, p, "/");
    HasShifts(a, b, p, "#");
    HasShifts(a, b, p, "./");
    HasShifts(a, b, p, "../");
    if HasFold(a + b, |a| + p, "http://") {
      HasFoldUnshifts(a, b, p, "http://");
    } else if HasFold(a + b, |a| + p, "https://") {
      HasFoldUnshifts(a, b, p, "https://");
    } else if HasFold(a + b, |a| + p, "mailto:") {
      HasFoldUnshifts(a, b, p, "mailto:");
    }
  }

  lemma CharOf(s: string, p: nat, lit: string, b: nat)
    ensures Has(s, p, lit) && p <= b < p + |lit| ==> s[b] == lit[b - p]
    ensures HasFold(s, p, lit) && p <= b < p + |lit| ==> LowerAscii(s[b]) == lit[b - p]
  {
    if Has(s, p, lit) && p <= b < p + |lit| {
      assert s[p..p + |lit|][b - p] == s[b];
    }
    if HasFold(s, p, lit) && p <= b < p + |lit| {
      assert LowerAscii(s[p + (b - p)]) == lit[b - p];
    }
  }

  /** A literal found before `b` ends before `b` when it disagrees with s[b]. */
  lemma HasCut(s: string, b: nat, p: nat, lit: string)
    requires p <= b <= |s| && Has(s, p, lit)
    requires b < p + |lit| ==> s[b] != lit[b - p]
    ensures Has(s[..b], p, lit)
  {
    CharOf(s, p, lit, b);
    assert s[..b][p..p + |lit|] == s[p..p + |lit|];
  }

  lemma SafeTargetCut(s: string, b: nat, p: nat)
    requires p <= b <= |s| && SafeTarget(s, p)
    requires b < |s| ==> !TagChar(s[b])
    ensures SafeTarget(s[..b], p)
  {
    if Has(s, p, "/") {
      HasCut(s, b, p, "/");
    } else if Has(s, p, "#") {
      HasCut(s, b, p, "#");
    } else if Has(s, p, "./") {
      HasCut(s, b, p, "./");
    } else if Has(s, p, "../") {
      HasCut(s, b, p, "../");
    } else if HasFold(s, p, "http://") {
      HasFoldCut(s, b, p, "http://");
    } else if HasFold(s, p, "https://") {
      HasFoldCut(s, b, p, "https://");
    } else {
      HasFoldCut(s, b, p, "mailto:");
    }
  }

  lemma HasFoldCut(s: string, b: nat, p: nat, lit: string)
    requires p <= b <= |s| && HasFold(s, p, lit)
    requires forall k :: 0 <= k < |lit| ==> TagChar(lit[k])
    requires b < |s| ==> !TagChar(s[b])
    ensures HasFold(s[..b], p, lit)
  {
    CharOf(s, p, lit, b);
  }

  lemma LocalTargetCut(s: string, b: nat, p: nat)
    requires p <= b <= |s| && LocalTarget(s, p)
    requires b < |s| ==> !TagChar(s[b])
    ensures LocalTarget(s[..b], p)
  {
    if Has(s, p, "./") {
      HasCut(s, b, p, "./");
    } else if Has(s, p, "../") {
      HasCut(s, b, p, "../");
    } else {
      HasCut(s, b, p, "/");
    }
  }

  /** No tag reaches past a character that no tag contains. */
  lemma CutBefore(s: string, b: nat)
    requires b <= |s| && (b < |s| ==> !TagChar(s[b]))
    ensures TagCut(s, b)
  {
    forall i | 0 <= i < b && s[i] == '<' && TagAt(s, i) ensures TagAt(s[..b], i) {
      if FixedTagAt(s, i) {
        var t :| IsFixedTag(t) && Has(s, i, t);
        FixedTagShape(t);
        HasCut(s, b, i, t);
      } else if AnchorAt(s, i) {
        HasCut(s, b, i, ANCHOR_TAG);
        SafeTargetCut(s, b, i + 9);
      } else {
        HasCut(s, b, i, IMAGE_TAG);
        LocalTargetCut(s, b, i + 10);
      }
    }
  }

  /** Nor past the place between an opening character and a pasted URL or an issue number. */
  lemma CutBehindOpening(s: string, b: nat)
    requires b < |s| && (b > 0 ==> Opens(s[b - 1]))
    requires s[b] == '#' || Has(s, b, "ht")
    ensures TagCut(s, b)
  {
    assert Has(s, b, "ht") ==> s[b..b + 2][0] == s[b];
    forall i | 0 <= i < b && s[i] == '<' && TagAt(s, i) ensures TagAt(s[..b], i) {
      if FixedTagAt(s, i) {
        var t :| IsFixedTag(t) && Has(s, i, t);
        FixedTagShape(t);
        FixedTagBehindOpening(s, b, i, t);
      } else if AnchorAt(s, i) {
        AnchorBehindOpening(s, b, i);
      } else {
        ImageBehindOpening(s, b, i);
      }
    }
  }

  /** A tag read off around position `b`, inside which it reaches. */
  lemma HasAround(s: string, b: nat, i: nat, t: string)
    requires i < b < |s| && Has(s, i, t)
    ensures b < i + |t| ==> t[b - i] == s[b] && t[b - i - 1] == s[b - 1]
    ensures b + 1 < i + |t| ==> t[b + 1 - i] == s[b + 1]
  {
    var w := s[i..i + |t|];
    assert b < i + |t| ==> w[b - i] == s[b] && w[b - i - 1] == s[b - 1];
    assert b + 1 < i + |t| ==> w[b + 1 - i] == s[b + 1];
  }

  /** What IsTag says about one place of a tag. */
  lemma TagPlace(t: string, k: int)
    requires IsTag(t)
    ensures 1 <= k < |t| ==> TagChar(t[k]) && t[k] != '#' && (t[k - 1] == ' ' ==> t[k] != 'h')
  {
    if 1 <= k < |t| {
      assert t[k - 1] == ' ' ==> t[(k - 1) + 1] != 'h';
    }
  }

  lemma FixedTagBehindOpening(s: string, b: nat, i: nat, t: string)
    requires 0 < b < |s| && Opens(s[b - 1]) && i < b
    requires s[b] == '#' || Has(s, b, "ht")
    requires IsTag(t) && Has(s, i, t)
    ensures Has(s[..b], i, t)
  {
    hide IsTag;
    HasAround(s, b, i, t);
    TagPlace(t, b - i);
    TagPlace(t, b - i - 1);
    IsTagStart(t);
    assert Has(s, b, "ht") ==> s[b..b + 2][0] == s[b];
    HasCut(s, b, i, t);
  }

  lemma IsTagStart(t: string)
    requires IsTag(t)
    ensures t != "" && t[0] == '<'
  {
  }

  lemma TagOpenerBehindOpening(s: string, b: nat, i: nat, t: string)
    requires 0 < b < |s| && Opens(s[b - 1]) && i < b
    requires s[b] == '#' || Has(s, b, "ht")
    requires (t == ANCHOR_TAG || t == IMAGE_TAG) && Has(s, i, t)
    ensures i + |t| < b && Has(s[..b], i, t)
  {
    HasAround(s, b, i, t);
    assert Has(s, b, "ht") ==> s[b..b + 2][0] == s[b] && s[b..b + 2][1] == s[b + 1];
    assert s[i..i + |t|][|t| - 1] == '"';
    HasCut(s, b, i, t);
  }

  lemma AnchorBehindOpening(s: string, b: nat, i: nat)
    requires 0 < b < |s| && Opens(s[b - 1]) && i < b
    requires s[b] == '#' || Has(s, b, "ht")
    requires AnchorAt(s, i)
    ensures AnchorAt(s[..b], i)
  {
    TagOpenerBehindOpening(s, b, i, ANCHOR_TAG);
    assert Has(s, b, "ht") ==> s[b..b + 2][0] == s[b];
    SafeTargetBehindOpening(s, b, i + 9);
  }

  lemma SafeTargetBehindOpening(s: string, b: nat, p: nat)
    requires p < b < |s| && Opens(s[b - 1])
    requires s[b] == '#' || s[b] == 'h'
    requires SafeTarget(s, p)
    ensures SafeTarget(s[..b], p)
  {
    if Has(s, p, "/") {
      HasCut(s, b, p, "/");
    } else if Has(s, p, "#") {
      HasCut(s, b, p, "#");
    } else if Has(s, p, "./") {
      HasCut(s, b, p, "./");
    } else if Has(s, p, "../") {
      HasCut(s, b, p, "../");
    } else if HasFold(s, p, "http://") {
      HasFoldBehindOpening(s, b, p, "http://");
    } else if HasFold(s, p, "https://") {
      HasFoldBehindOpening(s, b, p, "https://");
    } else {
      HasFoldBehindOpening(s, b, p, "mailto:");
    }
  }

  lemma HasFoldBehindOpening(s: string, b: nat, p: nat, lit: string)
    requires p < b < |s| && Opens(s[b - 1]) && HasFold(s, p, lit)
    requires forall k :: 0 <= k < |lit| ==> !Opens(lit[k])
    ensures HasFold(s[..b], p, lit)
  {
    CharOf(s, p, lit, b - 1);
  }

  lemma ImageBehindOpening(s: string, b: nat, i: nat)
    requires 0 < b < |s| && Opens(s[b - 1]) && i < b
    requires s[b] == '#' || Has(s, b, "ht")
    requires ImageAt(s, i)
    ensures ImageAt(s[..b], i)
  {
    TagOpenerBehindOpening(s, b, i, IMAGE_TAG);
    assert Has(s, b, "ht") ==> s[b..b + 2][0] == s[b];
    if Has(s, i + 10, "./") {
      HasCut(s, b, i + 10, "./");
    } else if Has(s, i + 10, "../") {
      HasCut(s, b, i + 10, "../");
    } else {
      HasCut(s, b, i + 10, "/");
    }
  }
}
