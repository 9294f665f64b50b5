/**
 The line patterns read off their sources. A shape says how a line is divided
 and where greedy matching puts the bounds; each lemma says that the recognizer
 accepts exactly the lines of its shape and captures what the shape says.
 */
module LineShapes {
  import opened Text
  import opened Lines

  /** [from, to) is a longest run of spaces. */
  ghost predicate Spaces(line: string, from: nat, to: nat) {
    from <= to <= |line| && AllIn(line, from, to, Space) && (to < |line| ==> !IsSpace(line[to]))
  }

  ghost predicate OneLine(line: string, from: nat) {
    from <= |line| && forall k :: from <= k < |line| ==> !IsLineEnd(line[k])
  }

  ghost predicate BulletShape(line: string, i: nat, m: nat) {
    && Spaces(line, 0, i) && i + 1 < m && Spaces(line, i + 1, m) && OneLine(line, m)
    && (line[i] == '-' || line[i] == '*' || line[i] == '+')
  }

  lemma BulletExact(line: string)
    ensures Bullet(line).Some? <==> exists i: nat, m: nat :: BulletShape(line, i, m)
    ensures forall i: nat, m: nat :: BulletShape(line, i, m) ==> Bullet(line) == Some(line[m..])
  {
    forall i: nat, m: nat | BulletShape(line, i, m) ensures Bullet(line) == Some(line[m..]) {
      RunEndsAt(line, 0, i, Space);
      RunEndsAt(line, i + 1, m, Space);
    }
    if Bullet(line).Some? {
      var i := RunEnd(line, 0, Space);
      assert BulletShape(line, i, RunEnd(line, i + 1, Space));
    }
  }

  ghost predicate NumberedShape(line: string, i: nat, d: nat, m: nat) {
    && Spaces(line, 0, i) && i < d <= i + 9 && d + 1 < m && Spaces(line, d + 1, m) && OneLine(line, m)
    && AllIn(line, i, d, Digit) && (line[d] == '.' || line[d] == ')')
  }

  lemma NumberedExact(line: string)
    ensures Numbered(line).Some? <==> exists i: nat, d: nat, m: nat :: NumberedShape(line, i, d, m)
    ensures forall i: nat, d: nat, m: nat :: NumberedShape(line, i, d, m) ==> Numbered(line) == Some(line[m..])
  {
    forall i: nat, d: nat, m: nat | NumberedShape(line, i, d, m) ensures Numbered(line) == Some(line[m..]) {
      RunEndsAt(line, 0, i, Space);
      RunEndsAt(line, i, d, Digit);
      RunEndsAt(line, d + 1, m, Space);
    }
    if Numbered(line).Some? {
      var i := RunEnd(line, 0, Space);
      var d := RunEnd(line, i, Digit);
      assert NumberedShape(line, i, d, RunEnd(line, d + 1, Space));
    }
  }

  ghost predicate HeadingShape(line: string, h: nat, m: nat) {
    1 <= h <= 6 && h < m && m <= |line| && AllIn(line, 0, h, Only('#')) && Spaces(line, h, m) && OneLine(line, m)
  }

  lemma HeadingExact(line: string)
    ensures Heading(line).Some? <==> exists h: nat, m: nat :: HeadingShape(line, h, m)
    ensures forall h: nat, m: nat :: HeadingShape(line, h, m) ==> Heading(line) == Some((h, Trim(line[m..])))
  {
    hide Trim, RunEnd;
    forall h: nat, m: nat | HeadingShape(line, h, m) ensures Heading(line) == Some((h, Trim(line[m..]))) {
      assert In(line[h], Space);
      RunEndsAt(line, 0, h, Only('#'));
      RunEndsAt(line, h, m, Space);
    }
    if Heading(line).Some? {
      var h := RunEnd(line, 0, Only('#'));
      assert HeadingShape(line, h, RunEnd(line, h, Space));
    }
  }

  ghost predicate QuoteShape(line: string, m: nat) {
    && 1 <= m <= 2 && m <= |line| && line[0] == '>' && OneLine(line, m)
    && (m == 2 <==> 1 < |line| && IsSpace(line[1]))
  }

  lemma QuoteExact(line: string)
    ensures Quote(line).Some? <==> exists m: nat :: QuoteShape(line, m)
    ensures forall m: nat :: QuoteShape(line, m) ==> Quote(line) == Some(line[m..])
  {
    if Quote(line).Some? {
      assert QuoteShape(line, if 1 < |line| && IsSpace(line[1]) then 2 else 1);
    }
  }

  /** At least three of one mark, and nothing else but spaces around them. */
  ghost predicate RuleShape(line: string, i: nat, k: nat) {
    && Spaces(line, 0, i) && i + 3 <= k && k <= |line| && AllIn(line, i, k, Only(line[i]))
    && Spaces(line, k, |line|) && (line[i] == '-' || line[i] == '*' || line[i] == '_')
  }

  lemma RuleExact(line: string)
    ensures IsRule(line) <==> exists i: nat, k: nat :: RuleShape(line, i, k)
  {
    forall i: nat, k: nat | RuleShape(line, i, k) ensures IsRule(line) {
      RunEndsAt(line, 0, i, Space);
      if k < |line| { assert In(line[k], Space); }
      RunEndsAt(line, i, k, Only(line[i]));
      RunEndsAt(line, k, |line|, Space);
    }
    if IsRule(line) {
      var i := RunEnd(line, 0, Space);
      assert RuleShape(line, i, RunEnd(line, i, Only(line[i])));
    }
  }

  /** Three backticks, a language of at most twenty characters, and spaces around both. */
  ghost predicate FenceShape(line: string, i: nat, j: nat, k: nat) {
    && Spaces(line, 0, i) && Has(line, i, "```") && Spaces(line, i + 3, j)
    && j <= k <= j + 20 && k <= |line| && AllIn(line, j, k, Language) && Spaces(line, k, |line|)
  }

  lemma FenceExact(line: string)
    ensures FenceLanguage(line).Some? <==> exists i: nat, j: nat, k: nat :: FenceShape(line, i, j, k)
    ensures forall i: nat, j: nat, k: nat :: FenceShape(line, i, j, k) ==> FenceLanguage(line) == Some(line[j..k])
  {
    hide RunEnd;
    forall i: nat, j: nat, k: nat | FenceShape(line, i, j, k) ensures FenceLanguage(line) == Some(line[j..k]) {
      RunEndsAt(line, 0, i, Space);
      RunEndsAt(line, i + 3, j, Space);
      if k < |line| { assert In(line[k], Space); }
      RunEndsAt(line, j, k, Language);
      RunEndsAt(line, k, |line|, Space);
    }
    if FenceLanguage(line).Some? {
      var i := RunEnd(line, 0, Space);
      var j := RunEnd(line, i + 3, Space);
      assert FenceShape(line, i, j, RunEnd(line, j, Language));
    }
  }

  /** A close is a fence without a language, so a line can both open and close a fence. */
  lemma FenceCloseExact(line: string)
    ensures IsFenceClose(line) <==> FenceLanguage(line) == Some("")
  {
    var i := RunEnd(line, 0, Space);
    if Has(line, i, "```") {
      var j := RunEnd(line, i + 3, Space);
      var k := RunEnd(line, j, Language);
      if j == |line| {
        assert k == j && line[j..k] == "";
      } else if j == k {
        assert RunEnd(line, k, Space) == k;
      } else {
        assert |line[j..k]| > 0;
      }
    }
  }

  ghost predicate TaskShape(raw: string, m: nat) {
    && 3 < m && |raw| >= 3 && raw[0] == '[' && (raw[1] == ' ' || raw[1] == 'x' || raw[1] == 'X') && raw[2] == ']'
    && Spaces(raw, 3, m) && OneLine(raw, m)
  }

  lemma TaskExact(raw: string)
    ensures Task(raw).Some? <==> exists m: nat :: TaskShape(raw, m)
    ensures forall m: nat :: TaskShape(raw, m) ==> Task(raw) == Some((raw[1] == 'x' || raw[1] == 'X', raw[m..]))
  {
    forall m: nat | TaskShape(raw, m) ensures Task(raw) == Some((raw[1] == 'x' || raw[1] == 'X', raw[m..])) {
      RunEndsAt(raw, 3, m, Space);
    }
    if Task(raw).Some? {
      assert TaskShape(raw, RunEnd(raw, 3, Space));
    }
  }
}
