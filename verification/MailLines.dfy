/** A condition on a line, as it was typed, under which it comes out with every mail address whole. */
module MailLines {
  import opened Text
  import opened Escaping
  import opened Links
  import opened Inline
  import opened Renderer
  import opened MailScan
  import opened MailMarkup
  import opened MailPasses
  import opened MailTargets
  import opened Literals
  import opened MailTexts

  /**
   What can be seen in a line: it holds no image, and no name of a mail address
   holds a parenthesis; or it holds no mail address, backticks left aside.
   */
  ghost predicate KeepsMail(line: string) {
    (Free(false, line, "![") && PlainNames(line)) || NoMail(line)
  }

  // ----- escaping

  lemma {:induction false} EscapeJoin(a: string, b: string)
    ensures EscapeHtml(a + b) == EscapeHtml(a) + EscapeHtml(b)
    decreases |a|
  {
    if a == "" {
      assert a + b == b;
    } else {
      assert (a + b)[1..] == a[1..] + b;
      EscapeJoin(a[1..], b);
    }
  }

  lemma EscapeCons(s: string)
    requires s != ""
    ensures EscapeHtml(s) == Entity(s[0]) + EscapeHtml(s[1..]) && EscapeHtml(s) != ""
    ensures EscapeHtml(s)[0] != '&' ==> Entity(s[0]) == [s[0]]
  {
    assert EscapeHtml(s)[0] == Entity(s[0])[0];
  }

  /** Escaped text without an ampersand at its front is the text itself. */
  lemma {:induction false} FrontSame(s: string, n: nat)
    requires n <= |EscapeHtml(s)| && forall k :: 0 <= k < n ==> EscapeHtml(s)[k] != '&'
    ensures n <= |s| && EscapeHtml(s)[n..] == EscapeHtml(s[n..])
    ensures forall k :: 0 <= k < n ==> EscapeHtml(s)[k] == s[k]
    decreases |s|
  {
    var e := EscapeHtml(s);
    if n == 0 {
      assert s[0..] == s && e[0..] == e;
    } else {
      hide EscapeHtml, Entity;
      EscapeEmpty();
      EscapeCons(s);
      var tail, rest := s[1..], EscapeHtml(s[1..]);
      assert forall k :: 0 <= k < n - 1 ==> rest[k] == e[k + 1];
      FrontSame(tail, n - 1);
      FrontMoves(s[0], tail, rest, n);
      assert s == [s[0]] + tail && e == [s[0]] + rest;
    }
  }

  lemma FrontMoves(c: char, tail: string, rest: string, n: nat)
    requires 1 <= n <= |rest| + 1 && n <= |tail| + 1 && forall k :: 0 <= k < n - 1 ==> rest[k] == tail[k]
    ensures ([c] + rest)[n..] == rest[n - 1..] && ([c] + tail)[n..] == tail[n - 1..]
    ensures forall k :: 0 <= k < n ==> ([c] + rest)[k] == ([c] + tail)[k]
  {
  }

  lemma EscapeEmpty()
    ensures EscapeHtml("") == ""
  {
  }

  predicate IsLiteral(lit: string) { lit == "![" || lit == MAIL }

  lemma FoundAt(fold: bool, s: string, p: nat, lit: string, k: nat)
    requires Found(fold, s, p, lit) && k < |lit|
    ensures p + |lit| <= |s| && Folded(fold, s[p + k]) == lit[k]
  {
    assert Folded(fold, s[p + k]) == lit[p + k - p];
  }

  lemma FoundBehind(fold: bool, a: string, b: string, p: nat, lit: string)
    ensures Found(fold, a + b, |a| + p, lit) <==> Found(fold, b, p, lit)
  {
    var n, s := |lit|, a + b;
    if Found(fold, s, |a| + p, lit) {
      forall k | p <= k < p + n ensures Folded(fold, b[k]) == lit[k - p] {
        FoundAt(fold, s, |a| + p, lit, k - p);
        assert s[|a| + p + (k - p)] == b[k];
      }
    }
    if Found(fold, b, p, lit) {
      forall k | |a| + p <= k < |a| + p + n ensures Folded(fold, s[k]) == lit[k - (|a| + p)] {
        FoundAt(fold, b, p, lit, k - (|a| + p));
        assert s[k] == b[k - |a|];
      }
    }
  }

  /** No literal begins in an entity. */
  lemma NotInEntity(fold: bool, c: char, rest: string, p: nat, lit: string)
    requires IsLiteral(lit) && Entity(c) != [c] && p < |Entity(c)|
    ensures !Found(fold, Entity(c) + rest, p, lit)
  {
    var w := Entity(c);
    var s := w + rest;
    assert s[p] == w[p] && (p + 1 < |w| ==> s[p + 1] == w[p + 1]);
    if Found(fold, s, p, lit) {
      FoundAt(fold, s, p, lit, 0);
      FoundAt(fold, s, p, lit, 1);
    }
  }

  lemma FoundInFront(fold: bool, s: string, lit: string)
    requires IsLiteral(lit) && Found(fold, EscapeHtml(s), 0, lit)
    ensures Found(fold, s, 0, lit) && EscapeHtml(s)[|lit|..] == EscapeHtml(s[|lit|..])
  {
    var e, n := EscapeHtml(s), |lit|;
    forall k | 0 <= k < n ensures Folded(fold, e[k]) == lit[k] && e[k] != '&' {
      FoundAt(fold, e, 0, lit, k);
    }
    FrontSame(s, n);
    forall k | 0 <= k < n ensures Folded(fold, s[k]) == lit[k - 0] {
      assert s[k] == e[k];
    }
  }

  /** A literal in the escaped text stands in the text, and what follows it there follows it here. */
  lemma {:induction false} FoundUnescaped(fold: bool, s: string, p: nat, lit: string) returns (q: nat)
    requires IsLiteral(lit) && Found(fold, EscapeHtml(s), p, lit)
    ensures Found(fold, s, q, lit) && p + |lit| <= |EscapeHtml(s)| && q + |lit| <= |s|
    ensures EscapeHtml(s)[p + |lit|..] == EscapeHtml(s[q + |lit|..])
    decreases |s|
  {
    hide Found, IsLiteral, Entity, EscapeHtml;
    LiteralLength(lit);
    FoundAt(fold, EscapeHtml(s), p, lit, 0);
    EscapeEmpty();
    EscapeCons(s);
    var w, rest := Entity(s[0]), EscapeHtml(s[1..]);
    if p >= |w| {
      FoundBehind(fold, w, rest, p - |w|, lit);
      var m := FoundUnescaped(fold, s[1..], p - |w|, lit);
      FoundBehind(fold, [s[0]], s[1..], m, lit);
      assert s == [s[0]] + s[1..];
      q := m + 1;
      assert s[1..][m + |lit|..] == s[q + |lit|..];
      assert (w + rest)[p + |lit|..] == rest[p - |w| + |lit|..];
    } else {
      if w != [s[0]] {
        NotInEntity(fold, s[0], rest, p, lit);
      }
      q := 0;
      FoundInFront(fold, s, lit);
      FoundAt(fold, s, 0, lit, 0);
    }
  }

  lemma LiteralLength(lit: string)
    requires IsLiteral(lit)
    ensures |lit| >= 2
  {
  }

  lemma EscapedFree(fold: bool, s: string, lit: string)
    requires IsLiteral(lit) && Free(fold, s, lit)
    ensures Free(fold, EscapeHtml(s), lit)
  {
    forall p: nat ensures !Found(fold, EscapeHtml(s), p, lit) {
      if Found(fold, EscapeHtml(s), p, lit) {
        var q := FoundUnescaped(fold, s, p, lit);
      }
    }
  }

  lemma PlainJoin(w: string, rest: string)
    requires PlainName(rest) && Lacks(w, '(')
    ensures PlainName(w + rest)
  {
    var s := w + rest;
    forall k: nat | k < |s| && AllIn(s, 0, k, MailName) ensures s[k] != '(' {
      if k < |w| {
        assert s[k] == w[k];
      } else {
        assert forall x :: 0 <= x < k - |w| ==> rest[x] == s[x + |w|] && In(s[x + |w|], MailName);
        assert s[k] == rest[k - |w|];
      }
    }
  }

  lemma PlainTail(s: string)
    requires PlainName(s) && s != "" && In(s[0], MailName)
    ensures PlainName(s[1..])
  {
    var t := s[1..];
    forall k: nat | k < |t| && AllIn(t, 0, k, MailName) ensures t[k] != '(' {
      assert forall x :: 1 <= x < k + 1 ==> s[x] == t[x - 1] && In(t[x - 1], MailName);
      assert AllIn(s, 0, k + 1, MailName) && s[k + 1] == t[k];
    }
  }

  /** No entity holds a parenthesis, and none ends a name. */
  lemma {:induction false} PlainNameEscaped(s: string)
    requires PlainName(s)
    ensures PlainName(EscapeHtml(s))
  {
    if s != "" {
      assert AllIn(s, 0, 0, MailName);
      EscapeCons(s);
      if In(s[0], MailName) {
        PlainTail(s);
        PlainNameEscaped(s[1..]);
        PlainJoin(Entity(s[0]), EscapeHtml(s[1..]));
      } else {
        NoName(EscapeHtml(s));
      }
    }
  }

  lemma NoName(s: string)
    requires s != "" && !In(s[0], MailName)
    ensures PlainName(s)
  {
  }

  lemma MailFoundAt(s: string, p: nat)
    ensures HasFold(s, p, MAIL) <==> Found(true, s, p, MAIL)
  {
    if HasFold(s, p, MAIL) {
      forall k | p <= k < p + 7 ensures Folded(true, s[k]) == MAIL[k - p] {
        assert LowerAscii(s[p + (k - p)]) == MAIL[k - p];
      }
    }
    if Found(true, s, p, MAIL) {
      forall k | 0 <= k < 7 ensures LowerAscii(s[p + k]) == MAIL[k] {
        FoundAt(true, s, p, MAIL, k);
      }
    }
  }

  lemma PlainNamesEscaped(s: string)
    requires PlainNames(s)
    ensures PlainNames(EscapeHtml(s))
  {
    hide EscapeHtml, HasFold, PlainName;
    var e := EscapeHtml(s);
    forall p: nat | HasFold(e, p, MAIL) ensures p + 7 <= |e| && PlainName(e[p + 7..]) {
      MailFoundAt(e, p);
      var q := FoundUnescaped(true, s, p, MAIL);
      MailFoundAt(s, q);
      PlainNameEscaped(s[q + 7..]);
    }
  }

  lemma {:induction false} TicksEscaped(s: string)
    ensures WithoutTicks(EscapeHtml(s)) == EscapeHtml(WithoutTicks(s))
  {
    TicksOf("");
    if s != "" {
      hide WithoutTicks, EscapeHtml, Entity;
      EscapeCons(s);
      TicksOf(s);
      TicksEscaped(s[1..]);
      TicksJoin(Entity(s[0]), EscapeHtml(s[1..]));
      EscapeJoin(if s[0] == '`' then "" else [s[0]], WithoutTicks(s[1..]));
      TicksOfEntity(s[0]);
    }
  }

  lemma TicksOfEntity(c: char)
    ensures WithoutTicks(Entity(c)) == EscapeHtml(if c == '`' then "" else [c])
  {
    EscapeEmpty();
    if c == '`' {
      assert Entity(c)[1..] == "";
    } else {
      NoTicks(Entity(c));
      EscapeCons([c]);
      assert [c][1..] == "";
    }
  }

  lemma TicksOf(s: string)
    ensures WithoutTicks(s) == if s == "" then "" else (if s[0] == '`' then "" else [s[0]]) + WithoutTicks(s[1..])
  {
  }

  lemma KeepsMailEscaped(s: string)
    requires KeepsMail(s)
    ensures KeepsMail(EscapeHtml(s))
  {
    hide EscapeHtml, Free;
    if NoMail(s) {
      TicksEscaped(s);
      EscapedFree(true, WithoutTicks(s), MAIL);
    } else {
      EscapedFree(false, s, "![");
      PlainNamesEscaped(s);
    }
  }

  /** What holds of a line holds of each stretch of it. */
  lemma KeepsMailSlice(s: string, a: nat, b: nat)
    requires KeepsMail(s) && a <= b <= |s|
    ensures KeepsMail(s[a..b])
  {
    hide Free;
    if NoMail(s) {
      var w := WithoutTicks(s[a..b]);
      TicksJoin(s[..a] + s[a..b], s[b..]);
      TicksJoin(s[..a], s[a..b]);
      assert s[..a] + s[a..b] + s[b..] == s;
      var x := |WithoutTicks(s[..a])|;
      FreeSlice(true, WithoutTicks(s), x, x + |w|, MAIL);
      assert WithoutTicks(s)[x..x + |w|] == w;
    } else {
      FreeSlice(false, s, a, b, "![");
      PlainNamesSlice(s, a, b);
    }
  }

  lemma PlainNamesSlice(s: string, a: nat, b: nat)
    requires PlainNames(s) && a <= b <= |s|
    ensures PlainNames(s[a..b])
  {
    var t := s[a..b];
    forall p: nat | HasFold(t, p, MAIL) ensures PlainName(t[p + 7..]) {
      forall x | 0 <= x < 7 ensures LowerAscii(s[a + p + x]) == MAIL[x] {
        assert t[p + x] == s[a + p + x];
      }
      assert HasFold(s, a + p, MAIL);
      PlainPrefix(s[a + p + 7..], |t| - (p + 7));
      assert t[p + 7..] == s[a + p + 7..][..|t| - (p + 7)];
    }
  }

  lemma PlainPrefix(s: string, n: nat)
    requires PlainName(s) && n <= |s|
    ensures PlainName(s[..n])
  {
    var t := s[..n];
    forall k: nat | k < |t| && AllIn(t, 0, k, MailName) ensures t[k] != '(' {
      assert forall x :: 0 <= x < k ==> s[x] == t[x] && In(t[x], MailName);
      assert AllIn(s, 0, k, MailName);
    }
  }

  // ----- lines

  /** A line that keeps its mail addresses is compiled with all of them whole. */
  lemma LineKept(raw: string, options: Options)
    requires Lacks(raw, NUL) && KeepsMail(raw)
    ensures Run(false, START, LineHtml(raw, options)).Matching?
  {
    hide LineUncut, InlineHtml, AllNamed, Run, NoMail, PlainNames, Free;
    EscapedLine(raw);
    KeepsMailEscaped(raw);
    var escaped := EscapeHtml(raw);
    if NoMail(escaped) {
      UncutWithoutMail(escaped, options);
    } else {
      UncutWithoutImages(escaped, options);
    }
    LineNamed(escaped, options);
    ScanDecides(false, InlineHtml(escaped, options));
  }
}
