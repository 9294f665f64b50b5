/**
 A `mailto:` target needs a name and an `@`. A text in which every
 `<a href="mailto:` is followed by both is told here by a scan that goes over
 the text once, because a scan, unlike the property, can be followed through a
 rewrite: the state before a match and the state behind it are all that counts.
 In a strict scan a name must not hold an opening parenthesis either.
 */
module MailScan {
  import opened Text
  import opened Links

  const MAIL := "mailto:"

  predicate IsNameChar(strict: bool, c: char) {
    In(c, MailName) && c != NUL && (strict ==> c != '(')
  }

  // ----- the property

  /** A link to a mail address begins at `i`; its name begins at i + 16. */
  predicate MailAt(s: string, i: nat) { Has(s, i, ANCHOR_TAG) && HasFold(s, i + 9, MAIL) }

  ghost predicate NameUpTo(strict: bool, s: string, i: nat, b: nat) {
    i + 16 <= b <= |s| && forall k :: i + 16 <= k < b ==> IsNameChar(strict, s[k])
  }

  /** Position `b` lies in the name of a mail address, behind its first characters. */
  ghost predicate InName(strict: bool, s: string, b: nat) {
    exists i: nat :: MailAt(s, i) && NameUpTo(strict, s, i, b)
  }

  ghost predicate NamedBefore(strict: bool, s: string, i: nat, b: nat) {
    exists e: nat :: i + 16 < e < b <= |s| && s[e] == '@' && NameUpTo(strict, s, i, e)
  }

  /** Every link to a mail address has a name and an `@` behind it. */
  ghost predicate AllNamed(strict: bool, s: string) {
    forall i: nat :: MailAt(s, i) ==> NamedBefore(strict, s, i, |s|)
  }

  // ----- the scan

  /** The first k characters of `<a href="mailto:` were read, a name is being read, or no `@` can follow. */
  datatype State = Matching(k: nat) | Name(started: bool) | Broken | Torn

  const START := Matching(0)

  predicate Fits(k: nat, c: char) {
    if k < 9 then c == ANCHOR_TAG[k] else k < 16 && LowerAscii(c) == MAIL[k - 9]
  }

  /** A name ends at its `@`; a space breaks it, and a placeholder tears it. */
  function Step(strict: bool, q: State, c: char): State {
    match q
    case Matching(k) =>
      if !Fits(k, c) then Matching(if c == '<' then 1 else 0)
      else if k == 15 then Name(false) else Matching(k + 1)
    case Name(started) =>
      if IsNameChar(strict, c) then Name(true)
      else if c == '@' && started then START
      else if c == NUL then Torn else Broken
    case _ => q
  }

  function Run(strict: bool, q: State, s: string): State
    decreases |s|
  {
    if s == "" then q else Run(strict, Step(strict, q, s[0]), s[1..])
  }

  lemma {:induction false} RunJoin(strict: bool, q: State, a: string, b: string)
    ensures Run(strict, q, a + b) == Run(strict, Run(strict, q, a), b)
    decreases |a|
  {
    if a == "" {
      assert a + b == b;
    } else {
      assert (a + b)[1..] == a[1..] + b;
      RunJoin(strict, Step(strict, q, a[0]), a[1..], b);
    }
  }

  /** The state in front of position `b`. */
  function StateAt(strict: bool, s: string, b: nat): State
    requires b <= |s|
  {
    Run(strict, START, s[..b])
  }

  lemma StateMoves(strict: bool, s: string, a: nat, b: nat)
    requires a <= b <= |s|
    ensures StateAt(strict, s, b) == Run(strict, StateAt(strict, s, a), s[a..b])
  {
    RunJoin(strict, START, s[..a], s[a..b]);
    assert s[..a] + s[a..b] == s[..b];
  }

  lemma StateStep(strict: bool, s: string, b: nat)
    requires b < |s|
    ensures StateAt(strict, s, b + 1) == Step(strict, StateAt(strict, s, b), s[b])
  {
    StateMoves(strict, s, b, b + 1);
    assert s[b..b + 1] == [s[b]] && s[b..b + 1][1..] == "";
  }

  // ----- what the states mean

  /** A name was left at `e` by a character that is neither of the name nor its `@`. */
  ghost predicate LeftAt(strict: bool, s: string, i: nat, e: nat) {
    && MailAt(s, i) && NameUpTo(strict, s, i, e) && e < |s|
    && !IsNameChar(strict, s[e]) && (s[e] == '@' ==> e == i + 16)
  }

  /** The first n characters of `<a href="mailto:` stand at `i`. */
  ghost predicate Begun(s: string, i: nat, n: nat) {
    i + n <= |s| && forall p :: i <= p < i + n ==> Fits(p - i, s[p])
  }

  /** All mail addresses before `b` have their `@`, but for one that begins at `own` or is not recognised yet. */
  ghost predicate OthersNamed(strict: bool, s: string, b: nat, own: int, late: nat) {
    forall i: nat :: MailAt(s, i) && i + late < b ==> i == own || NamedBefore(strict, s, i, b)
  }

  ghost predicate Means(strict: bool, s: string, b: nat, q: State) {
    b <= |s| &&
    match q
    case Matching(k) => k < 16 && k <= b && Begun(s, b - k, k) && OthersNamed(strict, s, b, b - k, 0)
    case Name(started) =>
      exists i: nat :: MailAt(s, i) && NameUpTo(strict, s, i, b) && (started <==> i + 16 < b) && OthersNamed(strict, s, b, i, 2)
    case Broken => exists i: nat, e: nat :: LeftAt(strict, s, i, e) && s[e] != NUL
    case Torn => exists i: nat, e: nat :: LeftAt(strict, s, i, e) && s[e] == NUL
  }

  lemma MailBegun(s: string, i: nat)
    ensures MailAt(s, i) <==> Begun(s, i, 16)
  {
    if i + 9 <= |s| {
      var w := s[i..i + 9];
      assert forall j :: 0 <= j < 9 ==> w[j] == s[i + j];
    }
    if MailAt(s, i) {
      forall p | i <= p < i + 16 ensures Fits(p - i, s[p]) {
        assert p - i >= 9 ==> LowerAscii(s[i + 9 + (p - i - 9)]) == MAIL[p - i - 9];
      }
    }
    if Begun(s, i, 16) {
      forall j | 0 <= j < 9 ensures s[i..i + 9][j] == ANCHOR_TAG[j] {
        assert Fits(i + j - i, s[i + j]);
      }
      forall k | 0 <= k < 7 ensures LowerAscii(s[i + 9 + k]) == MAIL[k] {
        assert Fits(i + 9 + k - i, s[i + 9 + k]);
      }
    }
  }

  lemma MailStart(s: string, i: nat)
    requires MailAt(s, i)
    ensures i + 16 <= |s| && s[i] == '<' && s[i + 1] == 'a' && s[i + 2] == ' '
  {
    MailBegun(s, i);
    assert Fits(i - i, s[i]) && Fits(i + 1 - i, s[i + 1]) && Fits(i + 2 - i, s[i + 2]);
  }

  lemma NamedLater(strict: bool, s: string, b: nat, own: int, late: nat)
    requires OthersNamed(strict, s, b, own, late) && b < |s|
    ensures forall i: nat :: MailAt(s, i) && i + late < b ==> i == own || NamedBefore(strict, s, i, b + 1)
  {
    forall i: nat | MailAt(s, i) && i + late < b && i != own ensures NamedBefore(strict, s, i, b + 1) {
      var e: nat :| i + 16 < e < b <= |s| && s[e] == '@' && NameUpTo(strict, s, i, e);
    }
  }

  lemma FittingStep(strict: bool, s: string, b: nat, k: nat)
    requires b < |s| && Means(strict, s, b, Matching(k)) && Fits(k, s[b])
    ensures Means(strict, s, b + 1, Step(strict, Matching(k), s[b]))
  {
    hide Fits, NamedBefore, MailAt;
    NamedLater(strict, s, b, b - k, 0);
    forall i: nat | MailAt(s, i) && i == b ensures k == 0 {
      MailStart(s, i);
      FitsOpener(k, s[b]);
    }
    MailBegun(s, b - k);
    assert Begun(s, b - k, k + 1);
  }

  lemma FitsOpener(k: nat, c: char)
    ensures k < 16 && c == '<' ==> (Fits(k, c) <==> k == 0)
  {
  }

  lemma UnfittingStep(strict: bool, s: string, b: nat, k: nat)
    requires b < |s| && Means(strict, s, b, Matching(k)) && !Fits(k, s[b])
    ensures Means(strict, s, b + 1, Step(strict, Matching(k), s[b]))
  {
    hide NamedBefore, MailAt;
    NamedLater(strict, s, b, b - k, 0);
    MailBegun(s, b - k);
    assert !Begun(s, b - k, 16) by {
      assert b - k + k == b;
    }
    forall i: nat | MailAt(s, i) && i == b ensures s[b] == '<' {
      MailStart(s, i);
    }
  }

  lemma NameStep(strict: bool, s: string, b: nat, started: bool)
    requires b < |s| && Means(strict, s, b, Name(started))
    ensures Means(strict, s, b + 1, Step(strict, Name(started), s[b]))
  {
    hide MailAt;
    var i: nat :| MailAt(s, i) && NameUpTo(strict, s, i, b) && (started <==> i + 16 < b) && OthersNamed(strict, s, b, i, 2);
    NamedLater(strict, s, b, i, 2);
    forall other: nat | MailAt(s, other) && b <= other + 2 && other <= b
      ensures other + 2 == b ==> s[b] == ' '
      ensures other + 1 == b ==> s[b] == 'a'
      ensures other == b ==> s[b] == '<'
    {
      MailStart(s, other);
    }
    if IsNameChar(strict, s[b]) {
      assert NameUpTo(strict, s, i, b + 1);
      assert OthersNamed(strict, s, b + 1, i, 2);
    } else if s[b] == '@' && started {
      assert NamedBefore(strict, s, i, b + 1);
      assert Begun(s, b + 1, 0);
      assert OthersNamed(strict, s, b + 1, b + 1, 0);
    } else {
      assert LeftAt(strict, s, i, b);
    }
  }

  lemma LeftStep(strict: bool, s: string, b: nat, q: State)
    requires b < |s| && Means(strict, s, b, q) && (q.Broken? || q.Torn?)
    ensures Means(strict, s, b + 1, Step(strict, q, s[b]))
  {
  }

  lemma MeansStart(strict: bool, s: string)
    ensures Means(strict, s, 0, START)
  {
  }

  lemma {:induction false} StateMeans(strict: bool, s: string, b: nat)
    requires b <= |s|
    ensures Means(strict, s, b, StateAt(strict, s, b))
  {
    hide Means, Step;
    if b == 0 {
      assert s[..0] == "";
      MeansStart(strict, s);
    } else {
      StateMeans(strict, s, b - 1);
      StateStep(strict, s, b - 1);
      match StateAt(strict, s, b - 1) {
        case Matching(k) =>
          if Fits(k, s[b - 1]) {
            FittingStep(strict, s, b - 1, k);
          } else {
            UnfittingStep(strict, s, b - 1, k);
          }
        case Name(started) => NameStep(strict, s, b - 1, started);
        case q => LeftStep(strict, s, b - 1, q);
      }
    }
  }

  // ----- what the scan decides

  lemma {:induction false} Sticks(strict: bool, q: State, s: string)
    requires q.Broken? || q.Torn?
    ensures Run(strict, q, s) == q
    decreases |s|
  {
    if s != "" {
      Sticks(strict, q, s[1..]);
    }
  }

  /** The scan ends outside of a name exactly when every mail address has a name and an `@`. */
  lemma ScanDecides(strict: bool, s: string)
    ensures AllNamed(strict, s) <==> Run(strict, START, s).Matching?
  {
    hide MailAt;
    StateMeans(strict, s, |s|);
    assert s[..|s|] == s;
    var q := Run(strict, START, s);
    assert Means(strict, s, |s|, q);
    forall i: nat | MailAt(s, i) ensures i + 16 <= |s| {
      MailStart(s, i);
    }
  }

  /** As long as nothing went wrong, a name is being read exactly where a name stands. */
  lemma NameStands(strict: bool, s: string, b: nat)
    requires b <= |s| && (StateAt(strict, s, b).Matching? || StateAt(strict, s, b).Name?)
    ensures InName(strict, s, b) <==> StateAt(strict, s, b).Name?
  {
    hide MailAt;
    StateMeans(strict, s, b);
  }

  /** In a text whose mail addresses all have their `@`, that is everywhere. */
  lemma NameStandsIn(strict: bool, s: string, b: nat)
    requires AllNamed(strict, s) && b <= |s|
    ensures StateAt(strict, s, b).Matching? || StateAt(strict, s, b).Name?
    ensures InName(strict, s, b) <==> StateAt(strict, s, b).Name?
  {
    hide AllNamed, InName, Step;
    ScanDecides(strict, s);
    StateMoves(strict, s, b, |s|);
    assert s[..|s|] == s;
    var q := StateAt(strict, s, b);
    if q.Broken? || q.Torn? {
      Sticks(strict, q, s[b..|s|]);
    }
    NameStands(strict, s, b);
  }

  /** A name is torn where it runs into a placeholder. */
  lemma TornAtNul(strict: bool, s: string)
    requires Run(strict, START, s).Torn?
    ensures exists b: nat :: b < |s| && InName(strict, s, b) && s[b] == NUL
  {
    hide MailAt;
    StateMeans(strict, s, |s|);
    assert s[..|s|] == s;
    assert Means(strict, s, |s|, Run(strict, START, s));
  }
}
