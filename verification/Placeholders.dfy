/**
 Code spans are lifted out of a line and stand in it as NUL k NUL until the end.
 A text is disciplined when NUL occurs in it only as such a placeholder and
 every index names a span.
 */
module Placeholders {
  import opened Text

  /** The closing NUL of the placeholder that `s` begins with. */
  function RefAt(s: string): (r: Option<nat>)
    ensures r.Some? ==> 1 < r.value < |s| && s[0] == NUL && AllIn(s, 1, r.value, Digit) && s[r.value] == NUL
  {
    if s == "" || s[0] != NUL then None
    else
      var e := RunEnd(s, 1, Digit);
      if 1 < e < |s| && s[e] == NUL then Some(e) else None
  }

  function RefIndex(s: string): nat
    requires RefAt(s).Some?
  {
    var e := RefAt(s).value;
    assert forall k :: 0 <= k < e - 1 ==> s[1..e][k] == s[k + 1] && In(s[k + 1], Digit);
    Value(s[1..e])
  }

  /** A text read symbol by symbol: a character, or a whole placeholder. */
  datatype Symbol = Glyph(c: char) | Ref(index: nat)

  function Symbols(s: string): seq<Symbol> {
    if s == "" then []
    else if RefAt(s).Some? then [Ref(RefIndex(s))] + Symbols(s[RefAt(s).value + 1..])
    else [Glyph(s[0])] + Symbols(s[1..])
  }

  predicate IsSound(symbol: Symbol, n: nat) {
    match symbol
    case Glyph(c) => c != NUL
    case Ref(k) => k < n
  }

  /** NUL occurs only in placeholders, and every placeholder names one of `n` spans. */
  predicate Disciplined(s: string, n: nat) {
    forall symbol <- Symbols(s) :: IsSound(symbol, n)
  }

  function RefsOf(symbols: seq<Symbol>): seq<nat> {
    if symbols == [] then []
    else (if symbols[0].Ref? then [symbols[0].index] else []) + RefsOf(symbols[1..])
  }

  /** The placeholder indices of a text, in order. */
  function Refs(s: string): seq<nat> { RefsOf(Symbols(s)) }

  function FillSymbols(symbols: seq<Symbol>, values: seq<string>): string
    requires forall symbol <- symbols :: IsSound(symbol, |values|)
  {
    if symbols == [] then ""
    else
      (if symbols[0].Glyph? then [symbols[0].c] else assert IsSound(symbols[0], |values|); values[symbols[0].index])
      + FillSymbols(symbols[1..], values)
  }

  /** Every placeholder replaced by the value it names; defined for every disciplined text. */
  function Fill(s: string, values: seq<string>): string
    requires Disciplined(s, |values|)
  {
    FillSymbols(Symbols(s), values)
  }

  // ----- concatenation

  lemma RefAtPrefix(a: string, b: string)
    requires RefAt(a).Some?
    ensures RefAt(a + b) == RefAt(a) && RefIndex(a + b) == RefIndex(a)
  {
    var e := RefAt(a).value;
    assert (a + b)[e] == a[e];
    RunSame(a, a + b, 1, e, Digit);
    assert (a + b)[1..e] == a[1..e];
  }

  lemma {:induction false} RunSame(s: string, t: string, i: nat, e: nat, cl: CharClass)
    requires i <= e < |s| && e < |t| && s[i..e + 1] == t[i..e + 1]
    requires RunEnd(s, i, cl) == e
    ensures RunEnd(t, i, cl) == e
    decreases e - i
  {
    assert s[i] == s[i..e + 1][0] == t[i];
    if i < e {
      assert s[i + 1..e + 1] == s[i..e + 1][1..];
      assert t[i + 1..e + 1] == t[i..e + 1][1..];
      RunSame(s, t, i + 1, e, cl);
    }
  }

  lemma SymbolsAfterRef(ref: string, rest: string)
    requires RefAt(ref) == Some(|ref| - 1)
    ensures Symbols(ref + rest) == [Ref(RefIndex(ref))] + Symbols(rest)
  {
    RefAtPrefix(ref, rest);
    assert (ref + rest)[|ref|..] == rest;
  }

  lemma SymbolsAfterChar(c: char, rest: string)
    requires c != NUL
    ensures Symbols([c] + rest) == [Glyph(c)] + Symbols(rest)
  {
    assert ([c] + rest)[0] == c && ([c] + rest)[1..] == rest;
  }

  /** The leading symbol of a disciplined text, the characters it takes, and what follows. */
  function HeadEnd(s: string): (e: nat)
    requires s != ""
    ensures 0 < e <= |s|
  {
    if RefAt(s).Some? then RefAt(s).value + 1 else 1
  }

  function Head(s: string): Symbol
    requires s != ""
  {
    if RefAt(s).Some? then Ref(RefIndex(s)) else Glyph(s[0])
  }

  /** The characters of a leading symbol read as that symbol whatever follows them. */
  lemma HeadStays(s: string, rest: string, n: nat)
    requires s != "" && IsSound(Head(s), n)
    ensures Symbols(s[..HeadEnd(s)] + rest) == [Head(s)] + Symbols(rest)
  {
    if RefAt(s).Some? {
      var e := RefAt(s).value;
      var ref := s[..e + 1];
      assert ref[e] == s[e] && ref[1..e + 1] == s[1..e + 1] && ref[1..e] == s[1..e];
      RunSame(s, ref, 1, e, Digit);
      SymbolsAfterRef(ref, rest);
    } else {
      assert s[..1] == [s[0]];
      SymbolsAfterChar(s[0], rest);
    }
  }

  lemma SymbolsUnfold(s: string, n: nat)
    requires s != "" && Disciplined(s, n)
    ensures Symbols(s) == [Head(s)] + Symbols(s[HeadEnd(s)..])
    ensures IsSound(Head(s), n) && Disciplined(s[HeadEnd(s)..], n)
  {
    assert Head(s) in Symbols(s);
    assert Symbols(s)[1..] == Symbols(s[HeadEnd(s)..]);
  }

  /** Reading symbol by symbol commutes with concatenation behind a disciplined text. */
  lemma {:induction false} SymbolsJoin(a: string, b: string, n: nat)
    requires Disciplined(a, n)
    ensures Symbols(a + b) == Symbols(a) + Symbols(b)
  {
    if a == "" {
      assert a + b == b;
    } else {
      SymbolsUnfold(a, n);
      var head, rest := a[..HeadEnd(a)], a[HeadEnd(a)..];
      SymbolsJoin(rest, b, n);
      HeadStays(a, rest + b, n);
      Regroup(head, rest, b);
      assert head + rest == a;
      Regroup([Head(a)], Symbols(rest), Symbols(b));
    }
  }

  lemma {:induction false} RefsOfJoin(x: seq<Symbol>, y: seq<Symbol>)
    ensures RefsOf(x + y) == RefsOf(x) + RefsOf(y)
  {
    if x == [] {
      assert x + y == y;
    } else {
      assert (x + y)[1..] == x[1..] + y;
      RefsOfJoin(x[1..], y);
      Regroup(if x[0].Ref? then [x[0].index] else [], RefsOf(x[1..]), RefsOf(y));
    }
  }

  lemma {:induction false} FillSymbolsJoin(x: seq<Symbol>, y: seq<Symbol>, values: seq<string>)
    requires forall symbol <- x + y :: IsSound(symbol, |values|)
    ensures forall symbol <- x :: IsSound(symbol, |values|)
    ensures forall symbol <- y :: IsSound(symbol, |values|)
    ensures FillSymbols(x + y, values) == FillSymbols(x, values) + FillSymbols(y, values)
  {
    assert forall symbol <- x :: symbol in x + y;
    assert forall symbol <- y :: symbol in x + y;
    if x == [] {
      assert x + y == y;
    } else {
      assert (x + y)[1..] == x[1..] + y;
      FillSymbolsJoin(x[1..], y, values);
    }
  }

  lemma DisciplinedJoin(a: string, b: string, n: nat)
    requires Disciplined(a, n) && Disciplined(b, n)
    ensures Disciplined(a + b, n) && Refs(a + b) == Refs(a) + Refs(b)
  {
    SymbolsJoin(a, b, n);
    RefsOfJoin(Symbols(a), Symbols(b));
  }

  lemma FillJoin(a: string, b: string, values: seq<string>)
    requires Disciplined(a, |values|) && Disciplined(b, |values|)
    ensures Disciplined(a + b, |values|)
    ensures Fill(a + b, values) == Fill(a, values) + Fill(b, values)
  {
    SymbolsJoin(a, b, |values|);
    FillSymbolsJoin(Symbols(a), Symbols(b), values);
  }

  // ----- slices

  predicate InsideRef(c: char) { c == NUL || IsDigit(c) }

  /** A cut that has a character foreign to placeholders on one of its sides. */
  predicate CleanCut(s: string, b: nat) {
    b <= |s| && (0 < b < |s| ==> !InsideRef(s[b - 1]) || !InsideRef(s[b]))
  }

  /** No clean cut goes through a placeholder. */
  lemma {:induction false} SymbolsSplit(s: string, b: nat, n: nat)
    requires Disciplined(s, n) && CleanCut(s, b)
    ensures Symbols(s) == Symbols(s[..b]) + Symbols(s[b..])
    decreases |s|
  {
    if b == 0 {
      assert s[..0] == "" && s[0..] == s;
    } else if b == |s| {
      assert s[..b] == s && s[b..] == "";
    } else {
      var e := HeadEnd(s);
      HeadBeforeCut(s, b);
      var rest := s[e..];
      SymbolsUnfold(s, n);
      assert CleanCut(rest, b - e);
      SymbolsSplit(rest, b - e, n);
      assert rest[..b - e] == s[e..b] && rest[b - e..] == s[b..];
      HeadStays(s, s[e..b], n);
      assert s[..b] == s[..e] + s[e..b];
      Regroup([Head(s)], Symbols(s[e..b]), Symbols(s[b..]));
    }
  }

  lemma HeadBeforeCut(s: string, b: nat)
    requires 0 < b < |s| && CleanCut(s, b)
    ensures HeadEnd(s) <= b
  {
    if RefAt(s).Some? {
      var e := RefAt(s).value;
      assert forall k :: 1 <= k < e ==> In(s[k], Digit);
      assert forall k :: 0 <= k <= e ==> InsideRef(s[k]);
    }
  }

  lemma DisciplinedSplit(s: string, b: nat, n: nat)
    requires Disciplined(s, n) && CleanCut(s, b)
    ensures Disciplined(s[..b], n) && Disciplined(s[b..], n)
    ensures Refs(s) == Refs(s[..b]) + Refs(s[b..])
  {
    SymbolsSplit(s, b, n);
    RefsOfJoin(Symbols(s[..b]), Symbols(s[b..]));
    assert forall symbol <- Symbols(s[..b]) :: symbol in Symbols(s);
    assert forall symbol <- Symbols(s[b..]) :: symbol in Symbols(s);
  }

  lemma DisciplinedSlice(s: string, a: nat, b: nat, n: nat)
    requires Disciplined(s, n) && a <= b && CleanCut(s, a) && CleanCut(s, b)
    ensures Disciplined(s[a..b], n)
  {
    hide Symbols, Refs;
    DisciplinedSplit(s, b, n);
    assert CleanCut(s[..b], a);
    DisciplinedSplit(s[..b], a, n);
    assert s[..b][a..] == s[a..b];
  }

  /** Text without NUL holds no placeholder. */
  lemma {:induction false} PlainText(s: string, values: seq<string>)
    requires Lacks(s, NUL)
    ensures Disciplined(s, |values|) && Refs(s) == [] && Fill(s, values) == s
  {
    if s != "" {
      assert s[0] != NUL && RefAt(s).None?;
      PlainText(s[1..], values);
      assert Symbols(s)[1..] == Symbols(s[1..]);
    }
  }

  lemma PlainRefs(s: string, n: nat)
    requires Lacks(s, NUL)
    ensures Disciplined(s, n) && Refs(s) == []
  {
    PlainText(s, seq(n, k => ""));
  }

  /** Text without NUL around a text changes neither its discipline nor its placeholders. */
  lemma Wrapped(before: string, body: string, after: string, n: nat)
    requires Lacks(before, NUL) && Lacks(after, NUL) && Disciplined(body, n)
    ensures Disciplined(before + body + after, n) && Refs(before + body + after) == Refs(body)
  {
    hide Disciplined, Refs;
    PlainRefs(before, n);
    PlainRefs(after, n);
    DisciplinedJoin(before, body, n);
    DisciplinedJoin(before + body, after, n);
  }

  /** Characters other than NUL can be cut off the front of any disciplined text. */
  lemma {:induction false} PlainPrefix(s: string, m: nat, n: nat)
    requires m <= |s| && Lacks(s[..m], NUL) && Disciplined(s, n)
    ensures Disciplined(s[m..], n) && Refs(s) == Refs(s[m..])
  {
    if m == 0 {
      assert s[0..] == s;
    } else {
      assert s[..m][0] == s[0];
      assert Symbols(s)[1..] == Symbols(s[1..]);
      assert s[1..][..m - 1] == s[..m][1..] && s[1..][m - 1..] == s[m..];
      assert forall k :: 0 <= k < m - 1 ==> s[..m][1..][k] == s[..m][k + 1];
      PlainPrefix(s[1..], m - 1, n);
    }
  }

  /** One placeholder, as the lifting step writes it. */
  function Placeholder(k: nat): string { [NUL] + Decimal(k) + [NUL] }

  lemma PlaceholderRef(k: nat, rest: string)
    ensures RefAt(Placeholder(k) + rest) == Some(|Decimal(k)| + 1)
    ensures RefIndex(Placeholder(k) + rest) == k
    ensures (Placeholder(k) + rest)[|Decimal(k)| + 2..] == rest
  {
    var d := Decimal(k);
    var s := Placeholder(k) + rest;
    var e := |d| + 1;
    assert s[0] == NUL && s[e] == NUL;
    assert s[1..e] == d;
    forall j | 1 <= j < e ensures In(s[j], Digit) {
      assert s[j] == d[j - 1];
    }
    RunEndsAt(s, 1, e, Digit);
    ValueOfDecimal(k);
  }

  ghost predicate NoGlyph(symbols: seq<Symbol>, c: char) {
    forall symbol <- symbols :: symbol != Glyph(c)
  }

  lemma {:induction false} SymbolsLack(s: string, c: char)
    requires Lacks(s, c)
    ensures NoGlyph(Symbols(s), c)
  {
    if s != "" {
      SymbolsLack(s[HeadEnd(s)..], c);
      assert Symbols(s) == [Head(s)] + Symbols(s[HeadEnd(s)..]);
      assert s[0] != c;
    }
  }

  /** Filling in values adds no character that neither the text nor the values hold. */
  lemma {:induction false} FillLacks(symbols: seq<Symbol>, values: seq<string>, c: char)
    requires forall symbol <- symbols :: IsSound(symbol, |values|)
    requires NoGlyph(symbols, c)
    requires forall k :: 0 <= k < |values| ==> Lacks(values[k], c)
    ensures Lacks(FillSymbols(symbols, values), c)
  {
    if symbols != [] {
      assert symbols[0] in symbols;
      assert forall symbol <- symbols[1..] :: symbol in symbols;
      assert IsSound(symbols[0], |values|) && symbols[0] != Glyph(c);
      FillLacks(symbols[1..], values, c);
    }
  }

  lemma FillLacksNul(s: string, values: seq<string>)
    requires Disciplined(s, |values|)
    requires forall k :: 0 <= k < |values| ==> Lacks(values[k], NUL)
    ensures Lacks(Fill(s, values), NUL)
  {
    assert forall symbol <- Symbols(s) :: IsSound(symbol, |values|);
    FillLacks(Symbols(s), values, NUL);
  }
}
