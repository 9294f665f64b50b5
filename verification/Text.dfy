/**
 Strings and the character classes the renderer's patterns are built from
 (ECMA-262, section 22.2: `\s`, `\d`, `\w` and the classes written in brackets).
 */
module Text {

  datatype Option<+T> = None | Some(value: T)

  const NUL: char := '\0'

  /** The bracketed classes used by the patterns of the renderer. */
  datatype CharClass =
    | Space                // \s
    | Digit                // \d
    | Body(mark: char)     // [^`\n], [^*\n], [^~\n]
    | Label                // [^\]\n]
    | Target               // [^)\s]
    | BareTarget           // [^\s<>"']
    | MailName             // [^\s@]
    | Language             // [A-Za-z0-9_+-]
    | Scheme               // the characters of a URL scheme after the first
    | Only(mark: char)     // a run of one character

  predicate IsSpace(c: char) {
    || '\t' <= c <= '\r' || c == ' ' || c == '\U{00A0}' || c == '\U{1680}'
    || '\U{2000}' <= c <= '\U{200A}' || c == '\U{2028}' || c == '\U{2029}'
    || c == '\U{202F}' || c == '\U{205F}' || c == '\U{3000}' || c == '\U{FEFF}'
  }

  predicate IsDigit(c: char) { '0' <= c <= '9' }

  predicate IsAlpha(c: char) { 'a' <= c <= 'z' || 'A' <= c <= 'Z' }

  predicate IsWord(c: char) { IsAlpha(c) || IsDigit(c) || c == '_' }

  /** The line terminators that `.` does not match. */
  predicate IsLineEnd(c: char) { c == '\n' || c == '\r' || c == '\U{2028}' || c == '\U{2029}' }

  predicate In(c: char, cl: CharClass) {
    match cl
    case Space => IsSpace(c)
    case Digit => IsDigit(c)
    case Body(mark) => c != mark && c != '\n'
    case Label => c != ']' && c != '\n'
    case Target => c != ')' && !IsSpace(c)
    case BareTarget => !IsSpace(c) && c != '<' && c != '>' && c != '"' && c != '\''
    case MailName => !IsSpace(c) && c != '@'
    case Language => IsWord(c) || c == '+' || c == '-'
    case Scheme => IsAlpha(c) || IsDigit(c) || c == '+' || c == '-' || c == '.'
    case Only(mark) => c == mark
  }

  /** Every character of s[i..j) is in the class. */
  ghost predicate AllIn(s: string, i: nat, j: nat, cl: CharClass)
    requires i <= j <= |s|
  {
    forall k :: i <= k < j ==> In(s[k], cl)
  }

  /** The end of the longest run of the class that starts at `i`. */
  function RunEnd(s: string, i: nat, cl: CharClass): (j: nat)
    requires i <= |s|
    ensures i <= j <= |s| && AllIn(s, i, j, cl)
    ensures j < |s| ==> !In(s[j], cl)
    decreases |s| - i
  {
    if i < |s| && In(s[i], cl) then RunEnd(s, i + 1, cl) else i
  }

  /** A run has one end. */
  lemma {:induction false} RunEndsAt(s: string, i: nat, j: nat, cl: CharClass)
    requires i <= j <= |s| && AllIn(s, i, j, cl) && (j < |s| ==> !In(s[j], cl))
    ensures RunEnd(s, i, cl) == j
    decreases j - i
  {
    if i < j {
      RunEndsAt(s, i + 1, j, cl);
    }
  }

  /** `lit` stands in `s` at `i`. */
  predicate Has(s: string, i: nat, lit: string) {
    i + |lit| <= |s| && s[i..i + |lit|] == lit
  }

  function LowerAscii(c: char): char {
    if 'A' <= c <= 'Z' then (c as int + 32) as char else c
  }

  /** `lit`, which is lower case, stands in `s` at `i` when ASCII case is ignored. */
  predicate HasFold(s: string, i: nat, lit: string) {
    i + |lit| <= |s| && forall k :: 0 <= k < |lit| ==> LowerAscii(s[i + k]) == lit[k]
  }

  ghost predicate Lacks(s: string, c: char) {
    forall k :: 0 <= k < |s| ==> s[k] != c
  }

  lemma SliceLacks(s: string, a: nat, b: nat, c: char)
    requires a <= b <= |s| && Lacks(s, c)
    ensures Lacks(s[a..b], c)
  {
  }

  lemma SliceOfSlice(s: string, c: nat, d: nat, a: nat, b: nat)
    requires c <= d <= |s| && a <= b <= d - c
    ensures s[c..d][a..b] == s[c + a..c + b]
  {
    assert forall k :: 0 <= k < b - a ==> s[c..d][a..b][k] == s[c..d][a + k] == s[c + a..c + b][k];
  }

  /** The index just past the last non-space character of s[from..]. */
  function TrimEnd(s: string, from: nat, to: nat): (e: nat)
    requires from <= to <= |s|
    ensures from <= e <= to && AllIn(s, e, to, Space)
    ensures from < e ==> !IsSpace(s[e - 1])
  {
    if from < to && IsSpace(s[to - 1]) then TrimEnd(s, from, to - 1) else to
  }

  /** `String.prototype.trim`: no space at either end, and only spaces removed. */
  function Trim(s: string): (t: string)
    ensures t != "" ==> !IsSpace(t[0]) && !IsSpace(t[|t| - 1])
    ensures AllIn(s, 0, |s|, Space) ==> t == ""
    ensures exists a: nat, b: nat :: a <= b <= |s| && t == s[a..b]
              && AllIn(s, 0, a, Space) && AllIn(s, b, |s|, Space)
  {
    var a := RunEnd(s, 0, Space);
    var b := TrimEnd(s, a, |s|);
    s[a..b]
  }

  lemma TrimFixed(s: string)
    requires s != "" && !IsSpace(s[0]) && !IsSpace(s[|s| - 1])
    ensures Trim(s) == s
  {
    assert RunEnd(s, 0, Space) == 0;
    assert TrimEnd(s, 0, |s|) == |s|;
  }

  /** Decimal notation, as a number is written into a template string. */
  function Decimal(n: nat): (d: string)
    ensures |d| > 0 && forall k :: 0 <= k < |d| ==> IsDigit(d[k])
  {
    var last := ('0' as int + n % 10) as char;
    if n < 10 then [last] else Decimal(n / 10) + [last]
  }

  /** `Number` applied to a run of digits. */
  function Value(d: string): nat
    requires forall k :: 0 <= k < |d| ==> IsDigit(d[k])
  {
    if d == "" then 0
    else
      assert IsDigit(d[|d| - 1]);
      10 * Value(d[..|d| - 1]) + (d[|d| - 1] as int - '0' as int)
  }

  lemma DigitsOf(s: string, from: nat, to: nat)
    requires from <= to <= |s| && AllIn(s, from, to, Digit)
    ensures var number := s[from..to]; forall k :: 0 <= k < |number| ==> IsDigit(number[k])
  {
    forall k | 0 <= k < to - from ensures IsDigit(s[from..to][k]) {
      assert In(s[from + k], Digit);
    }
  }

  lemma {:induction false} ValueOfDecimal(n: nat)
    ensures Value(Decimal(n)) == n
  {
    var d := Decimal(n);
    if n < 10 {
      assert d[..0] == "";
      assert Value("") == 0;
    } else {
      assert d[..|d| - 1] == Decimal(n / 10);
      ValueOfDecimal(n / 10);
    }
  }

  lemma Regroup<T>(x: seq<T>, y: seq<T>, z: seq<T>)
    ensures x + (y + z) == (x + y) + z
  {
  }

  /** `parts.join(separator)`. */
  function Join(parts: seq<string>, separator: string): string {
    if |parts| == 0 then ""
    else if |parts| == 1 then parts[0]
    else parts[0] + separator + Join(parts[1..], separator)
  }
}
