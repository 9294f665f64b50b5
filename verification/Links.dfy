/** What may appear in an `href` or a `src`, and the anchor template. */
module Links {
  import opened Text

  /** The prefixes a link may have; `http`, `https` and `mailto` in any case. */
  predicate SafeTarget(s: string, p: nat) {
    || HasFold(s, p, "http://") || HasFold(s, p, "https://") || HasFold(s, p, "mailto:")
    || Has(s, p, "/") || Has(s, p, "#") || Has(s, p, "./") || Has(s, p, "../")
  }

  /** A path on this host: not protocol-relative, and not a scheme. */
  predicate LocalTarget(s: string, p: nat) {
    || (Has(s, p, "/") && !(p + 1 < |s| && s[p + 1] == '/'))
    || Has(s, p, "./") || Has(s, p, "../")
  }

  /** `mailto:` needs a name and an `@` behind it. */
  predicate MailTarget(s: string) {
    && HasFold(s, 0, "mailto:")
    && var at := RunEnd(s, 7, MailName); 7 < at < |s| && s[at] == '@'
  }

  predicate IsAllowed(s: string) {
    || HasFold(s, 0, "http://") || HasFold(s, 0, "https://") || MailTarget(s)
    || Has(s, 0, "/") || Has(s, 0, "#") || Has(s, 0, "./") || Has(s, 0, "../")
  }

  predicate IsControl(c: char) { c <= ' ' || c == '\U{007F}' }

  function SafeHref(url: string): (href: Option<string>) {
    var trimmed := Trim(url);
    if trimmed == "" || exists k :: 0 <= k < |trimmed| && IsControl(trimmed[k]) then None
    else if IsAllowed(trimmed) then Some(trimmed)
    else None
  }

  /** What a caller may rely on when a target is let through. */
  lemma SafeHrefSound(url: string)
    requires SafeHref(url).Some?
    ensures var href := SafeHref(url).value;
            && IsAllowed(href) && SafeTarget(href, 0)
            && Lacks(href, NUL) && Lacks(href, ' ')
            && SafeHref(href) == Some(href)
            && (exists a: nat, b: nat :: a <= b <= |url| && href == url[a..b])
  {
    var href := SafeHref(url).value;
    TrimFixed(href);
    assert forall k :: 0 <= k < |href| ==> !IsControl(href[k]);
  }

  /** `href` is `url` without the spaces around it. */
  ghost predicate IsTrimmed(href: string, url: string) {
    && (exists a: nat, b: nat :: a < b <= |url| && href == url[a..b] && AllIn(url, 0, a, Space) && AllIn(url, b, |url|, Space))
    && href != "" && !IsSpace(href[0]) && !IsSpace(href[|href| - 1])
  }

  /** On the web, a mail address with its name and its `@`, or a path or fragment of this host. */
  ghost predicate AdmittedTarget(href: string) {
    || HasFold(href, 0, "http://") || HasFold(href, 0, "https://")
    || (HasFold(href, 0, "mailto:")
        && exists at: nat :: 7 < at < |href| && href[at] == '@' && forall k :: 7 <= k < at ==> !IsSpace(href[k]) && href[k] != '@')
    || (href != "" && (href[0] == '/' || href[0] == '#'))
    || (|href| > 1 && href[..2] == "./") || (|href| > 2 && href[..3] == "../")
  }

  lemma AdmittedExact(href: string)
    ensures IsAllowed(href) <==> AdmittedTarget(href)
  {
    if HasFold(href, 0, "mailto:") {
      var at := RunEnd(href, 7, MailName);
      assert forall k :: 7 <= k < at ==> In(href[k], MailName);
      if MailTarget(href) {
        assert href[at] == '@';
      }
      forall other: nat | 7 < other < |href| && href[other] == '@'
          && forall k :: 7 <= k < other ==> !IsSpace(href[k]) && href[k] != '@'
        ensures other == at
      {
        assert AllIn(href, 7, other, MailName);
        RunEndsAt(href, 7, other, MailName);
      }
    }
  }

  lemma {:induction false} TrimEndsAt(s: string, from: nat, end: nat, b: nat)
    requires from < b <= end <= |s| && AllIn(s, b, end, Space) && !IsSpace(s[b - 1])
    ensures TrimEnd(s, from, end) == b
    decreases end
  {
    if b < end {
      assert In(s[end - 1], Space);
      TrimEndsAt(s, from, end - 1, b);
    }
  }

  lemma TrimUnique(href: string, url: string)
    requires IsTrimmed(href, url)
    ensures Trim(url) == href
  {
    hide RunEnd, TrimEnd;
    var a: nat, b: nat :| a < b <= |url| && href == url[a..b] && AllIn(url, 0, a, Space) && AllIn(url, b, |url|, Space);
    assert href[0] == url[a] && href[|href| - 1] == url[b - 1];
    RunEndsAt(url, 0, a, Space);
    TrimEndsAt(url, a, |url|, b);
  }

  /** A target is let through exactly if it is admitted and holds no control character, and then without the spaces around it. */
  lemma SafeHrefExact(url: string, href: string)
    ensures SafeHref(url) == Some(href)
            <==> IsTrimmed(href, url) && (forall k :: 0 <= k < |href| ==> href[k] > ' ' && href[k] != '\U{007F}') && AdmittedTarget(href)
  {
    hide IsAllowed, AdmittedTarget, Trim;
    AdmittedExact(href);
    if IsTrimmed(href, url) {
      TrimUnique(href, url);
    }
    if SafeHref(url) == Some(href) {
      var a: nat, b: nat :| a <= b <= |url| && href == url[a..b] && AllIn(url, 0, a, Space) && AllIn(url, b, |url|, Space);
      assert IsTrimmed(href, url);
    }
  }

  /** The scheme of the URL that starts at `p`, in lower case (RFC 3986, section 3.1). */
  function SchemeAt(s: string, p: nat): Option<string>
    requires p <= |s|
  {
    var e := RunEnd(s, p, Scheme);
    if p < e < |s| && IsAlpha(s[p]) && s[e] == ':'
    then Some(seq(e - p, k requires 0 <= k < e - p => LowerAscii(s[p + k])))
    else None
  }

  /** An allow-listed prefix fixes the scheme, whatever follows it. */
  lemma SafeTargetScheme(s: string, p: nat)
    requires p <= |s| && SafeTarget(s, p)
    ensures var scheme := SchemeAt(s, p);
            scheme.None? || scheme.value == "http" || scheme.value == "https" || scheme.value == "mailto"
  {
    if HasFold(s, p, "http://") {
      FoldedScheme(s, p, "http://", 4);
    } else if HasFold(s, p, "https://") {
      FoldedScheme(s, p, "https://", 5);
    } else if HasFold(s, p, "mailto:") {
      FoldedScheme(s, p, "mailto:", 6);
    } else {
      assert s[p] == '/' || s[p] == '#' || s[p] == '.';
    }
  }

  lemma FoldedScheme(s: string, p: nat, prefix: string, n: nat)
    requires HasFold(s, p, prefix) && 0 < n < |prefix| && prefix[n] == ':'
    requires forall k :: 0 <= k < n ==> 'a' <= prefix[k] <= 'z'
    ensures SchemeAt(s, p) == Some(prefix[..n])
  {
    assert LowerAscii(s[p + n]) == prefix[n];
    assert s[p + n] == ':';
    forall k | p <= k < p + n ensures IsAlpha(s[k]) {
      assert LowerAscii(s[p + (k - p)]) == prefix[k - p];
    }
    var e := RunEnd(s, p, Scheme);
    RunEndsAt(s, p, p + n, Scheme);
    var scheme := seq(e - p, k requires 0 <= k < e - p => LowerAscii(s[p + k]));
    assert scheme == prefix[..n];
  }

  predicate IsExternal(href: string) {
    HasFold(href, 0, "http://") || HasFold(href, 0, "https://")
  }

  const ANCHOR_TAG := "<a href=\""
  const IMAGE_TAG := "<img src=\""
  const NEW_TAB := " target=\"_blank\""
  const NO_REFERRER := " rel=\"noopener noreferrer nofollow\""

  /** From the end of the target to the end of the opening tag. */
  function AnchorTail(href: string): string {
    "\"" + (if IsExternal(href) then NEW_TAB + NO_REFERRER else "") + ">"
  }

  function Anchor(href: string, caption: string): string {
    ANCHOR_TAG + href + AnchorTail(href) + caption + "</a>"
  }

  const NOTE_TAG := "<span class=\"kg-md-note\">"
  const NOTE_TEXT := "(image, not loaded)"
  const NOTE := " " + NOTE_TAG + NOTE_TEXT + "</span>"

  function ImageElement(src: string, alt: string): string {
    IMAGE_TAG + src + ImageTail(alt)
  }

  function ImageTail(alt: string): string { "\" alt=\"" + alt + "\" loading=\"lazy\">" }

  function Element(tag: string, body: string): string {
    "<" + tag + ">" + body + "</" + tag + ">"
  }
}
