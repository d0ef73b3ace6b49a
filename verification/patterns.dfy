/**
 The four regular expressions of the rule validator (binder.go:177-180), as
 exact predicates on characters and strings. Go's `MatchString` looks for a
 match anywhere in the string, and `\w`/`\d` are the ASCII classes, so:

 - `[^\d\w-_]` matches iff some character lies outside [0-9A-Za-z_-]
   (a '-' after a class escape is a literal in Go's parser);
 - `[^\d\w-_\.]` matches iff some character lies outside [0-9A-Za-z_.-];
 - the URL pattern matches iff some suffix starts with "http://" or
   "https://", a non-empty run of [0-9A-Za-z_-], a '.', and one more such
   character; its optional tail never decides whether a match exists;
 - the e-mail pattern matches iff some '@' is preceded by a character of the
   local-part class and followed by one or more labels, each a run of
   [0-9A-Za-z_-] that starts and ends with a word character and is followed by
   '.', and then by an ASCII letter or digit.
 */
module Patterns {
  import opened Text
  import Strconv

  /** `\w` in Go's RE2 syntax. */
  predicate IsWordChar(c: char) {
    ('0' <= c <= '9') || ('a' <= c <= 'z') || ('A' <= c <= 'Z') || c == '_'
  }

  predicate IsAlnum(c: char) {
    ('0' <= c <= '9') || ('a' <= c <= 'z') || ('A' <= c <= 'Z')
  }

  /** The class [\d\w-_], also written [\w\-_] and [\w-]. */
  predicate IsAlphaDashChar(c: char) {
    IsWordChar(c) || c == '-'
  }

  /** The class [\d\w-_\.]. */
  predicate IsAlphaDashDotChar(c: char) {
    IsAlphaDashChar(c) || c == '.'
  }

  /** The class of an e-mail local part: [\w!#$%&'*+/=?^_`{|}~-]. */
  predicate IsAtextChar(c: char) {
    IsWordChar(c) || c in "!#$%&'*+/=?^_`{|}~-"
  }

  /** `alphaDashPattern.MatchString(s)`. */
  predicate AlphaDashMatches(s: string) {
    exists i :: 0 <= i < |s| && !IsAlphaDashChar(s[i])
  }

  /** `alphaDashDotPattern.MatchString(s)`. */
  predicate AlphaDashDotMatches(s: string) {
    exists i :: 0 <= i < |s| && !IsAlphaDashDotChar(s[i])
  }

  /** Length of the longest prefix of `t` drawn from [0-9A-Za-z_-]. */
  function WordRun(t: string): (k: nat)
    ensures k <= |t|
    ensures forall j :: 0 <= j < k ==> IsAlphaDashChar(t[j])
    ensures k < |t| ==> !IsAlphaDashChar(t[k])
  {
    if t == [] || !IsAlphaDashChar(t[0]) then 0 else 1 + WordRun(t[1..])
  }

  /** `[\w\-_]+(\.[\w\-_]+)+` matches at the start of `t`. */
  predicate HostAt(t: string) {
    var k := WordRun(t);
    1 <= k && k + 1 < |t| && t[k] == '.' && IsAlphaDashChar(t[k + 1])
  }

  /** The URL pattern matches at the start of `t`. */
  predicate UrlAt(t: string) {
    (HasPrefix(t, "http://") && HostAt(t[7..])) || (HasPrefix(t, "https://") && HostAt(t[8..]))
  }

  /** `urlPattern.MatchString(s)`. */
  predicate UrlMatches(s: string) {
    exists p :: 0 <= p <= |s| && UrlAt(s[p..])
  }

  /** `(?:[\w](?:[\w-]*[\w])?\.)+[a-zA-Z0-9]` matches at the start of `t`. */
  predicate DomainAt(t: string)
    decreases |t|
  {
    var k := WordRun(t);
    && 1 <= k && k + 1 < |t|
    && IsWordChar(t[0]) && IsWordChar(t[k - 1]) && t[k] == '.'
    && (IsAlnum(t[k + 1]) || DomainAt(t[k + 1..]))
  }

  /** `emailPattern.MatchString(s)`. */
  predicate EmailMatches(s: string) {
    exists j :: 1 <= j < |s| && s[j] == '@' && IsAtextChar(s[j - 1]) && DomainAt(s[j + 1..])
  }

  /** Whatever passes the AlphaDash rule also passes the AlphaDashDot rule. */
  lemma AlphaDashDotWeaker(s: string)
    ensures AlphaDashDotMatches(s) ==> AlphaDashMatches(s)
  {
  }

  /** A printed integer never trips the AlphaDash rule: it has digits and '-' only. */
  lemma FormattedIntIsAlphaDash(n: int)
    ensures !AlphaDashMatches(Strconv.FormatInt(n))
  {
    var s := Strconv.FormatInt(n);
    forall i | 0 <= i < |s| ensures IsAlphaDashChar(s[i]) {
      if n < 0 {
        if i > 0 {
          assert s[i] == Strconv.FormatNat(-n)[i - 1];
        }
      }
    }
  }

  /** Sample inputs for the URL rule: a bare scheme-and-host matches, so
      does one found after other text, and the empty string does not. */
  lemma UrlExamples()
    ensures UrlMatches("http://a.b")
    ensures UrlMatches("see https://a.b/c")
    ensures !UrlMatches("")
  {
    var u := "http://a.b";
    assert u[7..] == "a.b";
    WordRunExact("a.b", 1);
    assert UrlAt(u[0..]);
    var v := "see https://a.b/c";
    assert v[4..][8..] == "a.b/c";
    WordRunExact("a.b/c", 1);
    assert UrlAt(v[4..]);
  }

  /** The run length is the position of the first character outside the class. */
  lemma {:induction false} WordRunExact(t: string, k: nat)
    requires k < |t| && !IsAlphaDashChar(t[k])
    requires forall j :: 0 <= j < k ==> IsAlphaDashChar(t[j])
    ensures WordRun(t) == k
    decreases k
  {
    if k > 0 {
      WordRunExact(t[1..], k - 1);
    }
  }

  /** "not a url" contains no "http://" or "https://" at all. */
  lemma NotAUrl()
    ensures !UrlMatches("not a url")
  {
    var s := "not a url";
    forall p | 0 <= p <= |s| ensures !UrlAt(s[p..]) {
    }
  }

  /** The empty string is never an e-mail address. */
  lemma EmptyIsNotEmail()
    ensures !EmailMatches("")
  {
  }
}
