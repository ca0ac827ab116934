// The C string functions that TinyWebServer's parser calls, on a sequence of
// characters in which a string ends at the first NUL (or at the end).
module CStrings {
  import opened Common
  import opened HttpCodes

  const NUL: char := '\0'

  predicate Blank(c: char) { c == ' ' || c == '\t' }

  // strlen from position p.
  function CLen(s: string, p: nat): (n: nat)
    ensures p <= |s| ==> p + n <= |s|
    ensures forall k :: p <= k < p + n ==> k < |s| && s[k] != NUL
    ensures p + n < |s| ==> s[p + n] == NUL
    decreases |s| - p
  {
    if p >= |s| || s[p] == NUL then 0 else 1 + CLen(s, p + 1)
  }

  function CStr(s: string, p: nat): (r: string)
    ensures |r| == CLen(s, p)
  {
    if p <= |s| then s[p..p + CLen(s, p)] else ""
  }

  // strpbrk(s + p, " \t")
  function Break(s: string, p: nat): (r: Option<nat>)
    ensures r.Some? ==> p <= r.value < |s| && Blank(s[r.value])
    ensures r.Some? ==> forall k :: p <= k < r.value ==> s[k] != NUL && !Blank(s[k])
    decreases |s| - p
  {
    if p >= |s| || s[p] == NUL then None
    else if Blank(s[p]) then Some(p)
    else Break(s, p + 1)
  }

  // s + p + strspn(s + p, " \t")
  function Span(s: string, p: nat): (r: nat)
    ensures p <= r && (p <= |s| ==> r <= |s|)
    decreases |s| - p
  {
    if p < |s| && Blank(s[p]) then Span(s, p + 1) else p
  }

  // strchr(s + p, c) for a c that is not NUL
  function Find(s: string, p: nat, c: char): (r: Option<nat>)
    ensures r.Some? ==> p <= r.value < |s| && s[r.value] == c
    ensures r.Some? ==> forall k :: p <= k < r.value ==> s[k] != NUL
    decreases |s| - p
  {
    if p >= |s| || s[p] == NUL then None
    else if s[p] == c then Some(p)
    else Find(s, p + 1, c)
  }

  function Lower(c: char): char {
    if 'A' <= c <= 'Z' then c + 32 as char else c
  }

  // strcasecmp(s, t) == 0
  predicate SameIgnoringCase(s: string, t: string) {
    |s| == |t| && forall k :: 0 <= k < |s| ==> Lower(s[k]) == Lower(t[k])
  }

  // strncasecmp(s + p, t, strlen(t)) == 0
  predicate StartsIgnoringCase(s: string, p: nat, t: string) {
    CLen(s, p) >= |t| && SameIgnoringCase(CStr(s, p)[..|t|], t)
  }

  predicate Space(c: char) { c == ' ' || '\t' <= c <= '\r' }

  predicate IsDigit(c: char) { '0' <= c <= '9' }

  function SkipSpace(s: string): string {
    if s != "" && Space(s[0]) then SkipSpace(s[1..]) else s
  }

  function Digits(s: string, acc: int): int {
    if s != "" && IsDigit(s[0]) then Digits(s[1..], 10 * acc + (s[0] as int - '0' as int)) else acc
  }

  // atol, without the range of long
  function Atol(s: string): int {
    var t := SkipSpace(s);
    if t != "" && t[0] == '-' then -Digits(t[1..], 0)
    else if t != "" && t[0] == '+' then Digits(t[1..], 0)
    else Digits(t, 0)
  }

  // A string that ends inside a does not see what follows.
  lemma {:induction false} CLenExtends(a: string, b: string, p: nat)
    requires p + CLen(a, p) < |a|
    ensures CLen(a + b, p) == CLen(a, p)
    decreases |a| - p
  {
    if a[p] == NUL {
    } else {
      CLenExtends(a, b, p + 1);
    }
  }

  // A NUL at k bounds every string that starts before it.
  lemma {:induction false} CLenBefore(a: string, p: nat, k: nat)
    requires p <= k < |a| && a[k] == NUL
    ensures p + CLen(a, p) <= k
    decreases k - p
  {
    if p == k || a[p] == NUL {
    } else {
      CLenBefore(a, p + 1, k);
    }
  }
}
