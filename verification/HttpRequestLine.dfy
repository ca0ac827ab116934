// Which request lines TinyWebServer's parser accepts: a grammar of the text in
// front of the first NUL, and what is read back from a line that follows it.
module HttpRequestLine {
  import opened Common
  import opened HttpCodes
  import opened CStrings
  import opened HttpParser
  import opened HttpScan

  // ---------- the grammar ----------

  // A request line: method, blanks, target, blanks, version.
  datatype Words = Words(name: string, gap: string, target: string, gap2: string, version: string)

  // The parts of a target: a path, or http:// or https:// and a host before it.
  datatype Target = Target(scheme: string, host: string, path: string)

  predicate Word(s: string) {
    forall c :: c in s ==> !Blank(c)
  }

  predicate Blanks(s: string) {
    s != "" && forall c :: c in s ==> Blank(c)
  }

  predicate IsMethod(name: string) {
    SameIgnoringCase(name, "GET") || SameIgnoringCase(name, "POST")
  }

  predicate IsFramed(text: string, w: Words) {
    && text == w.name + w.gap + (w.target + w.gap2 + w.version)
    && IsMethod(w.name) && Blanks(w.gap)
    && Word(w.target) && w.target != "" && Blanks(w.gap2)
    && SameIgnoringCase(w.version, VERSION)
  }

  predicate IsTarget(target: string, t: Target) {
    && target == t.scheme + t.host + t.path && t.path != "" && t.path[0] == '/'
    && if t.scheme == "" then t.host == "" else IsScheme(t.scheme) && '/' !in t.host
  }

  predicate IsScheme(s: string) {
    SameIgnoringCase(s, HTTP) || SameIgnoringCase(s, HTTPS)
  }

  const HTTP := "http://"
  const HTTPS := "https://"

  predicate IsRequestLine(text: string, w: Words, t: Target) {
    IsFramed(text, w) && IsTarget(w.target, t)
  }

  // http:// and never a path.
  predicate IsPathless(text: string, w: Words) {
    && IsFramed(text, w)
    && |HTTP| <= |w.target| && SameIgnoringCase(w.target[..|HTTP|], HTTP) && '/' !in w.target[|HTTP|..]
  }

  // What the source makes of a path.
  function Served(path: string): string {
    if path == "/" then "/" + JUDGE else path
  }

  // ---------- a word, blanks and the rest ----------

  predicate Splits(text: string, word: string, gap: string, rest: string) {
    text == word + gap + rest && Word(word) && Blanks(gap) && (rest != "" ==> !Blank(rest[0]))
  }

  // The string t stands at p.
  predicate Stands(l: string, p: nat, t: string) {
    p + |t| < |l| && l[p..p + |t|] == t && l[p + |t|] == NUL && NUL !in t
  }

  lemma StandsExactly(l: string, p: nat, t: string)
    ensures Stands(l, p, t) <==> CStr(l, p) == t && p + CLen(l, p) < |l|
  {
    if Stands(l, p, t) {
      forall k | p <= k < p + |t|
        ensures l[k] != NUL
      {
        assert l[k] == l[p..p + |t|][k - p] == t[k - p];
      }
      CLenExactly(l, p, |t|);
    }
  }

  lemma Stood(l: string, p: nat)
    requires p + CLen(l, p) < |l|
    ensures Stands(l, p, CStr(l, p))
  {
    StandsExactly(l, p, CStr(l, p));
  }

  lemma {:induction false} BreakExactly(s: string, p: nat, b: nat)
    requires p <= b < |s| && Blank(s[b]) && forall k :: p <= k < b ==> s[k] != NUL && !Blank(s[k])
    ensures Break(s, p) == Some(b)
    decreases b - p
  {
    if p == b {
    } else {
      BreakExactly(s, p + 1, b);
    }
  }

  lemma {:induction false} SpanExactly(s: string, p: nat, q: nat)
    requires p <= q < |s| && !Blank(s[q]) && forall k :: p <= k < q ==> Blank(s[k])
    ensures Span(s, p) == q
    decreases q - p
  {
    if p == q {
    } else {
      SpanExactly(s, p + 1, q);
    }
  }

  lemma BreakBehind(l: string, p: nat, word: string)
    requires p + |word| < |l| && l[p..p + |word|] == word && Blank(l[p + |word|]) && Word(word) && NUL !in word
    ensures Break(l, p) == Some(p + |word|)
  {
    hide Blank;
    forall k | p <= k < p + |word|
      ensures l[k] != NUL && !Blank(l[k])
    {
      assert l[k] == l[p..p + |word|][k - p] == word[k - p];
    }
    BreakExactly(l, p, p + |word|);
  }

  lemma SpanOver(l: string, p: nat, gap: string)
    requires p + |gap| < |l| && l[p..p + |gap|] == gap && !Blank(l[p + |gap|]) && forall c :: c in gap ==> Blank(c)
    ensures Span(l, p) == p + |gap|
  {
    hide Blank;
    forall k | p <= k < p + |gap|
      ensures Blank(l[k])
    {
      assert l[k] == l[p..p + |gap|][k - p] == gap[k - p];
    }
    SpanExactly(l, p, p + |gap|);
  }

  // Part of a slice.
  lemma Window(buf: string, start: nat, end: nat, i: nat, j: nat)
    requires start <= end <= |buf| && i <= j <= end - start
    ensures buf[start..end][i..j] == buf[start + i..start + j]
  {
    var part, whole := buf[start..end][i..j], buf[start + i..start + j];
    assert |part| == j - i == |whole|;
    forall k | 0 <= k < j - i
      ensures part[k] == whole[k]
    {
      assert part[k] == buf[start..end][i + k] == buf[start + (i + k)];
    }
  }

  // The parts of a slice.
  lemma Three(l: string, p: nat, a: string, b: string, c: string)
    requires p + |a| + |b| + |c| <= |l| && l[p..p + |a + b + c|] == a + b + c
    ensures l[p..p + |a|] == a && l[p + |a|..p + |a| + |b|] == b
    ensures l[p + |a| + |b|..p + |a| + |b| + |c|] == c
  {
    var t, end := a + b + c, p + |a + b + c|;
    assert t[0..|a|] == a && t[|a|..|a| + |b|] == b && t[|a| + |b|..|a| + |b| + |c|] == c;
    Window(l, p, end, 0, |a|);
    Window(l, p, end, |a|, |a| + |b|);
    Window(l, p, end, |a| + |b|, |a| + |b| + |c|);
  }

  lemma CutSlices(l: string, p: nat, b: nat, q: nat, e: nat)
    requires p <= b < q <= e < |l|
    ensures var l1 := l[b := NUL];
      l1[p..b] == l[p..b] && l1[q..e] == l[q..e] && l1[b + 1..q] == l[b..q][1..] && l1[b] == NUL && l1[e] == l[e]
  {
  }

  // strpbrk and strspn find the parts.
  lemma SplitFound(l: string, p: nat, word: string, gap: string, rest: string)
    requires Stands(l, p, word + gap + rest) && Splits(word + gap + rest, word, gap, rest)
    ensures var b, q := p + |word|, p + |word| + |gap|;
      && q < |l| && Break(l, p) == Some(b) && Span(l[b := NUL], b + 1) == q
      && Stands(l[b := NUL], p, word) && Stands(l[b := NUL], q, rest)
  {
    var b, q := p + |word|, p + |word| + |gap|;
    PartsPlain(word, gap, rest);
    hide Splits, Blanks, Word, Blank, Break, Span;
    Three(l, p, word, gap, rest);
    assert l[b] == l[b..q][0] == gap[0];
    BreakBehind(l, p, word);
    CutSlices(l, p, b, q, q + |rest|);
    var l1 := l[b := NUL];
    assert rest != "" ==> l1[q] == l1[q..q + |rest|][0];
    SpanOver(l1, b + 1, gap[1..]);
  }

  lemma PartsPlain(word: string, gap: string, rest: string)
    requires Splits(word + gap + rest, word, gap, rest) && NUL !in word + gap + rest
    ensures NUL !in word && NUL !in rest && Word(word) && (rest != "" ==> !Blank(rest[0])) && !Blank(NUL)
    ensures gap != "" && Blank(gap[0]) && forall c :: c in gap[1..] ==> Blank(c)
  {
    assert forall c :: c in word || c in rest ==> c in word + gap + rest;
    assert gap[0] in gap;
  }

  lemma {:induction false} SpanIsBlank(s: string, p: nat)
    requires p <= |s|
    ensures var q := Span(s, p); (forall k :: p <= k < q ==> Blank(s[k])) && (q < |s| ==> !Blank(s[q]))
    decreases |s| - p
  {
    if p == |s| || !Blank(s[p]) {
    } else {
      SpanIsBlank(s, p + 1);
    }
  }

  // In front of the first blank is a word.
  lemma WordBefore(l: string, p: nat, t: string, k: nat)
    requires Stands(l, p, t) && Break(l, p) == Some(p + k)
    ensures k < |t| && Word(t[..k]) && Blank(t[k])
  {
    hide Blank;
    BreakStops(l, p, p + |t|);
    forall j | 0 <= j < k
      ensures !Blank(t[j])
    {
      assert t[j] == l[p..p + |t|][j] == l[p + j];
    }
    assert t[k] == l[p..p + |t|][k] == l[p + k];
  }

  lemma GapOf(tail: string) returns (gap: string, rest: string)
    requires tail != "" && Blank(tail[0])
    ensures tail == gap + rest && Blanks(gap) && (rest != "" ==> !Blank(rest[0]))
  {
    SpanIsBlank(tail, 0);
    var n := Span(tail, 0);
    gap, rest := tail[..n], tail[n..];
  }

  // What strpbrk and strspn find are the parts.
  lemma SplitOf(l: string, p: nat, t: string) returns (word: string, gap: string, rest: string)
    requires Stands(l, p, t) && Break(l, p).Some?
    ensures Splits(t, word, gap, rest)
  {
    hide Stands, Blank, Blanks, Word;
    var k := Break(l, p).value - p;
    WordBefore(l, p, t, k);
    word := t[..k];
    gap, rest := GapOf(t[k..]);
    assert t == word + (gap + rest) == word + gap + rest;
  }

  // ---------- the target ----------

  // Where the first slash of a string is.
  lemma {:induction false} SlashFound(l: string, p: nat, host: string, path: string)
    requires Stands(l, p, host + path) && '/' !in host && (path != "" ==> path[0] == '/')
    ensures Find(l, p, '/') == if path == "" then None else Some(p + |host|)
    decreases |host|
  {
    var t := host + path;
    if host == "" {
      assert t == path;
      assert path != "" ==> l[p] == l[p..p + |t|][0];
    } else {
      assert l[p] == l[p..p + |t|][0] == host[0];
      assert t == [host[0]] + (host[1..] + path);
      TailStands(l, p, [host[0]], host[1..] + path);
      SlashFound(l, p + 1, host[1..], path);
    }
  }

  lemma {:induction false} AtSlash(t: string) returns (host: string, path: string)
    ensures t == host + path && '/' !in host && (path != "" ==> path[0] == '/')
  {
    if t == "" || t[0] == '/' {
      host, path := "", t;
    } else {
      host, path := AtSlash(t[1..]);
      assert t == [t[0]] + t[1..];
      host := [t[0]] + host;
    }
  }

  lemma SchemeStands(l: string, p: nat, t: string, scheme: string)
    requires Stands(l, p, t)
    ensures StartsIgnoringCase(l, p, scheme) <==> |scheme| <= |t| && SameIgnoringCase(t[..|scheme|], scheme)
  {
    StandsExactly(l, p, t);
  }

  lemma TailStands(l: string, p: nat, a: string, b: string)
    requires Stands(l, p, a + b)
    ensures Stands(l, p + |a|, b)
  {
    assert (a + b)[|a|..|a| + |b|] == b;
    Window(l, p, p + |a + b|, |a|, |a| + |b|);
    assert forall c :: c in b ==> c in a + b;
  }

  // A scheme is skipped up to the first slash behind it.
  lemma SchemeSkipped(l: string, p: nat, given: string, host: string, path: string, scheme: string)
    requires Stands(l, p, given + (host + path)) && SameIgnoringCase(given, scheme)
    requires '/' !in host && (path != "" ==> path[0] == '/')
    ensures SkipScheme(l, p, scheme) == if path == "" then None else Some(p + |given| + |host|)
  {
    SameLength(given, scheme);
    hide Stands, SameIgnoringCase, Find;
    var t := given + (host + path);
    assert t[..|scheme|] == given;
    SchemeStands(l, p, t, scheme);
    TailStands(l, p, given, host + path);
    SlashFound(l, p + |given|, host, path);
  }

  lemma NotSkipped(l: string, p: nat, t: string, scheme: string)
    requires Stands(l, p, t) && !(|scheme| <= |t| && SameIgnoringCase(t[..|scheme|], scheme))
    ensures SkipScheme(l, p, scheme) == Some(p)
  {
    SchemeStands(l, p, t, scheme);
  }

  // No path begins like a scheme, and https:// does not begin like http://.
  lemma PathsAreNoSchemes(t: string)
    requires t == "" || t[0] == '/'
    ensures !(|HTTP| <= |t| && SameIgnoringCase(t[..|HTTP|], HTTP))
    ensures !(|HTTPS| <= |t| && SameIgnoringCase(t[..|HTTPS|], HTTPS))
  {
    if t != "" {
      assert Lower('/') == '/' && Lower(HTTP[0]) == Lower(HTTPS[0]) == 'h';
    }
  }

  lemma SchemesDiffer(t: string)
    requires |HTTPS| <= |t| && SameIgnoringCase(t[..|HTTPS|], HTTPS)
    ensures !SameIgnoringCase(t[..|HTTP|], HTTP)
  {
    assert Lower(t[..|HTTPS|][4]) == Lower('s') && Lower(HTTP[4]) == ':';
    assert t[..|HTTP|][4] == t[4];
  }

  // Both skips together find the path.
  lemma TargetFound(l: string, p: nat, target: string, t: Target)
    requires Stands(l, p, target) && IsTarget(target, t)
    ensures var u := SkipScheme(l, p, HTTP); var k := p + |t.scheme| + |t.host|;
      u.Some? && u.value <= |l| && SkipScheme(l, u.value, HTTPS) == Some(k) && Stands(l, k, t.path)
  {
    hide SkipScheme, SameIgnoringCase, Stands;
    assert t.scheme + t.host + t.path == (t.scheme + t.host) + t.path;
    TailStands(l, p, t.scheme + t.host, t.path);
    PathsAreNoSchemes(t.path);
    if t.scheme == "" {
      assert "" + "" + t.path == t.path;
      NotSkipped(l, p, target, HTTP);
      NotSkipped(l, p, target, HTTPS);
    } else {
      assert target == t.scheme + (t.host + t.path);
      AbsoluteFound(l, p, t);
    }
  }

  lemma AbsoluteFound(l: string, p: nat, t: Target)
    requires Stands(l, p, t.scheme + (t.host + t.path)) && IsScheme(t.scheme) && '/' !in t.host
    requires t.path != "" && t.path[0] == '/' && Stands(l, p + |t.scheme| + |t.host|, t.path)
    ensures var u := SkipScheme(l, p, HTTP);
      u.Some? && u.value <= |l| && SkipScheme(l, u.value, HTTPS) == Some(p + |t.scheme| + |t.host|)
  {
    hide SkipScheme, SameIgnoringCase, Stands;
    if SameIgnoringCase(t.scheme, HTTP) {
      PathsAreNoSchemes(t.path);
      SchemeSkipped(l, p, t.scheme, t.host, t.path, HTTP);
      NotSkipped(l, p + |t.scheme| + |t.host|, t.path, HTTPS);
    } else {
      var target := t.scheme + (t.host + t.path);
      SameLength(t.scheme, HTTPS);
      assert target[..|HTTPS|] == t.scheme;
      SchemesDiffer(target);
      NotSkipped(l, p, target, HTTP);
      SchemeSkipped(l, p, t.scheme, t.host, t.path, HTTPS);
    }
  }

  // What both skips find is the path, unless http:// had none.
  lemma TargetOf(l: string, p: nat, target: string) returns (t: Target)
    requires Stands(l, p, target)
    ensures var u := SkipScheme(l, p, HTTP);
      if u.None? then |HTTP| <= |target| && SameIgnoringCase(target[..|HTTP|], HTTP) && '/' !in target[|HTTP|..]
      else
        u.value <= |l| &&
        var v := SkipScheme(l, u.value, HTTPS); v.Some? && v.value < |l| && l[v.value] == '/' ==> IsTarget(target, t)
  {
    hide SkipScheme, SameIgnoringCase;
    t := Target("", "", target);
    var scheme := if |HTTP| <= |target| && SameIgnoringCase(target[..|HTTP|], HTTP) then HTTP else HTTPS;
    if |scheme| <= |target| && SameIgnoringCase(target[..|scheme|], scheme) {
      var host, path := AtSlash(target[|scheme|..]);
      t := Target(target[..|scheme|], host, path);
      assert target == t.scheme + (host + path) && target == t.scheme + host + path;
      SchemeSkipped(l, p, t.scheme, host, path, scheme);
      if scheme == HTTPS {
        NotSkipped(l, p, target, HTTP);
      }
    } else {
      NotSkipped(l, p, target, HTTP);
      NotSkipped(l, p, target, HTTPS);
      assert target != "" ==> l[p] == l[p..p + |target|][0];
      assert "" + "" + target == target;
    }
  }

  // ---------- the line ----------

  lemma MethodsDiffer(name: string)
    requires IsMethod(name)
    ensures Word(name) && (SameIgnoringCase(name, "POST") ==> !SameIgnoringCase(name, "GET"))
  {
    forall k | 0 <= k < |name|
      ensures !Blank(name[k])
    {
      assert Lower(name[k]) in {'g', 'e', 't', 'p', 'o', 's'};
    }
  }

  function VerbOf(name: string): Verb {
    if SameIgnoringCase(name, "GET") then GET else POST
  }

  lemma VerbParsed(l1: string, b: nat, verb: Verb, cgi: bool)
    requires b < |l1|
    ensures var name, r := CStr(l1, 0), ParseVerb(l1, b, verb, cgi);
      if IsMethod(name) then
        r == ParseTarget(l1, Span(l1, b + 1), VerbOf(name), cgi || VerbOf(name) == POST)
      else r.code == BAD_REQUEST
  {
    hide SameIgnoringCase, ParseTarget, CStr, Span;
  }

  // The method is right: the line goes on with what stands behind the first blanks.
  lemma MethodParsed(line: string, name: string, gap: string, rest: string, verb: Verb, cgi: bool)
    requires Stands(line, 0, name + gap + rest) && Splits(name + gap + rest, name, gap, rest)
    ensures var l1, u, r := line[|name| := NUL], |name| + |gap|, ParseRequestLine(line, verb, cgi);
      && u <= |l1| == |line| && Stands(l1, u, rest)
      && if IsMethod(name) then r == ParseTarget(l1, u, VerbOf(name), cgi || VerbOf(name) == POST)
         else r.code == BAD_REQUEST
  {
    hide Splits, Stands, ParseTarget, ParseVerb, IsMethod, CStr, Span, Break;
    SplitFound(line, 0, name, gap, rest);
    StandsExactly(line[|name| := NUL], 0, name);
    VerbParsed(line[|name| := NUL], |name|, verb, cgi);
  }

  // So is the version: what is left is the target.
  lemma VersionParsed(l1: string, u: nat, target: string, gap: string, version: string, verb: Verb, cgi: bool)
    requires Stands(l1, u, target + gap + version) && Splits(target + gap + version, target, gap, version)
    ensures u + |target| < |l1|
    ensures var l2, v, r := l1[u + |target| := NUL], u + |target| + |gap|, ParseTarget(l1, u, verb, cgi);
      && u <= |l2| && v <= |l2| == |l1| && Stands(l2, u, target) && Stands(l2, v, version)
      && if SameIgnoringCase(version, VERSION) then r == ParsePath(l2, SkipScheme(l2, u, HTTP), v, verb, cgi)
         else r.code == BAD_REQUEST
  {
    hide Splits, Stands, ParsePath, SkipScheme, SameIgnoringCase, CStr, Span, Break;
    SplitFound(l1, u, target, gap, version);
    var l2 := l1[u + |target| := NUL];
    StandsExactly(l2, u + |target| + |gap|, version);
  }

  // The line with its target cut out, and where target and version begin.
  datatype Cut = Cut(line: string, target: nat, version: nat)

  predicate CutFor(line: string, w: Words, c: Cut, verb: Verb, cgi: bool, r: Request) {
    && c.target <= |c.line| == |line| && c.version <= |c.line|
    && Stands(c.line, c.target, w.target) && Stands(c.line, c.version, w.version)
    && r == ParsePath(c.line, SkipScheme(c.line, c.target, HTTP), c.version, VerbOf(w.name),
         cgi || VerbOf(w.name) == POST)
  }

  lemma EndedStands(line: string)
    requires Ended(line)
    ensures Stands(line, 0, CStr(line, 0))
  {
    CLenBefore(line, 0, |line| - 2);
    StandsExactly(line, 0, CStr(line, 0));
  }

  lemma VersionIsWord(version: string)
    requires SameIgnoringCase(version, VERSION)
    ensures version != "" && !Blank(version[0])
  {
    assert Lower(version[0]) == Lower(VERSION[0]) == 'h';
  }

  lemma FramedParsed(line: string, w: Words, verb: Verb, cgi: bool) returns (c: Cut)
    requires Ended(line) && IsFramed(CStr(line, 0), w)
    ensures CutFor(line, w, c, verb, cgi, ParseRequestLine(line, verb, cgi))
  {
    hide Stands, ParseRequestLine, ParseTarget, ParsePath, SkipScheme, SameIgnoringCase, CStr, Blank;
    EndedStands(line);
    MethodsDiffer(w.name);
    VersionIsWord(w.version);
    var rest := w.target + w.gap2 + w.version;
    assert rest[0] == w.target[0];
    MethodParsed(line, w.name, w.gap, rest, verb, cgi);
    var l1, u := line[|w.name| := NUL], |w.name| + |w.gap|;
    VersionParsed(l1, u, w.target, w.gap2, w.version, VerbOf(w.name), cgi || VerbOf(w.name) == POST);
    c := Cut(l1[u + |w.target| := NUL], u, u + |w.target| + |w.gap2|);
  }

  // A line that is not refused is framed.
  lemma ParsedFrame(line: string, verb: Verb, cgi: bool) returns (w: Words)
    requires Ended(line) && ParseRequestLine(line, verb, cgi).code != BAD_REQUEST
    ensures IsFramed(CStr(line, 0), w)
  {
    hide Stands, ParseTarget, ParsePath, ParseVerb, SkipScheme, SameIgnoringCase, CStr, Blank, Break, VerbOf;
    EndedStands(line);
    assert Break(line, 0).Some?;
    var name, gap, rest := SplitOf(line, 0, CStr(line, 0));
    MethodParsed(line, name, gap, rest, verb, cgi);
    var target, gap2, version := RestFrame(line[|name| := NUL], |name| + |gap|, rest, VerbOf(name),
        cgi || VerbOf(name) == POST);
    w := Words(name, gap, target, gap2, version);
  }

  lemma RestFrame(l1: string, u: nat, rest: string, verb: Verb, cgi: bool)
    returns (target: string, gap: string, version: string)
    requires u <= |l1| && Stands(l1, u, rest) && ParseTarget(l1, u, verb, cgi).code != BAD_REQUEST
    requires rest != "" ==> !Blank(rest[0])
    ensures rest == target + gap + version && Word(target) && target != "" && Blanks(gap)
    ensures SameIgnoringCase(version, VERSION)
  {
    hide Stands, ParsePath, ParseVersion, SkipScheme, SameIgnoringCase, CStr, Blank, Break;
    assert Break(l1, u).Some?;
    target, gap, version := SplitOf(l1, u, rest);
    VersionParsed(l1, u, target, gap, version, verb, cgi);
    assert rest[|target|] == gap[0] && gap[0] in gap;
  }

  // ---------- the theorems ----------

  lemma PathTaken(line: string, w: Words, t: Target, c: Cut, verb: Verb, cgi: bool, r: Request)
    requires CutFor(line, w, c, verb, cgi, r) && IsTarget(w.target, t)
    ensures r.code == NO_REQUEST || (r.code == UNDEFINED && r.url.Some?)
    ensures r.verb == VerbOf(w.name) && r.cgi == (cgi || VerbOf(w.name) == POST)
    ensures r.code == NO_REQUEST ==> r.url.Some? && CStr(r.line, r.url.value) == Served(t.path)
    ensures r.version == Some(c.version) && (t.path != "/" ==> r.line == c.line)
  {
    hide SkipScheme, AppendJudge, CStr, VerbOf, SameIgnoringCase;
    TargetFound(c.line, c.target, w.target, t);
    var k := c.target + |t.scheme| + |t.host|;
    StandsExactly(c.line, k, t.path);
    assert c.line[k] == c.line[k..k + |t.path|][0];
    if |t.path| == 1 {
      assert t.path == "/";
      if k + 2 + |JUDGE| <= |c.line| {
        JudgeAppended(c.line, k);
      }
    }
  }

  lemma CutVersion(line: string, w: Words, c: Cut, verb: Verb, cgi: bool, r: Request)
    requires CutFor(line, w, c, verb, cgi, r)
    ensures CStr(c.line, c.version) == w.version
  {
    StandsExactly(c.line, c.version, w.version);
  }

  // What is read back from a line that follows the grammar, in whatever case its
  // method, scheme and version are written and however many blanks it has.
  lemma RequestLineMeans(line: string, w: Words, t: Target, verb: Verb, cgi: bool)
    requires Ended(line) && IsRequestLine(CStr(line, 0), w, t)
    ensures var r := ParseRequestLine(line, verb, cgi);
      && r.code == NO_REQUEST && r.verb == VerbOf(w.name) && r.cgi == (cgi || VerbOf(w.name) == POST)
      && r.url.Some? && CStr(r.line, r.url.value) == Served(t.path)
      && r.version.Some? && (t.path != "/" ==> CStr(r.line, r.version.value) == w.version)
  {
    hide ParseRequestLine, ParsePath, CutFor, CStr, VerbOf, IsFramed, IsTarget, Stands;
    var c := FramedParsed(line, w, verb, cgi);
    CutVersion(line, w, c, verb, cgi, ParseRequestLine(line, verb, cgi));
    PathTaken(line, w, t, c, verb, cgi, ParseRequestLine(line, verb, cgi));
    RequestLineFits(line, verb, cgi);
  }

  lemma TargetTaken(line: string, w: Words, c: Cut, verb: Verb, cgi: bool, r: Request) returns (t: Target)
    requires CutFor(line, w, c, verb, cgi, r) && IsFramed(CStr(line, 0), w)
    ensures r.code == NO_REQUEST ==> IsTarget(w.target, t)
    ensures r.code == UNDEFINED && r.url.None? <==> IsPathless(CStr(line, 0), w)
  {
    hide SkipScheme, AppendJudge, CStr, VerbOf, SameIgnoringCase, CLen, IsTarget;
    t := TargetOf(c.line, c.target, w.target);
    if IsPathless(CStr(line, 0), w) {
      PathlessFound(c.line, c.target, w.target);
    }
  }

  lemma PathlessFound(l: string, p: nat, target: string)
    requires Stands(l, p, target) && |HTTP| <= |target| && SameIgnoringCase(target[..|HTTP|], HTTP)
    requires '/' !in target[|HTTP|..]
    ensures SkipScheme(l, p, HTTP) == None
  {
    var given, host := target[..|HTTP|], target[|HTTP|..];
    assert target == given + (host + "");
    SchemeSkipped(l, p, given, host, "", HTTP);
  }

  predicate LineCode(code: HttpCode) {
    code.NO_REQUEST? || code.UNDEFINED? || code.BAD_REQUEST?
  }

  // A request line is accepted exactly if it follows the grammar; it runs into
  // the null pointer exactly if it has http:// and no path; any other, and so any
  // other method, version or target, is refused.
  lemma RequestLineExactly(line: string, verb: Verb, cgi: bool)
    requires Ended(line)
    ensures var text, code := CStr(line, 0), ParseRequestLine(line, verb, cgi).code;
      && (code == NO_REQUEST <==> exists w, t :: IsRequestLine(text, w, t))
      && (code == UNDEFINED <==> exists w :: IsPathless(text, w))
      && LineCode(code)
  {
    hide ParseRequestLine, IsRequestLine, IsPathless, CutFor, IsTarget, IsFramed, CStr;
    var text, r := CStr(line, 0), ParseRequestLine(line, verb, cgi);
    CodesAre(line, verb, cgi);
    RequestLineFits(line, verb, cgi);
    if r.code != BAD_REQUEST {
      var w := ParsedFrame(line, verb, cgi);
      var t := FramedMeans(line, w, verb, cgi);
    }
    if w, t :| IsRequestLine(text, w, t) {
      RequestLineMeans(line, w, t, verb, cgi);
    }
    if w :| IsPathless(text, w) {
      PathlessIsFramed(text, w);
      var t := FramedMeans(line, w, verb, cgi);
    }
  }

  lemma FramedMeans(line: string, w: Words, verb: Verb, cgi: bool) returns (t: Target)
    requires Ended(line) && IsFramed(CStr(line, 0), w)
    ensures var text, code := CStr(line, 0), ParseRequestLine(line, verb, cgi).code;
      (code == NO_REQUEST ==> IsRequestLine(text, w, t)) && (code == UNDEFINED <==> IsPathless(text, w))
  {
    hide ParseRequestLine, IsPathless, CutFor, IsTarget, IsFramed, CStr;
    RequestLineFits(line, verb, cgi);
    var c := FramedParsed(line, w, verb, cgi);
    t := TargetTaken(line, w, c, verb, cgi, ParseRequestLine(line, verb, cgi));
  }

  lemma PathlessIsFramed(text: string, w: Words)
    requires IsPathless(text, w)
    ensures IsFramed(text, w)
  {
  }

  lemma TargetCodes(l1: string, url: nat, verb: Verb, cgi: bool)
    requires url <= |l1|
    ensures LineCode(ParseTarget(l1, url, verb, cgi).code)
  {
    hide SameIgnoringCase, SkipScheme, CStr, Span, Break, CLen, AppendJudge;
  }

  lemma CodesAre(line: string, verb: Verb, cgi: bool)
    ensures LineCode(ParseRequestLine(line, verb, cgi).code)
  {
    hide SameIgnoringCase, ParseTarget, CStr, Span, Break, LineCode;
    assert LineCode(BAD_REQUEST) by { BadIsLineCode(); }
    if Break(line, 0).Some? {
      var b := Break(line, 0).value;
      var l1 := line[b := NUL];
      TargetCodes(l1, Span(l1, b + 1), GET, cgi);
      TargetCodes(l1, Span(l1, b + 1), POST, true);
    }
  }

  lemma BadIsLineCode()
    ensures LineCode(BAD_REQUEST)
  {
  }
}
