/**
 * Splitting a URL into its parts and printing it again, as `urlparse` and `urlunparse` do
 * for URLs with a network location. Strings are ASCII.
 */
module Urls {
  import opened Text

  /** `path` still carries the parameters of its last segment. */
  datatype Url = Url(scheme: string, netloc: string, path: string, query: string, fragment: string)
  datatype Parsed = Parsed(url: Url) | Invalid

  const NETLOC_ENDS := {'/', '?', '#'}
  const BRACKETS := {'[', ']'}
  const BREAKS := {'\t', '\r', '\n'}
  const PARAMETER_SCHEMES :=
    {"", "ftp", "hdl", "prospero", "http", "https", "shttp", "rtsp", "rtspu", "sip", "sips", "mms", "sftp", "tel"}

  predicate Free(s: string, stops: set<char>) { forall c :: c in s ==> c !in stops }

  /** Position of the first stop, or the length of the string. */
  function Find(s: string, stops: set<char>): (i: nat)
    ensures i <= |s| && Free(s[..i], stops) && (i < |s| ==> s[i] in stops)
  {
    if s == "" || s[0] in stops then 0 else
      assert s[..1 + Find(s[1..], stops)] == [s[0]] + s[1..][..Find(s[1..], stops)];
      1 + Find(s[1..], stops)
  }

  lemma {:induction false} FindIs(s: string, i: nat, stops: set<char>)
    requires i <= |s| && Free(s[..i], stops) && (i < |s| ==> s[i] in stops)
    ensures Find(s, stops) == i
  {
  }

  lemma FindAppend(a: string, b: string, stops: set<char>)
    requires Free(a, stops) && (b != "" ==> b[0] in stops)
    ensures Find(a + b, stops) == |a|
  {
    assert (a + b)[..|a|] == a;
    FindIs(a + b, |a|, stops);
  }

  function DropControls(s: string): (t: string)
    ensures t != "" ==> t[0] > ' '
    ensures |t| <= |s| && t == s[|s| - |t|..]
  {
    if s != "" && s[0] <= ' ' then DropControls(s[1..]) else s
  }

  function DropBreaks(s: string): (t: string)
    ensures Free(t, BREAKS) && |t| <= |s| && (t == s <==> Free(s, BREAKS)) && (|t| == |s| ==> t == s)
    ensures s != "" && s[|s| - 1] !in BREAKS ==> t != "" && t[|t| - 1] == s[|s| - 1]
    ensures s != "" && s[0] !in BREAKS ==> t != "" && t[0] == s[0]
  {
    if s == "" then "" else
      var rest := DropBreaks(s[1..]);
      assert forall c :: c in s <==> c == s[0] || c in s[1..];
      if s[0] in BREAKS then rest else [s[0]] + rest
  }

  function Clean(s: string): string { DropBreaks(DropControls(s)) }

  predicate IsLetter(c: char) { 'a' <= c <= 'z' || 'A' <= c <= 'Z' }

  predicate IsSchemeChar(c: char) { IsLetter(c) || '0' <= c <= '9' || c in {'+', '-', '.'} }

  /** Length of the scheme, 0 when the URL names none. */
  function SchemeLength(s: string): (n: nat)
    ensures n <= |s|
    ensures n > 0 ==> n < |s| && s[n] == ':' && IsLetter(s[0]) && forall i :: 0 <= i < n ==> IsSchemeChar(s[i])
  {
    var n := Find(s, {':'});
    if 0 < n < |s| && IsLetter(s[0]) && forall i :: 0 <= i < n ==> IsSchemeChar(s[i]) then n else 0
  }

  function AfterScheme(s: string): string {
    if SchemeLength(s) == 0 then s else s[SchemeLength(s) + 1..]
  }

  /** An empty parameter list loses its semicolon when the URL is printed. */
  predicate EmptyParameters(scheme: string, path: string) {
    && scheme in PARAMETER_SCHEMES
    && path != "" && path[|path| - 1] == ';'
    && exists i :: 0 <= i < |path| && path[i] == '/' && Free(path[i + 1..|path| - 1], {'/', ';'})
  }

  function KeptPath(scheme: string, path: string): (kept: string)
    ensures |path| == |kept| + (if EmptyParameters(scheme, path) then 1 else 0) && kept == path[..|kept|]
  {
    if EmptyParameters(scheme, path) then path[..|path| - 1] else path
  }

  /** `s.split(mark, 1)`, the second part empty when there is no mark. */
  function Cut(s: string, mark: char): (r: (string, string))
    ensures Free(r.0, {mark})
    ensures s == r.0 + Marked(mark, r.1) || (r.1 == "" && s == r.0 + [mark])
  {
    var i := Find(s, {mark});
    (s[..i], if i < |s| then s[i + 1..] else "")
  }

  /** What follows the network location. */
  function ParseTail(scheme: string, netloc: string, s: string): (u: Url)
    ensures u.scheme == scheme && u.netloc == netloc
  {
    var (front, fragment) := Cut(s, '#');
    var (path, query) := Cut(front, '?');
    Url(scheme, netloc, KeptPath(scheme, path), query, fragment)
  }

  /** The network location and what follows it. */
  function Location(rest: string): (r: (string, string))
    ensures Free(r.0, NETLOC_ENDS)
    ensures r.0 != "" ==> rest == "//" + (r.0 + r.1) && (r.1 != "" ==> r.1[0] in NETLOC_ENDS)
  {
    if StartsAt(rest, 0, "//") then
      var n := Find(rest[2..], NETLOC_ENDS);
      (rest[2..][..n], rest[2..][n..])
    else
      ("", rest)
  }

  function ParseClean(s: string): Parsed {
    var (netloc, tail) := Location(AfterScheme(s));
    if Free(netloc, BRACKETS) then Parsed(ParseTail(Lower(s[..SchemeLength(s)]), netloc, tail)) else Invalid
  }

  function Parse(url: string): Parsed { ParseClean(Clean(url)) }

  function Prefix(scheme: string): string { if scheme == "" then "//" else scheme + "://" }

  function Marked(mark: char, text: string): string { if text == "" then "" else [mark] + text }

  function Tail(u: Url): string { u.path + (Marked('?', u.query) + Marked('#', u.fragment)) }

  function Unparse(u: Url): string
    requires u.netloc != ""
  {
    Prefix(u.scheme) + (u.netloc + Tail(u))
  }

  /** Shape of every parsed URL that has a network location. */
  ghost predicate WellFormed(u: Url) {
    && (u.scheme != "" ==> IsLetter(u.scheme[0]))
    && (forall i :: 0 <= i < |u.scheme| ==> IsSchemeChar(u.scheme[i]) && LowerChar(u.scheme[i]) == u.scheme[i])
    && u.netloc != "" && Free(u.netloc, NETLOC_ENDS) && Free(u.netloc, BRACKETS) && Free(u.netloc, BREAKS)
    && WellFormedTail(u)
  }

  ghost predicate WellFormedTail(u: Url) {
    && (u.path != "" ==> u.path[0] == '/')
    && Free(u.path, {'?', '#'}) && Free(u.path, BREAKS) && !EmptyParameters(u.scheme, u.path)
    && Free(u.query, {'#'}) && Free(u.query, BREAKS) && Free(u.fragment, BREAKS)
  }

  lemma Parts(a: string, b: string, stops: set<char>)
    requires Free(a, stops) && Free(b, stops)
    ensures Free(a + b, stops)
  {
  }

  lemma CleanKeeps(s: string)
    ensures Clean(s) == s <==> (s != "" ==> s[0] > ' ') && Free(s, BREAKS)
    ensures |Clean(s)| <= |s| && (|Clean(s)| == |s| ==> Clean(s) == s) && Free(Clean(s), BREAKS)
  {
  }

  lemma SchemeOfPrinted(scheme: string, rest: string)
    requires scheme != "" ==> IsLetter(scheme[0])
    requires forall i :: 0 <= i < |scheme| ==> IsSchemeChar(scheme[i])
    ensures SchemeLength(Prefix(scheme) + rest) == |scheme|
    ensures AfterScheme(Prefix(scheme) + rest) == "//" + rest
  {
    var s := Prefix(scheme) + rest;
    if scheme != "" {
      var tail := "://" + rest;
      assert s == scheme + tail;
      FindAppend(scheme, tail, {':'});
      assert forall i :: 0 <= i < |scheme| ==> s[i] == scheme[i];
      assert s[|scheme| + 1..] == "//" + rest;
    } else {
      assert s[0] == '/';
    }
  }

  lemma CutMarked(front: string, mark: char, text: string)
    requires Free(front, {mark})
    ensures Cut(front + Marked(mark, text), mark) == (front, text)
  {
    FindAppend(front, Marked(mark, text), {mark});
    assert (front + Marked(mark, text))[..|front|] == front;
    assert text != "" ==> (front + Marked(mark, text))[|front| + 1..] == text;
  }

  lemma TailStarts(u: Url)
    requires WellFormedTail(u)
    ensures Tail(u) != "" ==> Tail(u)[0] in NETLOC_ENDS
    ensures Free(Tail(u), BREAKS)
  {
  }

  lemma TailOfPrinted(u: Url)
    requires WellFormedTail(u)
    ensures ParseTail(u.scheme, u.netloc, Tail(u)) == u
  {
    hide EmptyParameters, Cut;
    var front := u.path + Marked('?', u.query);
    assert Tail(u) == front + Marked('#', u.fragment);
    Parts(u.path, Marked('?', u.query), {'#'}) by { assert Free(u.path, {'#'}); }
    CutMarked(front, '#', u.fragment);
    CutMarked(u.path, '?', u.query) by { assert Free(u.path, {'?'}); }
  }

  lemma LocationOfPrinted(u: Url)
    requires WellFormed(u)
    ensures Location("//" + (u.netloc + Tail(u))) == (u.netloc, Tail(u))
  {
    hide WellFormedTail, Tail;
    var rest := u.netloc + Tail(u);
    assert ("//" + rest)[2..] == rest;
    TailStarts(u);
    FindAppend(u.netloc, Tail(u), NETLOC_ENDS);
    assert rest[..|u.netloc|] == u.netloc && rest[|u.netloc|..] == Tail(u);
  }

  /** Parsing what was printed gives the parts back. */
  lemma ParseUnparse(u: Url)
    requires WellFormed(u)
    ensures Parse(Unparse(u)) == Parsed(u)
  {
    hide WellFormedTail, EmptyParameters, Tail, ParseTail, SchemeLength, AfterScheme, Clean, Location;
    var s := Unparse(u);
    var rest := u.netloc + Tail(u);
    PrintedIsClean(u);
    SchemeOfPrinted(u.scheme, rest);
    assert s[..|u.scheme|] == u.scheme == Lower(u.scheme);
    LocationOfPrinted(u);
    TailOfPrinted(u);
  }

  /** Printable characters other than those. */
  predicate Avoids(s: string, stops: set<char>) { forall i :: 0 <= i < |s| ==> s[i] > ' ' && s[i] !in stops }

  /** A scheme as drivers are named: a lower-case letter, then lower-case letters, digits, plus, minus and dot. */
  predicate DriverName(s: string) {
    s != "" && 'a' <= s[0] <= 'z'
    && forall i :: 0 <= i < |s| ==> 'a' <= s[i] <= 'z' || '0' <= s[i] <= '9' || s[i] == '+' || s[i] == '-' || s[i] == '.'
  }

  /** What parsing makes of a URL written out, with and without query and fragment. */
  lemma ParsesWrittenUrl(scheme: string, netloc: string, path: string, query: string, fragment: string)
    requires DriverName(scheme) && netloc != "" && Avoids(netloc, {'/', '?', '#', '[', ']'})
    requires (path != "" ==> path[0] == '/') && Avoids(path, {'?', '#', ';'}) && Avoids(query, {'#'}) && Avoids(fragment, {})
    ensures query != "" && fragment != "" ==>
      Parse(scheme + "://" + netloc + path + "?" + query + "#" + fragment) == Parsed(Url(scheme, netloc, path, query, fragment))
    ensures query != "" ==>
      Parse(scheme + "://" + netloc + path + "?" + query) == Parsed(Url(scheme, netloc, path, query, ""))
    ensures Parse(scheme + "://" + netloc + path) == Parsed(Url(scheme, netloc, path, "", ""))
  {
    hide Parse, Unparse;
    FrontPrinted(scheme, netloc, path);
    if query != "" {
      QueryPrinted(scheme, netloc, path, query, fragment);
    }
    WrittenUrl(Url(scheme, netloc, path, query, fragment));
    WrittenUrl(Url(scheme, netloc, path, query, ""));
    WrittenUrl(Url(scheme, netloc, path, "", ""));
  }

  lemma FrontPrinted(scheme: string, netloc: string, path: string)
    requires scheme != "" && netloc != ""
    ensures Unparse(Url(scheme, netloc, path, "", "")) == scheme + "://" + netloc + path
  {
    var tail := path + ("" + "");
    assert tail == path;
    assert (scheme + "://") + (netloc + tail) == scheme + "://" + netloc + path;
  }

  lemma QueryPrinted(scheme: string, netloc: string, path: string, query: string, fragment: string)
    requires scheme != "" && netloc != "" && query != ""
    ensures Unparse(Url(scheme, netloc, path, query, "")) == scheme + "://" + netloc + path + "?" + query
    ensures fragment != "" ==>
      Unparse(Url(scheme, netloc, path, query, fragment)) == scheme + "://" + netloc + path + "?" + query + "#" + fragment
  {
    var front := scheme + "://" + netloc + path;
    assert (scheme + "://") + (netloc + (path + (("?" + query) + ""))) == front + "?" + query;
    assert (scheme + "://") + (netloc + (path + (("?" + query) + ("#" + fragment)))) == front + "?" + query + "#" + fragment;
  }

  lemma WrittenUrl(u: Url)
    requires DriverName(u.scheme) && u.netloc != "" && Avoids(u.netloc, {'/', '?', '#', '[', ']'})
    requires (u.path != "" ==> u.path[0] == '/') && Avoids(u.path, {'?', '#', ';'}) && Avoids(u.query, {'#'}) && Avoids(u.fragment, {})
    ensures Parse(Unparse(u)) == Parsed(u)
  {
    ParseUnparse(u);
  }

  lemma PrintedIsClean(u: Url)
    requires WellFormed(u)
    ensures Unparse(u)[0] > ' ' && Clean(Unparse(u)) == Unparse(u)
  {
    hide WellFormedTail, EmptyParameters, Tail;
    TailStarts(u);
    Parts(u.netloc, Tail(u), BREAKS);
    assert Free(Prefix(u.scheme), BREAKS);
    Parts(Prefix(u.scheme), u.netloc + Tail(u), BREAKS);
    CleanKeeps(Unparse(u));
  }

  lemma KeptPathIsFinal(scheme: string, path: string)
    ensures !EmptyParameters(scheme, KeptPath(scheme, path))
  {
  }

  /** No `?`, `#` or parameter semicolon that introduces nothing. */
  predicate NoEmptyMarks(scheme: string, s: string) {
    var front := Cut(s, '#').0;
    var path := Cut(front, '?').0;
    s != front + ['#'] && front != path + ['?'] && !EmptyParameters(scheme, path)
  }

  lemma FreeParts(a: string, b: string, stops: set<char>)
    requires Free(a + b, stops)
    ensures Free(a, stops) && Free(b, stops)
  {
  }

  lemma CutFree(s: string, mark: char, stops: set<char>)
    requires Free(s, stops)
    ensures Free(Cut(s, mark).0, stops) && Free(Cut(s, mark).1, stops)
  {
  }

  lemma TailParsed(scheme: string, netloc: string, s: string)
    requires s != "" ==> s[0] in NETLOC_ENDS
    requires Free(s, BREAKS)
    ensures WellFormedTail(ParseTail(scheme, netloc, s))
  {
    hide EmptyParameters, Cut;
    var (front, fragment) := Cut(s, '#');
    var (path, query) := Cut(front, '?');
    CutFree(s, '#', BREAKS);
    CutFree(front, '?', BREAKS);
    CutFree(front, '?', {'#'});
    KeptPathIsFinal(scheme, path);
    assert forall c :: c in KeptPath(scheme, path) ==> c in path;
    assert Free(path, {'?'}) && Free(path, {'?', '#'});
    assert path != "" ==> front != "" && path[0] == front[0] == s[0] && path[0] in path;
    assert path != "" ==> path[0] == '/';
  }

  /** Printing drops exactly the empty marks. */
  lemma TailPrinted(scheme: string, netloc: string, s: string)
    ensures var t := Tail(ParseTail(scheme, netloc, s));
      && |t| <= |s| && (NoEmptyMarks(scheme, s) <==> |t| == |s|) && (|t| == |s| ==> t == s)
  {
    hide EmptyParameters, Cut, Free;
    var (front, fragment) := Cut(s, '#');
    var (path, query) := Cut(front, '?');
    var u := ParseTail(scheme, netloc, s);
    assert Tail(u) == (KeptPath(scheme, path) + Marked('?', query)) + Marked('#', fragment);
    assert |s| == |front + Marked('#', fragment)| + (if s == front + ['#'] then 1 else 0);
    assert |front| == |path + Marked('?', query)| + (if front == path + ['?'] then 1 else 0);
    assert |path| == |KeptPath(scheme, path)| + (if EmptyParameters(scheme, path) then 1 else 0);
  }

  /** The pieces a parsed URL was cut into, in order. */
  lemma Pieces(url: string, u: Url)
    requires Parse(url) == Parsed(u) && u.netloc != ""
    ensures var s := Clean(url); var n := SchemeLength(s); var tail := Location(AfterScheme(s)).1;
      && s == Prefix(s[..n]) + (u.netloc + tail)
      && u == ParseTail(Lower(s[..n]), u.netloc, tail)
      && Free(u.netloc, BRACKETS) && Free(u.netloc, NETLOC_ENDS) && (tail != "" ==> tail[0] in NETLOC_ENDS)
  {
    hide ParseTail, Clean, Location, Free;
    var s := Clean(url);
    var n := SchemeLength(s);
    var (netloc, tail) := Location(AfterScheme(s));
    assert u.netloc == netloc;
    assert AfterScheme(s) == "//" + (netloc + tail);
    if n > 0 {
      assert s == s[..n] + [':'] + s[n + 1..];
    }
  }

  lemma SchemeIsLower(s: string)
    ensures var scheme := Lower(s[..SchemeLength(s)]);
      && (scheme != "" ==> IsLetter(scheme[0]))
      && forall i :: 0 <= i < |scheme| ==> IsSchemeChar(scheme[i]) && LowerChar(scheme[i]) == scheme[i]
  {
  }

  lemma ParsedIsWellFormed(url: string, u: Url)
    requires Parse(url) == Parsed(u) && u.netloc != ""
    ensures WellFormed(u)
  {
    hide WellFormedTail, ParseTail, Clean, Location, Free, Parse, SchemeLength, Lower, AfterScheme;
    Pieces(url, u);
    CleanKeeps(url);
    var s := Clean(url);
    SchemeIsLower(s);
    var scheme := s[..SchemeLength(s)];
    var tail := Location(AfterScheme(s)).1;
    FreeParts(Prefix(scheme), u.netloc + tail, BREAKS);
    FreeParts(u.netloc, tail, BREAKS);
    TailParsed(u.scheme, u.netloc, tail);
  }

  /** A URL with a lower-case scheme, no control in front, no line break and no empty mark. */
  predicate Canonical(url: string) {
    var scheme := url[..SchemeLength(url)];
    && (url != "" ==> url[0] > ' ') && Free(url, BREAKS)
    && Lower(scheme) == scheme
    && NoEmptyMarks(scheme, Location(AfterScheme(url)).1)
  }

  lemma SamePrint(scheme: string, netloc: string, tail: string, kept: string)
    requires |kept| <= |tail| && (|kept| == |tail| ==> kept == tail)
    ensures var printed := Prefix(Lower(scheme)) + (netloc + kept); var s := Prefix(scheme) + (netloc + tail);
      && |printed| <= |s| && (printed == s <==> Lower(scheme) == scheme && kept == tail)
  {
    var printed := Prefix(Lower(scheme)) + (netloc + kept);
    var s := Prefix(scheme) + (netloc + tail);
    assert printed[..|scheme|] == Lower(scheme) && s[..|scheme|] == scheme;
    assert |s| == |printed| + |tail| - |kept|;
  }

  /** Splitting and printing gives back exactly the canonical URLs. */
  lemma PrintedUnchanged(url: string, u: Url)
    requires Parse(url) == Parsed(u) && u.netloc != ""
    ensures Unparse(u) == url <==> Canonical(url)
    ensures |Unparse(u)| <= |url|
  {
    hide NoEmptyMarks, Tail, ParseTail, SchemeLength, Location, AfterScheme, Clean, Free, Parse, Prefix, Lower;
    Pieces(url, u);
    CleanKeeps(url);
    var s := Clean(url);
    var scheme := s[..SchemeLength(s)];
    var tail := Location(AfterScheme(s)).1;
    TailPrinted(u.scheme, u.netloc, tail);
    SamePrint(scheme, u.netloc, tail, Tail(u));
  }
}
