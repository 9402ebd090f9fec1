/** Moving a database URL between the two ports of the connection pooler. */
module PoolerUrl {
  import opened Text
  import opened Decimal
  import opened Urls

  datatype Port = Absent | Number(n: nat) | Bad

  /** What a helper gives back: a URL, or the `ValueError` of a malformed one. */
  datatype Outcome = Returned(url: string) | Raised

  const POOLER := "pooler.supabase.com"
  const SESSION: nat := 5432
  const TRANSACTION: nat := 6543

  /** Where the host begins: behind the last `@`. */
  function HostStart(netloc: string): (i: nat)
    ensures i <= |netloc| && (i > 0 ==> netloc[i - 1] == '@') && Free(netloc[i..], {'@'})
  {
    if netloc == "" then 0
    else if netloc[|netloc| - 1] == '@' then |netloc|
    else
      var front := netloc[..|netloc| - 1];
      var i := HostStart(front);
      assert netloc[i..] == front[i..] + [netloc[|netloc| - 1]];
      i
  }

  function HostAndPort(netloc: string): (string, string) { Cut(netloc[HostStart(netloc)..], ':') }

  function HostText(netloc: string): string { HostAndPort(netloc).0 }

  function PortText(netloc: string): string { HostAndPort(netloc).1 }

  /** Lower case, except for an address zone behind `%`. */
  function LowerHost(host: string): (h: string)
    ensures |h| == |host|
  {
    var i := Find(host, {'%'});
    Lower(host[..i]) + host[i..]
  }

  predicate AllDigits(s: string) { forall i :: 0 <= i < |s| ==> '0' <= s[i] <= '9' }

  function PortOf(netloc: string): Port {
    var text := PortText(netloc);
    if text == "" then Absent
    else if AllDigits(text) && 0 <= Value(text) <= 65535 then Number(Value(text))
    else Bad
  }

  /** `parsed.port or 5432` */
  function PortNumber(p: Port): nat
    requires !p.Bad?
  {
    if p.Number? && p.n != 0 then p.n else SESSION
  }

  predicate EndsWith(s: string, t: string) { |t| <= |s| && s[|s| - |t|..] == t }

  /** What the source looks for at the end of the network location. */
  function Suffix(netloc: string): string
    requires !PortOf(netloc).Bad?
  {
    LowerHost(HostText(netloc)) + (":" + Digits(PortNumber(PortOf(netloc))))
  }

  /** Changes only the port. */
  function WithPort(url: string, port: nat): Outcome {
    var parsed := Parse(url);
    if parsed.Invalid? || PortOf(parsed.url.netloc).Bad? then Raised else
      var netloc := parsed.url.netloc;
      var host := LowerHost(HostText(netloc));
      var suffix := Suffix(netloc);
      if host == "" || !EndsWith(netloc, suffix) then Returned(url) else
        Returned(Unparse(parsed.url.(netloc := netloc[..|netloc| - |suffix|] + (host + (":" + Digits(port))))))
  }

  /** An explicit, plainly written port behind a lower-case host. */
  predicate Movable(netloc: string) {
    && PortOf(netloc).Number? && PortOf(netloc).n > 0
    && PortText(netloc) == Digits(PortOf(netloc).n)
    && HostText(netloc) != "" && LowerHost(HostText(netloc)) == HostText(netloc)
  }

  /** The network location up to its port. */
  function Front(netloc: string): string
    requires |PortText(netloc)| <= |netloc|
  {
    netloc[..|netloc| - |PortText(netloc)|]
  }

  lemma {:induction false} LastColon(a: string, x: string, b: string, y: string)
    requires Free(x, {':'}) && Free(y, {':'})
    requires a + (":" + x) == b + (":" + y)
    ensures x == y && a == b
    decreases |x|
  {
    var s := a + (":" + x);
    assert s[|s| - 1] == if x == "" then ':' else x[|x| - 1];
    assert s[|s| - 1] == if y == "" then ':' else y[|y| - 1];
    if x != "" {
      var x', y' := x[..|x| - 1], y[..|y| - 1];
      assert s[..|s| - 1] == a + (":" + x') == b + (":" + y');
      LastColon(a, x', b, y');
      assert x == x' + [s[|s| - 1]] && y == y' + [s[|s| - 1]];
    } else {
      assert a == s[..|s| - 1] == b;
    }
  }

  lemma Behind(user: string, info: string)
    requires Free(info, {'@'})
    ensures var (host, port) := Cut(info, ':');
      && Free(host, {'@', ':'})
      && (user + info == (user + host) + Marked(':', port) || (port == "" && user + info == (user + host) + [':']))
  {
  }

  /** A network location is its user part, its host and, after a colon, its port. */
  lemma Anatomy(netloc: string)
    ensures var user := netloc[..HostStart(netloc)]; var (host, port) := HostAndPort(netloc);
      && Free(host, {'@', ':'})
      && (netloc == (user + host) + Marked(':', port) || (port == "" && netloc == (user + host) + [':']))
  {
    hide Cut, Free, Marked;
    var user, info := netloc[..HostStart(netloc)], netloc[HostStart(netloc)..];
    assert netloc == user + info;
    Behind(user, info);
  }

  lemma DigitsFree(s: string)
    requires AllDigits(s)
    ensures Free(s, {':'}) && Free(s, {'@'}) && Free(s, NETLOC_ENDS) && Free(s, BRACKETS) && Free(s, BREAKS)
  {
  }

  lemma DigitsAreDigits(n: nat)
    ensures AllDigits(Digits(n)) && Digits(n) != ""
  {
  }

  lemma SessionDigits()
    ensures Digits(SESSION) == "5432" && Digits(TRANSACTION) == "6543"
    ensures Value("5432") == SESSION
  {
    assert Digits(5) == "5" && Digits(54) == "54" && Digits(543) == "543";
    assert Digits(6) == "6" && Digits(65) == "65" && Digits(654) == "654";
    ValueOfDigits(SESSION);
  }

  /** Without a port in writing, no suffix can carry one. */
  lemma NoPortNoMatch(user: string, host: string, before: string)
    requires user != "" ==> user[|user| - 1] == '@'
    requires Free(host, {'@', ':'})
    requires |before| >= |host|
    ensures user + host != before + ":5432"
  {
    var s, t := user + host, before + ":5432";
    assert t[|before|] == ':' && forall i :: |before| <= i < |t| ==> t[i] != '@';
    if |s| == |t| {
      if |before| < |user| {
        assert s[|user| - 1] == '@' != t[|user| - 1];
      } else {
        assert s[|before|] == host[|before| - |user|] != t[|before|];
      }
    }
  }

  lemma SuffixSplit(netloc: string, host: string, number: string)
    requires EndsWith(netloc, host + (":" + number))
    ensures |netloc| > |number| + |host|
    ensures var before := netloc[..|netloc| - |number| - 1];
      && netloc == before + (":" + number) && before[|before| - |host|..] == host
  {
  }

  lemma Matched(user: string, text: string, port: string, netloc: string, host: string, number: string)
    requires user != "" ==> user[|user| - 1] == '@'
    requires Free(text, {'@', ':'}) && Free(port, {':'}) && Free(number, {':'})
    requires |host| == |text| && number != "" && (port == "" ==> number == "5432")
    requires netloc == (user + text) + Marked(':', port) || (port == "" && netloc == (user + text) + [':'])
    requires EndsWith(netloc, host + (":" + number))
    ensures port == number && host == text
  {
    hide Free, EndsWith;
    SuffixSplit(netloc, host, number);
    var before := netloc[..|netloc| - |number| - 1];
    if netloc == user + text {
      NoPortNoMatch(user, text, before);
    } else {
      assert netloc == (user + text) + (":" + port);
      LastColon(user + text, port, before, number);
      assert host == before[|before| - |host|..] == text;
    }
  }

  lemma MatchIsMovable(netloc: string)
    requires !PortOf(netloc).Bad? && HostText(netloc) != ""
    requires EndsWith(netloc, Suffix(netloc))
    ensures Movable(netloc)
  {
    hide Cut, HostStart, Find, Digits, Value, LowerHost, Free, AllDigits, EndsWith, Marked;
    Anatomy(netloc);
    SessionDigits();
    var user := netloc[..HostStart(netloc)];
    var (text, port) := HostAndPort(netloc);
    var number := Digits(PortNumber(PortOf(netloc)));
    DigitsAreDigits(PortNumber(PortOf(netloc)));
    DigitsFree(number);
    DigitsFree(port);
    Matched(user, text, port, netloc, LowerHost(text), number);
  }

  lemma Layout(netloc: string, user: string, text: string, port: string, suffix: string)
    requires netloc == (user + text) + (":" + port) && suffix == text + (":" + port)
    ensures EndsWith(netloc, suffix) && netloc[..|netloc| - |suffix|] == user
    ensures netloc[..|netloc| - |port|] == user + (text + ":")
  {
  }

  /** A movable location is its user part, its host, a colon and its port. */
  lemma MovableLayout(netloc: string)
    requires Movable(netloc)
    ensures var user := netloc[..HostStart(netloc)]; var (text, digits) := HostAndPort(netloc);
      && (user != "" ==> user[|user| - 1] == '@') && Free(text, {'@', ':'})
      && netloc == (user + text) + (":" + digits)
  {
    Anatomy(netloc);
    hide Cut, HostStart, Digits, Value, LowerHost, Free, AllDigits;
  }

  lemma MovableMatches(netloc: string)
    requires Movable(netloc)
    ensures var user := netloc[..HostStart(netloc)];
      && EndsWith(netloc, Suffix(netloc)) && netloc[..|netloc| - |Suffix(netloc)|] == user
      && |PortText(netloc)| <= |netloc| && Front(netloc) == user + (HostText(netloc) + ":")
  {
    hide HostAndPort, HostStart, EndsWith, Digits, Value, LowerHost, Free, AllDigits;
    MovableLayout(netloc);
    var user := netloc[..HostStart(netloc)];
    var (text, digits) := HostAndPort(netloc);
    Layout(netloc, user, text, digits, Suffix(netloc));
  }

  lemma {:induction false} HostStartIs(user: string, info: string)
    requires user != "" ==> user[|user| - 1] == '@'
    requires Free(info, {'@'})
    ensures HostStart(user + info) == |user|
  {
    if info == "" {
      assert user + info == user;
    } else {
      var front := info[..|info| - 1];
      assert (user + info)[..|user + info| - 1] == user + front;
      HostStartIs(user, front);
    }
  }

  /** The network location with another port. */
  function Moved(netloc: string, port: nat): string
    requires |PortText(netloc)| <= |netloc|
  {
    Front(netloc) + Digits(port)
  }

  lemma PlainPort(port: nat)
    requires port <= 65535
    ensures Digits(port) != "" && AllDigits(Digits(port)) && Value(Digits(port)) == port
  {
  }

  lemma Assembled(user: string, text: string, digits: string)
    requires user != "" ==> user[|user| - 1] == '@'
    requires Free(text, {'@', ':'}) && AllDigits(digits)
    ensures HostAndPort((user + text) + Marked(':', digits)) == (text, digits)
  {
    var info := text + Marked(':', digits);
    assert (user + text) + Marked(':', digits) == user + info;
    HostStartIs(user, info);
    assert (user + info)[|user|..] == info;
    CutMarked(text, ':', digits);
  }

  /** Host and port of a location written out: what stands behind the last `@`, up to and behind its first colon. */
  lemma HostAndPortExactly(user: string, host: string, rest: string)
    requires user != "" ==> user[|user| - 1] == '@'
    requires '@' !in host && ':' !in host && '@' !in rest
    ensures HostText(user + host + ":" + rest) == host && PortText(user + host + ":" + rest) == rest
    ensures HostText(user + host) == host && PortText(user + host) == ""
  {
    HostStartIs(user, host + ":" + rest);
    HostStartIs(user, host);
    assert user + host + ":" + rest == user + (host + ":" + rest);
    CutAt(host, rest);
    hide HostStart, Cut;
    assert (user + (host + ":" + rest))[|user|..] == host + ":" + rest;
    assert (user + host)[|user|..] == host;
  }

  lemma CutAt(host: string, rest: string)
    requires ':' !in host
    ensures Cut(host + ":" + rest, ':') == (host, rest) && Cut(host, ':') == (host, "")
  {
    FindAppend(host, ":" + rest, {':'});
    FindAppend(host, "", {':'});
    assert host + "" == host;
    assert host + ":" + rest == host + (":" + rest);
    assert (host + ":" + rest)[|host| + 1..] == rest;
  }

  lemma MovedParts(netloc: string, port: nat)
    requires Movable(netloc) && 0 < port <= 65535
    ensures |PortText(netloc)| <= |netloc|
    ensures HostAndPort(Moved(netloc, port)) == (HostText(netloc), Digits(port))
    ensures PortOf(Moved(netloc, port)) == Number(port) && Movable(Moved(netloc, port))
    ensures |Digits(port)| <= |Moved(netloc, port)| && Front(Moved(netloc, port)) == Front(netloc)
  {
    hide HostAndPort, HostStart, EndsWith, Digits, Value, LowerHost, Free, AllDigits, Suffix;
    MovableMatches(netloc);
    MovableLayout(netloc);
    PlainPort(port);
    var user, text, digits := netloc[..HostStart(netloc)], HostText(netloc), Digits(port);
    Assembled(user, text, digits);
    var moved := (user + text) + (":" + digits);
    assert moved == Moved(netloc, port);
    Layout(moved, user, text, digits, text + (":" + digits));
  }

  lemma WithPortParsed(url: string, u: Url, port: nat)
    requires Parse(url) == Parsed(u) && !PortOf(u.netloc).Bad?
    ensures Movable(u.netloc) ==> |PortText(u.netloc)| <= |u.netloc|
    ensures WithPort(url, port) ==
      Returned(if Movable(u.netloc) then Unparse(u.(netloc := Moved(u.netloc, port))) else url)
  {
    hide Parse, Unparse, HostAndPort, PortOf, Digits, Value, LowerHost, AllDigits, EndsWith;
    var netloc := u.netloc;
    if Movable(netloc) {
      MovableMatches(netloc);
      var before, host, digits := netloc[..|netloc| - |Suffix(netloc)|], HostText(netloc), Digits(port);
      assert before + (host + (":" + digits)) == (before + (host + ":")) + digits;
    } else if HostText(netloc) != "" && EndsWith(netloc, Suffix(netloc)) {
      MatchIsMovable(netloc);
    }
  }

  /**
   * What the port rewriting does, case by case: it raises exactly for a malformed location or port, moves
   * exactly the movable URLs, and gives every other one back as it is.
   */
  lemma WithPortExactly(url: string, port: nat)
    ensures var parsed := Parse(url);
      && (WithPort(url, port).Raised? <==> parsed.Invalid? || PortOf(parsed.url.netloc).Bad?)
      && (parsed.Parsed? && Movable(parsed.url.netloc) ==>
            |PortText(parsed.url.netloc)| <= |parsed.url.netloc|
            && WithPort(url, port) == Returned(Unparse(parsed.url.(netloc := Moved(parsed.url.netloc, port)))))
      && (parsed.Parsed? && !Movable(parsed.url.netloc) && !PortOf(parsed.url.netloc).Bad? ==> WithPort(url, port) == Returned(url))
  {
    var parsed := Parse(url);
    if parsed.Parsed? && !PortOf(parsed.url.netloc).Bad? {
      hide WithPort, Parse, PortText, Movable, HostText, Front, LowerHost, Digits, Unparse;
      WithPortParsed(url, parsed.url, port);
      MovableIsNumber(parsed.url.netloc);
    }
  }

  lemma MovableIsNumber(netloc: string)
    ensures Movable(netloc) ==> !PortOf(netloc).Bad?
  {
  }

  predicate NoUpperCase(s: string) { forall i :: 0 <= i < |s| ==> !('A' <= s[i] <= 'Z') }

  /** Lower-casing leaves a host alone exactly when it has no upper-case letter before a `%`. */
  lemma LowerHostExactly(host: string, name: string, zone: string)
    requires host == name + zone && '%' !in name && (zone != "" ==> zone[0] == '%')
    ensures LowerHost(host) == host <==> NoUpperCase(name)
  {
    FindAppend(name, zone, {'%'});
    assert host[..|name|] == name && host[|name|..] == zone;
    assert LowerHost(host) == Lower(name) + zone;
    assert LowerHost(host)[..|name|] == Lower(name);
    if Lower(name) == name {
      forall i | 0 <= i < |name|
        ensures !('A' <= name[i] <= 'Z')
      {
        assert LowerChar(name[i]) == Lower(name)[i] == name[i];
      }
    }
  }

  /** What can be moved, in characters: no upper-case letter in the host name, no sign or leading zero in the port. */
  lemma MovableExactly(netloc: string, name: string, zone: string)
    requires HostText(netloc) == name + zone && '%' !in name && (zone != "" ==> zone[0] == '%')
    ensures Movable(netloc) <==>
      && name + zone != "" && NoUpperCase(name)
      && exists n: nat :: 0 < n <= 65535 && PortText(netloc) == Digits(n)
  {
    LowerHostExactly(HostText(netloc), name, zone);
    hide HostAndPort, LowerHost, NoUpperCase, Digits, Value;
    if Movable(netloc) {
      assert PortText(netloc) == Digits(PortOf(netloc).n);
    }
    if n: nat :| 0 < n <= 65535 && PortText(netloc) == Digits(n) {
      PlainPort(n);
    }
  }

  lemma MovedIsWellFormed(u: Url, port: nat)
    requires WellFormed(u) && Movable(u.netloc) && 0 < port <= 65535
    ensures |PortText(u.netloc)| <= |u.netloc| && WellFormed(u.(netloc := Moved(u.netloc, port)))
  {
    hide Front, HostAndPort, PortOf, EndsWith, Digits, Value, LowerHost, AllDigits, Free, WellFormedTail, Movable;
    MovedParts(u.netloc, port);
    PlainPort(port);
    DigitsFree(Digits(port));
    MovedFree(u.netloc, port, NETLOC_ENDS);
    MovedFree(u.netloc, port, BRACKETS);
    MovedFree(u.netloc, port, BREAKS);
    EmptyParametersIgnoreLocation(u, Moved(u.netloc, port));
  }

  lemma EmptyParametersIgnoreLocation(u: Url, netloc: string)
    requires WellFormedTail(u)
    ensures WellFormedTail(u.(netloc := netloc))
  {
  }

  lemma MovedFree(netloc: string, port: nat, stops: set<char>)
    requires |PortText(netloc)| <= |netloc| && Free(netloc, stops) && Free(Digits(port), stops)
    ensures Free(Moved(netloc, port), stops)
  {
  }

  /** Moving to another port changes the parsed URL in its port and nowhere else. */
  lemma OnlyThePort(url: string, u: Url, port: nat)
    requires Parse(url) == Parsed(u) && Movable(u.netloc) && 0 < port <= 65535
    ensures |PortText(u.netloc)| <= |u.netloc|
    ensures WithPort(url, port).Returned?
    ensures var moved := Parse(WithPort(url, port).url);
      && moved == Parsed(u.(netloc := Moved(u.netloc, port)))
      && HostText(moved.url.netloc) == HostText(u.netloc)
      && PortOf(moved.url.netloc) == Number(port) && Movable(moved.url.netloc)
  {
    hide Parse, Unparse, Front, HostAndPort, PortOf, EndsWith, Digits, Value, LowerHost, AllDigits, Free, WellFormedTail;
    WithPortParsed(url, u, port);
    ParsedIsWellFormed(url, u);
    MovedIsWellFormed(u, port);
    MovedParts(u.netloc, port);
    ParseUnparse(u.(netloc := Moved(u.netloc, port)));
  }

  /**
   * Moving away and back again gives the URL as `urlunparse` prints it, byte for byte the original,
   * user part included, exactly when the original was written canonically.
   */
  lemma MovingBack(url: string, u: Url, port: nat)
    requires Parse(url) == Parsed(u) && Movable(u.netloc) && 0 < port <= 65535
    requires PortOf(u.netloc).n <= 65535
    ensures var moved := WithPort(url, port);
      && moved.Returned?
      && WithPort(moved.url, PortOf(u.netloc).n) == Returned(Unparse(u))
      && (WithPort(moved.url, PortOf(u.netloc).n) == Returned(url) <==> Canonical(url))
  {
    hide Parse, Unparse, Front, HostAndPort, PortOf, EndsWith, Digits, Value, LowerHost, AllDigits, Free, WellFormedTail, Canonical;
    var number := PortOf(u.netloc).n;
    OnlyThePort(url, u, port);
    MovedParts(u.netloc, port);
    WithPortParsed(WithPort(url, port).url, u.(netloc := Moved(u.netloc, port)), number);
    MovedToItself(u.netloc);
    PrintedUnchanged(url, u);
  }

  lemma MovedToItself(netloc: string)
    requires Movable(netloc)
    ensures |PortText(netloc)| <= |netloc| && Moved(netloc, PortOf(netloc).n) == netloc
  {
    hide HostAndPort, HostStart, EndsWith, Digits, Value, LowerHost, Free, AllDigits;
    MovableMatches(netloc);
    MovableLayout(netloc);
  }

  /** Chooses the port: the session port on development machines, the transaction port elsewhere. */
  function Normalize(session: bool, url: string): Outcome {
    var raw := Strip(url);
    if raw == "" then Returned(raw) else
      var parsed := Parse(raw);
      if parsed.Invalid? || PortOf(parsed.url.netloc).Bad? then Returned(raw) else
        var port := PortNumber(PortOf(parsed.url.netloc));
        if !Contains(Lower(LowerHost(HostText(parsed.url.netloc))), POOLER) then Returned(raw)
        else if session then if port == TRANSACTION then WithPort(raw, SESSION) else Returned(raw)
        else if port == SESSION then WithPort(raw, TRANSACTION)
        else Returned(raw)
  }

  function Target(session: bool): nat { if session then SESSION else TRANSACTION }

  /** A movable pooler URL that names the port of the other mode. */
  predicate Moves(session: bool, raw: string) {
    var parsed := Parse(raw);
    && parsed.Parsed? && Movable(parsed.url.netloc)
    && Contains(Lower(HostText(parsed.url.netloc)), POOLER)
    && PortOf(parsed.url.netloc).n == Target(!session)
  }

  /** Normalising moves exactly the movable pooler URLs of the other mode, and only their port. */
  lemma NormalizeExactly(session: bool, url: string)
    ensures var raw := Strip(url);
      && Normalize(session, url).Returned?
      && (Moves(session, raw) ==> Normalize(session, url) == WithPort(raw, Target(session)))
      && (!Moves(session, raw) ==> Normalize(session, url) == Returned(raw))
  {
    hide Parse, Unparse, HostAndPort, EndsWith, Digits, Value, LowerHost, Contains, Lower, Strip, PortOf, WithPort;
    var raw := Strip(url);
    var parsed := Parse(raw);
    if parsed.Parsed? && !PortOf(parsed.url.netloc).Bad? {
      WithPortParsed(raw, parsed.url, Target(session));
      EmptyUrl();
    }
  }

  lemma EmptyUrl()
    ensures Parse("") == Parsed(Url("", "", "", "", ""))
    ensures PortOf("") == Absent
  {
  }

  /** The mode decides the port of every movable pooler URL that names one of the two. */
  lemma NormalizedPort(session: bool, url: string, u: Url)
    requires Parse(Strip(url)) == Parsed(u) && Movable(u.netloc)
    requires Contains(Lower(HostText(u.netloc)), "pooler.supabase.com")
    requires PortOf(u.netloc).n in {5432, 6543}
    ensures |PortText(u.netloc)| <= |u.netloc|
    ensures Normalize(session, url).Returned?
    ensures Parse(Normalize(session, url).url) == Parsed(u.(netloc := Moved(u.netloc, if session then 5432 else 6543)))
    ensures PortOf(Moved(u.netloc, if session then 5432 else 6543)) == Number(if session then 5432 else 6543)
  {
    hide Parse, HostAndPort, EndsWith, Digits, Value, LowerHost, Contains, Lower, Strip, PortOf, WithPort, Moved, Normalize;
    NormalizeExactly(session, url);
    OnlyThePort(Strip(url), u, Target(session));
    MovedToItself(u.netloc);
  }

  lemma {:induction false} StripLeftStarts(s: string)
    ensures var t := StripLeft(s); t != "" ==> !IsSpace(t[0])
  {
    if s != "" && IsSpace(s[0]) {
      StripLeftStarts(s[1..]);
    }
  }

  lemma {:induction false} StripRightEnds(s: string)
    ensures var t := StripRight(s); t <= s && (t != "" ==> !IsSpace(t[|t| - 1]))
  {
    if s != "" && IsSpace(s[|s| - 1]) {
      StripRightEnds(s[..|s| - 1]);
    }
  }

  predicate EndsInSpace(s: string) { s != "" && IsSpace(s[|s| - 1]) }

  lemma StripTwice(s: string)
    ensures Strip(Strip(s)) == Strip(s)
  {
    StripLeftStarts(s);
    StripRightEnds(StripLeft(s));
  }

  lemma StripPrinted(s: string)
    requires s != "" && !IsSpace(s[0])
    ensures if EndsInSpace(s) then |Strip(s)| < |s| else Strip(s) == s
  {
    StripRightEnds(s);
  }

  lemma MovedPrint(u: Url, port: nat)
    requires WellFormed(u) && Movable(u.netloc) && 0 < port <= 65535
    ensures |PortText(u.netloc)| <= |u.netloc| && Moved(u.netloc, port) != ""
    ensures var v := Unparse(u.(netloc := Moved(u.netloc, port)));
      && v != "" && !IsSpace(v[0]) && (EndsInSpace(v) <==> EndsInSpace(Tail(u)))
      && |v| + |PortText(u.netloc)| == |Unparse(u)| + |Digits(port)|
  {
    hide HostAndPort, PortOf, EndsWith, Digits, Value, LowerHost, WellFormedTail, Movable, Tail;
    MovedIsWellFormed(u, port);
    var moved := u.(netloc := Moved(u.netloc, port));
    PrintedIsClean(moved);
    PlainPort(port);
    TailElsewhere(u, moved.netloc);
    assert Unparse(moved) == (Prefix(u.scheme) + Front(u.netloc)) + (Digits(port) + Tail(u));
  }

  lemma TailElsewhere(u: Url, netloc: string)
    ensures Tail(u.(netloc := netloc)) == Tail(u)
  {
  }

  lemma NeverLonger(session: bool, url: string)
    ensures Normalize(session, url).Returned? && |Normalize(session, url).url| <= |Strip(url)|
  {
    hide Parse, HostAndPort, EndsWith, Digits, Value, LowerHost, Contains, Lower, Strip, PortOf, WithPort, Normalize, Unparse, Tail, Front;
    NormalizeExactly(session, url);
    var raw := Strip(url);
    if Moves(session, raw) {
      var u := Parse(raw).url;
      WithPortParsed(raw, u, Target(session));
      ParsedIsWellFormed(raw, u);
      MovedPrint(u, Target(session));
      PrintedUnchanged(raw, u);
      SessionDigits();
    }
  }

  /**
   * Normalising twice is normalising once, unless a URL was moved whose printed remainder ends in
   * whitespace, which only the second call strips.
   */
  lemma NormalizeTwice(session: bool, url: string)
    ensures Normalize(session, url).Returned?
    ensures Normalize(session, Normalize(session, url).url) == Normalize(session, url)
      <==> !(Moves(session, Strip(url)) && EndsInSpace(Tail(Parse(Strip(url)).url)))
  {
    hide Parse, HostAndPort, EndsWith, Digits, Value, LowerHost, Contains, Lower, Strip, PortOf, WithPort, Normalize, Unparse, Tail, Front;
    var raw := Strip(url);
    NormalizeExactly(session, url);
    StripTwice(url);
    NormalizeExactly(session, raw);
    if Moves(session, raw) {
      var u := Parse(raw).url;
      var v := Normalize(session, url).url;
      WithPortParsed(raw, u, Target(session));
      ParsedIsWellFormed(raw, u);
      MovedPrint(u, Target(session));
      OnlyThePort(raw, u, Target(session));
      NormalizeExactly(session, v);
      StripPrinted(v);
      NeverLonger(session, v);
    }
  }

  lemma EmptyQueryParses(u: Url)
    requires WellFormed(u) && u.path != "" && u.query == "" && u.fragment == ""
    ensures Parse(Unparse(u) + "?") == Parsed(u)
  {
    hide WellFormedTail, SchemeLength, AfterScheme, Location, ParseTail, Clean, LowerHost, HostStart;
    var rest := u.netloc + (u.path + "?");
    var url := Prefix(u.scheme) + rest;
    assert url == Unparse(u) + "?";
    SchemeOfPrinted(u.scheme, rest);
    assert url[..|u.scheme|] == u.scheme == Lower(u.scheme);
    LocationParses(u.netloc, u.path + "?") by { assert WellFormedTail(u); PathStarts(u); }
    PrintedIsClean(u);
    UncleanFront(u);
    EmptyQueryTail(u);
  }

  lemma PathStarts(u: Url)
    requires WellFormedTail(u) && u.path != ""
    ensures (u.path + "?")[0] in NETLOC_ENDS
  {
  }

  lemma LocationParses(netloc: string, tail: string)
    requires netloc != "" && Free(netloc, NETLOC_ENDS) && tail != "" && tail[0] in NETLOC_ENDS
    ensures Location("//" + (netloc + tail)) == (netloc, tail)
  {
    var rest := netloc + tail;
    assert ("//" + rest)[2..] == rest;
    FindAppend(netloc, tail, NETLOC_ENDS);
    assert rest[..|netloc|] == netloc && rest[|netloc|..] == tail;
  }

  lemma UncleanFront(u: Url)
    requires WellFormed(u)
    ensures Clean(Unparse(u) + "?") == Unparse(u) + "?"
  {
    hide Unparse, WellFormedTail;
    PrintedIsClean(u);
    CleanKeeps(Unparse(u));
    Parts(Unparse(u), "?", BREAKS);
    CleanKeeps(Unparse(u) + "?");
  }

  lemma EmptyQueryTail(u: Url)
    requires WellFormedTail(u) && u.query == "" && u.fragment == ""
    ensures ParseTail(u.scheme, u.netloc, u.path + "?") == u
  {
    hide EmptyParameters;
    assert Free(u.path, {'?'}) && Free(u.path + "?", {'#'});
    CutMarked(u.path + "?", '#', "");
    assert u.path + "?" + "" == u.path + "?";
    FindAppend(u.path, "?", {'?'});
    assert (u.path + "?")[..|u.path|] == u.path;
  }

  predicate Unsettled(session: bool, url: string) {
    var once := Normalize(session, url);
    once.Returned? && Normalize(session, once.url) != once
  }

  /** Space in front of an empty query: normalising has not settled after one call. */
  lemma TrailingSpaceUnsettles(u: Url)
    requires WellFormed(u) && Movable(u.netloc) && PortOf(u.netloc).n == TRANSACTION
    requires Contains(Lower(HostText(u.netloc)), POOLER)
    requires EndsInSpace(u.path) && u.query == "" && u.fragment == ""
    ensures var url := Unparse(u) + "?"; Unsettled(true, url)
  {
    hide Parse, HostAndPort, EndsWith, Digits, Value, LowerHost, Contains, Lower, PortOf, WithPort, Normalize, WellFormedTail, Movable, Clean;
    var url := Unparse(u) + "?";
    EmptyQueryParses(u);
    PrintedIsClean(u);
    assert url[0] == Unparse(u)[0];
    assert Strip(url) == url;
    NormalizeTwice(true, url);
  }

  const EXAMPLE := Url("postgresql", POOLER + (":" + "6543"), "/ ", "", "")

  predicate PlainHost(s: string) { forall i :: 0 <= i < |s| ==> 'a' <= s[i] <= 'z' || s[i] == '.' }

  lemma PlainHostIsLower(s: string)
    requires PlainHost(s)
    ensures Free(s, {'@', ':'}) && Free(s, NETLOC_ENDS) && Free(s, BRACKETS) && Free(s, BREAKS)
    ensures Lower(s) == s && LowerHost(s) == s
  {
  }

  lemma PoolerHost()
    ensures Free(POOLER, {'@', ':'}) && Free(POOLER, NETLOC_ENDS) && Free(POOLER, BRACKETS) && Free(POOLER, BREAKS)
    ensures Lower(POOLER) == POOLER && LowerHost(POOLER) == POOLER && Contains(Lower(POOLER), POOLER)
  {
    assert PlainHost(POOLER);
    PlainHostIsLower(POOLER);
    hide PlainHost, Free, Lower, LowerHost;
    assert POOLER[0..|POOLER|] == POOLER;
    assert StartsAt(POOLER, 0, POOLER);
  }

  lemma ExampleMovable()
    ensures Movable(EXAMPLE.netloc) && PortOf(EXAMPLE.netloc).n == TRANSACTION && HostText(EXAMPLE.netloc) == POOLER
  {
    hide Digits, Value, HostAndPort, LowerHost, Lower, Free;
    PoolerHost();
    SessionDigits();
    PlainPort(TRANSACTION);
    assert ("" + POOLER) + Marked(':', "6543") == EXAMPLE.netloc;
    Assembled("", POOLER, "6543");
  }

  lemma ExampleWellFormed()
    ensures WellFormed(EXAMPLE)
  {
    hide LowerHost, Lower, EmptyParameters, Free, Contains;
    PoolerHost();
    assert forall i :: 0 <= i < |"postgresql"| ==> 'a' <= "postgresql"[i] <= 'z';
    assert !EmptyParameters("postgresql", "/ ") by { NoParameters("postgresql", "/ "); }
    PlainTail();
    assert ":" + "6543" == ":6543";
    Parts(POOLER, ":6543", NETLOC_ENDS);
    Parts(POOLER, ":6543", BRACKETS);
    Parts(POOLER, ":6543", BREAKS);
  }

  lemma PlainTail()
    ensures Free(":6543", NETLOC_ENDS) && Free(":6543", BRACKETS) && Free(":6543", BREAKS)
    ensures Free("/ ", {'?', '#'}) && Free("/ ", BREAKS)
    ensures forall stops :: Free("", stops)
  {
  }

  lemma NoParameters(scheme: string, path: string)
    requires path != "" && path[|path| - 1] != ';'
    ensures !EmptyParameters(scheme, path)
  {
  }

  lemma UnsettledExample()
    ensures var url := ("postgresql" + "://" + (POOLER + (":" + "6543") + "/ ")) + "?";
      Unsettled(true, url)
  {
    ExampleWellFormed();
    ExampleMovable();
    hide Normalize, EndsWith, Parse, WellFormed, Movable, PortOf, HostAndPort, Lower, Contains, LowerHost, Free;
    PoolerHost();
    TrailingSpaceUnsettles(EXAMPLE);
    assert Tail(EXAMPLE) == "/ ";
  }

  /** A URL with an empty query: moving its port away and back drops the mark. */
  lemma MovedBackExample()
    ensures var url := ("postgresql" + "://" + (POOLER + (":" + "6543") + "/ ")) + "?";
      var moved := WithPort(url, SESSION);
      moved.Returned? && WithPort(moved.url, TRANSACTION) != Returned(url)
  {
    hide EndsWith, Parse, WellFormed, Movable, PortOf, HostAndPort, Lower, Contains, LowerHost, Free, Digits, Value, WithPort;
    ExampleWellFormed();
    ExampleMovable();
    EmptyQueryParses(EXAMPLE);
    assert Tail(EXAMPLE) == "/ ";
    MovingBack(Unparse(EXAMPLE) + "?", EXAMPLE, SESSION);
  }
}
