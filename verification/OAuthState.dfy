/** The signed state that travels through an OAuth login. */
module OAuthState {
  import opened Options
  import Base64Url

  datatype Value = JStr(s: string) | JInt(n: int) | JBool(b: bool)

  type Payload = map<string, Value>

  datatype Loaded = Object(payload: Payload) | Other

  /**
   * The library functions, uninterpreted: the HMAC hex digest under the secret, JSON both ways, and
   * Python's `int()` on a JSON value, which may raise.
   */
  datatype Env = Env(
    sign: string -> string, dumps: Payload -> seq<Base64Url.Byte>, loads: seq<Base64Url.Byte> -> Option<Loaded>,
    toInt: Value -> Option<int>)

  predicate IsAscii(s: string) { forall i :: 0 <= i < |s| ==> s[i] as int < 128 }

  /** Digests are ASCII without dots, JSON reads back what it wrote, and `int` leaves integers alone. */
  ghost predicate Sound(e: Env) {
    && (forall s :: '.' !in e.sign(s) && IsAscii(e.sign(s)))
    && (forall p :: e.loads(e.dumps(p)) == Some(Object(p)))
    && forall n :: e.toInt(JInt(n)) == Some(n)
  }

  const TTL := 600

  // ----- creating -----

  type Extras = seq<(string, Option<Value>)>

  function WithExtras(base: Payload, extras: Extras): Payload {
    if extras == [] then base
    else
      var (k, v) := extras[|extras| - 1];
      var p := WithExtras(base, extras[..|extras| - 1]);
      if v.Some? then p[k := v.value] else p
  }

  function BasePayload(provider: string, nonce: string, now: int): Payload {
    map["nonce" := JStr(nonce), "provider" := JStr(provider), "exp" := JInt(now + TTL)]
  }

  function Render(e: Env, p: Payload): string {
    var body := Base64Url.Encode(e.dumps(p));
    body + "." + e.sign(body)
  }

  /** Extras are keyword arguments, so their names are distinct and none is `provider`. */
  ghost predicate KeywordArguments(extras: Extras) {
    && (forall i :: 0 <= i < |extras| ==> extras[i].0 != "provider")
    && forall i, j :: 0 <= i < j < |extras| ==> extras[i].0 != extras[j].0
  }

  method CreateOAuthState(e: Env, provider: string, extras: Extras, nonce: string, now: int) returns (state: string)
    ensures state == Render(e, WithExtras(BasePayload(provider, nonce, now), extras))
  {
    var payload := BasePayload(provider, nonce, now);
    var i := 0;
    while i < |extras|
      invariant 0 <= i <= |extras|
      invariant payload == WithExtras(BasePayload(provider, nonce, now), extras[..i])
    {
      assert extras[..i + 1][..i] == extras[..i];
      var (key, value) := extras[i];
      if value.Some? {
        payload := payload[key := value.value];
      }
      i := i + 1;
    }
    assert extras[..i] == extras;
    var body := Base64Url.Encode(e.dumps(payload));
    return body + "." + e.sign(body);
  }

  // ----- parsing -----

  /** Where the last dot is. */
  function LastDot(s: string): (k: Option<nat>)
    ensures k.Some? ==> k.value < |s| && s[k.value] == '.' && '.' !in s[k.value + 1..]
    ensures k.None? ==> '.' !in s
  {
    if s == "" then None
    else if s[|s| - 1] == '.' then Some(|s| - 1)
    else
      assert s == s[..|s| - 1] + [s[|s| - 1]];
      LastDot(s[..|s| - 1])
  }

  /** A payload, `None`, or an exception that leaves the function. */
  datatype Outcome = Accepted(payload: Payload) | Rejected | Raised

  function CheckPayload(e: Env, p: Payload, provider: string, now: int): Outcome {
    if "provider" !in p || p["provider"] != JStr(provider) then Rejected
    else
      var exp := e.toInt(if "exp" in p then p["exp"] else JInt(0));
      if exp.None? then Raised else if exp.value < now then Rejected else Accepted(p)
  }

  /** `parse_oauth_state`; `hmac.compare_digest` raises on text that is not ASCII. */
  function ParseOAuthState(e: Env, state: string, provider: string, now: int): Outcome {
    var dot := LastDot(state);
    if dot.None? then Rejected
    else
      var body, signature := state[..dot.value], state[dot.value + 1..];
      if !IsAscii(signature) then Raised
      else if e.sign(body) != signature then Rejected
      else
        var bytes := Base64Url.Decode(body);
        if bytes.None? then Rejected
        else
          match e.loads(bytes.value)
          case Some(Object(p)) => CheckPayload(e, p, provider, now)
          case _ => Rejected
  }

  // ----- the round trip -----

  /** The split at the last dot takes body and signature apart, as long as the signature has no dot. */
  lemma SplitsAtLastDot(body: string, signature: string)
    requires '.' !in signature
    ensures LastDot(body + "." + signature) == Some(|body|)
    ensures var s := body + "." + signature; s[..|body|] == body && s[|body| + 1..] == signature
  {
    var s := body + "." + signature;
    assert s[|body|] == '.' && s[|body| + 1..] == signature;
  }

  /** Parsing a rendered payload comes down to the checks on that very payload. */
  lemma ParseOfRender(e: Env, p: Payload, provider: string, now: int)
    requires Sound(e)
    ensures ParseOAuthState(e, Render(e, p), provider, now) == CheckPayload(e, p, provider, now)
  {
    var body := Base64Url.Encode(e.dumps(p));
    assert '.' !in e.sign(body) && IsAscii(e.sign(body));
    SplitsAtLastDot(body, e.sign(body));
    Base64Url.DecodeEncode(e.dumps(p));
  }

  /** What a created payload holds: the extras that are not None over the three base entries. */
  lemma {:induction false} PayloadEntries(base: Payload, extras: Extras, k: string)
    requires KeywordArguments(extras)
    ensures forall i :: 0 <= i < |extras| && extras[i].0 == k && extras[i].1.Some? ==>
              k in WithExtras(base, extras) && WithExtras(base, extras)[k] == extras[i].1.value
    ensures (forall i :: 0 <= i < |extras| && extras[i].0 == k ==> extras[i].1.None?) ==>
              (k in WithExtras(base, extras) <==> k in base) && (k in base ==> WithExtras(base, extras)[k] == base[k])
  {
    if extras != [] {
      var front := extras[..|extras| - 1];
      assert forall i :: 0 <= i < |front| ==> front[i] == extras[i];
      PayloadEntries(base, front, k);
    }
  }

  /**
   * The round trip, exactly: a state created for `provider` at `created` parses at `now` to the payload
   * built into it if and only if the provider is the same and no more than 600 seconds have passed; in
   * every other case it parses to None. Extras must not rename the expiry.
   */
  lemma RoundTrip(e: Env, provider: string, extras: Extras, nonce: string, created: int, asked: string, now: int)
    requires Sound(e) && KeywordArguments(extras)
    requires forall i :: 0 <= i < |extras| && extras[i].0 == "exp" ==> extras[i].1.None?
    ensures var p := WithExtras(BasePayload(provider, nonce, created), extras);
            ParseOAuthState(e, Render(e, p), asked, now)
            == if asked == provider && now <= created + TTL then Accepted(p) else Rejected
  {
    var base := BasePayload(provider, nonce, created);
    var p := WithExtras(base, extras);
    Different();
    PayloadEntries(base, extras, "provider");
    PayloadEntries(base, extras, "exp");
    ParseOfRender(e, p, asked, now);
    assert e.toInt(JInt(created + TTL)) == Some(created + TTL);
  }

  /** The payload of a created state: nonce, provider and expiry, unless an extra of that name overrides them, and the extras. */
  lemma CreatedPayload(provider: string, extras: Extras, nonce: string, created: int, k: string)
    requires KeywordArguments(extras)
    ensures var p := WithExtras(BasePayload(provider, nonce, created), extras);
      && p.Keys == {"nonce", "provider", "exp"} + (set i | 0 <= i < |extras| && extras[i].1.Some? :: extras[i].0)
      && p["provider"] == JStr(provider)
      && ((forall i :: 0 <= i < |extras| && extras[i].0 == "nonce" ==> extras[i].1.None?) ==> p["nonce"] == JStr(nonce))
      && ((forall i :: 0 <= i < |extras| && extras[i].0 == "exp" ==> extras[i].1.None?) ==> p["exp"] == JInt(created + 600))
      && forall i :: 0 <= i < |extras| && extras[i].0 == k && extras[i].1.Some? ==> p[k] == extras[i].1.value
  {
    var base := BasePayload(provider, nonce, created);
    Different();
    PayloadKeys(base, extras);
    PayloadEntries(base, extras, "provider");
    PayloadEntries(base, extras, "nonce");
    PayloadEntries(base, extras, "exp");
    PayloadEntries(base, extras, k);
  }

  lemma {:induction false} PayloadKeys(base: Payload, extras: Extras)
    ensures WithExtras(base, extras).Keys == base.Keys + (set i | 0 <= i < |extras| && extras[i].1.Some? :: extras[i].0)
  {
    if extras != [] {
      var front := extras[..|extras| - 1];
      PayloadKeys(base, front);
      assert forall i :: 0 <= i < |front| ==> front[i] == extras[i];
    }
  }

  lemma Different()
    ensures "nonce" != "provider" && "nonce" != "exp" && "provider" != "exp"
  {
  }

  /**
   * An extra called `exp` replaces the 600 seconds, whatever its value: the state then lives until the
   * integer `int` makes of it, and parsing raises when `int` makes none.
   */
  lemma ExtraExpiryWins(e: Env, provider: string, extras: Extras, nonce: string, created: int, i: nat, v: Value, now: int)
    requires Sound(e) && KeywordArguments(extras) && i < |extras| && extras[i] == ("exp", Some(v))
    ensures var p := WithExtras(BasePayload(provider, nonce, created), extras);
            ParseOAuthState(e, Render(e, p), provider, now)
            == match e.toInt(v) case None => Raised case Some(until) => if now <= until then Accepted(p) else Rejected
  {
    var base := BasePayload(provider, nonce, created);
    Different();
    PayloadEntries(base, extras, "provider");
    PayloadEntries(base, extras, "exp");
    ParseOfRender(e, WithExtras(base, extras), provider, now);
  }

  /** For this provider, and its expiry, or 0 where it names none, is a number not before `now`. */
  predicate Unexpired(e: Env, p: Payload, provider: string, now: int) {
    && "provider" in p && p["provider"] == JStr(provider)
    && (if "exp" in p then e.toInt(p["exp"]).Some? && now <= e.toInt(p["exp"]).value
        else e.toInt(JInt(0)).Some? && now <= e.toInt(JInt(0)).value)
  }

  /**
   * What is accepted, exactly: a text, a dot, and that text's own signature, where the text decodes to
   * a payload for this provider that has not expired. Nothing unsigned gets through.
   */
  lemma AcceptedExactly(e: Env, state: string, provider: string, now: int, p: Payload)
    requires Sound(e)
    ensures ParseOAuthState(e, state, provider, now) == Accepted(p) <==>
              exists body ::
                && state == body + "." + e.sign(body)
                && Base64Url.Decode(body).Some? && e.loads(Base64Url.Decode(body).value) == Some(Object(p))
                && Unexpired(e, p, provider, now)
  {
    hide LastDot, IsAscii, Base64Url.Decode;
    var dot := LastDot(state);
    if ParseOAuthState(e, state, provider, now) == Accepted(p) {
      var body := state[..dot.value];
      assert state == body + "." + e.sign(body);
    }
    if body :| && state == body + "." + e.sign(body)
               && Base64Url.Decode(body).Some? && e.loads(Base64Url.Decode(body).value) == Some(Object(p))
               && Unexpired(e, p, provider, now)
    {
      assert '.' !in e.sign(body) && IsAscii(e.sign(body));
      SplitsAtLastDot(body, e.sign(body));
    }
  }

  /** A signed payload for this provider whose expiry `int` rejects. */
  ghost predicate SignedWithoutExpiry(e: Env, body: string, provider: string) {
    var bytes := Base64Url.Decode(body);
    && bytes.Some? && e.loads(bytes.value).Some? && e.loads(bytes.value).value.Object?
    && var p := e.loads(bytes.value).value.payload;
    && "provider" in p && p["provider"] == JStr(provider)
    && "exp" in p && e.toInt(p["exp"]).None?
  }

  /**
   * Parsing does not always answer. Exactly: it raises for a last part that is not ASCII, which the
   * comparison refuses, and for a signed payload of this provider with an expiry that is no number.
   */
  lemma RaisesExactly(e: Env, state: string, provider: string, now: int)
    requires Sound(e)
    ensures ParseOAuthState(e, state, provider, now) == Raised <==>
              exists body, signature ::
                && state == body + "." + signature && '.' !in signature
                && (!IsAscii(signature) || (signature == e.sign(body) && SignedWithoutExpiry(e, body, provider)))
  {
    hide LastDot, IsAscii, Base64Url.Decode;
    var dot := LastDot(state);
    assert e.toInt(JInt(0)) == Some(0);
    if ParseOAuthState(e, state, provider, now) == Raised {
      var body, signature := state[..dot.value], state[dot.value + 1..];
      assert state == body + "." + signature;
    }
    if body, signature :| && state == body + "." + signature && '.' !in signature
                          && (!IsAscii(signature) || (signature == e.sign(body) && SignedWithoutExpiry(e, body, provider)))
    {
      SplitsAtLastDot(body, signature);
      assert IsAscii(e.sign(body));
    }
  }

  /** A state whose last part is the letter e acute makes parsing raise, whatever the secret. */
  lemma AccentRaises(e: Env, provider: string, now: int)
    requires Sound(e)
    ensures ParseOAuthState(e, "state.\U{E9}", provider, now) == Raised
  {
    var body, signature := "state", "\U{E9}";
    assert signature[0] as int == 0xE9;
    assert "state.\U{E9}" == body + "." + signature;
    RaisesExactly(e, "state.\U{E9}", provider, now);
  }
}
