/** Telling database-connection errors from other exceptions, and the response built from the answer. */
module Exceptions {
  import opened Options
  import opened Text

  type ExcId = nat

  /**
   * One exception object. `text` is its lower-cased message; `cause` is `__cause__`, `orig` the driver
   * error SQLAlchemy attaches; `truthy` is its truth value, which the `or` between the two consults.
   */
  datatype Exc = Exc(
    typeName: string, operational: bool, dbapi: bool, invalidated: bool, osError: bool,
    message: string, text: string, truthy: bool, cause: Option<ExcId>, orig: Option<ExcId>)

  type Graph = map<ExcId, Exc>

  const TOKENS: seq<string> := [
    "connection refused", "refused the network connection", "could not connect",
    "server closed the connection", "connection timed out", "timeout expired",
    "no connection to the server", "actively refused", "winerror 10061", "winerror 1225",
    "winerror 10060", "could not translate host name", "name or service not known",
    "emaxconnsession", "max clients reached", "too many clients",
    "remaining connection slots", "sorry, too many clients already"]

  /** The tests made on the exception handed in, before the walk. */
  predicate HeadTest(x: Exc) {
    x.operational || (x.dbapi && x.invalidated) || x.osError
  }

  /** The tests made on every exception of the walk. */
  predicate LinkTest(x: Exc) {
    x.operational || x.osError || exists i :: 0 <= i < |TOKENS| && Contains(x.text, TOKENS[i])
  }

  /** A reference of an exception object; one that names no object of the graph is no reference. */
  function Follow(g: Graph, o: Option<ExcId>): (r: Option<ExcId>)
    ensures r.Some? ==> r.value in g
  {
    if o.Some? && o.value in g then o else None
  }

  /** `cause.__cause__ or cause.orig`. */
  function Successor(g: Graph, x: ExcId): (r: Option<ExcId>)
    requires x in g
    ensures r.Some? ==> r.value in g
  {
    var cause := Follow(g, g[x].cause);
    if cause.Some? && g[cause.value].truthy then cause else Follow(g, g[x].orig)
  }

  /** The exception `n` links down the chain, if the chain is that long. */
  ghost function Link(g: Graph, x: ExcId, n: nat): (r: Option<ExcId>)
    requires x in g
    ensures r.Some? ==> r.value in g
  {
    if n == 0 then Some(x)
    else
      match Link(g, x, n - 1)
      case None => None
      case Some(y) => Successor(g, y)
  }

  /** What the walk is for: some exception down the chain, however far and however cyclic, passes a test. */
  ghost predicate ConnectionError(g: Graph, x: ExcId)
    requires x in g
  {
    HeadTest(g[x]) || exists n: nat :: Link(g, x, n).Some? && LinkTest(g[Link(g, x, n).value])
  }

  /**
   * The answer in terms of the exceptions themselves: the head is of a connection type or an invalidated
   * driver error, or somewhere down the chain there is a connection type or a listed token.
   */
  lemma ConnectionErrorExactly(g: Graph, x: ExcId)
    requires x in g
    ensures ConnectionError(g, x) <==>
      || (g[x].dbapi && g[x].invalidated)
      || exists y :: Down(g, x, y)
           && (g[y].operational || g[y].osError || exists i :: 0 <= i < |TOKENS| && Contains(g[y].text, TOKENS[i]))
  {
    hide Link, Contains, TOKENS;
    StartsHere(g, x);
    assert Down(g, x, x);
    forall y | Down(g, x, y) && LinkTest(g[y])
      ensures exists n: nat :: Link(g, x, n).Some? && LinkTest(g[Link(g, x, n).value])
    {
      var n: nat :| Link(g, x, n) == Some(y);
    }
    if n: nat :| Link(g, x, n).Some? && LinkTest(g[Link(g, x, n).value]) {
      assert Down(g, x, Link(g, x, n).value);
    }
  }

  lemma StartsHere(g: Graph, x: ExcId)
    requires x in g
    ensures Link(g, x, 0) == Some(x)
  {
  }

  /** `y` is `x` or some number of links down its chain. */
  ghost predicate Down(g: Graph, x: ExcId, y: ExcId)
    requires x in g
    ensures Down(g, x, y) ==> y in g
  {
    exists n: nat :: Link(g, x, n) == Some(y)
  }

  /** The step down the chain: the cause where there is one that is truthy, else the driver error, else nothing. */
  lemma SuccessorExactly(g: Graph, x: ExcId)
    requires x in g
    ensures forall c :: g[x].cause == Some(c) && c in g && g[c].truthy ==> Successor(g, x) == Some(c)
    ensures (g[x].cause.None? || g[x].cause.value !in g || !g[g[x].cause.value].truthy) ==>
              Successor(g, x) == if g[x].orig.Some? && g[x].orig.value in g then g[x].orig else None
  {
  }

  /** The chain ends here or goes on inside `seen`. */
  ghost predicate Inside(o: Option<ExcId>, seen: set<ExcId>) { o.None? || o.value in seen }

  /** The chain from a repeated exception stays among the exceptions already seen. */
  lemma {:induction false} ChainStaysIn(g: Graph, x: ExcId, k: nat, seen: set<ExcId>, n: nat)
    requires x in g && seen <= g.Keys
    requires forall y {:trigger Successor(g, y)} :: y in seen ==> Inside(Successor(g, y), seen)
    requires Inside(Link(g, x, k), seen) && n >= k
    ensures Inside(Link(g, x, n), seen)
  {
    if n > k {
      ChainStaysIn(g, x, k, seen, n - 1);
      if Link(g, x, n - 1).Some? {
        assert Inside(Successor(g, Link(g, x, n - 1).value), seen);
      }
    }
  }

  /**
   * `_is_db_connection_error`. Terminates on every finite graph, cyclic ones included, and misses no
   * exception that repeated steps can reach.
   */
  method IsDbConnectionError(g: Graph, exc: ExcId) returns (found: bool)
    requires exc in g
    ensures found <==> ConnectionError(g, exc)
  {
    if g[exc].operational {
      return true;
    }
    if g[exc].dbapi && g[exc].invalidated {
      return true;
    }
    if g[exc].osError {
      return true;
    }
    var cause, seen := Some(exc), {};
    ghost var n := 0;
    while cause.Some? && cause.value !in seen
      invariant seen <= g.Keys
      invariant cause == Link(g, exc, n) && (cause.Some? ==> cause.value in g)
      invariant forall i: nat :: i < n ==> Link(g, exc, i).Some? && Link(g, exc, i).value in seen
      invariant forall y :: y in seen ==> !LinkTest(g[y])
      invariant forall y {:trigger Successor(g, y)} :: y in seen ==> Successor(g, y) == cause || Inside(Successor(g, y), seen)
      decreases g.Keys - seen
    {
      seen := seen + {cause.value};
      var x := g[cause.value];
      if x.operational || x.osError {
        return true;
      }
      if exists i :: 0 <= i < |TOKENS| && Contains(x.text, TOKENS[i]) {
        return true;
      }
      assert !LinkTest(x);
      n := n + 1;
      cause := Successor(g, cause.value);
    }
    forall m: nat | Link(g, exc, m).Some?
      ensures !LinkTest(g[Link(g, exc, m).value])
    {
      if m >= n {
        ChainStaysIn(g, exc, n, seen, m);
      }
    }
    return false;
  }

  // ----- the response -----

  datatype Response = Response(status: nat, message: string, hasDetail: bool)

  const UNAVAILABLE := "Database is unavailable. Start the Deltapreneur backend and confirm DATABASE_URL in Deltapreneur_Backend/.env is reachable."
  const UNAVAILABLE_IN_PRODUCTION := "Service temporarily unavailable. Please try again shortly."
  const UNEXPECTED := "Unexpected Server Error"

  /** `build_unhandled_exception_response`: 503 exactly for connection errors, 500 otherwise. */
  method BuildUnhandledExceptionResponse(g: Graph, exc: ExcId, production: bool) returns (r: Response)
    requires exc in g
    ensures r == Rendered(ConnectionError(g, exc), g[exc], production)
    ensures r.status == (if ConnectionError(g, exc) then 503 else 500) && (r.hasDetail <==> !ConnectionError(g, exc))
    ensures !ConnectionError(g, exc) ==>
              r.message == if production then "Unexpected Server Error" else g[exc].typeName + ": " + g[exc].message
    ensures ConnectionError(g, exc) && production ==> r.message == "Service temporarily unavailable. Please try again shortly."
  {
    var connection := IsDbConnectionError(g, exc);
    if connection {
      var message := UNAVAILABLE;
      if production {
        message := UNAVAILABLE_IN_PRODUCTION;
      }
      return Response(503, message, false);
    }
    var detail := UNEXPECTED;
    if !production {
      detail := g[exc].typeName + ": " + g[exc].message;
    }
    return Response(500, detail, true);
  }

  function Rendered(connection: bool, x: Exc, production: bool): Response {
    if connection
    then Response(503, if production then UNAVAILABLE_IN_PRODUCTION else UNAVAILABLE, false)
    else Response(500, if production then UNEXPECTED else x.typeName + ": " + x.message, true)
  }

  /**
   * In production the response tells two exceptions apart only by whether they are connection errors:
   * nothing of the type name or message gets out.
   */
  lemma ProductionHidesDetail(g: Graph, x: ExcId, h: Graph, y: ExcId)
    requires x in g && y in h
    ensures Rendered(ConnectionError(g, x), g[x], true) == Rendered(ConnectionError(h, y), h[y], true)
            <==> (ConnectionError(g, x) <==> ConnectionError(h, y))
  {
  }

  /** An invalidated `DBAPIError` counts only at the head: one link down the walk does not see it. */
  lemma InvalidatedOnlyAtTheHead()
    ensures exists g: Graph, x: ExcId, y: ExcId ::
              x in g && y in g && Link(g, x, 1) == Some(y) && ConnectionError(g, y) && !ConnectionError(g, x)
  {
    var y := Exc("DBAPIError", false, true, true, false, "", "", true, None, None);
    var x := Exc("RuntimeError", false, false, false, false, "", "", true, Some(1), None);
    var g: Graph := map[0 := x, 1 := y];
    assert Link(g, 0, 0) == Some(0) && Link(g, 0, 1) == Some(1);
    forall n: nat | Link(g, 0, n).Some?
      ensures !LinkTest(g[Link(g, 0, n).value])
    {
      assert forall t :: t in TOKENS ==> |t| > 0;
    }
    assert ConnectionError(g, 1) && !ConnectionError(g, 0);
  }
}
