/** The ASGI wrapper that turns an unhandled exception into one JSON response, unless headers are already out. */
module ErrorMiddleware {
  import opened Exceptions

  datatype Message = Start(status: nat) | Body(response: Response) | Other(kind: string)

  /** One `send` of the inner app; `delivered` is false when the server's `send` raises. */
  datatype Emission = Emission(msg: Message, delivered: bool)

  /** How the inner app ends; `RaisesBase` is a `BaseException` that is no `Exception`, such as a cancellation. */
  datatype Ending = Returns | RaisesException(exc: ExcId) | RaisesBase

  datatype Outcome = Returned | Raised(ending: Ending) | SendFailed

  function Delivered(script: seq<Emission>): seq<Message> {
    if script == [] then []
    else Delivered(script[..|script| - 1])
         + (if script[|script| - 1].delivered then [script[|script| - 1].msg] else [])
  }

  predicate StartAttempted(script: seq<Emission>) {
    exists i :: 0 <= i < |script| && script[i].msg.Start?
  }

  function Attempts(script: seq<Emission>): nat {
    if script == [] then 0
    else Attempts(script[..|script| - 1]) + (if script[|script| - 1].msg.Start? then 1 else 0)
  }

  function Starts(wire: seq<Message>): nat {
    if wire == [] then 0
    else Starts(wire[..|wire| - 1]) + (if wire[|wire| - 1].Start? then 1 else 0)
  }

  /** The messages of the error response that reach the client, given which of its two sends succeed. */
  function ErrorMessages(r: Response, startOk: bool, bodyOk: bool): seq<Message> {
    if !startOk then [] else [Start(r.status)] + (if bodyOk then [Body(r)] else [])
  }

  class Exchange {
    var responseStarted: bool
    var wire: seq<Message>

    constructor ()
      ensures !responseStarted && wire == []
    {
      responseStarted := false;
      wire := [];
    }

    /** The server's own `send`. */
    method Send(m: Message, delivered: bool)
      modifies this`wire
      ensures wire == old(wire) + (if delivered then [m] else [])
    {
      if delivered {
        wire := wire + [m];
      }
    }

    method SendWrapper(m: Message, delivered: bool)
      modifies this
      ensures responseStarted == (old(responseStarted) || m.Start?)
      ensures wire == old(wire) + (if delivered then [m] else [])
    {
      if m.Start? {
        responseStarted := true;
      }
      Send(m, delivered);
    }

    /**
     * `__call__` around an inner app that performs `script` and ends with `ending`. The client sees the
     * inner trace unchanged, followed by the error response exactly when an `Exception` came before any
     * attempt to start a response.
     */
    method Call(http: bool, script: seq<Emission>, ending: Ending, g: Graph, production: bool, startOk: bool, bodyOk: bool)
      returns (o: Outcome)
      requires ending.RaisesException? ==> ending.exc in g
      requires !responseStarted && wire == []
      modifies this
      ensures wire == ClientTrace(http, script, ending, ReplyTo(g, ending, production), startOk, bodyOk)
      ensures o == if Replies(http, script, ending) then (if startOk && bodyOk then Returned else SendFailed)
                   else if ending.Returns? then Returned else Raised(ending)
    {
      var i := 0;
      while i < |script|
        invariant 0 <= i <= |script|
        invariant wire == Delivered(script[..i])
        invariant http ==> responseStarted == StartAttempted(script[..i])
      {
        if http {
          SendWrapper(script[i].msg, script[i].delivered);
        } else {
          Send(script[i].msg, script[i].delivered);
        }
        assert script[..i + 1][..i] == script[..i];
        i := i + 1;
      }
      assert script[..i] == script;
      if ending.Returns? {
        return Returned;
      }
      if !http || ending.RaisesBase? || responseStarted {
        return Raised(ending);
      }
      var r := BuildUnhandledExceptionResponse(g, ending.exc, production);
      Send(Start(r.status), startOk);
      if !startOk {
        return SendFailed;
      }
      Send(Body(r), bodyOk);
      return if bodyOk then Returned else SendFailed;
    }
  }

  /** The response the middleware would give to an ending: 503 for connection errors, 500 for the rest. */
  ghost function ReplyTo(g: Graph, ending: Ending, production: bool): Response
    requires ending.RaisesException? ==> ending.exc in g
  {
    if ending.RaisesException? then Rendered(ConnectionError(g, ending.exc), g[ending.exc], production)
    else Response(500, UNEXPECTED, true)
  }

  /** The exchange is answered by the middleware itself. */
  predicate Replies(http: bool, script: seq<Emission>, ending: Ending) {
    http && ending.RaisesException? && !StartAttempted(script)
  }

  /** The client-side trace of an exchange, as `Exchange.Call` leaves it. */
  function ClientTrace(http: bool, script: seq<Emission>, ending: Ending, r: Response, startOk: bool, bodyOk: bool): seq<Message> {
    Delivered(script) + (if Replies(http, script, ending) then ErrorMessages(r, startOk, bodyOk) else [])
  }

  // ----- what the client sees -----

  lemma {:induction false} StartsConcat(a: seq<Message>, b: seq<Message>)
    ensures Starts(a + b) == Starts(a) + Starts(b)
  {
    if b == [] {
      assert a + b == a;
    } else {
      StartsConcat(a, b[..|b| - 1]);
      assert (a + b)[..|a + b| - 1] == a + b[..|b| - 1];
    }
  }

  lemma SingleStarts(m: Message)
    ensures Starts([m]) == if m.Start? then 1 else 0
  {
  }

  lemma {:induction false} StartsBounded(script: seq<Emission>)
    ensures Starts(Delivered(script)) <= Attempts(script)
  {
    if script != [] {
      var last := script[|script| - 1];
      StartsBounded(script[..|script| - 1]);
      StartsConcat(Delivered(script[..|script| - 1]), if last.delivered then [last.msg] else []);
      SingleStarts(last.msg);
    }
  }

  lemma {:induction false} NoAttempts(script: seq<Emission>)
    ensures StartAttempted(script) <==> Attempts(script) > 0
  {
    if script != [] {
      var front := script[..|script| - 1];
      NoAttempts(front);
      assert StartAttempted(script) <==> StartAttempted(front) || script[|script| - 1].msg.Start? by {
        assert forall i :: 0 <= i < |front| ==> front[i] == script[i];
      }
    }
  }

  /**
   * The wrapper never adds a second response: the client sees no more starts than the inner app
   * attempted, or one when the inner app attempted none.
   */
  lemma AtMostOneStart(http: bool, script: seq<Emission>, ending: Ending, r: Response, startOk: bool, bodyOk: bool)
    ensures Starts(ClientTrace(http, script, ending, r, startOk, bodyOk))
            <= if Attempts(script) == 0 then 1 else Attempts(script)
    ensures Attempts(script) == 0 ==>
              Starts(ClientTrace(http, script, ending, r, startOk, bodyOk))
              == if Replies(http, script, ending) && startOk then 1 else 0
  {
    StartsBounded(script);
    NoAttempts(script);
    StartsConcat(Delivered(script), ErrorMessages(r, startOk, bodyOk));
    assert Delivered(script) + [] == Delivered(script);
    StartsConcat([Start(r.status)], if bodyOk then [Body(r)] else []);
    SingleStarts(Start(r.status));
    SingleStarts(Body(r));
  }

  /**
   * The whole client-side trace, case by case: what the inner app delivered, and after it, only when it
   * raised an `Exception` before attempting a start, the start and body of the reply.
   */
  lemma TraceExactly(http: bool, script: seq<Emission>, ending: Ending, r: Response, bodyOk: bool)
    ensures var trace := ClientTrace(http, script, ending, r, true, bodyOk);
      if http && ending.RaisesException? && forall i :: 0 <= i < |script| ==> !script[i].msg.Start?
      then trace == Delivered(script) + [Start(r.status)] + (if bodyOk then [Body(r)] else [])
      else trace == Delivered(script)
    ensures ClientTrace(http, script, ending, r, false, bodyOk) == Delivered(script)
  {
    hide Delivered;
  }

  /** Every message sent, in order. */
  function Sent(script: seq<Emission>): seq<Message> {
    seq(|script|, i requires 0 <= i < |script| => script[i].msg)
  }

  /** When every send gets through, the client gets exactly the messages sent, in order. */
  lemma {:induction false} AllDelivered(script: seq<Emission>)
    requires forall i :: 0 <= i < |script| ==> script[i].delivered
    ensures Delivered(script) == Sent(script)
  {
    if script != [] {
      AllDelivered(script[..|script| - 1]);
    }
  }
}
