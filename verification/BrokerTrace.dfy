// The broker's event log, and the exchanges it is made of.

/** The events `eval_broker.py` writes and their grouping by exchange. */
module BrokerTrace {
  import opened Wrappers

  type Text = string

  datatype Outcome = Ok | Failed | Timeout | Truncated | Refused | ProtocolError

  /** The text and error flag of a tools/call result. */
  datatype Result = Result(text: Text, isError: bool)

  /** A logged line. An `id` is a JSON value, `null` when absent; `isCall` says whether a
      request's method is `tools/call`; attempts are numbered as in `request-<n>`; the
      kinds nothing reads are `Noise`. */
  datatype Event =
    | Start(contract: bool)
    | Request(no: nat, isCall: bool, id: Text)
    | AttemptStart(attempt: nat, requestSeq: Option<nat>, id: Text, tool: Option<Text>, arguments: Text, started: nat)
    | CallStart(no: nat, name: Text, owner: Option<nat>)
    | Call(no: nat, name: Text, owner: Option<nat>, input: Text, output: Text, status: Outcome, elapsedMs: nat)
    | AttemptEnd(attempt: nat, callSeq: Option<nat>, ended: nat, outcome: Outcome, result: Option<Result>)
    | Reply(no: nat, calls: nat, owner: Option<nat>)
    | ProtocolErrorEvent
    | Budget
    | BrokerExit
    | Noise
    | Stop(requests: nat, replies: nat, calls: nat, outputBytes: nat)

  predicate IsNoise(e: Event) {
    e.Noise? || e.ProtocolErrorEvent? || e.Budget? || e.BrokerExit?
  }

  /** The events both checkers work through. */
  function Signals(log: seq<Event>): seq<Event> {
    if log == [] then []
    else Signals(log[..|log| - 1]) + (if IsNoise(log[|log| - 1]) then [] else [log[|log| - 1]])
  }

  // ---- Exchanges --------------------------------------------------------------

  datatype RequestPart = RequestPart(no: nat, isCall: bool, id: Text)

  datatype CallPart = CallPart(no: nat, name: Text, input: Text, output: Text, status: Outcome, elapsedMs: nat)

  datatype AttemptPart = AttemptPart(number: nat, id: Text, tool: Option<Text>, arguments: Text, started: nat,
                                     ended: nat,
                                     outcome: Outcome, result: Option<Result>)

  /** What handling one input line logs: the request, the attempt and the measured
      call, as far as there is one. `calls` is the number of calls so far. */
  datatype Exchange = Exchange(request: Option<RequestPart>, attempt: Option<AttemptPart>, call: Option<CallPart>,
                               calls: nat)

  function Number(x: Exchange): Option<nat> {
    if x.attempt.Some? then Some(x.attempt.value.number) else None
  }

  function CallSeq(x: Exchange): Option<nat> {
    if x.call.Some? then Some(x.call.value.no) else None
  }

  function Opening(x: Exchange): seq<Event> {
    (if x.request.Some? then [Request(x.request.value.no, x.request.value.isCall, x.request.value.id)] else [])
    + (if x.attempt.Some? then
         var a := x.attempt.value;
         [AttemptStart(a.number, if x.request.Some? then Some(x.request.value.no) else None, a.id, a.tool, a.arguments,
                       a.started)]
       else [])
  }

  function Calling(x: Exchange): seq<Event> {
    if x.call.Some? then
      var c := x.call.value;
      [CallStart(c.no, c.name, Number(x)), Call(c.no, c.name, Number(x), c.input, c.output, c.status, c.elapsedMs)]
    else []
  }

  function Closing(x: Exchange): seq<Event> {
    (if x.attempt.Some? then
       var a := x.attempt.value; [AttemptEnd(a.number, CallSeq(x), a.ended, a.outcome, a.result)]
     else [])
    + (if x.request.Some? then [Reply(x.request.value.no, x.calls, Number(x))] else [])
  }

  function Block(x: Exchange): seq<Event> {
    Opening(x) + Calling(x) + Closing(x)
  }

  function Flatten(history: seq<Exchange>): seq<Event> {
    if history == [] then [] else Flatten(history[..|history| - 1]) + Block(history[|history| - 1])
  }

  // ---- Counting ---------------------------------------------------------------

  function Requests(history: seq<Exchange>): nat {
    if history == [] then 0 else
    Requests(history[..|history| - 1]) + if history[|history| - 1].request.Some? then 1 else 0
  }

  function Attempts(history: seq<Exchange>): nat {
    if history == [] then 0 else
    Attempts(history[..|history| - 1]) + if history[|history| - 1].attempt.Some? then 1 else 0
  }

  function Calls(history: seq<Exchange>): nat {
    if history == [] then 0 else
    Calls(history[..|history| - 1]) + if history[|history| - 1].call.Some? then 1 else 0
  }

  /** The next exchange of a session whose exchanges so far were counted: it takes
      the next numbers, and its parts agree. */
  predicate Follows(requests: nat, attempts: nat, calls: nat, x: Exchange) {
    && (x.request.Some? ==> x.request.value.no == requests + 1)
    && (x.attempt.Some? ==> x.attempt.value.number == attempts + 1)
    && (x.call.Some? ==> x.call.value.no == calls + 1)
    && x.calls == calls + (if x.call.Some? then 1 else 0)
  }

  ghost predicate Session(history: seq<Exchange>) {
    forall k :: 0 <= k < |history| ==>
      Follows(Requests(history[..k]), Attempts(history[..k]), Calls(history[..k]), history[k])
  }

  lemma SessionSnoc(history: seq<Exchange>, x: Exchange)
    ensures Session(history + [x]) <==>
              Session(history) && Follows(Requests(history), Attempts(history), Calls(history), x)
    ensures Flatten(history + [x]) == Flatten(history) + Block(x)
    ensures Requests(history + [x]) == Requests(history) + (if x.request.Some? then 1 else 0)
    ensures Attempts(history + [x]) == Attempts(history) + (if x.attempt.Some? then 1 else 0)
    ensures Calls(history + [x]) == Calls(history) + (if x.call.Some? then 1 else 0)
  {
    var more := history + [x];
    assert more[..|history|] == history;
    assert forall k :: 0 <= k < |history| ==> more[..k] == history[..k] && more[k] == history[k];
    if Session(more) {
      assert Follows(Requests(more[..|history|]), Attempts(more[..|history|]), Calls(more[..|history|]),
                     more[|history|]);
    }
  }

  lemma SessionSplit(history: seq<Exchange>)
    requires history != []
    ensures history == history[..|history| - 1] + [history[|history| - 1]]
  {
  }
}
