// The broker: it serves MCP messages within its budgets and logs every exchange.

/** `Broker` of eval_broker.py. The clock is a parameter and the log is not redacted. */
module Broker {
  import opened Wrappers
  import opened BrokerTrace
  import opened BrokerLifecycle
  import opened BrokerTelemetry
  import opened BrokerMeter
  import opened BrokerBreach
  import opened Utf8

  datatype Attempt = Attempt(number: nat, callSeq: Option<nat>, outcome: Option<Outcome>)

  /** What `handle` does: raise a protocol error or return, for a tools/call its result. */
  datatype Handled = Raised | Returned(result: Option<Result>)

  // ---- Order in the log -------------------------------------------------------

  predicate Budgeted(log: seq<Event>) {
    log != [] && (Budgeted(log[..|log| - 1]) || log[|log| - 1].Budget?)
  }

  /** No call starts after a budget breach. */
  predicate Obeys(log: seq<Event>) {
    log == [] || (Obeys(log[..|log| - 1]) && (log[|log| - 1].CallStart? ==> !Budgeted(log[..|log| - 1])))
  }

  lemma {:induction false} BudgetedAt(log: seq<Event>, i: nat)
    requires i < |log| && log[i].Budget?
    ensures Budgeted(log)
    decreases |log|
  {
    if i < |log| - 1 {
      BudgetedAt(log[..|log| - 1], i);
    }
  }

  /** Once the budget event is logged, no call starts. */
  lemma {:induction false} NoCallOnceStopped(log: seq<Event>, i: nat, j: nat)
    requires Obeys(log) && i < j < |log| && log[i].Budget?
    ensures !log[j].CallStart?
    decreases |log|
  {
    if j == |log| - 1 {
      BudgetedAt(log[..j], i);
    } else {
      NoCallOnceStopped(log[..|log| - 1], i, j);
    }
  }

  lemma LogSnoc(log: seq<Event>, e: Event)
    ensures Signals(log + [e]) == Signals(log) + if IsNoise(e) then [] else [e]
    ensures ErrorCount(log + [e]) == ErrorCount(log) + if e.ProtocolErrorEvent? then 1 else 0
    ensures Budgeted(log + [e]) <==> Budgeted(log) || e.Budget?
    ensures Obeys(log + [e]) <==> Obeys(log) && (e.CallStart? ==> !Budgeted(log))
  {
    assert (log + [e])[..|log|] == log;
  }

  // ---- Values of one exchange ---------------------------------------------------

  ghost predicate Monotone(clock: nat -> nat) {
    forall i: nat, j: nat :: i <= j ==> clock(i) <= clock(j)
  }

  /** A span inside another takes no more whole milliseconds. */
  lemma Quicker(a: nat, b: nat, c: nat, d: nat)
    requires c <= a <= b <= d
    ensures (b - a) / NS_PER_MS <= (d - c) / NS_PER_MS
  {
  }

  function CallEvents(part: Option<CallPart>, owner: Option<nat>): seq<Event> {
    if part.None? then [] else
    var c := part.value;
    [CallStart(c.no, c.name, owner), Call(c.no, c.name, owner, c.input, c.output, c.status, c.elapsedMs)]
  }

  /** The measured part of an admitted call, from the counters before it. */
  function PartFor(config: Config, m: Meter, name: Text, call: ToolCall, elapsedMs: nat): CallPart {
    CallPart(m.calls + 1, name, CallInput(config, call), CallOutput(config, m.bytes, name, call),
             CallStatus(config, m.bytes, call), elapsedMs)
  }

  /** A tools/call has a part exactly when it is admitted, and then just this one. */
  predicate PartOk(config: Config, m: Meter, call: ToolCall, part: Option<CallPart>) {
    && (part.Some? <==> AdmitsCall(config, m, call))
    && (part.Some? ==> part.value == PartFor(config, m, call.name.value, call, part.value.elapsedMs))
  }

  function IdOf(line: Line): Text {
    if line.Message? && line.id.Some? then line.id.value else "null"
  }

  /** A call is answered with its output, or refused with the text for the cause. */
  predicate CallAnswered(config: Config, m: Meter, call: ToolCall, handled: Handled, part: Option<CallPart>) {
    if !WellFormed(call) then handled == Raised && part.None?
    else if Refuses(config, m, call).Some? then
      handled == Returned(Some(Result(config.refuses(Refuses(config, m, call).value), true))) && part.None?
    else part.Some? && handled == Returned(Some(Result(part.value.output, part.value.status != Ok)))
  }

  /** How a message was handled. */
  predicate Settles(config: Config, m: Meter, line: Line, handled: Handled, part: Option<CallPart>) {
    && (handled.Raised? <==> !LineOk(line))
    && (part.Some? <==> Admits(config, m, line))
    && (part.Some? ==> PartOk(config, m, line.what.call, part))
    && (IsToolsCall(line) && handled.Returned? ==> CallAnswered(config, m, line.what.call, handled, part))
  }

  function Attempted(attempt: Option<Attempt>, part: Option<CallPart>): Option<Attempt> {
    if attempt.None? || part.None? then attempt
    else Some(Attempt(attempt.value.number, Some(part.value.no), Some(part.value.status)))
  }

  function RequestFor(config: Config, line: Line, no: nat): RequestPart {
    RequestPart(no, config.prospective && IsToolsCall(line), if config.prospective then IdOf(line) else "")
  }

  function AttemptFor(line: Line, number: nat, started: nat): AttemptPart
    requires IsToolsCall(line)
  {
    var call := line.what.call;
    AttemptPart(number, IdOf(line), call.name, call.arguments, started, started, Refused, None)
  }

  /** An exchange whose attempt has begun. */
  function Draft(config: Config, line: Line, no: Option<nat>, attempts: nat, started: nat): Exchange {
    Exchange(if no.Some? then Some(RequestFor(config, line, no.value)) else None,
             if config.prospective && IsToolsCall(line) then Some(AttemptFor(line, attempts, started)) else None,
             None, 0)
  }

  function OutcomeOf(handled: Handled, part: Option<CallPart>): Outcome {
    if part.Some? then part.value.status else if handled.Raised? then ProtocolError else Refused
  }

  function ResultOf(handled: Handled): Option<Result> {
    if handled.Raised? then None else handled.result
  }

  /** The exchange once it ended. */
  function Closed(draft: Exchange, part: Option<CallPart>, calls: nat, ended: nat, handled: Handled): Exchange {
    var attempt :=
      if draft.attempt.None? then None
      else Some(draft.attempt.value.(ended := ended, outcome := OutcomeOf(handled, part), result := ResultOf(handled)));
    Exchange(draft.request, attempt, part, calls)
  }

  function EndEvents(draft: Exchange, part: Option<CallPart>, ended: nat, handled: Handled): seq<Event> {
    if draft.attempt.None? then [] else
    [AttemptEnd(draft.attempt.value.number, if part.Some? then Some(part.value.no) else None, ended,
                OutcomeOf(handled, part), ResultOf(handled))]
  }

  lemma ClosedParts(draft: Exchange, part: Option<CallPart>, calls: nat, ended: nat, handled: Handled)
    ensures var x := Closed(draft, part, calls, ended, handled);
            Opening(x) == Opening(draft) && Number(x) == Number(draft) && Calling(x) == CallEvents(part, Number(x))
  {
  }

  /** What is logged of an attempt besides its number and times: the line's own id, tool
      and arguments, and how the call was answered. */
  predicate AttemptOf(config: Config, m: Meter, line: Line, a: AttemptPart, part: Option<CallPart>)
    requires IsToolsCall(line)
  {
    var call := line.what.call;
    && a.id == IdOf(line) && a.tool == call.name && a.arguments == call.arguments
    && (if !LineOk(line) then a.outcome == ProtocolError && a.result.None?
        else if Refuses(config, m, call).Some? then
          && a.outcome == Refused
          && a.result == Some(Result(config.refuses(Refuses(config, m, call).value), true))
        else
          && part.Some? && a.outcome == part.value.status
          && a.result == Some(Result(part.value.output, part.value.status != Ok)))
  }

  /** The exchange a line leads to, from the counters before it. */
  predicate ExchangeOf(config: Config, m: Meter, line: Line, x: Exchange) {
    && (x.request.Some? <==> IsRequest(line))
    && (x.request.Some? && config.prospective ==>
          x.request.value.isCall == IsToolsCall(line) && x.request.value.id == IdOf(line))
    && (x.attempt.Some? <==> config.prospective && IsToolsCall(line))
    && (x.attempt.Some? ==> AttemptOf(config, m, line, x.attempt.value, x.call))
    && (x.call.Some? <==> Admits(config, m, line))
    && (x.call.Some? ==> PartOk(config, m, line.what.call, x.call))
    && (config.prospective ==> Measured(x))
  }

  lemma ClosedIsMeasured(config: Config, m: Meter, line: Line, no: Option<nat>, attempts: nat, started: nat,
                         part: Option<CallPart>, calls: nat, ended: nat, handled: Handled)
    requires (no.Some? <==> IsRequest(line)) && Settles(config, m, line, handled, part) && started <= ended
    requires part.Some? && config.prospective ==> part.value.elapsedMs <= (ended - started) / NS_PER_MS
    ensures var x := Closed(Draft(config, line, no, attempts, started), part, calls, ended, handled);
            ExchangeOf(config, m, line, x)
  {
  }

  /** The exchange of a message that was handled takes the next numbers. */
  lemma MessageServed(config: Config, m: Meter, line: Line, requests: nat, no: Option<nat>, attempts: nat, started: nat,
                      handling: nat, part: Option<CallPart>, ended: nat, handled: Handled)
    requires no == (if IsRequest(line) then Some(requests + 1) else None) && Settles(config, m, line, handled, part)
    requires started <= handling <= ended
    requires part.Some? ==> part.value.elapsedMs <= (ended - handling) / NS_PER_MS
    requires config.prospective && IsToolsCall(line) ==> attempts > 0
    ensures var draft := Draft(config, line, no, attempts, started);
            var x := Closed(draft, part, MeterStep(config, m, line).calls, ended, handled);
            && ExchangeOf(config, m, line, x)
            && Follows(requests, if draft.attempt.Some? then attempts - 1 else attempts, m.calls, x)
  {
    if part.Some? {
      Quicker(handling, ended, started, ended);
    }
    ClosedIsMeasured(config, m, line, no, attempts, started, part, MeterStep(config, m, line).calls, ended, handled);
    CallsFollow(config, m, line);
  }

  // ---- The broker ---------------------------------------------------------------

  class Broker {
    const config: Config
    const clock: nat -> nat
    var calls: nat
    var refusals: nat
    var protocolErrors: nat
    var outputBytes: nat
    var stopped: Option<Code>
    var attempt: Option<Attempt>
    var attemptCount: nat
    var log: seq<Event>
    var ticks: nat

    constructor (config: Config, clock: nat -> nat)
      ensures this.config == config && this.clock == clock
      ensures Counters() == ZERO && attemptCount == ticks == 0 && attempt.None? && log == []
    {
      this.config := config;
      this.clock := clock;
      calls, refusals, protocolErrors, outputBytes, attemptCount, ticks := 0, 0, 0, 0, 0, 0;
      stopped, attempt, log := None, None, [];
    }

    function Counters(): Meter
      reads this`calls, this`refusals, this`protocolErrors, this`outputBytes, this`stopped
    {
      Meter(calls, refusals, protocolErrors, outputBytes, stopped)
    }

    /** The log shows whether the broker stopped, starts no call after that, and
        counts the protocol errors up to their bound. */
    ghost predicate LogOk()
      reads this`log, this`stopped, this`protocolErrors
    {
      && Obeys(log) && (Budgeted(log) <==> stopped.Some?)
      && ErrorCount(log) == if protocolErrors <= MAX_PROTOCOL_ERRORS then protocolErrors else MAX_PROTOCOL_ERRORS
    }

    function Owner(): Option<nat>
      reads this`attempt
    {
      if attempt.Some? then Some(attempt.value.number) else None
    }

    method Record(e: Event)
      requires LogOk() && !e.ProtocolErrorEvent? && !e.Budget? && (e.CallStart? ==> stopped.None?)
      modifies this`log
      ensures LogOk() && log == old(log) + [e]
      ensures Signals(log) == old(Signals(log)) + if IsNoise(e) then [] else [e]
    {
      LogSnoc(log, e);
      log := log + [e];
    }

    /** Records a budget breach once. */
    method Stop(code: Code)
      requires LogOk()
      modifies this`log, this`stopped
      ensures LogOk() && Counters() == StopWith(old(Counters()), code) && Signals(log) == old(Signals(log))
    {
      if stopped.Some? {
        return;
      }
      stopped := Some(code);
      LogSnoc(log, Budget);
      log := log + [Budget];
    }

    /** Counts and logs a protocol error; past their bound it stops the broker instead. */
    method RecordProtocolError()
      requires LogOk()
      modifies this`log, this`stopped, this`protocolErrors
      ensures LogOk() && Counters() == ErrorStep(old(Counters())) && Signals(log) == old(Signals(log))
      ensures protocolErrors > MAX_PROTOCOL_ERRORS ==> stopped.Some?
    {
      if protocolErrors >= MAX_PROTOCOL_ERRORS {
        protocolErrors := protocolErrors + 1;
        Stop(ProtocolErrorBudget);
        return;
      }
      protocolErrors := protocolErrors + 1;
      LogSnoc(log, ProtocolErrorEvent);
      log := log + [ProtocolErrorEvent];
    }

    method Now() returns (t: nat)
      modifies this`ticks
      ensures t == clock(old(ticks)) && ticks == old(ticks) + 1
    {
      t := clock(ticks);
      ticks := ticks + 1;
    }

    // ---- One tool call --------------------------------------------------------

    method FinishCall(name: Text, input: Text, output: Text, status: Status, started: nat)
      returns (ghost part: CallPart)
      requires LogOk() && started <= clock(ticks)
      modifies this`outputBytes, this`attempt, this`log, this`ticks
      ensures LogOk() && outputBytes == old(outputBytes) + Size(output) && ticks == old(ticks) + 1
      ensures part == CallPart(calls, name, input, output, status, (clock(old(ticks)) - started) / NS_PER_MS)
      ensures Signals(log) ==
              old(Signals(log)) + [Call(calls, name, old(Owner()), input, output, status, part.elapsedMs)]
      ensures attempt == if old(attempt).Some? then Some(old(attempt).value.(outcome := Some(status))) else None
    {
      outputBytes := outputBytes + Size(output);
      var now := Now();
      var elapsed := (now - started) / NS_PER_MS;
      if attempt.Some? {
        attempt := Some(attempt.value.(outcome := Some(status)));
      }
      Record(Call(calls, name, Owner(), input, output, status, elapsed));
      part := CallPart(calls, name, input, output, status, elapsed);
    }

    /** The call whose arguments are too long: answered, then the broker stops. */
    method RejectArguments(name: Text, call: ToolCall, started: nat) returns (result: Result, ghost part: CallPart)
      requires LogOk() && started <= clock(ticks) && TooLong(config, call)
      modifies this`outputBytes, this`attempt, this`log, this`ticks, this`stopped
      ensures LogOk() && Counters() == Charge(config, old(Counters()), name, call) && ticks == old(ticks) + 1
      ensures part == CallPart(calls, name, Cut(call.arguments, config.callBytes), config.rejects(name), Truncated,
                               (clock(old(ticks)) - started) / NS_PER_MS)
      ensures Signals(log) ==
              old(Signals(log)) + [Call(calls, name, old(Owner()), part.input, part.output, Truncated, part.elapsedMs)]
      ensures attempt == if old(attempt).Some? then Some(old(attempt).value.(outcome := Some(Truncated))) else None
      ensures result == Result(part.output, true)
    {
      var output := config.rejects(name);
      part := FinishCall(name, Cut(call.arguments, config.callBytes), output, Truncated, started);
      Stop(InputBudget);
      result := Result(output, true);
    }

    /** The executed call whose output exceeds what may still be delivered. */
    method DeliverCut(name: Text, call: ToolCall, started: nat) returns (result: Result, ghost part: CallPart)
      requires LogOk() && started <= clock(ticks) && !TooLong(config, call) && CutShort(config, outputBytes, call)
      modifies this`outputBytes, this`attempt, this`log, this`ticks, this`stopped
      ensures LogOk() && Counters() == Charge(config, old(Counters()), name, call) && ticks == old(ticks) + 1
      ensures part == CallPart(calls, name, call.arguments, CallOutput(config, old(outputBytes), name, call),
                               Truncated, (clock(old(ticks)) - started) / NS_PER_MS)
      ensures Signals(log) ==
              old(Signals(log)) + [Call(calls, name, old(Owner()), part.input, part.output, Truncated, part.elapsedMs)]
      ensures attempt == if old(attempt).Some? then Some(old(attempt).value.(outcome := Some(Truncated))) else None
      ensures result == Result(part.output, true)
    {
      var limit := DeliveryLimit(config, outputBytes);
      var code := if limit == config.outputBytes - outputBytes then OutputBudget else OutputTruncated;
      var cut := Cut(call.output, limit);
      part := FinishCall(name, call.arguments, cut, Truncated, started);
      Stop(code);
      result := Result(cut, true);
    }

    /** The executed call: its output whole, or cut to what may still be delivered. */
    method Deliver(name: Text, call: ToolCall, started: nat) returns (result: Result, ghost part: CallPart)
      requires LogOk() && started <= clock(ticks) && !TooLong(config, call)
      modifies this`outputBytes, this`attempt, this`log, this`ticks, this`stopped
      ensures LogOk() && Counters() == Charge(config, old(Counters()), name, call) && ticks == old(ticks) + 1
      ensures part == CallPart(calls, name, call.arguments, CallOutput(config, old(outputBytes), name, call),
                               CallStatus(config, old(outputBytes), call), (clock(old(ticks)) - started) / NS_PER_MS)
      ensures Size(call.output) <= DeliveryLimit(config, old(outputBytes)) ==>
                part.output == call.output && part.status == call.status
      ensures part.output <= call.output && Size(part.output) <= Max(DeliveryLimit(config, old(outputBytes)), 0)
      ensures Signals(log) ==
              old(Signals(log))
                + [Call(calls, name, old(Owner()), part.input, part.output, part.status, part.elapsedMs)]
      ensures attempt == if old(attempt).Some? then Some(old(attempt).value.(outcome := Some(part.status))) else None
      ensures result == Result(part.output, part.status != Ok)
    {
      OutputBounds(config, outputBytes, name, call);
      if Size(call.output) > DeliveryLimit(config, outputBytes) {
        result, part := DeliverCut(name, call, started);
        return;
      }
      part := FinishCall(name, call.arguments, call.output, call.status, started);
      if call.status == Truncated {
        Stop(OutputTruncated);
      }
      result := Result(call.output, call.status != Ok);
    }

    /** The measured part of an admitted call. */
    method Measure(name: Text, call: ToolCall, started: nat) returns (result: Result, ghost part: CallPart)
      requires LogOk() && started <= clock(ticks)
      modifies this`outputBytes, this`attempt, this`log, this`ticks, this`stopped
      ensures LogOk() && Counters() == Charge(config, old(Counters()), name, call) && ticks == old(ticks) + 1
      ensures part == CallPart(calls, name, CallInput(config, call), CallOutput(config, old(outputBytes), name, call),
                               CallStatus(config, old(outputBytes), call), (clock(old(ticks)) - started) / NS_PER_MS)
      ensures Signals(log) ==
              old(Signals(log))
                + [Call(calls, name, old(Owner()), part.input, part.output, part.status, part.elapsedMs)]
      ensures attempt == if old(attempt).Some? then Some(old(attempt).value.(outcome := Some(part.status))) else None
      ensures result == Result(part.output, part.status != Ok)
    {
      if TooLong(config, call) {
        result, part := RejectArguments(name, call, started);
      } else {
        result, part := Deliver(name, call, started);
      }
    }

    /** Counts a call and logs its start. */
    method StartCall(name: Text) returns (started: nat)
      requires LogOk() && Monotone(clock) && stopped.None?
      modifies this`calls, this`attempt, this`log, this`ticks
      ensures LogOk() && calls == old(calls) + 1 && ticks == old(ticks) + 1
      ensures started == clock(old(ticks)) && started <= clock(ticks) && Owner() == old(Owner())
      ensures Signals(log) == old(Signals(log)) + [CallStart(calls, name, Owner())]
      ensures attempt == if old(attempt).Some? then Some(old(attempt).value.(callSeq := Some(calls))) else None
    {
      calls := calls + 1;
      if attempt.Some? {
        attempt := Some(attempt.value.(callSeq := Some(calls)));
      }
      Record(CallStart(calls, name, Owner()));
      started := Now();
    }

    /** A call that passed every check before it is measured. */
    method Admit(name: Text, call: ToolCall) returns (result: Result, ghost part: CallPart)
      requires LogOk() && Monotone(clock) && stopped.None?
      modifies this`calls, this`outputBytes, this`attempt, this`log, this`ticks, this`stopped
      ensures LogOk() && Counters() == Charge(config, old(Counters()).(calls := old(calls) + 1), name, call)
      ensures part == PartFor(config, old(Counters()), name, call, part.elapsedMs)
      ensures Signals(log) == old(Signals(log)) + CallEvents(Some(part), old(Owner()))
      ensures attempt == Attempted(old(attempt), Some(part))
      ensures result == Result(part.output, part.status != Ok)
      ensures ticks >= old(ticks) && part.elapsedMs <= (clock(ticks) - clock(old(ticks))) / NS_PER_MS
    {
      var started := StartCall(name);
      result, part := Measure(name, call, started);
      Quicker(started, clock(old(ticks) + 1), clock(old(ticks)), clock(ticks));
    }

    /** The checks of `call_tool` in order, up to the first that refuses the call. */
    method Check(call: ToolCall) returns (refused: Option<Refusal>)
      requires LogOk() && WellFormed(call)
      modifies this`refusals, this`log, this`stopped
      ensures LogOk() && refused == Refuses(config, old(Counters()), call) && Signals(log) == old(Signals(log))
      ensures Counters() == if refused.Some? then ToolStep(config, old(Counters()), call) else old(Counters())
    {
      if stopped.Some? {
        return Some(EpisodeStopped(stopped.value));
      }
      var name := call.name.value;
      if !config.permitted(name) {
        refusals := refusals + 1;
        Record(Noise);
        if refusals > MAX_REFUSALS {
          Stop(RefusalBudget);
        }
        return Some(ToolNotPermitted(name));
      }
      if calls >= config.toolCalls {
        Stop(CallBudget);
        return Some(CallBudgetExhausted);
      }
      return None;
    }

    /** `call_tool`: the checks, then the call. */
    method CallTool(call: ToolCall) returns (handled: Handled, ghost part: Option<CallPart>)
      requires LogOk() && Monotone(clock)
      modifies this`calls, this`refusals, this`outputBytes, this`attempt, this`log, this`ticks, this`stopped
      ensures LogOk() && Counters() == ToolStep(config, old(Counters()), call)
      ensures PartOk(config, old(Counters()), call, part) && CallAnswered(config, old(Counters()), call, handled, part)
      ensures Signals(log) == old(Signals(log)) + CallEvents(part, old(Owner()))
      ensures attempt == Attempted(old(attempt), part) && ticks >= old(ticks)
      ensures part.Some? ==> part.value.elapsedMs <= (clock(ticks) - clock(old(ticks))) / NS_PER_MS
    {
      if !WellFormed(call) {
        return Raised, None;
      }
      var refused := Check(call);
      if refused.Some? {
        return Returned(Some(Result(config.refuses(refused.value), true))), None;
      }
      var result;
      ghost var measured;
      result, measured := Admit(call.name.value, call);
      return Returned(Some(result)), Some(measured);
    }

    // ---- One message ----------------------------------------------------------

    /** `handle`: only tools/call touches the budgets. */
    method Handle(line: Line) returns (handled: Handled, ghost part: Option<CallPart>)
      requires (line.Message? || line.NotAnObject?) && LogOk() && Monotone(clock)
      modifies this`calls, this`refusals, this`outputBytes, this`attempt, this`log, this`ticks, this`stopped
      ensures LogOk() && Counters() == HandleStep(config, old(Counters()), line)
      ensures Settles(config, old(Counters()), line, handled, part)
      ensures Signals(log) == old(Signals(log)) + CallEvents(part, old(Owner()))
      ensures attempt == Attempted(old(attempt), part) && ticks >= old(ticks)
      ensures part.Some? ==> part.value.elapsedMs <= (clock(ticks) - clock(old(ticks))) / NS_PER_MS
    {
      part := None;
      if line.NotAnObject? || !line.versionOk {
        return Raised, None;
      }
      match line.what
      case ToolsCall(call) =>
        handled, part := CallTool(call);
      case Initialize =>
        Record(Noise);
        return Returned(None), None;
      case ToolsList =>
        Record(Noise);
        return Returned(None), None;
      case Unsupported =>
        return Raised, None;
      case _ =>
        return Returned(None), None;
    }

    method StartAttempt(line: Line, no: Option<nat>)
      requires LogOk()
      modifies this`attempt, this`attemptCount, this`log, this`ticks
      ensures LogOk()
      ensures if config.prospective && IsToolsCall(line) then
                && attemptCount == old(attemptCount) + 1 && ticks == old(ticks) + 1
                && attempt == Some(Attempt(attemptCount, None, None))
                && Signals(log) == old(Signals(log))
                     + [AttemptStart(attemptCount, no, IdOf(line), line.what.call.name, line.what.call.arguments,
                                     clock(old(ticks)))]
              else attempt.None? && attemptCount == old(attemptCount) && ticks == old(ticks) && log == old(log)
    {
      attempt := None;
      if config.prospective && IsToolsCall(line) {
        attemptCount := attemptCount + 1;
        attempt := Some(Attempt(attemptCount, None, None));
        var now := Now();
        Record(AttemptStart(attemptCount, no, IdOf(line), line.what.call.name, line.what.call.arguments, now));
      }
    }

    /** Logs the request, if the message is one, and the attempt, if it is a
        tools/call of a prospective run. */
    method Begin(line: Line, no: Option<nat>) returns (ghost draft: Exchange)
      requires LogOk() && (line.Message? || line.NotAnObject?) && (no.Some? <==> IsRequest(line))
      modifies this`attempt, this`attemptCount, this`log, this`ticks
      ensures LogOk() && draft == Draft(config, line, no, attemptCount, clock(old(ticks)))
      ensures attemptCount == old(attemptCount) + (if draft.attempt.Some? then 1 else 0) && ticks >= old(ticks)
      ensures draft.attempt.Some? ==> ticks == old(ticks) + 1
      ensures Signals(log) == old(Signals(log)) + Opening(draft)
      ensures attempt == if draft.attempt.Some? then Some(Attempt(attemptCount, None, None)) else None
    {
      ghost var earlier := Signals(log);
      if no.Some? {
        var r := RequestFor(config, line, no.value);
        Record(Request(r.no, r.isCall, r.id));
      }
      StartAttempt(line, no);
      draft := Draft(config, line, no, attemptCount, clock(old(ticks)));
      assert Signals(log) == earlier + Opening(draft);
    }

    /** The attempt in hand belongs to the exchange and its call. */
    predicate Holds(draft: Exchange, part: Option<CallPart>)
      reads this`attempt
    {
      attempt == if draft.attempt.None? then None
                 else Attempted(Some(Attempt(draft.attempt.value.number, None, None)), part)
    }

    /** The event that ends the attempt of an exchange, if it has one. */
    method EndAttempt(handled: Handled, ghost draft: Exchange, ghost part: Option<CallPart>)
      requires LogOk() && Holds(draft, part)
      modifies this`log, this`ticks
      ensures LogOk() && ticks >= old(ticks)
      ensures Signals(log) == old(Signals(log)) + EndEvents(draft, part, clock(old(ticks)), handled)
    {
      if attempt.Some? {
        var now := Now();
        var outcome := attempt.value.outcome;
        var ending := if outcome.Some? then outcome.value else if handled.Raised? then ProtocolError else Refused;
        Record(AttemptEnd(attempt.value.number, attempt.value.callSeq, now, ending, ResultOf(handled)));
      }
    }

    /** Logs the end of the attempt, the protocol error and the reply. */
    method Finish(no: Option<nat>, handled: Handled, ghost draft: Exchange, ghost part: Option<CallPart>)
      returns (ghost x: Exchange)
      requires LogOk() && Holds(draft, part)
      requires (no.Some? <==> draft.request.Some?) && (no.Some? ==> draft.request.value.no == no.value)
      modifies this`log, this`ticks, this`stopped, this`protocolErrors
      ensures LogOk() && Counters() == if handled.Raised? then ErrorStep(old(Counters())) else old(Counters())
      ensures x == Closed(draft, part, calls, clock(old(ticks)), handled) && ticks >= old(ticks)
      ensures Signals(log) == old(Signals(log)) + Closing(x)
    {
      ghost var earlier := Signals(log);
      x := Closed(draft, part, calls, clock(old(ticks)), handled);
      EndAttempt(handled, draft, part);
      if handled.Raised? {
        RecordProtocolError();
      }
      if no.Some? {
        Record(Reply(no.value, calls, Owner()));
      }
      assert Signals(log) == earlier + Closing(x);
    }

    /** Handles a message whose attempt has begun, and logs its end. */
    method Answer(line: Line, no: Option<nat>, ghost draft: Exchange)
      returns (handled: Handled, ghost x: Exchange, ghost ended: nat)
      requires (line.Message? || line.NotAnObject?) && LogOk() && Monotone(clock) && Holds(draft, None)
      requires (no.Some? <==> draft.request.Some?) && (no.Some? ==> draft.request.value.no == no.value)
      modifies this`calls, this`refusals, this`outputBytes, this`attempt, this`log, this`ticks, this`stopped,
               this`protocolErrors
      ensures LogOk() && Counters() == MeterStep(config, old(Counters()), line)
      ensures x == Closed(draft, x.call, calls, ended, handled)
              && Settles(config, old(Counters()), line, handled, x.call)
      ensures Signals(log) == old(Signals(log)) + Calling(x) + Closing(x)
      ensures clock(old(ticks)) <= ended
      ensures x.call.Some? ==> x.call.value.elapsedMs <= (ended - clock(old(ticks))) / NS_PER_MS
    {
      ghost var part;
      handled, part := Handle(line);
      ended := clock(ticks);
      x := Finish(no, handled, draft, part);
      ClosedParts(draft, part, calls, ended, handled);
    }

    /** A parsed message, from its request event to its reply. */
    method ServeMessage(line: Line, requests: nat) returns (served: nat, ghost x: Exchange)
      requires (line.Message? || line.NotAnObject?) && LogOk() && Monotone(clock)
      modifies this
      ensures LogOk() && Counters() == MeterStep(config, old(Counters()), line)
      ensures served == requests + if IsRequest(line) then 1 else 0
      ensures attemptCount == old(attemptCount) + if x.attempt.Some? then 1 else 0
      ensures Signals(log) == old(Signals(log)) + Block(x)
      ensures Follows(requests, old(attemptCount), old(calls), x) && ExchangeOf(config, old(Counters()), line, x)
    {
      var no := None;
      served := requests;
      if IsRequest(line) {
        served := requests + 1;
        no := Some(served);
      }
      ghost var m := Counters();
      ghost var begun := Begin(line, no);
      ghost var from := ticks;
      var handled;
      ghost var ended;
      handled, x, ended := Answer(line, no, begun);
      ClosedParts(begun, x.call, calls, ended, handled);
      MessageServed(config, m, line, requests, no, attemptCount, clock(old(ticks)), clock(from), x.call, ended,
                    handled);
      BlockParts(old(Signals(log)), x);
    }

    // ---- The session ------------------------------------------------------------

    /** The broker between two lines, after the exchanges in `history`. */
    ghost predicate Between(history: seq<Exchange>, requests: nat)
      reads this
    {
      LogOk() && Tally(config, history, requests, attemptCount, calls, outputBytes, Signals(log))
    }

    /** A line that is no message: answered, at most, without a request. */
    method ServeMalformed(line: Line) returns (ghost x: Exchange)
      requires LogOk() && !line.Message? && !line.NotAnObject?
      modifies this`log, this`stopped, this`protocolErrors
      ensures LogOk() && Counters() == MeterStep(config, old(Counters()), line) && Signals(log) == old(Signals(log))
      ensures x == Exchange(None, None, None, calls)
    {
      if line != Blank {
        RecordProtocolError();
      }
      x := Exchange(None, None, None, calls);
    }

    /** Reads one line. */
    method ServeLine(line: Line, requests: nat, ghost history: seq<Exchange>) returns (served: nat, ghost x: Exchange)
      requires Between(history, requests) && Monotone(clock)
      modifies this
      ensures Between(history + [x], served) && Counters() == MeterStep(config, old(Counters()), line)
      ensures ExchangeOf(config, old(Counters()), line, x)
    {
      served := requests;
      if line.Message? || line.NotAnObject? {
        served, x := ServeMessage(line, requests);
      } else {
        x := ServeMalformed(line);
        assert Signals(log) == old(Signals(log)) + Block(x);
      }
      TallyNext(config, history, line, x, old(Counters()), requests, old(attemptCount), old(Signals(log)));
    }

    method Open()
      requires Counters() == ZERO && attemptCount == 0 && log == []
      modifies this`log
      ensures Between([], 0)
    {
      EmptySession(config);
      Record(Start(config.prospective));
    }

    method Close(requests: nat, lines: seq<Line>, ghost history: seq<Exchange>)
      requires Between(history, requests) && Served(config, lines, history) && Counters() == Metered(config, lines)
      modifies this`log
      ensures LogOk() && Ran(config, lines, log, history)
    {
      ErrorsCounted(config, lines);
      Record(BrokerTrace.Event.Stop(requests, requests, calls, outputBytes));
    }

    /** `serve`, to the end of its input. */
    method Serve(lines: seq<Line>) returns (ghost history: seq<Exchange>)
      requires Monotone(clock) && Counters() == ZERO && attemptCount == 0 && log == []
      modifies this
      ensures Ran(config, lines, log, history)
      ensures Counters() == Metered(config, lines)
      ensures (stopped.Some? <==> Budgeted(log)) && (Budgeted(log) <==> !KeepsBudgets(config, lines))
    {
      var requests := 0;
      history := [];
      Open();
      for k := 0 to |lines|
        invariant Between(history, requests) && Served(config, lines[..k], history)
        invariant Counters() == Metered(config, lines[..k])
      {
        ghost var x;
        requests, x := ServeLine(lines[k], requests, history);
        ServedNext(config, lines, k, history, x);
        MeteredNext(config, lines, k);
        history := history + [x];
      }
      assert lines[..|lines|] == lines;
      Close(requests, lines, history);
      RunsOnExactly(config, lines);
    }
  }

  // ---- Sessions and their counters ------------------------------------------------

  /** The counters agree with the exchanges so far. */
  ghost predicate Tally(config: Config, history: seq<Exchange>, requests: nat, attempts: nat, calls: nat, bytes: nat,
                        signals: seq<Event>) {
    && Session(history)
    && requests == Requests(history) && attempts == Attempts(history)
    && calls == Calls(history) && bytes == Delivered(history)
    && signals == [Start(config.prospective)] + Flatten(history)
  }

  /** The calls and bytes a line adds. */
  lemma CallsFollow(config: Config, m: Meter, line: Line)
    ensures var n := MeterStep(config, m, line);
            if Admits(config, m, line) then
              && n.calls == m.calls + 1
              && n.bytes == m.bytes + Size(CallOutput(config, m.bytes, line.what.call.name.value, line.what.call))
            else n.calls == m.calls && n.bytes == m.bytes
  {
  }

  lemma DeliveredSnoc(history: seq<Exchange>, x: Exchange)
    ensures Delivered(history + [x]) == Delivered(history) + if x.call.Some? then Size(x.call.value.output) else 0
  {
    assert (history + [x])[..|history|] == history;
  }

  lemma TallyNext(config: Config, history: seq<Exchange>, line: Line, x: Exchange, m: Meter,
                  requests: nat, attempts: nat, signals: seq<Event>)
    requires Tally(config, history, requests, attempts, m.calls, m.bytes, signals)
    requires Follows(requests, attempts, m.calls, x) && ExchangeOf(config, m, line, x)
    ensures var n := MeterStep(config, m, line);
            Tally(config, history + [x], requests + (if x.request.Some? then 1 else 0),
                  attempts + (if x.attempt.Some? then 1 else 0), n.calls, n.bytes, signals + Block(x))
  {
    SessionSnoc(history, x);
    DeliveredSnoc(history, x);
    CallsFollow(config, m, line);
    Associative([Start(config.prospective)], Flatten(history), Block(x));
  }

  lemma EmptySession(config: Config)
    ensures Session([]) && Requests([]) == Attempts([]) == Calls([]) == Delivered([]) == 0
    ensures Signals([]) == [] && [Start(config.prospective)] + Flatten([]) == [Start(config.prospective)]
    ensures [] + [Start(config.prospective)] == [Start(config.prospective)]
  {
  }

  /** Each line led to its exchange. */
  ghost predicate Served(config: Config, lines: seq<Line>, history: seq<Exchange>) {
    && |lines| == |history|
    && forall k :: 0 <= k < |lines| ==> ExchangeOf(config, Metered(config, lines[..k]), lines[k], history[k])
  }

  lemma {:induction false} ServedNext(config: Config, lines: seq<Line>, k: nat, history: seq<Exchange>, x: Exchange)
    requires k < |lines| && Served(config, lines[..k], history)
    requires ExchangeOf(config, Metered(config, lines[..k]), lines[k], x)
    ensures Served(config, lines[..k + 1], history + [x])
  {
    var now, more := lines[..k + 1], history + [x];
    forall j | 0 <= j < |now|
      ensures ExchangeOf(config, Metered(config, now[..j]), now[j], more[j])
    {
      if j < k {
        SameExchange(config, lines[..k], now, j, history[j]);
      } else {
        assert now[..j] == lines[..k];
      }
    }
  }

  lemma {:induction false} MeteredNext(config: Config, lines: seq<Line>, k: nat)
    requires k < |lines|
    ensures Metered(config, lines[..k + 1]) == MeterStep(config, Metered(config, lines[..k]), lines[k])
  {
    assert lines[..k + 1][..k] == lines[..k];
  }

  lemma SameExchange(config: Config, lines: seq<Line>, more: seq<Line>, j: nat, x: Exchange)
    requires lines <= more && j < |lines| && ExchangeOf(config, Metered(config, lines[..j]), lines[j], x)
    ensures ExchangeOf(config, Metered(config, more[..j]), more[j], x)
  {
    assert more[..j] == lines[..j];
  }

  // ---- Whole runs ---------------------------------------------------------------

  /** A finished run: its exchanges, one for each line, its log and its counts. */
  ghost predicate Ran(config: Config, lines: seq<Line>, log: seq<Event>, history: seq<Exchange>) {
    && Session(history) && Served(config, lines, history)
    && Signals(log) == [Start(config.prospective)] + Flatten(history)
         + [BrokerTrace.Event.Stop(Requests(history), Requests(history), Calls(history), Delivered(history))]
    && Calls(history) == Metered(config, lines).calls && Delivered(history) == Metered(config, lines).bytes
    && Obeys(log) && (ErrorCount(log) == 0 <==> AllOk(lines))
  }

  /** In every run the logged calls stay within their budget, none starts after a
      budget event, and the logged outputs stay within theirs unless the last admitted
      call had arguments that are too long, and then by at most its reply. */
  lemma RunWithinBudgets(config: Config, lines: seq<Line>, log: seq<Event>, history: seq<Exchange>)
    requires Ran(config, lines, log, history)
    ensures CallCount(log) == Metered(config, lines).calls <= config.toolCalls
    ensures OutputBytes(log) == Metered(config, lines).bytes
    ensures OutputBytes(log) <= config.outputBytes || exists k :: 0 <= k < |lines| && Overran(config, lines, k)
    ensures forall i, j :: 0 <= i < j < |log| && log[i].Budget? ==> !log[j].CallStart?
  {
    BudgetsHold(config, lines);
    LoggedCounts(config, log, history);
    forall i, j | 0 <= i < j < |log| && log[i].Budget?
      ensures !log[j].CallStart?
    {
      NoCallOnceStopped(log, i, j);
    }
  }

  lemma LoggedCounts(config: Config, log: seq<Event>, history: seq<Exchange>)
    requires Signals(log) == [Start(config.prospective)] + Flatten(history)
               + [BrokerTrace.Event.Stop(Requests(history), Requests(history), Calls(history), Delivered(history))]
    ensures CallCount(log) == Calls(history) && OutputBytes(log) == Delivered(history)
  {
    NoiseIsIgnored(log, 0);
    WholeCounts(Start(config.prospective), history,
                BrokerTrace.Event.Stop(Requests(history), Requests(history), Calls(history), Delivered(history)));
  }

  /** The lifecycle check accepts a run's log if and only if every line is well formed
      and every line that is admitted as a call carries an id. */
  lemma RunAccepted(config: Config, lines: seq<Line>, log: seq<Event>, history: seq<Exchange>)
    requires Ran(config, lines, log, history)
    ensures Accepts(log) <==>
            AllOk(lines) && forall k :: 0 <= k < |lines| && AdmittedAt(config, lines, k) ==> lines[k].id.Some?
  {
    assert Logs(log, history);
    AcceptedExactly(log, history);
    forall k | 0 <= k < |lines|
      ensures Stray(history[k]) <==> AdmittedAt(config, lines, k) && lines[k].id.None?
    {
      assert ExchangeOf(config, Metered(config, lines[..k]), lines[k], history[k]);
    }
  }

  /** Every run without protocol errors in which each tools/call carries an id is
      accepted. */
  lemma OrderlyRunAccepted(config: Config, lines: seq<Line>, log: seq<Event>, history: seq<Exchange>)
    requires Ran(config, lines, log, history) && AllOk(lines)
    requires forall k :: 0 <= k < |lines| && IsToolsCall(lines[k]) ==> lines[k].id.Some?
    ensures Accepts(log)
  {
    RunAccepted(config, lines, log, history);
  }

  /** A tools/call notification. */
  function CallWithoutId(name: Text, arguments: Text, status: Status, output: Text): Line {
    Message(true, None, ToolsCall(ToolCall(true, Some(name), arguments, status, output)))
  }

  /** The condition on ids is needed: after any orderly lines that leave the broker
      running with a call to spend, one permitted tools/call without an id is no protocol
      error and yet gets the log rejected, whatever follows it. */
  lemma CallWithoutIdRejected(config: Config, lines: seq<Line>, name: Text, arguments: Text, status: Status,
                              output: Text, more: seq<Line>, log: seq<Event>, history: seq<Exchange>)
    requires Ran(config, lines + [CallWithoutId(name, arguments, status, output)] + more, log, history)
    requires AllOk(lines + more) && config.permitted(name)
    requires Metered(config, lines).stopped.None? && Metered(config, lines).calls < config.toolCalls
    ensures ErrorCount(log) == 0 && !Accepts(log)
  {
    var line := CallWithoutId(name, arguments, status, output);
    var all := lines + [line] + more;
    var k := |lines|;
    assert all[..k] == lines && all[k] == line;
    assert AdmittedAt(config, all, k) && all[k].id.None?;
    RunAccepted(config, all, log, history);
    AllOkAround(lines, line, more);
  }

  lemma AllOkAround(lines: seq<Line>, line: Line, more: seq<Line>)
    requires AllOk(lines + more) && LineOk(line)
    ensures AllOk(lines + [line] + more)
  {
    var all := lines + [line] + more;
    forall k | 0 <= k < |all|
      ensures LineOk(all[k])
    {
      if k != |lines| {
        assert all[k] == (lines + more)[if k < |lines| then k else k - 1];
      }
    }
  }

  /** The smallest such run: one permitted call, and nothing else. */
  lemma LoneCallRejected(config: Config, output: Text, log: seq<Event>, history: seq<Exchange>)
    requires config.toolCalls > 0 && config.permitted("read")
    requires Ran(config, [CallWithoutId("read", "{}", Ok, output)], log, history)
    ensures ErrorCount(log) == 0 && !Accepts(log)
  {
    var line := CallWithoutId("read", "{}", Ok, output);
    assert [] + [line] + [] == [line];
    CallWithoutIdRejected(config, [], "read", "{}", Ok, output, [], log, history);
  }

  /** In every prospective run a well-formed tools/call that is refused is logged with the
      text of its cause: of the first breach if one came before it, else of a forbidden
      tool or of the exhausted call budget. */
  lemma RefusalsAreAnswered(config: Config, lines: seq<Line>, log: seq<Event>, history: seq<Exchange>, k: nat,
                            why: Refusal)
    requires Ran(config, lines, log, history) && config.prospective && k < |lines|
    requires IsToolsCall(lines[k]) && LineOk(lines[k]) && RefusedFor(config, lines[..k], lines[k], why)
    ensures var x := history[k];
            && x.call.None? && x.attempt.Some? && x.attempt.value.outcome == Refused
            && x.attempt.value.result == Some(Result(config.refuses(why), true))
  {
    RefusalHasCause(config, lines, k, why);
    assert ExchangeOf(config, Metered(config, lines[..k]), lines[k], history[k]);
  }

  /** In every prospective run an admitted call is logged with its own tool and arguments,
      its output as far as it was delivered, and the status. */
  lemma AdmittedIsAnswered(config: Config, lines: seq<Line>, log: seq<Event>, history: seq<Exchange>, k: nat)
    requires Ran(config, lines, log, history) && config.prospective && k < |lines|
    requires Permitted(config, lines[k]) && KeepsBudgets(config, lines[..k])
             && PermittedCalls(config, lines[..k]) < config.toolCalls
    ensures var x, call := history[k], lines[k].what.call;
            && x.call.Some? && x.call.value.name == call.name.value && x.call.value.input <= call.arguments
            && x.attempt.Some? && x.attempt.value.tool == call.name && x.attempt.value.arguments == call.arguments
            && x.attempt.value.outcome == x.call.value.status
            && x.attempt.value.result == Some(Result(x.call.value.output, x.call.value.status != Ok))
  {
    AdmittedExactly(config, lines, k);
    AdmittedPart(config, Metered(config, lines[..k]), lines[k], history[k]);
  }

  lemma AdmittedPart(config: Config, m: Meter, line: Line, x: Exchange)
    requires ExchangeOf(config, m, line, x) && config.prospective && Admits(config, m, line)
    ensures var call := line.what.call;
            && x.call.Some? && x.call.value.name == call.name.value && x.call.value.input <= call.arguments
            && x.attempt.Some? && x.attempt.value.tool == call.name && x.attempt.value.arguments == call.arguments
            && x.attempt.value.outcome == x.call.value.status
            && x.attempt.value.result == Some(Result(x.call.value.output, x.call.value.status != Ok))
  {
  }

  /** A call that keeps within every budget is logged, and so answered, whole. */
  lemma KeptIsWhole(config: Config, lines: seq<Line>, log: seq<Event>, history: seq<Exchange>, k: nat)
    requires Ran(config, lines, log, history) && k < |lines|
    requires Permitted(config, lines[k]) && KeepsBudgets(config, lines[..k + 1])
    ensures var x, call := history[k], lines[k].what.call;
            && x.call.Some? && x.call.value.input == call.arguments && x.call.value.output == call.output
            && x.call.value.status == call.status
  {
    assert lines[..k + 1] == lines[..k] + [lines[k]];
    NextKeepsBudgets(config, lines[..k], lines[k]);
    RunsOnExactly(config, lines[..k]);
    AdmittedExactly(config, lines, k);
    WholePart(config, Metered(config, lines[..k]), lines[k], history[k]);
  }

  lemma WholePart(config: Config, m: Meter, line: Line, x: Exchange)
    requires ExchangeOf(config, m, line, x) && Admits(config, m, line)
    requires Modest(config, line.what.call) && m.bytes + Size(line.what.call.output) <= config.outputBytes
    ensures var call := line.what.call;
            && x.call.Some? && x.call.value.input == call.arguments && x.call.value.output == call.output
            && x.call.value.status == call.status
  {
  }

  function ToolsCalls(lines: seq<Line>): nat {
    if lines == [] then 0 else ToolsCalls(lines[..|lines| - 1]) + if IsToolsCall(lines[|lines| - 1]) then 1 else 0
  }

  lemma {:induction false} OneAttemptEach(config: Config, lines: seq<Line>, history: seq<Exchange>)
    requires |lines| == |history|
    requires forall k :: 0 <= k < |lines| ==> (history[k].attempt.Some? <==> IsToolsCall(lines[k]))
    ensures Attempts(history) == ToolsCalls(lines)
    decreases |lines|
  {
    if lines != [] {
      OneAttemptEach(config, lines[..|lines| - 1], history[..|lines| - 1]);
    }
  }

  /** The ledger of every prospective run is rebuilt: one row for each parsed
      tools/call, bound to its own request, call and reply. */
  lemma RunRebuilt(config: Config, lines: seq<Line>, log: seq<Event>, history: seq<Exchange>)
    requires Ran(config, lines, log, history) && config.prospective
    ensures Rebuild(log, Calls(history)) == Some(FinalRows(history))
    ensures |FinalRows(history)| == ToolsCalls(lines)
  {
    forall k | 0 <= k < |lines|
      ensures Measured(history[k]) && (history[k].attempt.Some? <==> IsToolsCall(lines[k]))
    {
      assert ExchangeOf(config, Metered(config, lines[..k]), lines[k], history[k]);
    }
    assert Signals(log) == Whole(history);
    LedgerOfSession(log, history);
    OneAttemptEach(config, lines, history);
    RowLengths(history);
  }
}
