// Which lines stop the broker, and what it answers before and after.

/** The budgets over the lines alone: what an undisturbed session is, the first breach of
    any other, and the causes of refusals. */
module BrokerBreach {
  import opened Wrappers
  import opened BrokerTrace
  import opened BrokerMeter
  import opened Utf8

  // ---- Lines ----------------------------------------------------------------------

  /** A well-formed tools/call of a permitted tool. */
  predicate Permitted(config: Config, line: Line) {
    IsToolsCall(line) && line.versionOk && WellFormed(line.what.call) && config.permitted(line.what.call.name.value)
  }

  predicate Forbidden(config: Config, line: Line) {
    IsToolsCall(line) && line.versionOk && WellFormed(line.what.call) && !config.permitted(line.what.call.name.value)
  }

  /** How many permitted calls the lines hold. */
  function PermittedCalls(config: Config, lines: seq<Line>): nat {
    if lines == [] then 0
    else PermittedCalls(config, lines[..|lines| - 1]) + if Permitted(config, lines[|lines| - 1]) then 1 else 0
  }

  function ForbiddenCalls(config: Config, lines: seq<Line>): nat {
    if lines == [] then 0
    else ForbiddenCalls(config, lines[..|lines| - 1]) + if Forbidden(config, lines[|lines| - 1]) then 1 else 0
  }

  function Errors(lines: seq<Line>): nat {
    if lines == [] then 0 else Errors(lines[..|lines| - 1]) + if LineOk(lines[|lines| - 1]) then 0 else 1
  }

  /** The size of what the permitted calls of the lines yield. */
  function Yield(config: Config, lines: seq<Line>): nat {
    if lines == [] then 0 else
    var last := lines[|lines| - 1];
    Yield(config, lines[..|lines| - 1]) + if Permitted(config, last) then Size(last.what.call.output) else 0
  }

  /** Arguments and output of a call within the bounds on one call, and not cut by the tool. */
  predicate Modest(config: Config, call: ToolCall) {
    && Size(call.arguments) <= config.callBytes && call.status != Truncated
    && (config.redacting ==> Size(call.output) <= config.callBytes)
  }

  /** The lines keep within every budget. */
  predicate KeepsBudgets(config: Config, lines: seq<Line>) {
    && PermittedCalls(config, lines) <= config.toolCalls && ForbiddenCalls(config, lines) <= MAX_REFUSALS
    && Errors(lines) <= MAX_PROTOCOL_ERRORS && Yield(config, lines) <= config.outputBytes
    && forall k :: 0 <= k < |lines| && Permitted(config, lines[k]) ==> Modest(config, lines[k].what.call)
  }

  /** After orderly lines one more line breaches a budget. */
  predicate Breaches(config: Config, before: seq<Line>, line: Line, code: Code) {
    BreachesAfter(config, PermittedCalls(config, before), ForbiddenCalls(config, before), Errors(before),
                  Yield(config, before), line, code)
  }

  /** The same, from how many permitted and forbidden calls, errors and delivered bytes came
      before. */
  predicate BreachesAfter(config: Config, calls: nat, refusals: nat, errors: nat, bytes: nat, line: Line, code: Code) {
    var spare := Permitted(config, line) && calls < config.toolCalls;
    var short := spare && Size(line.what.call.arguments) <= config.callBytes;
    var room := config.outputBytes - bytes;
    var capped := config.redacting && config.callBytes < room;
    match code
    case ProtocolErrorBudget => !LineOk(line) && errors == MAX_PROTOCOL_ERRORS
    case RefusalBudget => Forbidden(config, line) && refusals == MAX_REFUSALS
    case CallBudget => Permitted(config, line) && calls == config.toolCalls
    case InputBudget => spare && Size(line.what.call.arguments) > config.callBytes
    case OutputBudget => short && !capped && Size(line.what.call.output) > room
    case OutputTruncated =>
      && short && (capped || Size(line.what.call.output) <= room)
      && ((capped && Size(line.what.call.output) > config.callBytes) || line.what.call.status == Truncated)
  }

  // ---- One line -------------------------------------------------------------------

  predicate Counted(config: Config, m: Meter, lines: seq<Line>) {
    && m.calls == PermittedCalls(config, lines) && m.refusals == ForbiddenCalls(config, lines)
    && m.errors == Errors(lines) && m.bytes == Yield(config, lines)
  }

  lemma {:induction false} NextLine(config: Config, lines: seq<Line>, line: Line)
    ensures var more := lines + [line];
            && PermittedCalls(config, more) ==
                 PermittedCalls(config, lines) + (if Permitted(config, line) then 1 else 0)
            && ForbiddenCalls(config, more) ==
                 ForbiddenCalls(config, lines) + (if Forbidden(config, line) then 1 else 0)
            && Errors(more) == Errors(lines) + (if LineOk(line) then 0 else 1)
            && Yield(config, more) ==
                 Yield(config, lines) + (if Permitted(config, line) then Size(line.what.call.output) else 0)
  {
    assert (lines + [line])[..|lines|] == lines;
  }

  lemma {:induction false} NextKeepsBudgets(config: Config, lines: seq<Line>, line: Line)
    ensures KeepsBudgets(config, lines + [line]) <==>
              && KeepsBudgets(config, lines)
              && (Permitted(config, line) ==>
                    && PermittedCalls(config, lines) < config.toolCalls && Modest(config, line.what.call)
                    && Yield(config, lines) + Size(line.what.call.output) <= config.outputBytes)
              && (Forbidden(config, line) ==> ForbiddenCalls(config, lines) < MAX_REFUSALS)
              && (!LineOk(line) ==> Errors(lines) < MAX_PROTOCOL_ERRORS)
  {
    var more := lines + [line];
    NextLine(config, lines, line);
    assert more[|lines|] == line && forall k :: 0 <= k < |lines| ==> more[k] == lines[k];
  }

  /** A running broker that reads one more line stops with a code exactly when the line
      is a breach with that code. */
  lemma {:induction false} LineStops(config: Config, m: Meter, lines: seq<Line>, line: Line, code: Code)
    requires m.stopped.None? && Counted(config, m, lines) && KeepsBudgets(config, lines)
    ensures MeterStep(config, m, line).stopped == Some(code) <==> Breaches(config, lines, line, code)
  {
    StepStops(config, m, line, code);
  }

  lemma StepStops(config: Config, m: Meter, line: Line, code: Code)
    requires m.stopped.None? && m.calls <= config.toolCalls && m.refusals <= MAX_REFUSALS
    requires m.errors <= MAX_PROTOCOL_ERRORS && m.bytes <= config.outputBytes
    ensures MeterStep(config, m, line).stopped == Some(code) <==>
              BreachesAfter(config, m.calls, m.refusals, m.errors, m.bytes, line, code)
  {
    if Permitted(config, line) && m.calls < config.toolCalls {
      CallStops(config, m.(calls := m.calls + 1), line.what.call.name.value, line.what.call, code);
    }
  }

  lemma CallStops(config: Config, m: Meter, name: Text, call: ToolCall, code: Code)
    requires m.stopped.None? && m.bytes <= config.outputBytes
    ensures Charge(config, m, name, call).stopped == CallCode(config, m.bytes, call)
    ensures var room := config.outputBytes - m.bytes;
            var capped := config.redacting && config.callBytes < room;
            CallCode(config, m.bytes, call) == Some(code) <==>
              if Size(call.arguments) > config.callBytes then code == InputBudget
              else if Size(call.output) > (if capped then config.callBytes else room) then
                code == if capped then OutputTruncated else OutputBudget
              else call.status == Truncated && code == OutputTruncated
  {
  }

  lemma {:induction false} LineCounts(config: Config, m: Meter, lines: seq<Line>, line: Line)
    requires m.stopped.None? && Counted(config, m, lines) && MeterStep(config, m, line).stopped.None?
    ensures Counted(config, MeterStep(config, m, line), lines + [line])
  {
    NextLine(config, lines, line);
    StepCounts(config, m, line);
  }

  /** What a line that does not stop the broker adds to each counter. */
  lemma StepCounts(config: Config, m: Meter, line: Line)
    requires m.stopped.None? && MeterStep(config, m, line).stopped.None?
    ensures var n := MeterStep(config, m, line);
            && n.calls == m.calls + (if Permitted(config, line) then 1 else 0)
            && n.refusals == m.refusals + (if Forbidden(config, line) then 1 else 0)
            && n.errors == m.errors + (if LineOk(line) then 0 else 1)
            && n.bytes == m.bytes + (if Permitted(config, line) then Size(line.what.call.output) else 0)
  {
    if IsToolsCall(line) && line.versionOk && WellFormed(line.what.call) {
      ToolCounts(config, m, line.what.call);
    }
  }

  lemma ToolCounts(config: Config, m: Meter, call: ToolCall)
    requires WellFormed(call) && m.stopped.None? && ToolStep(config, m, call).stopped.None?
    ensures var n, permitted := ToolStep(config, m, call), config.permitted(call.name.value);
            && n.calls == m.calls + (if permitted then 1 else 0)
            && n.refusals == m.refusals + (if permitted then 0 else 1)
            && n.errors == m.errors && n.bytes == m.bytes + (if permitted then Size(call.output) else 0)
  {
  }

  /** It goes on exactly when the lines still keep within every budget. */
  lemma {:induction false} LineGoesOn(config: Config, m: Meter, lines: seq<Line>, line: Line)
    requires m.stopped.None? && Counted(config, m, lines) && KeepsBudgets(config, lines)
    ensures MeterStep(config, m, line).stopped.None? <==> KeepsBudgets(config, lines + [line])
  {
    KeptIsNotBreached(config, lines, line);
    var n := MeterStep(config, m, line);
    forall code
      ensures n.stopped == Some(code) <==> Breaches(config, lines, line, code)
    {
      LineStops(config, m, lines, line, code);
    }
    if n.stopped.Some? {
      assert Breaches(config, lines, line, n.stopped.value);
    }
  }

  lemma {:induction false} StoppedStays(config: Config, m: Meter, line: Line)
    requires m.stopped.Some?
    ensures MeterStep(config, m, line).stopped == m.stopped
  {
  }

  lemma {:induction false} KeptIsNotBreached(config: Config, lines: seq<Line>, line: Line)
    requires KeepsBudgets(config, lines)
    ensures KeepsBudgets(config, lines + [line]) <==> forall code :: !Breaches(config, lines, line, code)
  {
    NextKeepsBudgets(config, lines, line);
    var calls, refusals := PermittedCalls(config, lines), ForbiddenCalls(config, lines);
    var errors, bytes := Errors(lines), Yield(config, lines);
    NoBreach(config, calls, refusals, errors, bytes, line);
    assert (forall code :: !Breaches(config, lines, line, code)) <==>
             forall code :: !BreachesAfter(config, calls, refusals, errors, bytes, line, code) by {
      forall code
        ensures Breaches(config, lines, line, code) == BreachesAfter(config, calls, refusals, errors, bytes, line, code)
      {
      }
    }
  }

  lemma NoBreach(config: Config, calls: nat, refusals: nat, errors: nat, bytes: nat, line: Line)
    requires calls <= config.toolCalls && refusals <= MAX_REFUSALS && errors <= MAX_PROTOCOL_ERRORS
    requires bytes <= config.outputBytes
    ensures (forall code :: !BreachesAfter(config, calls, refusals, errors, bytes, line, code)) <==>
              && (Permitted(config, line) ==>
                    && calls < config.toolCalls && Modest(config, line.what.call)
                    && bytes + Size(line.what.call.output) <= config.outputBytes)
              && (Forbidden(config, line) ==> refusals < MAX_REFUSALS)
              && (!LineOk(line) ==> errors < MAX_PROTOCOL_ERRORS)
  {
    var b := (code: Code) => BreachesAfter(config, calls, refusals, errors, bytes, line, code);
    assert (forall code :: !BreachesAfter(config, calls, refusals, errors, bytes, line, code)) <==>
             !b(ProtocolErrorBudget) && !b(RefusalBudget) && !b(CallBudget) && !b(InputBudget) && !b(OutputBudget)
             && !b(OutputTruncated);
  }

  // ---- All lines ------------------------------------------------------------------

  /** The broker runs on exactly as long as the lines keep within every budget, and then
      its counters are their plain counts. */
  lemma {:induction false} RunsOnExactly(config: Config, lines: seq<Line>)
    ensures Metered(config, lines).stopped.None? <==> KeepsBudgets(config, lines)
    ensures KeepsBudgets(config, lines) ==> Counted(config, Metered(config, lines), lines)
    decreases |lines|
  {
    if lines != [] {
      var before, line := lines[..|lines| - 1], lines[|lines| - 1];
      assert lines == before + [line];
      RunsOnExactly(config, before);
      NextMeter(config, before, line, lines);
    }
  }

  lemma {:induction false} NextMeter(config: Config, before: seq<Line>, line: Line, lines: seq<Line>)
    requires lines == before + [line] && (Metered(config, before).stopped.None? <==> KeepsBudgets(config, before))
    requires KeepsBudgets(config, before) ==> Counted(config, Metered(config, before), before)
    ensures Metered(config, lines).stopped.None? <==> KeepsBudgets(config, lines)
    ensures KeepsBudgets(config, lines) ==> Counted(config, Metered(config, lines), lines)
  {
    var m := Metered(config, before);
    assert lines[..|lines| - 1] == before && Metered(config, lines) == MeterStep(config, m, line);
    if KeepsBudgets(config, before) {
      LineGoesOn(config, m, before, line);
      if KeepsBudgets(config, lines) {
        LineCounts(config, m, before, line);
      }
    } else {
      NextKeepsBudgets(config, before, line);
      StoppedStays(config, m, line);
    }
  }

  /** Line `k` is the first breach, with this code. */
  predicate FirstBreach(config: Config, lines: seq<Line>, k: nat, code: Code)
    requires k < |lines|
  {
    KeepsBudgets(config, lines[..k]) && Breaches(config, lines[..k], lines[k], code)
  }

  /** What counts as a protocol error: an oversized or unparsable line, one that is no JSON
      object, another protocol version, an unsupported method, and a tools/call with unknown
      parameters or without a name. A blank line does not. */
  lemma {:induction false} ErrorLines(config: Config, lines: seq<Line>, line: Line)
    ensures Metered(config, lines + [line]).errors - Metered(config, lines).errors ==
            match line
            case Oversized => 1
            case Blank => 0
            case Unparsable => 1
            case NotAnObject => 1
            case Message(versionOk, _, what) =>
              if !versionOk || what == Unsupported
                 || (what.ToolsCall? && (!what.call.wellFormed || what.call.name.None?)) then 1 else 0
  {
    assert (lines + [line])[..|lines|] == lines;
    ErrorsStep(config, Metered(config, lines), line);
  }

  lemma ErrorsStep(config: Config, m: Meter, line: Line)
    ensures MeterStep(config, m, line).errors == m.errors + if LineOk(line) then 0 else 1
  {
  }

  /** A broker that stopped did so at the first breach, and with its code. */
  lemma {:induction false} FirstBreachStops(config: Config, lines: seq<Line>, code: Code)
    ensures Metered(config, lines).stopped == Some(code) <==>
              exists k :: 0 <= k < |lines| && FirstBreach(config, lines, k, code)
    decreases |lines|
  {
    if lines != [] {
      var n := |lines| - 1;
      var before, m := lines[..n], Metered(config, lines[..n]);
      FirstBreachStops(config, before, code);
      RunsOnExactly(config, before);
      if KeepsBudgets(config, before) {
        LineStops(config, m, before, lines[n], code);
        assert FirstBreach(config, lines, n, code) <==> Metered(config, lines).stopped == Some(code);
        forall k | 0 <= k < n
          ensures !FirstBreach(config, lines, k, code)
        {
          NotBreachedWithin(config, lines, n, k, code);
        }
      } else {
        StoppedStays(config, m, lines[n]);
        forall k | 0 <= k < n
          ensures FirstBreach(config, lines, k, code) <==> FirstBreach(config, before, k, code)
        {
          assert before[..k] == lines[..k] && before[k] == lines[k];
        }
        assert !FirstBreach(config, lines, n, code);
      }
    }
  }

  /** Lines that keep within every budget hold no breach. */
  lemma {:induction false} NotBreachedWithin(config: Config, lines: seq<Line>, n: nat, k: nat, code: Code)
    requires k < n <= |lines| && KeepsBudgets(config, lines[..n])
    ensures !FirstBreach(config, lines, k, code)
  {
    PartKeepsBudgets(config, lines[..n], k + 1);
    assert lines[..n][..k + 1] == lines[..k] + [lines[k]];
    if KeepsBudgets(config, lines[..k]) {
      KeptIsNotBreached(config, lines[..k], lines[k]);
    }
  }

  lemma {:induction false} PartKeepsBudgets(config: Config, lines: seq<Line>, k: nat)
    requires k <= |lines| && KeepsBudgets(config, lines)
    ensures KeepsBudgets(config, lines[..k])
    decreases |lines|
  {
    if k == |lines| {
      assert lines[..k] == lines;
    } else {
      var before, line := lines[..|lines| - 1], lines[|lines| - 1];
      assert lines == before + [line] && before[..k] == lines[..k];
      NextKeepsBudgets(config, before, line);
      PartKeepsBudgets(config, before, k);
    }
  }

  /** A line becomes a measured call exactly when it is a permitted call, nothing before
      it breached a budget, and fewer calls than allowed came before it. */
  lemma AdmittedExactly(config: Config, lines: seq<Line>, k: nat)
    requires k < |lines|
    ensures AdmittedAt(config, lines, k) <==>
              && Permitted(config, lines[k]) && KeepsBudgets(config, lines[..k])
              && PermittedCalls(config, lines[..k]) < config.toolCalls
  {
    RunsOnExactly(config, lines[..k]);
  }

  // ---- Refusals -------------------------------------------------------------------

  /** Why a well-formed call after the lines is refused. */
  predicate RefusedFor(config: Config, before: seq<Line>, line: Line, why: Refusal) {
    match why
    case EpisodeStopped(code) =>
      exists k :: 0 <= k < |before| && FirstBreach(config, before, k, code)
    case ToolNotPermitted(name) =>
      KeepsBudgets(config, before) && Forbidden(config, line) && line.what.call.name == Some(name)
    case CallBudgetExhausted =>
      && KeepsBudgets(config, before) && Permitted(config, line)
      && PermittedCalls(config, before) == config.toolCalls
  }

  /** The cause the broker gives is the cause. */
  lemma RefusalHasCause(config: Config, lines: seq<Line>, k: nat, why: Refusal)
    requires k < |lines| && IsToolsCall(lines[k]) && LineOk(lines[k])
    ensures Refuses(config, Metered(config, lines[..k]), lines[k].what.call) == Some(why) <==>
              RefusedFor(config, lines[..k], lines[k], why)
  {
    var before := lines[..k];
    RunsOnExactly(config, before);
    if why.EpisodeStopped? {
      FirstBreachStops(config, before, why.code);
    }
  }
}
