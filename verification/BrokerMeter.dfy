// What the broker reads, and how its budgets follow from it.

/** The lines of a session and the broker's counters as a function of them. Tool results,
    the permitted tools and the texts of replies are parameters. */
module BrokerMeter {
  import opened Wrappers
  import opened BrokerTrace
  import opened Utf8

  const MAX_REFUSALS := 20
  const MAX_PROTOCOL_ERRORS := 200

  datatype Code = ProtocolErrorBudget | RefusalBudget | CallBudget | InputBudget | OutputBudget | OutputTruncated

  /** Why a well-formed call is refused; the texts name the code and the tool. */
  datatype Refusal = EpisodeStopped(code: Code) | ToolNotPermitted(name: Text) | CallBudgetExhausted

  /** The limits and the fixed texts. `rejects` is the reply to oversized arguments. */
  datatype Config = Config(prospective: bool, toolCalls: nat, outputBytes: nat, callBytes: nat, redacting: bool,
                           permitted: Text -> bool, refuses: Refusal -> Text, rejects: Text -> Text)

  type Status = o: Outcome | o != Refused && o != ProtocolError witness Ok

  /** A tools/call: whether its params hold only known keys, the name if it is a
      string, the canonical arguments, and what executing it yields. */
  datatype ToolCall = ToolCall(wellFormed: bool, name: Option<Text>, arguments: Text, status: Status, output: Text)

  datatype Method =
    | NoMethod
    | NotAString
    | Initialize
    | Ping
    | ToolsList
    | ToolsCall(call: ToolCall)
    | Notification
    | Unsupported

  datatype Line =
    | Oversized
    | Blank
    | Unparsable
    | NotAnObject
    | Message(versionOk: bool, id: Option<Text>, what: Method)

  // ---- What a line is ---------------------------------------------------------

  predicate IsRequest(line: Line) {
    line.Message? && line.id.Some? && !line.what.NoMethod?
  }

  predicate IsToolsCall(line: Line) {
    line.Message? && line.what.ToolsCall?
  }

  predicate WellFormed(call: ToolCall) {
    call.wellFormed && call.name.Some?
  }

  /** No protocol error. */
  predicate LineOk(line: Line) {
    match line
    case Oversized => false
    case Blank => true
    case Unparsable => false
    case NotAnObject => false
    case Message(versionOk, _, what) =>
      versionOk && !what.Unsupported? && (what.ToolsCall? ==> WellFormed(what.call))
  }

  predicate AllOk(lines: seq<Line>) {
    forall k :: 0 <= k < |lines| ==> LineOk(lines[k])
  }

  // ---- The counters -----------------------------------------------------------

  datatype Meter = Meter(calls: nat, refusals: nat, errors: nat, bytes: nat, stopped: Option<Code>)

  const ZERO := Meter(0, 0, 0, 0, None)

  /** Only the first breach stops the broker. */
  function StopWith(m: Meter, code: Code): Meter {
    if m.stopped.Some? then m else m.(stopped := Some(code))
  }

  /** A protocol error; the first one past their bound stops the broker. */
  function ErrorStep(m: Meter): Meter {
    var n := m.(errors := m.errors + 1);
    if n.errors > MAX_PROTOCOL_ERRORS then StopWith(n, ProtocolErrorBudget) else n
  }

  predicate TooLong(config: Config, call: ToolCall) {
    Size(call.arguments) > config.callBytes
  }

  /** How many bytes may still be delivered for one call. */
  function DeliveryLimit(config: Config, bytes: nat): int {
    var remaining := config.outputBytes - bytes;
    if config.redacting && config.callBytes < remaining then config.callBytes else remaining
  }

  predicate CutShort(config: Config, bytes: nat, call: ToolCall) {
    Size(call.output) > DeliveryLimit(config, bytes)
  }

  /** The logged input of a call: its arguments, cut if they are too long. */
  function CallInput(config: Config, call: ToolCall): Text {
    if TooLong(config, call) then Cut(call.arguments, config.callBytes) else call.arguments
  }

  /** The output of a call, delivered whole unless the arguments are too long or the
      output exceeds what may still be delivered. */
  function CallOutput(config: Config, bytes: nat, name: Text, call: ToolCall): Text {
    if TooLong(config, call) then config.rejects(name)
    else if CutShort(config, bytes, call) then Cut(call.output, DeliveryLimit(config, bytes))
    else call.output
  }

  /** An output within the bound is delivered whole, any other as a beginning within it. */
  lemma OutputBounds(config: Config, bytes: nat, name: Text, call: ToolCall)
    requires !TooLong(config, call)
    ensures Size(call.output) <= DeliveryLimit(config, bytes) ==>
              CallOutput(config, bytes, name, call) == call.output && CallStatus(config, bytes, call) == call.status
    ensures CallOutput(config, bytes, name, call) <= call.output
    ensures Size(CallOutput(config, bytes, name, call)) <= Max(DeliveryLimit(config, bytes), 0)
  {
  }

  function Max(a: int, b: int): int {
    if a < b then b else a
  }

  function CallStatus(config: Config, bytes: nat, call: ToolCall): Status {
    if TooLong(config, call) || CutShort(config, bytes, call) then Truncated else call.status
  }

  /** Why the broker stops after a call, if it does. */
  function CallCode(config: Config, bytes: nat, call: ToolCall): Option<Code> {
    if TooLong(config, call) then Some(InputBudget)
    else if CutShort(config, bytes, call) then
      Some(if DeliveryLimit(config, bytes) == config.outputBytes - bytes then OutputBudget else OutputTruncated)
    else if call.status == Truncated then Some(OutputTruncated)
    else None
  }

  /** The delivery of an admitted call. */
  function Charge(config: Config, m: Meter, name: Text, call: ToolCall): Meter {
    var n := m.(bytes := m.bytes + Size(CallOutput(config, m.bytes, name, call)));
    var code := CallCode(config, m.bytes, call);
    if code.Some? then StopWith(n, code.value) else n
  }

  predicate AdmitsCall(config: Config, m: Meter, call: ToolCall) {
    WellFormed(call) && m.stopped.None? && config.permitted(call.name.value) && m.calls < config.toolCalls
  }

  /** Why `call_tool` refuses a well-formed call, if it does. */
  function Refuses(config: Config, m: Meter, call: ToolCall): Option<Refusal>
    requires WellFormed(call)
  {
    if m.stopped.Some? then Some(EpisodeStopped(m.stopped.value))
    else if !config.permitted(call.name.value) then Some(ToolNotPermitted(call.name.value))
    else if m.calls >= config.toolCalls then Some(CallBudgetExhausted)
    else None
  }

  /** `call_tool` on the counters. */
  function ToolStep(config: Config, m: Meter, call: ToolCall): Meter {
    if !WellFormed(call) || m.stopped.Some? then m
    else if !config.permitted(call.name.value) then
      var n := m.(refusals := m.refusals + 1);
      if n.refusals > MAX_REFUSALS then StopWith(n, RefusalBudget) else n
    else if m.calls >= config.toolCalls then StopWith(m, CallBudget)
    else Charge(config, m.(calls := m.calls + 1), call.name.value, call)
  }

  function HandleStep(config: Config, m: Meter, line: Line): Meter {
    if IsToolsCall(line) && line.versionOk then ToolStep(config, m, line.what.call) else m
  }

  /** One line on the counters. */
  function MeterStep(config: Config, m: Meter, line: Line): Meter {
    if LineOk(line) then HandleStep(config, m, line) else ErrorStep(HandleStep(config, m, line))
  }

  /** The line becomes a measured call. */
  predicate Admits(config: Config, m: Meter, line: Line) {
    IsToolsCall(line) && line.versionOk && AdmitsCall(config, m, line.what.call)
  }

  /** The counters after some lines. */
  function Metered(config: Config, lines: seq<Line>): Meter {
    if lines == [] then ZERO else MeterStep(config, Metered(config, lines[..|lines| - 1]), lines[|lines| - 1])
  }

  /** The `k`-th line becomes a measured call, which can be told from the lines up to it. */
  predicate AdmittedAt(config: Config, lines: seq<Line>, k: nat)
    requires k < |lines|
  {
    Admits(config, Metered(config, lines[..k]), lines[k])
  }

  // ---- What always holds of the counters --------------------------------------

  predicate WithinBudgets(config: Config, m: Meter) {
    m.calls <= config.toolCalls && (m.stopped.None? ==> m.bytes <= config.outputBytes)
  }

  lemma StepWithinBudgets(config: Config, m: Meter, line: Line)
    requires WithinBudgets(config, m)
    ensures WithinBudgets(config, MeterStep(config, m, line))
    ensures var n := MeterStep(config, m, line);
            && (m.stopped.Some? ==> n.stopped == m.stopped)
            && (!Admits(config, m, line) ==> n.bytes == m.bytes && n.calls == m.calls)
            && (Admits(config, m, line) && !TooLong(config, line.what.call) ==> n.bytes <= config.outputBytes)
  {
  }

  /** The last admitted line had arguments that are too long; until then the budget held,
      and only its reply went past it. */
  predicate Overran(config: Config, lines: seq<Line>, k: nat)
    requires k < |lines|
  {
    && AdmittedAt(config, lines, k) && TooLong(config, lines[k].what.call)
    && Metered(config, lines[..k]).bytes <= config.outputBytes
    && Metered(config, lines).bytes ==
         Metered(config, lines[..k]).bytes + Size(config.rejects(lines[k].what.call.name.value))
    && forall j :: k < j < |lines| ==> !AdmittedAt(config, lines, j)
  }

  lemma OverranStays(config: Config, lines: seq<Line>, k: nat)
    requires lines != [] && k < |lines| - 1 && Overran(config, lines[..|lines| - 1], k)
    requires WithinBudgets(config, Metered(config, lines[..|lines| - 1]))
    requires Metered(config, lines[..|lines| - 1]).stopped.Some?
    ensures Overran(config, lines, k)
  {
    var n := |lines| - 1;
    assert forall j :: 0 <= j <= n ==> lines[..n][..j] == lines[..j];
    StepWithinBudgets(config, Metered(config, lines[..n]), lines[n]);
    forall j | k < j < |lines|
      ensures !AdmittedAt(config, lines, j)
    {
      if j < n {
        assert !AdmittedAt(config, lines[..n], j) && lines[..n][j] == lines[j];
      }
    }
  }

  /** For every input: calls stay within their budget, and so do the delivered bytes,
      unless the last admitted call had arguments that are too long. */
  lemma {:induction false} BudgetsHold(config: Config, lines: seq<Line>)
    ensures WithinBudgets(config, Metered(config, lines))
    ensures Metered(config, lines).bytes <= config.outputBytes
            || exists k :: 0 <= k < |lines| && Overran(config, lines, k)
    decreases |lines|
  {
    if lines != [] {
      var n := |lines| - 1;
      BudgetsHold(config, lines[..n]);
      var m := Metered(config, lines[..n]);
      StepWithinBudgets(config, m, lines[n]);
      if m.bytes > config.outputBytes {
        var k :| 0 <= k < n && Overran(config, lines[..n], k);
        OverranStays(config, lines, k);
      } else if AdmittedAt(config, lines, n) && TooLong(config, lines[n].what.call) {
        assert Overran(config, lines, n);
      }
    }
  }

  /** The errors counted are the lines that are not well formed. */
  lemma {:induction false} ErrorsCounted(config: Config, lines: seq<Line>)
    ensures Metered(config, lines).errors == 0 <==> AllOk(lines)
    decreases |lines|
  {
    if lines != [] {
      var n := |lines| - 1;
      ErrorsCounted(config, lines[..n]);
      assert AllOk(lines) <==> AllOk(lines[..n]) && LineOk(lines[n]);
    }
  }
}
