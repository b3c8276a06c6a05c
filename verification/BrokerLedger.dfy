// The attempt ledger of a captured broker log, with its totals.

/** `attempts` of telemetry.py from the capture to the totals. */
module BrokerLedger {
  import opened Wrappers
  import opened BrokerTrace
  import opened BrokerLifecycle
  import opened BrokerTelemetry
  import opened BrokerAttempts
  import opened Utf8

  /** A captured log: its lines, `None` where one does not parse, whether the last one is
      ended, and whether the capture was cut. */
  datatype Capture = Capture(lines: seq<Option<Event>>, ended: bool, truncated: bool)

  /** The outcome shown for a row: reached, or still waiting. */
  datatype Standing = Pending | Interrupted | Reached(outcome: Outcome)

  datatype Entry = Entry(row: Row, standing: Standing)

  datatype Summary = Summary(attempts: nat, responses: nat, completed: nat, successful: nat,
                             inputBytes: nat, outputBytes: nat)

  /** `expected` is missing when the capture is partial. */
  datatype Totals = Totals(all: Summary, graph: Summary, byTool: map<Text, Summary>, expected: Option<nat>)

  datatype Ledger = Ledger(entries: seq<Entry>, totals: Totals)

  // ---- Coverage ---------------------------------------------------------------

  predicate Torn(c: Capture) {
    c.lines != [] && !c.ended
  }

  predicate Partial(c: Capture) {
    Torn(c) || c.truncated
  }

  /** The lines that are kept: a torn last line goes if it does not parse. */
  function Kept(c: Capture): seq<Option<Event>> {
    if Torn(c) && c.lines[|c.lines| - 1].None? then c.lines[..|c.lines| - 1] else c.lines
  }

  predicate Parsed(lines: seq<Option<Event>>) {
    forall k :: 0 <= k < |lines| ==> lines[k].Some?
  }

  function Events(lines: seq<Option<Event>>): seq<Event>
    requires Parsed(lines)
  {
    seq(|lines|, k requires 0 <= k < |lines| => lines[k].value)
  }

  // ---- Totals -----------------------------------------------------------------

  const NOTHING := Summary(0, 0, 0, 0, 0, 0)

  function One(b: bool): nat {
    if b then 1 else 0
  }

  function WithRow(s: Summary, r: Row): Summary {
    Summary(s.attempts + 1, s.responses + One(r.completed), s.completed + One(r.callCompleted),
            s.successful + One(r.successful), s.inputBytes + Size(r.arguments),
            s.outputBytes + if r.output.Some? then Size(r.output.value) else 0)
  }

  /** `summary` over the rows that are selected. */
  function Summarise(rows: seq<Row>, selected: Row -> bool): Summary {
    if rows == [] then NOTHING else
    var rest, last := Summarise(rows[..|rows| - 1], selected), rows[|rows| - 1];
    if selected(last) then WithRow(rest, last) else rest
  }

  predicate AnyRow(r: Row) {
    true
  }

  function GraphRow(isGraph: Text -> bool): Row -> bool {
    (r: Row) => r.tool.Some? && isGraph(r.tool.value)
  }

  function ToolRow(tool: Text): Row -> bool {
    (r: Row) => r.tool == Some(tool)
  }

  function Tools(rows: seq<Row>): set<Text> {
    set r | r in rows && r.tool.Some? :: r.tool.value
  }

  function TotalsOf(rows: seq<Row>, isGraph: Text -> bool, partial: bool): Totals {
    Totals(Summarise(rows, AnyRow),
           Summarise(rows, GraphRow(isGraph)),
           map tool | tool in Tools(rows) :: Summarise(rows, ToolRow(tool)),
           if partial then None else Some(|rows|))
  }

  function StandingOf(row: Row, interrupted: bool): Standing {
    if row.outcome.Some? then Reached(row.outcome.value) else if interrupted then Interrupted else Pending
  }

  function EntriesOf(rows: seq<Row>, interrupted: bool): seq<Entry> {
    seq(|rows|, k requires 0 <= k < |rows| => Entry(rows[k], StandingOf(rows[k], interrupted)))
  }

  /** What `attempts` computes of a capture whose reader found `calls` calls. */
  ghost function LedgerOf(c: Capture, calls: nat, isGraph: Text -> bool): Option<Ledger> {
    if !Parsed(Kept(c)) then None else
    var log := Events(Kept(c));
    var rows := Rebuild(log, calls);
    if rows.None? then None
    else Some(Ledger(EntriesOf(rows.value, BrokerExit in log), TotalsOf(rows.value, isGraph, Partial(c))))
  }

  /** `attempts`. */
  method ReadAttempts(c: Capture, calls: nat, isGraph: Text -> bool) returns (r: Option<Ledger>)
    ensures r == LedgerOf(c, calls, isGraph)
  {
    var lines := c.lines;
    if Torn(c) && lines[|lines| - 1].None? {
      lines := lines[..|lines| - 1];
    }
    var log := [];
    for k := 0 to |lines|
      invariant Parsed(lines[..k]) && log == Events(lines[..k])
    {
      if lines[k].None? {
        assert !Parsed(lines);
        return None;
      }
      log := log + [lines[k].value];
    }
    assert lines[..|lines|] == lines;
    var rows := RebuildLedger(log, calls);
    if rows.None? {
      return None;
    }
    return Some(Ledger(EntriesOf(rows.value, BrokerExit in log), TotalsOf(rows.value, isGraph, Partial(c))));
  }

  // ---- What the totals say ------------------------------------------------------

  lemma {:induction false} SummaryCounts(rows: seq<Row>, selected: Row -> bool)
    requires forall r :: r in rows && r.successful ==> r.completed && r.callCompleted
    ensures var s := Summarise(rows, selected);
            s.successful <= s.completed <= s.attempts <= |rows| && s.successful <= s.responses <= s.attempts
  {
    if rows != [] {
      SummaryCounts(rows[..|rows| - 1], selected);
    }
  }

  lemma {:induction false} EveryRowCounts(rows: seq<Row>)
    ensures Summarise(rows, AnyRow).attempts == |rows|
  {
    if rows != [] {
      EveryRowCounts(rows[..|rows| - 1]);
    }
  }

  /** In any accepted ledger a successful row was measured. */
  lemma SuccessIsMeasured(log: seq<Event>, calls: nat, k: nat)
    requires Rebuild(log, calls).Some? && k < |Rebuild(log, calls).value|
    ensures var r := Rebuild(log, calls).value[k]; r.successful ==> r.completed && r.callCompleted
  {
    ScanIsBound(log, log);
    var ledger := LedgerScan(log, log).value;
    var row := ledger[k];
    if Published(log, row).successful {
      assert Bound(log, row);
      var c :| c in log && CallOf(c, row);
      assert c.owner in CallOwners(log);
      var other :| other in ledger && other.callCompleted && Some(other.number) == c.owner;
      var j :| 0 <= j < |ledger| && ledger[j] == other;
      assert ledger[j].number == j + 1 && ledger[k].number == k + 1;
    }
  }

  /** In any accepted ledger, overall, for the graph tools and for each tool: at most as
      many successes as measured calls and as responses, and no more than attempts. */
  lemma TotalsAreOrdered(c: Capture, calls: nat, isGraph: Text -> bool)
    requires LedgerOf(c, calls, isGraph).Some?
    ensures var t := LedgerOf(c, calls, isGraph).value.totals;
            && Ordered(t.all) && Ordered(t.graph) && t.graph.attempts <= t.all.attempts
            && (forall tool :: tool in t.byTool ==> Ordered(t.byTool[tool]))
            && t.all.attempts == |LedgerOf(c, calls, isGraph).value.entries|
            && (t.expected.Some? <==> !Partial(c)) && (t.expected.Some? ==> t.expected.value == t.all.attempts)
  {
    var log := Events(Kept(c));
    var rows := Rebuild(log, calls).value;
    forall r | r in rows && r.successful
      ensures r.completed && r.callCompleted
    {
      var k :| 0 <= k < |rows| && rows[k] == r;
      SuccessIsMeasured(log, calls, k);
    }
    EveryRowCounts(rows);
    SummaryCounts(rows, AnyRow);
    SummaryCounts(rows, GraphRow(isGraph));
    forall tool | tool in Tools(rows)
      ensures Ordered(Summarise(rows, ToolRow(tool)))
    {
      SummaryCounts(rows, ToolRow(tool));
    }
  }

  predicate Ordered(s: Summary) {
    s.successful <= s.completed <= s.attempts && s.successful <= s.responses <= s.attempts
  }

  /** Tearing a log changes no attempt: a line that breaks off after complete lines
      leaves every entry and every total of theirs as it was, but for the expected
      number of attempts, which is unknown. */
  lemma TornTail(c: Capture, calls: nat, isGraph: Text -> bool)
    requires c.ended && !c.truncated
    ensures var torn := LedgerOf(Capture(c.lines + [None], false, false), calls, isGraph);
            var whole := LedgerOf(c, calls, isGraph);
            && (torn.Some? <==> whole.Some?)
            && (whole.Some? ==>
                  && torn.value.entries == whole.value.entries && torn.value.totals.expected.None?
                  && whole.value.totals.expected == Some(|whole.value.entries|)
                  && torn.value.totals == whole.value.totals.(expected := None))
  {
    assert (c.lines + [None])[..|c.lines|] == c.lines;
  }

  /** The sum of a quantity over the selected rows. */
  function Total(rows: seq<Row>, selected: Row -> bool, f: Row -> nat): nat {
    if rows == [] then 0 else
    var last := rows[|rows| - 1];
    Total(rows[..|rows| - 1], selected, f) + if selected(last) then f(last) else 0
  }

  function EachRow(r: Row): nat {
    1
  }

  function RowResponse(r: Row): nat {
    if r.completed then 1 else 0
  }

  function RowCall(r: Row): nat {
    if r.callCompleted then 1 else 0
  }

  function RowSuccess(r: Row): nat {
    if r.successful then 1 else 0
  }

  function RowInput(r: Row): nat {
    Size(r.arguments)
  }

  function RowOutput(r: Row): nat {
    if r.output.Some? then Size(r.output.value) else 0
  }

  predicate TotalsUp(s: Summary, rows: seq<Row>, selected: Row -> bool) {
    && s.attempts == Total(rows, selected, EachRow) && s.responses == Total(rows, selected, RowResponse)
    && s.completed == Total(rows, selected, RowCall) && s.successful == Total(rows, selected, RowSuccess)
    && s.inputBytes == Total(rows, selected, RowInput) && s.outputBytes == Total(rows, selected, RowOutput)
  }

  /** In any accepted ledger the totals, overall, for the graph tools and for each tool a
      row names, are quantity by quantity the sums over the rows with such a tool. */
  lemma TotalsAreSums(c: Capture, calls: nat, isGraph: Text -> bool)
    requires LedgerOf(c, calls, isGraph).Some?
    ensures var rows, t := Rebuild(Events(Kept(c)), calls).value, LedgerOf(c, calls, isGraph).value.totals;
            && TotalsUp(t.all, rows, (r: Row) => true)
            && TotalsUp(t.graph, rows, (r: Row) => r.tool.Some? && isGraph(r.tool.value))
            && (forall tool :: tool in t.byTool <==> exists k :: 0 <= k < |rows| && rows[k].tool == Some(tool))
            && (forall tool :: tool in t.byTool ==> TotalsUp(t.byTool[tool], rows, (r: Row) => r.tool == Some(tool)))
  {
    var rows, t := Rebuild(Events(Kept(c)), calls).value, LedgerOf(c, calls, isGraph).value.totals;
    SelectionTotalsUp(rows, AnyRow, (r: Row) => true);
    SelectionTotalsUp(rows, GraphRow(isGraph), (r: Row) => r.tool.Some? && isGraph(r.tool.value));
    forall tool
      ensures tool in t.byTool <==> exists k :: 0 <= k < |rows| && rows[k].tool == Some(tool)
      ensures tool in t.byTool ==> TotalsUp(t.byTool[tool], rows, (r: Row) => r.tool == Some(tool))
    {
      ToolsAreNamed(rows, tool);
      SelectionTotalsUp(rows, ToolRow(tool), (r: Row) => r.tool == Some(tool));
    }
  }

  lemma {:induction false} SelectionTotalsUp(rows: seq<Row>, selected: Row -> bool, same: Row -> bool)
    requires forall r :: selected(r) <==> same(r)
    ensures TotalsUp(Summarise(rows, selected), rows, same)
  {
    if rows != [] {
      SelectionTotalsUp(rows[..|rows| - 1], selected, same);
    }
  }

  lemma ToolsAreNamed(rows: seq<Row>, tool: Text)
    ensures tool in Tools(rows) <==> exists k :: 0 <= k < |rows| && rows[k].tool == Some(tool)
  {
    if tool in Tools(rows) {
      var r :| r in rows && r.tool == Some(tool);
      var k :| 0 <= k < |rows| && rows[k] == r;
    }
    if k :| 0 <= k < |rows| && rows[k].tool == Some(tool) {
      assert rows[k] in rows;
    }
  }

  /** An entry shows the outcome its row reached; without one it is interrupted if the
      broker's exit is logged, and otherwise still pending. */
  lemma StandingsMean(c: Capture, calls: nat, isGraph: Text -> bool, k: nat)
    requires LedgerOf(c, calls, isGraph).Some? && k < |LedgerOf(c, calls, isGraph).value.entries|
    ensures var e := LedgerOf(c, calls, isGraph).value.entries[k];
            var exited := exists i :: 0 <= i < |Kept(c)| && Kept(c)[i] == Some(BrokerExit);
            && e.row == Rebuild(Events(Kept(c)), calls).value[k]
            && (e.standing.Reached? <==> e.row.outcome.Some?)
            && (e.standing.Reached? ==> Some(e.standing.outcome) == e.row.outcome)
            && (e.standing.Interrupted? <==> e.row.outcome.None? && exited)
            && (e.standing.Pending? <==> e.row.outcome.None? && !exited)
  {
    var log := Events(Kept(c));
    if i :| 0 <= i < |Kept(c)| && Kept(c)[i] == Some(BrokerExit) {
      assert log[i] == BrokerExit;
    }
  }

  // ---- The ledger of a session ----------------------------------------------------

  /** The sum of a quantity over the attempts whose tool is picked. */
  function Sum(history: seq<Exchange>, pick: Option<Text> -> bool, f: Exchange -> nat): nat {
    if history == [] then 0 else
    var x := history[|history| - 1];
    Sum(history[..|history| - 1], pick, f) + if x.attempt.Some? && pick(x.attempt.value.tool) then f(x) else 0
  }

  function Each(x: Exchange): nat {
    1
  }

  function MeasuredCall(x: Exchange): nat {
    if x.call.Some? then 1 else 0
  }

  /** An attempt that ended well and whose reply was published. */
  function PublishedSuccess(x: Exchange): nat {
    if x.attempt.Some? && x.attempt.value.outcome == Ok && x.request.Some? then 1 else 0
  }

  function ArgumentBytes(x: Exchange): nat {
    if x.attempt.Some? then Size(x.attempt.value.arguments) else 0
  }

  function ResultBytes(x: Exchange): nat {
    if x.attempt.Some? && x.attempt.value.result.Some? then Size(x.attempt.value.result.value.text) else 0
  }

  /** The summary of a selection of a session's attempts, quantity by quantity. */
  predicate SumsUp(s: Summary, history: seq<Exchange>, pick: Option<Text> -> bool) {
    && s.attempts == s.responses == Sum(history, pick, Each)
    && s.completed == Sum(history, pick, MeasuredCall)
    && s.successful == Sum(history, pick, PublishedSuccess)
    && s.inputBytes == Sum(history, pick, ArgumentBytes)
    && s.outputBytes == Sum(history, pick, ResultBytes)
  }

  ghost predicate Selects(selected: Row -> bool, pick: Option<Text> -> bool) {
    forall r :: selected(r) <==> pick(r.tool)
  }

  lemma {:induction false} SummarySnoc(rows: seq<Row>, r: Row, selected: Row -> bool)
    ensures Summarise(rows + [r], selected) ==
              if selected(r) then WithRow(Summarise(rows, selected), r) else Summarise(rows, selected)
  {
    assert (rows + [r])[..|rows|] == rows;
  }

  /** The final row of an attempt adds the attempt's own quantities. */
  lemma RowAdds(s: Summary, x: Exchange)
    requires x.attempt.Some?
    ensures var t := WithRow(s, FinalRow(x));
            && t.attempts == s.attempts + 1 && t.responses == s.responses + 1
            && t.completed == s.completed + MeasuredCall(x) && t.successful == s.successful + PublishedSuccess(x)
            && t.inputBytes == s.inputBytes + ArgumentBytes(x) && t.outputBytes == s.outputBytes + ResultBytes(x)
  {
  }

  lemma {:induction false} SessionSums(history: seq<Exchange>, selected: Row -> bool, pick: Option<Text> -> bool)
    requires Selects(selected, pick)
    ensures SumsUp(Summarise(FinalRows(history), selected), history, pick)
  {
    if history != [] {
      var earlier, x := history[..|history| - 1], history[|history| - 1];
      SessionSums(earlier, selected, pick);
      if x.attempt.Some? {
        SummarySnoc(FinalRows(earlier), FinalRow(x), selected);
        RowAdds(Summarise(FinalRows(earlier), selected), x);
        assert FinalRow(x).tool == x.attempt.value.tool;
      } else {
        assert FinalRows(history) == FinalRows(earlier);
      }
    }
  }

  function AnyTool(tool: Option<Text>): bool {
    true
  }

  function GraphTool(isGraph: Text -> bool): Option<Text> -> bool {
    (tool: Option<Text>) => tool.Some? && isGraph(tool.value)
  }

  function ThisTool(name: Text): Option<Text> -> bool {
    (tool: Option<Text>) => tool == Some(name)
  }

  lemma {:induction false} AttemptsAreAll(history: seq<Exchange>)
    ensures Sum(history, AnyTool, Each) == Attempts(history)
  {
    if history != [] {
      AttemptsAreAll(history[..|history| - 1]);
    }
  }

  predicate CallsAreAttempts(history: seq<Exchange>) {
    forall k :: 0 <= k < |history| && history[k].call.Some? ==> history[k].attempt.Some?
  }

  lemma {:induction false} CallsAreAll(history: seq<Exchange>)
    requires CallsAreAttempts(history)
    ensures Sum(history, AnyTool, MeasuredCall) == Calls(history)
  {
    if history != [] {
      var n := |history| - 1;
      assert forall k :: 0 <= k < n ==> history[..n][k] == history[k];
      CallsAreAll(history[..n]);
    }
  }

  predicate Tries(history: seq<Exchange>, tool: Text) {
    exists k :: 0 <= k < |history| && history[k].attempt.Some? && history[k].attempt.value.tool == Some(tool)
  }

  lemma ToolsAreTried(history: seq<Exchange>, tool: Text)
    ensures tool in Tools(FinalRows(history)) <==> Tries(history, tool)
  {
    var rows := FinalRows(history);
    RowLengths(history);
    if tool in Tools(rows) {
      var r :| r in rows && r.tool == Some(tool);
      var i :| 0 <= i < |rows| && rows[i] == r;
      var k := RowSources(history, i);
    }
    if k :| 0 <= k < |history| && history[k].attempt.Some? && history[k].attempt.value.tool == Some(tool) {
      RowOfAttempt(history, k);
      assert FinalRow(history[k]).tool == Some(tool);
    }
  }

  lemma {:induction false} RowOfAttempt(history: seq<Exchange>, k: nat)
    requires k < |history| && history[k].attempt.Some?
    ensures FinalRow(history[k]) in FinalRows(history)
    decreases |history|
  {
    if k < |history| - 1 {
      RowOfAttempt(history[..|history| - 1], k);
    }
  }

  /** A complete capture of an honestly measured session, with or without a supervisor's
      exit event: the entries are the final rows of its attempts; and the totals, overall,
      for the graph tools and for each tool that was tried, are the sums of the attempts'
      own quantities. */
  lemma LedgerOfCapture(c: Capture, history: seq<Exchange>, isGraph: Text -> bool)
    requires c.ended && !c.truncated && Parsed(c.lines) && Signals(Events(c.lines)) == Whole(history)
    requires Session(history) && AllMeasured(history)
    ensures var r := LedgerOf(c, Calls(history), isGraph);
            && r.Some? && r.value.entries == EntriesOf(FinalRows(history), BrokerExit in Events(c.lines))
            && var t := r.value.totals;
               && SumsUp(t.all, history, AnyTool) && SumsUp(t.graph, history, GraphTool(isGraph))
               && (forall tool :: tool in t.byTool <==> Tries(history, tool))
               && (forall tool :: tool in t.byTool ==> SumsUp(t.byTool[tool], history, ThisTool(tool)))
               && t.all.attempts == Attempts(history) && t.all.completed == Calls(history)
               && t.expected == Some(Attempts(history))
  {
    LedgerOfSession(Events(c.lines), history);
    RowLengths(history);
    assert forall k :: 0 <= k < |history| ==> Measured(history[k]);
    CapturedTotals(history, isGraph);
    AttemptsAreAll(history);
    CallsAreAll(history);
  }

  lemma CapturedTotals(history: seq<Exchange>, isGraph: Text -> bool)
    ensures var t := TotalsOf(FinalRows(history), isGraph, false);
            && SumsUp(t.all, history, AnyTool) && SumsUp(t.graph, history, GraphTool(isGraph))
            && (forall tool :: tool in t.byTool <==> Tries(history, tool))
            && (forall tool :: tool in t.byTool ==> SumsUp(t.byTool[tool], history, ThisTool(tool)))
  {
    SessionSums(history, AnyRow, AnyTool);
    SessionSums(history, GraphRow(isGraph), GraphTool(isGraph));
    forall tool
      ensures tool in Tools(FinalRows(history)) <==> Tries(history, tool)
      ensures SumsUp(Summarise(FinalRows(history), ToolRow(tool)), history, ThisTool(tool))
    {
      ToolsAreTried(history, tool);
      SessionSums(history, ToolRow(tool), ThisTool(tool));
    }
  }
}
