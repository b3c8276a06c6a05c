// The ledger of tool attempts rebuilt from a broker log.

/** `attempts` of telemetry.py: a ledger row for every parsed tools/call, checked
    against the request, call and reply events it claims. */
module BrokerTelemetry {
  import opened Wrappers
  import opened BrokerTrace
  import opened Utf8
  import opened BrokerLifecycle

  const NS_PER_MS := 1_000_000

  /** `outcome` is `None` while pending. */
  datatype Row = Row(number: nat, requestSeq: Option<nat>, id: Text, tool: Option<Text>, arguments: Text, started: nat,
                     ended: Option<nat>, callSeq: Option<nat>, completed: bool, successful: bool, callCompleted: bool,
                     measuredBytes: Option<nat>, outcome: Option<Outcome>, output: Option<Text>, replyPublished: bool)

  // ---- Sequence numbers -------------------------------------------------------

  datatype Kind = RequestKind | CallStartKind | CallKind | ReplyKind

  function SeqOf(e: Event, kind: Kind): Option<nat> {
    match (e, kind)
    case (Request(no, _, _), RequestKind) => Some(no)
    case (CallStart(no, _, _), CallStartKind) => Some(no)
    case (Call(no, _, _, _, _, _, _), CallKind) => Some(no)
    case (Reply(no, _, _), ReplyKind) => Some(no)
    case _ => None
  }

  function Seqs(log: seq<Event>, kind: Kind): seq<nat> {
    if log == [] then [] else
    var e := SeqOf(log[|log| - 1], kind);
    Seqs(log[..|log| - 1], kind) + if e.Some? then [e.value] else []
  }

  predicate Numbered(s: seq<nat>) {
    && (forall i :: 0 <= i < |s| ==> s[i] > 0)
    && (forall i, j :: 0 <= i < j < |s| ==> s[i] != s[j])
  }

  predicate AllNumbered(log: seq<Event>) {
    && Numbered(Seqs(log, RequestKind)) && Numbered(Seqs(log, CallStartKind))
    && Numbered(Seqs(log, CallKind)) && Numbered(Seqs(log, ReplyKind))
  }

  // ---- The ledger -------------------------------------------------------------

  function Opened(e: Event): Row
    requires e.AttemptStart?
  {
    Row(e.attempt, e.requestSeq, e.id, e.tool, e.arguments, e.started,
        None, None, false, false, false, None, None, None, false)
  }

  /** The row an event names by its attempt id. */
  predicate Owned(ledger: seq<Row>, owner: Option<nat>) {
    owner.Some? && 1 <= owner.value <= |ledger|
  }

  /** The measured call an ending attempt claims. */
  predicate CallAgrees(c: Event, row: Row, ended: nat, outcome: Outcome, result: Option<Result>)
    requires c.Call? && ended >= row.started
  {
    && c.owner == Some(row.number) && Some(c.name) == row.tool
    && result.Some? && c.output == result.value.text && c.status == outcome
    && c.elapsedMs <= (ended - row.started) / NS_PER_MS
    && (c.input == row.arguments || (c.status == Truncated && c.input <= row.arguments))
  }

  ghost predicate Claims(whole: seq<Event>, row: Row, no: nat, ended: nat, outcome: Outcome, result: Option<Result>)
    requires ended >= row.started
  {
    && no > 0
    && (exists c :: c in whole && c.Call? && c.no == no && CallAgrees(c, row, ended, outcome, result))
    && (exists s :: s in whole && s.CallStart? && s.no == no && s.owner == Some(row.number))
  }

  /** Whether an attempt may end this way; everything is looked up in the whole log. */
  ghost predicate MayEnd(whole: seq<Event>, row: Row, callSeq: Option<nat>, ended: nat, outcome: Outcome,
                         result: Option<Result>) {
    && !row.completed && ended >= row.started && callSeq == row.callSeq
    && (if callSeq.Some? then Claims(whole, row, callSeq.value, ended, outcome, result)
        else outcome == Refused || outcome == ProtocolError)
    && (result.Some? ==> result.value.isError == (outcome != Ok))
  }

  function Ended(row: Row, ended: nat, outcome: Outcome, result: Option<Result>): Row {
    row.(ended := Some(ended), completed := true, successful := outcome == Ok, outcome := Some(outcome),
         output := if result.Some? then Some(result.value.text) else None)
  }

  /** One event of the ledger loop; `None` is a failed check. */
  ghost function LedgerStep(whole: seq<Event>, ledger: seq<Row>, e: Event): Option<seq<Row>> {
    match e
    case AttemptStart(n, requestSeq, id, _, _, _) =>
      if n == |ledger| + 1
         && (requestSeq.Some? ==> requestSeq.value > 0 && Request(requestSeq.value, true, id) in whole)
      then Some(ledger + [Opened(e)]) else None
    case CallStart(no, name, owner) =>
      if !Owned(ledger, owner) then None else
      var row := ledger[owner.value - 1];
      if row.callSeq.None? && !row.completed && row.tool == Some(name)
      then Some(ledger[owner.value - 1 := row.(callSeq := Some(no))]) else None
    case Call(no, name, owner, _, output, _, _) =>
      if !Owned(ledger, owner) then None else
      var row := ledger[owner.value - 1];
      if row.callSeq == Some(no) && !row.callCompleted && row.tool == Some(name)
      then Some(ledger[owner.value - 1 := row.(callCompleted := true, measuredBytes := Some(Size(output)))]) else None
    case AttemptEnd(n, callSeq, ended, outcome, result) =>
      if !Owned(ledger, Some(n)) then None else
      var row := ledger[n - 1];
      if MayEnd(whole, row, callSeq, ended, outcome, result)
      then Some(ledger[n - 1 := Ended(row, ended, outcome, result)]) else None
    case _ => Some(ledger)
  }

  ghost function LedgerScan(whole: seq<Event>, log: seq<Event>): Option<seq<Row>> {
    if log == [] then Some([]) else
    var before := LedgerScan(whole, log[..|log| - 1]);
    if before.None? then None else LedgerStep(whole, before.value, log[|log| - 1])
  }

  // ---- The final checks -------------------------------------------------------

  function CallOwners(log: seq<Event>): set<Option<nat>> {
    set e | e in log && e.Call? :: e.owner
  }

  function CompletedRows(ledger: seq<Row>): set<Option<nat>> {
    set r | r in ledger && r.callCompleted :: Some(r.number)
  }

  function ToolRequests(log: seq<Event>): set<Option<nat>> {
    set e | e in log && e.Request? && e.isCall :: Some(e.no)
  }

  function RowRequests(ledger: seq<Row>): set<Option<nat>> {
    set r | r in ledger && r.requestSeq.Some? :: r.requestSeq
  }

  predicate Answers(e: Event, row: Row) {
    e.Reply? && row.requestSeq == Some(e.no)
  }

  predicate Answered(log: seq<Event>, row: Row) {
    exists e :: e in log && Answers(e, row)
  }

  /** Any reply to a row belongs to its completed attempt. */
  predicate ReplyAgrees(log: seq<Event>, row: Row) {
    forall e :: e in log && Answers(e, row) ==> row.completed && e.owner == Some(row.number)
  }

  function Published(log: seq<Event>, row: Row): Row {
    if Answered(log, row) then row.(replyPublished := true) else row.(successful := false, outcome := None)
  }

  function PublishedRows(log: seq<Event>, ledger: seq<Row>): seq<Row> {
    seq(|ledger|, k requires 0 <= k < |ledger| => Published(log, ledger[k]))
  }

  predicate Accounted(log: seq<Event>, ledger: seq<Row>, calls: nat) {
    && CallOwners(log) == CompletedRows(ledger)
    && |Seqs(log, CallKind)| == calls
    && ToolRequests(log) == RowRequests(ledger)
    && forall k :: 0 <= k < |ledger| ==> ReplyAgrees(log, ledger[k])
  }

  predicate OneStart(log: seq<Event>) {
    StartCount(log) == 1 && Start(true) in log
  }

  /** What `attempts` computes on a log whose reader found `calls` calls. */
  ghost function Rebuild(log: seq<Event>, calls: nat): Option<seq<Row>> {
    if log == [] then Some([])
    else if !OneStart(log) || !AllNumbered(log) then None
    else
      var ledger := LedgerScan(log, log);
      if ledger.None? || !Accounted(log, ledger.value, calls) then None
      else Some(PublishedRows(log, ledger.value))
  }

  // ---- What a session's ledger must be ----------------------------------------

  /** An exchange whose attempt agrees with its request and its measured call. */
  predicate Measured(x: Exchange) {
    && (x.request.Some? ==> x.request.value.isCall == x.attempt.Some?)
    && (x.call.Some? ==> x.attempt.Some?)
    && (x.attempt.Some? ==>
          var a := x.attempt.value;
          && a.ended >= a.started
          && (x.request.Some? ==> x.request.value.id == a.id)
          && (a.result.Some? ==> a.result.value.isError == (a.outcome != Ok))
          && (if x.call.Some? then CallMeasured(a, x.call.value)
              else a.outcome == Refused || a.outcome == ProtocolError))
  }

  predicate CallMeasured(a: AttemptPart, c: CallPart)
    requires a.ended >= a.started
  {
    && a.tool == Some(c.name) && a.outcome == c.status
    && a.result.Some? && a.result.value.text == c.output
    && c.elapsedMs <= (a.ended - a.started) / NS_PER_MS
    && (c.input == a.arguments || (c.status == Truncated && c.input <= a.arguments))
  }

  predicate AllMeasured(history: seq<Exchange>) {
    forall k :: 0 <= k < |history| ==> Measured(history[k])
  }

  function RequestSeq(x: Exchange): Option<nat> {
    if x.request.Some? then Some(x.request.value.no) else None
  }

  /** The row of an exchange's attempt before replies are looked at. */
  function AttemptRow(x: Exchange): Row
    requires x.attempt.Some?
  {
    var a := x.attempt.value;
    Row(a.number, RequestSeq(x), a.id, a.tool, a.arguments, a.started,
        Some(a.ended), CallSeq(x), true, a.outcome == Ok, x.call.Some?,
        if x.call.Some? then Some(Size(x.call.value.output)) else None,
        Some(a.outcome), if a.result.Some? then Some(a.result.value.text) else None, false)
  }

  /** The final row: published exactly when the message carried an id. */
  function FinalRow(x: Exchange): Row
    requires x.attempt.Some?
  {
    if x.request.Some? then AttemptRow(x).(replyPublished := true)
    else AttemptRow(x).(successful := false, outcome := None)
  }

  function AttemptRows(history: seq<Exchange>): seq<Row> {
    if history == [] then [] else
    var x := history[|history| - 1];
    AttemptRows(history[..|history| - 1]) + if x.attempt.Some? then [AttemptRow(x)] else []
  }

  function FinalRows(history: seq<Exchange>): seq<Row> {
    if history == [] then [] else
    var x := history[|history| - 1];
    FinalRows(history[..|history| - 1]) + if x.attempt.Some? then [FinalRow(x)] else []
  }

  // ---- Members ----------------------------------------------------------------

  lemma {:induction false} SignalsMembers(log: seq<Event>, e: Event)
    requires !IsNoise(e)
    ensures e in log <==> e in Signals(log)
  {
    if log != [] {
      SignalsMembers(log[..|log| - 1], e);
      assert log == log[..|log| - 1] + [log[|log| - 1]];
    }
  }

  lemma FlattenLast(history: seq<Exchange>)
    requires history != []
    ensures Flatten(history) == Flatten(history[..|history| - 1]) + Block(history[|history| - 1])
  {
  }

  function FlatMap<S, T>(f: S -> seq<T>, s: seq<S>): seq<T> {
    if s == [] then [] else FlatMap(f, s[..|s| - 1]) + f(s[|s| - 1])
  }

  lemma {:induction false} FlattenIsFlatMap(history: seq<Exchange>)
    ensures Flatten(history) == FlatMap(Block, history)
  {
    if history != [] {
      FlattenIsFlatMap(history[..|history| - 1]);
    }
  }

  lemma {:induction false} FlatMapHolds<S, T>(f: S -> seq<T>, s: seq<S>, k: nat, e: T)
    requires k < |s| && e in f(s[k])
    ensures e in FlatMap(f, s)
    decreases |s|
  {
    var n := |s| - 1;
    if k < n {
      assert s[..n][k] == s[k];
      FlatMapHolds(f, s[..n], k, e);
    }
  }

  lemma {:induction false} FlatMapSource<S, T>(f: S -> seq<T>, s: seq<S>, e: T) returns (k: nat)
    requires e in FlatMap(f, s)
    ensures k < |s| && e in f(s[k])
    decreases |s|
  {
    var n := |s| - 1;
    if e in FlatMap(f, s[..n]) {
      k := FlatMapSource(f, s[..n], e);
      assert s[..n][k] == s[k];
    } else {
      k := n;
    }
  }

  lemma BlockMembers(x: Exchange)
    ensures x.request.Some? ==> Request(x.request.value.no, x.request.value.isCall, x.request.value.id) in Block(x)
                                && Reply(x.request.value.no, x.calls, Number(x)) in Block(x)
    ensures x.call.Some? ==> var c := x.call.value;
                             && CallStart(c.no, c.name, Number(x)) in Block(x)
                             && Call(c.no, c.name, Number(x), c.input, c.output, c.status, c.elapsedMs) in Block(x)
  {
    if x.request.Some? {
      assert Opening(x)[0] in Opening(x);
      assert Closing(x)[|Closing(x)| - 1] in Closing(x);
    }
    if x.call.Some? {
      assert Calling(x)[0] in Calling(x) && Calling(x)[1] in Calling(x);
    }
  }

  /** Every event of a block, by its kind. */
  lemma BlockEvents(x: Exchange, e: Event)
    requires e in Block(x)
    ensures !e.Start? && !e.Stop? && !IsNoise(e)
    ensures e.Request? ==>
              x.request.Some? && e == Request(x.request.value.no, x.request.value.isCall, x.request.value.id)
    ensures e.Reply? ==> x.request.Some? && e == Reply(x.request.value.no, x.calls, Number(x))
    ensures e.Call? ==> x.call.Some? && e.no == x.call.value.no && e.owner == Number(x)
  {
    assert e in Opening(x) || e in Calling(x) || e in Closing(x);
  }

  lemma {:induction false} RowMembers(history: seq<Exchange>, k: nat)
    requires k < |history| && history[k].attempt.Some?
    ensures AttemptRow(history[k]) in AttemptRows(history)
    decreases |history|
  {
    var n := |history| - 1;
    if k < n {
      assert history[..n][k] == history[k];
      RowMembers(history[..n], k);
    }
  }

  lemma {:induction false} RowSources(history: seq<Exchange>, i: nat) returns (k: nat)
    requires i < |AttemptRows(history)|
    ensures |FinalRows(history)| == |AttemptRows(history)|
    ensures k < |history| && history[k].attempt.Some?
    ensures AttemptRows(history)[i] == AttemptRow(history[k]) && FinalRows(history)[i] == FinalRow(history[k])
    decreases |history|
  {
    var n := |history| - 1;
    RowLengths(history[..n]);
    if i < |AttemptRows(history[..n])| {
      k := RowSources(history[..n], i);
      assert history[..n][k] == history[k];
    } else {
      k := n;
    }
  }

  lemma {:induction false} RowLengths(history: seq<Exchange>)
    ensures |FinalRows(history)| == |AttemptRows(history)| == Attempts(history)
  {
    if history != [] {
      RowLengths(history[..|history| - 1]);
    }
  }

  // ---- Sequence numbers of a session ------------------------------------------

  lemma {:induction false} SeqsAppend(a: seq<Event>, b: seq<Event>, kind: Kind)
    ensures Seqs(a + b, kind) == Seqs(a, kind) + Seqs(b, kind)
    decreases |b|
  {
    if b == [] {
      assert a + b == a;
    } else {
      assert (a + b)[..|a + b| - 1] == a + b[..|b| - 1];
      SeqsAppend(a, b[..|b| - 1], kind);
    }
  }

  function Signal(e: Event): seq<Event> {
    if IsNoise(e) then [] else [e]
  }

  lemma SignalSeqs(e: Event, kind: Kind)
    ensures Seqs(Signal(e), kind) == SeqList(e, kind)
  {
    SeqsOfFew(Signal(e), kind);
  }

  lemma {:induction false} SeqsOfSignals(log: seq<Event>, kind: Kind)
    ensures Seqs(log, kind) == Seqs(Signals(log), kind)
  {
    if log != [] {
      var shorter, e := log[..|log| - 1], log[|log| - 1];
      SeqsOfSignals(shorter, kind);
      SeqsAppend(Signals(shorter), Signal(e), kind);
      SignalSeqs(e, kind);
    }
  }

  function SeqList(e: Event, kind: Kind): seq<nat> {
    if SeqOf(e, kind).Some? then [SeqOf(e, kind).value] else []
  }

  lemma {:induction false} SeqsOfFew(es: seq<Event>, kind: Kind)
    requires |es| <= 2
    ensures Seqs(es, kind) ==
              (if |es| > 0 then SeqList(es[0], kind) else []) + (if |es| > 1 then SeqList(es[1], kind) else [])
    decreases |es|
  {
    if |es| > 0 {
      SeqsOfFew(es[..|es| - 1], kind);
    }
  }

  /** The numbers an exchange takes, by kind. */
  function TakenBy(x: Exchange, kind: Kind): seq<nat> {
    if kind.RequestKind? || kind.ReplyKind? then (if x.request.Some? then [x.request.value.no] else [])
    else (if x.call.Some? then [x.call.value.no] else [])
  }

  lemma OpeningSeqs(x: Exchange, kind: Kind)
    ensures Seqs(Opening(x), kind) == if kind.RequestKind? then TakenBy(x, kind) else []
  {
    SeqsOfFew(Opening(x), kind);
  }

  lemma CallingSeqs(x: Exchange, kind: Kind)
    ensures Seqs(Calling(x), kind) == if kind.CallStartKind? || kind.CallKind? then TakenBy(x, kind) else []
  {
    SeqsOfFew(Calling(x), kind);
  }

  lemma ClosingSeqs(x: Exchange, kind: Kind)
    ensures Seqs(Closing(x), kind) == if kind.ReplyKind? then TakenBy(x, kind) else []
  {
    var es := Closing(x);
    SeqsOfFew(es, kind);
    if x.request.Some? {
      var reply := es[|es| - 1];
      assert SeqList(reply, kind) == if kind.ReplyKind? then [reply.no] else [];
    }
    if x.attempt.Some? {
      assert SeqList(es[0], kind) == [];
    }
  }

  lemma {:induction false} BlockSeqs(x: Exchange, kind: Kind)
    ensures Seqs(Block(x), kind) == TakenBy(x, kind)
  {
    OpeningSeqs(x, kind);
    CallingSeqs(x, kind);
    ClosingSeqs(x, kind);
    OnePartCounts(Opening(x), Calling(x), Closing(x), Block(x), kind, TakenBy(x, kind));
  }

  /** Each kind of event is in one part of a block only. */
  lemma {:induction false} OnePartCounts(opening: seq<Event>, calling: seq<Event>, closing: seq<Event>,
                                         block: seq<Event>, kind: Kind, taken: seq<nat>)
    requires block == opening + calling + closing
    requires Seqs(opening, kind) == if kind.RequestKind? then taken else []
    requires Seqs(calling, kind) == if kind.CallStartKind? || kind.CallKind? then taken else []
    requires Seqs(closing, kind) == if kind.ReplyKind? then taken else []
    ensures Seqs(block, kind) == taken
  {
    SeqsOfThree(opening, calling, closing, kind);
  }

  lemma SeqsOfThree(a: seq<Event>, b: seq<Event>, c: seq<Event>, kind: Kind)
    ensures Seqs(a + b + c, kind) == Seqs(a, kind) + Seqs(b, kind) + Seqs(c, kind)
  {
    SeqsAppend(a + b, c, kind);
    SeqsAppend(a, b, kind);
  }

  function Upto(n: nat): seq<nat> {
    if n == 0 then [] else Upto(n - 1) + [n]
  }

  function Taken(history: seq<Exchange>, kind: Kind): nat {
    if kind.RequestKind? || kind.ReplyKind? then Requests(history) else Calls(history)
  }

  lemma {:induction false} SessionSeqs(history: seq<Exchange>, kind: Kind)
    requires Session(history)
    ensures Seqs(Flatten(history), kind) == Upto(Taken(history, kind))
    decreases |history|
  {
    if history != [] {
      var earlier, x := history[..|history| - 1], history[|history| - 1];
      LastExchange(Start(true), history);
      SessionSeqs(earlier, kind);
      FlattenLast(history);
      SeqsAppend(Flatten(earlier), Block(x), kind);
      BlockSeqs(x, kind);
      NextTaken(history, kind);
    }
  }

  lemma NextTaken(history: seq<Exchange>, kind: Kind)
    requires history != []
    requires var earlier := history[..|history| - 1];
             Follows(Requests(earlier), Attempts(earlier), Calls(earlier), history[|history| - 1])
    ensures Upto(Taken(history, kind)) ==
              Upto(Taken(history[..|history| - 1], kind)) + TakenBy(history[|history| - 1], kind)
  {
  }

  lemma {:induction false} UptoNumbered(n: nat)
    ensures |Upto(n)| == n && Numbered(Upto(n))
    ensures forall i :: 0 <= i < n ==> Upto(n)[i] == i + 1
  {
    if n > 0 {
      UptoNumbered(n - 1);
    }
  }

  /** The signals of a session that ran to the end of its input. */
  function Whole(history: seq<Exchange>): seq<Event> {
    [Start(true)] + Flatten(history) + [Stop(Requests(history), Requests(history), Calls(history), Delivered(history))]
  }

  lemma WholeSeqs(log: seq<Event>, history: seq<Exchange>, kind: Kind)
    requires Session(history) && Signals(log) == Whole(history)
    ensures Seqs(log, kind) == Upto(Taken(history, kind))
    ensures Numbered(Seqs(log, kind)) && |Seqs(log, kind)| == Taken(history, kind)
  {
    var start, stop := Start(true), Stop(Requests(history), Requests(history), Calls(history), Delivered(history));
    SeqsOfSignals(log, kind);
    SeqsOfThree([start], Flatten(history), [stop], kind);
    EndsHaveNone(start, stop, kind);
    SessionSeqs(history, kind);
    UptoNumbered(Taken(history, kind));
  }

  lemma EndsHaveNone(start: Event, stop: Event, kind: Kind)
    requires start.Start? && stop.Stop?
    ensures Seqs([start], kind) == [] && Seqs([stop], kind) == []
  {
    SeqsOfFew([start], kind);
    SeqsOfFew([stop], kind);
  }

  /** Where an event's number stands. */
  lemma SeqsAt(log: seq<Event>, kind: Kind, i: nat)
    requires i < |log| && SeqOf(log[i], kind).Some?
    ensures |Seqs(log[..i], kind)| < |Seqs(log[..i + 1], kind)| <= |Seqs(log, kind)|
    ensures Seqs(log, kind)[|Seqs(log[..i], kind)|] == SeqOf(log[i], kind).value
  {
    assert log[..i + 1][..i] == log[..i];
    assert log == log[..i + 1] + log[i + 1..];
    SeqsAppend(log[..i + 1], log[i + 1..], kind);
  }

  lemma SeqsGrow(log: seq<Event>, kind: Kind, i: nat, j: nat)
    requires i <= j <= |log|
    ensures |Seqs(log[..i], kind)| <= |Seqs(log[..j], kind)|
  {
    assert log[..j] == log[..i] + log[i..j];
    SeqsAppend(log[..i], log[i..j], kind);
  }

  /** Two events of a kind with the same number are one. */
  lemma NumberedOnce(log: seq<Event>, kind: Kind, i: nat, j: nat)
    requires i < j < |log| && Numbered(Seqs(log, kind))
    requires SeqOf(log[i], kind).Some?
    ensures SeqOf(log[i], kind) != SeqOf(log[j], kind)
  {
    SeqsAt(log, kind, i);
    if SeqOf(log[j], kind).Some? {
      SeqsAt(log, kind, j);
      SeqsGrow(log, kind, i + 1, j);
    }
  }

  lemma SameEvent(log: seq<Event>, kind: Kind, e: Event, f: Event)
    requires Numbered(Seqs(log, kind)) && e in log && f in log
    requires SeqOf(e, kind).Some? && SeqOf(e, kind) == SeqOf(f, kind)
    ensures e == f
  {
    var i :| 0 <= i < |log| && log[i] == e;
    var j :| 0 <= j < |log| && log[j] == f;
    if i < j {
      NumberedOnce(log, kind, i, j);
    } else if j < i {
      NumberedOnce(log, kind, j, i);
    }
  }

  // ---- The ledger of a session ------------------------------------------------

  lemma LedgerSnoc(whole: seq<Event>, log: seq<Event>, e: Event)
    ensures LedgerScan(whole, log + [e]) ==
            if LedgerScan(whole, log).None? then None else LedgerStep(whole, LedgerScan(whole, log).value, e)
  {
    assert (log + [e])[..|log|] == log;
  }

  lemma {:induction false} LedgerSkipsNoise(whole: seq<Event>, log: seq<Event>)
    ensures LedgerScan(whole, log) == LedgerScan(whole, Signals(log))
    decreases |log|
  {
    if log != [] {
      var shorter, e := log[..|log| - 1], log[|log| - 1];
      var signals, more := Signals(shorter), Signals(log);
      assert more == signals + (if IsNoise(e) then [] else [e]) && log == shorter + [e];
      LedgerSkipsNoise(whole, shorter);
      LedgerSkipsNext(whole, shorter, e, signals, log, more);
    }
  }

  lemma LedgerSkipsNext(whole: seq<Event>, log: seq<Event>, e: Event, signals: seq<Event>, longer: seq<Event>,
                        more: seq<Event>)
    requires LedgerScan(whole, log) == LedgerScan(whole, signals)
    requires longer == log + [e] && more == signals + (if IsNoise(e) then [] else [e])
    ensures LedgerScan(whole, longer) == LedgerScan(whole, more)
  {
    LedgerSnoc(whole, log, e);
    if IsNoise(e) {
      assert more == signals;
    } else {
      LedgerSnoc(whole, signals, e);
    }
  }

  lemma LedgerTwo(whole: seq<Event>, log: seq<Event>, es: seq<Event>, ledger: seq<Row>, middle: seq<Row>,
                  last: seq<Row>)
    requires LedgerScan(whole, log) == Some(ledger) && |es| <= 2
    requires |es| == 0 ==> ledger == last
    requires |es| == 1 ==> LedgerStep(whole, ledger, es[0]) == Some(last)
    requires |es| == 2 ==>
               LedgerStep(whole, ledger, es[0]) == Some(middle) && LedgerStep(whole, middle, es[1]) == Some(last)
    ensures LedgerScan(whole, log + es) == Some(last)
  {
    if |es| == 0 {
      assert log + es == log;
    } else if |es| == 1 {
      LedgerNext(whole, log, es[0], ledger, last, log + es);
    } else {
      LedgerNext(whole, log, es[0], ledger, middle, log + es[..1]);
      LedgerNext(whole, log + es[..1], es[1], middle, last, log + es);
    }
  }

  lemma LedgerNext(whole: seq<Event>, log: seq<Event>, e: Event, ledger: seq<Row>, next: seq<Row>,
                   longer: seq<Event>)
    requires LedgerScan(whole, log) == Some(ledger) && LedgerStep(whole, ledger, e) == Some(next)
    requires longer == log + [e]
    ensures LedgerScan(whole, longer) == Some(next)
  {
    LedgerSnoc(whole, log, e);
  }

  function StartEvent(x: Exchange): Event
    requires x.attempt.Some?
  {
    var a := x.attempt.value;
    AttemptStart(a.number, RequestSeq(x), a.id, a.tool, a.arguments, a.started)
  }

  /** Every event of the exchange can be found in the whole log. */
  predicate Within(x: Exchange, whole: seq<Event>) {
    && (x.request.Some? ==> Request(x.request.value.no, x.request.value.isCall, x.request.value.id) in whole)
    && (x.call.Some? ==> var c := x.call.value;
                         && CallStart(c.no, c.name, Number(x)) in whole
                         && Call(c.no, c.name, Number(x), c.input, c.output, c.status, c.elapsedMs) in whole)
  }

  lemma OpeningLedger(whole: seq<Event>, log: seq<Event>, x: Exchange, ledger: seq<Row>)
    requires LedgerScan(whole, log) == Some(ledger) && Measured(x) && Within(x, whole)
    requires x.attempt.Some? ==> x.attempt.value.number == |ledger| + 1
    requires x.request.Some? ==> x.request.value.no > 0
    ensures LedgerScan(whole, log + Opening(x)) ==
              Some(if x.attempt.Some? then ledger + [Opened(StartEvent(x))] else ledger)
  {
    if x.attempt.Some? {
      LedgerTwo(whole, log, Opening(x), ledger, ledger, ledger + [Opened(StartEvent(x))]);
    } else {
      LedgerTwo(whole, log, Opening(x), ledger, ledger, ledger);
    }
  }

  /** A row once its call is measured. */
  function CalledRow(x: Exchange): Row
    requires x.attempt.Some? && x.call.Some?
  {
    Opened(StartEvent(x)).(callSeq := CallSeq(x), callCompleted := true,
                           measuredBytes := Some(Size(x.call.value.output)))
  }

  lemma CallingLedger(whole: seq<Event>, log: seq<Event>, x: Exchange, ledger: seq<Row>)
    requires x.attempt.Some? && x.call.Some? && Measured(x)
    requires LedgerScan(whole, log) == Some(ledger + [Opened(StartEvent(x))])
    requires x.attempt.value.number == |ledger| + 1
    ensures LedgerScan(whole, log + Calling(x)) == Some(ledger + [CalledRow(x)])
  {
    var before, started := ledger + [Opened(StartEvent(x))], ledger + [Opened(StartEvent(x)).(callSeq := CallSeq(x))];
    assert before[|ledger| := Opened(StartEvent(x)).(callSeq := CallSeq(x))] == started;
    assert started[|ledger| := CalledRow(x)] == ledger + [CalledRow(x)];
    LedgerTwo(whole, log, Calling(x), before, started, ledger + [CalledRow(x)]);
  }

  lemma MayEndNow(whole: seq<Event>, x: Exchange, row: Row)
    requires x.attempt.Some? && Measured(x) && Within(x, whole)
    requires x.call.Some? ==> x.call.value.no > 0
    requires row == if x.call.Some? then CalledRow(x) else Opened(StartEvent(x))
    ensures var a := x.attempt.value;
            MayEnd(whole, row, CallSeq(x), a.ended, a.outcome, a.result)
            && Ended(row, a.ended, a.outcome, a.result) == AttemptRow(x)
  {
    var a := x.attempt.value;
    if x.call.Some? {
      var c := x.call.value;
      var call := Call(c.no, c.name, Number(x), c.input, c.output, c.status, c.elapsedMs);
      assert call in whole && CallAgrees(call, row, a.ended, a.outcome, a.result);
      assert CallStart(c.no, c.name, Number(x)) in whole;
      assert Claims(whole, row, c.no, a.ended, a.outcome, a.result);
    }
  }

  lemma ClosingLedger(whole: seq<Event>, log: seq<Event>, x: Exchange, ledger: seq<Row>, row: Row)
    requires x.attempt.Some? && Measured(x) && Within(x, whole)
    requires x.call.Some? ==> x.call.value.no > 0
    requires row == if x.call.Some? then CalledRow(x) else Opened(StartEvent(x))
    requires LedgerScan(whole, log) == Some(ledger + [row])
    requires x.attempt.value.number == |ledger| + 1
    ensures LedgerScan(whole, log + Closing(x)) == Some(ledger + [AttemptRow(x)])
  {
    MayEndNow(whole, x, row);
    assert (ledger + [row])[|ledger| := AttemptRow(x)] == ledger + [AttemptRow(x)];
    LedgerTwo(whole, log, Closing(x), ledger + [row], ledger + [AttemptRow(x)], ledger + [AttemptRow(x)]);
  }

  lemma BlockLedger(whole: seq<Event>, log: seq<Event>, x: Exchange, ledger: seq<Row>)
    requires LedgerScan(whole, log) == Some(ledger) && Measured(x) && Within(x, whole)
    requires x.attempt.Some? ==> x.attempt.value.number == |ledger| + 1
    requires x.request.Some? ==> x.request.value.no > 0
    requires x.call.Some? ==> x.call.value.no > 0
    ensures LedgerScan(whole, log + Block(x)) == Some(ledger + if x.attempt.Some? then [AttemptRow(x)] else [])
  {
    BlockParts(log, x);
    OpeningLedger(whole, log, x, ledger);
    if x.attempt.None? {
      NoCall(log + Opening(x), x);
      LedgerTwo(whole, log + Opening(x), Closing(x), ledger, ledger, ledger);
      assert ledger + [] == ledger;
    } else if x.call.Some? {
      CallingLedger(whole, log + Opening(x), x, ledger);
      ClosingLedger(whole, log + Opening(x) + Calling(x), x, ledger, CalledRow(x));
    } else {
      NoCall(log + Opening(x), x);
      ClosingLedger(whole, log + Opening(x), x, ledger, Opened(StartEvent(x)));
    }
  }

  lemma NoCall(log: seq<Event>, x: Exchange)
    requires x.call.None?
    ensures log + Calling(x) == log
  {
  }

  predicate AllWithin(history: seq<Exchange>, whole: seq<Event>) {
    forall k :: 0 <= k < |history| ==> Within(history[k], whole)
  }

  lemma {:induction false} SessionLedger(whole: seq<Event>, history: seq<Exchange>)
    requires Session(history) && AllMeasured(history) && AllWithin(history, whole)
    ensures LedgerScan(whole, [Start(true)] + Flatten(history)) == Some(AttemptRows(history))
    decreases |history|
  {
    if history == [] {
      LedgerSnoc(whole, [], Start(true));
      assert [] + [Start(true)] == [Start(true)] + Flatten(history);
    } else {
      var earlier, x := history[..|history| - 1], history[|history| - 1];
      LastExchange(Start(true), history);
      RowLengths(earlier);
      SessionLedger(whole, earlier);
      BlockLedger(whole, [Start(true)] + Flatten(earlier), x, AttemptRows(earlier));
    }
  }

  // ---- Every honest session is rebuilt ----------------------------------------

  lemma WholeMembers(log: seq<Event>, history: seq<Exchange>, e: Event)
    requires Signals(log) == Whole(history) && !IsNoise(e)
    ensures e in log <==> e == Start(true) || e in Flatten(history) || e == Whole(history)[|Whole(history)| - 1]
  {
    SignalsMembers(log, e);
  }

  lemma SessionWithin(log: seq<Event>, history: seq<Exchange>)
    requires Signals(log) == Whole(history)
    ensures AllWithin(history, log)
  {
    forall k | 0 <= k < |history|
      ensures Within(history[k], log)
    {
      ExchangeWithin(log, history, k);
    }
  }

  lemma InLog(log: seq<Event>, history: seq<Exchange>, k: nat, e: Event)
    requires Signals(log) == Whole(history) && k < |history| && e in Block(history[k])
    ensures e in log
  {
    BlockEvents(history[k], e);
    FlattenIsFlatMap(history);
    FlatMapHolds(Block, history, k, e);
    WholeMembers(log, history, e);
  }

  lemma ExchangeWithin(log: seq<Event>, history: seq<Exchange>, k: nat)
    requires Signals(log) == Whole(history) && k < |history|
    ensures Within(history[k], log)
    ensures history[k].request.Some? ==>
              Reply(history[k].request.value.no, history[k].calls, Number(history[k])) in log
  {
    var x := history[k];
    BlockMembers(x);
    if x.request.Some? {
      InLog(log, history, k, Request(x.request.value.no, x.request.value.isCall, x.request.value.id));
      InLog(log, history, k, Reply(x.request.value.no, x.calls, Number(x)));
    }
    if x.call.Some? {
      var c := x.call.value;
      InLog(log, history, k, CallStart(c.no, c.name, Number(x)));
      InLog(log, history, k, Call(c.no, c.name, Number(x), c.input, c.output, c.status, c.elapsedMs));
    }
  }

  /** The exchange an event of the log came from. */
  lemma EventSource(log: seq<Event>, history: seq<Exchange>, e: Event) returns (k: nat)
    requires Signals(log) == Whole(history) && e in log && (e.Request? || e.Call? || e.Reply?)
    ensures k < |history| && e in Block(history[k])
  {
    WholeMembers(log, history, e);
    FlattenIsFlatMap(history);
    k := FlatMapSource(Block, history, e);
  }

  lemma CallsAccounted(log: seq<Event>, history: seq<Exchange>)
    requires Signals(log) == Whole(history) && AllMeasured(history)
    ensures CallOwners(log) == CompletedRows(AttemptRows(history))
  {
    var rows := AttemptRows(history);
    forall e | e in log && e.Call?
      ensures e.owner in CompletedRows(rows)
    {
      var k := EventSource(log, history, e);
      BlockEvents(history[k], e);
      RowMembers(history, k);
      assert AttemptRow(history[k]).callCompleted;
    }
    forall r | r in rows && r.callCompleted
      ensures Some(r.number) in CallOwners(log)
    {
      var i :| 0 <= i < |rows| && rows[i] == r;
      var k := RowSources(history, i);
      ExchangeWithin(log, history, k);
      var c := history[k].call.value;
      assert Call(c.no, c.name, Number(history[k]), c.input, c.output, c.status, c.elapsedMs) in log;
    }
  }

  lemma RequestsAccounted(log: seq<Event>, history: seq<Exchange>)
    requires Signals(log) == Whole(history) && AllMeasured(history)
    ensures ToolRequests(log) == RowRequests(AttemptRows(history))
  {
    var rows := AttemptRows(history);
    forall e | e in log && e.Request? && e.isCall
      ensures Some(e.no) in RowRequests(rows)
    {
      var k := EventSource(log, history, e);
      BlockEvents(history[k], e);
      RowMembers(history, k);
      assert AttemptRow(history[k]).requestSeq == Some(e.no);
    }
    forall r | r in rows && r.requestSeq.Some?
      ensures r.requestSeq in ToolRequests(log)
    {
      var i :| 0 <= i < |rows| && rows[i] == r;
      var k := RowSources(history, i);
      ExchangeWithin(log, history, k);
      var q := history[k].request.value;
      assert Request(q.no, q.isCall, q.id) in log;
    }
  }

  lemma RowPublished(log: seq<Event>, history: seq<Exchange>, k: nat)
    requires Signals(log) == Whole(history) && Session(history) && k < |history| && history[k].attempt.Some?
    ensures ReplyAgrees(log, AttemptRow(history[k]))
    ensures Published(log, AttemptRow(history[k])) == FinalRow(history[k])
  {
    var x, row := history[k], AttemptRow(history[k]);
    ExchangeWithin(log, history, k);
    WholeSeqs(log, history, ReplyKind);
    if x.request.Some? {
      var own := Reply(x.request.value.no, x.calls, Number(x));
      assert own in log && Answers(own, row);
      forall e | e in log && Answers(e, row)
        ensures e == own
      {
        SameEvent(log, ReplyKind, e, own);
      }
    }
  }

  /** Every session that ran to the end of its input and whose exchanges are
      measured honestly passes all checks, and the ledger holds exactly one row for
      each attempt, bound to its own request, call and reply. */
  lemma LedgerOfSession(log: seq<Event>, history: seq<Exchange>)
    requires Signals(log) == Whole(history) && Session(history) && AllMeasured(history)
    ensures Rebuild(log, Calls(history)) == Some(FinalRows(history))
  {
    StartAndSeqs(log, history);
    SessionWithin(log, history);
    SessionLedger(log, history);
    LedgerSkipsNoise(log, log);
    var rows, stop := AttemptRows(history), Stop(Requests(history), Requests(history), Calls(history),
                                                 Delivered(history));
    LedgerSnoc(log, [Start(true)] + Flatten(history), stop);
    assert LedgerScan(log, log) == Some(rows);
    CallsAccounted(log, history);
    RequestsAccounted(log, history);
    RowLengths(history);
    forall i | 0 <= i < |rows|
      ensures ReplyAgrees(log, rows[i]) && Published(log, rows[i]) == FinalRows(history)[i]
    {
      var k := RowSources(history, i);
      RowPublished(log, history, k);
    }
    assert PublishedRows(log, rows) == FinalRows(history);
  }

  lemma StartAndSeqs(log: seq<Event>, history: seq<Exchange>)
    requires Signals(log) == Whole(history) && Session(history)
    ensures log != [] && OneStart(log) && AllNumbered(log) && |Seqs(log, CallKind)| == Calls(history)
  {
    WholeSeqs(log, history, RequestKind);
    WholeSeqs(log, history, CallStartKind);
    WholeSeqs(log, history, CallKind);
    WholeSeqs(log, history, ReplyKind);
    NoiseIsIgnored(log, 0);
    WholeCounts(Start(true), history, Stop(Requests(history), Requests(history), Calls(history), Delivered(history)));
    WholeMembers(log, history, Start(true));
  }
}
