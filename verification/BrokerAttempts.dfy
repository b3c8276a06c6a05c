// The ledger loop of telemetry.py, and what an accepted ledger guarantees.

/** The checks of `attempts` as they run, over dictionaries of the log's events. */
module BrokerAttempts {
  import opened Wrappers
  import opened BrokerTrace
  import opened BrokerLifecycle
  import opened BrokerTelemetry
  import opened Utf8

  // ---- The dictionaries -------------------------------------------------------

  /** A dictionary of the events of one kind by their sequence number. */
  ghost predicate Indexes(index: map<nat, Event>, log: seq<Event>, kind: Kind) {
    && (forall n :: n in index ==> index[n] in log && SeqOf(index[n], kind) == Some(n))
    && (forall e :: e in log && SeqOf(e, kind).Some? ==>
          SeqOf(e, kind).value in index && index[SeqOf(e, kind).value] == e)
  }

  lemma IndexesSnoc(index: map<nat, Event>, log: seq<Event>, kind: Kind, e: Event)
    requires Indexes(index, log, kind)
    requires SeqOf(e, kind).Some? ==> SeqOf(e, kind).value !in index
    ensures Indexes(if SeqOf(e, kind).Some? then index[SeqOf(e, kind).value := e] else index, log + [e], kind)
  {
  }

  /** The numbers indexed are the numbers logged. */
  lemma IndexedNumbers(index: map<nat, Event>, log: seq<Event>, kind: Kind, n: nat)
    requires Indexes(index, log, kind)
    ensures n in index <==> n in Seqs(log, kind)
  {
    if n in index {
      var i :| 0 <= i < |log| && log[i] == index[n];
      SeqsAt(log, kind, i);
    }
    if n in Seqs(log, kind) {
      var e := SeqsSource(log, kind, n);
    }
  }

  lemma {:induction false} SeqsSource(log: seq<Event>, kind: Kind, n: nat) returns (e: Event)
    requires n in Seqs(log, kind)
    ensures e in log && SeqOf(e, kind) == Some(n)
    decreases |log|
  {
    var last := log[|log| - 1];
    if SeqOf(last, kind) == Some(n) {
      e := last;
    } else {
      e := SeqsSource(log[..|log| - 1], kind, n);
    }
  }

  /** The dictionary of a log numbered so far. */
  ghost predicate Indexed(index: map<nat, Event>, log: seq<Event>, kind: Kind) {
    Indexes(index, log, kind) && Numbered(Seqs(log, kind)) && |index| == |Seqs(log, kind)|
  }

  /** The dictionary of the first `k` events. */
  ghost predicate IndexedTo(index: map<nat, Event>, log: seq<Event>, kind: Kind, k: nat) {
    k <= |log| && Indexed(index, log[..k], kind)
  }

  /** Indexes event `k`, if its number is positive and new. */
  method IndexEvent(log: seq<Event>, index: map<nat, Event>, kind: Kind, k: nat)
    returns (ok: bool, next: map<nat, Event>)
    requires k < |log| && IndexedTo(index, log, kind, k)
    ensures ok ==> IndexedTo(next, log, kind, k + 1)
    ensures !ok ==> !Numbered(Seqs(log, kind))
  {
    var no := SeqOf(log[k], kind);
    assert log[..k] + [log[k]] == log[..k + 1];
    if no.Some? && (no.value == 0 || no.value in index) {
      Unindexed(index, log[..k], kind, log[k]);
      StaysUnnumbered(log, kind, k + 1);
      return false, index;
    }
    IndexedSnoc(index, log[..k], kind, log[k]);
    return true, if no.Some? then index[no.value := log[k]] else index;
  }

  /** Indexes the events of a kind and checks that their numbers are positive and
      distinct. */
  method IndexBy(log: seq<Event>, kind: Kind) returns (ok: bool, index: map<nat, Event>)
    ensures ok <==> Numbered(Seqs(log, kind))
    ensures ok ==> Indexed(index, log, kind)
  {
    index := map[];
    NothingIndexed(log, kind);
    for k := 0 to |log|
      invariant IndexedTo(index, log, kind, k)
    {
      ok, index := IndexEvent(log, index, kind, k);
      if !ok {
        return false, index;
      }
    }
    AllIndexed(index, log, kind);
    ok := true;
  }

  lemma NothingIndexed(log: seq<Event>, kind: Kind)
    ensures IndexedTo(map[], log, kind, 0)
  {
  }

  lemma AllIndexed(index: map<nat, Event>, log: seq<Event>, kind: Kind)
    requires IndexedTo(index, log, kind, |log|)
    ensures Indexed(index, log, kind) && Numbered(Seqs(log, kind))
  {
    assert log[..|log|] == log;
  }

  lemma SeqsSnoc(log: seq<Event>, kind: Kind, e: Event)
    ensures Seqs(log + [e], kind) == Seqs(log, kind) + SeqList(e, kind)
  {
    assert (log + [e])[..|log|] == log;
  }

  lemma Unindexed(index: map<nat, Event>, log: seq<Event>, kind: Kind, e: Event)
    requires Indexed(index, log, kind) && SeqOf(e, kind).Some?
    requires SeqOf(e, kind).value == 0 || SeqOf(e, kind).value in index
    ensures !Numbered(Seqs(log + [e], kind))
  {
    SeqsSnoc(log, kind, e);
    IndexedNumbers(index, log, kind, SeqOf(e, kind).value);
    NumberedSnoc(Seqs(log, kind), SeqOf(e, kind).value);
  }

  lemma IndexedSnoc(index: map<nat, Event>, log: seq<Event>, kind: Kind, e: Event)
    requires Indexed(index, log, kind)
    requires SeqOf(e, kind).Some? ==> SeqOf(e, kind).value > 0 && SeqOf(e, kind).value !in index
    ensures Indexed(if SeqOf(e, kind).Some? then index[SeqOf(e, kind).value := e] else index, log + [e], kind)
  {
    SeqsSnoc(log, kind, e);
    IndexesSnoc(index, log, kind, e);
    var no := SeqOf(e, kind);
    if no.Some? {
      IndexedNumbers(index, log, kind, no.value);
      NumberedSnoc(Seqs(log, kind), no.value);
    } else {
      assert Seqs(log + [e], kind) == Seqs(log, kind);
    }
  }

  lemma NumberedSnoc(s: seq<nat>, n: nat)
    requires Numbered(s)
    ensures Numbered(s + [n]) <==> n > 0 && n !in s
  {
    if Numbered(s + [n]) {
      assert (s + [n])[|s|] == n;
      forall i | 0 <= i < |s|
        ensures s[i] != n
      {
        assert (s + [n])[i] == s[i];
      }
    }
  }

  lemma StaysUnnumbered(log: seq<Event>, kind: Kind, k: nat)
    requires k <= |log| && !Numbered(Seqs(log[..k], kind))
    ensures !Numbered(Seqs(log, kind))
  {
    assert log == log[..k] + log[k..];
    SeqsAppend(log[..k], log[k..], kind);
    NumberedPrefix(Seqs(log[..k], kind), Seqs(log[k..], kind));
  }

  lemma NumberedPrefix(a: seq<nat>, b: seq<nat>)
    ensures Numbered(a + b) ==> Numbered(a)
  {
    if Numbered(a + b) {
      assert forall i :: 0 <= i < |a| ==> (a + b)[i] == a[i];
    }
  }

  // ---- The loop ---------------------------------------------------------------

  datatype Index = Index(requests: map<nat, Event>, starts: map<nat, Event>, calls: map<nat, Event>,
                         replies: map<nat, Event>)

  ghost predicate IndexOf(x: Index, log: seq<Event>) {
    && Indexes(x.requests, log, RequestKind) && Indexes(x.starts, log, CallStartKind)
    && Indexes(x.calls, log, CallKind) && Indexes(x.replies, log, ReplyKind)
  }

  method StartRow(x: Index, ghost log: seq<Event>, ledger: seq<Row>, e: Event) returns (r: Option<seq<Row>>)
    requires IndexOf(x, log) && e.AttemptStart?
    ensures r == LedgerStep(log, ledger, e)
  {
    if e.attempt != |ledger| + 1 {
      return None;
    }
    if e.requestSeq.Some? {
      if e.requestSeq.value == 0 || e.requestSeq.value !in x.requests {
        return None;
      }
      var q := x.requests[e.requestSeq.value];
      if !q.isCall || q.id != e.id {
        return None;
      }
      assert q == Request(e.requestSeq.value, true, e.id);
    }
    return Some(ledger + [Opened(e)]);
  }

  lemma OnlyCall(x: Index, log: seq<Event>, no: nat)
    requires IndexOf(x, log)
    ensures forall c :: c in log && c.Call? && c.no == no ==> no in x.calls && x.calls[no] == c
    ensures forall s :: s in log && s.CallStart? && s.no == no ==> no in x.starts && x.starts[no] == s
    ensures no in x.calls ==> x.calls[no] in log && x.calls[no].Call? && x.calls[no].no == no
    ensures no in x.starts ==> x.starts[no] in log && x.starts[no].CallStart? && x.starts[no].no == no
  {
    assert forall c :: c in log && c.Call? ==> SeqOf(c, CallKind) == Some(c.no);
    assert forall s :: s in log && s.CallStart? ==> SeqOf(s, CallStartKind) == Some(s.no);
  }

  method ClaimsCall(x: Index, ghost log: seq<Event>, row: Row, no: nat, ended: nat, outcome: Outcome,
                    result: Option<Result>)
    returns (ok: bool)
    requires IndexOf(x, log) && ended >= row.started
    ensures ok <==> Claims(log, row, no, ended, outcome, result)
  {
    OnlyCall(x, log, no);
    if no == 0 || no !in x.calls || no !in x.starts {
      return false;
    }
    var c, s := x.calls[no], x.starts[no];
    ok := CallAgrees(c, row, ended, outcome, result) && s.owner == Some(row.number);
  }

  method EndRow(x: Index, ghost log: seq<Event>, ledger: seq<Row>, e: Event) returns (r: Option<seq<Row>>)
    requires IndexOf(x, log) && e.AttemptEnd?
    ensures r == LedgerStep(log, ledger, e)
  {
    if !Owned(ledger, Some(e.attempt)) {
      return None;
    }
    var row := ledger[e.attempt - 1];
    if row.completed || e.ended < row.started || e.callSeq != row.callSeq {
      return None;
    }
    if e.callSeq.Some? {
      var claimed := ClaimsCall(x, log, row, e.callSeq.value, e.ended, e.outcome, e.result);
      if !claimed {
        return None;
      }
    } else if e.outcome != Refused && e.outcome != ProtocolError {
      return None;
    }
    if e.result.Some? && e.result.value.isError != (e.outcome != Ok) {
      return None;
    }
    return Some(ledger[e.attempt - 1 := Ended(row, e.ended, e.outcome, e.result)]);
  }

  method ApplyEvent(x: Index, ghost log: seq<Event>, ledger: seq<Row>, e: Event) returns (r: Option<seq<Row>>)
    requires IndexOf(x, log)
    ensures r == LedgerStep(log, ledger, e)
  {
    r := Some(ledger);
    if e.AttemptStart? {
      r := StartRow(x, log, ledger, e);
    } else if e.CallStart? {
      if !Owned(ledger, e.owner) {
        return None;
      }
      var row := ledger[e.owner.value - 1];
      if row.callSeq.Some? || row.completed || row.tool != Some(e.name) {
        return None;
      }
      r := Some(ledger[e.owner.value - 1 := row.(callSeq := Some(e.no))]);
    } else if e.Call? {
      if !Owned(ledger, e.owner) {
        return None;
      }
      var row := ledger[e.owner.value - 1];
      if row.callSeq != Some(e.no) || row.callCompleted || row.tool != Some(e.name) {
        return None;
      }
      r := Some(ledger[e.owner.value - 1 := row.(callCompleted := true, measuredBytes := Some(Size(e.output)))]);
    } else if e.AttemptEnd? {
      r := EndRow(x, log, ledger, e);
    }
  }

  lemma {:induction false} LedgerRejects(whole: seq<Event>, log: seq<Event>, k: nat)
    requires k <= |log| && LedgerScan(whole, log[..k]).None?
    ensures LedgerScan(whole, log).None?
    decreases |log|
  {
    if k == |log| {
      assert log[..k] == log;
    } else {
      assert log[..|log| - 1][..k] == log[..k];
      LedgerRejects(whole, log[..|log| - 1], k);
    }
  }

  lemma IndexedSets(x: Index, log: seq<Event>)
    requires IndexOf(x, log)
    ensures (set n | n in x.calls :: x.calls[n].owner) == CallOwners(log)
    ensures (set n | n in x.requests && x.requests[n].isCall :: Some(n)) == ToolRequests(log)
  {
  }

  lemma OnlyReply(x: Index, log: seq<Event>, row: Row)
    requires IndexOf(x, log)
    ensures Answered(log, row) <==> row.requestSeq.Some? && row.requestSeq.value in x.replies
    ensures ReplyAgrees(log, row) <==>
              (Answered(log, row) ==>
                 var reply := x.replies[row.requestSeq.value];
                 reply.Reply? && row.completed && reply.owner == Some(row.number))
  {
    forall e | e in log && Answers(e, row)
      ensures row.requestSeq.Some? && row.requestSeq.value in x.replies && x.replies[row.requestSeq.value] == e
    {
      assert SeqOf(e, ReplyKind) == row.requestSeq;
    }
    if row.requestSeq.Some? && row.requestSeq.value in x.replies {
      assert Answers(x.replies[row.requestSeq.value], row);
    }
  }

  /** Binds every row to its reply, or takes its outcome back. */
  method PublishRows(x: Index, ghost log: seq<Event>, ledger: seq<Row>) returns (r: Option<seq<Row>>)
    requires IndexOf(x, log)
    ensures r == if forall k :: 0 <= k < |ledger| ==> ReplyAgrees(log, ledger[k])
                 then Some(PublishedRows(log, ledger)) else None
  {
    var rows := [];
    for k := 0 to |ledger|
      invariant |rows| == k
      invariant forall j :: 0 <= j < k ==> ReplyAgrees(log, ledger[j]) && rows[j] == Published(log, ledger[j])
    {
      var row := ledger[k];
      OnlyReply(x, log, row);
      if row.requestSeq.Some? && row.requestSeq.value in x.replies {
        var reply := x.replies[row.requestSeq.value];
        if !row.completed || reply.owner != Some(row.number) {
          return None;
        }
        rows := rows + [row.(replyPublished := true)];
      } else {
        rows := rows + [row.(successful := false, outcome := None)];
      }
    }
    assert rows == PublishedRows(log, ledger);
    return Some(rows);
  }

  lemma RebuildParts(log: seq<Event>, calls: nat, ledger: Option<seq<Row>>)
    requires log != [] && OneStart(log) && AllNumbered(log) && ledger == LedgerScan(log, log)
    ensures Rebuild(log, calls) ==
            if ledger.None? || !Accounted(log, ledger.value, calls) then None
            else Some(PublishedRows(log, ledger.value))
  {
  }

  /** The event loop. */
  method RunLedger(x: Index, log: seq<Event>) returns (r: Option<seq<Row>>)
    requires IndexOf(x, log)
    ensures r == LedgerScan(log, log)
  {
    var ledger := [];
    for k := 0 to |log|
      invariant LedgerScan(log, log[..k]) == Some(ledger)
    {
      LedgerSnoc(log, log[..k], log[k]);
      assert log[..k + 1] == log[..k] + [log[k]];
      var next := ApplyEvent(x, log, ledger, log[k]);
      if next.None? {
        LedgerRejects(log, log, k + 1);
        return None;
      }
      ledger := next.value;
    }
    assert log[..|log|] == log;
    return Some(ledger);
  }

  /** The checks and the ledger of a log whose reader found `calls` calls. */
  method RebuildLedger(log: seq<Event>, calls: nat) returns (r: Option<seq<Row>>)
    ensures r == Rebuild(log, calls)
  {
    if log == [] {
      return Some([]);
    }
    if !OneStart(log) {
      return None;
    }
    var okRequests, requests := IndexBy(log, RequestKind);
    var okStarts, starts := IndexBy(log, CallStartKind);
    var okCalls, callRows := IndexBy(log, CallKind);
    var okReplies, replies := IndexBy(log, ReplyKind);
    if !okRequests || !okStarts || !okCalls || !okReplies {
      return None;
    }
    var x := Index(requests, starts, callRows, replies);
    var ledger := RunLedger(x, log);
    RebuildParts(log, calls, ledger);
    if ledger.None? {
      return None;
    }
    IndexedSets(x, log);
    if (set n | n in x.calls :: x.calls[n].owner) != CompletedRows(ledger.value) || |x.calls| != calls
      || (set n | n in x.requests && x.requests[n].isCall :: Some(n)) != RowRequests(ledger.value) {
      return None;
    }
    r := PublishRows(x, log, ledger.value);
  }

  // ---- What an accepted ledger guarantees -------------------------------------

  /** The measured call of a row: it took no longer than the attempt, and its input is the
      attempt's arguments, or a beginning of them if it was cut. */
  predicate CallOf(c: Event, row: Row) {
    && c.Call? && Some(c.no) == row.callSeq && c.owner == Some(row.number)
    && Some(c.name) == row.tool && row.output == Some(c.output)
    && (row.outcome.Some? ==> c.status == row.outcome.value)
    && row.ended.Some? && row.started <= row.ended.value
    && c.elapsedMs <= (row.ended.value - row.started) / 1_000_000
    && c.input <= row.arguments && (c.input != row.arguments ==> c.status == Truncated)
  }

  /** A completed row without a call was refused or raised an error. */
  ghost predicate Bound(log: seq<Event>, row: Row) {
    && (row.completed && row.callSeq.None? && row.outcome.Some? ==>
          row.outcome.value == Refused || row.outcome.value == ProtocolError)
    && (row.requestSeq.Some? ==> Request(row.requestSeq.value, true, row.id) in log)
    && (row.completed && row.callSeq.Some? ==>
          exists c :: c in log && CallOf(c, row) && (row.successful ==> c.status == Ok))
    && (row.successful ==> row.completed && row.callSeq.Some?)
  }

  ghost predicate AllBound(log: seq<Event>, ledger: seq<Row>) {
    forall k :: 0 <= k < |ledger| ==> ledger[k].number == k + 1 && Bound(log, ledger[k])
  }

  lemma EndIsBound(log: seq<Event>, row: Row, callSeq: Option<nat>, ended: nat, outcome: Outcome,
                   result: Option<Result>)
    requires Bound(log, row) && MayEnd(log, row, callSeq, ended, outcome, result)
    ensures Bound(log, Ended(row, ended, outcome, result))
  {
    if callSeq.Some? {
      var c :| c in log && c.Call? && c.no == callSeq.value && CallAgrees(c, row, ended, outcome, result);
      assert CallOf(c, Ended(row, ended, outcome, result));
    }
  }

  lemma StepIsBound(log: seq<Event>, ledger: seq<Row>, e: Event)
    requires AllBound(log, ledger) && LedgerStep(log, ledger, e).Some?
    ensures AllBound(log, LedgerStep(log, ledger, e).value)
  {
    if e.AttemptEnd? {
      EndIsBound(log, ledger[e.attempt - 1], e.callSeq, e.ended, e.outcome, e.result);
    } else if e.Call? {
      var row := ledger[e.owner.value - 1];
      CallKeepsBound(log, row, row.(callCompleted := true, measuredBytes := Some(Size(e.output))));
    }
  }

  lemma CallKeepsBound(log: seq<Event>, row: Row, after: Row)
    requires Bound(log, row) && after == row.(callCompleted := true, measuredBytes := after.measuredBytes)
    ensures Bound(log, after)
  {
    if row.completed && row.callSeq.Some? {
      var c :| c in log && CallOf(c, row) && (row.successful ==> c.status == Ok);
      assert CallOf(c, after);
    }
  }

  lemma {:induction false} ScanIsBound(whole: seq<Event>, log: seq<Event>)
    requires LedgerScan(whole, log).Some?
    ensures AllBound(whole, LedgerScan(whole, log).value)
    decreases |log|
  {
    if log != [] {
      ScanIsBound(whole, log[..|log| - 1]);
      StepIsBound(whole, LedgerScan(whole, log[..|log| - 1]).value, log[|log| - 1]);
    }
  }

  lemma {:induction false} PublishKeepsBound(log: seq<Event>, row: Row)
    requires Bound(log, row) && ReplyAgrees(log, row)
    ensures Bound(log, Published(log, row))
    ensures Published(log, row).successful ==> Published(log, row).replyPublished
  {
    var after := Published(log, row);
    if row.completed && row.callSeq.Some? {
      var c :| c in log && CallOf(c, row) && (row.successful ==> c.status == Ok);
      assert CallOf(c, after);
    }
  }

  /** Every row of an accepted ledger names a logged tools/call request and the
      logged call whose output it reports, and only an answered row is successful. */
  lemma AcceptedRowsAreBound(log: seq<Event>, calls: nat)
    requires Rebuild(log, calls).Some?
    ensures AllBound(log, Rebuild(log, calls).value)
    ensures forall k :: 0 <= k < |Rebuild(log, calls).value| ==>
              var row := Rebuild(log, calls).value[k]; row.successful ==> row.replyPublished
  {
    if log != [] {
      ScanIsBound(log, log);
      var ledger := LedgerScan(log, log).value;
      forall k | 0 <= k < |ledger|
        ensures var row := Published(log, ledger[k]); Bound(log, row) && (row.successful ==> row.replyPublished)
      {
        PublishKeepsBound(log, ledger[k]);
      }
    }
  }

  /** An accepted ledger leaves nothing out: as many calls are logged as the reader found,
      each belongs to a row whose call completed, and each tools/call request to a row. */
  lemma NothingUnaccounted(log: seq<Event>, calls: nat)
    requires Rebuild(log, calls).Some? && log != []
    ensures |Seqs(log, CallKind)| == calls
    ensures forall c :: c in log && c.Call? ==>
              exists k :: 0 <= k < |Rebuild(log, calls).value| && Rebuild(log, calls).value[k].callCompleted
                          && c.owner == Some(Rebuild(log, calls).value[k].number)
    ensures forall q :: q in log && q.Request? && q.isCall ==>
              exists k :: 0 <= k < |Rebuild(log, calls).value| && Rebuild(log, calls).value[k].requestSeq == Some(q.no)
  {
    var ledger := LedgerScan(log, log).value;
    forall c | c in log && c.Call?
      ensures exists k :: 0 <= k < |ledger| && ledger[k].callCompleted && c.owner == Some(ledger[k].number)
    {
      assert c.owner in CallOwners(log);
      var r :| r in ledger && r.callCompleted && Some(r.number) == c.owner;
      var k :| 0 <= k < |ledger| && ledger[k] == r;
    }
    forall q | q in log && q.Request? && q.isCall
      ensures exists k :: 0 <= k < |ledger| && ledger[k].requestSeq == Some(q.no)
    {
      assert Some(q.no) in ToolRequests(log);
      var r :| r in ledger && r.requestSeq.Some? && r.requestSeq == Some(q.no);
      var k :| 0 <= k < |ledger| && ledger[k] == r;
    }
    forall k | 0 <= k < |ledger|
      ensures var row := Rebuild(log, calls).value[k];
              row.callCompleted == ledger[k].callCompleted && row.number == ledger[k].number
              && row.requestSeq == ledger[k].requestSeq
    {
      assert Rebuild(log, calls).value[k] == Published(log, ledger[k]);
    }
  }

  /** No two rows of an accepted ledger claim one call. */
  lemma {:induction false} NoSharedCall(log: seq<Event>, calls: nat, i: nat, j: nat)
    requires Rebuild(log, calls).Some? && i < j < |Rebuild(log, calls).value|
    ensures var a, b := Rebuild(log, calls).value[i], Rebuild(log, calls).value[j];
            a.completed && b.completed && a.callSeq.Some? ==> a.callSeq != b.callSeq
  {
    AcceptedRowsAreBound(log, calls);
    var a, b := Rebuild(log, calls).value[i], Rebuild(log, calls).value[j];
    if a.completed && b.completed && a.callSeq.Some? && a.callSeq == b.callSeq {
      var c :| c in log && CallOf(c, a);
      var d :| d in log && CallOf(d, b);
      SameEvent(log, CallKind, c, d);
    }
  }

  lemma {:induction false} ScanUnpublished(whole: seq<Event>, log: seq<Event>)
    requires LedgerScan(whole, log).Some?
    ensures forall k :: 0 <= k < |LedgerScan(whole, log).value| ==> !LedgerScan(whole, log).value[k].replyPublished
    decreases |log|
  {
    if log != [] {
      ScanUnpublished(whole, log[..|log| - 1]);
    }
  }

  /** No two answered rows of an accepted ledger claim one request. */
  lemma NoSharedReply(log: seq<Event>, calls: nat, i: nat, j: nat)
    requires Rebuild(log, calls).Some? && i < j < |Rebuild(log, calls).value|
    ensures var a, b := Rebuild(log, calls).value[i], Rebuild(log, calls).value[j];
            a.replyPublished && b.replyPublished ==> a.requestSeq != b.requestSeq
  {
    ScanIsBound(log, log);
    ScanUnpublished(log, log);
    var ledger := LedgerScan(log, log).value;
    var a, b := ledger[i], ledger[j];
    assert Answered(log, a) ==> exists e :: e in log && Answers(e, a) && e.owner == Some(a.number);
  }
}
