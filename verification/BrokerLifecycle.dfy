// The lifecycle check of a broker log, and the idle checkpoint.

/** `complete_broker_lifecycle` and `idle_checkpoint`. */
module BrokerLifecycle {
  import opened Wrappers
  import opened BrokerTrace
  import opened Utf8

  datatype Life = Life(requests: nat, replies: nat, started: nat, completed: nat, pending: bool, calling: bool,
                       stopped: bool)

  const FRESH := Life(0, 0, 0, 0, false, false, false)

  /** One event of the lifecycle loop; `None` rejects. `outputs` is the size of all
      logged call outputs. */
  function LifeStep(l: Life, e: Event, outputs: nat): Option<Life> {
    if !(e.Request? || e.Reply? || e.CallStart? || e.Call? || e.Stop?) then Some(l)
    else if l.stopped then None
    else match e
      case Stop(requests, replies, calls, outputBytes) =>
        if l.pending || l.calling || requests != l.requests || replies != l.replies || calls != l.completed
           || outputBytes != outputs
        then None else Some(l.(stopped := true))
      case Request(no, _, _) =>
        if l.pending || no != l.requests + 1 then None else Some(l.(requests := l.requests + 1, pending := true))
      case Reply(no, _, _) =>
        if !l.pending || l.calling || no != l.requests then None
        else Some(l.(replies := l.replies + 1, pending := false))
      case CallStart(no, _, _) =>
        if !l.pending || l.calling || no != l.started + 1 then None
        else Some(l.(started := l.started + 1, calling := true))
      case Call(no, _, _, _, _, _, _) =>
        if !l.calling || no != l.started then None else Some(l.(completed := l.completed + 1, calling := false))
  }

  function Scan(log: seq<Event>, outputs: nat): Option<Life> {
    if log == [] then Some(FRESH) else
    var before := Scan(log[..|log| - 1], outputs);
    if before.None? then None else LifeStep(before.value, log[|log| - 1], outputs)
  }

  /** Total size of the logged outputs. */
  function OutputBytes(log: seq<Event>): nat {
    if log == [] then 0 else
    OutputBytes(log[..|log| - 1]) + if log[|log| - 1].Call? then Size(log[|log| - 1].output) else 0
  }

  function CountWhere(log: seq<Event>, p: Event -> bool): nat {
    if log == [] then 0 else CountWhere(log[..|log| - 1], p) + if p(log[|log| - 1]) then 1 else 0
  }

  function CallCount(log: seq<Event>): nat {
    CountWhere(log, (e: Event) => e.Call?)
  }

  function ErrorCount(log: seq<Event>): nat {
    CountWhere(log, (e: Event) => e.ProtocolErrorEvent?)
  }

  function StartCount(log: seq<Event>): nat {
    CountWhere(log, (e: Event) => e.Start?)
  }

  predicate Settled(l: Life, calls: nat) {
    l.stopped && l.requests == l.replies && l.started == l.completed == calls
  }

  /** The whole check but the supervisor's own records. */
  predicate Accepts(log: seq<Event>) {
    && StartCount(log) == 1 && ErrorCount(log) == 0
    && Scan(log, OutputBytes(log)).Some? && Settled(Scan(log, OutputBytes(log)).value, CallCount(log))
  }

  /** A signal the supervisor saw: answered by a clean exit, or checkpointed. */
  datatype Signal = Signal(exitedClean: bool, checkpoint: Option<Checkpoint>)

  datatype Checkpoint = Checkpoint(requests: nat, calls: nat)

  /** The lifecycle contract a supervisor states; signals count under the newer one. */
  datatype Contract = IdleAtTerm | ExitedAtTerm | OtherContract

  predicate SignalOk(signal: Signal, l: Life) {
    signal.exitedClean || signal.checkpoint == Some(Checkpoint(l.requests, l.completed))
  }

  /** `complete_broker_lifecycle`: one start, one supervisor under the right contract, one
      exit, no protocol error, and the event loop. `supervisors` holds the contract of
      each supervisor, `exits` the signals each exit reports. */
  method CompleteBrokerLifecycle(log: seq<Event>, supervisors: seq<Contract>, exits: seq<seq<Signal>>,
                                 contract: Contract)
    returns (ok: bool)
    ensures ok <==>
            && supervisors == [contract] && |exits| == 1 && Accepts(log)
            && (contract == IdleAtTerm ==>
                  forall k :: 0 <= k < |exits[0]| ==>
                    var requests := Scan(log, OutputBytes(log)).value.requests;
                    exits[0][k].exitedClean
                    || exits[0][k].checkpoint == Some(Checkpoint(requests, CallCount(log))))
  {
    if StartCount(log) != 1 || supervisors != [contract] || |exits| != 1 || ErrorCount(log) != 0 {
      return false;
    }
    var outputs := OutputBytes(log);
    var l := FRESH;
    for k := 0 to |log|
      invariant Scan(log[..k], outputs) == Some(l)
    {
      assert log[..k + 1][..k] == log[..k];
      var next := LifeStep(l, log[k], outputs);
      if next.None? {
        RejectedStays(log, k + 1, outputs);
        return false;
      }
      l := next.value;
    }
    assert log[..|log|] == log;
    if !Settled(l, CallCount(log)) {
      return false;
    }
    if contract == IdleAtTerm {
      for k := 0 to |exits[0]|
        invariant forall j :: 0 <= j < k ==> SignalOk(exits[0][j], l)
      {
        if !SignalOk(exits[0][k], l) {
          return false;
        }
      }
    }
    return true;
  }

  lemma {:induction false} RejectedStays(log: seq<Event>, k: nat, outputs: nat)
    requires k <= |log| && Scan(log[..k], outputs).None?
    ensures Scan(log, outputs).None?
    decreases |log|
  {
    if k == |log| {
      assert log[..k] == log;
    } else {
      assert log[..|log| - 1][..k] == log[..k];
      RejectedStays(log[..|log| - 1], k, outputs);
    }
  }

  lemma ScanSnoc(log: seq<Event>, e: Event, outputs: nat)
    ensures Scan(log + [e], outputs) ==
            if Scan(log, outputs).None? then None else LifeStep(Scan(log, outputs).value, e, outputs)
  {
    assert (log + [e])[..|log|] == log;
  }

  // ---- The idle checkpoint ----------------------------------------------------

  /** `idle_checkpoint` of a log: the counts at the last exchange boundary. */
  function IdleCheckpoint(log: seq<Event>): Option<Checkpoint> {
    if log == [] then None else
    match log[|log| - 1]
    case Reply(no, calls, _) => if no > 0 then Some(Checkpoint(no, calls)) else None
    case Stop(requests, _, calls, _) => if requests > 0 then Some(Checkpoint(requests, calls)) else None
    case Request(_, _, _) => None
    case CallStart(_, _, _) => None
    case Call(_, _, _, _, _, _, _) => None
    case _ => IdleCheckpoint(log[..|log| - 1])
  }

  predicate IsExchange(e: Event) {
    e.Request? || e.Reply? || e.CallStart? || e.Call?
  }

  predicate Passed(e: Event) {
    !e.Request? && !e.Reply? && !e.CallStart? && !e.Call? && !e.Stop?
  }

  /** Events the checkpoint is not read from change nothing at the end of a log. */
  lemma {:induction false} IdlePasses(log: seq<Event>, more: seq<Event>)
    requires forall i :: 0 <= i < |more| ==> Passed(more[i])
    ensures IdleCheckpoint(log + more) == IdleCheckpoint(log)
    decreases |more|
  {
    if more == [] {
      assert log + more == log;
    } else {
      var n := |more| - 1;
      assert (log + more)[..|log + more| - 1] == log + more[..n] && (log + more)[|log + more| - 1] == more[n];
      IdlePasses(log, more[..n]);
    }
  }

  lemma IdleOfReply(log: seq<Event>, before: seq<Event>, e: Event)
    requires log == before + [e] && e.Reply? && e.no > 0
    ensures IdleCheckpoint(log) == Some(Checkpoint(e.no, e.calls))
  {
  }

  /** Between two exchanges of a session in which no call was stray, the checkpoint is the
      number of requests and calls so far, once there was a request. */
  lemma {:induction false} IdleOfSession(start: Event, history: seq<Exchange>)
    requires Session(history) && start.Start? && !AnyStray(history)
    ensures IdleCheckpoint([start] + Flatten(history)) ==
            if Requests(history) > 0 then Some(Checkpoint(Requests(history), Calls(history))) else None
    ensures Requests(history) == 0 ==> Calls(history) == 0
    decreases |history|
  {
    if history == [] {
      IdlePasses([], [start]);
      assert [] + [start] == [start] + Flatten([]);
    } else {
      var earlier, x := history[..|history| - 1], history[|history| - 1];
      LastExchange(start, history);
      AnyStraySnoc(history);
      IdleOfSession(start, earlier);
      IdleOfExchange([start] + Flatten(earlier), x);
    }
  }

  /** An exchange with a request ends in its reply, and one without a request and a call
      passes. */
  lemma {:induction false} IdleOfExchange(log: seq<Event>, x: Exchange)
    requires !Stray(x) && (x.request.Some? ==> x.request.value.no > 0)
    ensures IdleCheckpoint(log + Block(x)) ==
            if x.request.Some? then Some(Checkpoint(x.request.value.no, x.calls)) else IdleCheckpoint(log)
  {
    var block := Block(x);
    if x.request.Some? {
      ReplyIsLast(x);
      var n := |block| - 1;
      assert log + block == (log + block[..n]) + [block[n]];
      IdleOfReply(log + block, log + block[..n], block[n]);
    } else {
      forall i | 0 <= i < |block|
        ensures Passed(block[i])
      {
        OthersPass(x, i);
      }
      IdlePasses(log, block);
    }
  }

  lemma ReplyIsLast(x: Exchange)
    requires x.request.Some?
    ensures Block(x) != [] && Block(x)[|Block(x)| - 1] == Reply(x.request.value.no, x.calls, Number(x))
  {
    var closing := Closing(x);
    assert closing[|closing| - 1] == Reply(x.request.value.no, x.calls, Number(x));
  }

  lemma OthersPass(x: Exchange, i: nat)
    requires x.request.None? && x.call.None? && i < |Block(x)|
    ensures Passed(Block(x)[i])
  {
    assert Calling(x) == [];
    assert Block(x) == Opening(x) + Closing(x);
  }

  /** Where the scan is when an idle checkpoint can be read. */
  lemma {:induction false} IdleIsQuiet(log: seq<Event>, outputs: nat)
    requires IdleCheckpoint(log).Some? && Scan(log, outputs).Some?
    ensures var l := Scan(log, outputs).value;
            IdleCheckpoint(log).value.requests == l.requests && !l.pending && !l.calling
  {
    var e := log[|log| - 1];
    if !e.Reply? && !e.Stop? {
      IdleIsQuiet(log[..|log| - 1], outputs);
    }
  }

  /** Requests never go down, and while their number stays and nothing is pending
      or being called, no exchange event has been accepted. */
  lemma {:induction false} QuietTail(log: seq<Event>, k: nat, outputs: nat)
    requires k <= |log| && Scan(log, outputs).Some? && Scan(log[..k], outputs).Some?
    requires var l := Scan(log[..k], outputs).value; !l.pending && !l.calling
    ensures Scan(log[..k], outputs).value.requests <= Scan(log, outputs).value.requests
    ensures Scan(log[..k], outputs).value.requests == Scan(log, outputs).value.requests ==>
              var l := Scan(log, outputs).value;
              !l.pending && !l.calling && forall j :: k <= j < |log| ==> !IsExchange(log[j])
    decreases |log|
  {
    if k == |log| {
      assert log[..k] == log;
    } else {
      var shorter := log[..|log| - 1];
      assert shorter[..k] == log[..k];
      QuietTail(shorter, k, outputs);
      assert forall j :: k <= j < |shorter| ==> log[j] == shorter[j];
    }
  }

  /** If a checkpoint read from some prefix of an accepted log has the final number
      of requests, then no request, call or reply follows that prefix. */
  lemma CheckpointFences(log: seq<Event>, k: nat)
    requires k <= |log| && Accepts(log)
    requires IdleCheckpoint(log[..k]).Some?
    requires IdleCheckpoint(log[..k]).value.requests == Scan(log, OutputBytes(log)).value.requests
    ensures forall j :: k <= j < |log| ==> !IsExchange(log[j])
  {
    var outputs := OutputBytes(log);
    if Scan(log[..k], outputs).None? {
      RejectedStays(log, k, outputs);
    }
    IdleIsQuiet(log[..k], outputs);
    QuietTail(log, k, outputs);
  }

  // ---- What the check says about a session ------------------------------------

  /** An admitted call of a message that carried no id. */
  predicate Stray(x: Exchange) {
    x.call.Some? && x.request.None?
  }

  function Quiet(requests: nat, calls: nat): Life {
    Life(requests, requests, calls, calls, false, false, false)
  }

  /** Scanning at most two more events. */
  lemma ScanTwo(log: seq<Event>, es: seq<Event>, outputs: nat, l: Life, middle: Life, last: Option<Life>)
    requires Scan(log, outputs) == Some(l) && |es| <= 2
    requires |es| == 0 ==> last == Some(l)
    requires |es| == 1 ==> LifeStep(l, es[0], outputs) == last
    requires |es| == 2 ==> LifeStep(l, es[0], outputs) == Some(middle) && LifeStep(middle, es[1], outputs) == last
    ensures Scan(log + es, outputs) == last
  {
    if |es| == 0 {
      assert log + es == log;
    } else if |es| == 1 {
      ScanSnoc(log, es[0], outputs);
      assert log + es == log + [es[0]];
    } else {
      ScanSnoc(log, es[0], outputs);
      ScanSnoc(log + [es[0]], es[1], outputs);
      assert log + es == log + [es[0]] + [es[1]];
    }
  }

  lemma OpeningScans(log: seq<Event>, x: Exchange, outputs: nat, requests: nat, attempts: nat, calls: nat)
    requires Scan(log, outputs) == Some(Quiet(requests, calls)) && Follows(requests, attempts, calls, x)
    ensures Scan(log + Opening(x), outputs) ==
            Some(if x.request.Some? then Quiet(requests, calls).(requests := requests + 1, pending := true)
                 else Quiet(requests, calls))
  {
    var l := Quiet(requests, calls);
    var begun := if x.request.Some? then l.(requests := requests + 1, pending := true) else l;
    ScanTwo(log, Opening(x), outputs, l, begun, Some(begun));
  }

  lemma CallingScans(log: seq<Event>, x: Exchange, outputs: nat, l: Life)
    requires Scan(log, outputs) == Some(l) && !l.calling && !l.stopped && l.started == l.completed
    requires x.call.Some? ==> x.call.value.no == l.started + 1
    ensures Scan(log + Calling(x), outputs) ==
            if x.call.None? then Some(l)
            else if !l.pending then None
            else Some(l.(started := l.started + 1, completed := l.completed + 1))
  {
    var es := Calling(x);
    if x.call.Some? && !l.pending {
      ScanSnoc(log, es[0], outputs);
      PrefixRejects(log + [es[0]], [es[1]], outputs);
      assert log + es == log + [es[0]] + [es[1]];
    } else {
      var called := l.(started := l.started + 1, calling := true);
      ScanTwo(log, es, outputs, l, called,
              Some(if x.call.None? then l else l.(started := l.started + 1, completed := l.completed + 1)));
    }
  }

  lemma ClosingScans(log: seq<Event>, x: Exchange, outputs: nat, l: Life)
    requires Scan(log, outputs) == Some(l) && !l.calling && !l.stopped && l.pending == x.request.Some?
    requires x.request.Some? ==> x.request.value.no == l.requests
    ensures Scan(log + Closing(x), outputs) ==
            Some(if x.request.Some? then l.(replies := l.replies + 1, pending := false) else l)
  {
    var closed := if x.request.Some? then l.(replies := l.replies + 1, pending := false) else l;
    ScanTwo(log, Closing(x), outputs, l, l, Some(closed));
  }

  lemma BlockParts(log: seq<Event>, x: Exchange)
    ensures log + Block(x) == log + Opening(x) + Calling(x) + Closing(x)
  {
    var a, b, c := Opening(x), Calling(x), Closing(x);
    assert log + (a + b + c) == log + a + b + c;
  }

  lemma PrefixRejects(log: seq<Event>, more: seq<Event>, outputs: nat)
    requires Scan(log, outputs).None?
    ensures Scan(log + more, outputs).None?
  {
    assert (log + more)[..|log|] == log;
    RejectedStays(log + more, |log|, outputs);
  }

  lemma BlockScans(log: seq<Event>, x: Exchange, outputs: nat, requests: nat, attempts: nat, calls: nat)
    requires Scan(log, outputs) == Some(Quiet(requests, calls)) && Follows(requests, attempts, calls, x)
    ensures Scan(log + Block(x), outputs) ==
            if Stray(x) then None
            else Some(Quiet(requests + (if x.request.Some? then 1 else 0), calls + (if x.call.Some? then 1 else 0)))
  {
    OpeningScans(log, x, outputs, requests, attempts, calls);
    BlockParts(log, x);
    var begun := log + Opening(x);
    OpenedScans(begun, x, outputs, Scan(begun, outputs).value);
  }

  lemma OpenedScans(begun: seq<Event>, x: Exchange, outputs: nat, l: Life)
    requires Scan(begun, outputs) == Some(l) && !l.calling && !l.stopped && l.started == l.completed
    requires l.pending == x.request.Some?
    requires x.call.Some? ==> x.call.value.no == l.started + 1
    requires x.request.Some? ==> x.request.value.no == l.requests
    ensures Scan(begun + Calling(x) + Closing(x), outputs) ==
            if Stray(x) then None
            else Some(l.(replies := if x.request.Some? then l.replies + 1 else l.replies, pending := false,
                         started := if x.call.Some? then l.started + 1 else l.started,
                         completed := if x.call.Some? then l.completed + 1 else l.completed))
  {
    CallingScans(begun, x, outputs, l);
    if Stray(x) {
      PrefixRejects(begun + Calling(x), Closing(x), outputs);
    } else {
      ClosingScans(begun + Calling(x), x, outputs, Scan(begun + Calling(x), outputs).value);
    }
  }

  predicate AnyStray(history: seq<Exchange>) {
    exists k :: 0 <= k < |history| && Stray(history[k])
  }

  lemma AnyStraySnoc(history: seq<Exchange>)
    requires history != []
    ensures AnyStray(history) <==> AnyStray(history[..|history| - 1]) || Stray(history[|history| - 1])
  {
    var earlier := history[..|history| - 1];
    if k :| 0 <= k < |earlier| && Stray(earlier[k]) {
      assert Stray(history[k]);
    }
    if k :| 0 <= k < |history| && Stray(history[k]) {
      assert k < |earlier| ==> Stray(earlier[k]);
    }
  }

  function Scanned(history: seq<Exchange>): Option<Life> {
    if AnyStray(history) then None else Some(Quiet(Requests(history), Calls(history)))
  }

  /** The scan of a session accepts exactly when no call was stray. */
  lemma {:induction false} SessionScans(start: Event, history: seq<Exchange>, outputs: nat)
    requires Session(history) && start.Start?
    ensures Scan([start] + Flatten(history), outputs) == Scanned(history)
    decreases |history|
  {
    if history == [] {
      StartScans(start, outputs);
    } else {
      LastExchange(start, history);
      SessionScans(start, history[..|history| - 1], outputs);
      StepScans([start] + Flatten(history[..|history| - 1]), history, outputs);
    }
  }

  lemma {:induction false} StepScans(log: seq<Event>, history: seq<Exchange>, outputs: nat)
    requires history != []
    requires var earlier := history[..|history| - 1];
             Scan(log, outputs) == Scanned(earlier)
             && Follows(Requests(earlier), Attempts(earlier), Calls(earlier), history[|history| - 1])
    ensures Scan(log + Block(history[|history| - 1]), outputs) == Scanned(history)
  {
    var earlier, x := history[..|history| - 1], history[|history| - 1];
    NextScanned(history);
    NextScans(log, x, outputs, Requests(earlier), Attempts(earlier), Calls(earlier), AnyStray(earlier));
  }

  lemma NextScanned(history: seq<Exchange>)
    requires history != []
    ensures var earlier, x := history[..|history| - 1], history[|history| - 1];
            Scanned(history) ==
            if AnyStray(earlier) || Stray(x) then None
            else Some(Quiet(Requests(earlier) + (if x.request.Some? then 1 else 0),
                            Calls(earlier) + (if x.call.Some? then 1 else 0)))
  {
    AnyStraySnoc(history);
  }

  lemma Associative<T>(a: seq<T>, b: seq<T>, c: seq<T>)
    ensures a + (b + c) == a + b + c
  {
  }

  lemma StartScans(start: Event, outputs: nat)
    requires start.Start?
    ensures Scan([start] + Flatten([]), outputs) == Some(Quiet(0, 0))
  {
    ScanSnoc([], start, outputs);
    assert [] + [start] == [start] + Flatten([]);
  }

  lemma LastExchange(start: Event, history: seq<Exchange>)
    requires Session(history) && history != []
    ensures var earlier, x := history[..|history| - 1], history[|history| - 1];
            && Session(earlier) && Follows(Requests(earlier), Attempts(earlier), Calls(earlier), x)
            && [start] + Flatten(history) == [start] + Flatten(earlier) + Block(x)
  {
    var earlier, x := history[..|history| - 1], history[|history| - 1];
    SessionSplit(history);
    SessionSnoc(earlier, x);
    Associative([start], Flatten(earlier), Block(x));
  }

  lemma NextScans(log: seq<Event>, x: Exchange, outputs: nat, requests: nat, attempts: nat, calls: nat, rejected: bool)
    requires Scan(log, outputs) == if rejected then None else Some(Quiet(requests, calls))
    requires Follows(requests, attempts, calls, x)
    ensures Scan(log + Block(x), outputs) ==
            if rejected || Stray(x) then None
            else Some(Quiet(requests + (if x.request.Some? then 1 else 0), calls + (if x.call.Some? then 1 else 0)))
  {
    if rejected {
      PrefixRejects(log, Block(x), outputs);
    } else {
      BlockScans(log, x, outputs, requests, attempts, calls);
    }
  }

  /** Total size of the outputs of a session. */
  function Delivered(history: seq<Exchange>): nat {
    if history == [] then 0 else
    Delivered(history[..|history| - 1])
    + if history[|history| - 1].call.Some? then Size(history[|history| - 1].call.value.output) else 0
  }

  /** A log whose signals are one start, a session and a final stop event. */
  ghost predicate Logs(log: seq<Event>, history: seq<Exchange>) {
    && Session(history)
    && exists contract ::
         Signals(log) == [Start(contract)] + Flatten(history)
                         + [Stop(Requests(history), Requests(history), Calls(history), Delivered(history))]
  }

  /** Noise changes nothing the check computes. */
  lemma {:induction false} NoiseIsIgnored(log: seq<Event>, outputs: nat)
    ensures Scan(log, outputs) == Scan(Signals(log), outputs)
    ensures OutputBytes(log) == OutputBytes(Signals(log))
    ensures CallCount(log) == CallCount(Signals(log)) && StartCount(log) == StartCount(Signals(log))
  {
    if log != [] {
      var shorter, e := log[..|log| - 1], log[|log| - 1];
      NoiseIsIgnored(shorter, outputs);
      if !IsNoise(e) {
        ScanSnoc(Signals(shorter), e, outputs);
        assert Signals(log)[..|Signals(shorter)|] == Signals(shorter);
      } else {
        assert Signals(log) == Signals(shorter);
      }
    }
  }

  lemma {:induction false} CountAppend(a: seq<Event>, b: seq<Event>, p: Event -> bool)
    ensures CountWhere(a + b, p) == CountWhere(a, p) + CountWhere(b, p)
    decreases |b|
  {
    if b == [] {
      assert a + b == a;
    } else {
      assert (a + b)[..|a + b| - 1] == a + b[..|b| - 1];
      CountAppend(a, b[..|b| - 1], p);
    }
  }

  lemma {:induction false} OutputAppend(a: seq<Event>, b: seq<Event>)
    ensures OutputBytes(a + b) == OutputBytes(a) + OutputBytes(b)
    decreases |b|
  {
    if b == [] {
      assert a + b == a;
    } else {
      assert (a + b)[..|a + b| - 1] == a + b[..|b| - 1];
      OutputAppend(a, b[..|b| - 1]);
    }
  }

  lemma {:induction false} FewCounts(es: seq<Event>)
    requires |es| <= 2
    ensures CallCount(es) == (if |es| > 0 && es[0].Call? then 1 else 0) + (if |es| > 1 && es[1].Call? then 1 else 0)
    ensures StartCount(es) == (if |es| > 0 && es[0].Start? then 1 else 0) + (if |es| > 1 && es[1].Start? then 1 else 0)
    ensures OutputBytes(es) ==
              (if |es| > 0 && es[0].Call? then Size(es[0].output) else 0)
                + (if |es| > 1 && es[1].Call? then Size(es[1].output) else 0)
    decreases |es|
  {
    if |es| > 0 {
      FewCounts(es[..|es| - 1]);
    }
  }

  lemma ThreeCounts(a: seq<Event>, b: seq<Event>, c: seq<Event>)
    ensures CallCount(a + b + c) == CallCount(a) + CallCount(b) + CallCount(c)
    ensures StartCount(a + b + c) == StartCount(a) + StartCount(b) + StartCount(c)
    ensures OutputBytes(a + b + c) == OutputBytes(a) + OutputBytes(b) + OutputBytes(c)
  {
    CountAppend(a + b, c, (e: Event) => e.Call?);
    CountAppend(a, b, (e: Event) => e.Call?);
    CountAppend(a + b, c, (e: Event) => e.Start?);
    CountAppend(a, b, (e: Event) => e.Start?);
    OutputAppend(a + b, c);
    OutputAppend(a, b);
  }

  lemma {:induction false} BlockCounts(x: Exchange)
    ensures CallCount(Block(x)) == if x.call.Some? then 1 else 0
    ensures StartCount(Block(x)) == 0
    ensures OutputBytes(Block(x)) == if x.call.Some? then Size(x.call.value.output) else 0
  {
    FewCounts(Opening(x));
    FewCounts(Calling(x));
    FewCounts(Closing(x));
    ThreeCounts(Opening(x), Calling(x), Closing(x));
  }

  lemma {:induction false} SessionCounts(history: seq<Exchange>)
    ensures CallCount(Flatten(history)) == Calls(history)
    ensures StartCount(Flatten(history)) == 0
    ensures OutputBytes(Flatten(history)) == Delivered(history)
  {
    if history != [] {
      var earlier, x := history[..|history| - 1], history[|history| - 1];
      SessionCounts(earlier);
      BlockCounts(x);
      CountAppend(Flatten(earlier), Block(x), (e: Event) => e.Call?);
      CountAppend(Flatten(earlier), Block(x), (e: Event) => e.Start?);
      OutputAppend(Flatten(earlier), Block(x));
    }
  }

  lemma WholeCounts(start: Event, history: seq<Exchange>, stop: Event)
    requires start.Start? && stop.Stop?
    ensures var es := [start] + Flatten(history) + [stop];
            CallCount(es) == Calls(history) && StartCount(es) == 1 && OutputBytes(es) == Delivered(history)
  {
    SessionCounts(history);
    FewCounts([start]);
    FewCounts([stop]);
    CountAppend([start] + Flatten(history), [stop], (e: Event) => e.Call?);
    CountAppend([start], Flatten(history), (e: Event) => e.Call?);
    CountAppend([start] + Flatten(history), [stop], (e: Event) => e.Start?);
    CountAppend([start], Flatten(history), (e: Event) => e.Start?);
    OutputAppend([start] + Flatten(history), [stop]);
    OutputAppend([start], Flatten(history));
  }

  /** The log of a session is accepted exactly when it holds no protocol error and
      every admitted call belonged to a message that carried an id. */
  lemma AcceptedExactly(log: seq<Event>, history: seq<Exchange>)
    requires Logs(log, history)
    ensures Accepts(log) <==> ErrorCount(log) == 0 && forall k :: 0 <= k < |history| ==> !Stray(history[k])
  {
    var contract :| Signals(log) == [Start(contract)] + Flatten(history)
                                    + [Stop(Requests(history), Requests(history), Calls(history), Delivered(history))];
    var outputs := Delivered(history);
    var stop := Stop(Requests(history), Requests(history), Calls(history), outputs);
    var es := [Start(contract)] + Flatten(history) + [stop];
    WholeCounts(Start(contract), history, stop);
    NoiseIsIgnored(log, outputs);
    SessionScans(Start(contract), history, outputs);
    ScanSnoc([Start(contract)] + Flatten(history), stop, outputs);
  }
}
