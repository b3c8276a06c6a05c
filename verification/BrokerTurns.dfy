// What any log must be for the lifecycle check to accept it.

/** The logs `complete_broker_lifecycle` accepts, as a grammar. */
module BrokerTurns {
  import opened Wrappers
  import opened BrokerTrace
  import opened BrokerLifecycle

  predicate IsLifecycle(e: Event) {
    IsExchange(e) || e.Stop?
  }

  /** The events of a log the lifecycle loop looks at. */
  function LifecycleEvents(log: seq<Event>): seq<Event> {
    if log == [] then []
    else LifecycleEvents(log[..|log| - 1]) + (if IsLifecycle(log[|log| - 1]) then [log[|log| - 1]] else [])
  }

  // ---- The grammar --------------------------------------------------------------

  /** Event `i` of turn `no`, before its reply, when `calls` calls were made in earlier
      turns: the request, then starts and ends of calls by turns. */
  predicate InTurn(e: Event, i: nat, no: nat, calls: nat) {
    if i == 0 then e.Request? && e.no == no
    else if i % 2 == 1 then e.CallStart? && e.no == calls + (i + 1) / 2
    else e.Call? && e.no == calls + i / 2
  }

  /** A turn as far as it has come without its reply. */
  predicate Open(es: seq<Event>, no: nat, calls: nat) {
    forall i :: 0 <= i < |es| ==> InTurn(es[i], i, no, calls)
  }

  /** request (call_start call)* reply. */
  predicate Turn(es: seq<Event>, no: nat, calls: nat) {
    && |es| >= 2 && |es| % 2 == 0 && Open(es[..|es| - 1], no, calls)
    && es[|es| - 1].Reply? && es[|es| - 1].no == no
  }

  /** Besides its request and its reply, a turn holds two events for each call. */
  function CallsIn(turns: seq<seq<Event>>): nat {
    if turns == [] then 0 else CallsIn(turns[..|turns| - 1]) + InnerCalls(turns[|turns| - 1])
  }

  function InnerCalls(turn: seq<Event>): nat {
    if |turn| < 2 then 0 else |turn| / 2 - 1
  }

  /** The turns of a session in order, numbered from 1. */
  predicate Turns(turns: seq<seq<Event>>) {
    turns == [] ||
    var earlier := turns[..|turns| - 1];
    Turns(earlier) && Turn(turns[|turns| - 1], |turns|, CallsIn(earlier))
  }

  function Concat(turns: seq<seq<Event>>): seq<Event> {
    if turns == [] then [] else Concat(turns[..|turns| - 1]) + turns[|turns| - 1]
  }

  /** Complete turns and one that may still be open. */
  predicate Writes(turns: seq<seq<Event>>, open: seq<Event>) {
    Turns(turns) && Open(open, |turns| + 1, CallsIn(turns))
  }

  /** Where the loop is after them. */
  function LifeOf(turns: seq<seq<Event>>, open: seq<Event>): Life {
    LifeAt(|turns|, CallsIn(turns), |open|)
  }

  function LifeAt(turns: nat, calls: nat, open: nat): Life {
    if open == 0 then Quiet(turns, calls)
    else Life(turns + 1, turns, calls + open / 2, calls + (open - 1) / 2, true, open % 2 == 0, false)
  }

  lemma TurnsSnoc(turns: seq<seq<Event>>, turn: seq<Event>)
    ensures Turns(turns + [turn]) <==> Turns(turns) && Turn(turn, |turns| + 1, CallsIn(turns))
    ensures CallsIn(turns + [turn]) == CallsIn(turns) + InnerCalls(turn)
    ensures Concat(turns + [turn]) == Concat(turns) + turn
  {
    assert (turns + [turn])[..|turns|] == turns;
  }

  lemma OpenSnoc(open: seq<Event>, e: Event, no: nat, calls: nat)
    requires Open(open, no, calls)
    ensures Open(open + [e], no, calls) <==> InTurn(e, |open|, no, calls)
  {
    var more := open + [e];
    assert more[|open|] == e;
    assert forall i :: 0 <= i < |open| ==> more[i] == open[i];
  }

  lemma TurnSnoc(open: seq<Event>, e: Event, turn: seq<Event>, no: nat, calls: nat)
    requires Open(open, no, calls) && turn == open + [e]
    ensures Turn(turn, no, calls) <==> |open| % 2 == 1 && e.Reply? && e.no == no
  {
    assert turn[..|turn| - 1] == open && turn[|turn| - 1] == e;
  }

  lemma StepAt(turns: nat, calls: nat, open: nat, e: Event, outputs: nat)
    requires IsExchange(e)
    ensures LifeStep(LifeAt(turns, calls, open), e, outputs) ==
            if e.Reply? then
              if open % 2 == 1 && e.no == turns + 1 then Some(LifeAt(turns + 1, calls + (open + 1) / 2 - 1, 0))
              else None
            else if InTurn(e, open, turns + 1, calls) then Some(LifeAt(turns, calls, open + 1))
            else None
  {
  }

  /** One more event of a turn: the loop accepts it exactly where the grammar does. */
  lemma OpenStep(turns: seq<seq<Event>>, open: seq<Event>, e: Event, more: seq<Event>, outputs: nat)
    requires Writes(turns, open) && IsExchange(e) && !e.Reply? && more == open + [e]
    ensures LifeStep(LifeOf(turns, open), e, outputs) ==
            if Writes(turns, more) then Some(LifeOf(turns, more)) else None
  {
    StepAt(|turns|, CallsIn(turns), |open|, e, outputs);
    OpenSnoc(open, e, |turns| + 1, CallsIn(turns));
  }

  /** The reply that ends a turn, likewise. */
  lemma ReplyStep(turns: seq<seq<Event>>, open: seq<Event>, e: Event, more: seq<seq<Event>>, outputs: nat)
    requires Writes(turns, open) && e.Reply? && more == turns + [open + [e]]
    ensures LifeStep(LifeOf(turns, open), e, outputs) == if Turns(more) then Some(LifeOf(more, [])) else None
  {
    StepAt(|turns|, CallsIn(turns), |open|, e, outputs);
    TurnSnoc(open, e, open + [e], |turns| + 1, CallsIn(turns));
    TurnsSnoc(turns, open + [e]);
  }

  lemma ScanNext(log: seq<Event>, e: Event, outputs: nat, longer: seq<Event>, l: Life, next: Option<Life>)
    requires Scan(log, outputs) == Some(l) && LifeStep(l, e, outputs) == next && longer == log + [e]
    ensures Scan(longer, outputs) == next
  {
    ScanSnoc(log, e, outputs);
  }

  /** What the grammar generates is scanned. */
  lemma {:induction false} GeneratedIsScanned(turns: seq<seq<Event>>, open: seq<Event>, outputs: nat)
    requires Writes(turns, open)
    ensures Scan(Concat(turns) + open, outputs) == Some(LifeOf(turns, open))
    decreases |turns|, |open|
  {
    if open != [] {
      var before := OpenBefore(turns, open);
      GeneratedIsScanned(turns, before, outputs);
      OpenIsScanned(turns, before, open, outputs);
    } else if turns != [] {
      var earlier, before, e := TurnsBefore(turns);
      GeneratedIsScanned(earlier, before, outputs);
      TurnIsScanned(earlier, before, e, turns, outputs);
      assert Concat(turns) + open == Concat(turns);
    } else {
      assert Concat(turns) + open == [];
    }
  }

  lemma OpenBefore(turns: seq<seq<Event>>, open: seq<Event>) returns (before: seq<Event>)
    requires Writes(turns, open) && open != []
    ensures Writes(turns, before) && before == open[..|open| - 1] && open == before + [open[|open| - 1]]
    ensures IsExchange(open[|open| - 1]) && !open[|open| - 1].Reply?
  {
    before := open[..|open| - 1];
    assert InTurn(open[|open| - 1], |open| - 1, |turns| + 1, CallsIn(turns));
  }

  lemma TurnsBefore(turns: seq<seq<Event>>) returns (earlier: seq<seq<Event>>, before: seq<Event>, e: Event)
    requires Turns(turns) && turns != []
    ensures earlier == turns[..|turns| - 1] && Writes(earlier, before)
    ensures e.Reply? && turns == earlier + [before + [e]]
  {
    earlier := turns[..|turns| - 1];
    var turn := turns[|turns| - 1];
    before, e := turn[..|turn| - 1], turn[|turn| - 1];
    assert turn == before + [e];
  }

  lemma OpenIsScanned(turns: seq<seq<Event>>, before: seq<Event>, open: seq<Event>, outputs: nat)
    requires Scan(Concat(turns) + before, outputs) == Some(LifeOf(turns, before))
    requires Writes(turns, before) && Writes(turns, open) && open != [] && open == before + [open[|open| - 1]]
    requires IsExchange(open[|open| - 1]) && !open[|open| - 1].Reply?
    ensures Scan(Concat(turns) + open, outputs) == Some(LifeOf(turns, open))
  {
    var e := open[|open| - 1];
    OpenStep(turns, before, e, open, outputs);
    Associative(Concat(turns), before, [e]);
    ScanNext(Concat(turns) + before, e, outputs, Concat(turns) + open, LifeOf(turns, before),
             Some(LifeOf(turns, open)));
  }

  lemma TurnIsScanned(earlier: seq<seq<Event>>, before: seq<Event>, e: Event, turns: seq<seq<Event>>, outputs: nat)
    requires Scan(Concat(earlier) + before, outputs) == Some(LifeOf(earlier, before))
    requires Writes(earlier, before) && Turns(turns) && e.Reply? && turns == earlier + [before + [e]]
    ensures Scan(Concat(turns), outputs) == Some(LifeOf(turns, []))
  {
    ReplyStep(earlier, before, e, turns, outputs);
    TurnsSnoc(earlier, before + [e]);
    Associative(Concat(earlier), before, [e]);
    ScanNext(Concat(earlier) + before, e, outputs, Concat(turns), LifeOf(earlier, before), Some(LifeOf(turns, [])));
  }

  /** Exchange events that are scanned are generated. */
  lemma {:induction false} ScannedIsGenerated(es: seq<Event>, outputs: nat)
    returns (turns: seq<seq<Event>>, open: seq<Event>)
    requires Scan(es, outputs).Some? && forall i :: 0 <= i < |es| ==> IsExchange(es[i])
    ensures Writes(turns, open) && es == Concat(turns) + open
    decreases |es|
  {
    turns, open := [], [];
    if es != [] {
      var n := |es| - 1;
      assert es == es[..n] + [es[n]];
      turns, open := ScannedIsGenerated(es[..n], outputs);
      GeneratedIsScanned(turns, open, outputs);
      ScanSnoc(es[..n], es[n], outputs);
      turns, open := GenerateNext(turns, open, es[n], outputs, es);
    }
  }

  lemma GenerateNext(turns: seq<seq<Event>>, open: seq<Event>, e: Event, outputs: nat, longer: seq<Event>)
    returns (more: seq<seq<Event>>, rest: seq<Event>)
    requires Writes(turns, open) && IsExchange(e) && LifeStep(LifeOf(turns, open), e, outputs).Some?
    requires longer == Concat(turns) + open + [e]
    ensures Writes(more, rest) && longer == Concat(more) + rest
  {
    Associative(Concat(turns), open, [e]);
    if e.Reply? {
      more, rest := turns + [open + [e]], [];
      ReplyStep(turns, open, e, more, outputs);
      TurnsSnoc(turns, open + [e]);
    } else {
      more, rest := turns, open + [e];
      OpenStep(turns, open, e, rest, outputs);
    }
  }

  // ---- The stop -------------------------------------------------------------------

  /** A scan that has not stopped has seen no stop. */
  lemma {:induction false} NoStopYet(es: seq<Event>, outputs: nat)
    requires Scan(es, outputs).Some? && !Scan(es, outputs).value.stopped
    ensures forall i :: 0 <= i < |es| ==> !es[i].Stop?
    decreases |es|
  {
    if es != [] {
      NoStopYet(es[..|es| - 1], outputs);
    }
  }

  lemma {:induction false} OtherEventsSkipped(log: seq<Event>, outputs: nat)
    ensures Scan(log, outputs) == Scan(LifecycleEvents(log), outputs)
    ensures forall i :: 0 <= i < |LifecycleEvents(log)| ==> IsLifecycle(LifecycleEvents(log)[i])
    decreases |log|
  {
    if log != [] {
      var shorter, e := log[..|log| - 1], log[|log| - 1];
      OtherEventsSkipped(shorter, outputs);
      if IsLifecycle(e) {
        ScanSnoc(LifecycleEvents(shorter), e, outputs);
      } else {
        assert LifecycleEvents(log) == LifecycleEvents(shorter);
      }
    }
  }

  /** The loop completes as many calls as the log holds. */
  lemma {:induction false} CompletedAreCalls(log: seq<Event>, outputs: nat)
    requires Scan(log, outputs).Some?
    ensures Scan(log, outputs).value.completed == CallCount(log)
    decreases |log|
  {
    if log != [] {
      CompletedAreCalls(log[..|log| - 1], outputs);
    }
  }

  /** Complete turns, and a stop that counts them. */
  predicate Spells(es: seq<Event>, turns: seq<seq<Event>>, calls: nat, outputs: nat) {
    Turns(turns) && es == Concat(turns) + [Stop(|turns|, |turns|, calls, outputs)]
  }

  lemma StoppedIsSpelt(es: seq<Event>, calls: nat, outputs: nat) returns (turns: seq<seq<Event>>)
    requires Scan(es, outputs).Some? && Settled(Scan(es, outputs).value, calls)
    requires forall i :: 0 <= i < |es| ==> IsLifecycle(es[i])
    ensures Spells(es, turns, calls, outputs)
  {
    var n := |es| - 1;
    var before := es[..n];
    assert es[n].Stop?;
    NoStopYet(before, outputs);
    var open;
    turns, open := ScannedIsGenerated(before, outputs);
    GeneratedIsScanned(turns, open, outputs);
    assert open == [] && Concat(turns) + open == Concat(turns);
    assert es == before + [es[n]];
  }

  lemma {:induction false} CallsAreKept(log: seq<Event>)
    ensures CallCount(log) == CallCount(LifecycleEvents(log))
    decreases |log|
  {
    if log != [] {
      var shorter, e := log[..|log| - 1], log[|log| - 1];
      CallsAreKept(shorter);
      if IsLifecycle(e) {
        assert LifecycleEvents(log)[..|LifecycleEvents(shorter)|] == LifecycleEvents(shorter);
      } else {
        assert LifecycleEvents(log) == LifecycleEvents(shorter);
      }
    }
  }

  lemma SpeltCalls(es: seq<Event>, turns: seq<seq<Event>>, calls: nat, outputs: nat)
    requires Spells(es, turns, calls, outputs)
    ensures CallCount(es) == CallsIn(turns)
  {
    GeneratedIsScanned(turns, [], outputs);
    assert Concat(turns) + [] == Concat(turns);
    CompletedAreCalls(Concat(turns), outputs);
    assert es[..|es| - 1] == Concat(turns);
  }

  lemma SpeltIsStopped(es: seq<Event>, turns: seq<seq<Event>>, calls: nat, outputs: nat)
    requires Spells(es, turns, calls, outputs) && calls == CallsIn(turns)
    ensures Scan(es, outputs) == Some(LifeOf(turns, []).(stopped := true))
  {
    GeneratedIsScanned(turns, [], outputs);
    assert Concat(turns) + [] == Concat(turns);
    ScanSnoc(Concat(turns), Stop(|turns|, |turns|, calls, outputs), outputs);
  }

  /** Any log whatever is accepted if and only if it holds one start and no protocol
      error, and its lifecycle events are turns, each a request, its calls and its reply,
      with requests and calls numbered from 1, and then one stop with the true counts. */
  lemma AcceptedLogs(log: seq<Event>)
    ensures Accepts(log) <==>
            && StartCount(log) == 1 && ErrorCount(log) == 0
            && exists turns :: Spells(LifecycleEvents(log), turns, CallCount(log), OutputBytes(log))
  {
    var es, outputs := LifecycleEvents(log), OutputBytes(log);
    OtherEventsSkipped(log, outputs);
    if Accepts(log) {
      var turns := StoppedIsSpelt(es, CallCount(log), outputs);
    }
    if turns :| Spells(es, turns, CallCount(log), outputs) {
      CallsAreKept(log);
      SpeltCalls(es, turns, CallCount(log), outputs);
      SpeltIsStopped(es, turns, CallCount(log), outputs);
    }
  }
}
