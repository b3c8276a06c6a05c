// The counterbalanced order of a study's runs.

/** `schedule` of evals/graph-effectiveness-v1/eval.py and its backtracking search. */
module Schedule {
  import opened Wrappers

  datatype Case = Case(id: string, repository: string, family: string)

  datatype Arm = Baseline | Graph

  datatype Slot = Slot(order: nat, caseId: string, repetition: nat, arm: Arm)

  function RepositoryOf(c: Case): string {
    c.repository
  }

  function FamilyOf(c: Case): string {
    c.family
  }

  // ---- Margins ----------------------------------------------------------------

  /** How many of the first `n` cases have a margin value. */
  function Total(cases: seq<Case>, key: Case -> string, v: string, n: nat): nat
    requires n <= |cases|
  {
    if n == 0 then 0 else Total(cases, key, v, n - 1) + if key(cases[n - 1]) == v then 1 else 0
  }

  /** How many of the chosen ones have it. */
  function Ones(cases: seq<Case>, chosen: seq<nat>, key: Case -> string, v: string, n: nat): nat
    requires n <= |chosen| && n <= |cases|
  {
    if n == 0 then 0 else Ones(cases, chosen, key, v, n - 1) + if key(cases[n - 1]) == v then chosen[n - 1] else 0
  }

  ghost predicate Binary(chosen: seq<nat>) {
    forall i :: 0 <= i < |chosen| ==> chosen[i] < 2
  }

  ghost predicate Halves(cases: seq<Case>, chosen: seq<nat>, key: Case -> string)
    requires |chosen| == |cases|
  {
    forall v :: Ones(cases, chosen, key, v, |cases|) == Total(cases, key, v, |cases|) / 2
  }

  /** Half of every repository and half of every family is chosen. */
  ghost predicate Balanced(cases: seq<Case>, chosen: seq<nat>) {
    && |chosen| == |cases| && Binary(chosen)
    && Halves(cases, chosen, RepositoryOf) && Halves(cases, chosen, FamilyOf)
  }

  /** Some balanced choice continues this one. */
  ghost predicate Completable(cases: seq<Case>, chosen: seq<nat>) {
    exists all :: Balanced(cases, all) && chosen <= all
  }

  lemma {:induction false} OnesOfPrefix(cases: seq<Case>, a: seq<nat>, b: seq<nat>, key: Case -> string, v: string,
                                        n: nat)
    requires n <= |a| <= |b| && n <= |cases| && a <= b
    ensures Ones(cases, a, key, v, n) == Ones(cases, b, key, v, n)
    decreases n
  {
    if n > 0 {
      OnesOfPrefix(cases, a, b, key, v, n - 1);
    }
  }

  lemma {:induction false} OnesGrow(cases: seq<Case>, a: seq<nat>, key: Case -> string, v: string, m: nat, n: nat)
    requires m <= n <= |a| && n <= |cases|
    ensures Ones(cases, a, key, v, m) <= Ones(cases, a, key, v, n)
    decreases n
  {
    if m < n {
      OnesGrow(cases, a, key, v, m, n - 1);
    }
  }

  lemma OnesSnoc(cases: seq<Case>, chosen: seq<nat>, first: nat, key: Case -> string, v: string)
    requires |chosen| < |cases|
    ensures Ones(cases, chosen + [first], key, v, |chosen| + 1)
            == Ones(cases, chosen, key, v, |chosen|) + if key(cases[|chosen|]) == v then first else 0
  {
    OnesOfPrefix(cases, chosen, chosen + [first], key, v, |chosen|);
  }

  /** A case whose margin is already half full cannot be chosen. */
  lemma FullMarginStops(cases: seq<Case>, chosen: seq<nat>, key: Case -> string, all: seq<nat>)
    requires |chosen| < |cases| == |all| && Halves(cases, all, key) && chosen + [1] <= all
    ensures Ones(cases, chosen, key, key(cases[|chosen|]), |chosen|)
            < Total(cases, key, key(cases[|chosen|]), |cases|) / 2
  {
    var v := key(cases[|chosen|]);
    OnesSnoc(cases, chosen, 1, key, v);
    OnesOfPrefix(cases, chosen + [1], all, key, v, |chosen| + 1);
    OnesGrow(cases, all, key, v, |chosen| + 1, |cases|);
  }

  /** A choice can be completed exactly when one of its two continuations can. */
  lemma CompletableStep(cases: seq<Case>, chosen: seq<nat>)
    requires |chosen| < |cases|
    ensures Completable(cases, chosen) <==> Completable(cases, chosen + [0]) || Completable(cases, chosen + [1])
  {
    if all :| Balanced(cases, all) && chosen <= all {
      assert all[|chosen|] < 2;
      assert chosen + [all[|chosen|]] <= all;
    }
    forall first: nat, all | Balanced(cases, all) && chosen + [first] <= all
      ensures chosen <= all
    {
    }
  }

  lemma CompletableWhole(cases: seq<Case>, chosen: seq<nat>)
    requires |chosen| == |cases|
    ensures Completable(cases, chosen) <==> Balanced(cases, chosen)
  {
    if all :| Balanced(cases, all) && chosen <= all {
      assert all == chosen;
    }
  }

  // ---- Counters ---------------------------------------------------------------

  /** A counter: what is missing counts zero. */
  function Get(counter: map<string, int>, v: string): int {
    if v in counter then counter[v] else 0
  }

  function Plus(counter: map<string, int>, v: string, n: nat): map<string, int> {
    counter[v := Get(counter, v) + n]
  }

  function Minus(counter: map<string, int>, v: string, n: nat): map<string, int> {
    counter[v := Get(counter, v) - n]
  }

  /** A counter holds the chosen of every margin value. */
  ghost predicate Counts(counter: map<string, int>, cases: seq<Case>, chosen: seq<nat>, key: Case -> string) {
    && |chosen| <= |cases|
    && forall v :: Get(counter, v) == Ones(cases, chosen, key, v, |chosen|)
  }

  lemma CountsSnoc(counter: map<string, int>, cases: seq<Case>, chosen: seq<nat>, key: Case -> string, first: nat)
    requires Counts(counter, cases, chosen, key) && |chosen| < |cases|
    ensures Counts(Plus(counter, key(cases[|chosen|]), first), cases, chosen + [first], key)
  {
    forall v
      ensures Get(Plus(counter, key(cases[|chosen|]), first), v) == Ones(cases, chosen + [first], key, v, |chosen| + 1)
    {
      OnesSnoc(cases, chosen, first, key, v);
    }
  }

  lemma CountsUndo(counter: map<string, int>, cases: seq<Case>, chosen: seq<nat>, key: Case -> string, first: nat)
    requires |chosen| < |cases| && Counts(counter, cases, chosen + [first], key)
    ensures Counts(Minus(counter, key(cases[|chosen|]), first), cases, chosen, key)
  {
    forall v
      ensures Get(Minus(counter, key(cases[|chosen|]), first), v) == Ones(cases, chosen, key, v, |chosen|)
    {
      OnesSnoc(cases, chosen, first, key, v);
    }
  }

  /** Margin values that no case has are halved by any choice. */
  lemma {:induction false} AbsentIsHalved(cases: seq<Case>, chosen: seq<nat>, key: Case -> string, v: string, n: nat)
    requires n <= |chosen| && n <= |cases| && forall i :: 0 <= i < n ==> key(cases[i]) != v
    ensures Ones(cases, chosen, key, v, n) == 0 == Total(cases, key, v, n)
    decreases n
  {
    if n > 0 {
      AbsentIsHalved(cases, chosen, key, v, n - 1);
    }
  }

  /** The final test of one margin. */
  method MarginHalved(counter: map<string, int>, cases: seq<Case>, chosen: seq<nat>, key: Case -> string)
    returns (ok: bool)
    requires Counts(counter, cases, chosen, key) && |chosen| == |cases|
    ensures ok <==> Halves(cases, chosen, key)
  {
    for k := 0 to |cases|
      invariant forall j :: 0 <= j < k ==>
                  Ones(cases, chosen, key, key(cases[j]), |cases|) == Total(cases, key, key(cases[j]), |cases|) / 2
    {
      var v := key(cases[k]);
      if Get(counter, v) != Total(cases, key, v, |cases|) / 2 {
        return false;
      }
    }
    forall v
      ensures Ones(cases, chosen, key, v, |cases|) == Total(cases, key, v, |cases|) / 2
    {
      if j :| 0 <= j < |cases| && key(cases[j]) == v {
      } else {
        AbsentIsHalved(cases, chosen, key, v, |cases|);
      }
    }
    return true;
  }

  // ---- The search -------------------------------------------------------------

  class Search {
    const cases: seq<Case>
    var chosen: seq<nat>
    var rused: map<string, int>
    var fused: map<string, int>

    constructor (cases: seq<Case>)
      ensures this.cases == cases && chosen == [] && Counting()
    {
      this.cases := cases;
      chosen, rused, fused := [], map[], map[];
    }

    ghost predicate Counting()
      reads this
    {
      && |chosen| <= |cases| && Binary(chosen)
      && Counts(rused, cases, chosen, RepositoryOf) && Counts(fused, cases, chosen, FamilyOf)
    }

    /** `assign`: completes the choice, or leaves everything as it was. */
    method Assign() returns (ok: bool)
      requires Counting()
      modifies this
      ensures Counting()
      ensures ok <==> old(Completable(cases, chosen))
      ensures ok ==> Balanced(cases, chosen) && old(chosen) <= chosen
      ensures !ok ==> chosen == old(chosen)
      decreases |cases| - |chosen|, 1
    {
      if |chosen| == |cases| {
        var repositories := MarginHalved(rused, cases, chosen, RepositoryOf);
        var families := MarginHalved(fused, cases, chosen, FamilyOf);
        CompletableWhole(cases, chosen);
        return repositories && families;
      }
      CompletableStep(cases, chosen);
      var parity := |chosen| % 2;
      ok := Try(parity);
      if !ok {
        ok := Try(1 - parity);
      }
    }

    /** One value for the next case, undone if it leads nowhere. */
    method Try(first: nat) returns (ok: bool)
      requires Counting() && |chosen| < |cases| && first < 2
      modifies this
      ensures Counting()
      ensures ok <==> old(Completable(cases, chosen + [first]))
      ensures ok ==> Balanced(cases, chosen) && old(chosen) <= chosen
      ensures !ok ==> chosen == old(chosen)
      decreases |cases| - |chosen|, 0
    {
      var c := cases[|chosen|];
      if first == 1 && (Get(rused, c.repository) >= Total(cases, RepositoryOf, c.repository, |cases|) / 2
                        || Get(fused, c.family) >= Total(cases, FamilyOf, c.family, |cases|) / 2) {
        Pruned(cases, chosen, rused, fused);
        return false;
      }
      Push(first);
      ok := Assign();
      if !ok {
        assert chosen[..|chosen| - 1] == old(chosen);
        Pop(first);
      }
    }

    method Push(first: nat)
      requires Counting() && |chosen| < |cases| && first < 2
      modifies this
      ensures Counting() && chosen == old(chosen) + [first]
    {
      var c := cases[|chosen|];
      CountsSnoc(rused, cases, chosen, RepositoryOf, first);
      CountsSnoc(fused, cases, chosen, FamilyOf, first);
      chosen := chosen + [first];
      rused := Plus(rused, c.repository, first);
      fused := Plus(fused, c.family, first);
    }

    method Pop(first: nat)
      requires Counting() && chosen != [] && chosen[|chosen| - 1] == first
      modifies this
      ensures Counting() && chosen == old(chosen)[..|old(chosen)| - 1]
    {
      var rest := chosen[..|chosen| - 1];
      var c := cases[|rest|];
      assert chosen == rest + [first];
      CountsUndo(rused, cases, rest, RepositoryOf, first);
      CountsUndo(fused, cases, rest, FamilyOf, first);
      chosen := rest;
      rused := Minus(rused, c.repository, first);
      fused := Minus(fused, c.family, first);
    }
  }

  lemma Pruned(cases: seq<Case>, chosen: seq<nat>, rused: map<string, int>, fused: map<string, int>)
    requires |chosen| < |cases| && Counts(rused, cases, chosen, RepositoryOf) && Counts(fused, cases, chosen, FamilyOf)
    requires var c := cases[|chosen|];
             || Get(rused, c.repository) >= Total(cases, RepositoryOf, c.repository, |cases|) / 2
             || Get(fused, c.family) >= Total(cases, FamilyOf, c.family, |cases|) / 2
    ensures !Completable(cases, chosen + [1])
  {
    forall all | Balanced(cases, all)
      ensures !(chosen + [1] <= all)
    {
      if chosen + [1] <= all {
        FullMarginStops(cases, chosen, RepositoryOf, all);
        FullMarginStops(cases, chosen, FamilyOf, all);
      }
    }
  }

  // ---- The plan -----------------------------------------------------------------

  /** How many cases with a margin value run their baseline first. */
  function BaselineFirst(cases: seq<Case>, chosen: seq<nat>, repetition: nat, key: Case -> string, v: string,
                         n: nat): nat
    requires n <= |chosen| && n <= |cases|
  {
    if n == 0 then 0 else
    BaselineFirst(cases, chosen, repetition, key, v, n - 1)
    + if key(cases[n - 1]) == v && RunsBaselineFirst(chosen[n - 1], repetition) then 1 else 0
  }

  predicate RunsBaselineFirst(choice: nat, repetition: nat) {
    (choice + repetition) % 2 != 0
  }

  lemma {:induction false} FirstsAreOnes(cases: seq<Case>, chosen: seq<nat>, repetition: nat, key: Case -> string,
                                         v: string, n: nat)
    requires n <= |chosen| && n <= |cases| && Binary(chosen)
    ensures BaselineFirst(cases, chosen, repetition, key, v, n) ==
            if repetition % 2 == 0 then Ones(cases, chosen, key, v, n)
            else Total(cases, key, v, n) - Ones(cases, chosen, key, v, n)
    decreases n
  {
    if n > 0 {
      FirstsAreOnes(cases, chosen, repetition, key, v, n - 1);
      FirstByParity(chosen[n - 1], repetition);
    }
  }

  lemma FirstByParity(choice: nat, repetition: nat)
    requires choice < 2
    ensures RunsBaselineFirst(choice, repetition) <==> if repetition % 2 == 0 then choice == 1 else choice == 0
  {
  }

  ghost predicate EvenMargins(cases: seq<Case>, key: Case -> string) {
    forall k :: 0 <= k < |cases| ==> Total(cases, key, key(cases[k]), |cases|) % 2 == 0
  }

  /** In every repetition exactly half of each repository and of each family runs
      its baseline first. */
  lemma Counterbalanced(cases: seq<Case>, chosen: seq<nat>, repetition: nat, v: string)
    requires Balanced(cases, chosen) && EvenMargins(cases, RepositoryOf) && EvenMargins(cases, FamilyOf)
    ensures 2 * BaselineFirst(cases, chosen, repetition, RepositoryOf, v, |cases|) ==
              Total(cases, RepositoryOf, v, |cases|)
    ensures 2 * BaselineFirst(cases, chosen, repetition, FamilyOf, v, |cases|) == Total(cases, FamilyOf, v, |cases|)
  {
    HalfFirst(cases, chosen, repetition, RepositoryOf, v);
    HalfFirst(cases, chosen, repetition, FamilyOf, v);
  }

  lemma HalfFirst(cases: seq<Case>, chosen: seq<nat>, repetition: nat, key: Case -> string, v: string)
    requires |chosen| == |cases| && Binary(chosen) && Halves(cases, chosen, key) && EvenMargins(cases, key)
    ensures 2 * BaselineFirst(cases, chosen, repetition, key, v, |cases|) == Total(cases, key, v, |cases|)
  {
    FirstsAreOnes(cases, chosen, repetition, key, v, |cases|);
    if k :| 0 <= k < |cases| && key(cases[k]) == v {
      assert Total(cases, key, key(cases[k]), |cases|) % 2 == 0;
    } else {
      AbsentIsHalved(cases, chosen, key, v, |cases|);
    }
  }

  method MarginsEven(cases: seq<Case>, key: Case -> string) returns (ok: bool)
    ensures ok <==> EvenMargins(cases, key)
  {
    for k := 0 to |cases|
      invariant forall j :: 0 <= j < k ==> Total(cases, key, key(cases[j]), |cases|) % 2 == 0
    {
      if Total(cases, key, key(cases[k]), |cases|) % 2 != 0 {
        return false;
      }
    }
    return true;
  }

  /** Where the runs of a case begin in the plan; repetitions count from one. */
  function Position(cases: nat, repetition: nat, index: nat): nat
    requires repetition >= 1
  {
    2 * ((repetition - 1) * cases + index)
  }

  /** Both arms of one case in one repetition, in the chosen order. */
  ghost predicate RunsBoth(slots: seq<Slot>, cases: seq<Case>, chosen: seq<nat>, repetition: nat, index: nat)
    requires repetition >= 1 && index < |cases| && index < |chosen|
  {
    var at := Position(|cases|, repetition, index);
    && at + 1 < |slots|
    && var first := if RunsBaselineFirst(chosen[index], repetition) then Baseline else Graph;
       && slots[at] == Slot(at, cases[index].id, repetition, first)
       && slots[at + 1] == Slot(at + 1, cases[index].id, repetition, if first == Baseline then Graph else Baseline)
  }

  /** The plan runs both arms once for every case and repetition, and nothing else. */
  ghost predicate IsPlan(slots: seq<Slot>, cases: seq<Case>, chosen: seq<nat>, repetitions: nat) {
    && |chosen| == |cases| && |slots| == 2 * (repetitions * |cases|)
    && forall r, i :: 1 <= r <= repetitions && 0 <= i < |cases| ==> RunsBoth(slots, cases, chosen, r, i)
  }

  /** Every slot is one of the two runs of some case and repetition, so the plan
      holds no other run. */
  lemma EverySlotIsPlanned(slots: seq<Slot>, cases: seq<Case>, chosen: seq<nat>, repetitions: nat, q: nat)
    returns (r: nat, i: nat)
    requires IsPlan(slots, cases, chosen, repetitions) && q < |slots|
    ensures 1 <= r <= repetitions && i < |cases| && RunsBoth(slots, cases, chosen, r, i)
    ensures Position(|cases|, r, i) <= q <= Position(|cases|, r, i) + 1
    ensures slots[q].caseId == cases[i].id && slots[q].repetition == r
  {
    var n := |cases|;
    r, i := FindRun(q / 2, n, repetitions);
    assert RunsBoth(slots, cases, chosen, r, i);
  }

  lemma {:induction false} FindRun(p: nat, n: nat, repetitions: nat) returns (r: nat, i: nat)
    requires p < repetitions * n
    ensures 1 <= r <= repetitions && i < n && p == (r - 1) * n + i
    decreases repetitions
  {
    assert repetitions > 0;
    assert repetitions * n == (repetitions - 1) * n + n;
    if p < (repetitions - 1) * n {
      r, i := FindRun(p, n, repetitions - 1);
    } else {
      r, i := repetitions, p - (repetitions - 1) * n;
    }
  }

  /** Different runs stand at different places. */
  lemma PositionsDiffer(n: nat, r: nat, i: nat, r': nat, i': nat)
    requires 1 <= r <= r' && i < n && i' < n && (r, i) != (r', i')
    ensures Position(n, r, i) != Position(n, r', i')
  {
    if r < r' {
      var d := r' - 1 - r;
      assert (r' - 1) * n == (r - 1) * n + n + d * n;
    }
  }

  /** Appending the runs of one case keeps all earlier runs. */
  lemma RunsStay(slots: seq<Slot>, more: seq<Slot>, cases: seq<Case>, chosen: seq<nat>, r: nat, i: nat)
    requires r >= 1 && i < |cases| && i < |chosen| && RunsBoth(slots, cases, chosen, r, i)
    ensures RunsBoth(slots + more, cases, chosen, r, i)
  {
  }

  /** One repetition. */
  method Repeat(cases: seq<Case>, chosen: seq<nat>, r: nat, before: seq<Slot>) returns (slots: seq<Slot>)
    requires r >= 1 && |chosen| == |cases| && |before| == Position(|cases|, r, 0)
    ensures before <= slots && |slots| == Position(|cases|, r, |cases|)
    ensures forall i :: 0 <= i < |cases| ==> RunsBoth(slots, cases, chosen, r, i)
  {
    slots := before;
    for n := 0 to |cases|
      invariant before <= slots && |slots| == Position(|cases|, r, n)
      invariant forall i :: 0 <= i < n ==> RunsBoth(slots, cases, chosen, r, i)
    {
      var first, second := Graph, Baseline;
      if RunsBaselineFirst(chosen[n], r) {
        first, second := Baseline, Graph;
      }
      var at := |slots|;
      var pair := [Slot(at, cases[n].id, r, first), Slot(at + 1, cases[n].id, r, second)];
      forall i | 0 <= i < n
        ensures RunsBoth(slots + pair, cases, chosen, r, i)
      {
        RunsStay(slots, pair, cases, chosen, r, i);
      }
      slots := slots + pair;
      assert RunsBoth(slots, cases, chosen, r, n);
    }
  }

  /** `schedule`: refuses odd margins and bad repetition counts, searches a balanced
      choice and lays out the runs. */
  method MakeSchedule(cases: seq<Case>, repetitions: int) returns (plan: Option<seq<Slot>>, ghost chosen: seq<nat>)
    ensures plan.Some? <==>
              1 <= repetitions <= 10 && EvenMargins(cases, RepositoryOf) && EvenMargins(cases, FamilyOf)
              && exists all :: Balanced(cases, all)
    ensures plan.Some? ==> Balanced(cases, chosen) && IsPlan(plan.value, cases, chosen, repetitions)
  {
    chosen := [];
    if repetitions < 1 || repetitions > 10 {
      return None, [];
    }
    var evenRepositories := MarginsEven(cases, RepositoryOf);
    var evenFamilies := MarginsEven(cases, FamilyOf);
    if !evenRepositories || !evenFamilies {
      return None, [];
    }
    var search := new Search(cases);
    var ok := search.Assign();
    assert ok <==> exists all :: Balanced(cases, all) && [] <= all;
    if !ok {
      return None, [];
    }
    var slots := Layout(cases, search.chosen, repetitions);
    return Some(slots), search.chosen;
  }

  method Layout(cases: seq<Case>, chosen: seq<nat>, repetitions: nat) returns (slots: seq<Slot>)
    requires |chosen| == |cases|
    ensures IsPlan(slots, cases, chosen, repetitions)
  {
    slots := [];
    for r := 0 to repetitions
      invariant |slots| == Position(|cases|, r + 1, 0)
      invariant forall q, i :: 1 <= q <= r && 0 <= i < |cases| ==> RunsBoth(slots, cases, chosen, q, i)
    {
      var before := slots;
      slots := Repeat(cases, chosen, r + 1, before);
      forall q, i | 1 <= q <= r && 0 <= i < |cases|
        ensures RunsBoth(slots, cases, chosen, q, i)
      {
        assert slots == before + slots[|before|..];
        RunsStay(before, slots[|before|..], cases, chosen, q, i);
      }
      NextRepetition(|cases|, r + 1);
    }
  }

  lemma NextRepetition(n: nat, r: nat)
    requires r >= 1
    ensures Position(n, r, n) == Position(n, r + 1, 0)
  {
    assert (r - 1) * n + n == r * n;
  }
}
