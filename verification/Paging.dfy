// Cutting a tool's text into pages that fit the reply bound.

/** `Broker.page` of eval_broker.py without masking. A rendered page costs a fixed
    number of bytes for its envelope, the digits of its offsets and the escaped text. */
module Paging {
  import opened Wrappers

  /** `escaped` is the width in bytes of a character in a JSON string. */
  datatype Layout = Layout(overhead: nat, escaped: char -> nat, limit: nat)

  datatype Page = Page(offset: nat, next: Option<nat>, output: string)

  function Digits(n: nat): (d: nat)
    ensures d >= 1
  {
    if n < 10 then 1 else 1 + Digits(n / 10)
  }

  function EscapedSize(layout: Layout, s: string): nat {
    if s == "" then 0 else EscapedSize(layout, s[..|s| - 1]) + layout.escaped(s[|s| - 1])
  }

  const NULL_SIZE := 4

  /** The size of the page of `count` characters at `offset`. */
  function PageSize(layout: Layout, text: string, offset: nat, count: nat): nat
    requires offset + count <= |text|
  {
    var end := offset + count;
    layout.overhead + Digits(offset) + (if end < |text| then Digits(end) else NULL_SIZE)
      + EscapedSize(layout, text[offset..end])
  }

  predicate Fits(layout: Layout, text: string, offset: nat, count: nat)
    requires offset + count <= |text|
  {
    PageSize(layout, text, offset, count) <= layout.limit
  }

  /** `count` is the length of the longest page that fits, or zero if none does. */
  ghost predicate Longest(layout: Layout, text: string, offset: nat, count: nat) {
    && offset + count <= |text|
    && (count > 0 ==> Fits(layout, text, offset, count))
    && (forall j :: count < j <= |text| - offset ==> !Fits(layout, text, offset, j))
  }

  /** A page of the longest length is within the limit if it holds anything, and every
      longer one is past it. */
  lemma LongestMeans(layout: Layout, text: string, offset: nat, count: nat)
    requires offset + count <= |text|
    ensures Longest(layout, text, offset, count) <==>
              && (count == 0 || PageSize(layout, text, offset, count) <= layout.limit)
              && forall j :: count < j <= |text| - offset ==> PageSize(layout, text, offset, j) > layout.limit
  {
    assert forall j :: count < j <= |text| - offset ==>
             (Fits(layout, text, offset, j) <==> PageSize(layout, text, offset, j) <= layout.limit);
  }

  lemma {:induction false} DigitsGrow(m: nat, n: nat)
    requires m <= n
    ensures Digits(m) <= Digits(n)
    decreases n
  {
    if n >= 10 && m >= 10 {
      DigitsGrow(m / 10, n / 10);
    }
  }

  function PowerOfTen(d: nat): nat {
    if d == 0 then 1 else 10 * PowerOfTen(d - 1)
  }

  /** As many digits as it takes to write the number. */
  lemma {:induction false} DigitsWrite(n: nat)
    ensures n < PowerOfTen(Digits(n)) && (n >= 10 ==> PowerOfTen(Digits(n) - 1) <= n) && (n < 10 ==> Digits(n) == 1)
  {
    if n >= 10 {
      DigitsWrite(n / 10);
      if n / 10 < 10 {
        assert Digits(n) == 2 && PowerOfTen(1) == 10 * PowerOfTen(0);
      }
    }
  }

  /** Short of the end of the text, a longer page is no smaller. */
  lemma {:induction false} SizeGrows(layout: Layout, text: string, offset: nat, j: nat, k: nat)
    requires j <= k && offset + k < |text|
    ensures PageSize(layout, text, offset, j) <= PageSize(layout, text, offset, k)
    decreases k
  {
    if j < k {
      SizeGrows(layout, text, offset, j, k - 1);
      DigitsGrow(offset + k - 1, offset + k);
      var s := text[offset..offset + k];
      assert s[..|s| - 1] == text[offset..offset + (k - 1)];
    }
  }

  method FitToPage(layout: Layout, text: string, at: nat) returns (page: Page)
    ensures page.offset == if at < |text| then at else |text|
    ensures Longest(layout, text, page.offset, |page.output|)
    ensures page.output == text[page.offset..page.offset + |page.output|]
    ensures page.next == if page.offset + |page.output| < |text| then Some(page.offset + |page.output|) else None
  {
    var offset := if at < |text| then at else |text|;
    var low, high := 0, |text| - offset;
    if Fits(layout, text, offset, high) {
      return Rendered(text, offset, high);
    }
    while low < high
      invariant 0 <= low <= high <= |text| - offset
      invariant low > 0 ==> low < |text| - offset && Fits(layout, text, offset, low)
      invariant forall j :: high < j <= |text| - offset ==> !Fits(layout, text, offset, j)
      invariant !Fits(layout, text, offset, |text| - offset)
    {
      var middle := (low + high + 1) / 2;
      if Fits(layout, text, offset, middle) {
        low := middle;
      } else {
        forall j | middle <= j <= high
          ensures !Fits(layout, text, offset, j)
        {
          if j < |text| - offset {
            SizeGrows(layout, text, offset, middle, j);
          }
        }
        high := middle - 1;
      }
    }
    page := Rendered(text, offset, low);
  }

  function Rendered(text: string, offset: nat, count: nat): Page
    requires offset + count <= |text|
  {
    var end := offset + count;
    Page(offset, if end < |text| then Some(end) else None, text[offset..end])
  }

  // ---- Following next_offset --------------------------------------------------

  /** Some character can be shown at `offset`. */
  ghost predicate Roomy(layout: Layout, text: string, offset: nat) {
    offset < |text| ==> Fits(layout, text, offset, 1) || Fits(layout, text, offset, |text| - offset)
  }

  lemma RoomyIsProgress(layout: Layout, text: string, offset: nat, count: nat)
    requires offset < |text| && Longest(layout, text, offset, count)
    ensures Roomy(layout, text, offset) <==> count > 0
  {
    if 0 < count < |text| - offset {
      SizeGrows(layout, text, offset, 1, count);
    }
  }

  function FitCount(layout: Layout, text: string, offset: nat, bound: nat): nat
    requires offset + bound <= |text|
  {
    if bound == 0 || Fits(layout, text, offset, bound) then bound else FitCount(layout, text, offset, bound - 1)
  }

  lemma {:induction false} FitCountIsLongest(layout: Layout, text: string, offset: nat, bound: nat)
    requires offset + bound <= |text|
    requires forall j :: bound < j <= |text| - offset ==> !Fits(layout, text, offset, j)
    ensures Longest(layout, text, offset, FitCount(layout, text, offset, bound))
  {
    if bound > 0 && !Fits(layout, text, offset, bound) {
      FitCountIsLongest(layout, text, offset, bound - 1);
    }
  }

  lemma LongestIsUnique(layout: Layout, text: string, offset: nat, j: nat, k: nat)
    requires Longest(layout, text, offset, j) && Longest(layout, text, offset, k)
    ensures j == k
  {
  }

  /** The `next_offset` of the page at an offset. */
  function NextOf(layout: Layout, text: string): nat -> Option<nat> {
    (o: nat) => NextOffset(layout, text, o)
  }

  function NextOffset(layout: Layout, text: string, o: nat): Option<nat> {
    if o > |text| then None else
    var end := o + FitCount(layout, text, o, |text| - o);
    if end < |text| then Some(end) else None
  }

  /** Where a reader who follows `next` stands after `pages` pages; `None` once the
      text ended. */
  function After(next: nat -> Option<nat>, pages: nat): Option<nat> {
    if pages == 0 then Some(0) else
    var before := After(next, pages - 1);
    if before.None? then None else next(before.value)
  }

  /** The longest page from an offset leads to its next offset. */
  lemma Advances(layout: Layout, text: string, o: nat, count: nat)
    requires Longest(layout, text, o, count)
    ensures NextOffset(layout, text, o) == if o + count < |text| then Some(o + count) else None
    ensures o < |text| ==> (Roomy(layout, text, o) <==> count > 0)
  {
    FitCountIsLongest(layout, text, o, |text| - o);
    LongestIsUnique(layout, text, o, count, FitCount(layout, text, o, |text| - o));
    if o < |text| {
      RoomyIsProgress(layout, text, o, count);
    }
  }

  /** A page with room moves the reader on; one without leaves it where it is. */
  lemma RoomMoves(layout: Layout, text: string, o: nat)
    requires o <= |text|
    ensures var next := NextOffset(layout, text, o);
            && (next.Some? ==> next.value < |text|)
            && (Roomy(layout, text, o) ==> next.None? || next.value > o)
            && (!Roomy(layout, text, o) ==> next == Some(o))
  {
    FitCountIsLongest(layout, text, o, |text| - o);
    Advances(layout, text, o, FitCount(layout, text, o, |text| - o));
  }

  // The rest is about any `next`.

  lemma {:induction false} Climbs(next: nat -> Option<nat>, n: nat)
    requires forall k: nat :: After(next, k).Some? && next(After(next, k).value).Some? ==>
                                next(After(next, k).value).value > After(next, k).value
    ensures After(next, n).Some? ==> After(next, n).value >= n
  {
    if n > 0 {
      Climbs(next, n - 1);
    }
  }

  lemma {:induction false} StandsBefore(next: nat -> Option<nat>, n: nat, m: nat)
    requires n <= m && After(next, m).Some?
    ensures After(next, n).Some?
    decreases m
  {
    if n < m {
      StandsBefore(next, n, m - 1);
    }
  }

  /** A reader who is led back to where it stands never ends. */
  lemma {:induction false} StuckStays(next: nat -> Option<nat>, n: nat, m: nat, o: nat)
    requires n <= m && After(next, n) == Some(o) && next(o) == Some(o)
    ensures After(next, m) == Some(o)
    decreases m
  {
    if n < m {
      StuckStays(next, n, m - 1, o);
    }
  }

  lemma NeverEnds(next: nat -> Option<nat>, m: nat, o: nat, n: nat)
    requires After(next, m) == Some(o) && next(o) == Some(o)
    ensures After(next, n).Some?
  {
    if m <= n {
      StuckStays(next, m, n, o);
    } else {
      StandsBefore(next, n, m);
    }
  }

  lemma {:induction false} StaysWithin(next: nat -> Option<nat>, bound: nat, n: nat)
    requires forall o: nat :: o <= bound && next(o).Some? ==> next(o).value <= bound
    ensures After(next, n).Some? ==> After(next, n).value <= bound
  {
    if n > 0 {
      StaysWithin(next, bound, n - 1);
    }
  }

  /** Every page the reader comes to can hold a character. */
  ghost predicate AlwaysRoomy(layout: Layout, text: string) {
    forall n: nat :: After(NextOf(layout, text), n).Some? ==> Roomy(layout, text, After(NextOf(layout, text), n).value)
  }

  lemma WithinText(layout: Layout, text: string, n: nat)
    ensures After(NextOf(layout, text), n).Some? ==> After(NextOf(layout, text), n).value <= |text|
  {
    var next := NextOf(layout, text);
    forall o: nat | o <= |text| && next(o).Some?
      ensures next(o).value <= |text|
    {
      RoomMoves(layout, text, o);
    }
    StaysWithin(next, |text|, n);
  }

  lemma RoomyEnds(layout: Layout, text: string)
    requires AlwaysRoomy(layout, text)
    ensures After(NextOf(layout, text), |text| + 1).None?
  {
    var next := NextOf(layout, text);
    forall k: nat | After(next, k).Some? && next(After(next, k).value).Some?
      ensures next(After(next, k).value).value > After(next, k).value
    {
      WithinText(layout, text, k);
      RoomMoves(layout, text, After(next, k).value);
    }
    Climbs(next, |text| + 1);
    WithinText(layout, text, |text| + 1);
  }

  /** Following `next_offset` ends if and only if every page on the way can hold a
      character. */
  lemma EndsExactly(layout: Layout, text: string)
    ensures (exists n: nat :: After(NextOf(layout, text), n).None?) <==> AlwaysRoomy(layout, text)
  {
    var next := NextOf(layout, text);
    if AlwaysRoomy(layout, text) {
      RoomyEnds(layout, text);
    } else {
      var m: nat :| After(next, m).Some? && !Roomy(layout, text, After(next, m).value);
      WithinText(layout, text, m);
      RoomMoves(layout, text, After(next, m).value);
      forall n: nat
        ensures After(next, n).Some?
      {
        NeverEnds(next, m, After(next, m).value, n);
      }
    }
  }

  lemma Glue(text: string, offset: nat, count: nat)
    requires offset + count <= |text|
    ensures text[..offset] + text[offset..offset + count] == text[..offset + count] && text[..|text|] == text
  {
  }

  /** What a client has read after `n` pages, and where it goes on. */
  ghost predicate ReadTo(layout: Layout, text: string, n: nat, next: Option<nat>, whole: string) {
    && next == After(NextOf(layout, text), n)
    && (if next.Some? then next.value <= |text| && whole == text[..next.value] else whole == text)
  }

  lemma ReadNext(layout: Layout, text: string, n: nat, o: nat, count: nat, whole: string, next: Option<nat>)
    requires AlwaysRoomy(layout, text) && ReadTo(layout, text, n, Some(o), whole) && Longest(layout, text, o, count)
    requires next == if o + count < |text| then Some(o + count) else None
    ensures ReadTo(layout, text, n + 1, next, whole + text[o..o + count])
    ensures next.Some? ==> o < next.value <= |text|
  {
    assert Roomy(layout, text, o);
    Advances(layout, text, o, count);
    Glue(text, o, count);
  }

  /** The pages a client reads by following `next_offset` are the text. */
  method ReadAll(layout: Layout, text: string) returns (whole: string)
    requires AlwaysRoomy(layout, text)
    ensures whole == text
  {
    whole := "";
    var next: Option<nat> := Some(0);
    ghost var n := 0;
    while next.Some?
      invariant ReadTo(layout, text, n, next, whole)
      decreases next.Some?, if next.Some? then |text| - next.value else 0
    {
      var page := FitToPage(layout, text, next.value);
      ReadNext(layout, text, n, next.value, |page.output|, whole, page.next);
      whole := whole + page.output;
      next := page.next;
      n := n + 1;
    }
  }
}
