/**
  LFQueue run by one thread: the class with its two ticket counters and its slots,
  for any history of pushes (overflowing ones included), pops and resets.
*/
module LFQueueSequential {
  import DivMod

  /** One LFItem: the counter and the pointer cell (0 is the null pointer). */
  datatype Item = Item(val: int, data: nat)

  // ---- Tickets and counters ------------------------------------------------

  /** How many tickets in [a, b) select slot j of n. */
  function Outstanding(a: nat, b: nat, n: nat, j: nat): nat
    requires 0 < n
  {
    if b <= a then 0 else Outstanding(a, b - 1, n, j) + if (b - 1) % n == j then 1 else 0
  }

  lemma {:induction false} OutstandingFront(a: nat, b: nat, n: nat, j: nat)
    requires 0 < n && a < b
    ensures Outstanding(a, b, n, j) == (if a % n == j then 1 else 0) + Outstanding(a + 1, b, n, j)
  {
    if a + 1 < b { OutstandingFront(a, b - 1, n, j); }
  }

  function SumVal(items: seq<Item>): int {
    if items == [] then 0 else SumVal(items[..|items| - 1]) + items[|items| - 1].val
  }

  /** Number of slots whose counter is positive. */
  function Positive(items: seq<Item>): nat {
    if items == [] then 0
    else Positive(items[..|items| - 1]) + if items[|items| - 1].val > 0 then 1 else 0
  }

  lemma {:induction false} Update(items: seq<Item>, j: nat, x: Item)
    requires j < |items|
    ensures SumVal(items[j := x]) == SumVal(items) - items[j].val + x.val
    ensures Positive(items[j := x]) == Positive(items) - (if items[j].val > 0 then 1 else 0) + if x.val > 0 then 1 else 0
  {
    var m := |items| - 1;
    if j == m {
      assert items[j := x][..m] == items[..m];
    } else {
      Update(items[..m], j, x);
      assert items[j := x][..m] == items[..m][j := x];
    }
  }

  lemma {:induction false} PositiveWitness(items: seq<Item>) returns (j: nat)
    requires Positive(items) > 0
    ensures j < |items| && items[j].val > 0
  {
    j := |items| - 1;
    if items[j].val <= 0 { j := PositiveWitness(items[..j]); }
  }

  lemma {:induction false} PositiveBound(items: seq<Item>)
    ensures Positive(items) <= |items|
  {
    if items != [] { PositiveBound(items[..|items| - 1]); }
  }

  lemma {:induction false} OutstandingWitness(a: nat, b: nat, n: nat, j: nat)
    requires 0 < n && Outstanding(a, b, n, j) > 0
    ensures a < b
  {
  }

  /** No ticket close behind b selects the slot of b. */
  lemma {:induction false} NoneNear(a: nat, c: nat, b: nat, n: nat)
    requires 0 < n && a <= c <= b && b - a < n
    ensures Outstanding(a, c, n, b % n) == 0
    decreases c
  {
    if a < c {
      NoneNear(a, c - 1, b, n);
      if (c - 1) % n == b % n { DivMod.CloseEqual(c - 1, b, n); }
    }
  }

  lemma {:induction false} OneSelects(a: nat, b: nat, n: nat, t: nat)
    requires 0 < n && a <= t < b
    ensures Outstanding(a, b, n, t % n) > 0
    decreases b
  {
    if t < b - 1 { OneSelects(a, b - 1, n, t); }
  }

  /** The slot of the next ticket has no outstanding ticket exactly when fewer tickets
      are outstanding than there are slots. */
  lemma RoomAtBack(a: nat, b: nat, n: nat)
    requires 0 < n && a <= b
    ensures Outstanding(a, b, n, b % n) == 0 <==> b - a < n
  {
    if b - a < n {
      NoneNear(a, b, b, n);
    } else {
      OneSelects(a, b, n, b - n);
      DivMod.Shift(b - n, 1, n);
    }
  }

  ghost predicate CountersMatch(items: seq<Item>, a: nat, b: nat)
    requires items != []
  {
    forall j :: 0 <= j < |items| ==> items[j].val == Outstanding(a, b, |items|, j)
  }

  /** The counters of all slots together count the outstanding tickets. */
  lemma {:induction false} SumIsRemain(items: seq<Item>, a: nat, b: nat)
    requires items != [] && a <= b && CountersMatch(items, a, b)
    ensures SumVal(items) == b - a
    decreases b
  {
    if a == b {
      SumZero(items);
    } else {
      var n := |items|;
      var j := (b - 1) % n;
      var before := items[j := items[j].(val := items[j].val - 1)];
      SumIsRemain(before, a, b - 1);
      Update(before, j, items[j]);
      assert before[j := items[j]] == items;
    }
  }

  lemma {:induction false} SumZero(items: seq<Item>)
    requires forall j :: 0 <= j < |items| ==> items[j].val == 0
    ensures SumVal(items) == 0 && Positive(items) == 0
  {
    if items != [] { SumZero(items[..|items| - 1]); }
  }

  // ---- Capacity rounding ---------------------------------------------------

  /** The lowest set bit of a 32-bit word, `(~len + 1) & len`. */
  function LowestBit(len: nat): nat
    requires 0 < len
  {
    if len % 2 == 1 then 1 else 2 * LowestBit(len / 2)
  }

  function Pow2(k: nat): (r: nat)
    ensures r > 0
  {
    if k == 0 then 1 else 2 * Pow2(k - 1)
  }

  lemma {:induction false} LowestBitIsPow2(len: nat) returns (k: nat)
    requires 0 < len
    ensures LowestBit(len) == Pow2(k)
  {
    if len % 2 == 1 {
      k := 0;
    } else {
      k := LowestBitIsPow2(len / 2);
      k := k + 1;
    }
  }

  lemma {:induction false} Pow2Monotone(a: nat, b: nat)
    requires a <= b
    ensures Pow2(a) <= Pow2(b)
    decreases b
  {
    if a < b { Pow2Monotone(a, b - 1); }
  }

  /** n is the smallest power of two that is at least len. */
  ghost predicate RoundsUp(len: nat, n: nat) {
    && len <= n
    && (exists k: nat :: n == Pow2(k))
    && (forall k: nat :: len <= Pow2(k) ==> n <= Pow2(k))
  }

  /** A number that is not its own lowest bit is not a power of two. */
  lemma {:induction false} NotPow2(len: nat, k: nat)
    requires 0 < len && LowestBit(len) != len
    ensures len != Pow2(k)
    decreases len
  {
    if len == Pow2(k) {
      if k > 0 { NotPow2(len / 2, k - 1); }
    }
  }

  /** i is len shifted right by `position`. */
  ghost predicate Shifted(len: nat, i: nat, position: nat) {
    i * Pow2(position) <= len < (i + 1) * Pow2(position)
  }

  lemma TimesGrows(a: nat, b: nat, p: nat)
    requires a <= b
    ensures a * p <= b * p
  {
  }

  lemma Doubled(h: nat, p: nat)
    ensures h * (2 * p) == (2 * h) * p
  {
  }

  lemma Halve(len: nat, i: nat, position: nat)
    requires Shifted(len, i, position) && 0 < i
    ensures Shifted(len, i / 2, position + 1)
    ensures Pow2(position) <= len
  {
    var p, h := Pow2(position), i / 2;
    Doubled(h, p);
    Doubled(h + 1, p);
    TimesGrows(2 * h, i, p);
    TimesGrows(i + 1, 2 * (h + 1), p);
    TimesGrows(1, i, p);
  }

  lemma Rounded(len: nat, position: nat)
    requires 0 < position && Pow2(position - 1) <= len < Pow2(position) && LowestBit(len) != len
    ensures RoundsUp(len, Pow2(position))
  {
    forall k: nat | len <= Pow2(k) ensures Pow2(position) <= Pow2(k) {
      NotPow2(len, k);
      if k < position { Pow2Monotone(k, position - 1); } else { Pow2Monotone(position, k); }
    }
  }

  /** A 32-bit word as the int that the loop of the constructor shifts. */
  function Signed(len: nat): int { if len < 0x8000_0000 then len else len - 0x1_0000_0000 }

  /** i >> k; a negative number keeps its sign. */
  function Shr(i: int, k: nat): int { if k == 0 then i else Shr(i, k - 1) / 2 }

  /** The loop is not entered, or it reaches 0. */
  predicate Ends(len: nat)
    requires 0 < len
  {
    LowestBit(len) == len || len < 0x8000_0000
  }

  lemma {:induction false} NegativeStays(i: int, k: nat)
    requires i < 0
    ensures Shr(i, k) < 0
  {
    if k > 0 { NegativeStays(i, k - 1); }
  }

  lemma {:induction false} ShrFirst(i: int, k: nat)
    ensures Shr(i, k + 1) == Shr(i / 2, k)
  {
    if k > 0 { ShrFirst(i, k - 1); }
  }

  lemma {:induction false} ReachesZero(i: nat) returns (k: nat)
    ensures Shr(i, k) == 0
  {
    k := 0;
    if i > 0 {
      k := ReachesZero(i / 2);
      ShrFirst(i, k);
      k := k + 1;
    }
  }

  /** The constructor returns exactly for these lengths: for any other, the shifted int
      is negative for ever. */
  lemma RoundingEnds(len: nat)
    requires 0 < len < 0x1_0000_0000
    ensures Ends(len) <==> LowestBit(len) == len || exists k: nat :: Shr(Signed(len), k) == 0
  {
    if len < 0x8000_0000 {
      var k := ReachesZero(len);
      assert Shr(Signed(len), k) == 0;
    } else {
      forall k: nat ensures Shr(Signed(len), k) != 0 { NegativeStays(Signed(len), k); }
    }
  }

  /** The length the constructor settles on. */
  method RoundUp(len0: nat) returns (len: nat)
    requires 0 < len0 < 0x1_0000_0000 && Ends(len0)
    ensures RoundsUp(len0, len)
  {
    len := len0;
    if LowestBit(len) != len {
      var position: nat := 0;
      var i := len;
      while i != 0
        invariant Shifted(len, i, position)
        invariant if position == 0 then i == len else Pow2(position - 1) <= len
        decreases i
      {
        Halve(len, i, position);
        position := position + 1;
        i := i / 2;
      }
      Rounded(len, position);
      len := Pow2(position);  // 1 << position
    } else {
      var k := LowestBitIsPow2(len);
    }
  }

  // ---- The queue -----------------------------------------------------------

  class LFQueue {
    var push_: nat
    var pop_: nat
    var queuedItem: int
    var item: array<Item>

    ghost predicate Valid()
      reads this, item
    {
      && 0 < item.Length && pop_ <= push_
      && CountersMatch(item[..], pop_, push_)
      && (forall j :: 0 <= j < item.Length ==> (item[j].data != 0 <==> item[j].val > 0))
      && queuedItem == Positive(item[..])
    }

    /** The slot the next pop works on. */
    function Front(): (j: nat)
      requires 0 < item.Length
      reads this
      ensures j < item.Length
    {
      pop_ % item.Length
    }

    /** The slot the next push works on. */
    function Back(): (j: nat)
      requires 0 < item.Length
      reads this
      ensures j < item.Length
    {
      push_ % item.Length
    }

    constructor (len0: nat)
      requires 0 < len0 < 0x1_0000_0000 && Ends(len0)
      ensures Valid() && fresh(item)
      ensures push_ == pop_ == 0 && queuedItem == 0
      ensures RoundsUp(len0, item.Length)
    {
      var len := RoundUp(len0);
      var buf := new Item[len](_ => Item(0, 0));
      item := buf;
      push_, pop_, queuedItem := 0, 0, 0;
      SumZero(buf[..]);
    }

    /** LFItem::push without blocking: 0 stored, -1 counter was negative, -2 overflow. */
    method ItemPush(j: nat, p: nat) returns (err: int)
      requires j < item.Length
      requires item[j].val == 0 ==> item[j].data == 0
      modifies item
      ensures err == if old(item[j].val) < 0 then -1 else if old(item[j].val) > 0 then -2 else 0
      ensures item[..] == old(item[..])[j := Item(old(item[j].val) + 1, if err == 0 then p else old(item[j].data))]
    {
      var oldVal := item[j].val;
      item[j] := item[j].(val := oldVal + 1);
      if oldVal < 0 {
        err := -1;
      } else if oldVal > 0 {
        err := -2;
      } else {
        item[j] := item[j].(data := p);
        err := 0;
      }
    }

    /** LFQueue::push.  The pointer is stored exactly when fewer pushes are outstanding
        than there are slots, and dropped otherwise; the ticket is taken in both cases. */
    method Push(p: nat)
      requires Valid() && p != 0
      modifies this, item
      ensures Valid() && item == old(item) && pop_ == old(pop_)
      ensures push_ == old(push_) + 1
      ensures var j := old(Back()); var was := old(item[..])[j];
        && (was.val == 0 <==> old(push_ - pop_) < item.Length)
        && item[..] == old(item[..])[j := Item(was.val + 1, if old(push_ - pop_) < item.Length then p else was.data)]
    {
      RoomAtBack(pop_, push_, item.Length);
      var ticket := push_;
      push_ := push_ + 1;
      var j := ticket % item.Length;
      ghost var before := item[..];
      assert before[j].val == Outstanding(pop_, ticket, item.Length, j);
      var err := ItemPush(j, p);
      Update(before, j, item[j]);
      if err == 0 {
        queuedItem := queuedItem + 1;
      }
      assert err != -1;  // the retry of the source with a fresh ticket cannot happen here
    }

    /** LFQueue::pop.  With no outstanding ticket the call would wait for ever, so
        a single thread may only make it while a ticket is outstanding. */
    method Pop() returns (err: int, data: nat)
      requires Valid() && pop_ < push_
      modifies this, item
      ensures Valid() && item == old(item) && push_ == old(push_)
      ensures pop_ == old(pop_) + 1
      ensures var j := old(Front()); var was := old(item[..])[j];
        && was.val >= 1
        && err == (if was.val == 1 then 0 else -1)
        && data == (if was.val == 1 then was.data else 0)
        && item[..] == old(item[..])[j := Item(was.val - 1, if was.val == 1 then 0 else was.data)]
    {
      var ticket := pop_;
      ghost var n := item.Length;
      ghost var before := item[..];
      assert forall j :: 0 <= j < n ==> before[j].val == Outstanding(ticket, push_, n, j);
      forall j | 0 <= j < n
        ensures Outstanding(ticket, push_, n, j) == (if ticket % n == j then 1 else 0) + Outstanding(ticket + 1, push_, n, j)
      {
        OutstandingFront(ticket, push_, n, j);
      }
      pop_ := pop_ + 1;
      var j := ticket % item.Length;
      var oldVal := item[j].val;
      item[j] := item[j].(val := oldVal - 1);
      if oldVal != 1 {
        err, data := -1, 0;
      } else {
        data := item[j].data;
        item[j] := item[j].(data := 0);
        queuedItem := queuedItem - 1;
        err := 0;
      }
      Update(before, j, item[j]);
      assert item[..] == before[j := item[j]];
    }

    /** The next pop finds a positive counter exactly when a ticket is outstanding. */
    lemma PopReady()
      requires Valid()
      ensures item[Front()].val > 0 <==> pop_ < push_
    {
      if pop_ < push_ { OutstandingFront(pop_, push_, item.Length, Front()); }
      assert item[..][Front()].val == Outstanding(pop_, push_, item.Length, Front());
    }

    /** LFQueue::remain, a 32-bit difference: the counters' total. */
    method Remain() returns (r: nat)
      requires Valid()
      ensures r == SumVal(item[..]) % 0x1_0000_0000
    {
      SumIsRemain(item[..], pop_, push_);
      r := (push_ - pop_) % 0x1_0000_0000;
    }

    /** LFQueue::reset never waits, ends, and leaves an empty queue. */
    method Reset()
      requires Valid()
      modifies this, item
      ensures Valid() && item == old(item)
      ensures push_ == pop_ == old(push_) && queuedItem == 0
      ensures forall j :: 0 <= j < item.Length ==> item[j] == Item(0, 0)
    {
      while queuedItem > 0
        invariant Valid() && item == old(item) && push_ == old(push_)
        decreases push_ - pop_
      {
        Outstand();
        var err, data := Pop();
      }
      Drained();
    }

    /** The number of queued items never exceeds the number of slots. */
    lemma QueuedBounded()
      requires Valid()
      ensures 0 <= queuedItem <= item.Length
    {
      PositiveBound(item[..]);
    }

    lemma Outstand()
      requires Valid() && queuedItem > 0
      ensures pop_ < push_
    {
      var j := PositiveWitness(item[..]);
      OutstandingWitness(pop_, push_, item.Length, j);
    }

    lemma Drained()
      requires Valid() && queuedItem <= 0
      ensures push_ == pop_ && queuedItem == 0
      ensures forall j :: 0 <= j < item.Length ==> item[j] == Item(0, 0)
    {
      forall j | 0 <= j < item.Length ensures item[j].val == 0 {
        if item[j].val > 0 { PositiveIf(item[..], j); }
        assert item[..][j].val == Outstanding(pop_, push_, item.Length, j);
      }
      SumZero(item[..]);
      SumIsRemain(item[..], pop_, push_);
    }
  }

  lemma {:induction false} PositiveIf(items: seq<Item>, j: nat)
    requires j < |items| && items[j].val > 0
    ensures Positive(items) > 0
  {
    if j < |items| - 1 { PositiveIf(items[..|items| - 1], j); }
  }
}
