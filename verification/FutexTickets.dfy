/**
  What becomes of a push ticket, in every run of any producers and poppers: the balance
  of increments and decrements on its slot, at the moment of its own increment, decides.
*/
module FutexTickets {
  import opened FutexQueue

  // ---- Counting increments and decrements -----------------------------------

  /** The next instruction of a thread at pc adds 1 to the counter of its slot. */
  predicate Increments(pc: Pc, slot: Slot, ch: Choice) {
    (pc.PushCas? && slot.val == pc.x) || pc.PushAdd? || (pc.PushWait? && ch.Expire?)
  }

  predicate Decrements(pc: Pc, slot: Slot, ch: Choice) {
    (pc.PopCas? && slot.val == pc.x) || (pc.PopWait? && ch.Expire?)
  }

  predicate IncrementsAt(s: State, i: nat, ch: Choice, j: nat)
    requires i < |s.threads| && 0 < s.n == |s.slots|
  {
    OnSlot(s.threads[i]) && SlotOf(s, i) == j && Increments(s.threads[i], s.slots[j], ch)
  }

  predicate DecrementsAt(s: State, i: nat, ch: Choice, j: nat)
    requires i < |s.threads| && 0 < s.n == |s.slots|
  {
    OnSlot(s.threads[i]) && SlotOf(s, i) == j && Decrements(s.threads[i], s.slots[j], ch)
  }

  /** How often the counter of slot j has been incremented in a run from s. */
  function Incs(s: State, sched: Schedule, j: nat): nat
    requires ValidSchedule(sched, |s.threads|) && 0 < s.n == |s.slots|
    decreases |sched|
  {
    if sched == [] then 0
    else
      var m := |sched| - 1;
      Incs(s, sched[..m], j) + if IncrementsAt(Run(s, sched[..m]), sched[m].0, sched[m].1, j) then 1 else 0
  }

  function Decs(s: State, sched: Schedule, j: nat): nat
    requires ValidSchedule(sched, |s.threads|) && 0 < s.n == |s.slots|
    decreases |sched|
  {
    if sched == [] then 0
    else
      var m := |sched| - 1;
      Decs(s, sched[..m], j) + if DecrementsAt(Run(s, sched[..m]), sched[m].0, sched[m].1, j) then 1 else 0
  }

  lemma ItemCounts(pc: Pc, slot: Slot, ch: Choice)
    requires OnSlot(pc)
    ensures Item(pc, slot, ch).slot.val ==
      slot.val + (if Increments(pc, slot, ch) then 1 else 0) - if Decrements(pc, slot, ch) then 1 else 0
  {
  }

  lemma StepCounts(s: State, i: nat, ch: Choice, j: nat)
    requires i < |s.threads| && 0 < s.n == |s.slots| && j < s.n
    ensures Exec(s, i, ch).slots[j].val ==
      s.slots[j].val + (if IncrementsAt(s, i, ch, j) then 1 else 0) - if DecrementsAt(s, i, ch, j) then 1 else 0
  {
    if OnSlot(s.threads[i]) {
      hide Item, Increments, Decrements;
      ItemCounts(s.threads[i], s.slots[SlotOf(s, i)], ch);
      assert Exec(s, i, ch) == Apply(s, i, EffectOf(s, i, ch));
      assert Exec(s, i, ch).slots == s.slots[SlotOf(s, i) := EffectOf(s, i, ch).slot];
    }
  }

  /** A slot's counter is the surplus of increments over decrements. */
  lemma {:induction false} CounterIsSurplus(s: State, sched: Schedule, j: nat)
    requires ValidSchedule(sched, |s.threads|) && 0 < s.n == |s.slots| && j < s.n
    ensures Run(s, sched).slots[j].val == s.slots[j].val + Incs(s, sched, j) - Decs(s, sched, j)
    decreases |sched|
  {
    if sched != [] {
      hide Exec, IncrementsAt, DecrementsAt;
      var m := |sched| - 1;
      CounterIsSurplus(s, sched[..m], j);
      StepCounts(Run(s, sched[..m]), sched[m].0, sched[m].1, j);
    }
  }

  // ---- The moment of decision -----------------------------------------------

  /** Thread i looks for the slot of ticket t. */
  predicate Seeks(s: State, i: nat, t: nat) {
    i < |s.threads| && Seeking(s.threads[i]) && s.threads[i].t == t
  }

  /** Step k of the run is the increment that the holder of ticket t makes. */
  ghost predicate Decides(s: State, sched: Schedule, k: nat, t: nat)
    requires ValidSchedule(sched, |s.threads|) && 0 < s.n == |s.slots|
  {
    k < |sched| &&
    var r := Run(s, sched[..k]);
    Seeks(r, sched[k].0, t) && IncrementsAt(r, sched[k].0, sched[k].1, t % r.n)
  }

  /** Increments minus decrements on the slot of ticket t before step k. */
  function Surplus(s: State, sched: Schedule, k: nat, t: nat): int
    requires ValidSchedule(sched, |s.threads|) && 0 < s.n == |s.slots| && k <= |sched|
  {
    Incs(s, sched[..k], t % s.n) - Decs(s, sched[..k], t % s.n)
  }

  /** The program counter of the thread of step k after that step. */
  function After(s: State, sched: Schedule, k: nat): Pc
    requires ValidSchedule(sched, |s.threads|) && 0 < s.n == |s.slots| && k < |sched|
  {
    Exec(Run(s, sched[..k]), sched[k].0, sched[k].1).threads[sched[k].0]
  }

  /** The increment stores, drops or retries by the sign of the counter it found. */
  lemma SeekerStep(s: State, i: nat, ch: Choice)
    requires Shape(s) && i < |s.threads| && Seeking(s.threads[i])
    ensures var pc, j := s.threads[i], s.threads[i].t % s.n;
      var r := Exec(s, i, ch);
      if IncrementsAt(s, i, ch, j) then
        && (s.slots[j].val == 0 <==> r.threads[i] == PushStore(pc.t, pc.p))
        && (s.slots[j].val > 0 <==> r.threads[i] == Idle)
        && (s.slots[j].val < 0 <==> r.threads[i] == PushTicket(pc.p, pc.block))
        && (pc.t in r.place <==> pc.t in s.place || s.slots[j].val == 0)
      else Seeks(r, i, pc.t) && r.place == s.place
  {
    var e := EffectOf(s, i, ch);
    assert Exec(s, i, ch) == Apply(s, i, e);
    assert Apply(s, i, e).threads[i] == e.pc;
  }

  // ---- One decision for every ticket ------------------------------------------

  lemma OthersUntouched(s: State, i: nat, ch: Choice, k: nat)
    requires i < |s.threads| && 0 < s.n == |s.slots| && k < |s.threads| && k != i
    ensures Exec(s, i, ch).threads[k] == s.threads[k]
  {
    if OnSlot(s.threads[i]) { assert Exec(s, i, ch) == Apply(s, i, EffectOf(s, i, ch)); }
  }

  /** What is known of ticket t. */
  ghost predicate SameFor(s: State, r: State, t: nat) {
    && s.push <= r.push && |r.threads| == |s.threads|
    && (t in r.place <==> t in s.place)
    && (forall l :: 0 <= l < |s.threads| ==> (Seeks(r, l, t) <==> Seeks(s, l, t)))
  }

  lemma OtherItem(s: State, i: nat, ch: Choice, t: nat)
    requires Inv(s) && i < |s.threads| && OnSlot(s.threads[i]) && !Seeks(s, i, t)
    ensures SameFor(s, Exec(s, i, ch), t)
  {
    var e := EffectOf(s, i, ch);
    ItemExplained(s.threads[i], s.slots[SlotOf(s, i)], ch);
    assert ThreadHome(s, i) && SlotHome(s, SlotOf(s, i));
    assert Exec(s, i, ch) == Apply(s, i, e);
    hide Item, Shape, SlotsOk, Balanced;
    assert Apply(s, i, e).threads == s.threads[i := e.pc];
  }

  /** Only the thread that holds a ticket decides its fate. */
  lemma OtherStep(s: State, i: nat, ch: Choice, t: nat)
    requires Inv(s) && i < |s.threads| && t < s.push && !Seeks(s, i, t)
    ensures SameFor(s, Exec(s, i, ch), t)
  {
    if OnSlot(s.threads[i]) { OtherItem(s, i, ch, t); }
  }

  lemma PushGrows(s: State, i: nat, ch: Choice)
    requires i < |s.threads| && 0 < s.n == |s.slots|
    ensures Exec(s, i, ch).push == s.push + if s.threads[i].PushTicket? then 1 else 0
    ensures s.threads[i].PushTicket? ==> Seeks(Exec(s, i, ch), i, s.push) && Exec(s, i, ch).place == s.place
  {
    if OnSlot(s.threads[i]) { assert Exec(s, i, ch) == Apply(s, i, EffectOf(s, i, ch)); }
  }

  lemma {:induction false} PushGrowsRun(s: State, sched: Schedule, k: nat)
    requires ValidSchedule(sched, |s.threads|) && 0 < s.n == |s.slots| && k <= |sched|
    ensures Run(s, sched[..k]).push <= Run(s, sched).push
    decreases |sched|
  {
    if k < |sched| {
      var m := |sched| - 1;
      assert sched[..m][..k] == sched[..k];
      PushGrowsRun(s, sched[..m], k);
      PushGrows(Run(s, sched[..m]), sched[m].0, sched[m].1);
    } else {
      assert sched[..k] == sched;
    }
  }

  lemma DecidesPrefix(s: State, sched: Schedule, m: nat, k: nat, t: nat)
    requires ValidSchedule(sched, |s.threads|) && 0 < s.n == |s.slots| && k < m <= |sched|
    ensures Decides(s, sched[..m], k, t) <==> Decides(s, sched, k, t)
    ensures Surplus(s, sched[..m], k, t) == Surplus(s, sched, k, t)
    ensures After(s, sched[..m], k) == After(s, sched, k)
  {
    assert sched[..m][..k] == sched[..k];
  }

  lemma SeekerIsOne(s: State, i: nat, l: nat, t: nat)
    requires Inv(s) && Seeks(s, i, t) && Seeks(s, l, t)
    ensures i == l && t < s.push && t !in s.place
  {
    assert PcOk(s, s.threads[i]) && ThreadHome(s, i);
    assert i < l ==> !Clash(s.threads[i], s.threads[l]);
    assert l < i ==> !Clash(s.threads[l], s.threads[i]);
  }

  /** Ticket t after a run: still looked for and undecided, or decided once, and in place
      exactly when the surplus was zero. */
  ghost predicate Settled(s: State, sched: Schedule, t: nat, k: int)
    requires ValidSchedule(sched, |s.threads|) && 0 < s.n == |s.slots|
  {
    var r := Run(s, sched);
    && (forall l: nat :: Decides(s, sched, l, t) ==> l == k)
    && if k < 0 then (exists i :: Seeks(r, i, t)) && t !in r.place
       else
         && Decides(s, sched, k, t) && (forall i: nat :: !Seeks(r, i, t))
         && (t in r.place <==> Surplus(s, sched, k, t) == 0)
  }

  lemma NotDecidedYet(n: nat, threadCount: nat, sched: Schedule, t: nat, l: nat)
    requires 0 < n && ValidSchedule(sched, threadCount) && Decides(Init(n, threadCount), sched, l, t)
    ensures t < Run(Init(n, threadCount), sched[..l]).push <= Run(Init(n, threadCount), sched).push
  {
    InvInit(n, threadCount);
    InvRun(Init(n, threadCount), sched[..l]);
    var r := Run(Init(n, threadCount), sched[..l]);
    SeekerIsOne(r, sched[l].0, sched[l].0, t);
    PushGrowsRun(Init(n, threadCount), sched, l);
  }

  /** The step that is taken last, when ticket t had been issued before. */
  lemma SettleStep(s0: State, sched: Schedule, t: nat, k: int) returns (k1: int)
    requires ValidSchedule(sched, |s0.threads|) && 0 < s0.n == |s0.slots| && sched != []
    requires var before := sched[..|sched| - 1];
      Inv(Run(s0, before)) && t < Run(s0, before).push && Settled(s0, before, t, k) && k < |before|
    requires forall j :: 0 <= j < s0.n ==> s0.slots[j].val == 0
    ensures Settled(s0, sched, t, k1) && k1 < |sched|
  {
    hide Exec, Inv, Incs, Decs, IncrementsAt, Seeking;
    var m := |sched| - 1;
    var r, i, ch := Run(s0, sched[..m]), sched[m].0, sched[m].1;
    forall l: nat | l < m ensures Decides(s0, sched, l, t) <==> Decides(s0, sched[..m], l, t) {
      DecidesPrefix(s0, sched, m, l, t);
    }
    if k >= 0 { DecidesPrefix(s0, sched, m, k, t); }
    k1 := k;
    if Seeks(r, i, t) {
      OwnStep(s0, sched, t);
      if IncrementsAt(r, i, ch, t % r.n) { k1 := m; }
    } else {
      OtherStep(r, i, ch, t);
    }
  }

  /** The last step is one of the holder of ticket t. */
  lemma OwnStep(s0: State, sched: Schedule, t: nat)
    requires ValidSchedule(sched, |s0.threads|) && 0 < s0.n == |s0.slots| && sched != []
    requires forall j :: 0 <= j < s0.n ==> s0.slots[j].val == 0
    requires var m := |sched| - 1; Inv(Run(s0, sched[..m])) && Seeks(Run(s0, sched[..m]), sched[m].0, t)
    ensures var m := |sched| - 1; var q := Run(s0, sched);
      if Decides(s0, sched, m, t) then
        (forall l: nat :: !Seeks(q, l, t)) && (t in q.place <==> Surplus(s0, sched, m, t) == 0)
      else Seeks(q, sched[m].0, t) && t !in q.place
  {
    var m := |sched| - 1;
    var r, i, ch := Run(s0, sched[..m]), sched[m].0, sched[m].1;
    SeekerIsOne(r, i, i, t);
    SeekerStep(r, i, ch);
    CounterIsSurplus(s0, sched[..m], t % r.n);
    hide Exec, Incs, Decs, IncrementsAt, SlotsOk, Home, PcOk;
    forall l: nat | l != i ensures !Seeks(Run(s0, sched), l, t) {
      if l < |r.threads| {
        OthersUntouched(r, i, ch, l);
        if Seeks(r, l, t) { SeekerIsOne(r, i, l, t); }
      }
    }
  }

  /** Every ticket that was taken is still looked for, or was decided exactly once. */
  lemma {:induction false} EveryTicketSettles(n: nat, threadCount: nat, sched: Schedule, t: nat) returns (k: int)
    requires 0 < n && ValidSchedule(sched, threadCount) && t < Run(Init(n, threadCount), sched).push
    ensures k < |sched| && Settled(Init(n, threadCount), sched, t, k)
    decreases |sched|
  {
    var s0 := Init(n, threadCount);
    var m := |sched| - 1;
    var r := Run(s0, sched[..m]);
    InvInit(n, threadCount);
    InvRun(s0, sched[..m]);
    PushGrows(r, sched[m].0, sched[m].1);
    if t < r.push {
      k := EveryTicketSettles(n, threadCount, sched[..m], t);
      k := SettleStep(s0, sched, t, k);
    } else {
      k := -1;
      FreshTicket(n, threadCount, sched, t);
    }
  }

  /** The last step takes ticket t. */
  lemma FreshTicket(n: nat, threadCount: nat, sched: Schedule, t: nat)
    requires 0 < n && ValidSchedule(sched, threadCount) && sched != []
    requires var r := Run(Init(n, threadCount), sched[..|sched| - 1]);
      r.push == t && r.threads[sched[|sched| - 1].0].PushTicket?
    ensures Settled(Init(n, threadCount), sched, t, -1)
  {
    var s0 := Init(n, threadCount);
    var m := |sched| - 1;
    var r := Run(s0, sched[..m]);
    InvInit(n, threadCount);
    InvRun(s0, sched[..m]);
    PushGrows(r, sched[m].0, sched[m].1);
    assert t in r.place ==> PlaceHome(r, t);
    hide Exec, Inv, Incs, Decs, IncrementsAt;
    forall l: nat ensures !Decides(s0, sched, l, t) {
      if Decides(s0, sched, l, t) {
        NotDecidedYet(n, threadCount, sched, t, l);
        if l < m {
          assert sched[..m][..l] == sched[..l];
          PushGrowsRun(s0, sched[..m], l);
        }
      }
    }
    assert Seeks(Run(s0, sched), sched[m].0, t);
  }

  // ---- Stored, dropped, retried -------------------------------------------------

  /** The holder of ticket t has given it up in step k: its push has returned. */
  ghost predicate ReturnsWithout(s: State, sched: Schedule, k: nat, t: nat)
    requires ValidSchedule(sched, |s.threads|) && 0 < s.n == |s.slots|
  {
    k < |sched| && Seeks(Run(s, sched[..k]), sched[k].0, t) && After(s, sched, k) == Idle
  }

  /** The holder of ticket t has given it up in step k for a fresh ticket. */
  ghost predicate RetriesAt(s: State, sched: Schedule, k: nat, t: nat)
    requires ValidSchedule(sched, |s.threads|) && 0 < s.n == |s.slots|
  {
    k < |sched| && Seeks(Run(s, sched[..k]), sched[k].0, t) && After(s, sched, k).PushTicket?
  }

  /** Step k of a run, seen from ticket t. */
  lemma StepDecides(n: nat, threadCount: nat, sched: Schedule, k: nat, t: nat)
    requires 0 < n && ValidSchedule(sched, threadCount) && k < |sched|
    requires Seeks(Run(Init(n, threadCount), sched[..k]), sched[k].0, t)
    ensures var s0 := Init(n, threadCount); var x := Surplus(s0, sched, k, t);
      && (ReturnsWithout(s0, sched, k, t) <==> Decides(s0, sched, k, t) && x > 0)
      && (RetriesAt(s0, sched, k, t) <==> Decides(s0, sched, k, t) && x < 0)
      && (After(s0, sched, k).PushStore? <==> Decides(s0, sched, k, t) && x == 0)
  {
    var s0 := Init(n, threadCount);
    InvInit(n, threadCount);
    InvRun(s0, sched[..k]);
    CounterIsSurplus(s0, sched[..k], t % n);
    var r := Run(s0, sched[..k]);
    SeekerStep(r, sched[k].0, sched[k].1);
  }

  /** A pointer is accepted exactly when, at the moment of its own increment, as many
      increments as decrements have been made on its slot. */
  lemma StoredExactly(n: nat, threadCount: nat, sched: Schedule, t: nat)
    requires 0 < n && ValidSchedule(sched, threadCount) && t < Run(Init(n, threadCount), sched).push
    ensures var s0 := Init(n, threadCount);
      t in Run(s0, sched).place <==> exists k: nat :: Decides(s0, sched, k, t) && Surplus(s0, sched, k, t) == 0
  {
    var k := EveryTicketSettles(n, threadCount, sched, t);
  }

  /** A push is dropped - it returns without its pointer being accepted - exactly when more
      increments than decrements have been made at that moment ... */
  lemma DroppedExactly(n: nat, threadCount: nat, sched: Schedule, t: nat)
    requires 0 < n && ValidSchedule(sched, threadCount)
    ensures var s0 := Init(n, threadCount);
      (exists k: nat :: ReturnsWithout(s0, sched, k, t))
      <==> exists k: nat :: Decides(s0, sched, k, t) && Surplus(s0, sched, k, t) > 0
    ensures forall k: nat :: ReturnsWithout(Init(n, threadCount), sched, k, t) ==>
      t !in Run(Init(n, threadCount), sched).place
  {
    hide Run, Exec, Incs, Decs, IncrementsAt;
    var s0 := Init(n, threadCount);
    forall k: nat | k < |sched| && Seeks(Run(s0, sched[..k]), sched[k].0, t)
      ensures ReturnsWithout(s0, sched, k, t) <==> Decides(s0, sched, k, t) && Surplus(s0, sched, k, t) > 0
    {
      StepDecides(n, threadCount, sched, k, t);
    }
    forall k: nat | ReturnsWithout(s0, sched, k, t) ensures t !in Run(s0, sched).place {
      StepDecides(n, threadCount, sched, k, t);
      NotDecidedYet(n, threadCount, sched, t, k);
      var l := EveryTicketSettles(n, threadCount, sched, t);
      assert Decides(s0, sched, k, t);
    }
  }

  /** ... and it goes on with a fresh ticket exactly when fewer have been made. */
  lemma RetriedExactly(n: nat, threadCount: nat, sched: Schedule, t: nat)
    requires 0 < n && ValidSchedule(sched, threadCount)
    ensures var s0 := Init(n, threadCount);
      (exists k: nat :: RetriesAt(s0, sched, k, t))
      <==> exists k: nat :: Decides(s0, sched, k, t) && Surplus(s0, sched, k, t) < 0
  {
    hide Run, Exec, Incs, Decs, IncrementsAt;
    var s0 := Init(n, threadCount);
    forall k: nat | k < |sched| && Seeks(Run(s0, sched[..k]), sched[k].0, t)
      ensures RetriesAt(s0, sched, k, t) <==> Decides(s0, sched, k, t) && Surplus(s0, sched, k, t) < 0
    {
      StepDecides(n, threadCount, sched, k, t);
    }
  }
}
