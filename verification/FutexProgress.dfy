/**
  What a thread of the futex queue achieves by its own instructions, with no timeout: how
  far a pop and a push get when nobody interferes, and when they wait.
*/
module FutexProgress {
  import opened FutexQueue
  import opened FutexFifo

  /** k consecutive instructions of thread i. */
  function Steps(i: nat, k: nat): Schedule { seq(k, _ => (i, Go)) }

  /** The state they lead to. */
  function Alone(s: State, i: nat, k: nat): (r: State)
    requires i < |s.threads| && 0 < s.n == |s.slots|
    ensures r.n == s.n && |r.slots| == |s.slots| && |r.threads| == |s.threads|
  {
    if k == 0 then s else Exec(Alone(s, i, k - 1), i, Go)
  }

  lemma {:induction false} AloneIsRun(s: State, i: nat, k: nat)
    requires i < |s.threads| && 0 < s.n == |s.slots|
    ensures ValidSchedule(Steps(i, k), |s.threads|) && Run(s, Steps(i, k)) == Alone(s, i, k)
    decreases k
  {
    hide Exec;
    if k > 0 {
      AloneIsRun(s, i, k - 1);
      assert Steps(i, k)[..k - 1] == Steps(i, k - 1);
    }
  }

  lemma {:induction false} AloneOn(s: State, i: nat, d: nat, e: nat)
    requires i < |s.threads| && 0 < s.n == |s.slots|
    ensures Alone(s, i, d + e) == Alone(Alone(s, i, d), i, e)
    decreases e
  {
    hide Exec;
    if e > 0 { AloneOn(s, i, d, e - 1); }
  }

  lemma {:induction false} InvAlone(s: State, i: nat, k: nat)
    requires Inv(s) && i < |s.threads|
    ensures Inv(Alone(s, i, k))
    decreases k
  {
    hide Home, SlotsOk, PcOk, Exec;
    if k > 0 {
      InvAlone(s, i, k - 1);
      InvStep(Alone(s, i, k - 1), i, Go);
    }
  }

  lemma Next(s: State, i: nat)
    requires i < |s.threads| && 0 < s.n == |s.slots|
    ensures Alone(s, i, 1) == Exec(s, i, Go)
  {
    assert Alone(s, i, 0) == s;
  }

  /** A thread that is done, or spins at a cell that stays as it is. */
  lemma {:induction false} Stands(s: State, i: nat, k: nat)
    requires i < |s.threads| && 0 < s.n == |s.slots| && Exec(s, i, Go) == s
    ensures Alone(s, i, k) == s
    decreases k
  {
    hide Exec;
    if k > 0 { Stands(s, i, k - 1); }
  }

  // ---- Pops --------------------------------------------------------------------

  /** The thread is about to decrement the counter of its slot. */
  predicate Decrementing(pc: Pc) { pc.PopLoad? || pc.PopCas? || pc.PopWait? }

  function SlotAt(s: State, i: nat): Slot
    requires i < |s.threads| && OnSlot(s.threads[i]) && 0 < s.n == |s.slots|
  {
    s.slots[SlotOf(s, i)]
  }

  /** One instruction of a popper at a positive counter. */
  lemma PopStep(s: State, i: nat)
    requires i < |s.threads| && 0 < s.n == |s.slots| && Decrementing(s.threads[i]) && SlotAt(s, i).val > 0
    ensures var pc, slot, j := s.threads[i], SlotAt(s, i), SlotOf(s, i); var r := Exec(s, i, Go);
      if pc == PopCas(pc.q, slot.val) then
        var next := if slot.val == 1 then PopTake(pc.q) else Idle;
        && r.threads == s.threads[i := next] && r.slots[j].val == slot.val - 1 && r.slots[j].data == slot.data
        && r.returned == s.returned
      else r == s.(threads := s.threads[i := if pc.PopLoad? then PopCas(pc.q, slot.val) else PopLoad(pc.q)])
  {
    assert s.slots[SlotOf(s, i) := SlotAt(s, i)] == s.slots;
  }

  /** Instructions in front of the decrement. */
  function ToDecrement(pc: Pc, val: int): nat
    requires Decrementing(pc)
  {
    if pc.PopLoad? then 1 else if pc == PopCas(pc.q, val) then 0 else 2
  }

  /** At a positive counter the decrement is made within three instructions; a popper that
      found 1 then owns the item, one that found more returns. */
  lemma Decrements(s: State, i: nat) returns (d: nat)
    requires i < |s.threads| && 0 < s.n == |s.slots| && Decrementing(s.threads[i]) && SlotAt(s, i).val > 0
    ensures var pc, slot, j := s.threads[i], SlotAt(s, i), SlotOf(s, i); var r := Alone(s, i, d);
      var next := if slot.val == 1 then PopTake(pc.q) else Idle;
      && d == ToDecrement(pc, slot.val) + 1 && r.threads == s.threads[i := next] && r.returned == s.returned
      && r.slots[j].val == slot.val - 1 && r.slots[j].data == slot.data
    decreases ToDecrement(s.threads[i], SlotAt(s, i).val)
  {
    hide Exec;
    PopStep(s, i);
    Next(s, i);
    var pc := s.threads[i];
    if pc == PopCas(pc.q, SlotAt(s, i).val) {
      d := 1;
    } else {
      var r := Exec(s, i, Go);
      var e := Decrements(r, i);
      AloneOn(s, i, 1, e);
      d := 1 + e;
    }
  }

  predicate Decremented(pc: Pc) { pc.Idle? || pc.PopTake? || pc.PopGrab? }

  lemma CounterStep(s: State, i: nat, j: nat)
    requires i < |s.threads| && 0 < s.n == |s.slots| && j < s.n && Decremented(s.threads[i])
    ensures Exec(s, i, Go).slots[j].val == s.slots[j].val && Decremented(Exec(s, i, Go).threads[i])
  {
  }

  /** Behind the decrement the popper touches no counter. */
  lemma {:induction false} CounterStays(s: State, i: nat, k: nat, j: nat)
    requires i < |s.threads| && 0 < s.n == |s.slots| && j < s.n
    requires Decremented(s.threads[i])
    ensures Alone(s, i, k).slots[j].val == s.slots[j].val && Decremented(Alone(s, i, k).threads[i])
    decreases k
  {
    hide Exec, Decremented;
    if k > 0 {
      CounterStays(s, i, k - 1, j);
      CounterStep(Alone(s, i, k - 1), i, j);
    }
  }

  /** A pop at a positive counter, by its own instructions alone: three are enough for the
      decrement, and there is only the one. */
  lemma PopDecrements(s: State, i: nat, k: nat)
    requires i < |s.threads| && 0 < s.n == |s.slots| && Decrementing(s.threads[i]) && SlotAt(s, i).val > 0 && 3 <= k
    ensures Run(s, Steps(i, k)).slots[SlotOf(s, i)].val == SlotAt(s, i).val - 1
  {
    hide Exec, Run, Alone;
    AloneIsRun(s, i, k);
    var d := Decrements(s, i);
    AloneOn(s, i, d, k - d);
    CounterStays(Alone(s, i, d), i, k - d, SlotOf(s, i));
  }

  lemma IdleStands(s: State, i: nat)
    requires i < |s.threads| && 0 < s.n == |s.slots| && s.threads[i] == Idle
    ensures Exec(s, i, Go) == s
  {
  }

  lemma TakeStep(s: State, i: nat)
    requires i < |s.threads| && 0 < s.n == |s.slots| && (s.threads[i].PopTake? || s.threads[i].PopGrab?)
    requires SlotAt(s, i).data != 0
    ensures var pc, slot := s.threads[i], SlotAt(s, i); var r := Exec(s, i, Go);
      if pc == PopGrab(pc.q, slot.data) then r.threads[i] == Idle && pc.q in r.returned && r.returned[pc.q] == slot.data
      else r == s.(threads := s.threads[i := if pc.PopTake? then PopGrab(pc.q, slot.data) else PopTake(pc.q)])
  {
    assert s.slots[SlotOf(s, i) := SlotAt(s, i)] == s.slots;
  }

  function ToTake(pc: Pc, data: nat): nat
    requires pc.PopTake? || pc.PopGrab?
  {
    if pc.PopTake? then 1 else if pc == PopGrab(pc.q, data) then 0 else 2
  }

  /** A popper that owns the item of a full cell returns it within three instructions. */
  lemma Takes(s: State, i: nat) returns (d: nat)
    requires i < |s.threads| && 0 < s.n == |s.slots| && (s.threads[i].PopTake? || s.threads[i].PopGrab?)
    requires SlotAt(s, i).data != 0
    ensures var pc, slot := s.threads[i], SlotAt(s, i); var r := Alone(s, i, d);
      d == ToTake(pc, slot.data) + 1 && r.threads[i] == Idle && pc.q in r.returned && r.returned[pc.q] == slot.data
    decreases ToTake(s.threads[i], SlotAt(s, i).data)
  {
    hide Exec;
    TakeStep(s, i);
    Next(s, i);
    var pc := s.threads[i];
    if pc == PopGrab(pc.q, SlotAt(s, i).data) {
      d := 1;
    } else {
      var e := Takes(Exec(s, i, Go), i);
      AloneOn(s, i, 1, e);
      d := 1 + e;
    }
  }

  /** A pop that has its ticket and finds the counter at 1 and the cell full returns what is
      in the cell, after five of its own instructions or any larger number. */
  lemma PopReturns(s: State, i: nat, k: nat)
    requires i < |s.threads| && 0 < s.n == |s.slots| && Decrementing(s.threads[i]) && 5 <= k
    requires SlotAt(s, i).val == 1 && SlotAt(s, i).data != 0
    ensures var q, r := s.threads[i].q, Run(s, Steps(i, k));
      r.threads[i] == Idle && q in r.returned && r.returned[q] == SlotAt(s, i).data
  {
    hide Exec, Run, Alone;
    AloneIsRun(s, i, k);
    var d := Decrements(s, i);
    var m := Alone(s, i, d);
    var e := Takes(m, i);
    AloneOn(s, i, d, e);
    AloneOn(s, i, d + e, k - (d + e));
    IdleStands(Alone(s, i, d + e), i);
    Stands(Alone(s, i, d + e), i, k - (d + e));
  }

  /** A pop at a counter that is not positive waits: it changes nothing, however long ... */
  lemma {:induction false} PopWaits(s: State, i: nat, k: nat)
    requires Inv(s) && i < |s.threads| && Decrementing(s.threads[i]) && SlotAt(s, i).val <= 0
    ensures var r := Alone(s, i, k);
      r == s.(threads := r.threads) && Decrementing(r.threads[i]) && Ticket(r.threads[i]) == Ticket(s.threads[i])
    decreases k
  {
    hide Exec, Home, SlotsOk, PcOk;
    if k > 0 {
      PopWaits(s, i, k - 1);
      var m := Alone(s, i, k - 1);
      InvAlone(s, i, k - 1);
      if m.threads[i].PopCas? { CasIsPositive(m, i); }
      WaitStep(m, i);
    }
  }

  lemma CasIsPositive(s: State, i: nat)
    requires Inv(s) && i < |s.threads| && s.threads[i].PopCas?
    ensures s.threads[i].x > 0
  {
    assert PcOk(s, s.threads[i]);
  }

  lemma WaitStep(s: State, i: nat)
    requires 0 < s.n == |s.slots| && i < |s.threads| && Decrementing(s.threads[i]) && SlotAt(s, i).val <= 0
    requires s.threads[i].PopCas? ==> s.threads[i].x > 0
    ensures var r := Exec(s, i, Go);
      r == s.(threads := r.threads) && Decrementing(r.threads[i]) && Ticket(r.threads[i]) == Ticket(s.threads[i])
  {
    assert s.slots[SlotOf(s, i) := SlotAt(s, i)] == s.slots;
  }

  /** ... until its wait expires: two instructions lead it to the wait, and there the timeout
      decrements the counter all the same and ends the pop with nothing. */
  lemma PopTimesOut(s: State, i: nat) returns (d: nat)
    requires Inv(s) && i < |s.threads| && Decrementing(s.threads[i]) && SlotAt(s, i).val <= 0
    ensures d <= 2 && Alone(s, i, d) == s.(threads := s.threads[i := PopWait(s.threads[i].q)])
    ensures var j, r := SlotOf(s, i), Exec(Alone(s, i, d), i, Expire);
      && r.threads == s.threads[i := Idle] && r.returned == s.returned && r.place == s.place
      && r.slots == s.slots[j := s.slots[j].(val := s.slots[j].val - 1)]
  {
    hide Home, SlotsOk;
    var pc := s.threads[i];
    assert s.slots[SlotOf(s, i) := SlotAt(s, i)] == s.slots;
    assert s.threads[i := pc] == s.threads;
    if pc.PopWait? {
      d := 0;
    } else if pc.PopLoad? {
      d := 1;
      Next(s, i);
    } else {
      d := 2;
      assert PcOk(s, pc);
      CasReloads(s, i);
      Next(s, i);
      AloneOn(s, i, 1, 1);
      Next(Exec(s, i, Go), i);
    }
    ExpiredPop(Alone(s, i, d), i);
  }

  lemma CasReloads(s: State, i: nat)
    requires 0 < s.n == |s.slots| && i < |s.threads| && s.threads[i].PopCas? && s.threads[i].x != SlotAt(s, i).val
    ensures Exec(s, i, Go) == s.(threads := s.threads[i := PopLoad(s.threads[i].q)])
  {
    assert s.slots[SlotOf(s, i) := SlotAt(s, i)] == s.slots;
  }

  lemma ExpiredPop(s: State, i: nat)
    requires 0 < s.n == |s.slots| && i < |s.threads| && s.threads[i].PopWait? && SlotAt(s, i).val <= 0
    ensures var j, r := SlotOf(s, i), Exec(s, i, Expire);
      && r.threads == s.threads[i := Idle] && r.returned == s.returned && r.place == s.place
      && r.slots == s.slots[j := s.slots[j].(val := s.slots[j].val - 1)]
  {
  }

  // ---- Pushes ------------------------------------------------------------------

  /** Instructions in front of the increment. */
  function ToIncrement(pc: Pc, val: int): nat
    requires Seeking(pc)
  {
    if pc.PushLoad? then 1 else if pc.PushAdd? || (pc.PushCas? && pc.x == val) then 0 else 2
  }

  /** Where the increment leads, by the value that it replaces. */
  function Decided(pc: Pc, val: int): Pc
    requires Seeking(pc)
  {
    if val < 0 then PushTicket(pc.p, pc.block) else if val > 0 then Idle else PushStore(pc.t, pc.p)
  }

  /** The state behind the increment of thread i. */
  ghost predicate Incremented(s: State, r: State, i: nat)
    requires i < |s.threads| && Seeking(s.threads[i]) && 0 < s.n == |s.slots|
  {
    var pc, slot, j := s.threads[i], SlotAt(s, i), SlotOf(s, i);
    && r.threads == s.threads[i := Decided(pc, slot.val)] && r.push == s.push && r.issued == s.issued && r.n == s.n
    && |r.slots| == |s.slots| && r.slots[j].val == slot.val + 1 && r.slots[j].data == slot.data
    && (forall l :: 0 <= l < s.n && l != j ==> r.slots[l] == s.slots[l])
    && r.place == if slot.val == 0 then s.place[pc.t := Pending(i)] else s.place
  }

  lemma PushStep(s: State, i: nat)
    requires i < |s.threads| && 0 < s.n == |s.slots| && Seeking(s.threads[i])
    requires !s.threads[i].block || SlotAt(s, i).val <= 0
    ensures var pc, slot := s.threads[i], SlotAt(s, i); var r := Exec(s, i, Go);
      if ToIncrement(pc, slot.val) == 0 then Incremented(s, r, i)
      else
        && r == s.(threads := s.threads[i := r.threads[i]]) && Seeking(r.threads[i])
        && r.threads[i].t == pc.t && r.threads[i].p == pc.p && r.threads[i].block == pc.block
        && ToIncrement(r.threads[i], slot.val) == ToIncrement(pc, slot.val) - 1
  {
    assert s.slots[SlotOf(s, i) := SlotAt(s, i)] == s.slots;
  }

  /** A push that does not block, or finds the counter not positive, makes its increment
      within three instructions. */
  lemma Increments(s: State, i: nat) returns (d: nat)
    requires i < |s.threads| && 0 < s.n == |s.slots| && Seeking(s.threads[i])
    requires !s.threads[i].block || SlotAt(s, i).val <= 0
    ensures d == ToIncrement(s.threads[i], SlotAt(s, i).val) + 1 && Incremented(s, Alone(s, i, d), i)
    decreases ToIncrement(s.threads[i], SlotAt(s, i).val)
  {
    hide Exec;
    PushStep(s, i);
    Next(s, i);
    if ToIncrement(s.threads[i], SlotAt(s, i).val) == 0 {
      d := 1;
    } else {
      var e := Increments(Exec(s, i, Go), i);
      AloneOn(s, i, 1, e);
      d := 1 + e;
    }
  }

  lemma StoreStep(s: State, i: nat)
    requires i < |s.threads| && 0 < s.n == |s.slots| && s.threads[i].PushStore? && SlotAt(s, i).data == 0
    ensures var pc, j := s.threads[i], SlotOf(s, i); var r := Exec(s, i, Go);
      && r.threads == s.threads[i := Idle] && pc.t in r.place && r.place[pc.t] == Stored
      && r.slots[j].data == pc.p && r.slots[j].tag == pc.t
  {
  }

  /** A push that finds counter and cell at 0 has stored its pointer after four of its own
      instructions. */
  lemma PushStores(s: State, i: nat, k: nat)
    requires i < |s.threads| && 0 < s.n == |s.slots| && Seeking(s.threads[i]) && 4 <= k
    requires SlotAt(s, i).val == 0 && SlotAt(s, i).data == 0
    ensures var pc, j := s.threads[i], SlotOf(s, i); var r := Run(s, Steps(i, k));
      && r.threads[i] == Idle && pc.t in r.place && r.place[pc.t] == Stored
      && r.slots[j].data == pc.p && r.slots[j].tag == pc.t && r.slots[j].val == 1
  {
    hide Exec, Run, Alone;
    AloneIsRun(s, i, k);
    var d := Increments(s, i);
    Stores(Alone(s, i, d), i, k - d);
    AloneOn(s, i, d, k - d);
  }

  lemma Stores(s: State, i: nat, k: nat)
    requires i < |s.threads| && 0 < s.n == |s.slots| && s.threads[i].PushStore? && SlotAt(s, i).data == 0 && 1 <= k
    ensures var pc, j := s.threads[i], SlotOf(s, i); var r := Alone(s, i, k);
      && r.threads[i] == Idle && pc.t in r.place && r.place[pc.t] == Stored
      && r.slots[j].data == pc.p && r.slots[j].tag == pc.t && r.slots[j].val == s.slots[j].val
  {
    hide Exec, Alone;
    StoreStep(s, i);
    Next(s, i);
    StoreCounter(s, i);
    AloneOn(s, i, 1, k - 1);
    IdleStands(Exec(s, i, Go), i);
    Stands(Exec(s, i, Go), i, k - 1);
  }

  lemma StoreCounter(s: State, i: nat)
    requires i < |s.threads| && 0 < s.n == |s.slots| && s.threads[i].PushStore?
    ensures Exec(s, i, Go).slots[SlotOf(s, i)].val == SlotAt(s, i).val
  {
  }

  /** A push that does not block and finds the counter positive has returned after three of
      its own instructions, and its pointer is nowhere. */
  lemma PushGivesUp(s: State, i: nat, k: nat)
    requires Inv(s) && i < |s.threads| && Seeking(s.threads[i]) && !s.threads[i].block && SlotAt(s, i).val > 0 && 3 <= k
    ensures Run(s, Steps(i, k)).threads[i] == Idle && s.threads[i].t !in Run(s, Steps(i, k)).place
  {
    hide Exec, Run, Alone, SlotsOk;
    AloneIsRun(s, i, k);
    var d := Increments(s, i);
    AloneOn(s, i, d, k - d);
    IdleStands(Alone(s, i, d), i);
    Stands(Alone(s, i, d), i, k - d);
    assert ThreadHome(s, i);
  }

  /** A push that blocks waits at a positive counter: it changes nothing, however long. */
  lemma {:induction false} PushWaits(s: State, i: nat, k: nat)
    requires i < |s.threads| && 0 < s.n == |s.slots| && (s.threads[i].PushLoad? || s.threads[i].PushWait?)
    requires s.threads[i].block && SlotAt(s, i).val > 0
    ensures var r := Alone(s, i, k);
      && r == s.(threads := r.threads)
      && (r.threads[i].PushLoad? || r.threads[i].PushWait?) && r.threads[i].t == s.threads[i].t && r.threads[i].block
    decreases k
  {
    hide Exec;
    if k > 0 {
      PushWaits(s, i, k - 1);
      PushWaitStep(Alone(s, i, k - 1), i);
    }
  }

  lemma PushWaitStep(s: State, i: nat)
    requires 0 < s.n == |s.slots| && i < |s.threads| && (s.threads[i].PushLoad? || s.threads[i].PushWait?)
    requires s.threads[i].block && SlotAt(s, i).val > 0
    ensures var r := Exec(s, i, Go);
      && r == s.(threads := r.threads)
      && (r.threads[i].PushLoad? || r.threads[i].PushWait?) && r.threads[i].t == s.threads[i].t && r.threads[i].block
  {
    assert s.slots[SlotOf(s, i) := SlotAt(s, i)] == s.slots;
  }

  /** What the counters are short of 0. */
  function Deficit(slots: seq<Slot>): nat {
    if slots == [] then 0 else Deficit(slots[..|slots| - 1]) + Short(slots[|slots| - 1].val)
  }

  function Short(val: int): nat { if val < 0 then -val else 0 }

  lemma {:induction false} DeficitFalls(a: seq<Slot>, b: seq<Slot>, j: nat)
    requires |a| == |b| && j < |a| && a[j].val < 0 && b[j].val == a[j].val + 1
    requires forall l :: 0 <= l < |a| && l != j ==> b[l].val == a[l].val
    ensures Deficit(b) == Deficit(a) - 1
    decreases |a|
  {
    if j == |a| - 1 {
      DeficitSame(a[..j], b[..j]);
    } else {
      DeficitFalls(a[..|a| - 1], b[..|b| - 1], j);
    }
  }

  lemma {:induction false} DeficitSame(a: seq<Slot>, b: seq<Slot>)
    requires |a| == |b| && forall l :: 0 <= l < |a| ==> b[l].val == a[l].val
    ensures Deficit(b) == Deficit(a)
    decreases |a|
  {
    if a != [] { DeficitSame(a[..|a| - 1], b[..|b| - 1]); }
  }

  lemma TicketStep(s: State, i: nat)
    requires i < |s.threads| && 0 < s.n == |s.slots| && s.threads[i].PushTicket?
    ensures var pc := s.threads[i];
      Exec(s, i, Go) == s.(push := s.push + 1, issued := s.issued + [pc.p], threads := s.threads[i := PushLoad(s.push, pc.p, pc.block)])
  {
  }

  /** The retries of a push that does not block come to an end: each makes up for a pop that
      timed out.  Then it is accepted or gives up. */
  lemma PushEnds(s: State, i: nat) returns (k: nat)
    requires i < |s.threads| && 0 < s.n == |s.slots| && s.threads[i].PushTicket? && !s.threads[i].block
    ensures k <= 4 * (Deficit(s.slots) + 1)
    ensures var r := Alone(s, i, k); r.threads[i] == Idle || (r.threads[i].PushStore? && r.threads[i].p == s.threads[i].p)
    decreases Deficit(s.slots)
  {
    hide Exec, Alone, Deficit;
    TicketStep(s, i);
    Next(s, i);
    var s1 := Exec(s, i, Go);
    var d := Increments(s1, i);
    AloneOn(s, i, 1, d);
    var r := Alone(s1, i, d);
    k := 1 + d;
    if r.threads[i].PushTicket? {
      DeficitFalls(s1.slots, r.slots, SlotOf(s1, i));
      var e := PushEnds(r, i);
      AloneOn(s, i, 1 + d, e);
      k := 1 + d + e;
    }
  }

  // ---- Legal runs ----------------------------------------------------------------

  lemma {:induction false} LegalConcat(s: State, a: Schedule, b: Schedule)
    requires ValidSchedule(a, |s.threads|) && ValidSchedule(b, |s.threads|) && 0 < s.n == |s.slots|
    requires LegalRun(s, a) && LegalRun(Run(s, a), b)
    ensures ValidSchedule(a + b, |s.threads|) && LegalRun(s, a + b) && Run(s, a + b) == Run(Run(s, a), b)
    decreases |b|
  {
    hide Legal, Exec, Run;
    EmptyRun(Run(s, a));
    if b == [] {
      assert a + b == a;
    } else {
      var most, last := b[..|b| - 1], b[|b| - 1];
      LegalConcat(s, a, most);
      assert b == most + [last] && a + b == (a + most) + [last];
      RunSnoc(Run(s, a), most, last.0, last.1);
      RunSnoc(s, a + most, last.0, last.1);
      LegalSnoc(s, a + most, last.0, last.1);
    }
  }

  lemma EmptyRun(s: State)
    requires 0 < s.n == |s.slots|
    ensures Run(s, []) == s
  {
  }

  lemma LegalSnoc(s: State, sched: Schedule, i: nat, ch: Choice)
    requires i < |s.threads| && ValidSchedule(sched, |s.threads|) && 0 < s.n == |s.slots|
    requires LegalRun(s, sched) && Legal(Run(s, sched), i, ch)
    ensures ValidSchedule(sched + [(i, ch)], |s.threads|) && LegalRun(s, sched + [(i, ch)])
  {
    hide Legal, Run;
    assert (sched + [(i, ch)])[..|sched|] == sched;
  }

  /** The thread may go on: it takes no push ticket, or the window has room. */
  predicate MayGo(s: State, i: nat)
    requires i < |s.threads| && 0 < |s.threads|
  {
    s.threads[i].PushTicket? ==> s.push < Done(s) + s.n
  }

  lemma GoesOn(s: State, i: nat)
    requires FifoInv(s) && i < |s.threads| && MayGo(s, i)
    ensures Legal(s, i, Go) && FifoInv(Exec(s, i, Go)) && MayGo(Exec(s, i, Go), i)
  {
    FifoStep(s, i, Go);
    NoTicketNext(s, i);
  }

  lemma NoTicketNext(s: State, i: nat)
    requires FifoInv(s) && i < |s.threads| && MayGo(s, i)
    ensures !Exec(s, i, Go).threads[i].PushTicket?
  {
    hide Window, InOrder, Home, SlotsOk, PcOk;
    if i == 0 {
      assert ConsumerOk(s, s.threads[0]);
    } else {
      assert ProducerOk(s.threads[i], Done(s));
      if OnSlot(s.threads[i]) { ProducerSteps(s, i, Go); }
    }
  }

  lemma {:induction false} LegalAlone(s: State, i: nat, k: nat)
    requires FifoInv(s) && i < |s.threads| && MayGo(s, i)
    ensures ValidSchedule(Steps(i, k), |s.threads|) && Run(s, Steps(i, k)) == Alone(s, i, k)
    ensures LegalRun(s, Steps(i, k)) && FifoInv(Alone(s, i, k)) && MayGo(Alone(s, i, k), i)
    decreases k
  {
    hide Exec, Legal, MayGo, Roles, Window, InOrder, Home, SlotsOk, PcOk;
    AloneIsRun(s, i, k);
    if k > 0 {
      LegalAlone(s, i, k - 1);
      GoesOn(Alone(s, i, k - 1), i);
      assert Steps(i, k)[..k - 1] == Steps(i, k - 1);
    }
  }

  /** In a legal run a push stores its pointer in at most five instructions of its own. */
  lemma ProducerStores(s: State, i: nat, k: nat)
    requires FifoInv(s) && 1 <= i < |s.threads| && MayGo(s, i) && s.threads[i] != Idle && 5 <= k
    ensures ValidSchedule(Steps(i, k), |s.threads|) && LegalRun(s, Steps(i, k))
    ensures var r := Run(s, Steps(i, k)); var t := if OnSlot(s.threads[i]) then Ticket(s.threads[i]) else s.push;
      r.threads[i] == Idle && t in r.place && r.place[t] == Stored
  {
    hide Exec, Run, Alone, Legal, LegalRun, Home, SlotsOk, Window, InOrder;
    LegalAlone(s, i, k);
    assert ProducerOk(s.threads[i], Done(s));
    if s.threads[i].PushTicket? {
      TicketStep(s, i);
      GoesOn(s, i);
      Next(s, i);
      AloneOn(s, i, 1, k - 1);
      SeekerStores(Exec(s, i, Go), i, k - 1);
    } else if s.threads[i].PushStore? {
      ProducerEffect(s, i);
      Stores(s, i, k);
    } else {
      SeekerStores(s, i, k);
    }
  }

  lemma SeekerStores(s: State, i: nat, k: nat)
    requires FifoInv(s) && 1 <= i < |s.threads| && Seeking(s.threads[i]) && 4 <= k
    ensures var r := Alone(s, i, k); var t := s.threads[i].t;
      r.threads[i] == Idle && t in r.place && r.place[t] == Stored
  {
    hide Exec, Run, Alone, Home, SlotsOk, Window, InOrder, Roles;
    ProducerEffect(s, i);
    PushStores(s, i, k);
    AloneIsRun(s, i, k);
  }

  /** The oldest pointer is stored and not popped: the counter of its slot is 1, unless the
      consumer has taken it already, and the cell holds it. */
  lemma OldestStored(s: State)
    requires FifoInv(s) && Done(s) in s.place && s.place[Done(s)] == Stored
    ensures var slot := s.slots[Done(s) % s.n];
      && Done(s) < |s.issued| && slot.data == s.issued[Done(s)] != 0 && (!Taking(s) ==> slot.val == 1)
  {
    hide Roles, InOrder;
    assert TicketOk(s, Done(s));
    assert PlaceHome(s, Done(s));
  }

  /** A pop that has begun returns the oldest pointer, if that is stored. */
  lemma ConsumerReturns(s: State, k: nat)
    requires FifoInv(s) && s.threads[0] != Idle && Done(s) in s.place && s.place[Done(s)] == Stored && 6 <= k
    ensures ValidSchedule(Steps(0, k), |s.threads|) && LegalRun(s, Steps(0, k)) && FifoInv(Run(s, Steps(0, k)))
    ensures var r := Run(s, Steps(0, k));
      r.threads[0] == Idle && Done(s) in r.returned && r.returned[Done(s)] == s.issued[Done(s)]
  {
    hide Exec, Run, Alone, Legal, LegalRun, Home, SlotsOk, Window, InOrder, Roles, PcOk;
    ConsumerRole(s);
    LegalAlone(s, 0, k);
    OldestStored(s);
    if s.threads[0] == PopTicket {
      PopTicketStep(s);
      GoesOn(s, 0);
      Next(s, 0);
      AloneOn(s, 0, 1, k - 1);
      var r := Exec(s, 0, Go);
      PopReturns(r, 0, k - 1);
      AloneIsRun(r, 0, k - 1);
    } else {
      ConsumerEffect(s);
      if Taking(s) { TakesAll(s, k); } else { PopReturns(s, 0, k); }
    }
  }

  lemma ConsumerRole(s: State)
    requires FifoInv(s)
    ensures ConsumerOk(s, s.threads[0]) && MayGo(s, 0)
  {
  }

  lemma PopTicketStep(s: State)
    requires 0 < |s.threads| && 0 < s.n == |s.slots| && s.threads[0] == PopTicket
    ensures Exec(s, 0, Go) == s.(pop := s.pop + 1, threads := s.threads[0 := PopLoad(s.pop)])
  {
  }

  lemma TakesAll(s: State, k: nat)
    requires 0 < |s.threads| && 0 < s.n == |s.slots| && (s.threads[0].PopTake? || s.threads[0].PopGrab?)
    requires SlotAt(s, 0).data != 0 && 3 <= k
    ensures var q, r := s.threads[0].q, Alone(s, 0, k); r.threads[0] == Idle && q in r.returned && r.returned[q] == SlotAt(s, 0).data
  {
    hide Exec, Alone;
    var d := Takes(s, 0);
    AloneOn(s, 0, d, k - d);
    IdleStands(Alone(s, 0, d), 0);
    Stands(Alone(s, 0, d), 0, k - d);
  }

  /** In a legal run, whenever an accepted push is not popped yet, the consumer can pop the
      oldest one: first the pusher stores, if it has not yet, then six instructions of the
      consumer - or any larger number - return exactly that pointer.  Nobody else is needed. */
  lemma OldestIsPopped(s: State, k: nat) returns (sched: Schedule)
    requires FifoInv(s) && Done(s) in s.place && 6 <= k
    ensures Done(s) < |s.issued| && ValidSchedule(sched, |s.threads|) && LegalRun(s, sched)
    ensures sched == (if s.place[Done(s)].Pending? then [(s.place[Done(s)].i, Go)] else [])
                     + (if s.threads[0] == Idle then [(0, StartPop)] else []) + Steps(0, k)
    ensures var r := Run(s, sched);
      FifoInv(r) && r.threads[0] == Idle && Done(s) in r.returned && r.returned[Done(s)] == s.issued[Done(s)]
  {
    hide Exec, Run, Alone, Legal, LegalRun, Home, SlotsOk, Window, InOrder, Roles, PcOk, Steps;
    var first, m := PusherStores(s);
    var second, r := ConsumerStarts(m);
    LegalConcat(s, first, second);
    ConsumerReturns(r, k);
    LegalConcat(s, first + second, Steps(0, k));
    sched := first + second + Steps(0, k);
  }

  lemma OneLegal(s: State, i: nat, ch: Choice)
    requires FifoInv(s) && i < |s.threads| && Legal(s, i, ch)
    ensures ValidSchedule([(i, ch)], |s.threads|) && LegalRun(s, [(i, ch)])
    ensures Run(s, [(i, ch)]) == Exec(s, i, ch) && FifoInv(Exec(s, i, ch))
  {
    hide Exec, Legal, FifoInv;
    FifoStep(s, i, ch);
    Sound(s);
    RunSnoc(s, [], i, ch);
    assert [(i, ch)][..0] == [];
    assert [] + [(i, ch)] == [(i, ch)];
  }

  lemma Sound(s: State)
    requires FifoInv(s)
    ensures 0 < s.n == |s.slots|
  {
  }

  lemma PusherStores(s: State) returns (sched: Schedule, m: State)
    requires FifoInv(s) && Done(s) in s.place
    ensures Done(s) < |s.issued| && ValidSchedule(sched, |s.threads|) && LegalRun(s, sched) && m == Run(s, sched) && FifoInv(m)
    ensures sched == if s.place[Done(s)].Pending? then [(s.place[Done(s)].i, Go)] else []
    ensures m.threads[0] == s.threads[0] && |m.threads| == |s.threads| && Done(m) == Done(s) && m.issued == s.issued
    ensures Done(m) in m.place && m.place[Done(m)] == Stored
  {
    hide Exec, Legal, SlotsOk, InOrder;
    OldestPlace(s);
    if s.place[Done(s)].Pending? {
      var i := s.place[Done(s)].i;
      ConsumerRole(s);
      ProducerEffect(s, i);
      StoreIs(s, i);
      GoesOn(s, i);
      OneLegal(s, i, Go);
      sched, m := [(i, Go)], Exec(s, i, Go);
    } else {
      sched, m := [], s;
    }
  }

  lemma StoreIs(s: State, i: nat)
    requires 1 <= i < |s.threads| && 0 < s.n == |s.slots| && s.threads[i].PushStore? && SlotAt(s, i).data == 0
    ensures var r := Exec(s, i, Go);
      && r.threads == s.threads[i := Idle] && r.place == s.place[s.threads[i].t := Stored]
      && r.issued == s.issued && r.pop == s.pop
  {
  }

  lemma OldestPlace(s: State)
    requires FifoInv(s) && Done(s) in s.place
    ensures Done(s) < |s.issued| && !s.place[Done(s)].Delivered?
    ensures s.place[Done(s)].Pending? ==>
      var i := s.place[Done(s)].i; 1 <= i < |s.threads| && s.threads[i] == PushStore(Done(s), s.issued[Done(s)])
  {
    assert PlaceHome(s, Done(s));
    assert TicketOk(s, Done(s));
    assert ConsumerOk(s, s.threads[0]);
  }

  lemma ConsumerStarts(s: State) returns (sched: Schedule, r: State)
    requires FifoInv(s) && Done(s) in s.place && s.place[Done(s)] == Stored
    ensures ValidSchedule(sched, |s.threads|) && LegalRun(s, sched) && r == Run(s, sched) && FifoInv(r)
    ensures sched == if s.threads[0] == Idle then [(0, StartPop)] else []
    ensures |r.threads| == |s.threads| && Done(r) == Done(s) && r.issued == s.issued && r.threads[0] != Idle
    ensures Done(r) in r.place && r.place[Done(r)] == Stored
  {
    hide SlotsOk, InOrder, Home, Window, Roles;
    if s.threads[0] == Idle {
      OneLegal(s, 0, StartPop);
      sched, r := [(0, StartPop)], Exec(s, 0, StartPop);
    } else {
      sched, r := [], s;
    }
  }
}
