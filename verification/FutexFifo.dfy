/**
  When the futex queue is a FIFO: many producers that never block, one consumer,
  no expired wait, and no push takes a ticket while the ring still has `n`
  tickets whose pops are not completed.
*/
module FutexFifo {
  import opened FutexQueue
  import opened FutexTickets
  import DivMod

  /** Number of completed pops; thread 0 is the consumer. */
  function Done(s: State): nat
    requires 0 < |s.threads|
  {
    if OnSlot(s.threads[0]) && s.pop > 0 then s.pop - 1 else s.pop
  }

  /** The conditions above, for one instruction.  A caller can check the last one
      before it pushes: it is about the two ticket counters. */
  predicate Legal(s: State, i: nat, ch: Choice) {
    && 0 < |s.threads| && i < |s.threads|
    && !ch.Expire?
    && (ch.StartPop? ==> i == 0)
    && (ch.StartPush? ==> i != 0 && !ch.block)
    && (s.threads[i].PushTicket? ==> s.push < Done(s) + s.n)
  }

  ghost predicate LegalRun(s: State, sched: Schedule)
    requires ValidSchedule(sched, |s.threads|) && 0 < s.n == |s.slots|
    decreases |sched|
  {
    sched == [] ||
    var m := |sched| - 1;
    LegalRun(s, sched[..m]) && Legal(Run(s, sched[..m]), sched[m].0, sched[m].1)
  }

  ghost predicate ProducerOk(pc: Pc, done: nat) {
    match pc
    case Idle => true
    case PushTicket(_, b) => !b
    case PushLoad(t, _, b) => !b && done <= t
    case PushCas(t, _, b, x) => !b && done <= t && x == 0
    case PushStore(t, _) => done <= t
    case _ => false
  }

  ghost predicate ConsumerOk(s: State, pc: Pc) {
    match pc
    case Idle => true
    case PopTicket => true
    case PopLoad(q) => q + 1 == s.pop
    case PopCas(q, x) => q + 1 == s.pop && x == 1
    case PopWait(q) => q + 1 == s.pop
    case PopTake(q) => q + 1 == s.pop && q in s.place
    case PopGrab(q, _) => q + 1 == s.pop && q in s.place
    case _ => false
  }

  predicate Taking(s: State)
    requires 0 < |s.threads|
  {
    s.threads[0].PopTake? || s.threads[0].PopGrab?
  }

  /** The slot of a ticket that is not popped yet. */
  ghost predicate TicketOk(s: State, t: nat)
    requires 0 < |s.threads| && 0 < s.n == |s.slots|
  {
    var slot := s.slots[t % s.n];
    if t !in s.place then slot.val == 0 && slot.data == 0
    else
      && !s.place[t].Delivered?
      && (s.place[t].Pending? ==> slot.data == 0)
      && slot.val == if t == Done(s) && Taking(s) then 0 else 1
  }

  ghost predicate Roles(s: State)
    requires 0 < |s.threads|
  {
    && ConsumerOk(s, s.threads[0])
    && (forall i :: 1 <= i < |s.threads| ==> ProducerOk(s.threads[i], Done(s)))
  }

  ghost predicate Window(s: State)
    requires 0 < |s.threads| && 0 < s.n == |s.slots|
  {
    && s.push <= Done(s) + s.n
    && (forall t :: Done(s) <= t < Done(s) + s.n ==> TicketOk(s, t))
  }

  ghost predicate InOrder(s: State)
    requires 0 < |s.threads|
  {
    && (forall q: nat :: q in s.delivered <==> q < Done(s))
    && (forall q :: q in s.delivered ==> s.delivered[q] == q)
  }

  ghost predicate FifoInv(s: State) {
    Inv(s) && 0 < |s.threads| && Roles(s) && Window(s) && InOrder(s)
  }

  // ---- Producers -----------------------------------------------------------

  /** A ticket that is not popped yet has its slot to itself, so a producer's
      counter instruction always finds 0 and its store always finds null. */
  lemma ProducerEffect(s: State, i: nat)
    requires FifoInv(s) && 1 <= i < |s.threads| && OnSlot(s.threads[i])
    ensures var pc := s.threads[i]; var slot := s.slots[SlotOf(s, i)];
      && Done(s) <= Ticket(pc) < s.push && TicketOk(s, Ticket(pc))
      && (Seeking(pc) ==> slot.val == 0 && Ticket(pc) !in s.place)
      && (pc.PushStore? ==> slot.data == 0 && pc.t in s.place && s.place[pc.t] == Pending(i))
  {
    var pc := s.threads[i];
    assert ProducerOk(pc, Done(s)) && PcOk(s, pc) && ThreadHome(s, i);
    assert TicketOk(s, Ticket(pc));
  }

  lemma ProducerSteps(s: State, i: nat, ch: Choice)
    requires FifoInv(s) && 1 <= i < |s.threads| && OnSlot(s.threads[i]) && Legal(s, i, ch)
    ensures var pc := s.threads[i]; var slot := s.slots[SlotOf(s, i)];
      EffectOf(s, i, ch) ==
        match pc
        case PushLoad(t, p, b) => Effect(PushCas(t, p, b, 0), slot, Nothing)
        case PushCas(t, p, b, x) => Effect(PushStore(t, p), slot.(val := 1, log := slot.log + [true]), Accepted)
        case PushStore(t, p) => Effect(Idle, slot.(data := p, tag := t), Put)
        case _ => EffectOf(s, i, ch)
    ensures s.threads[i].PushLoad? || s.threads[i].PushCas? || s.threads[i].PushStore?
  {
    ProducerEffect(s, i);
    assert ProducerOk(s.threads[i], Done(s));
  }

  lemma ProducerItem(s: State, i: nat, ch: Choice)
    requires FifoInv(s) && 1 <= i < |s.threads| && OnSlot(s.threads[i]) && Legal(s, i, ch)
    ensures var r := ExecItem(s, i, ch); Roles(r) && Window(r) && InOrder(r) && Done(r) == Done(s)
  {
    hide PcOk, Home, SlotsOk;
    var r := ExecItem(s, i, ch);
    var t := Ticket(s.threads[i]);
    ProducerSteps(s, i, ch);
    ProducerEffect(s, i);
    hide Item;
    forall k | 1 <= k < |r.threads| ensures ProducerOk(r.threads[k], Done(r)) {
      assert ProducerOk(s.threads[k], Done(s));
    }
    forall u | Done(r) <= u < Done(r) + r.n ensures TicketOk(r, u) {
      assert TicketOk(s, u);
      if u != t && u % s.n == t % s.n { DivMod.CloseEqual(t, u, s.n); }
    }
  }

  lemma ProducerGlobal(s: State, i: nat, ch: Choice)
    requires FifoInv(s) && 1 <= i < |s.threads| && !OnSlot(s.threads[i]) && Legal(s, i, ch)
    ensures var r := ExecGlobal(s, i, ch); Roles(r) && Window(r) && InOrder(r) && Done(r) == Done(s)
  {
    var r := ExecGlobal(s, i, ch);
    CompletedWereIssued(s);
    forall k | 1 <= k < |r.threads| ensures ProducerOk(r.threads[k], Done(r)) {
      assert ProducerOk(s.threads[k], Done(s));
    }
    forall u | Done(r) <= u < Done(r) + r.n ensures TicketOk(r, u) {
      assert TicketOk(s, u);
    }
  }

  /** Completed pops never run ahead of issued pushes. */
  lemma CompletedWereIssued(s: State)
    requires FifoInv(s)
    ensures Done(s) <= s.push
  {
    if Done(s) > 0 {
      var q := Done(s) - 1;
      assert q in s.delivered && DeliveredHome(s, q);
      assert PlaceHome(s, q);
    }
  }

  // ---- The consumer --------------------------------------------------------

  lemma ConsumerGlobal(s: State, ch: Choice)
    requires FifoInv(s) && !OnSlot(s.threads[0]) && Legal(s, 0, ch)
    ensures var r := ExecGlobal(s, 0, ch); Roles(r) && Window(r) && InOrder(r) && Done(r) == Done(s)
  {
    var r := ExecGlobal(s, 0, ch);
    assert ConsumerOk(s, s.threads[0]);
    forall k | 1 <= k < |r.threads| ensures ProducerOk(r.threads[k], Done(r)) {
      assert ProducerOk(s.threads[k], Done(s));
    }
    forall u | Done(r) <= u < Done(r) + r.n ensures TicketOk(r, u) {
      assert TicketOk(s, u);
    }
  }

  /** The consumer works on the oldest outstanding ticket; if it already owns the
      item, the slot holds nothing but that ticket's item. */
  lemma ConsumerEffect(s: State)
    requires FifoInv(s) && OnSlot(s.threads[0])
    ensures var pc := s.threads[0]; var slot := s.slots[SlotOf(s, 0)]; var t := Done(s);
      && Ticket(pc) == t && t + 1 == s.pop && Popping(pc) && TicketOk(s, t)
      && (Taking(s) ==> t in s.place && slot.val == 0 && (slot.data != 0 ==> slot.tag == t && s.place[t] == Stored && slot.data == s.issued[t]))
      && (!Taking(s) && slot.val > 0 ==> slot.val == 1 && t in s.place)
  {
    var pc := s.threads[0];
    var t := Done(s);
    assert ConsumerOk(s, pc) && TicketOk(s, t);
    if t in s.place { assert PlaceHome(s, t); }
  }

  lemma ConsumerItem(s: State, ch: Choice)
    requires FifoInv(s) && OnSlot(s.threads[0]) && Legal(s, 0, ch)
    requires !EffectOf(s, 0, ch).event.Got?
    ensures var r := ExecItem(s, 0, ch); Roles(r) && Window(r) && InOrder(r) && Done(r) == Done(s)
  {
    hide PcOk, Home, SlotsOk;
    var r := ExecItem(s, 0, ch);
    ConsumerEffect(s);
    var e := EffectOf(s, 0, ch);
    assert ConsumerOk(s, s.threads[0]);
    forall k | 1 <= k < |r.threads| ensures ProducerOk(r.threads[k], Done(r)) {
      assert ProducerOk(s.threads[k], Done(s));
    }
    forall u | Done(r) <= u < Done(r) + r.n ensures TicketOk(r, u) {
      assert TicketOk(s, u);
      if u != Done(s) && u % s.n == Done(s) % s.n { DivMod.CloseEqual(Done(s), u, s.n); }
    }
  }

  /** The successful exchange of the consumer takes the oldest item. */
  lemma GotState(s: State, ch: Choice)
    requires FifoInv(s) && OnSlot(s.threads[0]) && EffectOf(s, 0, ch).event.Got?
    ensures var t := Done(s); var j := t % s.n; var slot := s.slots[j];
      && t + 1 == s.pop && t < |s.issued| && slot.data == s.issued[t] && t in s.place && s.place[t] == Stored
      && ExecItem(s, 0, ch) == s.(slots := s.slots[j := slot.(data := 0)], threads := s.threads[0 := Idle],
                                  place := s.place[t := Delivered(t)], delivered := s.delivered[t := t],
                                  returned := s.returned[t := slot.data])
  {
    hide Window, InOrder, TicketOk;
    ConsumerEffect(s);
    assert ConsumerOk(s, s.threads[0]);
    assert PcOk(s, s.threads[0]);
  }

  lemma ProducerAhead(s: State, k: nat)
    requires FifoInv(s) && 1 <= k < |s.threads| && Done(s) in s.place && s.place[Done(s)] == Stored
    ensures ProducerOk(s.threads[k], Done(s) + 1)
  {
    hide Window, InOrder;
    assert ProducerOk(s.threads[k], Done(s)) && ThreadHome(s, k);
  }

  lemma GotTicket(s: State, r: State, u: nat)
    requires FifoInv(s) && OnSlot(s.threads[0])
    requires var t := Done(s); t + 1 == s.pop && Done(s) < u <= Done(s) + s.n && s.slots[t % s.n].val == 0
    requires var t := Done(s);
      r == s.(slots := s.slots[t % s.n := s.slots[t % s.n].(data := 0)], threads := s.threads[0 := Idle],
              place := s.place[t := Delivered(t)], delivered := r.delivered, returned := r.returned)
    ensures TicketOk(r, u)
  {
    hide Roles, InOrder, PcOk, ThreadsHome;
    var t := Done(s);
    if u < t + s.n {
      assert TicketOk(s, u);
      if u % s.n == t % s.n { DivMod.CloseEqual(t, u, s.n); }
    } else {
      DivMod.Shift(t, 1, s.n);
    }
  }

  lemma ConsumerGot(s: State, ch: Choice)
    requires FifoInv(s) && OnSlot(s.threads[0]) && Legal(s, 0, ch)
    requires EffectOf(s, 0, ch).event.Got?
    ensures var r := ExecItem(s, 0, ch);
      && Roles(r) && Window(r) && InOrder(r) && Done(r) == Done(s) + 1
      && Done(s) in r.returned && r.returned[Done(s)] == s.issued[Done(s)]
  {
    hide TicketOk, Home, SlotsOk;
    var r := ExecItem(s, 0, ch);
    GotState(s, ch);
    ConsumerEffect(s);
    hide ExecItem;
    forall k | 1 <= k < |r.threads| ensures ProducerOk(r.threads[k], Done(r)) {
      ProducerAhead(s, k);
    }
    forall u | Done(r) <= u < Done(r) + r.n ensures TicketOk(r, u) { GotTicket(s, r, u); }
  }

  lemma FifoStep(s: State, i: nat, ch: Choice)
    requires FifoInv(s) && Legal(s, i, ch)
    ensures FifoInv(Exec(s, i, ch))
  {
    InvStep(s, i, ch);
    if OnSlot(s.threads[i]) {
      if i > 0 { ProducerItem(s, i, ch); }
      else if EffectOf(s, 0, ch).event.Got? { ConsumerGot(s, ch); }
      else { ConsumerItem(s, ch); }
    } else {
      if i > 0 { ProducerGlobal(s, i, ch); } else { ConsumerGlobal(s, ch); }
    }
  }

  // ---- Refinement of a bounded FIFO ----------------------------------------

  /** The abstract queue: pointers of the tickets issued and not yet popped. */
  function Abs(s: State): seq<nat>
    requires 0 < |s.threads| && Done(s) <= |s.issued|
  {
    s.issued[Done(s)..]
  }

  datatype Action = Stutter | Enqueue(p: nat) | Dequeue

  /** Which operation of the abstract queue an instruction stands for. */
  function ActionOf(s: State, i: nat, ch: Choice): Action
    requires i < |s.threads| && 0 < s.n == |s.slots|
  {
    if s.threads[i].PushTicket? then Enqueue(s.threads[i].p)
    else if OnSlot(s.threads[i]) && EffectOf(s, i, ch).event.Got? then Dequeue
    else Stutter
  }

  lemma ProducerNeverGets(s: State, i: nat, ch: Choice)
    requires FifoInv(s) && Legal(s, i, ch) && OnSlot(s.threads[i])
    requires EffectOf(s, i, ch).event.Got?
    ensures i == 0
  {
    if i > 0 { ProducerSteps(s, i, ch); }
  }

  lemma PushersAreProducers(s: State, i: nat)
    requires FifoInv(s) && i < |s.threads| && (s.threads[i].PushTicket? || Pushing(s.threads[i]))
    ensures i > 0
  {
  }

  lemma EnqueueStep(s: State, i: nat, ch: Choice)
    requires FifoInv(s) && Legal(s, i, ch) && s.threads[i].PushTicket?
    ensures Done(s) <= s.push == |s.issued| && Done(s) <= |Exec(s, i, ch).issued|
    ensures Abs(Exec(s, i, ch)) == Abs(s) + [s.threads[i].p] && |Abs(s)| < s.n
  {
    CompletedWereIssued(s);
    PushersAreProducers(s, i);
    ProducerGlobal(s, i, ch);
  }

  lemma DequeueStep(s: State, i: nat, ch: Choice)
    requires FifoInv(s) && Legal(s, i, ch) && OnSlot(s.threads[i]) && EffectOf(s, i, ch).event.Got?
    ensures var r := Exec(s, i, ch); var t := s.threads[0];
      && Done(r) == Done(s) + 1 <= |s.issued| == |r.issued|
      && OnSlot(t) && Ticket(t) == Done(s) && Ticket(t) in r.returned
      && Abs(s) == [r.returned[Ticket(t)]] + Abs(r)
  {
    ProducerNeverGets(s, i, ch);
    ConsumerEffect(s);
    ConsumerGot(s, ch);
    assert PlaceHome(s, Done(s));
  }

  lemma StutterStep(s: State, i: nat, ch: Choice)
    requires FifoInv(s) && Legal(s, i, ch) && ActionOf(s, i, ch) == Stutter
    ensures Done(s) <= |s.issued| && Done(Exec(s, i, ch)) <= |Exec(s, i, ch).issued|
    ensures Abs(Exec(s, i, ch)) == Abs(s)
  {
    hide Window, Roles, InOrder, Home, SlotsOk, PcOk;
    CompletedWereIssued(s);
    if OnSlot(s.threads[i]) {
      if i > 0 { ProducerItem(s, i, ch); } else { ConsumerItem(s, ch); }
    } else {
      if i > 0 { ProducerGlobal(s, i, ch); } else { ConsumerGlobal(s, ch); }
    }
  }

  /** Every instruction is an operation of a FIFO bounded by n, or invisible:
      a push takes effect with its ticket, a pop returns the oldest pointer. */
  lemma RefinesBoundedFifo(s: State, i: nat, ch: Choice)
    requires FifoInv(s) && Legal(s, i, ch)
    ensures var r := Exec(s, i, ch);
      && FifoInv(r) && Done(s) <= |s.issued| && Done(r) <= |r.issued|
      && |Abs(r)| <= s.n
      && match ActionOf(s, i, ch)
         case Stutter => Abs(r) == Abs(s)
         case Enqueue(p) => |Abs(s)| < s.n && Abs(r) == Abs(s) + [p]
         case Dequeue => Done(s) in r.returned && Abs(s) == [r.returned[Done(s)]] + Abs(r)
  {
    var r := Exec(s, i, ch);
    FifoStep(s, i, ch);
    CompletedWereIssued(s);
    CompletedWereIssued(r);
    match ActionOf(s, i, ch) {
      case Stutter => StutterStep(s, i, ch);
      case Enqueue(_) => EnqueueStep(s, i, ch);
      case Dequeue => DequeueStep(s, i, ch);
    }
  }

  // ---- Whole runs ----------------------------------------------------------

  lemma FifoInit(n: nat, threadCount: nat)
    requires 0 < n && 0 < threadCount
    ensures FifoInv(Init(n, threadCount))
  {
    InvInit(n, threadCount);
  }

  lemma {:induction false} FifoInvRun(s: State, sched: Schedule)
    requires FifoInv(s) && ValidSchedule(sched, |s.threads|) && LegalRun(s, sched)
    ensures FifoInv(Run(s, sched))
    decreases |sched|
  {
    if sched != [] {
      var m := |sched| - 1;
      FifoInvRun(s, sched[..m]);
      FifoStep(Run(s, sched[..m]), sched[m].0, sched[m].1);
    }
  }

  /** In every legal run every completed pop succeeded, and the pop with ticket q
      returned exactly the pointer pushed with ticket q. */
  lemma PopsInPushOrder(n: nat, threadCount: nat, sched: Schedule, q: nat)
    requires 0 < n && 0 < threadCount && ValidSchedule(sched, threadCount)
    requires LegalRun(Init(n, threadCount), sched)
    requires q < Done(Run(Init(n, threadCount), sched))
    ensures var s := Run(Init(n, threadCount), sched);
      q in s.returned && q < |s.issued| && s.returned[q] == s.issued[q]
  {
    FifoInit(n, threadCount);
    FifoInvRun(Init(n, threadCount), sched);
    var s := Run(Init(n, threadCount), sched);
    assert q in s.delivered && DeliveredHome(s, q);
  }

  /** A push ticket is still looking for its slot, or its pointer was accepted. */
  ghost predicate NotDropped(s: State, t: nat) {
    t in s.place || exists i :: 0 <= i < |s.threads| && Seeking(s.threads[i]) && s.threads[i].t == t
  }

  lemma {:induction false} LegalAt(s: State, sched: Schedule, k: nat)
    requires ValidSchedule(sched, |s.threads|) && 0 < s.n == |s.slots| && LegalRun(s, sched) && k <= |sched|
    ensures LegalRun(s, sched[..k])
    ensures k < |sched| ==> Legal(Run(s, sched[..k]), sched[k].0, sched[k].1)
    decreases |sched|
  {
    hide Run, Legal;
    if k < |sched| {
      LegalAt(s, sched[..|sched| - 1], k);
      assert sched[..|sched| - 1][..k] == sched[..k];
    } else {
      assert sched[..k] == sched;
    }
  }

  /** In a legal run every push finds as many increments as decrements on its slot. */
  lemma NoSurplus(n: nat, threadCount: nat, sched: Schedule, k: nat, t: nat)
    requires 0 < n && 0 < threadCount && ValidSchedule(sched, threadCount)
    requires LegalRun(Init(n, threadCount), sched) && Decides(Init(n, threadCount), sched, k, t)
    ensures Surplus(Init(n, threadCount), sched, k, t) == 0
  {
    var s0 := Init(n, threadCount);
    var r := Run(s0, sched[..k]);
    LegalAt(s0, sched, k);
    FifoInit(n, threadCount);
    FifoInvRun(s0, sched[..k]);
    PushersAreProducers(r, sched[k].0);
    ProducerEffect(r, sched[k].0);
    CounterIsSurplus(s0, sched[..k], t % n);
  }

  /** In every legal run no push is dropped: what it looks for is accepted or still
      looked for, and no push returns without its pointer. */
  lemma NoPushDropped(n: nat, threadCount: nat, sched: Schedule, t: nat)
    requires 0 < n && 0 < threadCount && ValidSchedule(sched, threadCount)
    requires LegalRun(Init(n, threadCount), sched)
    requires t < Run(Init(n, threadCount), sched).push
    ensures NotDropped(Run(Init(n, threadCount), sched), t)
    ensures forall k: nat :: !ReturnsWithout(Init(n, threadCount), sched, k, t)
  {
    hide Run, LegalRun;
    var s0 := Init(n, threadCount);
    var k := EveryTicketSettles(n, threadCount, sched, t);
    if k >= 0 { NoSurplus(n, threadCount, sched, k, t); }
    forall l: nat ensures !ReturnsWithout(s0, sched, l, t) {
      if ReturnsWithout(s0, sched, l, t) {
        StepDecides(n, threadCount, sched, l, t);
        NoSurplus(n, threadCount, sched, l, t);
      }
    }
  }

  // ---- Without the window ---------------------------------------------------

  /** One slot, two producers and no pop in between: the push of 8 returns
      although 8 is nowhere in the queue. */
  lemma OverflowDrops() returns (sched: Schedule)
    ensures ValidSchedule(sched, 3)
    ensures var s := Run(Init(1, 3), sched);
      && s.threads == [Idle, Idle, Idle] && s.push == 2 && s.issued == [7, 8] && !NotDropped(s, 1)
  {
    hide Exec, Init, NotDropped;
    var s := Init(1, 3);
    var first, m := PushAlone(s, 1, 7);
    var m1, m2, m3, m4 := PushFull(m, 8);
    RunSnoc(s, first, 2, StartPush(8, false));
    var second := first + [(2, StartPush(8, false))];
    RunSnoc(s, second, 2, Go);
    RunSnoc(s, second + [(2, Go)], 2, Go);
    RunSnoc(s, second + [(2, Go)] + [(2, Go)], 2, Go);
    sched := second + [(2, Go)] + [(2, Go)] + [(2, Go)];
  }

  /** A push into the full one-slot queue takes a ticket, counts itself and returns. */
  lemma PushFull(m: State, p: nat) returns (m1: State, m2: State, m3: State, m4: State)
    requires m.n == 1 && m.push == 1 && m.pop == 0 && m.issued == [7] && m.place == map[0 := Stored] && p != 0
    requires m.slots == [Slot(1, 7, 0, [true])] && m.threads == [Idle, Idle, Idle]
    ensures m1 == Exec(m, 2, StartPush(p, false)) && m2 == Exec(m1, 2, Go) && m3 == Exec(m2, 2, Go) && m4 == Exec(m3, 2, Go)
    ensures m4.threads == [Idle, Idle, Idle] && m4.push == 2 && m4.issued == [7, p] && !NotDropped(m4, 1)
  {
    m1 := Exec(m, 2, StartPush(p, false));
    m2 := Exec(m1, 2, Go);
    m3 := Exec(m2, 2, Go);
    m4 := Exec(m3, 2, Go);
    assert m4.place.Keys == {0};
  }

  /** A push into the empty one-slot queue, run to its end. */
  lemma PushAlone(s: State, i: nat, p: nat) returns (sched: Schedule, r: State)
    requires s == Init(1, 3) && i < 3 && p != 0
    ensures ValidSchedule(sched, 3) && r == Run(s, sched)
    ensures r.n == 1 && r.push == 1 && r.pop == 0 && r.issued == [p] && r.place == map[0 := Stored]
    ensures r.slots == [Slot(1, p, 0, [true])] && r.threads == [Idle, Idle, Idle]
  {
    RunSnoc(s, [], i, StartPush(p, false));
    sched, r := [(i, StartPush(p, false))], Exec(s, i, StartPush(p, false));
    RunSnoc(s, sched, i, Go);
    sched, r := sched + [(i, Go)], Exec(r, i, Go);
    RunSnoc(s, sched, i, Go);
    sched, r := sched + [(i, Go)], Exec(r, i, Go);
    RunSnoc(s, sched, i, Go);
    sched, r := sched + [(i, Go)], Exec(r, i, Go);
    RunSnoc(s, sched, i, Go);
    sched, r := sched + [(i, Go)], Exec(r, i, Go);
    assert r.slots[0] == Slot(1, p, 0, [true]);
    assert r.slots == [Slot(1, p, 0, [true])];
  }
}
