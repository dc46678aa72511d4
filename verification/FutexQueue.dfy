/**
  The futex queue as a protocol: any number of threads, each at a program
  counter, execute the atomic instructions of LFQueue::push, LFQueue::pop,
  LFItem::push, LFItem::pop and LFCounter::inc/dec one at a time, in any order,
  over one shared memory (sequential consistency).

  A slot is one LFItem.  Its counter `val` and its pointer cell `data` are
  updated by separate instructions, so a slot passes through states where the
  counter already promises an item that is not stored yet, or where an item is
  still stored although its pop already owns it.

  `tag`, `log`, `issued`, `place` and `delivered` are history variables: no
  instruction branches on them.
*/
module FutexQueue {

  /** The program counter of one thread; the comments name the next instruction. */
  datatype Pc =
    | Idle
    | PushTicket(p: nat, block: bool)             // fetch_add on push_
    | PushLoad(t: nat, p: nat, block: bool)       // inc_if_le0: load val
    | PushCas(t: nat, p: nat, block: bool, x: int)// inc_if_le0: CAS val x -> x+1
    | PushAdd(t: nat, p: nat, block: bool)        // val was positive: fetch_add on val
    | PushWait(t: nat, p: nat, block: bool)       // val was positive: futex_wait
    | PushStore(t: nat, p: nat)                   // spin: CAS data null -> p
    | PopTicket                                   // fetch_add on pop_
    | PopLoad(q: nat)                             // dec_if_gt0: load val
    | PopCas(q: nat, x: int)                      // dec_if_gt0: CAS val x -> x-1
    | PopWait(q: nat)                             // futex_wait
    | PopTake(q: nat)                             // spin: load data
    | PopGrab(q: nat, d: nat)                     // spin: CAS data d -> null

  /** Scheduler choices; all but Go only matter where the comment says. */
  datatype Choice =
    | Go
    | StartPush(p: nat, block: bool)  // an idle thread calls push
    | StartPop                        // an idle thread calls pop
    | Expire                          // a futex_wait reports the timeout

  datatype Slot = Slot(val: int, data: nat, tag: nat, log: seq<bool>)

  /** Where the pointer of an accepted push is. */
  datatype Place = Pending(i: nat) | Stored | Delivered(q: nat)

  datatype State = State(
    n: nat,                        // number of slots, pos_mask_ + 1
    push: nat,
    pop: nat,
    slots: seq<Slot>,
    threads: seq<Pc>,
    issued: seq<nat>,              // pointer of every push ticket
    place: map<nat, Place>,        // by push ticket, accepted pushes only
    delivered: map<nat, nat>,      // pop ticket -> push ticket whose pointer it took
    returned: map<nat, nat>        // pop ticket -> pointer it returned
  )

  function Init(n: nat, threadCount: nat): State {
    State(n, 0, 0, seq(n, j => Slot(0, 0, 0, [])), seq(threadCount, i => Idle), [], map[], map[], map[])
  }

  /** What an instruction on a slot leaves behind: the thread's next program
      counter, the slot, and what happened to an item. */
  datatype Effect = Effect(pc: Pc, slot: Slot, event: Event)
  datatype Event = Nothing | Accepted | Put | Got(d: nat)

  /** An atomic increment of the counter and the branch LFItem::push takes on
      the value it replaced. */
  function AfterInc(slot: Slot, t: nat, p: nat, block: bool): Effect {
    if slot.val < 0 then Effect(PushTicket(p, block), slot.(val := slot.val + 1), Nothing)
    else if slot.val > 0 then Effect(Idle, slot.(val := slot.val + 1), Nothing)
    else Effect(PushStore(t, p), slot.(val := 1, log := slot.log + [true]), Accepted)
  }

  /** An atomic decrement and the branch LFItem::pop takes on the value it replaced. */
  function AfterDec(slot: Slot, q: nat): Effect {
    if slot.val != 1 then Effect(Idle, slot.(val := slot.val - 1), Nothing)
    else Effect(PopTake(q), slot.(val := 0, log := slot.log + [false]), Nothing)
  }

  /** The instructions that touch a slot are those of a thread holding a ticket. */
  predicate OnSlot(pc: Pc) {
    !pc.Idle? && !pc.PushTicket? && !pc.PopTicket?
  }

  predicate Pushing(pc: Pc) {
    pc.PushLoad? || pc.PushCas? || pc.PushAdd? || pc.PushWait? || pc.PushStore?
  }

  function Ticket(pc: Pc): nat
    requires OnSlot(pc)
  {
    if Pushing(pc) then pc.t else pc.q
  }

  function PushItem(pc: Pc, slot: Slot, ch: Choice): Effect
    requires Pushing(pc)
  {
    match pc
    case PushLoad(t, p, b) =>
      var next := if slot.val <= 0 then PushCas(t, p, b, slot.val) else if b then PushWait(t, p, b) else PushAdd(t, p, b);
      Effect(next, slot, Nothing)
    case PushCas(t, p, b, x) =>
      if slot.val == x then AfterInc(slot, t, p, b) else Effect(PushLoad(t, p, b), slot, Nothing)
    case PushAdd(t, p, b) => AfterInc(slot, t, p, b)
    case PushWait(t, p, b) =>
      if ch.Expire? then AfterInc(slot, t, p, b) else Effect(PushLoad(t, p, b), slot, Nothing)
    case PushStore(t, p) =>
      if slot.data == 0 then Effect(Idle, slot.(data := p, tag := t), Put) else Effect(pc, slot, Nothing)
  }

  function PopItem(pc: Pc, slot: Slot, ch: Choice): Effect
    requires OnSlot(pc) && !Pushing(pc)
  {
    match pc
    case PopLoad(q) =>
      Effect(if slot.val > 0 then PopCas(q, slot.val) else PopWait(q), slot, Nothing)
    case PopCas(q, x) =>
      if slot.val == x then AfterDec(slot, q) else Effect(PopLoad(q), slot, Nothing)
    case PopWait(q) =>
      if ch.Expire? then AfterDec(slot, q) else Effect(PopLoad(q), slot, Nothing)
    case PopTake(q) =>
      Effect(if slot.data == 0 then pc else PopGrab(q, slot.data), slot, Nothing)
    case PopGrab(q, d) =>
      if slot.data == d then Effect(Idle, slot.(data := 0), Got(d)) else Effect(PopTake(q), slot, Nothing)
  }

  function Item(pc: Pc, slot: Slot, ch: Choice): Effect
    requires OnSlot(pc)
  {
    if Pushing(pc) then PushItem(pc, slot, ch) else PopItem(pc, slot, ch)
  }

  /** The instructions that touch no slot. */
  function ExecGlobal(s: State, i: nat, ch: Choice): State
    requires i < |s.threads| && !OnSlot(s.threads[i])
  {
    match s.threads[i]
    case PushTicket(p, b) =>
      s.(push := s.push + 1, issued := s.issued + [p], threads := s.threads[i := PushLoad(s.push, p, b)])
    case PopTicket =>
      s.(pop := s.pop + 1, threads := s.threads[i := PopLoad(s.pop)])
    case Idle =>
      if ch.StartPush? && ch.p != 0 then s.(threads := s.threads[i := PushTicket(ch.p, ch.block)])
      else if ch.StartPop? then s.(threads := s.threads[i := PopTicket])
      else s
  }

  /** The slot thread i works on (seq & pos_mask_). */
  function SlotOf(s: State, i: nat): (j: nat)
    requires i < |s.threads| && OnSlot(s.threads[i]) && 0 < s.n
    ensures j < s.n
  {
    Ticket(s.threads[i]) % s.n
  }

  function EffectOf(s: State, i: nat, ch: Choice): Effect
    requires i < |s.threads| && OnSlot(s.threads[i]) && 0 < s.n == |s.slots|
  {
    Item(s.threads[i], s.slots[SlotOf(s, i)], ch)
  }

  /** The state after thread i's effect e on its slot. */
  function Apply(s: State, i: nat, e: Effect): (r: State)
    requires i < |s.threads| && OnSlot(s.threads[i]) && 0 < s.n == |s.slots|
    ensures r.threads == s.threads[i := e.pc]
  {
    var j := SlotOf(s, i);
    var t := Ticket(s.threads[i]);
    var moved := s.(slots := s.slots[j := e.slot], threads := s.threads[i := e.pc]);
    match e.event
    case Nothing => moved
    case Accepted => moved.(place := s.place[t := Pending(i)])
    case Put => moved.(place := s.place[t := Stored])
    case Got(d) =>
      moved.(place := s.place[s.slots[j].tag := Delivered(t)],
             delivered := s.delivered[t := s.slots[j].tag],
             returned := s.returned[t := d])
  }

  function ExecItem(s: State, i: nat, ch: Choice): State
    requires i < |s.threads| && OnSlot(s.threads[i]) && 0 < s.n == |s.slots|
  {
    Apply(s, i, EffectOf(s, i, ch))
  }

  /** One instruction of thread i. */
  function Exec(s: State, i: nat, ch: Choice): (r: State)
    requires i < |s.threads| && 0 < s.n == |s.slots|
    ensures r.n == s.n && |r.slots| == |s.slots| && |r.threads| == |s.threads|
  {
    if OnSlot(s.threads[i]) then ExecItem(s, i, ch) else ExecGlobal(s, i, ch)
  }

  /** A schedule: which thread moves, and how. */
  type Schedule = seq<(nat, Choice)>

  ghost predicate ValidSchedule(sched: Schedule, threadCount: nat) {
    forall k :: 0 <= k < |sched| ==> sched[k].0 < threadCount
  }

  /** The state a schedule reaches from s. */
  function Run(s: State, sched: Schedule): (r: State)
    requires ValidSchedule(sched, |s.threads|)
    requires 0 < s.n == |s.slots|
    ensures r.n == s.n && |r.slots| == |s.slots| && |r.threads| == |s.threads|
    decreases |sched|
  {
    if sched == [] then s
    else
      var m := Run(s, sched[..|sched| - 1]);
      Exec(m, sched[|sched| - 1].0, sched[|sched| - 1].1)
  }

  // ---- The hand-off balance of a slot -------------------------------------

  /** +1 for a thread that owes slot j a store, -1 for one that owes it a take. */
  function Weight(pc: Pc, j: nat, n: nat): int
    requires 0 < n
  {
    match pc
    case PushStore(t, _) => if t % n == j then 1 else 0
    case PopTake(q) => if q % n == j then -1 else 0
    case PopGrab(q, _) => if q % n == j then -1 else 0
    case _ => 0
  }

  /** Pending stores minus pending takes of slot j. */
  function Balance(ts: seq<Pc>, j: nat, n: nat): int
    requires 0 < n
  {
    if ts == [] then 0 else Balance(ts[..|ts| - 1], j, n) + Weight(ts[|ts| - 1], j, n)
  }

  lemma {:induction false} BalanceUpdate(ts: seq<Pc>, i: nat, pc: Pc, j: nat, n: nat)
    requires i < |ts| && 0 < n
    ensures Balance(ts[i := pc], j, n) == Balance(ts, j, n) - Weight(ts[i], j, n) + Weight(pc, j, n)
  {
    var m := |ts| - 1;
    if i == m {
      assert ts[i := pc][..m] == ts[..m];
    } else {
      BalanceUpdate(ts[..m], i, pc, j, n);
      assert ts[i := pc][..m] == ts[..m][i := pc];
    }
  }

  /** A positive balance is owed by some thread with a pending store. */
  lemma {:induction false} PositiveBalance(ts: seq<Pc>, j: nat, n: nat) returns (i: nat)
    requires 0 < n && Balance(ts, j, n) > 0
    ensures i < |ts| && Weight(ts[i], j, n) == 1
  {
    i := |ts| - 1;
    if Weight(ts[i], j, n) != 1 {
      i := PositiveBalance(ts[..i], j, n);
    }
  }

  /** A negative balance is owed by some thread with a pending take. */
  lemma {:induction false} NegativeBalance(ts: seq<Pc>, j: nat, n: nat) returns (i: nat)
    requires 0 < n && Balance(ts, j, n) < 0
    ensures i < |ts| && Weight(ts[i], j, n) == -1
  {
    i := |ts| - 1;
    if Weight(ts[i], j, n) != -1 {
      i := NegativeBalance(ts[..i], j, n);
    }
  }

  // ---- The invariant -------------------------------------------------------

  ghost predicate HasTicket(s: State, t: nat, p: nat) {
    t < s.push == |s.issued| && p != 0 && s.issued[t] == p
  }

  ghost predicate PcOk(s: State, pc: Pc) {
    match pc
    case PushTicket(p, _) => p != 0
    case PushLoad(t, p, _) => HasTicket(s, t, p)
    case PushCas(t, p, _, x) => HasTicket(s, t, p) && x <= 0
    case PushAdd(t, p, _) => HasTicket(s, t, p)
    case PushWait(t, p, _) => HasTicket(s, t, p)
    case PushStore(t, p) => HasTicket(s, t, p)
    case PopLoad(q) => q < s.pop
    case PopCas(q, x) => q < s.pop && x > 0
    case PopWait(q) => q < s.pop
    case PopTake(q) => q < s.pop
    case PopGrab(q, d) => q < s.pop && d != 0
    case _ => true
  }

  ghost predicate Shape(s: State) {
    && 0 < s.n == |s.slots|
    && |s.issued| == s.push
    && (forall i :: 0 <= i < |s.threads| ==> PcOk(s, s.threads[i]))
  }

  /** The hand-off equation of slot j: what is owed and what is there add up to
      what the counter promises. */
  ghost predicate Balanced(s: State, j: nat)
    requires 0 < s.n == |s.slots| && j < s.n
  {
    Balance(s.threads, j, s.n) + (if s.slots[j].data != 0 then 1 else 0)
    == if s.slots[j].val >= 1 then 1 else 0
  }

  /** The accepted pushes (true) and successful pops (false) of a slot alternate,
      beginning with a push, and the counter is positive exactly between them. */
  ghost predicate Alternates(slot: Slot) {
    && (forall k :: 0 <= k < |slot.log| ==> slot.log[k] == (k % 2 == 0))
    && (|slot.log| % 2 == 1 <==> slot.val >= 1)
  }

  lemma ItemPcOk(s: State, pc: Pc, slot: Slot, ch: Choice)
    requires OnSlot(pc) && PcOk(s, pc)
    ensures PcOk(s, Item(pc, slot, ch).pc)
  {
  }

  /** Taking tickets keeps what is known of every program counter. */
  lemma PcOkGrows(s: State, r: State, pc: Pc)
    requires PcOk(s, pc)
    requires |s.issued| == s.push && |r.issued| == r.push
    requires s.push <= r.push && s.pop <= r.pop && s.issued <= r.issued
    ensures PcOk(r, pc)
  {
  }

  lemma GlobalShape(s: State, i: nat, ch: Choice)
    requires Shape(s) && i < |s.threads| && !OnSlot(s.threads[i])
    ensures Shape(ExecGlobal(s, i, ch))
  {
    var r := ExecGlobal(s, i, ch);
    forall k | 0 <= k < |r.threads| ensures PcOk(r, r.threads[k]) {
      if k != i { PcOkGrows(s, r, s.threads[k]); }
    }
  }

  lemma ItemShape(s: State, i: nat, ch: Choice)
    requires Shape(s) && i < |s.threads| && OnSlot(s.threads[i])
    ensures Shape(ExecItem(s, i, ch))
  {
    var r := ExecItem(s, i, ch);
    var e := EffectOf(s, i, ch);
    ItemPcOk(s, s.threads[i], s.slots[SlotOf(s, i)], ch);
    forall k | 0 <= k < |r.threads| ensures PcOk(r, r.threads[k]) {
      PcOkGrows(s, r, if k == i then e.pc else s.threads[k]);
    }
  }

  lemma ItemAlternates(pc: Pc, slot: Slot, ch: Choice)
    requires OnSlot(pc) && Alternates(slot)
    requires pc.PopCas? ==> pc.x > 0
    ensures Alternates(Item(pc, slot, ch).slot)
  {
  }

  /** What an instruction changes in the balance, in the cell and in the counter cancels out. */
  lemma ItemBalance(pc: Pc, slot: Slot, ch: Choice, n: nat)
    requires OnSlot(pc) && 0 < n
    requires pc.PushStore? ==> pc.p != 0
    requires pc.PopGrab? ==> pc.d != 0
    ensures var j := Ticket(pc) % n; var e := Item(pc, slot, ch);
      Weight(e.pc, j, n) - Weight(pc, j, n)
      == (if e.slot.val >= 1 then 1 else 0) - (if slot.val >= 1 then 1 else 0)
       - (if e.slot.data != 0 then 1 else 0) + (if slot.data != 0 then 1 else 0)
    ensures forall j :: j != Ticket(pc) % n ==> Weight(Item(pc, slot, ch).pc, j, n) == Weight(pc, j, n) == 0
  {
  }

  ghost predicate SlotsOk(s: State)
    requires 0 < s.n == |s.slots|
  {
    forall j :: 0 <= j < s.n ==> Alternates(s.slots[j]) && Balanced(s, j)
  }

  lemma GlobalSlots(s: State, i: nat, ch: Choice)
    requires Shape(s) && SlotsOk(s) && i < |s.threads| && !OnSlot(s.threads[i])
    ensures SlotsOk(ExecGlobal(s, i, ch))
  {
    var r := ExecGlobal(s, i, ch);
    forall j | 0 <= j < r.n ensures Alternates(r.slots[j]) && Balanced(r, j) {
      assert Balanced(s, j);
      BalanceUpdate(s.threads, i, r.threads[i], j, s.n);
      assert r.threads == s.threads[i := r.threads[i]];
    }
  }

  lemma ItemSlot(s: State, i: nat, ch: Choice, j: nat)
    requires Shape(s) && SlotsOk(s) && i < |s.threads| && OnSlot(s.threads[i]) && j < s.n
    ensures Alternates(ExecItem(s, i, ch).slots[j]) && Balanced(ExecItem(s, i, ch), j)
  {
    hide Item, Alternates, Balance, Weight;
    var e := EffectOf(s, i, ch);
    var pc := s.threads[i];
    assert PcOk(s, pc) && Alternates(s.slots[j]) && Balanced(s, j);
    BalanceUpdate(s.threads, i, e.pc, j, s.n);
    ItemBalance(pc, s.slots[SlotOf(s, i)], ch, s.n);
    if j == SlotOf(s, i) { ItemAlternates(pc, s.slots[j], ch); }
  }

  lemma ItemSlots(s: State, i: nat, ch: Choice)
    requires Shape(s) && SlotsOk(s) && i < |s.threads| && OnSlot(s.threads[i])
    ensures SlotsOk(ExecItem(s, i, ch))
  {
    forall j | 0 <= j < s.n
      ensures Alternates(ExecItem(s, i, ch).slots[j]) && Balanced(ExecItem(s, i, ch), j)
    {
      ItemSlot(s, i, ch, j);
    }
  }

  // ---- Where every accepted pointer is -------------------------------------

  predicate Seeking(pc: Pc) {
    pc.PushLoad? || pc.PushCas? || pc.PushAdd? || pc.PushWait?
  }

  predicate Popping(pc: Pc) {
    OnSlot(pc) && !Pushing(pc)
  }

  ghost predicate ThreadHome(s: State, i: nat)
    requires i < |s.threads|
  {
    var pc := s.threads[i];
    && (Seeking(pc) ==> pc.t !in s.place)
    && (pc.PushStore? ==> pc.t in s.place && s.place[pc.t] == Pending(i))
    && (Popping(pc) ==> pc.q !in s.delivered)
  }

  ghost predicate Clash(a: Pc, b: Pc) {
    OnSlot(a) && OnSlot(b) && Pushing(a) == Pushing(b) && Ticket(a) == Ticket(b)
  }

  ghost predicate SlotHome(s: State, j: nat)
    requires 0 < s.n && j < |s.slots|
  {
    var slot := s.slots[j];
    slot.data != 0 ==>
      && HasTicket(s, slot.tag, slot.data) && slot.tag % s.n == j
      && slot.tag in s.place && s.place[slot.tag] == Stored
  }

  ghost predicate PlaceHome(s: State, t: nat)
    requires 0 < s.n == |s.slots| && t in s.place
  {
    && t < s.push == |s.issued| && s.issued[t] != 0
    && match s.place[t]
       case Pending(i) => i < |s.threads| && s.threads[i] == PushStore(t, s.issued[t])
       case Stored => s.slots[t % s.n].data == s.issued[t] && s.slots[t % s.n].tag == t
       case Delivered(q) => q in s.delivered && s.delivered[q] == t
  }

  ghost predicate DeliveredHome(s: State, q: nat)
    requires 0 < s.n && q in s.delivered
  {
    var t := s.delivered[q];
    && q < s.pop && t % s.n == q % s.n
    && t in s.place && s.place[t] == Delivered(q)
    && q in s.returned && HasTicket(s, t, s.returned[q])
  }

  ghost predicate ThreadsHome(s: State) {
    && (forall i :: 0 <= i < |s.threads| ==> ThreadHome(s, i))
    && (forall i, k :: 0 <= i < k < |s.threads| ==> !Clash(s.threads[i], s.threads[k]))
  }

  ghost predicate ItemsHome(s: State)
    requires 0 < s.n == |s.slots|
  {
    && (forall j :: 0 <= j < s.n ==> SlotHome(s, j))
    && (forall t :: t in s.place ==> PlaceHome(s, t))
    && (forall q :: q in s.delivered ==> DeliveredHome(s, q))
    && s.returned.Keys == s.delivered.Keys
  }

  ghost predicate Home(s: State)
    requires 0 < s.n == |s.slots|
  {
    ThreadsHome(s) && ItemsHome(s)
  }

  ghost predicate Inv(s: State) {
    Shape(s) && SlotsOk(s) && Home(s)
  }

  /** A fresh ticket clashes with no thread's and is not placed yet. */
  lemma GlobalThreadHome(s: State, i: nat, ch: Choice, k: nat)
    requires Shape(s) && Home(s) && i < |s.threads| && !OnSlot(s.threads[i]) && k < |s.threads|
    ensures ThreadHome(ExecGlobal(s, i, ch), k)
  {
    assert PcOk(s, s.threads[k]) && ThreadHome(s, k);
    assert s.push in s.place ==> PlaceHome(s, s.push);
    assert s.pop in s.delivered ==> DeliveredHome(s, s.pop);
  }

  lemma GlobalThreadsHome(s: State, i: nat, ch: Choice)
    requires Shape(s) && Home(s) && i < |s.threads| && !OnSlot(s.threads[i])
    ensures ThreadsHome(ExecGlobal(s, i, ch))
  {
    hide ItemsHome;
    var r := ExecGlobal(s, i, ch);
    forall k | 0 <= k < |r.threads| ensures ThreadHome(r, k) { GlobalThreadHome(s, i, ch, k); }
    hide ThreadHome;
    forall k, l | 0 <= k < l < |r.threads| ensures !Clash(r.threads[k], r.threads[l]) {
      assert PcOk(s, s.threads[k]) && PcOk(s, s.threads[l]);
      assert !Clash(s.threads[k], s.threads[l]);
    }
  }

  /** What an instruction that touches no slot may change. */
  ghost predicate Grows(s: State, r: State, i: nat) {
    && r.n == s.n && r.slots == s.slots && r.place == s.place && r.delivered == s.delivered && r.returned == s.returned
    && s.pop <= r.pop && s.push <= r.push && |s.issued| <= |r.issued| && s.issued == r.issued[..|s.issued|]
    && |r.issued| == r.push && |r.threads| == |s.threads|
    && forall k :: 0 <= k < |s.threads| && k != i ==> r.threads[k] == s.threads[k]
  }

  lemma GlobalGrows(s: State, i: nat, ch: Choice)
    requires Shape(s) && i < |s.threads| && !OnSlot(s.threads[i])
    ensures Grows(s, ExecGlobal(s, i, ch), i)
  {
    hide PcOk;
  }

  lemma GlobalItemsHome(s: State, i: nat, ch: Choice)
    requires Shape(s) && Home(s) && i < |s.threads| && !OnSlot(s.threads[i])
    ensures ItemsHome(ExecGlobal(s, i, ch))
  {
    hide ExecGlobal, ThreadsHome, PcOk;
    var r := ExecGlobal(s, i, ch);
    GlobalGrows(s, i, ch);
    forall j | 0 <= j < r.n ensures SlotHome(r, j) { assert SlotHome(s, j); }
    forall t | t in r.place ensures PlaceHome(r, t) { assert PlaceHome(s, t); }
    forall q | q in r.delivered ensures DeliveredHome(r, q) { assert DeliveredHome(s, q); }
  }

  /** What the event of an effect says about the program counters and the cell. */
  ghost predicate Explains(pc: Pc, slot: Slot, e: Effect)
    requires OnSlot(pc)
  {
    match e.event
    case Nothing =>
      && e.slot.data == slot.data && e.slot.tag == slot.tag
      && (OnSlot(e.pc) ==> Ticket(e.pc) == Ticket(pc) && Seeking(e.pc) == Seeking(pc) && Pushing(e.pc) == Pushing(pc))
      && (pc.PushStore? ==> e.pc == pc)
    case Accepted => Seeking(pc) && e.pc == PushStore(pc.t, pc.p) && e.slot.data == slot.data && e.slot.tag == slot.tag
    case Put => pc.PushStore? && slot.data == 0 && e.pc == Idle && e.slot.data == pc.p && e.slot.tag == pc.t
    case Got(d) => pc == PopGrab(Ticket(pc), d) && slot.data == d && e.pc == Idle && e.slot.data == 0
  }

  lemma ItemExplained(pc: Pc, slot: Slot, ch: Choice)
    requires OnSlot(pc)
    ensures Explains(pc, slot, Item(pc, slot, ch))
  {
  }

  ghost predicate CanApply(s: State, i: nat, e: Effect) {
    && Shape(s) && Home(s) && i < |s.threads| && OnSlot(s.threads[i])
    && Explains(s.threads[i], s.slots[SlotOf(s, i)], e)
  }

  lemma ApplyClash(s: State, i: nat, e: Effect)
    requires CanApply(s, i, e)
    ensures var r := Apply(s, i, e);
      forall k, l :: 0 <= k < l < |r.threads| ==> !Clash(r.threads[k], r.threads[l])
  {
    var r := Apply(s, i, e);
    forall k, l | 0 <= k < l < |r.threads| ensures !Clash(r.threads[k], r.threads[l]) {
      assert !Clash(s.threads[k], s.threads[l]);
    }
  }

  lemma ApplyThreads(s: State, i: nat, e: Effect)
    requires CanApply(s, i, e)
    ensures ThreadsHome(Apply(s, i, e))
  {
    var r := Apply(s, i, e);
    ApplyClash(s, i, e);
    forall k | 0 <= k < |r.threads| ensures ThreadHome(r, k) {
      assert ThreadHome(s, k) && ThreadHome(s, i);
      assert SlotHome(s, SlotOf(s, i));
      assert PcOk(s, s.threads[i]);
      assert k < i ==> !Clash(s.threads[k], s.threads[i]);
      assert i < k ==> !Clash(s.threads[i], s.threads[k]);
    }
  }

  lemma ApplyNothing(s: State, i: nat, e: Effect)
    requires CanApply(s, i, e) && e.event == Nothing
    ensures ItemsHome(Apply(s, i, e))
  {
    var r := Apply(s, i, e);
    forall j | 0 <= j < r.n ensures SlotHome(r, j) { assert SlotHome(s, j); }
    forall t | t in r.place ensures PlaceHome(r, t) { assert PlaceHome(s, t); }
    forall q | q in r.delivered ensures DeliveredHome(r, q) { assert DeliveredHome(s, q); }
  }

  lemma ApplyPush(s: State, i: nat, e: Effect)
    requires CanApply(s, i, e) && (e.event == Accepted || e.event == Put)
    ensures ItemsHome(Apply(s, i, e))
  {
    var r := Apply(s, i, e);
    assert PcOk(s, s.threads[i]) && ThreadHome(s, i);
    forall j | 0 <= j < r.n ensures SlotHome(r, j) { assert SlotHome(s, j); }
    forall t | t in r.place ensures PlaceHome(r, t) { assert t in s.place ==> PlaceHome(s, t); }
    forall q | q in r.delivered ensures DeliveredHome(r, q) { assert DeliveredHome(s, q); }
  }

  lemma ApplyPop(s: State, i: nat, e: Effect)
    requires CanApply(s, i, e) && e.event.Got?
    ensures ItemsHome(Apply(s, i, e))
  {
    var r := Apply(s, i, e);
    var tag := s.slots[SlotOf(s, i)].tag;
    assert PcOk(s, s.threads[i]) && ThreadHome(s, i) && SlotHome(s, SlotOf(s, i));
    forall j | 0 <= j < r.n ensures SlotHome(r, j) { assert SlotHome(s, j); }
    forall t | t in r.place ensures PlaceHome(r, t) { assert PlaceHome(s, t); }
    forall q | q in r.delivered ensures DeliveredHome(r, q) { assert q in s.delivered ==> DeliveredHome(s, q); }
  }

  /** Every instruction of every thread keeps the invariant. */
  lemma InvStep(s: State, i: nat, ch: Choice)
    requires Inv(s) && i < |s.threads|
    ensures Inv(Exec(s, i, ch))
  {
    if OnSlot(s.threads[i]) {
      var e := EffectOf(s, i, ch);
      ItemExplained(s.threads[i], s.slots[SlotOf(s, i)], ch);
      ItemShape(s, i, ch);
      ItemSlots(s, i, ch);
      ApplyThreads(s, i, e);
      match e.event {
        case Nothing => ApplyNothing(s, i, e);
        case Got(_) => ApplyPop(s, i, e);
        case _ => ApplyPush(s, i, e);
      }
    } else {
      GlobalShape(s, i, ch);
      GlobalSlots(s, i, ch);
      GlobalThreadsHome(s, i, ch);
      GlobalItemsHome(s, i, ch);
    }
  }

  lemma {:induction false} BalanceAllIdle(ts: seq<Pc>, j: nat, n: nat)
    requires 0 < n && forall i :: 0 <= i < |ts| ==> ts[i] == Idle
    ensures Balance(ts, j, n) == 0
  {
    if ts != [] { BalanceAllIdle(ts[..|ts| - 1], j, n); }
  }

  lemma InvInit(n: nat, threadCount: nat)
    requires 0 < n
    ensures Inv(Init(n, threadCount))
  {
    var s := Init(n, threadCount);
    forall j | 0 <= j < n ensures Alternates(s.slots[j]) && Balanced(s, j) {
      BalanceAllIdle(s.threads, j, n);
    }
  }

  lemma {:induction false} InvRun(s: State, sched: Schedule)
    requires Inv(s) && ValidSchedule(sched, |s.threads|)
    ensures Inv(Run(s, sched))
    decreases |sched|
  {
    if sched != [] {
      var m := |sched| - 1;
      InvRun(s, sched[..m]);
      InvStep(Run(s, sched[..m]), sched[m].0, sched[m].1);
    }
  }

  // ---- What follows for every run from the empty queue ---------------------

  /** In every interleaving: what the threads still owe a slot and what the slot
      holds add up to what its counter promises, and accepted pushes and
      successful pops of the slot strictly alternate, however far overflow
      increments and expired waits have driven the counter. */
  lemma HandoffEquation(n: nat, threadCount: nat, sched: Schedule, j: nat)
    requires 0 < n && j < n && ValidSchedule(sched, threadCount)
    ensures var s := Run(Init(n, threadCount), sched);
      && Balance(s.threads, j, n) + (if s.slots[j].data != 0 then 1 else 0)
         == (if s.slots[j].val >= 1 then 1 else 0)
      && (forall k :: 0 <= k < |s.slots[j].log| ==> s.slots[j].log[k] == (k % 2 == 0))
      && (|s.slots[j].log| % 2 == 1 <==> s.slots[j].val >= 1)
  {
    InvInit(n, threadCount);
    InvRun(Init(n, threadCount), sched);
    var s := Run(Init(n, threadCount), sched);
    assert Alternates(s.slots[j]) && Balanced(s, j);
  }

  /** In every interleaving, no accepted pointer is returned by two pops, and
      every pop that succeeds returns the pointer of an accepted push on its slot. */
  lemma ReturnedAtMostOnce(n: nat, threadCount: nat, sched: Schedule, q1: nat, q2: nat)
    requires 0 < n && ValidSchedule(sched, threadCount)
    requires var s := Run(Init(n, threadCount), sched); q1 in s.delivered && q2 in s.delivered
    ensures var s := Run(Init(n, threadCount), sched);
      && (s.delivered[q1] == s.delivered[q2] ==> q1 == q2)
      && s.delivered[q1] in s.place && s.delivered[q1] % n == q1 % n
      && q1 in s.returned && HasTicket(s, s.delivered[q1], s.returned[q1])
  {
    InvInit(n, threadCount);
    InvRun(Init(n, threadCount), sched);
    var s := Run(Init(n, threadCount), sched);
    assert DeliveredHome(s, q1) && DeliveredHome(s, q2);
  }

  lemma ApplyGrows(s: State, i: nat, e: Effect)
    requires i < |s.threads| && OnSlot(s.threads[i]) && 0 < s.n == |s.slots|
    ensures s.place.Keys <= Apply(s, i, e).place.Keys
    ensures s.issued == Apply(s, i, e).issued
  {
  }

  lemma PlaceGrows(s: State, i: nat, ch: Choice)
    requires i < |s.threads| && 0 < s.n == |s.slots|
    ensures s.place.Keys <= Exec(s, i, ch).place.Keys
    ensures s.issued <= Exec(s, i, ch).issued
  {
    if OnSlot(s.threads[i]) { ApplyGrows(s, i, EffectOf(s, i, ch)); }
  }

  lemma {:induction false} PlaceGrowsRun(s: State, sched: Schedule)
    requires ValidSchedule(sched, |s.threads|) && 0 < s.n == |s.slots|
    ensures s.place.Keys <= Run(s, sched).place.Keys
    ensures s.issued <= Run(s, sched).issued
    decreases |sched|
  {
    if sched != [] {
      var m := |sched| - 1;
      PlaceGrowsRun(s, sched[..m]);
      PlaceGrows(Run(s, sched[..m]), sched[m].0, sched[m].1);
    }
  }

  /** An accepted pointer is never lost: whatever happens later, its pusher still
      holds it, or it is in its slot, or some pop has returned exactly it. */
  lemma NeverLost(s: State, sched: Schedule, t: nat)
    requires Inv(s) && t in s.place && ValidSchedule(sched, |s.threads|)
    ensures t < |s.issued|
    ensures var r := Run(s, sched); var p := s.issued[t];
      || (exists i :: 0 <= i < |r.threads| && r.threads[i] == PushStore(t, p))
      || (r.slots[t % r.n].data == p != 0 && r.slots[t % r.n].tag == t)
      || (exists q :: q in r.returned && q in r.delivered && r.delivered[q] == t && r.returned[q] == p)
  {
    var r := Run(s, sched);
    assert PlaceHome(s, t);
    InvRun(s, sched);
    PlaceGrowsRun(s, sched);
    assert t in r.place && PlaceHome(r, t);
    match r.place[t] {
      case Pending(i) => assert r.threads[i] == PushStore(t, s.issued[t]);
      case Stored =>
      case Delivered(q) => assert DeliveredHome(r, q);
    }
  }

  // ---- The hand-off cannot get stuck ---------------------------------------

  predicate InHandoff(pc: Pc) {
    pc.PushStore? || pc.PopTake? || pc.PopGrab?
  }

  lemma RunSnoc(s: State, sched: Schedule, i: nat, ch: Choice)
    requires 0 < s.n == |s.slots| && i < |s.threads| && ValidSchedule(sched, |s.threads|)
    ensures ValidSchedule(sched + [(i, ch)], |s.threads|)
    ensures Run(s, sched + [(i, ch)]) == Exec(Run(s, sched), i, ch)
  {
    assert (sched + [(i, ch)])[..|sched|] == sched;
  }

  /** One step of a popper at a full cell. */
  lemma TakerStep(s: State, i: nat)
    requires 0 < s.n == |s.slots| && i < |s.threads|
    requires s.threads[i].PopTake? || s.threads[i].PopGrab?
    requires s.slots[SlotOf(s, i)].data != 0
    ensures var r := Exec(s, i, Go); var j := SlotOf(s, i); var pc := s.threads[i]; var d := s.slots[j].data;
      if pc.PopTake? then r.slots == s.slots && r.threads == s.threads[i := PopGrab(pc.q, d)]
      else if pc.d != d then r.slots == s.slots && r.threads == s.threads[i := PopTake(pc.q)]
      else r.slots == s.slots[j := s.slots[j].(data := 0)] && r.threads == s.threads[i := Idle]
  {
  }

  /** A popper at a full cell empties it, whatever it loaded before. */
  lemma TakerEmpties(s: State, i: nat) returns (sched: Schedule)
    requires 0 < s.n == |s.slots| && i < |s.threads|
    requires s.threads[i].PopTake? || s.threads[i].PopGrab?
    requires s.slots[SlotOf(s, i)].data != 0
    ensures |sched| == if s.threads[i].PopTake? then 2 else if s.threads[i].d != s.slots[SlotOf(s, i)].data then 3 else 1
    ensures ValidSchedule(sched, |s.threads|)
    ensures var r := Run(s, sched);
      r.threads == s.threads[i := Idle] && r.slots == s.slots[SlotOf(s, i) := s.slots[SlotOf(s, i)].(data := 0)]
    decreases if s.threads[i].PopTake? then 1 else if s.threads[i].d != s.slots[SlotOf(s, i)].data then 2 else 0
  {
    TakerStep(s, i);
    RunSnoc(s, [], i, Go);
    var first := [(i, Go)];
    var r := Exec(s, i, Go);
    assert Run(s, first) == r;
    if r.threads[i] == Idle {
      sched := first;
    } else {
      var rest := TakerEmpties(r, i);
      RunConcat(s, first, rest);
      sched := first + rest;
    }
  }

  /** If a pusher waits at a full cell, some popper owes that cell a take. */
  lemma TakerExists(s: State, i: nat) returns (k: nat)
    requires Inv(s) && i < |s.threads| && s.threads[i].PushStore?
    requires s.slots[SlotOf(s, i)].data != 0
    ensures k < |s.threads| && k != i && (s.threads[k].PopTake? || s.threads[k].PopGrab?)
    ensures SlotOf(s, k) == SlotOf(s, i)
  {
    var j := SlotOf(s, i);
    assert Balanced(s, j);
    BalanceUpdate(s.threads, i, Idle, j, s.n);
    k := NegativeBalance(s.threads[i := Idle], j, s.n);
  }

  /** If a popper waits at an empty cell, some pusher owes that cell a store. */
  lemma StorerExists(s: State, i: nat) returns (k: nat)
    requires Inv(s) && i < |s.threads| && (s.threads[i].PopTake? || s.threads[i].PopGrab?)
    requires s.slots[SlotOf(s, i)].data == 0
    ensures k < |s.threads| && k != i && s.threads[k].PushStore?
    ensures SlotOf(s, k) == SlotOf(s, i)
  {
    var j := SlotOf(s, i);
    assert Balanced(s, j);
    BalanceUpdate(s.threads, i, Idle, j, s.n);
    k := PositiveBalance(s.threads[i := Idle], j, s.n);
  }

  lemma {:induction false} RunConcat(s: State, a: Schedule, b: Schedule)
    requires 0 < s.n == |s.slots| && ValidSchedule(a, |s.threads|) && ValidSchedule(b, |s.threads|)
    ensures ValidSchedule(a + b, |s.threads|)
    ensures Run(s, a + b) == Run(Run(s, a), b)
    decreases |b|
  {
    if b == [] {
      assert a + b == a;
    } else {
      var m := |b| - 1;
      RunConcat(s, a, b[..m]);
      assert a + b == (a + b[..m]) + [b[m]];
      RunSnoc(s, a + b[..m], b[m].0, b[m].1);
    }
  }

  /** One step of a pusher at an empty cell. */
  lemma StorerStep(s: State, i: nat)
    requires 0 < s.n == |s.slots| && i < |s.threads| && s.threads[i].PushStore?
    requires s.slots[SlotOf(s, i)].data == 0
    ensures var r := Exec(s, i, Go);
      && r.threads == s.threads[i := Idle] && r.n == s.n
      && r.slots[SlotOf(s, i)].data == s.threads[i].p
  {
  }

  lemma StoreCompletes(s: State, i: nat) returns (sched: Schedule)
    requires Inv(s) && i < |s.threads| && s.threads[i].PushStore?
    ensures |sched| <= 4 && ValidSchedule(sched, |s.threads|)
    ensures Run(s, sched).threads[i] == Idle
  {
    sched := [];
    if s.slots[SlotOf(s, i)].data != 0 {
      var k := TakerExists(s, i);
      sched := TakerEmpties(s, k);
    }
    var r := Run(s, sched);
    StorerStep(r, i);
    RunSnoc(s, sched, i, Go);
    sched := sched + [(i, Go)];
  }

  lemma TakeCompletes(s: State, i: nat) returns (sched: Schedule)
    requires Inv(s) && i < |s.threads| && (s.threads[i].PopTake? || s.threads[i].PopGrab?)
    ensures |sched| <= 4 && ValidSchedule(sched, |s.threads|)
    ensures Run(s, sched).threads[i] == Idle
  {
    sched := [];
    if s.slots[SlotOf(s, i)].data == 0 {
      var k := StorerExists(s, i);
      assert PcOk(s, s.threads[k]);
      StorerStep(s, k);
      RunSnoc(s, sched, k, Go);
      sched := sched + [(k, Go)];
    }
    var r := Run(s, sched);
    var rest := TakerEmpties(r, i);
    RunConcat(s, sched, rest);
    sched := sched + rest;
  }

  /** From every reachable state, a thread spinning in the hand-off finishes it
      within four instructions of a suitable schedule: there is no deadlock. */
  lemma HandoffCompletes(s: State, i: nat) returns (sched: Schedule)
    requires Inv(s) && i < |s.threads| && InHandoff(s.threads[i])
    ensures |sched| <= 4 && ValidSchedule(sched, |s.threads|)
    ensures Run(s, sched).threads[i] == Idle
  {
    if s.threads[i].PushStore? {
      sched := StoreCompletes(s, i);
    } else {
      sched := TakeCompletes(s, i);
    }
  }
}
