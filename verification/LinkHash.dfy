/**
  The open-addressing hash table of json-c, whose live slots are threaded on a doubly
  linked list in insertion order.  Slots are numbered; -1 is the null pointer.
  Deleted slots stay behind as tombstones (Freed).
*/
module LinkHash {
  import opened Shared
  import DivMod

  /** LH_EMPTY, LH_FREED or a key. */
  datatype Cell = Empty | Freed | Live(key: string)

  datatype Entry = Entry(k: Cell, v: nat, next: int, prev: int)

  const NO_SLOT: int := -1

  type Table = seq<Entry>
  type Hash = string -> nat

  // ---- The invariant, on values --------------------------------------------

  ghost predicate SlotsOk(t: Table, order: seq<nat>) {
    && (forall i :: 0 <= i < |order| ==> order[i] < |t| && t[order[i]].k.Live?)
    && (forall i, j :: 0 <= i < j < |order| ==> order[i] != order[j])
    && (forall s :: 0 <= s < |t| && t[s].k.Live? ==> s in order)
  }

  function At(order: seq<nat>, i: int): int {
    if 0 <= i < |order| then order[i] else NO_SLOT
  }

  /** The neighbours of element i on the list. */
  ghost predicate NodeOk(t: Table, order: seq<nat>, i: nat) {
    i < |order| && order[i] < |t| && t[order[i]].next == At(order, i + 1) && t[order[i]].prev == At(order, i - 1)
  }

  /** The list from head to tail visits the slots of `order`; prev inverts next. */
  ghost predicate ListOk(t: Table, order: seq<nat>, head: int, tail: int) {
    && head == At(order, 0) && tail == At(order, |order| - 1)
    && (forall i :: 0 <= i < |order| ==> NodeOk(t, order, i))
  }

  ghost predicate KeysOk(t: Table, order: seq<nat>)
    requires SlotsOk(t, order)
  {
    forall i, j :: 0 <= i < j < |order| ==> t[order[i]].k != t[order[j]].k
  }

  /** The slot the probe for hash value h looks at after d steps. */
  function Probe(h: nat, d: nat, n: nat): (s: nat)
    requires 0 < n
    ensures s < n
  {
    (h + d) % n
  }

  /** Probing for h reaches slot s in d steps without meeting an empty slot. */
  ghost predicate Reaches(t: Table, h: nat, d: nat, s: nat)
    requires t != []
  {
    d < |t| && Probe(h, d, |t|) == s && forall e: nat :: e < d ==> t[Probe(h, e, |t|)].k != Empty
  }

  /** No empty slot lies between a live key's hash position and its slot. */
  ghost predicate ProbesOk(t: Table, hash: Hash)
    requires t != []
  {
    forall s :: 0 <= s < |t| && t[s].k.Live? ==> exists d :: Reaches(t, hash(t[s].k.key), d, s)
  }

  ghost predicate Ok(t: Table, order: seq<nat>, head: int, tail: int, hash: Hash) {
    && t != [] && SlotsOk(t, order) && ListOk(t, order, head, tail) && KeysOk(t, order) && ProbesOk(t, hash)
  }

  /** The live entries in insertion order. */
  ghost function Contents(t: Table, order: seq<nat>): (c: seq<(string, nat)>)
    requires SlotsOk(t, order)
    ensures |c| == |order|
  {
    seq(|order|, i requires 0 <= i < |order| => (t[order[i]].k.key, t[order[i]].v))
  }

  ghost predicate HasKey(c: seq<(string, nat)>, key: string) {
    exists i :: 0 <= i < |c| && c[i].0 == key
  }

  // ---- Lookup --------------------------------------------------------------

  /** The first d probes met neither an empty slot nor the key. */
  ghost predicate Passed(t: Table, h: nat, key: string, d: nat)
    requires t != []
  {
    forall e: nat :: e < d ==> t[Probe(h, e, |t|)].k != Empty && t[Probe(h, e, |t|)].k != Live(key)
  }

  /** If the probe then meets an empty slot, or has seen every slot, no slot holds the key. */
  lemma ProbeMiss(t: Table, hash: Hash, key: string, d: nat, s: nat)
    requires t != [] && ProbesOk(t, hash) && Passed(t, hash(key), key, d) && d <= |t|
    requires d < |t| ==> t[Probe(hash(key), d, |t|)].k == Empty
    requires s < |t|
    ensures t[s].k != Live(key)
  {
  }

  lemma LiveInContents(t: Table, order: seq<nat>, key: string)
    requires SlotsOk(t, order)
    ensures HasKey(Contents(t, order), key) <==> exists s :: 0 <= s < |t| && t[s].k == Live(key)
  {
    var c := Contents(t, order);
    if HasKey(c, key) {
      var i :| 0 <= i < |c| && c[i].0 == key;
      assert t[order[i]].k == Live(key);
    }
    if s :| 0 <= s < |t| && t[s].k == Live(key) {
      var i :| 0 <= i < |order| && order[i] == s;
      assert c[i].0 == key;
    }
  }

  // ---- Free slots ----------------------------------------------------------

  function Range(n: nat): (r: set<nat>)
    ensures |r| == n && forall s: nat :: s in r <==> s < n
  {
    if n == 0 then {} else Range(n - 1) + {n - 1}
  }

  function Elements(order: seq<nat>): (r: set<nat>)
    ensures |r| <= |order| && forall s: nat :: s in r <==> s in order
  {
    if order == [] then {} else Elements(order[..|order| - 1]) + {order[|order| - 1]}
  }

  lemma SubsetSize(a: set<nat>, b: set<nat>)
    requires a <= b
    ensures |a| <= |b|
    decreases a
  {
    if a != {} {
      var x :| x in a;
      SubsetSize(a - {x}, b - {x});
    }
  }

  /** A table with fewer entries than slots has a slot that is not live. */
  lemma FreeSlot(t: Table, order: seq<nat>) returns (s: nat)
    requires SlotsOk(t, order) && |order| < |t|
    ensures s < |t| && !t[s].k.Live?
  {
    if forall s :: 0 <= s < |t| ==> t[s].k.Live? {
      assert Range(|t|) <= Elements(order);
      SubsetSize(Range(|t|), Elements(order));
      assert false;
    }
    s :| 0 <= s < |t| && !t[s].k.Live?;
  }

  // ---- Insertion and deletion, on values -----------------------------------

  /** Slot s gets the key and becomes the tail of the list. */
  function Placed(t: Table, tail: int, s: nat, key: string, v: nat): Table
    requires s < |t| && -1 <= tail < |t|
  {
    if tail == NO_SLOT then t[s := Entry(Live(key), v, NO_SLOT, NO_SLOT)]
    else t[tail := t[tail].(next := s)][s := Entry(Live(key), v, NO_SLOT, tail)]
  }

  lemma TailInRange(t: Table, order: seq<nat>, head: int, tail: int)
    requires SlotsOk(t, order) && ListOk(t, order, head, tail)
    ensures -1 <= tail < |t| && -1 <= head < |t| && (tail == NO_SLOT <==> order == []) && (head == NO_SLOT <==> order == [])
    ensures tail != NO_SLOT ==> t[tail].k.Live? && tail in order
  {
  }

  ghost predicate CanPlace(t: Table, order: seq<nat>, head: int, tail: int, s: nat) {
    SlotsOk(t, order) && ListOk(t, order, head, tail) && s < |t| && !t[s].k.Live? && -1 <= tail < |t|
  }

  /** What placing does to the slots already on the list. */
  lemma PlacedAt(t: Table, order: seq<nat>, head: int, tail: int, s: nat, key: string, v: nat, i: nat)
    requires CanPlace(t, order, head, tail, s) && i < |order|
    ensures var e := Placed(t, tail, s, key, v)[order[i]];
      && e == t[order[i]].(next := if i == |order| - 1 then s else t[order[i]].next)
      && order[i] != s
  {
    TailInRange(t, order, head, tail);
    assert t[order[i]].k.Live?;
    if i < |order| - 1 { assert order[i] != order[|order| - 1]; }
  }

  lemma PlacedSlots(t: Table, order: seq<nat>, head: int, tail: int, s: nat, key: string, v: nat)
    requires CanPlace(t, order, head, tail, s)
    ensures SlotsOk(Placed(t, tail, s, key, v), order + [s])
  {
    hide ListOk;
    var t1, o1 := Placed(t, tail, s, key, v), order + [s];
    TailInRange(t, order, head, tail);
    forall i | 0 <= i < |order| ensures o1[i] == order[i] < |t1| && t1[order[i]].k.Live? && order[i] != s {
      PlacedAt(t, order, head, tail, s, key, v, i);
    }
    forall x | 0 <= x < |t1| && t1[x].k.Live? ensures x in o1 {
      if x != s { assert t[x].k.Live? && x in order; } else { assert o1[|order|] == s; }
    }
  }

  lemma PlacedList(t: Table, order: seq<nat>, head: int, tail: int, s: nat, key: string, v: nat)
    requires CanPlace(t, order, head, tail, s)
    requires SlotsOk(Placed(t, tail, s, key, v), order + [s])
    ensures ListOk(Placed(t, tail, s, key, v), order + [s], At(order + [s], 0), s)
  {
    hide SlotsOk;
    var t1, o1 := Placed(t, tail, s, key, v), order + [s];
    var n := |order|;
    forall i | 0 <= i < |o1| ensures NodeOk(t1, o1, i) {
      if i < n {
        PlacedAt(t, order, head, tail, s, key, v, i);
        assert NodeOk(t, order, i);
      } else {
        TailInRangeOf(t, order, head, tail);
      }
    }
  }

  lemma TailInRangeOf(t: Table, order: seq<nat>, head: int, tail: int)
    requires ListOk(t, order, head, tail)
    ensures tail == At(order, |order| - 1)
  {
  }

  lemma PlacedContents(t: Table, order: seq<nat>, head: int, tail: int, s: nat, key: string, v: nat)
    requires CanPlace(t, order, head, tail, s)
    requires SlotsOk(Placed(t, tail, s, key, v), order + [s])
    ensures Contents(Placed(t, tail, s, key, v), order + [s]) == Contents(t, order) + [(key, v)]
  {
    hide SlotsOk, ListOk;
    var t1, o1 := Placed(t, tail, s, key, v), order + [s];
    forall i | 0 <= i < |order| ensures Contents(t1, o1)[i] == Contents(t, order)[i] {
      PlacedAt(t, order, head, tail, s, key, v, i);
    }
  }

  /** Keys are distinct exactly when the contents name no key twice. */
  ghost predicate Distinct(c: seq<(string, nat)>) {
    forall i, j :: 0 <= i < j < |c| ==> c[i].0 != c[j].0
  }

  lemma KeysAreDistinct(t: Table, order: seq<nat>)
    requires SlotsOk(t, order)
    ensures KeysOk(t, order) <==> Distinct(Contents(t, order))
  {
    var c := Contents(t, order);
    if KeysOk(t, order) {
      forall i, j | 0 <= i < j < |c| ensures c[i].0 != c[j].0 {
        assert t[order[i]].k != t[order[j]].k;
      }
    }
    if Distinct(c) {
      forall i, j | 0 <= i < j < |order| ensures t[order[i]].k != t[order[j]].k {
        assert c[i].0 != c[j].0;
      }
    }
  }

  /** Filling a slot or burying it never opens a gap in a probe path. */
  lemma ReachesKept(t: Table, t1: Table, h: nat, d: nat, s: nat)
    requires t != [] && |t1| == |t| && Reaches(t, h, d, s)
    requires forall x :: 0 <= x < |t| && t[x].k != Empty ==> t1[x].k != Empty
    ensures Reaches(t1, h, d, s)
  {
  }

  lemma PlacedProbes(t: Table, tail: int, s: nat, key: string, v: nat, hash: Hash, d: nat)
    requires t != [] && ProbesOk(t, hash) && s < |t| && -1 <= tail < |t| && tail != s
    requires Reaches(t, hash(key), d, s)
    ensures ProbesOk(Placed(t, tail, s, key, v), hash)
  {
    var t1 := Placed(t, tail, s, key, v);
    forall x | 0 <= x < |t1| && t1[x].k.Live? ensures exists e :: Reaches(t1, hash(t1[x].k.key), e, x) {
      var e: nat;
      if x == s { e := d; } else { e :| Reaches(t, hash(t[x].k.key), e, x); }
      ReachesKept(t, t1, hash(t1[x].k.key), e, x);
    }
  }

  /** The list without its i-th element. */
  function Without<T>(o: seq<T>, i: nat): seq<T>
    requires i < |o|
  {
    o[..i] + o[i + 1..]
  }

  function SetNext(t: Table, s: int, next: int): Table
    requires 0 <= s < |t|
  {
    t[s := t[s].(next := next)]
  }

  function SetPrev(t: Table, s: int, prev: int): Table
    requires 0 <= s < |t|
  {
    t[s := t[s].(prev := prev)]
  }

  /** Slot s leaves the list and becomes a tombstone. */
  function Unlinked(t: Table, s: nat): Table
    requires s < |t| && -1 <= t[s].next < |t| && -1 <= t[s].prev < |t|
  {
    var a := if t[s].prev == NO_SLOT then t else SetNext(t, t[s].prev, t[s].next);
    var b := if t[s].next == NO_SLOT then a else SetPrev(a, t[s].next, t[s].prev);
    b[s := Entry(Freed, 0, NO_SLOT, NO_SLOT)]
  }

  ghost predicate CanUnlink(t: Table, order: seq<nat>, head: int, tail: int, i: nat) {
    SlotsOk(t, order) && ListOk(t, order, head, tail) && i < |order|
  }

  lemma Neighbours(t: Table, order: seq<nat>, head: int, tail: int, i: nat)
    requires CanUnlink(t, order, head, tail, i)
    ensures t[order[i]].next == At(order, i + 1) && t[order[i]].prev == At(order, i - 1)
    ensures -1 <= t[order[i]].next < |t| && -1 <= t[order[i]].prev < |t|
  {
    assert NodeOk(t, order, i);
  }

  /** Rewriting two neighbours and burying s, seen from slot x. */
  lemma UnlinkedElsewhere(t: Table, s: nat, x: nat)
    requires s < |t| && x < |t| && x != s && -1 <= t[s].next < |t| && -1 <= t[s].prev < |t|
    requires t[s].next != t[s].prev || t[s].next == NO_SLOT
    ensures Unlinked(t, s)[x] == t[x].(next := if x == t[s].prev then t[s].next else t[x].next,
                                       prev := if x == t[s].next then t[s].prev else t[x].prev)
  {
  }

  /** What unlinking element i does to element j. */
  lemma UnlinkedAt(t: Table, order: seq<nat>, head: int, tail: int, i: nat, j: nat)
    requires CanUnlink(t, order, head, tail, i) && j < |order| && j != i
    requires -1 <= t[order[i]].next < |t| && -1 <= t[order[i]].prev < |t|
    ensures order[j] != order[i]
    ensures Unlinked(t, order[i])[order[j]]
         == t[order[j]].(next := if j + 1 == i then At(order, i + 1) else t[order[j]].next,
                         prev := if j == i + 1 then At(order, i - 1) else t[order[j]].prev)
  {
    hide ListOk, Unlinked;
    Neighbours(t, order, head, tail, i);
    OrderDistinct(t, order, i, j);
    if i > 0 { OrderDistinct(t, order, i - 1, j); }
    if i + 1 < |order| { OrderDistinct(t, order, i + 1, j); }
    if 0 < i < |order| - 1 { OrderDistinct(t, order, i - 1, i + 1); }
    hide SlotsOk;
    UnlinkedElsewhere(t, order[i], order[j]);
  }

  lemma OrderDistinct(t: Table, order: seq<nat>, i: nat, j: nat)
    requires SlotsOk(t, order) && i < |order| && j < |order|
    ensures order[i] == order[j] <==> i == j
  {
  }

  function Skip(i: nat, j: nat): nat { if j < i then j else j + 1 }

  /** Unlinking touches the key and the value of no other slot. */
  lemma UnlinkedKeys(t: Table, s: nat, x: nat)
    requires s < |t| && x < |t| && -1 <= t[s].next < |t| && -1 <= t[s].prev < |t|
    ensures |Unlinked(t, s)| == |t|
    ensures if x == s then Unlinked(t, s)[x].k == Freed
      else Unlinked(t, s)[x].k == t[x].k && Unlinked(t, s)[x].v == t[x].v
  {
  }

  lemma UnlinkedSlots(t: Table, order: seq<nat>, head: int, tail: int, i: nat)
    requires CanUnlink(t, order, head, tail, i)
    requires -1 <= t[order[i]].next < |t| && -1 <= t[order[i]].prev < |t|
    ensures SlotsOk(Unlinked(t, order[i]), Without(order, i))
  {
    hide ListOk, Unlinked, Without;
    var s, o1 := order[i], Without(order, i);
    var t1 := Unlinked(t, s);
    WithoutAll(order, i);
    UnlinkedKeys(t, s, s);
    forall j: nat | j < |o1| ensures o1[j] < |t1| && t1[o1[j]].k.Live? {
      OrderDistinct(t, order, i, Skip(i, j));
      UnlinkedKeys(t, s, o1[j]);
    }
    forall j: nat, k: nat | j < k < |o1| ensures o1[j] != o1[k] {
      OrderDistinct(t, order, Skip(i, j), Skip(i, k));
    }
    forall x: nat | x < |t1| && t1[x].k.Live? ensures x in o1 {
      UnlinkedKeys(t, s, x);
      var j :| 0 <= j < |order| && order[j] == x;
      assert o1[if j < i then j else j - 1] == x;
    }
  }

  /** The neighbours of an element of the shorter list. */
  lemma SkipNeighbours(order: seq<nat>, i: nat, j: nat)
    requires i < |order| && j + 1 < |order|
    ensures var o1 := Without(order, i); var k := Skip(i, j);
      && |o1| == |order| - 1 && o1[j] == order[k] && k < |order| && k != i
      && At(o1, j + 1) == At(order, if k + 1 == i then i + 1 else k + 1)
      && At(o1, j - 1) == At(order, if k == i + 1 then i - 1 else k - 1)
  {
  }

  lemma InTable(t: Table, order: seq<nat>, head: int, tail: int, i: nat, k: nat)
    requires CanUnlink(t, order, head, tail, i) && k < |order|
    ensures order[k] < |t| && CanUnlink(t, order, head, tail, k)
  {
  }

  lemma UnlinkedNode(t: Table, order: seq<nat>, head: int, tail: int, i: nat, j: nat)
    requires CanUnlink(t, order, head, tail, i) && j + 1 < |order|
    requires -1 <= t[order[i]].next < |t| && -1 <= t[order[i]].prev < |t|
    ensures NodeOk(Unlinked(t, order[i]), Without(order, i), j)
  {
    assert i < |order|;
    hide SlotsOk, ListOk, Without, Unlinked, CanUnlink, At, Skip, NodeOk;
    SkipNeighbours(order, i, j);
    var k := Skip(i, j);
    InTable(t, order, head, tail, i, i);
    InTable(t, order, head, tail, i, k);
    UnlinkedAt(t, order, head, tail, i, k);
    Neighbours(t, order, head, tail, k);
    UnlinkedKeys(t, order[i], order[i]);
    NodeIs(Unlinked(t, order[i]), Without(order, i), j);
  }

  lemma NodeIs(t: Table, order: seq<nat>, i: nat)
    requires i < |order| && order[i] < |t|
    requires t[order[i]].next == At(order, i + 1) && t[order[i]].prev == At(order, i - 1)
    ensures NodeOk(t, order, i)
  {
  }

  lemma WithoutAll<T>(order: seq<T>, i: nat)
    requires i < |order|
    ensures |Without(order, i)| == |order| - 1
    ensures forall j: nat :: j + 1 < |order| ==> Without(order, i)[j] == order[Skip(i, j)]
  {
  }

  lemma UnlinkedList(t: Table, order: seq<nat>, head: int, tail: int, i: nat)
    requires CanUnlink(t, order, head, tail, i)
    requires -1 <= t[order[i]].next < |t| && -1 <= t[order[i]].prev < |t|
    ensures var o1 := Without(order, i);
      ListOk(Unlinked(t, order[i]), o1, At(o1, 0), At(o1, |o1| - 1))
  {
    var o1, t1 := Without(order, i), Unlinked(t, order[i]);
    hide SlotsOk, Unlinked, NodeOk, CanUnlink;
    forall j | 0 <= j < |o1| ensures NodeOk(t1, o1, j) {
      UnlinkedNode(t, order, head, tail, i, j);
    }
  }

  lemma UnlinkedContents(t: Table, order: seq<nat>, head: int, tail: int, i: nat)
    requires CanUnlink(t, order, head, tail, i)
    requires -1 <= t[order[i]].next < |t| && -1 <= t[order[i]].prev < |t|
    requires SlotsOk(Unlinked(t, order[i]), Without(order, i))
    ensures Contents(Unlinked(t, order[i]), Without(order, i)) == Without(Contents(t, order), i)
  {
    var o1 := Without(order, i);
    var c, c1 := Contents(t, order), Contents(Unlinked(t, order[i]), o1);
    WithoutAll(order, i);
    WithoutAll(c, i);
    hide ListOk, Unlinked, Without;
    forall j: nat | j < |o1| ensures c1[j] == c[Skip(i, j)] {
      OrderDistinct(t, order, i, Skip(i, j));
      UnlinkedKeys(t, order[i], o1[j]);
    }
    assert forall j: nat :: j < |o1| ==> Without(c, i)[j] == c[Skip(i, j)];
  }

  lemma UnlinkedProbes(t: Table, s: nat, hash: Hash)
    requires t != [] && ProbesOk(t, hash)
    requires s < |t| && t[s].k.Live? && -1 <= t[s].next < |t| && -1 <= t[s].prev < |t|
    ensures ProbesOk(Unlinked(t, s), hash)
  {
    var t1 := Unlinked(t, s);
    forall x | 0 <= x < |t1| && t1[x].k.Live? ensures exists e :: Reaches(t1, hash(t1[x].k.key), e, x) {
      assert t1[x].k == t[x].k;
      var e :| Reaches(t, hash(t[x].k.key), e, x);
      ReachesKept(t, t1, hash(t1[x].k.key), e, x);
    }
  }

  lemma PlacedOk(t: Table, order: seq<nat>, head: int, tail: int, s: nat, key: string, v: nat, hash: Hash, d: nat)
    requires Ok(t, order, head, tail, hash) && s < |t| && !t[s].k.Live? && -1 <= tail < |t|
    requires !HasKey(Contents(t, order), key) && Reaches(t, hash(key), d, s)
    ensures Ok(Placed(t, tail, s, key, v), order + [s], if head == NO_SLOT then s else head, s, hash)
    ensures Contents(Placed(t, tail, s, key, v), order + [s]) == Contents(t, order) + [(key, v)]
  {
    assert At(order + [s], 0) == if order == [] then s else At(order, 0);
    hide SlotsOk, KeysOk, ProbesOk, Placed, Contents;
    TailInRange(t, order, head, tail);
    PlacedSlots(t, order, head, tail, s, key, v);
    PlacedList(t, order, head, tail, s, key, v);
    PlacedContents(t, order, head, tail, s, key, v);
    PlacedProbes(t, tail, s, key, v, hash, d);
    PlacedDistinct(t, order, Placed(t, tail, s, key, v), s, key, v);
  }

  lemma TailInTable(t: Table, order: seq<nat>, head: int, tail: int, hash: Hash)
    requires Ok(t, order, head, tail, hash)
    ensures -1 <= tail < |t| && -1 <= head < |t| && (tail == NO_SLOT <==> head == NO_SLOT)
    ensures tail != NO_SLOT ==> t[tail].k.Live?
  {
    TailInRange(t, order, head, tail);
  }

  lemma PlacedIs(t: Table, t1: Table, tail: int, s: nat, key: string, v: nat)
    requires s < |t| == |t1| && -1 <= tail < |t| && tail != s
    requires forall x: nat :: x < |t| && x != s && x != tail ==> t1[x] == t[x]
    requires t1[s] == Entry(Live(key), v, NO_SLOT, tail) && (tail != NO_SLOT ==> t1[tail] == t[tail].(next := s))
    ensures t1 == Placed(t, tail, s, key, v)
  {
  }

  // ---- The table -----------------------------------------------------------

  /** LH_LOAD_FACTOR is 0.66. */
  predicate Loaded(count: nat, size: nat) { count * 100 >= size * 66 }

  class LhTable {
    const hash: Hash
    var size: nat
    var count: nat
    var table: array<Entry>
    var head: int
    var tail: int
    var resizes: nat
    ghost var order: seq<nat>

    ghost predicate Valid()
      reads this, table
    {
      && 0 < size == table.Length && count == |order|
      && Ok(table[..], order, head, tail, hash)
      && 100 * count <= 66 * size + 100  // an insert resizes first when the load is reached
    }

    /** The keys and values in insertion order. */
    ghost function Entries(): seq<(string, nat)>
      requires Valid()
      reads this, table
    {
      Contents(table[..], order)
    }

    /** lh_table_new. */
    constructor (size: nat, hash: Hash)
      requires 0 < size
      ensures Valid() && fresh(table) && Entries() == [] && this.size == size && this.hash == hash && resizes == 0
    {
      this.hash := hash;
      this.size := size;
      count := 0;
      table := new Entry[size](_ => Entry(Empty, 0, NO_SLOT, NO_SLOT));
      head, tail := NO_SLOT, NO_SLOT;
      resizes := 0;
      order := [];
    }

    /** lh_table_lookup_entry: the slot of the key, or NO_SLOT. */
    method Lookup(key: string) returns (slot: int)
      requires Valid()
      ensures slot == NO_SLOT <==> !HasKey(Entries(), key)
      ensures slot != NO_SLOT ==> 0 <= slot < table.Length && table[slot].k == Live(key)
    {
      var h := hash(key);
      var n := h % size;
      var seen := 0;
      ghost var t := table[..];
      LiveInContents(t, order, key);
      while seen < size
        invariant seen <= size && n == Probe(h, seen, size)
        invariant Passed(t, h, key, seen)
      {
        if table[n].k == Empty {
          NoSuchKey(t, hash, key, seen);
          return NO_SLOT;
        }
        if table[n].k != Freed && table[n].k == Live(key) {
          return n;
        }
        NextProbe(h, seen, size);
        n := n + 1;
        if n == size {
          n := 0;
        }
        seen := seen + 1;
      }
      NoSuchKey(t, hash, key, seen);
      slot := NO_SLOT;
    }

    /** Probe to the first slot that is not live. */
    method FindFree(h: nat) returns (n: nat, ghost d: nat)
      requires Valid() && count < size
      ensures n < size && !table[n].k.Live? && d < size && n == Probe(h, d, size)
      ensures forall e: nat :: e < d ==> table[Probe(h, e, size)].k.Live?
    {
      n, d := h % size, 0;
      while table[n].k != Empty && table[n].k != Freed
        invariant d < size && n == Probe(h, d, size)
        invariant forall e: nat :: e < d ==> table[Probe(h, e, size)].k.Live?
        decreases size - d
      {
        SomeProbeFree(table[..], order, h, d);
        NextProbe(h, d, size);
        n := n + 1;
        if n == size {
          n := 0;
        }
        d := d + 1;
      }
    }

    /** The slot n becomes the tail. */
    method Link(n: nat, key: string, v: nat, ghost d: nat)
      requires Valid() && n < size && !table[n].k.Live? && !HasKey(Entries(), key) && !Loaded(count, size)
      requires Reaches(table[..], hash(key), d, n)
      modifies this`count, this`head, this`tail, this`order, table
      ensures Valid() && Entries() == old(Entries()) + [(key, v)]
    {
      hide Ok, Contents, Placed, HasKey;
      ghost var t, o, t0 := table[..], order, tail;
      TailInTable(t, o, head, tail, hash);
      PlacedOk(t, o, head, tail, n, key, v, hash, d);
      table[n] := Entry(Live(key), v, NO_SLOT, NO_SLOT);
      count := count + 1;
      if head == NO_SLOT {
        head, tail := n, n;
      } else {
        table[tail] := table[tail].(next := n);
        table[n] := table[n].(prev := tail, next := NO_SLOT);
        tail := n;
      }
      order := order + [n];
      PlacedIs(t, table[..], t0, n, key, v);
    }

    /** lh_table_insert.  The table does not look the key up first; its client does. */
    method Insert(key: string, v: nat)
      requires Valid() && !HasKey(Entries(), key)
      modifies this, table
      ensures Valid() && Entries() == old(Entries()) + [(key, v)]
      ensures resizes == old(resizes) + if old(Loaded(count, size)) then 1 else 0
      ensures size == if old(Loaded(count, size)) then old(size) * 2 else old(size)
      ensures table == old(table) || fresh(table)
      decreases if Loaded(count, size) then 2 else 0
    {
      if Loaded(count, size) {
        Resize(size * 2);
      }
      var h := hash(key);
      ghost var d;
      var n;
      n, d := FindFree(h);
      Link(n, key, v, d);
    }

    lemma HeadIsFirst()
      requires Valid()
      ensures head == At(order, 0) && |Entries()| == |order|
    {
    }

    /** Element i of the list, seen from its slot. */
    lemma EntryAt(i: nat)
      requires Valid() && i < |order|
      ensures order[i] < table.Length && table[order[i]].k.Live? && table[order[i]].next == At(order, i + 1)
      ensures |Entries()| == |order| && Entries()[i] == (table[order[i]].k.key, table[order[i]].v)
      ensures !HasKey(Entries()[..i], table[order[i]].k.key)
    {
      assert NodeOk(table[..], order, i);
      KeysAreDistinct(table[..], order);
      FreshPrefix(Entries(), i);
    }

    /** lh_table_resize: the live entries move to a new table in list order. */
    method Resize(newSize: nat)
      requires Valid() && 0 < newSize && (count > 0 ==> !Loaded(count - 1, newSize))
      modifies this
      ensures Valid() && Entries() == old(Entries()) && count == old(count)
      ensures size == newSize && fresh(table) && resizes == old(resizes) + 1
      decreases 1
    {
      hide Ok, Contents, HasKey;
      var newT := new LhTable(newSize, hash);
      HeadIsFirst();
      var ent := head;
      ghost var i := 0;
      ghost var entries := Entries();
      while ent != NO_SLOT
        invariant i <= |order| && ent == At(order, i) && |entries| == |order|
        invariant newT.Valid() && newT.hash == hash && fresh(newT) && fresh(newT.table)
        invariant newT.Entries() == entries[..i]
        invariant newT.size == newSize && newT.resizes == 0  // no insert below resizes
        invariant newT.count == i && Valid() && unchanged(this) && unchanged(table)
        decreases |order| - i
      {
        EntryAt(i);
        newT.Insert(table[ent].k.key, table[ent].v);
        assert entries[..i + 1] == entries[..i] + [entries[i]];
        ent := table[ent].next;
        i := i + 1;
      }
      assert entries[..i] == entries;
      table := newT.table;
      size := newSize;
      head := newT.head;
      tail := newT.tail;
      resizes := resizes + 1;
      order := newT.order;
    }

    /** The list position of a live slot. */
    lemma Position(slot: nat) returns (i: nat)
      requires Valid() && slot < table.Length && table[slot].k.Live?
      ensures i < |order| && order[i] == slot && |Entries()| == |order| && Distinct(Entries())
      ensures Entries()[i] == (table[slot].k.key, table[slot].v)
    {
      assert table[..][slot].k.Live?;
      i :| 0 <= i < |order| && order[i] == slot;
      KeysAreDistinct(table[..], order);
    }

    /** lh_table_lookup_ex. */
    method LookupEx(key: string) returns (found: bool, v: nat)
      requires Valid()
      ensures found == HasKey(Entries(), key)
      ensures found ==> Get(Entries(), key) == Some(v)
      ensures !found ==> v == 0 && Get(Entries(), key) == None
    {
      hide Ok, Contents;
      var e := Lookup(key);
      if e != NO_SLOT {
        ghost var i := Position(e);
        GetAt(Entries(), i);
        return true, table[e].v;
      }
      GetNone(Entries(), key);
      return false, 0;
    }

    /** The pointer surgery of lh_table_delete_entry, field by field. */
    method Relink(n: nat)
      requires n < table.Length
      requires -1 <= table[n].next < table.Length && -1 <= table[n].prev < table.Length
      requires table[n].next != n && table[n].prev != n
      requires table[n].next == table[n].prev ==> table[n].next == NO_SLOT
      requires (head == n <==> table[n].prev == NO_SLOT) && (tail == n <==> table[n].next == NO_SLOT)
      modifies this`head, this`tail, table
      ensures table[..] == Unlinked(old(table[..]), n)
      ensures head == if old(head) == n then old(table[n].next) else old(head)
      ensures tail == if old(tail) == n then old(table[n].prev) else old(tail)
    {
      ghost var t := table[..];
      var next, prev := table[n].next, table[n].prev;
      table[n] := Entry(Freed, 0, next, prev);
      if tail == n && head == n {
        head, tail := NO_SLOT, NO_SLOT;
      } else if head == n {
        table[next] := table[next].(prev := NO_SLOT);
        head := next;
      } else if tail == n {
        table[prev] := table[prev].(next := NO_SLOT);
        tail := prev;
      } else {
        table[prev] := table[prev].(next := next);
        table[next] := table[next].(prev := prev);
      }
      table[n] := Entry(Freed, 0, NO_SLOT, NO_SLOT);
      forall x | 0 <= x < |t| && x != n ensures table[x] == Unlinked(t, n)[x] {
        UnlinkedElsewhere(t, n, x);
      }
      assert Unlinked(t, n)[n] == table[n];
    }

    /** A live slot leaves the list and becomes a tombstone. */
    method Unlink(n: nat, ghost i: nat)
      requires Valid() && i < |order| && n == order[i]
      modifies this`count, this`head, this`tail, this`order, table
      ensures Valid() && Entries() == Without(old(Entries()), i)
    {
      hide Ok, Contents, HasKey, Unlinked, Without, At, SlotsOk, ListOk, NodeOk, KeysOk, ProbesOk;
      ghost var t, o := table[..], order;
      UnlinkedOk(t, o, head, tail, hash, i);
      assert t[n] == table[n];
      count := count - 1;
      Relink(n);
      order := Without(o, i);
    }

    /** lh_table_delete_entry on slot n: -2, -1, or 0 and the entry is gone; freed is what
        free_fn is called with. */
    method DeleteEntry(n: int) returns (rc: int, freed: seq<(string, nat)>)
      requires Valid() && n < table.Length
      modifies this, table
      ensures Valid() && table == old(table) && size == old(size)
      ensures rc == if n < 0 then -2 else if !old(table[n].k.Live?) then -1 else 0
      ensures rc != 0 ==> Entries() == old(Entries()) && freed == []
      ensures rc == 0 ==> Entries() == Drop(old(Entries()), old(table[n].k.key))
      ensures rc == 0 ==> freed == [old((table[n].k.key, table[n].v))] && Removed(old(Entries()), freed[0].0) == freed
    {
      hide Ok, Contents;
      if n < 0 {
        return -2, [];
      }
      if table[n].k == Empty || table[n].k == Freed {
        return -1, [];
      }
      ghost var i := Position(n);
      DropAt(Entries(), i);
      GetAt(Entries(), i);
      rc, freed := 0, [(table[n].k.key, table[n].v)];
      Unlink(n, i);
    }

    /** lh_table_delete. */
    method Delete(key: string) returns (rc: int, freed: seq<(string, nat)>)
      requires Valid()
      modifies this, table
      ensures Valid() && Entries() == Drop(old(Entries()), key) && table == old(table)
      ensures rc == (if HasKey(old(Entries()), key) then 0 else -1) && freed == Removed(old(Entries()), key)
    {
      hide Ok, Contents;
      var e := Lookup(key);
      if e == NO_SLOT {
        DropNone(Entries(), key);
        GetNone(Entries(), key);
        return -1, [];
      }
      rc, freed := DeleteEntry(e);
    }

    /** json_object_object_add, the client: look up, then insert or overwrite. */
    method ObjectAdd(key: string, val: nat)
      requires Valid()
      modifies this, table
      ensures Valid() && Entries() == Put(old(Entries()), key, val)
      ensures table == old(table) || fresh(table)
    {
      hide Ok, Contents;
      var existing := Lookup(key);
      if existing == NO_SLOT {
        PutNew(Entries(), key, val);
        Insert(key, val);
      } else {
        ghost var i := Position(existing);
        PutAt(Entries(), i, val);
        Overwrite(existing, i, val);
      }
    }

    method Overwrite(n: nat, ghost i: nat, val: nat)
      requires Valid() && i < |order| && n == order[i] && |Entries()| == |order|
      modifies table
      ensures Valid() && Entries() == old(Entries())[i := (old(Entries())[i].0, val)]
    {
      ghost var t, o := table[..], order;
      OverwrittenOk(t, o, head, tail, hash, i, val);
      table[n] := table[n].(v := val);
      assert table[..] == t[n := t[n].(v := val)];
    }
  }

  lemma OverwrittenOk(t: Table, order: seq<nat>, head: int, tail: int, hash: Hash, i: nat, val: nat)
    requires Ok(t, order, head, tail, hash) && i < |order|
    ensures order[i] < |t|
    ensures var t1 := t[order[i] := t[order[i]].(v := val)];
      && Ok(t1, order, head, tail, hash)
      && Contents(t1, order) == Contents(t, order)[i := (Contents(t, order)[i].0, val)]
  {
    var t1 := t[order[i] := t[order[i]].(v := val)];
    forall j | 0 <= j < |order| ensures NodeOk(t1, order, j) { assert NodeOk(t, order, j); }
    forall x | 0 <= x < |t1| && t1[x].k.Live? ensures exists e :: Reaches(t1, hash(t1[x].k.key), e, x) {
      assert t1[x].k == t[x].k;
      var e :| Reaches(t, hash(t[x].k.key), e, x);
      ReachesKept(t, t1, hash(t1[x].k.key), e, x);
    }
  }

  lemma UnlinkedDistinct(t: Table, order: seq<nat>, t1: Table, i: nat)
    requires SlotsOk(t, order) && KeysOk(t, order) && i < |order| && SlotsOk(t1, Without(order, i))
    requires Contents(t1, Without(order, i)) == Without(Contents(t, order), i)
    ensures KeysOk(t1, Without(order, i))
  {
    hide SlotsOk, KeysOk, Without, Contents;
    KeysAreDistinct(t, order);
    KeysAreDistinct(t1, Without(order, i));
    WithoutAll(Contents(t, order), i);
    assert Distinct(Without(Contents(t, order), i));
  }

  lemma CanUnlinkOk(t: Table, order: seq<nat>, head: int, tail: int, hash: Hash, i: nat)
    requires Ok(t, order, head, tail, hash) && i < |order|
    ensures CanUnlink(t, order, head, tail, i) && order[i] < |t| && t[order[i]].k.Live?
  {
  }

  lemma UnlinkedOk(t: Table, order: seq<nat>, head: int, tail: int, hash: Hash, i: nat)
    requires Ok(t, order, head, tail, hash) && i < |order|
    ensures order[i] < |t| && t[order[i]].k.Live?
    ensures var s := order[i]; var o1 := Without(order, i); var h1, e1 := At(o1, 0), At(o1, |o1| - 1);
      && -1 <= t[s].next < |t| && -1 <= t[s].prev < |t| && |o1| == |order| - 1
      && Ok(Unlinked(t, s), o1, h1, e1, hash)
      && Contents(Unlinked(t, s), o1) == Without(Contents(t, order), i)
      && (head == s <==> t[s].prev == NO_SLOT) && (tail == s <==> t[s].next == NO_SLOT)
      && h1 == (if head == s then t[s].next else head)
      && e1 == (if tail == s then t[s].prev else tail)
      && t[s].next != s && t[s].prev != s && (t[s].next == t[s].prev ==> t[s].next == NO_SLOT)
  {
    hide SlotsOk, ListOk, NodeOk, ProbesOk, KeysOk, Unlinked, Without, At, Contents;
    CanUnlinkOk(t, order, head, tail, hash, i);
    WithoutAll(order, i);
    Neighbours(t, order, head, tail, i);
    UnlinkedKeys(t, order[i], order[i]);
    UnlinkedSlots(t, order, head, tail, i);
    UnlinkedList(t, order, head, tail, i);
    UnlinkedContents(t, order, head, tail, i);
    UnlinkedProbes(t, order[i], hash);
    UnlinkedDistinct(t, order, Unlinked(t, order[i]), i);
    UnlinkEnds(t, order, head, tail, i);
  }

  /** Where the ends of the list go when element i leaves. */
  lemma UnlinkEnds(t: Table, order: seq<nat>, head: int, tail: int, i: nat)
    requires CanUnlink(t, order, head, tail, i)
    ensures var s := order[i]; var o1 := Without(order, i);
      && (head == s <==> i == 0) && (tail == s <==> i == |order| - 1)
      && At(o1, 0) == (if i == 0 then t[s].next else head)
      && At(o1, |o1| - 1) == (if i == |order| - 1 then t[s].prev else tail)
      && (t[s].next == NO_SLOT <==> i == |order| - 1) && (t[s].prev == NO_SLOT <==> i == 0)
      && t[s].next != s && t[s].prev != s && (t[s].next == t[s].prev ==> t[s].next == NO_SLOT)
  {
    Neighbours(t, order, head, tail, i);
    OrderDistinct(t, order, i, 0);
    OrderDistinct(t, order, i, |order| - 1);
  }

  // ---- The ordered map -----------------------------------------------------

  function Get(c: seq<(string, nat)>, key: string): Option<nat> {
    if c == [] then None else if c[0].0 == key then Some(c[0].1) else Get(c[1..], key)
  }

  /** The entries that removing a key takes out. */
  function Removed(c: seq<(string, nat)>, key: string): seq<(string, nat)> {
    match Get(c, key) case Some(v) => [(key, v)] case None => []
  }

  /** A known key keeps its place; a new one goes to the end. */
  function Put(c: seq<(string, nat)>, key: string, v: nat): seq<(string, nat)> {
    if c == [] then [(key, v)] else if c[0].0 == key then [(key, v)] + c[1..] else [c[0]] + Put(c[1..], key, v)
  }

  function Drop(c: seq<(string, nat)>, key: string): seq<(string, nat)> {
    if c == [] then [] else if c[0].0 == key then c[1..] else [c[0]] + Drop(c[1..], key)
  }

  lemma {:induction false} GetAt(c: seq<(string, nat)>, i: nat)
    requires Distinct(c) && i < |c|
    ensures Get(c, c[i].0) == Some(c[i].1)
  {
    if i > 0 { GetAt(c[1..], i - 1); }
  }

  lemma {:induction false} GetNone(c: seq<(string, nat)>, key: string)
    ensures Get(c, key) == None <==> !HasKey(c, key)
  {
    if c != [] {
      GetNone(c[1..], key);
      if HasKey(c, key) && c[0].0 != key {
        var i :| 0 <= i < |c| && c[i].0 == key;
        assert c[1..][i - 1].0 == key;
      }
      if HasKey(c[1..], key) {
        var i :| 0 <= i < |c[1..]| && c[1..][i].0 == key;
        assert c[i + 1].0 == key;
      }
      if c[0].0 == key { assert HasKey(c, key); }
    }
  }

  lemma {:induction false} PutNew(c: seq<(string, nat)>, key: string, v: nat)
    requires !HasKey(c, key)
    ensures Put(c, key, v) == c + [(key, v)]
  {
    if c != [] {
      assert c[0].0 != key;
      forall i | 0 <= i < |c[1..]| ensures c[1..][i].0 != key { assert c[i + 1].0 != key; }
      PutNew(c[1..], key, v);
    }
  }

  lemma {:induction false} PutAt(c: seq<(string, nat)>, i: nat, v: nat)
    requires Distinct(c) && i < |c|
    ensures Put(c, c[i].0, v) == c[i := (c[i].0, v)]
  {
    if i > 0 {
      assert c[0].0 != c[i].0 && c[1..][i - 1] == c[i];
      PutAt(c[1..], i - 1, v);
      assert [c[0]] + c[1..][i - 1 := (c[i].0, v)] == c[i := (c[i].0, v)];
    }
  }

  lemma {:induction false} DropAt(c: seq<(string, nat)>, i: nat)
    requires Distinct(c) && i < |c|
    ensures Drop(c, c[i].0) == Without(c, i)
  {
    if i > 0 { DropAt(c[1..], i - 1); }
  }

  lemma {:induction false} DropNone(c: seq<(string, nat)>, key: string)
    requires !HasKey(c, key)
    ensures Drop(c, key) == c
  {
    if c != [] {
      assert c[0].0 != key;
      forall i | 0 <= i < |c[1..]| ensures c[1..][i].0 != key { assert c[i + 1].0 != key; }
      DropNone(c[1..], key);
    }
  }

  /** Put and Drop are the updates of a map. */
  lemma {:induction false} GetPut(c: seq<(string, nat)>, key: string, v: nat, other: string)
    ensures Get(Put(c, key, v), other) == if other == key then Some(v) else Get(c, other)
  {
    if c != [] && c[0].0 != key { GetPut(c[1..], key, v, other); }
  }

  lemma {:induction false} GetDrop(c: seq<(string, nat)>, key: string, other: string)
    requires Distinct(c)
    ensures Get(Drop(c, key), other) == if other == key then None else Get(c, other)
  {
    if c != [] {
      if c[0].0 != key { GetDrop(c[1..], key, other); }
      else {
        forall i | 0 <= i < |c[1..]| ensures c[1..][i].0 != key { assert c[i + 1].0 != c[0].0; }
        GetNone(c[1..], key);
      }
    }
  }

  lemma PlacedDistinct(t: Table, order: seq<nat>, t1: Table, s: nat, key: string, v: nat)
    requires SlotsOk(t, order) && KeysOk(t, order) && SlotsOk(t1, order + [s])
    requires !HasKey(Contents(t, order), key)
    requires Contents(t1, order + [s]) == Contents(t, order) + [(key, v)]
    ensures KeysOk(t1, order + [s])
  {
    KeysAreDistinct(t, order);
    KeysAreDistinct(t1, order + [s]);
    var c := Contents(t, order);
    assert forall i :: 0 <= i < |c| ==> c[i].0 != key;
  }

  lemma FreshPrefix(c: seq<(string, nat)>, i: nat)
    requires Distinct(c) && i < |c|
    ensures !HasKey(c[..i], c[i].0)
  {
  }

  /** The probe for h visits every slot. */
  lemma ProbeCovers(h: nat, s: nat, n: nat) returns (d: nat)
    requires s < n
    ensures d < n && Probe(h, d, n) == s
  {
    var q, r := h / n, h % n;
    assert h == q * n + r;
    if r <= s {
      d := s - r;
      DivMod.Unique(h + d, q, s, n);
    } else {
      d := n - r + s;
      assert h + d == (q + 1) * n + s by { assert (q + 1) * n == q * n + n; }
      DivMod.Unique(h + d, q + 1, s, n);
    }
  }

  /** Before the probe has gone round, it has not seen only live slots. */
  lemma SomeProbeFree(t: Table, order: seq<nat>, h: nat, d: nat)
    requires t != [] && SlotsOk(t, order) && |order| < |t| && d < |t|
    requires forall e: nat :: e <= d ==> t[Probe(h, e, |t|)].k.Live?
    ensures d + 1 < |t|
  {
    var s := FreeSlot(t, order);
    var e := ProbeCovers(h, s, |t|);
    assert e > d;
  }

  /** Stepping n with wrap-around is the next probe. */
  lemma NextProbe(h: nat, d: nat, n: nat)
    requires 0 < n
    ensures Probe(h, d + 1, n) == if Probe(h, d, n) + 1 == n then 0 else Probe(h, d, n) + 1
  {
    var q, r := (h + d) / n, (h + d) % n;
    assert h + d == q * n + r;
    if r + 1 == n {
      assert h + d + 1 == (q + 1) * n + 0 by { assert (q + 1) * n == q * n + n; }
      DivMod.Unique(h + d + 1, q + 1, 0, n);
    } else {
      DivMod.Unique(h + d + 1, q, r + 1, n);
    }
  }

  lemma NoSuchKey(t: Table, hash: Hash, key: string, d: nat)
    requires t != [] && ProbesOk(t, hash) && Passed(t, hash(key), key, d) && d <= |t|
    requires d < |t| ==> t[Probe(hash(key), d, |t|)].k == Empty
    ensures forall s :: 0 <= s < |t| ==> t[s].k != Live(key)
  {
    forall s | 0 <= s < |t| ensures t[s].k != Live(key) {
      ProbeMiss(t, hash, key, d, s);
    }
  }
}
