/**
  json_object nodes with reference counts.  Nodes live in a heap of numbered cells; the
  number 0 is NULL and numbers are never used twice.
*/
module JsonObjects {
  import opened JsonValue

  type Ref = nat

  datatype Body = Leaf(v: Json) | Array(es: seq<Ref>) | Object(keys: seq<string>, vals: seq<Ref>)

  datatype Node = Node(rc: int, body: Body)

  type Heap = map<Ref, Node>

  function Kids(b: Body): seq<Ref> {
    match b case Leaf(_) => [] case Array(es) => es case Object(_, vals) => vals
  }

  /** The values below a value, each part of it. */
  function Children(v: Json): (r: seq<Json>)
    ensures forall i :: 0 <= i < |r| ==> r[i] < v
  {
    match v
    case Arr(es) => es
    case Obj(fs) => seq(|fs|, i requires 0 <= i < |fs| => fs[i].val)
    case _ => []
  }

  function Keys(fs: seq<Field>): (r: seq<string>)
    ensures |r| == |fs|
  {
    seq(|fs|, i requires 0 <= i < |fs| => fs[i].key)
  }

  /** The node itself is that of v, whatever is below. */
  ghost predicate Fits(b: Body, v: Json) {
    match v
    case Arr(es) => b.Array? && |b.es| == |es|
    case Obj(fs) => b.Object? && b.keys == Keys(fs) && |b.vals| == |fs|
    case _ => b == Leaf(v)
  }

  /** The nodes of the tree at r, seen as v. */
  ghost function Ids(h: Heap, r: Ref, v: Json): set<Ref>
    decreases v
  {
    if v.Null? || r !in h || |Kids(h[r].body)| != |Children(v)| then {}
    else {r} + set i: nat, x | i < |Children(v)| && x in Ids(h, Kids(h[r].body)[i], Children(v)[i]) :: x
  }

  /** The tree at r holds exactly v, every node of it has one reference, and no node
      occurs in it twice. */
  ghost predicate Tree(h: Heap, r: Ref, v: Json)
    decreases v
  {
    if v.Null? then r == 0
    else
      && r != 0 && r in h && h[r].rc == 1 && Fits(h[r].body, v) && |Kids(h[r].body)| == |Children(v)|
      && (forall i :: 0 <= i < |Children(v)| ==> Tree(h, Kids(h[r].body)[i], Children(v)[i]))
      && (forall i :: 0 <= i < |Children(v)| ==> r !in Ids(h, Kids(h[r].body)[i], Children(v)[i]))
      && (forall i, j :: 0 <= i < j < |Children(v)| ==>
            Ids(h, Kids(h[r].body)[i], Children(v)[i]) !! Ids(h, Kids(h[r].body)[j], Children(v)[j]))
  }

  /** Two heaps agree on some nodes. */
  ghost predicate Agree(h: Heap, g: Heap, ids: set<Ref>) {
    forall x :: x in ids ==> x in h && x in g && h[x] == g[x]
  }

  lemma {:induction false} IdsLive(h: Heap, r: Ref, v: Json)
    ensures forall x :: x in Ids(h, r, v) ==> x in h
    decreases v
  {
    if !(v.Null? || r !in h || |Kids(h[r].body)| != |Children(v)|) {
      forall i | 0 <= i < |Children(v)| { IdsLive(h, Kids(h[r].body)[i], Children(v)[i]); }
    }
  }

  /** A tree does not depend on the nodes that are not its own. */
  lemma {:induction false} TreeKept(h: Heap, g: Heap, r: Ref, v: Json)
    requires Tree(h, r, v) && Agree(h, g, Ids(h, r, v))
    ensures Tree(g, r, v) && Ids(g, r, v) == Ids(h, r, v)
    decreases v
  {
    if !v.Null? {
      assert r in Ids(h, r, v);
      var kids := Kids(h[r].body);
      forall i | 0 <= i < |Children(v)|
        ensures Tree(g, kids[i], Children(v)[i]) && Ids(g, kids[i], Children(v)[i]) == Ids(h, kids[i], Children(v)[i])
      {
        assert Ids(h, kids[i], Children(v)[i]) <= Ids(h, r, v);
        TreeKept(h, g, kids[i], Children(v)[i]);
      }
    }
  }

  /** Several trees that share no node. */
  ghost predicate Forest(h: Heap, refs: seq<Ref>, vals: seq<Json>) {
    && |refs| == |vals|
    && (forall i :: 0 <= i < |refs| ==> Tree(h, refs[i], vals[i]))
    && (forall i, j :: 0 <= i < j < |refs| ==> Ids(h, refs[i], vals[i]) !! Ids(h, refs[j], vals[j]))
  }

  ghost function AllIds(h: Heap, refs: seq<Ref>, vals: seq<Json>): set<Ref>
    requires |refs| == |vals|
  {
    set i: nat, x | i < |refs| && x in Ids(h, refs[i], vals[i]) :: x
  }

  /** The nodes below the first n children. */
  ghost function Below(h: Heap, kids: seq<Ref>, vals: seq<Json>, n: nat): set<Ref>
    requires n <= |kids| == |vals|
  {
    set i: nat, x | i < n && x in Ids(h, kids[i], vals[i]) :: x
  }

  lemma IdsOfTree(h: Heap, r: Ref, v: Json)
    requires Tree(h, r, v) && !v.Null?
    ensures var kids := Kids(h[r].body);
      && Ids(h, r, v) == {r} + Below(h, kids, Children(v), |kids|) && r !in Below(h, kids, Children(v), |kids|)
  {
  }

  lemma BelowStep(h: Heap, kids: seq<Ref>, vals: seq<Json>, n: nat)
    requires n < |kids| == |vals|
    ensures Below(h, kids, vals, n + 1) == Below(h, kids, vals, n) + Ids(h, kids[n], vals[n])
    ensures Below(h, kids, vals, 0) == {}
  {
  }

  // ---- Growing containers ------------------------------------------------------

  /** A root over disjoint trees is a tree. */
  lemma Rebuilt(h: Heap, g: Heap, r: Ref, v: Json, kids: seq<Ref>, vals: seq<Json>)
    requires !v.Null? && r != 0 && r in g && g[r].rc == 1 && Fits(g[r].body, v)
    requires kids == Kids(g[r].body) && vals == Children(v) && Apart(h, g, r, kids, vals)
    ensures Tree(g, r, v) && Ids(g, r, v) == {r} + Below(h, kids, vals, |kids|)
  {
    forall i | 0 <= i < |kids|
      ensures Tree(g, kids[i], vals[i]) && Ids(g, kids[i], vals[i]) == Ids(h, kids[i], vals[i])
    {
      TreeKept(h, g, kids[i], vals[i]);
    }
  }

  /** Disjoint trees without r, the same in both heaps. */
  ghost predicate Apart(h: Heap, g: Heap, r: Ref, kids: seq<Ref>, vals: seq<Json>) {
    && Forest(h, kids, vals)
    && (forall i :: 0 <= i < |kids| ==> r !in Ids(h, kids[i], vals[i]) && Agree(h, g, Ids(h, kids[i], vals[i])))
  }

  lemma BelowAppended(h: Heap, kids: seq<Ref>, vals: seq<Json>, obj: Ref, w: Json)
    requires |kids| == |vals|
    ensures Below(h, kids + [obj], vals + [w], |kids| + 1) == Below(h, kids, vals, |kids|) + Ids(h, obj, w)
  {
    BelowStep(h, kids + [obj], vals + [w], |kids|);
    forall i | 0 <= i < |kids|
      ensures Ids(h, (kids + [obj])[i], (vals + [w])[i]) == Ids(h, kids[i], vals[i]) {}
    assert Below(h, kids + [obj], vals + [w], |kids|) == Below(h, kids, vals, |kids|);
  }

  lemma ChildIds(h: Heap, r: Ref, v: Json)
    requires Tree(h, r, v) && !v.Null?
    ensures |Kids(h[r].body)| == |Children(v)|
    ensures forall i :: 0 <= i < |Children(v)| ==>
      var ids := Ids(h, Kids(h[r].body)[i], Children(v)[i]);
      ids <= Ids(h, r, v) && r !in ids && forall x :: x in ids ==> x in h
  {
    var kids, vals := Kids(h[r].body), Children(v);
    forall i | 0 <= i < |kids|
      ensures Ids(h, kids[i], vals[i]) <= Ids(h, r, v) && (forall x :: x in Ids(h, kids[i], vals[i]) ==> x in h)
    {
      IdsLive(h, kids[i], vals[i]);
    }
  }

  /** One more child, in a heap where only the root has changed. */
  lemma ApartGrown(h: Heap, r: Ref, v: Json, obj: Ref, w: Json, node: Node)
    requires Tree(h, r, v) && !v.Null? && Tree(h, obj, w) && Ids(h, r, v) !! Ids(h, obj, w)
    ensures Apart(h, h[r := node], r, Kids(h[r].body) + [obj], Children(v) + [w])
    ensures r in Ids(h, r, v)
    ensures Ids(h, r, v) == {r} + Below(h, Kids(h[r].body), Children(v), |Children(v)|)
  {
    hide Tree, Ids, Fits, Below, Children;
    RootOf(h, r, v);
    IdsOfTree(h, r, v);
    IdsLive(h, obj, w);
    ChildIds(h, r, v);
  }

  /** Appending a tree to the children of an array. */
  lemma ArrayGrown(h: Heap, r: Ref, es: seq<Json>, obj: Ref, w: Json)
    requires Tree(h, r, Arr(es)) && Tree(h, obj, w) && Ids(h, r, Arr(es)) !! Ids(h, obj, w)
    ensures var g := h[r := Node(1, Array(Kids(h[r].body) + [obj]))];
      Tree(g, r, Arr(es + [w])) && Ids(g, r, Arr(es + [w])) == Ids(h, r, Arr(es)) + Ids(h, obj, w)
  {
    hide Tree, Ids, Apart, Below;
    RootOf(h, r, Arr(es));
    var kids := Kids(h[r].body);
    var node := Node(1, Array(kids + [obj]));
    ApartGrown(h, r, Arr(es), obj, w, node);
    BelowAppended(h, kids, es, obj, w);
    Rebuilt(h, h[r := node], r, Arr(es + [w]), kids + [obj], es + [w]);
  }

  lemma RootOf(h: Heap, r: Ref, v: Json)
    requires Tree(h, r, v) && !v.Null?
    ensures r != 0 && r in h && h[r].rc == 1 && Fits(h[r].body, v) && |Kids(h[r].body)| == |Children(v)|
    ensures Forest(h, Kids(h[r].body), Children(v))
  {
  }

  /** Appending a field. */
  lemma ObjectGrown(h: Heap, r: Ref, fs: seq<Field>, key: string, obj: Ref, w: Json)
    requires Tree(h, r, Obj(fs)) && Tree(h, obj, w) && Ids(h, r, Obj(fs)) !! Ids(h, obj, w)
    ensures var g := h[r := Node(1, Object(Keys(fs) + [key], Kids(h[r].body) + [obj]))];
      var v := Obj(fs + [Field(key, w)]);
      Tree(g, r, v) && Ids(g, r, v) == Ids(h, r, Obj(fs)) + Ids(h, obj, w)
  {
    hide Tree, Ids, Apart, Below;
    RootOf(h, r, Obj(fs));
    var kids, vals := Kids(h[r].body), Children(Obj(fs));
    var node := Node(1, Object(Keys(fs) + [key], kids + [obj]));
    var v := Obj(fs + [Field(key, w)]);
    ApartGrown(h, r, Obj(fs), obj, w, node);
    BelowAppended(h, kids, vals, obj, w);
    assert Children(v) == vals + [w] && Keys(v.fs) == Keys(fs) + [key];
    Rebuilt(h, h[r := node], r, v, kids + [obj], vals + [w]);
  }

  /** One child replaced, after the nodes of the old one are gone. */
  lemma ApartReplaced(h: Heap, r: Ref, v: Json, k: nat, obj: Ref, w: Json, node: Node)
    requires Tree(h, r, v) && !v.Null? && Tree(h, obj, w) && Ids(h, r, v) !! Ids(h, obj, w) && k < |Children(v)|
    ensures var kids := Kids(h[r].body);
      var gone := Ids(h, kids[k], Children(v)[k]);
      && gone <= Ids(h, r, v) && r !in gone
      && Apart(h, (h - gone)[r := node], r, kids[k := obj], Children(v)[k := w])
      && (forall i :: 0 <= i < |kids| && i != k ==> Ids(h, kids[i], Children(v)[i]) !! gone)
      && Ids(h, r, v) == {r} + Below(h, kids, Children(v), |kids|) && r !in Ids(h, obj, w)
  {
    hide Tree, Ids, Fits, Below, Children;
    RootOf(h, r, v);
    IdsOfTree(h, r, v);
    IdsLive(h, obj, w);
    ChildIds(h, r, v);
  }

  /** Replacing the value of a field whose old value has been freed. */
  lemma ObjectReplaced(h: Heap, r: Ref, fs: seq<Field>, k: nat, obj: Ref, w: Json)
    requires Tree(h, r, Obj(fs)) && Tree(h, obj, w) && Ids(h, r, Obj(fs)) !! Ids(h, obj, w) && k < |fs|
    ensures var gone := Ids(h, Kids(h[r].body)[k], fs[k].val);
      var g := (h - gone)[r := Node(1, Object(Keys(fs), Kids(h[r].body)[k := obj]))];
      var v := Obj(fs[k := Field(fs[k].key, w)]);
      && gone <= Ids(h, r, Obj(fs)) && r !in gone
      && Tree(g, r, v) && Ids(g, r, v) == Ids(h, r, Obj(fs)) - gone + Ids(h, obj, w)
  {
    hide Tree, Ids, Apart, Below;
    RootOf(h, r, Obj(fs));
    var kids, vals := Kids(h[r].body), Children(Obj(fs));
    var v := Obj(fs[k := Field(fs[k].key, w)]);
    var gone := Ids(h, kids[k], fs[k].val);
    var node := Node(1, Object(Keys(fs), kids[k := obj]));
    assert vals[k] == fs[k].val;
    ApartReplaced(h, r, Obj(fs), k, obj, w, node);
    BelowReplaced(h, kids, vals, k, obj, w);
    assert Children(v) == vals[k := w] && Keys(v.fs) == Keys(fs);
    Rebuilt(h, (h - gone)[r := node], r, v, kids[k := obj], vals[k := w]);
  }

  lemma BelowReplaced(h: Heap, kids: seq<Ref>, vals: seq<Json>, k: nat, obj: Ref, w: Json)
    requires k < |kids| == |vals|
    requires forall i :: 0 <= i < |kids| && i != k ==> Ids(h, kids[i], vals[i]) !! Ids(h, kids[k], vals[k])
    requires Below(h, kids, vals, |kids|) !! Ids(h, obj, w)
    ensures Below(h, kids[k := obj], vals[k := w], |kids|) == Below(h, kids, vals, |kids|) - Ids(h, kids[k], vals[k]) + Ids(h, obj, w)
  {
    forall x | x in Below(h, kids, vals, |kids|) - Ids(h, kids[k], vals[k]) + Ids(h, obj, w)
      ensures x in Below(h, kids[k := obj], vals[k := w], |kids|)
    {
      if x in Ids(h, obj, w) {
        assert x in Ids(h, kids[k := obj][k], vals[k := w][k]);
      } else {
        var i: nat :| i < |kids| && x in Ids(h, kids[i], vals[i]);
        assert x in Ids(h, kids[k := obj][i], vals[k := w][i]);
      }
    }
    forall x | x in Below(h, kids[k := obj], vals[k := w], |kids|)
      ensures x in Below(h, kids, vals, |kids|) - Ids(h, kids[k], vals[k]) + Ids(h, obj, w)
    {
      var i: nat :| i < |kids| && x in Ids(h, kids[k := obj][i], vals[k := w][i]);
      if i != k { assert x in Ids(h, kids[i], vals[i]); }
    }
  }

  lemma NoneBelow(h: Heap, kids: seq<Ref>, vals: seq<Json>)
    requires |kids| == |vals|
    ensures Below(h, kids, vals, 0) == {}
  {
  }

  lemma BelowApart(h: Heap, r: Ref, v: Json, i: nat)
    requires Tree(h, r, v) && !v.Null? && i < |Children(v)|
    ensures var kids := Kids(h[r].body);
      Below(h, kids, Children(v), i) !! Ids(h, kids[i], Children(v)[i]) && r !in Ids(h, kids[i], Children(v)[i])
  {
  }

  /** While the children before it are freed, child i is as it was. */
  lemma ChildIntact(h: Heap, r: Ref, v: Json, i: nat, g: Heap)
    requires Tree(h, r, v) && !v.Null? && i < |Children(v)|
    requires g == h[r := h[r].(rc := 0)] - Below(h, Kids(h[r].body), Children(v), i)
    ensures var kid, w := Kids(h[r].body)[i], Children(v)[i];
      Tree(g, kid, w) && Ids(g, kid, w) == Ids(h, kid, w) && if w.Null? then kid == 0 else kid != 0 && kid in g && g[kid].rc == 1
  {
    hide Ids, Below, Fits, Children;
    var kid, w := Kids(h[r].body)[i], Children(v)[i];
    IdsLive(h, kid, w);
    BelowApart(h, r, v, i);
    assert Tree(h, kid, w);
    hide Tree;
    TreeKept(h, g, kid, w);
    if !w.Null? { RootOf(g, kid, w); } else { NullTree(h, kid); }
  }

  lemma NullTree(h: Heap, r: Ref)
    requires Tree(h, r, Null)
    ensures r == 0
  {
  }

  class Objects {
    var heap: Heap
    var next: Ref
    ghost var freed: set<Ref>

    /** Every node that was ever allocated is either live or has been freed. */
    ghost predicate Valid()
      reads this
    {
      0 < next && heap.Keys !! freed && forall x: Ref :: x in heap || x in freed <==> 0 < x < next
    }

    constructor ()
      ensures Valid() && heap == map[]
    {
      heap, next, freed := map[], 1, {};
    }

    /** json_object_new_*: one reference. */
    method New(body: Body) returns (r: Ref)
      requires Valid()
      modifies this
      ensures Valid() && r != 0 && r !in old(heap) && r !in freed && heap == old(heap)[r := Node(1, body)]
      ensures freed == old(freed)
    {
      r := next;
      next := next + 1;
      heap := heap[r := Node(1, body)];
    }

    /** json_object_get */
    method Get(r: Ref) returns (q: Ref)
      requires Valid() && (r == 0 || r in heap)
      modifies this`heap
      ensures Valid() && q == r
      ensures heap == if r == 0 then old(heap) else old(heap)[r := old(heap)[r].(rc := old(heap)[r].rc + 1)]
    {
      q := r;
      if r != 0 {
        heap := heap[r := heap[r].(rc := heap[r].rc + 1)];
      }
    }

    /** free: of a live node only. */
    method Free(r: Ref)
      requires Valid() && r in heap
      modifies this`heap, this`freed
      ensures Valid() && heap == old(heap) - {r} && freed == old(freed) + {r}
    {
      heap := heap - {r};
      freed := freed + {r};
    }

    /** json_object_put: the last reference frees the whole tree, each node once. */
    method Put(r: Ref, ghost v: Json)
      requires Valid() && (r != 0 ==> r in heap && heap[r].rc >= 1)
      requires r == 0 ==> v.Null?
      requires r != 0 && heap[r].rc == 1 ==> Tree(heap, r, v)
      modifies this`heap, this`freed
      ensures Valid()
      ensures r != 0 && old(heap)[r].rc > 1 ==>
        heap == old(heap)[r := old(heap)[r].(rc := old(heap)[r].rc - 1)] && freed == old(freed)
      ensures r == 0 || old(heap)[r].rc == 1 ==>
        heap == old(heap) - Ids(old(heap), r, v) && freed == old(freed) + Ids(old(heap), r, v)
      decreases v, 1
    {
      if r != 0 {
        heap := heap[r := heap[r].(rc := heap[r].rc - 1)];
        if heap[r].rc == 0 {
          Delete(r, v, old(heap));
        }
      } else {
        assert heap - {} == heap;
      }
    }

    /** _delete: first what is below, then the node.  h is the heap before the last
        reference was given up. */
    method Delete(r: Ref, ghost v: Json, ghost h: Heap)
      requires Valid() && r in h && !v.Null? && Tree(h, r, v) && heap == h[r := h[r].(rc := 0)]
      modifies this`heap, this`freed
      ensures Valid() && heap == h - Ids(h, r, v) && freed == old(freed) + Ids(h, r, v)
      decreases v, 0
    {
      hide Tree, Ids, Below, Fits, Children;
      RootOf(h, r, v);
      var kids := Kids(heap[r].body);
      ghost var vals := Children(v);
      IdsOfTree(h, r, v);
      NoneBelow(h, kids, vals);
      for i := 0 to |kids|
        invariant Valid() && heap == h[r := h[r].(rc := 0)] - Below(h, kids, vals, i)
        invariant freed == old(freed) + Below(h, kids, vals, i)
      {
        ChildIntact(h, r, v, i, heap);
        BelowStep(h, kids, vals, i);
        Put(kids[i], vals[i]);
      }
      Free(r);
    }

    /** json_object_array_add: the array takes over the caller's reference. */
    method ArrayAdd(r: Ref, obj: Ref, ghost es: seq<Json>, ghost w: Json)
      requires Valid() && Tree(heap, r, Arr(es)) && Tree(heap, obj, w) && Ids(heap, r, Arr(es)) !! Ids(heap, obj, w)
      modifies this`heap
      ensures Valid() && heap.Keys == old(heap).Keys
      ensures forall x :: x in heap && x != r ==> heap[x] == old(heap)[x]
      ensures Tree(heap, r, Arr(es + [w]))
      ensures Ids(heap, r, Arr(es + [w])) == Ids(old(heap), r, Arr(es)) + Ids(old(heap), obj, w)
    {
      hide Tree, Ids;
      ArrayGrown(heap, r, es, obj, w);
      RootOf(heap, r, Arr(es));
      heap := heap[r := heap[r].(body := Array(Kids(heap[r].body) + [obj]))];
    }

    /** The field with this key, or the number of fields. */
    method FindKey(keys: seq<string>, key: string) returns (k: nat)
      ensures k <= |keys| && (k < |keys| ==> keys[k] == key) && forall i :: 0 <= i < k ==> keys[i] != key
    {
      k := 0;
      while k < |keys| && keys[k] != key
        invariant k <= |keys| && forall i :: 0 <= i < k ==> keys[i] != key
      {
        k := k + 1;
      }
    }

    /** json_object_object_add: a value that is replaced loses its reference. */
    method ObjectAdd(r: Ref, key: string, obj: Ref, ghost fs: seq<Field>, ghost w: Json)
      requires Valid() && Tree(heap, r, Obj(fs)) && Tree(heap, obj, w) && Ids(heap, r, Obj(fs)) !! Ids(heap, obj, w)
      modifies this`heap, this`freed
      ensures Valid() && Tree(heap, r, Obj(AddField(fs, key, w)))
      ensures var before := Ids(old(heap), r, Obj(fs)) + Ids(old(heap), obj, w);
        var after := Ids(heap, r, Obj(AddField(fs, key, w)));
        && after <= before && heap.Keys == old(heap).Keys - (before - after)
        && forall x :: x in old(heap) && x !in before ==> heap[x] == old(heap)[x]
    {
      hide Tree, Ids, AddField;
      ghost var h := heap;
      RootOf(heap, r, Obj(fs));
      IdsLive(heap, r, Obj(fs));
      IdsLive(heap, obj, w);
      IdsRoot(heap, r, Obj(fs));
      var node := heap[r];
      var k := FindKey(node.body.keys, key);
      assert forall i :: 0 <= i < |fs| ==> node.body.keys[i] == fs[i].key;
      AddFieldAt(fs, key, w, k);
      if k == |node.body.keys| {
        ObjectGrown(heap, r, fs, key, obj, w);
        heap := heap[r := node.(body := Object(node.body.keys + [key], node.body.vals + [obj]))];
      } else {
        var existing := node.body.vals[k];
        ObjectReplaced(heap, r, fs, k, obj, w);
        FieldTree(heap, r, fs, k);
        if existing != 0 {
          Put(existing, fs[k].val);
        } else {
          NullIds(heap, fs[k].val);
          assert heap - {} == heap;
        }
        heap := heap[r := node.(body := Object(node.body.keys, node.body.vals[k := obj]))];
      }
    }
  }

  lemma IdsRoot(h: Heap, r: Ref, v: Json)
    requires Tree(h, r, v) && !v.Null?
    ensures r in Ids(h, r, v)
  {
  }

  lemma NullIds(h: Heap, v: Json)
    requires Tree(h, 0, v)
    ensures v.Null? && Ids(h, 0, v) == {}
  {
  }

  lemma FieldTree(h: Heap, r: Ref, fs: seq<Field>, k: nat)
    requires Tree(h, r, Obj(fs)) && k < |fs|
    ensures var kid := Kids(h[r].body)[k]; Tree(h, kid, fs[k].val) && (kid != 0 ==> kid in h && h[kid].rc == 1)
  {
    assert Children(Obj(fs))[k] == fs[k].val;
  }

  /** AddField replaces the first field with the key, or appends one. */
  lemma {:induction false} AddFieldAt(fs: seq<Field>, key: string, w: Json, k: nat)
    requires k <= |fs| && (forall i :: 0 <= i < k ==> fs[i].key != key) && (k < |fs| ==> fs[k].key == key)
    ensures AddField(fs, key, w) == if k < |fs| then fs[k := Field(key, w)] else fs + [Field(key, w)]
    decreases |fs|
  {
    if fs != [] && k > 0 { AddFieldAt(fs[1..], key, w, k - 1); }
  }
}
