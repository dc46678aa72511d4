/**
  Who owns the nodes that json_tokener allocates: the tokener runs next to the machine
  of JsonMachine and keeps, for every level of its stack, a reference to the value that
  the machine has on that level.
*/
module JsonOwnership {
  import opened JsonValue
  import opened JsonMachine
  import opened JsonChunks
  import opened JsonObjects

  // ---- Which values the levels hold --------------------------------------------

  function FrameValue(f: Frame): Json {
    match f case InArr(es) => Arr(es) case InObj(fs, _) => Obj(fs)
  }

  /** What `current` of the top level holds; no value yet is NULL. */
  function ModeValue(mode: Mode): Json {
    match mode
    case Full(v) => v
    case ArrOpen(es) => Arr(es)
    case ArrComma(es) => Arr(es)
    case ArrSep(es) => Arr(es)
    case ObjOpen(fs) => Obj(fs)
    case ObjComma(fs) => Obj(fs)
    case InKey(fs, _, _, _) => Obj(fs)
    case ObjColon(fs, _) => Obj(fs)
    case ObjValue(fs, _) => Obj(fs)
    case ObjSep(fs) => Obj(fs)
    case _ => Null
  }

  function Values(m: Machine): (r: seq<Json>)
    ensures |r| == |m.stack| + 1
  {
    seq(|m.stack|, i requires 0 <= i < |m.stack| => FrameValue(m.stack[i])) + [ModeValue(m.mode)]
  }

  // ---- The heap belongs to the levels and to others ----------------------------

  /** All nodes are those of base, untouched, and those of the trees. */
  ghost predicate Owned(h: Heap, base: Heap, refs: seq<Ref>, vals: seq<Json>) {
    && Forest(h, refs, vals)
    && base.Keys !! AllIds(h, refs, vals)
    && h.Keys == base.Keys + AllIds(h, refs, vals)
    && Agree(base, h, base.Keys)
  }

  /** Trees stay when their nodes stay. */
  lemma ForestKept(h: Heap, g: Heap, refs: seq<Ref>, vals: seq<Json>)
    requires Forest(h, refs, vals) && Agree(h, g, AllIds(h, refs, vals))
    ensures Forest(g, refs, vals) && AllIds(g, refs, vals) == AllIds(h, refs, vals)
    ensures forall i :: 0 <= i < |refs| ==> Ids(g, refs[i], vals[i]) == Ids(h, refs[i], vals[i])
  {
    hide Tree, Ids;
    forall i | 0 <= i < |refs|
      ensures Tree(g, refs[i], vals[i]) && Ids(g, refs[i], vals[i]) == Ids(h, refs[i], vals[i])
    {
      assert forall x :: x in Ids(h, refs[i], vals[i]) ==> x in AllIds(h, refs, vals);
      TreeKept(h, g, refs[i], vals[i]);
    }
  }

  /** The nodes of the last tree and those of the others. */
  lemma AllIdsLast(h: Heap, refs: seq<Ref>, vals: seq<Json>, r: Ref, v: Json)
    requires |refs| == |vals|
    ensures AllIds(h, refs + [r], vals + [v]) == AllIds(h, refs, vals) + Ids(h, r, v)
    ensures Forest(h, refs + [r], vals + [v]) <==>
      Forest(h, refs, vals) && Tree(h, r, v) && AllIds(h, refs, vals) !! Ids(h, r, v)
  {
    hide Tree, Ids;
    var refs1, vals1 := refs + [r], vals + [v];
    forall i | 0 <= i < |refs| ensures refs1[i] == refs[i] && vals1[i] == vals[i] {}
    forall x | x in AllIds(h, refs, vals) + Ids(h, r, v) ensures x in AllIds(h, refs1, vals1) {
      if x in Ids(h, r, v) {
        assert x in Ids(h, refs1[|refs|], vals1[|refs|]);
      } else {
        var i: nat :| i < |refs| && x in Ids(h, refs[i], vals[i]);
        assert x in Ids(h, refs1[i], vals1[i]);
      }
    }
    forall x | x in AllIds(h, refs1, vals1) ensures x in AllIds(h, refs, vals) + Ids(h, r, v) {
      var i: nat :| i < |refs1| && x in Ids(h, refs1[i], vals1[i]);
      if i < |refs| { assert x in Ids(h, refs[i], vals[i]); }
    }
    if Forest(h, refs1, vals1) {
      assert Tree(h, refs1[|refs|], vals1[|refs|]);
      forall i | 0 <= i < |refs| ensures Tree(h, refs[i], vals[i]) && Ids(h, refs[i], vals[i]) !! Ids(h, r, v) {
        assert Tree(h, refs1[i], vals1[i]) && Ids(h, refs1[i], vals1[i]) !! Ids(h, refs1[|refs|], vals1[|refs|]);
      }
      forall i, j | 0 <= i < j < |refs| ensures Ids(h, refs[i], vals[i]) !! Ids(h, refs[j], vals[j]) {
        assert Ids(h, refs1[i], vals1[i]) !! Ids(h, refs1[j], vals1[j]);
      }
    }
  }

  /** The levels below the top, next to the nodes of others. */
  ghost predicate Front(h: Heap, base: Heap, refs: seq<Ref>, vals: seq<Json>) {
    Forest(h, refs, vals) && base.Keys !! AllIds(h, refs, vals) && Agree(base, h, base.Keys)
  }

  lemma Split(h: Heap, base: Heap, refs: seq<Ref>, r: Ref, vals: seq<Json>, v: Json)
    requires |refs| == |vals| && Owned(h, base, refs + [r], vals + [v])
    ensures Front(h, base, refs, vals) && Tree(h, r, v)
    ensures Ids(h, r, v) !! base.Keys + AllIds(h, refs, vals)
    ensures h.Keys == base.Keys + AllIds(h, refs, vals) + Ids(h, r, v)
  {
    hide Forest, AllIds, Tree, Ids;
    AllIdsLast(h, refs, vals, r, v);
  }

  /** A new top level in a heap where the front is as before. */
  lemma Onto(h: Heap, g: Heap, base: Heap, refs: seq<Ref>, r: Ref, vals: seq<Json>, v: Json)
    requires Front(h, base, refs, vals) && Tree(g, r, v)
    requires Agree(h, g, base.Keys + AllIds(h, refs, vals))
    requires Ids(g, r, v) !! base.Keys + AllIds(h, refs, vals)
    requires g.Keys == base.Keys + AllIds(h, refs, vals) + Ids(g, r, v)
    ensures |refs| == |vals| && Owned(g, base, refs + [r], vals + [v])
  {
    hide Tree, Ids, AllIds;
    assert |refs| == |vals|;
    ForestKept(h, g, refs, vals);
    AllIdsLast(g, refs, vals, r, v);
  }

  /** Without its nodes the last tree is gone and the rest is as before. */
  lemma DropLast(h: Heap, base: Heap, refs: seq<Ref>, r: Ref, vals: seq<Json>, v: Json)
    requires |refs| == |vals| && Owned(h, base, refs + [r], vals + [v])
    ensures Owned(h - Ids(h, r, v), base, refs, vals)
  {
    hide Forest, Tree, Ids, AllIds;
    Split(h, base, refs, r, vals, v);
    ForestKept(h, h - Ids(h, r, v), refs, vals);
  }

  /** The last tree becomes somebody else's. */
  ghost function WithLast(h: Heap, base: Heap, r: Ref, v: Json): Heap {
    map x | x in h && (x in base || x in Ids(h, r, v)) :: h[x]
  }

  lemma HandOver(h: Heap, base: Heap, refs: seq<Ref>, r: Ref, vals: seq<Json>, v: Json)
    requires |refs| == |vals| && Owned(h, base, refs + [r], vals + [v])
    ensures Owned(h, WithLast(h, base, r, v), refs, vals)
    ensures Tree(WithLast(h, base, r, v), r, v) && Ids(WithLast(h, base, r, v), r, v) == Ids(h, r, v)
    ensures WithLast(h, base, r, v).Keys == base.Keys + Ids(h, r, v) && Agree(base, WithLast(h, base, r, v), base.Keys)
    ensures Ids(h, r, v) !! base.Keys
  {
    hide Forest, Tree, Ids, AllIds;
    Split(h, base, refs, r, vals, v);
    TreeKept(h, WithLast(h, base, r, v), r, v);
  }

  lemma NoneLeft(h: Heap, base: Heap)
    requires Owned(h, base, [], [])
    ensures h == base
  {
  }

  // ---- The tokener ----------------------------------------------------------------

  /** Of what is new in the heap, all is the tree of v at ret, and nothing of the rest has
      changed. */
  ghost predicate Handed(before: Heap, h: Heap, ret: Ref, v: Json) {
    Tree(h, ret, v) && Ids(h, ret, v) !! before.Keys && h.Keys == before.Keys + Ids(h, ret, v) && Agree(before, h, before.Keys)
  }

  class OwnedTokener {
    const objs: Objects
    var stack: seq<Ref>   // stack[i].current, max_depth of them
    var depth: nat
    ghost var base: Heap  // the nodes of others

    ghost predicate Holds(vals: seq<Json>)
      reads this, objs
    {
      && objs.Valid() && depth < |stack| && |vals| == depth + 1
      && Owned(objs.heap, base, stack[..depth] + [stack[depth]], vals[..depth] + [vals[depth]])
      && forall k :: depth < k < |stack| ==> stack[k] == 0
    }

    constructor (objs: Objects, maxDepth: nat)
      requires objs.Valid() && maxDepth > 0
      ensures this.objs == objs && base == objs.heap && Holds([Null]) && depth == 0 && |stack| == maxDepth
    {
      this.objs, depth, stack, base := objs, 0, seq(maxDepth, _ => 0), objs.heap;
    }

    /** current = json_object_new_*(...) on a level whose current is NULL. */
    method SetNew(body: Body, ghost v: Json, ghost vals: seq<Json>)
      requires Holds(vals) && vals[depth].Null? && !v.Null? && Fits(body, v) && Children(v) == [] && Kids(body) == []
      modifies this`stack, objs
      ensures Holds(vals[depth := v]) && |stack| == old(|stack|)
    {
      hide Tree, Ids, AllIds, Forest;
      ghost var h := objs.heap;
      ghost var front, fvals := stack[..depth], vals[..depth];
      Split(h, base, front, stack[depth], fvals, vals[depth]);
      NullTop(h, stack[depth]);
      var r := objs.New(body);
      NewLeaf(objs.heap, r, body, v);
      Onto(h, objs.heap, base, front, r, fvals, v);
      stack := stack[depth := r];
      assert stack[..depth] == front && vals[depth := v][..depth] == fvals;
    }

    lemma NullTop(h: Heap, r: Ref)
      requires Tree(h, r, Null)
      ensures r == 0 && Ids(h, r, Null) == {}
    {
    }

    lemma NewLeaf(h: Heap, r: Ref, body: Body, v: Json)
      requires r != 0 && r in h && h[r] == Node(1, body) && !v.Null? && Fits(body, v) && Children(v) == [] && Kids(body) == []
      ensures Tree(h, r, v) && Ids(h, r, v) == {r}
    {
    }

    /** json_tokener_reset_level on a level above the stack, where current is NULL. */
    method Descend(ghost vals: seq<Json>)
      requires Holds(vals) && depth + 1 < |stack|
      modifies this`depth, this`stack, objs
      ensures Holds(vals + [Null]) && depth == old(depth) + 1 && |stack| == old(|stack|)
    {
      hide Tree, Ids, AllIds, Forest;
      ghost var h := objs.heap;
      depth := depth + 1;
      NullTree(h);
      objs.Put(stack[depth], Null);
      assert h - {} == h;
      stack := stack[depth := 0];
      ghost var front := stack[..depth];
      assert front == stack[..depth - 1] + [stack[depth - 1]];
      assert vals == vals[..depth - 1] + [vals[depth - 1]];
      Onto(h, h, base, front, 0, vals, Null);
      assert (vals + [Null])[..depth] == vals;
    }

    lemma NullTree(h: Heap)
      ensures Tree(h, 0, Null) && Ids(h, 0, Null) == {}
    {
    }

    /** json_object_get and json_tokener_reset_level on the top level: the reference
        moves to the caller. */
    method TakeTop(ghost v: Json) returns (obj: Ref)
      requires objs.Valid() && depth < |stack| && Tree(objs.heap, stack[depth], v)
      modifies this`stack, objs
      ensures objs.Valid() && objs.heap == old(objs.heap) && obj == old(stack[depth])
      ensures stack == old(stack)[depth := 0]
    {
      hide Ids;
      TreeRoot(objs.heap, stack[depth], v);
      obj := objs.Get(stack[depth]);
      objs.Put(stack[depth], v);
      assert obj == 0 ==> objs.heap == old(objs.heap) by {
        NullTree(old(objs.heap));
        if obj == 0 { assert old(objs.heap) - {} == old(objs.heap); }
      }
      assert obj != 0 ==> objs.heap == old(objs.heap);
      stack := stack[depth := 0];
    }

    lemma TreeRoot(h: Heap, r: Ref, v: Json)
      requires Tree(h, r, v)
      ensures if v.Null? then r == 0 else r != 0 && r in h && h[r].rc == 1
    {
    }

    /** The two top levels apart. */
    lemma TopTwo(vals: seq<Json>)
      requires Holds(vals) && depth > 0
      ensures var h := objs.heap; var front, fvals := stack[..depth - 1], vals[..depth - 1];
        var p, a, r, v := stack[depth - 1], vals[depth - 1], stack[depth], vals[depth];
        && Front(h, base, front, fvals) && Tree(h, p, a) && Tree(h, r, v) && Ids(h, p, a) !! Ids(h, r, v)
        && Ids(h, p, a) + Ids(h, r, v) !! base.Keys + AllIds(h, front, fvals)
        && h.Keys == base.Keys + AllIds(h, front, fvals) + Ids(h, p, a) + Ids(h, r, v)
    {
      hide Tree, Ids, AllIds, Forest, Agree;
      var h := objs.heap;
      var front, fvals := stack[..depth - 1], vals[..depth - 1];
      assert stack[..depth] == front + [stack[depth - 1]];
      assert vals[..depth] == fvals + [vals[depth - 1]];
      Split(h, base, stack[..depth], stack[depth], vals[..depth], vals[depth]);
      AllIdsLast(h, front, fvals, stack[depth - 1], vals[depth - 1]);
    }

    /** A finished element goes from its level into the array on the level below. */
    method FinishElement(ghost vals: seq<Json>, ghost es: seq<Json>)
      requires Holds(vals) && depth > 0 && vals[depth - 1] == Arr(es)
      modifies this`depth, this`stack, objs
      ensures depth == old(depth) - 1 && |stack| == old(|stack|)
      ensures Holds(vals[..depth] + [Arr(es + [vals[depth + 1]])])
    {
      hide Tree, Ids, AllIds, Forest, Agree;
      ghost var h := objs.heap;
      ghost var front, fvals := stack[..depth - 1], vals[..depth - 1];
      ghost var v := vals[depth];
      TopTwo(vals);
      var obj := TakeTop(v);
      depth := depth - 1;
      objs.ArrayAdd(stack[depth], obj, es, v);
      AgreeBut(h, objs.heap, stack[depth], Arr(es), base.Keys + AllIds(h, front, fvals));
      Onto(h, objs.heap, base, front, stack[depth], fvals, Arr(es + [v]));
      assert stack[..depth] == front;
      assert (fvals + [Arr(es + [v])])[..depth] == fvals;
    }

    lemma AgreeBut(h: Heap, g: Heap, r: Ref, v: Json, ids: set<Ref>)
      requires Tree(h, r, v) && !v.Null? && Ids(h, r, v) !! ids && ids <= h.Keys && g.Keys == h.Keys
      requires forall x :: x in g && x != r ==> g[x] == h[x]
      ensures Agree(h, g, ids)
    {
      IdsRoot(h, r, v);
    }

    /** A finished value becomes the field of the object on the level below. */
    method FinishField(key: string, ghost vals: seq<Json>, ghost fs: seq<Field>)
      requires Holds(vals) && depth > 0 && vals[depth - 1] == Obj(fs)
      modifies this`depth, this`stack, objs
      ensures depth == old(depth) - 1 && |stack| == old(|stack|)
      ensures Holds(vals[..depth] + [Obj(AddField(fs, key, vals[depth + 1]))])
    {
      hide Tree, Ids, AllIds, Forest, AddField;
      ghost var h := objs.heap;
      ghost var front, fvals := stack[..depth - 1], vals[..depth - 1];
      ghost var v := vals[depth];
      TopTwo(vals);
      var obj := TakeTop(v);
      depth := depth - 1;
      objs.ObjectAdd(stack[depth], key, obj, fs, v);
      Onto(h, objs.heap, base, front, stack[depth], fvals, Obj(AddField(fs, key, v)));
      assert stack[..depth] == front;
      assert (fvals + [Obj(AddField(fs, key, v))])[..depth] == fvals;
    }

    /** json_tokener_reset_level on the levels below n, the top one first. */
    method ResetLevels(n: nat, ghost b: Heap, ghost vals: seq<Json>)
      requires objs.Valid() && n <= |stack| && |vals| == n && Owned(objs.heap, b, stack[..n], vals)
      modifies this`stack, objs
      ensures objs.Valid() && objs.heap == b && |stack| == old(|stack|)
      ensures forall k :: 0 <= k < |stack| ==> stack[k] == if k < n then 0 else old(stack)[k]
    {
      hide Tree, Ids, AllIds, Forest;
      var i := n;
      assert vals[..n] == vals;
      while i > 0
        invariant objs.Valid() && 0 <= i <= n && |stack| == old(|stack|)
        invariant Owned(objs.heap, b, stack[..i], vals[..i])
        invariant forall k :: 0 <= k < |stack| ==> stack[k] == if i <= k < n then 0 else old(stack)[k]
      {
        i := i - 1;
        assert stack[..i + 1] == stack[..i] + [stack[i]];
        assert vals[..i + 1] == vals[..i] + [vals[i]];
        Split(objs.heap, b, stack[..i], stack[i], vals[..i], vals[i]);
        DropLast(objs.heap, b, stack[..i], stack[i], vals[..i], vals[i]);
        TreeRoot(objs.heap, stack[i], vals[i]);
        objs.Put(stack[i], vals[i]);
        stack := stack[i := 0];
      }
      assert stack[..0] == [] && vals[..0] == [];
      NoneLeft(objs.heap, b);
    }

    /** json_tokener_reset: nothing of what the tokener allocated is left. */
    method Reset(ghost vals: seq<Json>)
      requires Holds(vals)
      modifies this, objs
      ensures objs.Valid() && objs.heap == base == old(base) && |stack| == old(|stack|) && Holds([Null]) && depth == 0
    {
      assert stack[..depth + 1] == stack[..depth] + [stack[depth]];
      assert vals == vals[..depth] + [vals[depth]];
      ResetLevels(depth + 1, base, vals);
      depth := 0;
    }

    /** The end of json_tokener_parse_ex after success: the caller gets the value of the
        top level with one reference, all else is freed. */
    method Return(ghost vals: seq<Json>) returns (ret: Ref)
      requires Holds(vals)
      modifies this, objs
      ensures objs.Valid() && |stack| == old(|stack|) && depth == old(depth)
      ensures Handed(old(base), objs.heap, ret, vals[depth])
      ensures base == objs.heap && Holds(seq(depth + 1, _ => Null))
    {
      hide Tree, Ids, AllIds, Forest, Agree;
      ghost var h, v := objs.heap, vals[depth];
      Split(h, base, stack[..depth], stack[depth], vals[..depth], v);
      HandOver(h, base, stack[..depth], stack[depth], vals[..depth], v);
      ghost var rest := stack[..depth];
      ret := TakeTop(v);
      assert stack[..depth] == rest;
      ResetLevels(depth, WithLast(h, base, ret, v), vals[..depth]);
      base := objs.heap;
      ghost var nulls: seq<Json> := seq(depth + 1, _ => Null);
      Restarted(objs.heap, stack[..depth] + [stack[depth]], nulls[..depth] + [nulls[depth]]);
    }

    lemma Restarted(h: Heap, refs: seq<Ref>, vals: seq<Json>)
      requires |refs| == |vals| && forall i :: 0 <= i < |refs| ==> refs[i] == 0 && vals[i] == Null
      ensures Owned(h, h, refs, vals)
    {
    }

    // ---- One character ------------------------------------------------------------

    /** The levels hold exactly the values of the machine. */
    ghost predicate Matches(m: Machine)
      reads this, objs
    {
      depth == |m.stack| && |stack| == m.maxDepth && Holds(Values(m))
    }

    /** A value is created on the top level, which had none. */
    method Create(m: Machine, body: Body, mode: Mode)
      requires Matches(m) && ModeValue(m.mode).Null? && !ModeValue(mode).Null?
      requires Fits(body, ModeValue(mode)) && Children(ModeValue(mode)) == [] && Kids(body) == []
      modifies this`stack, objs
      ensures Matches(m.(mode := mode))
    {
      SetNew(body, ModeValue(mode), Values(m));
      assert Values(m.(mode := mode)) == Values(m)[depth := ModeValue(mode)];
    }

    /** '{' and '[' create a container; other characters only choose what comes. */
    method Begin(m: Machine, c: char) returns (o: Outcome)
      requires Matches(m) && m.mode.Start?
      modifies this`stack, objs
      ensures o == StartChar(m, c) && !o.Value? && |stack| == old(|stack|)
      ensures o.More? ==> Matches(o.m)
      ensures o.Fail? ==> Matches(m)
    {
      hide Holds, Fits;
      o := StartChar(m, c);
      EmptyFit();
      if c == '{' {
        Create(m, Object([], []), ObjOpen([]));
      } else if c == '[' {
        Create(m, Array([]), ArrOpen([]));
      }
    }

    lemma EmptyFit()
      ensures Fits(Object([], []), Obj([])) && Fits(Array([]), Arr([])) && Children(Obj([])) == []
    {
    }

    /** The finish state above level 0. */
    method Finish(m: Machine)
      requires Matches(m) && m.mode.Full? && m.stack != []
      modifies this`depth, this`stack, objs
      ensures Matches(Popped(m))
    {
      hide Holds;
      ghost var vals := Values(m);
      var top := |m.stack| - 1;
      assert vals[top] == FrameValue(m.stack[top]) && vals[top + 1] == m.mode.v;
      match m.stack[top]
      case InArr(es) =>
        FinishElement(vals, es);
        assert Values(Popped(m)) == vals[..top] + [Arr(es + [m.mode.v])];
      case InObj(fs, key) =>
        FinishField(key, vals, fs);
        assert Values(Popped(m)) == vals[..top] + [Obj(AddField(fs, key, m.mode.v))];
    }

    /** The next element starts on a new level. */
    method Deeper(m: Machine, f: Frame)
      requires Matches(m) && Room(m) && FrameValue(f) == ModeValue(m.mode)
      modifies this`depth, this`stack, objs
      ensures Matches(m.(stack := m.stack + [f], mode := Start))
    {
      hide Owned;
      Descend(Values(m));
      assert Values(m.(stack := m.stack + [f], mode := Start)) == Values(m) + [Null];
    }

    /** The end of a word: a boolean is created, null stays NULL. */
    method EndWord(m: Machine, w: Word)
      requires Matches(m) && m.mode.Lit?
      modifies this`stack, objs
      ensures Matches(m.(mode := Full(WordValue(w))))
    {
      hide Holds;
      if w != WNull { Create(m, Leaf(WordValue(w)), Full(WordValue(w))); }
    }

    /** json_tokener_parse_ex on one character. */
    method Consume(m: Machine, c: char) returns (o: Outcome, ghost vals: seq<Json>)
      requires Matches(m)
      modifies this`depth, this`stack, objs
      ensures o == Step(m, c)
      ensures o.More? ==> Matches(o.m)
      ensures o.Value? ==> vals == [o.v] && depth == 0
      ensures Holds(vals) && |stack| == old(|stack|)
      decreases Rank(m.mode), 0
    {
      hide Holds, StrFeed, CStr, ParseInt64, NumEnd, AddField, IsDouble, Fits, StartChar;
      vals := Values(m);
      o := Fail(Outside);
      if Eats(m.mode) && Space(c) {
        o := More(m);
      } else if Eats(m.mode) && c == '/' {
      } else {
        match m.mode {
          case Start =>
            o := Begin(m, c);
            if o.More? { vals := Values(o.m); }
          case Full(v) =>
            if m.stack == [] {
              o := Value(v);
            } else {
              Finish(m);
              o, vals := Consume(Popped(m), c);
            }
          case Lit(w, n) =>
            if n < |Text(w)| {
              o := if Lower(c) == Text(w)[n] then More(m.(mode := Lit(w, n + 1))) else Fail(LitMiss(w, n, c));
            } else {
              EndWord(m, w);
              o, vals := Consume(m.(mode := Full(WordValue(w))), c);
            }
          case Num(pb) =>
            if NumChar(c) {
              o := More(m.(mode := Num(pb + [c])));
            } else {
              o := NumEnd(pb, c);
              if o.Value? {
                NumberFits(pb, c);
                var full := m.(mode := Full(o.v));
                Create(m, Leaf(o.v), full.mode);
                o, vals := Consume(full, c);
              }
            }
          case InStr(pb, quote, esc) =>
            o := EndString(m, c);
            if o.More? { vals := Values(o.m); }
          case ArrOpen(es) =>
            o, vals := ConsumeElement(m, es, c);
          case ArrComma(es) =>
            o, vals := ConsumeElement(m, es, c);
          case ObjValue(fs, key) =>
            if Room(m) {
              Deeper(m, InObj(fs, key));
              o, vals := Consume(m.(stack := m.stack + [InObj(fs, key)], mode := Start), c);
            } else {
              o := Fail(TooDeep);
            }
          case _ =>
            o := Step(m, c);
            PassiveStep(m, c);
            if o.More? { StillMatches(m, o.m); }
        }
      }
    }

    /** At the start of an element of an array. */
    method ConsumeElement(m: Machine, es: seq<Json>, c: char) returns (o: Outcome, ghost vals: seq<Json>)
      requires Matches(m) && (m.mode == ArrOpen(es) || m.mode == ArrComma(es)) && !Space(c) && c != '/'
      modifies this`depth, this`stack, objs
      ensures o == Step(m, c)
      ensures o.More? ==> Matches(o.m)
      ensures o.Value? ==> vals == [o.v] && depth == 0
      ensures Holds(vals) && |stack| == old(|stack|)
      decreases 3, 1
    {
      hide Holds;
      vals := Values(m);
      if c == ']' {
        o := More(m.(mode := Full(Arr(es))));
        StillMatches(m, o.m);
      } else if Room(m) {
        Deeper(m, InArr(es));
        o, vals := Consume(m.(stack := m.stack + [InArr(es)], mode := Start), c);
      } else {
        o := Fail(TooDeep);
      }
    }

    lemma StillMatches(m: Machine, n: Machine)
      requires Matches(m) && n.stack == m.stack && n.maxDepth == m.maxDepth && ModeValue(n.mode) == ModeValue(m.mode)
      ensures Matches(n) && Values(n) == Values(m)
    {
      hide Holds;
    }

    lemma NumberFits(pb: string, c: char)
      requires NumEnd(pb, c).Value?
      ensures var v := NumEnd(pb, c).v; !v.Null? && Fits(Leaf(v), v) && Children(v) == []
    {
      hide ParseInt64, IsDouble;
    }

    /** Inside a string; the closing quote creates it. */
    method EndString(m: Machine, c: char) returns (o: Outcome)
      requires Matches(m) && m.mode.InStr?
      modifies this`stack, objs
      ensures o == Step(m, c) && !o.Value? && |stack| == old(|stack|)
      ensures o.More? ==> Matches(o.m)
      ensures o.Fail? ==> Matches(m)
    {
      hide Holds, StrFeed;
      o := Step(m, c);
      match StrFeed(m.mode.pb, m.mode.quote, m.mode.esc, c)
      case Close(pb1) => Create(m, Leaf(Str(pb1)), Full(Str(pb1)));
      case _ =>
    }

    /** json_tokener_parse_ex on a piece of text: after success the caller gets the value
        with one reference and the tokener holds nothing; otherwise all that was allocated
        stays with the tokener. */
    method ParseEx(m: Machine, s: string) returns (f: Final, ret: Ref, ghost vals: seq<Json>)
      requires Matches(m)
      modifies this, objs
      ensures f == Run(m, s) && Holds(vals)
      ensures f.Paused? ==> Matches(f.m)
      ensures if f.Parsed? then base == objs.heap && Handed(old(base), objs.heap, ret, f.v) else ret == 0 && base == old(base)
    {
      hide Step, Holds;
      var cur, i := m, 0;
      ret, vals := 0, Values(m);
      while i < |s|
        invariant i <= |s| && ret == 0 && base == old(base) && Matches(cur) && vals == Values(cur)
        invariant RunFrom(cur, s, i) == Run(m, s)
      {
        var o;
        o, vals := Consume(cur, s[i]);
        o := if s[i] != '\0' || o.Value? || o == Fail(Outside) then o else Fail(Eof);
        match o {
          case More(m1) =>
            cur := m1;
            vals := Values(cur);
            i := i + 1;
          case Value(v) =>
            f := Parsed(v, i);
            ret := Return(vals);
            vals := seq(depth + 1, _ => Null);
            return;
          case Fail(e) =>
            f := Failed(e);
            return;
        }
      }
      if cur.mode.Full? && cur.stack == [] {
        f := Parsed(cur.mode.v, i);
        ret := Return(vals);
        vals := seq(depth + 1, _ => Null);
      } else {
        f := Paused(EndPiece(cur));
        StillMatches(cur, f.m);
      }
    }
  }

  /** The modes in which a character leaves the nodes alone. */
  predicate Passive(mode: Mode) {
    mode.ArrSep? || mode.ObjOpen? || mode.ObjComma? || mode.InKey? || mode.ObjColon? || mode.ObjSep?
  }

  lemma PassiveStep(m: Machine, c: char)
    requires Passive(m.mode)
    ensures !Step(m, c).Value?
    ensures Step(m, c).More? ==>
      var n := Step(m, c).m; n.stack == m.stack && n.maxDepth == m.maxDepth && ModeValue(n.mode) == ModeValue(m.mode)
  {
    hide StrFeed, CStr;
  }

  lemma {:induction false} NulEnds(m: Machine, s: string, i: nat)
    requires i < |s| && s[|s| - 1] == '\0'
    ensures !RunFrom(m, s, i).Paused?
    decreases |s| - i
  {
    hide Step;
    match Feed(m, s[i]) {
      case More(m1) => NulEnds(m1, s, i + 1);
      case _ =>
    }
  }

  /** json_tokener_parse_verbose: a new tokener, one C string, and the tokener is freed.
      After success the caller owns exactly the nodes of the value, each with one
      reference; after an error the heap is as it was. */
  method ParseVerbose(objs: Objects, s: string) returns (f: Final, ret: Ref)
    requires objs.Valid()
    modifies objs
    ensures objs.Valid() && f == ParseText(32, s) && !f.Paused?
    ensures if f.Parsed? then Handed(old(objs.heap), objs.heap, ret, f.v) else ret == 0 && objs.heap == old(objs.heap)
  {
    hide Step, RunFrom, Handed, Owned;
    var tok := new OwnedTokener(objs, 32);
    ghost var vals;
    assert Values(Init(32)) == [Null];
    NulEnds(Init(32), s + ['\0'], 0);
    f, ret, vals := tok.ParseEx(Init(32), s + ['\0']);
    tok.Reset(vals);
  }

  /** A caller's loop of json_tokener_parse_ex over pieces until it stops asking for more,
      and json_tokener_free, whatever came out: after success the caller owns exactly the
      nodes of the value; after an error, or when the pieces run out, nothing is left. */
  method ParsePieces(objs: Objects, maxDepth: nat, pieces: seq<string>) returns (f: Final, ret: Ref, used: nat)
    requires objs.Valid() && 0 < maxDepth
    modifies objs
    ensures objs.Valid() && used <= |pieces| && (f.Paused? ==> used == |pieces|)
    ensures f == RunPieces(Init(maxDepth), pieces[..used])
    ensures if f.Parsed? then Handed(old(objs.heap), objs.heap, ret, f.v) else ret == 0 && objs.heap == old(objs.heap)
  {
    hide Run, RunPieces, Handed, Owned;
    var tok := new OwnedTokener(objs, maxDepth);
    var m := Init(maxDepth);
    ghost var vals := [Null];
    assert Values(m) == [Null];
    f, ret, used := Paused(m), 0, 0;
    NoPieces(m);
    assert pieces[..0] == [];
    while used < |pieces| && f.Paused?
      invariant used <= |pieces| && fresh(tok) && tok.objs == objs && tok.Holds(vals)
      invariant f == RunPieces(Init(maxDepth), pieces[..used])
      invariant f.Paused? ==> m == f.m && tok.Matches(m)
      invariant if f.Parsed? then tok.base == objs.heap && Handed(old(objs.heap), objs.heap, ret, f.v)
                else ret == 0 && tok.base == old(objs.heap)
    {
      RunPiecesSnoc(Init(maxDepth), pieces[..used], pieces[used]);
      assert pieces[..used + 1] == pieces[..used] + [pieces[used]];
      f, ret, vals := tok.ParseEx(m, pieces[used]);
      if f.Paused? { m := f.m; }
      used := used + 1;
    }
    tok.Reset(vals);
  }
}
