/**
  Whole runs of the hash table: a client that looks every key up before it inserts it
  sees a map with an insertion order.
*/
module LinkHashRuns {
  import opened Shared
  import opened LinkHash

  datatype Op = Add(key: string, val: nat) | Delete(key: string)

  function Do(c: seq<(string, nat)>, op: Op): seq<(string, nat)> {
    match op case Add(key, val) => Put(c, key, val) case Delete(key) => Drop(c, key)
  }

  function DoAll(c: seq<(string, nat)>, ops: seq<Op>): seq<(string, nat)> {
    if ops == [] then c else Do(DoAll(c, ops[..|ops| - 1]), ops[|ops| - 1])
  }

  /** The same run on a map. */
  function MapDo(m: map<string, nat>, op: Op): map<string, nat> {
    match op case Add(key, val) => m[key := val] case Delete(key) => m - {key}
  }

  function MapAll(ops: seq<Op>): map<string, nat> {
    if ops == [] then map[] else MapDo(MapAll(ops[..|ops| - 1]), ops[|ops| - 1])
  }

  lemma PutDistinct(c: seq<(string, nat)>, key: string, v: nat)
    requires Distinct(c)
    ensures Distinct(Put(c, key, v))
  {
    if HasKey(c, key) {
      var i :| 0 <= i < |c| && c[i].0 == key;
      PutAt(c, i, v);
    } else {
      PutNew(c, key, v);
    }
  }

  lemma DropDistinct(c: seq<(string, nat)>, key: string)
    requires Distinct(c)
    ensures Distinct(Drop(c, key))
  {
    if HasKey(c, key) {
      var i :| 0 <= i < |c| && c[i].0 == key;
      DropAt(c, i);
    } else {
      DropNone(c, key);
    }
  }

  lemma {:induction false} RunDistinct(ops: seq<Op>)
    ensures Distinct(DoAll([], ops))
    decreases |ops|
  {
    if ops != [] {
      var most, op := ops[..|ops| - 1], ops[|ops| - 1];
      RunDistinct(most);
      match op
      case Add(key, val) => PutDistinct(DoAll([], most), key, val);
      case Delete(key) => DropDistinct(DoAll([], most), key);
    }
  }

  /** After any run, looking a key up gives what the map gives. */
  lemma {:induction false} RunIsMap(ops: seq<Op>, key: string)
    ensures Get(DoAll([], ops), key) == if key in MapAll(ops) then Some(MapAll(ops)[key]) else None
    decreases |ops|
  {
    if ops != [] {
      var most, op := ops[..|ops| - 1], ops[|ops| - 1];
      RunIsMap(most, key);
      RunDistinct(most);
      match op
      case Add(k, val) => GetPut(DoAll([], most), k, val, key);
      case Delete(k) => GetDrop(DoAll([], most), k, key);
    }
  }

  /** Where a key stands among the entries, or their number. */
  function Place(c: seq<(string, nat)>, key: string): nat {
    if c == [] || c[0].0 == key then 0 else 1 + Place(c[1..], key)
  }

  /** Of two keys, the one that came first stays first as long as neither is deleted. */
  lemma {:induction false} OrderKept(c: seq<(string, nat)>, op: Op, a: string, b: string)
    requires Distinct(c) && HasKey(c, a) && Place(c, a) < Place(c, b)
    requires op.Delete? ==> op.key != a && op.key != b
    ensures HasKey(Do(c, op), a) && Place(Do(c, op), a) < Place(Do(c, op), b)
    decreases |c|
  {
    GetNone(c, a);
    GetNone(Do(c, op), a);
    if c[0].0 == a {
      FirstKept(c, op, a);
    } else {
      assert HasKey(c[1..], a) by { GetNone(c[1..], a); }
      TailDistinct(c);
      OrderKept(c[1..], op, a, b);
      GetNone(Do(c[1..], op), a);
    }
  }

  lemma FirstKept(c: seq<(string, nat)>, op: Op, a: string)
    requires c != [] && c[0].0 == a && (op.Delete? ==> op.key != a)
    ensures Do(c, op) != [] && Do(c, op)[0].0 == a
  {
  }

  lemma TailDistinct(c: seq<(string, nat)>)
    requires c != [] && Distinct(c)
    ensures Distinct(c[1..])
  {
  }

  /** The table under any run of its client. */
  method RunOps(t: LhTable, ops: seq<Op>)
    requires t.Valid()
    modifies t, t.table
    ensures t.Valid() && t.Entries() == DoAll(old(t.Entries()), ops)
  {
    hide Ok, Contents, Put, Drop;
    var i := 0;
    while i < |ops|
      invariant i <= |ops| && t.Valid() && (t.table == old(t.table) || fresh(t.table))
      invariant t.Entries() == DoAll(old(t.Entries()), ops[..i])
    {
      assert ops[..i + 1][..i] == ops[..i];
      match ops[i] {
        case Add(key, val) => t.ObjectAdd(key, val);
        case Delete(key) => var _, _ := t.Delete(key);
      }
      i := i + 1;
    }
    assert ops[..i] == ops;
  }
}
