/**
  array_list: the growing array of pointers behind a JSON array; 0 is NULL.
*/
module ArrayList {

  const DEFAULT_SIZE: nat := 32

  function Nulls(n: nat): seq<nat> { seq(n, _ => 0) }

  /** Element idx is data now; a gap in front of it is NULL. */
  function Stored(s: seq<nat>, idx: nat, data: nat): (r: seq<nat>)
    ensures |r| == if idx < |s| then |s| else idx + 1
    ensures r[idx] == data && forall i :: 0 <= i < |r| && i != idx ==> r[i] == if i < |s| then s[i] else 0
  {
    if idx < |s| then s[idx := data] else s + Nulls(idx - |s|) + [data]
  }

  class PtrList {
    var elems: array<nat>  // its length is the field size
    var length: nat

    /** The room behind the elements is NULL. */
    ghost predicate Valid()
      reads this, elems
    {
      length <= elems.Length && 0 < elems.Length && forall i :: length <= i < elems.Length ==> elems[i] == 0
    }

    ghost function Contents(): seq<nat>
      requires Valid()
      reads this, elems
    {
      elems[..length]
    }

    constructor ()
      ensures Valid() && fresh(elems) && Contents() == []
    {
      elems := new nat[DEFAULT_SIZE](_ => 0);
      length := 0;
    }

    /** array_list_expand_internal: room for more than max - 1 elements. */
    method Expand(max: nat)
      requires Valid()
      modifies this`elems
      ensures Valid() && (elems == old(elems) || fresh(elems))
      ensures max <= elems.Length && Contents() == old(Contents())
    {
      if max < elems.Length { return; }
      var newSize := if elems.Length * 2 >= max then elems.Length * 2 else max;
      var t := new nat[newSize](_ => 0);
      forall i | 0 <= i < elems.Length { t[i] := elems[i]; }
      elems := t;
    }

    /** array_list_put_idx: the old element, if any, goes to free_fn. */
    method PutIdx(idx: nat, data: nat) returns (freed: nat)
      requires Valid()
      modifies this, elems
      ensures Valid() && (elems == old(elems) || fresh(elems))
      ensures Contents() == Stored(old(Contents()), idx, data)
      ensures freed == if idx < old(length) then old(Contents())[idx] else 0
    {
      ghost var before := Contents();
      Expand(idx + 1);
      assert forall i :: 0 <= i < length ==> elems[i] == before[i];
      freed := 0;
      if elems[idx] != 0 { freed := elems[idx]; }
      elems[idx] := data;
      if length <= idx { length := idx + 1; }
      assert Contents() == Stored(before, idx, data);
    }

    /** array_list_add: behind the last element, and nothing is freed. */
    method Add(data: nat)
      requires Valid()
      modifies this, elems
      ensures Valid() && (elems == old(elems) || fresh(elems))
      ensures Contents() == old(Contents()) + [data]
    {
      ghost var before := Contents();
      var freed := PutIdx(length, data);
      assert freed == 0 && Contents() == before + [data];
    }
  }
}
