/**
 FieldArray: the start and end bytes of fields, in two arrays that grow together.
 */
module FieldArrays {
  import opened Messages

  class FieldArray {
    var size: nat
    var starts: array<int>
    var ends: array<int>

    /** The fields held, start and end byte each. */
    ghost var Fields: seq<(int, int)>
    ghost var Repr: set<object>

    ghost predicate Valid()
      reads this, Repr
    {
      && Repr == {this, starts, ends} && starts != ends
      && size == |Fields| <= starts.Length == ends.Length && starts.Length > 0
      && forall i :: 0 <= i < size ==> (starts[i], ends[i]) == Fields[i]
    }

    constructor ()
      ensures Valid() && fresh(Repr) && Fields == []
    {
      size, Fields := 0, [];
      starts := new int[4];
      ends := new int[4];
      new;
      Repr := {this, starts, ends};
    }

    /** resize_: twice the capacity. */
    method Resize()
      requires Valid()
      modifies Repr
      ensures Valid() && fresh(Repr - old(Repr)) && Fields == old(Fields)
      ensures starts.Length == 2 * old(starts.Length)
    {
      var newStarts := new int[2 * starts.Length];
      var newEnds := new int[2 * starts.Length];
      for i := 0 to size
        invariant Valid() && size == old(size) && starts == old(starts) && Fields == old(Fields) && Repr == old(Repr)
        invariant forall j :: 0 <= j < i ==> (newStarts[j], newEnds[j]) == Fields[j]
        modifies newStarts, newEnds
      {
        newStarts[i] := starts[i];
        newEnds[i] := ends[i];
      }
      starts, ends := newStarts, newEnds;
      Repr := {this, starts, ends};
    }

    method PushBack(start: int, end: int)
      requires Valid()
      modifies Repr
      ensures Valid() && fresh(Repr - old(Repr)) && Fields == old(Fields) + [(start, end)]
    {
      if size == starts.Length {
        Resize();
      }
      starts[size] := start;
      ends[size] := end;
      size := size + 1;
      Fields := Fields + [(start, end)];
    }

    /** get_start: -1 past the end. */
    method GetStart(i: nat) returns (r: int)
      requires Valid()
      ensures r == if i < |Fields| then Fields[i].0 else -1
    {
      if i >= size {
        return -1;
      }
      return starts[i];
    }

    /** get_end: -1 past the end. */
    method GetEnd(i: nat) returns (r: int)
      requires Valid()
      ensures r == if i < |Fields| then Fields[i].1 else -1
    {
      if i >= size {
        return -1;
      }
      return ends[i];
    }

    method Clear()
      requires Valid()
      modifies Repr
      ensures Valid() && fresh(Repr - old(Repr)) && Fields == []
    {
      var newStarts := new int[starts.Length];
      var newEnds := new int[starts.Length];
      starts, ends, size := newStarts, newEnds, 0;
      Fields, Repr := [], {this, starts, ends};
    }
  }
}
