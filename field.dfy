/** A field: one value per geometric element of a mesh (per zone, node or
 *  corner), indexed by the element's id. The mesh enters only through the
 *  number of elements of the centering kind, which the field keeps. */
module Fields {
  import opened Wrappers

  /** The exceptions a field throws. */
  datatype FieldError = WrongSizedField(expected: nat, given: nat) | FieldRangeError(id: nat)

  class Field<T> {
    /** The per-element values. */
    var data: seq<T>
    /** The number of elements of the centering kind in the mesh. */
    const count: nat

    /** The data holds exactly one value per element. */
    ghost predicate Valid()
      reads this
    {
      |data| == count
    }

    /** A field over a mesh with every element set to v (the mesh-only
     *  constructor is the case of the default value). */
    constructor Filled(countIn: nat, v: T)
      ensures Valid() && count == countIn
      ensures forall i :: 0 <= i < count ==> data[i] == v
    {
      count := countIn;
      data := seq(countIn, _ => v);
    }

    /** The copy constructor: the same mesh and a copy of the data. */
    constructor Copy(o: Field<T>)
      ensures count == o.count && data == o.data
    {
      count := o.count;
      data := o.data;
    }

    /** Builds the field around given data; only used by FromContainer. */
    constructor Wrap(countIn: nat, d: seq<T>)
      ensures count == countIn && data == d
    {
      count := countIn;
      data := d;
    }

    /** The value of element id (both forms of operator[]): refused when
     *  the id is not below the element count. */
    function At(id: nat): (r: Result<T, FieldError>)
      requires Valid()
      reads this
      ensures r.Ok? <==> id < count
      ensures r.Ok? ==> r.value == data[id]
      ensures r.Err? ==> r.error == FieldRangeError(id)
    {
      if id >= count then Err(FieldRangeError(id)) else Ok(data[id])
    }

    /** Writes through the reference operator[] returns: element id gets
     *  v and nothing else changes; an id out of range changes nothing. */
    method Set(id: nat, v: T) returns (e: Option<FieldError>)
      requires Valid()
      modifies this
      ensures Valid()
      ensures e.None? <==> id < count
      ensures e.None? ==> data == old(data)[id := v] && At(id) == Ok(v)
      ensures forall j :: 0 <= j < count && j != id ==> At(j) == old(At(j))
      ensures e.Some? ==> e == Some(FieldRangeError(id)) && data == old(data)
    {
      if id >= count {
        return Some(FieldRangeError(id));
      }
      data := data[id := v];
      e := None;
    }

    /** Assignment from a field of the same kind: only the data is copied,
     *  the mesh is kept. */
    method Assign(o: Field<T>)
      modifies this
      ensures data == old(o.data)
    {
      data := o.data;
    }

    /** Assignment from a field of another data or container type: the
     *  source's values are written element by element over the front of
     *  this field's data, without a size check. */
    method AssignConverted(src: seq<T>)
      requires |src| <= |data|
      modifies this
      ensures data == src + old(data)[|src|..]
      ensures |data| == old(|data|)
    {
      var i := 0;
      ghost var d0 := data;
      while i < |src|
        invariant 0 <= i <= |src| && |data| == |d0|
        invariant forall k :: 0 <= k < i ==> data[k] == src[k]
        invariant forall k :: i <= k < |d0| ==> data[k] == d0[k]
      {
        data := data[i := src[i]];
        i := i + 1;
      }
      assert data == src + d0[|src|..];
    }

    /** The number of values held (size and max_size). */
    function Size(): (n: nat)
      requires Valid()
      reads this
      ensures n == count
    {
      |data|
    }

    /** A field is never empty. */
    predicate Empty()
    {
      false
    }

    /** Exchanges the data of two fields; each keeps its own mesh. */
    method Swap(o: Field<T>)
      modifies this, o
      ensures data == old(o.data) && o.data == old(data)
    {
      var d := data;
      data := o.data;
      o.data := d;
    }
  }

  /** Builds a field around a container of values: refused when the
   *  container does not hold one value per element. */
  method FromContainer<T>(countIn: nat, d: seq<T>) returns (r: Result<Field<T>, FieldError>)
    ensures r.Ok? <==> |d| == countIn
    ensures r.Ok? ==> fresh(r.value) && r.value.Valid() && r.value.data == d && r.value.count == countIn
    ensures r.Err? ==> r.error == WrongSizedField(countIn, |d|)
  {
    if |d| != countIn {
      return Err(WrongSizedField(countIn, |d|));
    }
    var f := new Field<T>.Wrap(countIn, d);
    r := Ok(f);
  }
}
