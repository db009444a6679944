/** The range-checked iterator over a mesh container. The base iterator is
 *  modelled by its signed offset from the container's begin(), and the
 *  container by its identity and size; every move is checked before the
 *  offset changes, so a failed move leaves the iterator as it was. */
module CheckedIterators {
  import opened Wrappers

  /** The exceptions the checked iterator throws. */
  datatype IterError =
    | AssignmentOutOfRange
    | CheckedIteratorLacksContainer
    | DereferenceOutOfRange
    | IncrementBeyondRange
    | DecrementBeyondRange
    | AdvanceBeyondRange(n: int)

  /** The container an iterator points into: which one, and how many
   *  elements it holds. */
  datatype Container = Container(ident: nat, size: nat)

  /** The state of an iterator: its container (none for a default-built
   *  iterator) and its offset from begin(). */
  datatype Cursor = Cursor(container: Option<Container>, pos: int)

  /** The offsets a checked iterator may hold: begin() through end(). */
  predicate InRange(c: Cursor)
  {
    c.container.Some? && 0 <= c.pos <= c.container.value.size
  }

  /** Moves one element forward, refusing to pass end(). */
  function Incremented(c: Cursor): (r: Result<Cursor, IterError>)
    ensures c.container.None? ==> r == Err(CheckedIteratorLacksContainer)
    ensures c.container.Some? && c.pos == c.container.value.size ==> r == Err(IncrementBeyondRange)
    ensures r.Ok? <==> c.container.Some? && c.pos != c.container.value.size
    ensures r.Ok? ==> r.value.container == c.container && r.value.pos == c.pos + 1
    ensures r.Ok? && InRange(c) ==> InRange(r.value)
  {
    if c.container.None? then Err(CheckedIteratorLacksContainer)
    else if c.pos == c.container.value.size then Err(IncrementBeyondRange)
    else Ok(c.(pos := c.pos + 1))
  }

  /** Moves one element back, refusing to pass begin(). */
  function Decremented(c: Cursor): (r: Result<Cursor, IterError>)
    ensures c.container.None? ==> r == Err(CheckedIteratorLacksContainer)
    ensures c.container.Some? && c.pos == 0 ==> r == Err(DecrementBeyondRange)
    ensures r.Ok? <==> c.container.Some? && c.pos != 0
    ensures r.Ok? ==> r.value.container == c.container && r.value.pos == c.pos - 1
    ensures r.Ok? && InRange(c) ==> InRange(r.value)
  {
    if c.container.None? then Err(CheckedIteratorLacksContainer)
    else if c.pos == 0 then Err(DecrementBeyondRange)
    else Ok(c.(pos := c.pos - 1))
  }

  /** Moves n elements, either way, refusing to leave [begin(), end()]. */
  function Advanced(c: Cursor, n: int): (r: Result<Cursor, IterError>)
    ensures c.container.None? ==> r == Err(CheckedIteratorLacksContainer)
    ensures r.Ok? <==> c.container.Some? && 0 <= c.pos + n <= c.container.value.size
    ensures r.Err? && c.container.Some? ==> r.error == AdvanceBeyondRange(n)
    ensures r.Ok? ==> r.value.container == c.container && r.value.pos == c.pos + n && InRange(r.value)
  {
    if c.container.None? then Err(CheckedIteratorLacksContainer)
    else if c.pos + n > c.container.value.size || c.pos + n < 0 then Err(AdvanceBeyondRange(n))
    else Ok(c.(pos := c.pos + n))
  }

  /** The element offset a dereference reads: refused without a container
   *  and at the two positions just outside the elements, before begin()
   *  and at end(). */
  function Dereferenced(c: Cursor): (r: Result<int, IterError>)
    ensures c.container.None? ==> r == Err(CheckedIteratorLacksContainer)
    ensures r.Ok? <==> c.container.Some? && c.pos != -1 && c.pos != c.container.value.size
    ensures r.Err? && c.container.Some? ==> r.error == DereferenceOutOfRange
    ensures r.Ok? && InRange(c) ==> 0 <= r.value < c.container.value.size
  {
    if c.container.None? then Err(CheckedIteratorLacksContainer)
    else if c.pos == -1 || c.pos == c.container.value.size then Err(DereferenceOutOfRange)
    else Ok(c.pos)
  }

  /** The signed number of steps from c to o. */
  function DistanceTo(c: Cursor, o: Cursor): (d: int)
    ensures Advanced(c, d).Ok? <==> c.container.Some? && 0 <= o.pos <= c.container.value.size
    ensures Advanced(c, d).Ok? ==> Advanced(c, d).value.pos == o.pos
  {
    o.pos - c.pos
  }

  /** Iterators are equal when they share a container and an offset. */
  predicate Equal(c: Cursor, o: Cursor)
  {
    c.container == o.container && c.pos == o.pos
  }

  /** Assigning another checked iterator: the container is taken before the
   *  range check, so a refused assignment still changes the container. */
  function IteratorAssigned(c: Cursor, o: Cursor): (r: (Cursor, Option<IterError>))
    requires o.container.Some?
    ensures r.0.container == o.container
    ensures r.1.None? <==> InRange(o)
    ensures r.1.None? ==> r.0 == o
    ensures r.1.Some? ==> r.1 == Some(AssignmentOutOfRange) && r.0.pos == c.pos
  {
    if o.pos < 0 || o.pos > o.container.value.size then (c.(container := o.container), Some(AssignmentOutOfRange))
    else (o, None)
  }

  /** Assigning a plain base iterator at offset p. */
  function BaseAssigned(c: Cursor, p: int): (r: Result<Cursor, IterError>)
    ensures c.container.None? ==> r == Err(CheckedIteratorLacksContainer)
    ensures r.Ok? <==> c.container.Some? && 0 <= p <= c.container.value.size
    ensures r.Err? && c.container.Some? ==> r.error == AssignmentOutOfRange
    ensures r.Ok? ==> r.value.container == c.container && r.value.pos == p && InRange(r.value)
  {
    if c.container.None? then Err(CheckedIteratorLacksContainer)
    else if p < 0 || p > c.container.value.size then Err(AssignmentOutOfRange)
    else Ok(c.(pos := p))
  }

  /** Building an iterator over a container at offset p. */
  function ConstructAt(k: Container, p: int): (r: Result<Cursor, IterError>)
    ensures r.Ok? <==> 0 <= p <= k.size
    ensures r.Err? ==> r.error == AssignmentOutOfRange
    ensures r.Ok? ==> r.value == Cursor(Some(k), p) && InRange(r.value)
  {
    if p < 0 || p > k.size then Err(AssignmentOutOfRange) else Ok(Cursor(Some(k), p))
  }

  /** A successful increment is undone by a decrement, and the other way. */
  lemma IncrementThenDecrement(c: Cursor)
    requires InRange(c)
    ensures Incremented(c).Ok? ==> Decremented(Incremented(c).value) == Ok(c)
    ensures Decremented(c).Ok? ==> Incremented(Decremented(c).value) == Ok(c)
  {
  }

  /** Within the range, advancing by one moves as an increment does and by
   *  minus one as a decrement does (only the error raised differs), and an
   *  advance is undone by the opposite advance. */
  lemma AdvanceSteps(c: Cursor, n: int)
    requires InRange(c)
    ensures Advanced(c, 1).Ok? <==> Incremented(c).Ok?
    ensures Advanced(c, 1).Ok? ==> Advanced(c, 1) == Incremented(c)
    ensures Advanced(c, -1).Ok? <==> Decremented(c).Ok?
    ensures Advanced(c, -1).Ok? ==> Advanced(c, -1) == Decremented(c)
    ensures Advanced(c, n).Ok? ==> Advanced(Advanced(c, n).value, -n) == Ok(c)
  {
  }

  /** On iterators over the same container, equality is a zero distance,
   *  and the distance is antisymmetric. */
  lemma DistanceEqual(c: Cursor, o: Cursor)
    requires c.container == o.container
    ensures Equal(c, o) <==> DistanceTo(c, o) == 0
    ensures DistanceTo(o, c) == -DistanceTo(c, o)
  {
  }

  /** Walking by increments from an in-range position succeeds for as many
   *  steps as there are elements left before end(). */
  lemma {:induction false} WalkToEnd(c: Cursor, steps: nat)
    requires InRange(c) && c.pos + steps <= c.container.value.size
    ensures Walk(c, steps).Ok?
    ensures Walk(c, steps).value == c.(pos := c.pos + steps)
    decreases steps
  {
    if steps > 0 {
      WalkToEnd(Incremented(c).value, steps - 1);
    }
  }

  /** Repeated increments, stopping at the first refusal. */
  function Walk(c: Cursor, steps: nat): (r: Result<Cursor, IterError>)
    decreases steps
  {
    if steps == 0 then Ok(c)
    else match Incremented(c)
      case Err(e) => Err(e)
      case Ok(next) => Walk(next, steps - 1)
  }

  /** One step more than the distance to end() is refused. */
  lemma WalkPastEnd(c: Cursor)
    requires InRange(c)
    ensures Walk(c, c.container.value.size - c.pos + 1) == Err(IncrementBeyondRange)
  {
    var k := c.container.value.size - c.pos;
    WalkToEnd(c, k);
    WalkSplit(c, k);
  }

  lemma {:induction false} WalkSplit(c: Cursor, k: nat)
    requires Walk(c, k).Ok?
    ensures Walk(c, k + 1) == Incremented(Walk(c, k).value)
    decreases k
  {
    if k > 0 {
      WalkSplit(Incremented(c).value, k - 1);
    }
  }

  /** The checked iterator object. */
  class CheckedIterator {
    var container: Option<Container>
    var pos: int

    function State(): Cursor
      reads this
    {
      Cursor(container, pos)
    }

    /** A default-built iterator has no container. */
    constructor ()
      ensures container == None && pos == 0
    {
      container := None;
      pos := 0;
    }

    /** An iterator over a container, with a default base iterator. */
    constructor Over(k: Container)
      ensures container == Some(k) && pos == 0
    {
      container := Some(k);
      pos := 0;
    }

    /** The unchecked copy constructor. */
    constructor Copy(o: CheckedIterator)
      ensures State() == o.State()
    {
      container := o.container;
      pos := o.pos;
    }

    method Increment() returns (e: Option<IterError>)
      modifies this
      ensures old(Incremented(State())).Ok? ==> e.None? && State() == old(Incremented(State())).value
      ensures old(Incremented(State())).Err? ==> e == Some(old(Incremented(State())).error) && State() == old(State())
    {
      if container.None? {
        return Some(CheckedIteratorLacksContainer);
      }
      if pos == container.value.size {
        return Some(IncrementBeyondRange);
      }
      pos := pos + 1;
      e := None;
    }

    method Decrement() returns (e: Option<IterError>)
      modifies this
      ensures old(Decremented(State())).Ok? ==> e.None? && State() == old(Decremented(State())).value
      ensures old(Decremented(State())).Err? ==> e == Some(old(Decremented(State())).error) && State() == old(State())
    {
      if container.None? {
        return Some(CheckedIteratorLacksContainer);
      }
      if pos == 0 {
        return Some(DecrementBeyondRange);
      }
      pos := pos - 1;
      e := None;
    }

    method Advance(n: int) returns (e: Option<IterError>)
      modifies this
      ensures old(Advanced(State(), n)).Ok? ==> e.None? && State() == old(Advanced(State(), n)).value
      ensures old(Advanced(State(), n)).Err? ==> e == Some(old(Advanced(State(), n)).error) && State() == old(State())
    {
      if container.None? {
        return Some(CheckedIteratorLacksContainer);
      }
      if pos + n > container.value.size || pos + n < 0 {
        return Some(AdvanceBeyondRange(n));
      }
      pos := pos + n;
      e := None;
    }

    method Dereference() returns (r: Result<int, IterError>)
      ensures r == Dereferenced(State())
    {
      if container.None? {
        return Err(CheckedIteratorLacksContainer);
      }
      if pos == -1 || pos == container.value.size {
        return Err(DereferenceOutOfRange);
      }
      r := Ok(pos);
    }

    method AssignIterator(o: CheckedIterator) returns (e: Option<IterError>)
      requires o.container.Some?
      modifies this
      ensures (State(), e) == old(IteratorAssigned(State(), o.State()))
    {
      var oc, op := o.container, o.pos;
      container := oc;
      if op < 0 || op > oc.value.size {
        return Some(AssignmentOutOfRange);
      }
      pos := op;
      e := None;
    }

    method AssignBase(p: int) returns (e: Option<IterError>)
      modifies this
      ensures old(BaseAssigned(State(), p)).Ok? ==> e.None? && State() == old(BaseAssigned(State(), p)).value
      ensures old(BaseAssigned(State(), p)).Err? ==> e == Some(old(BaseAssigned(State(), p)).error) && State() == old(State())
    {
      if container.None? {
        return Some(CheckedIteratorLacksContainer);
      }
      if p < 0 || p > container.value.size {
        return Some(AssignmentOutOfRange);
      }
      pos := p;
      e := None;
    }

    /** Points the iterator into another container, without a check. */
    method SetContainer(k: Container)
      modifies this
      ensures container == Some(k) && pos == old(pos)
    {
      container := Some(k);
    }
  }

  /** Building a checked iterator at offset p of a container. */
  method NewAt(k: Container, p: int) returns (r: Result<CheckedIterator, IterError>)
    ensures ConstructAt(k, p).Ok? ==> r.Ok? && fresh(r.value) && r.value.State() == ConstructAt(k, p).value
    ensures ConstructAt(k, p).Err? ==> r == Err(ConstructAt(k, p).error)
  {
    if p < 0 || p > k.size {
      return Err(AssignmentOutOfRange);
    }
    var it := new CheckedIterator.Over(k);
    it.pos := p;
    r := Ok(it);
  }
}
