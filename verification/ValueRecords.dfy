/** Handles to tagged records: a handle with a memory resource owns the record it points to, one without is
    a view. Copying, moving, swapping and destroying handles, and what they do to the allocations. */
module ValueRecords {
  import opened Options

  const MIN_SIZE: nat := 16

  /** A record's header gives its size; the payload stands for the bytes after the header. */
  datatype Record = Record(size: nat, payload: string)

  /** The shared read-only record of no value. Its header carries the smallest size a record can have. */
  const MONOSTATE := Record(MIN_SIZE, "")

  /** The sentinel, a block by its allocation number, or bytes that some other owner keeps. */
  datatype Location = Sentinel | At(address: nat) | Foreign(record: Record)

  datatype Allocation = Allocation(resource: nat, size: nat)

  datatype Release = Release(address: nat, resource: nat, size: nat)

  /** The live blocks; and as history every allocation made, which numbers the blocks, and every release. */
  datatype Heap = Heap(live: map<nat, Record>, made: seq<Allocation>, freed: seq<Release>)

  /** No resource means a view. */
  datatype Handle = Handle(data: Location, resource: Option<nat>) {
    predicate Owns() {
      resource.Some? && data.At?
    }
  }

  const EMPTY := Handle(Sentinel, None)

  predicate Readable(heap: Heap, p: Location) {
    p.At? ==> p.address in heap.live
  }

  function RecordAt(heap: Heap, p: Location): Record
    requires Readable(heap, p)
  {
    match p
    case Sentinel => MONOSTATE
    case At(address) => heap.live[address]
    case Foreign(record) => record
  }

  function Allocated(heap: Heap, resource: nat, record: Record): (Heap, Location) {
    var address := |heap.made|;
    (Heap(heap.live[address := record], heap.made + [Allocation(resource, record.size)], heap.freed), At(address))
  }

  function Deallocated(heap: Heap, address: nat, resource: nat, size: nat): Heap {
    Heap(heap.live - {address}, heap.made, heap.freed + [Release(address, resource, size)])
  }

  /** `copy_from` for an empty handle with this resource. */
  function CopiedFrom(heap: Heap, resource: Option<nat>, source: Location): (Heap, Handle)
    requires resource.Some? ==> Readable(heap, source)
  {
    if resource.None? then (heap, Handle(source, None))
    else
      var record := RecordAt(heap, source);
      if record.size < MIN_SIZE then (heap, Handle(Sentinel, resource))
      else
        var (heap', data) := Allocated(heap, resource.value, record);
        (heap', Handle(data, resource))
  }

  /** A copy for a resource owns a record of its own exactly if the copied record is a whole one; then it
      reads the same, and no live block is touched. */
  lemma CopyOwnsWholeRecords(heap: Heap, resource: nat, source: Location)
    requires Numbered(heap) && Readable(heap, source)
    ensures var (after, h) := CopiedFrom(heap, Some(resource), source);
            && (h.Owns() <==> RecordAt(heap, source).size >= MIN_SIZE)
            && (h.Owns() ==> h.data.address !in heap.live && after.live.Keys == heap.live.Keys + {h.data.address}
                             && RecordAt(after, h.data) == RecordAt(heap, source))
            && (!h.Owns() ==> h.data == Sentinel && after == heap)
            && (forall a :: a in heap.live ==> after.live[a] == heap.live[a]) && after.freed == heap.freed
  {
  }

  /** The sentinel is a whole record by its own header, so copying it for a resource allocates 16 bytes. */
  lemma SentinelIsCopied(heap: Heap, resource: nat)
    ensures CopiedFrom(heap, Some(resource), Sentinel)
            == (Allocated(heap, resource, MONOSTATE).0, Handle(At(|heap.made|), Some(resource)))
    ensures CopiedFrom(heap, Some(resource), Sentinel).0.made == heap.made + [Allocation(resource, 16)]
  {
  }

  /** `destroy` keeps the resource. */
  function Destroyed(heap: Heap, h: Handle): (Heap, Handle)
    requires h.resource.Some? ==> Readable(heap, h.data)
  {
    if h.resource.None? then (heap, EMPTY)
    else if h.data.Sentinel? then (heap, h)
    else
      var size := RecordAt(heap, h.data).size;
      var heap' := if size >= MIN_SIZE && h.data.At? then Deallocated(heap, h.data.address, h.resource.value, size)
                   else heap;
      (heap', Handle(Sentinel, h.resource))
  }

  /** Afterwards every handle holds the sentinel, with the resource it had. */
  lemma DestroyedHoldsSentinel(heap: Heap, h: Handle)
    requires h.resource.Some? ==> Readable(heap, h.data)
    ensures Destroyed(heap, h).1 == Handle(Sentinel, h.resource)
  {
  }

  /** The copy constructor with a resource; without one it takes the source's. */
  function Copied(heap: Heap, source: Handle, resource: Option<nat>): (Heap, Handle)
    requires Readable(heap, source.data)
  {
    CopiedFrom(heap, if resource.Some? then resource else source.resource, source.data)
  }

  /** A heap never loses a block it does not release, and new blocks take new numbers. */
  predicate Numbered(heap: Heap) {
    forall a :: a in heap.live ==> a < |heap.made|
  }

  /** Copy assignment: a copy for the target's resource, and the target's old record released. */
  function Assigned(heap: Heap, target: Handle, source: Handle): (Heap, Handle)
    requires Numbered(heap) && Readable(heap, source.data) && (target.resource.Some? ==> Readable(heap, target.data))
  {
    var (copying, copy) := Copied(heap, source, target.resource);
    (Destroyed(copying, target).0, copy)
  }

  /** Move assignment: within one resource the record changes hands, across resources it is copied. */
  function MoveAssigned(heap: Heap, target: Handle, source: Handle): (Heap, Handle)
    requires Numbered(heap) && Readable(heap, source.data) && (target.resource.Some? ==> Readable(heap, target.data))
    requires target.Owns() && source.Owns() ==> target.data != source.data
  {
    if target.resource == source.resource then (Destroyed(heap, target).0, source)
    else
      var (copying, copy) := Copied(heap, source, target.resource);
      (Destroyed(Destroyed(copying, source).0, target).0, copy)
  }

  // --- the same in place ----------------------------------------------------------------------------------

  class Memory {
    var heap: Heap

    constructor ()
      ensures heap == Heap(map[], [], [])
    {
      heap := Heap(map[], [], []);
    }

    method Allocate(resource: nat, record: Record) returns (data: Location)
      modifies this
      ensures (heap, data) == Allocated(old(heap), resource, record)
    {
      data := At(|heap.made|);
      heap := Heap(heap.live[|heap.made| := record], heap.made + [Allocation(resource, record.size)], heap.freed);
    }

    method Deallocate(address: nat, resource: nat, size: nat)
      modifies this
      ensures heap == Deallocated(old(heap), address, resource, size)
    {
      heap := Heap(heap.live - {address}, heap.made, heap.freed + [Release(address, resource, size)]);
    }
  }

  class Value {
    var data: Location
    var resource: Option<nat>

    function Shape(): Handle
      reads this
    {
      Handle(data, resource)
    }

    constructor ()
      ensures Shape() == EMPTY
    {
      data, resource := Sentinel, None;
    }

    /** A value made from scratch; a record is never smaller than the minimum. */
    constructor FromRecord(memory: Memory, record: Record, resource: nat)
      requires record.size >= MIN_SIZE
      modifies memory
      ensures (memory.heap, data) == Allocated(old(memory.heap), resource, record) && this.resource == Some(resource)
    {
      this.resource := Some(resource);
      data := Sentinel;
      new;
      data := memory.Allocate(resource, record);
    }

    constructor Copy(memory: Memory, other: Value, resource: Option<nat>)
      requires Readable(memory.heap, other.data)
      modifies memory
      ensures (memory.heap, Shape()) == Copied(old(memory.heap), old(other.Shape()), resource)
    {
      this.resource := if resource.Some? then resource else other.resource;
      data := Sentinel;
      new;
      CopyFrom(memory, other.data);
    }

    constructor Move(other: Value)
      modifies other
      ensures Shape() == old(other.Shape()) && other.Shape() == EMPTY
    {
      data, resource := other.data, other.resource;
      new;
      other.data, other.resource := Sentinel, None;
    }

    method CopyFrom(memory: Memory, source: Location)
      requires resource.Some? ==> Readable(memory.heap, source)
      modifies this, memory
      ensures (memory.heap, Shape()) == CopiedFrom(old(memory.heap), old(resource), source)
      ensures resource == old(resource) && (resource.None? ==> data == source && memory.heap == old(memory.heap))
      ensures resource.Some? && RecordAt(old(memory.heap), source).size >= MIN_SIZE ==>
                && Shape().Owns() && RecordAt(memory.heap, data) == RecordAt(old(memory.heap), source)
                && memory.heap.live == old(memory.heap.live)[data.address := RecordAt(memory.heap, data)]
    {
      if resource.None? {
        data := source;
        return;
      }
      var size := RecordAt(memory.heap, source).size;
      if size < MIN_SIZE {
        data := Sentinel;
        return;
      }
      data := memory.Allocate(resource.value, RecordAt(memory.heap, source));
    }

    method Destroy(memory: Memory)
      requires resource.Some? ==> Readable(memory.heap, data)
      modifies this, memory
      ensures (memory.heap, Shape()) == Destroyed(old(memory.heap), old(Shape()))
      ensures !Shape().Owns() && resource == old(resource) && data == Sentinel
      ensures memory.heap.live == if old(Shape()).Owns() && RecordAt(old(memory.heap), old(data)).size >= MIN_SIZE
                                  then old(memory.heap.live) - {old(data.address)} else old(memory.heap.live)
    {
      if resource.None? {
        data := Sentinel;
        return;
      }
      if data == Sentinel { return; }
      var size := RecordAt(memory.heap, data).size;
      if size >= MIN_SIZE && data.At? { memory.Deallocate(data.address, resource.value, size); }
      data := Sentinel;
    }

    static method Swap(a: Value, b: Value)
      modifies a, b
      ensures a.Shape() == old(b.Shape()) && b.Shape() == old(a.Shape())
    {
      a.data, b.data := b.data, a.data;
      a.resource, b.resource := b.resource, a.resource;
    }

    /** Assigning a value to itself changes nothing. */
    method Assign(memory: Memory, other: Value)
      requires Numbered(memory.heap) && Readable(memory.heap, other.data)
      requires (resource.Some? ==> Readable(memory.heap, data))
      modifies this, memory
      ensures this == other ==> memory.heap == old(memory.heap) && Shape() == old(Shape())
      ensures this != other ==> (memory.heap, Shape()) == Assigned(old(memory.heap), old(Shape()), old(other.Shape()))
    {
      if this == other { return; }
      var tmp := new Value.Copy(memory, other, resource);
      Swap(this, tmp);
      tmp.Destroy(memory);
    }

    method MoveAssign(memory: Memory, other: Value)
      requires Numbered(memory.heap) && Readable(memory.heap, other.data)
      requires (resource.Some? ==> Readable(memory.heap, data))
      requires this != other && Shape().Owns() && other.Shape().Owns() ==> data != other.data
      modifies this, other, memory
      ensures this == other ==> memory.heap == old(memory.heap) && Shape() == old(Shape())
      ensures this != other ==> other.Shape() == EMPTY
                                && (memory.heap, Shape())
                                   == MoveAssigned(old(memory.heap), old(Shape()), old(other.Shape()))
    {
      if this == other { return; }
      if resource == other.resource {
        Destroy(memory);
        data, resource := other.data, other.resource;
        other.data, other.resource := Sentinel, None;
      } else {
        var tmp := new Value.Copy(memory, other, resource);
        Swap(this, tmp);
        other.Destroy(memory);
        other.resource := None;
        tmp.Destroy(memory);
      }
    }
  }
}
