/** Any program over values: every allocation has exactly one owner until it is released, once, with the
    resource and size it was made with. */
module ValueOwnership {
  import opened Options
  import opened ValueRecords

  datatype World = World(heap: Heap, values: map<nat, Handle>)

  datatype Op =
    | Default(id: nat)
    | FromRecord(id: nat, record: Record, pool: nat)
    | View(id: nat, bytes: Location)
    | Copy(id: nat, from: nat, resource: Option<nat>)
    | Move(id: nat, from: nat)
    | Assign(id: nat, from: nat)
    | MoveAssign(id: nat, from: nat)
    | Exchange(id: nat, with: nat)
    | Clear(id: nat)
    | Destruct(id: nat)

  /** Names are used before and after construction as they may be, and no bytes are read that are gone:
      the only thing a program must see to itself is that the bytes of a view are still there. */
  predicate Admissible(w: World, op: Op) {
    match op
    case Default(id) => id !in w.values
    case FromRecord(id, record, _) => id !in w.values && record.size >= MIN_SIZE
    case View(id, _) => id !in w.values
    case Copy(id, from, _) => id !in w.values && from in w.values && Readable(w.heap, w.values[from].data)
    case Move(id, from) => id !in w.values && from in w.values
    case Assign(id, from) => id in w.values && from in w.values && Readable(w.heap, w.values[from].data)
    case MoveAssign(id, from) => id in w.values && from in w.values && Readable(w.heap, w.values[from].data)
    case Exchange(id, with) => id in w.values && with in w.values
    case Clear(id) => id in w.values
    case Destruct(id) => id in w.values
  }

  /** Each owner's block is live, belongs to its resource, has no other owner, and holds a whole record. */
  ghost predicate OwnersSound(w: World) {
    && (forall i :: i in w.values && w.values[i].Owns() ==> w.values[i].data.address in w.heap.live)
    && (forall i :: i in w.values && w.values[i].Owns() ==>
          w.values[i].data.address < |w.heap.made|
            && w.heap.made[w.values[i].data.address].resource == w.values[i].resource.value)
    && (forall i, j :: i in w.values && j in w.values && w.values[i].Owns() && w.values[j].Owns() && i != j ==>
          w.values[i].data.address != w.values[j].data.address)
  }

  /** Some value owns the block. */
  ghost predicate Owned(w: World, address: nat) {
    exists i :: i in w.values && w.values[i].Owns() && w.values[i].data.address == address
  }

  ghost predicate BlocksSound(heap: Heap) {
    forall a :: a in heap.live ==> a < |heap.made| && heap.made[a].size == heap.live[a].size >= MIN_SIZE
  }

  /** Released blocks are not live, were released as they were made, and were released once; what was
      made is live or released. */
  ghost predicate ReleasesSound(heap: Heap) {
    && (forall k :: 0 <= k < |heap.freed| ==>
          && heap.freed[k].address !in heap.live && heap.freed[k].address < |heap.made|
          && heap.made[heap.freed[k].address] == Allocation(heap.freed[k].resource, heap.freed[k].size))
    && (forall k, l :: 0 <= k < l < |heap.freed| ==> heap.freed[k].address != heap.freed[l].address)
    && (forall a :: 0 <= a < |heap.made| ==> a in heap.live || Freed(heap, a))
  }

  ghost predicate Freed(heap: Heap, a: nat) {
    exists k :: 0 <= k < |heap.freed| && heap.freed[k].address == a
  }

  ghost predicate Sound(w: World) {
    && OwnersSound(w) && BlocksSound(w.heap) && ReleasesSound(w.heap)
    && (forall a :: a in w.heap.live ==> Owned(w, a))
    && (forall i :: i in w.values ==> w.values[i].resource.Some? ==> !w.values[i].data.Foreign?)
  }

  lemma OwnerReads(w: World, i: nat)
    requires Sound(w) && i in w.values && w.values[i].resource.Some?
    ensures Readable(w.heap, w.values[i].data)
  {
  }

  lemma StepDefined(w: World)
    requires Sound(w)
    ensures Numbered(w.heap)
    ensures forall i :: i in w.values && w.values[i].resource.Some? ==> Readable(w.heap, w.values[i].data)
    ensures forall i, j ::
              i in w.values && j in w.values && i != j && w.values[i].Owns() && w.values[j].Owns()
              ==> w.values[i].data != w.values[j].data
  {
  }

  ghost function Step(w: World, op: Op): World
    requires Sound(w) && Admissible(w, op)
  {
    StepDefined(w);
    match op
    case Default(id) => w.(values := w.values[id := EMPTY])
    case FromRecord(id, record, resource) =>
      var (heap, data) := Allocated(w.heap, resource, record);
      World(heap, w.values[id := Handle(data, Some(resource))])
    case View(id, bytes) => w.(values := w.values[id := Handle(bytes, None)])
    case Copy(id, from, resource) =>
      var (heap, h) := Copied(w.heap, w.values[from], resource);
      World(heap, w.values[id := h])
    case Move(id, from) => w.(values := w.values[id := w.values[from]][from := EMPTY])
    case Assign(id, from) =>
      if id == from then w
      else var (heap, h) := Assigned(w.heap, w.values[id], w.values[from]); World(heap, w.values[id := h])
    case MoveAssign(id, from) =>
      if id == from then w
      else var (heap, h) := MoveAssigned(w.heap, w.values[id], w.values[from]);
        World(heap, w.values[id := h][from := EMPTY])
    case Exchange(id, with) => w.(values := w.values[id := w.values[with]][with := w.values[id]])
    case Clear(id) => World(Destroyed(w.heap, w.values[id]).0, w.values[id := EMPTY])
    case Destruct(id) => World(Destroyed(w.heap, w.values[id]).0, w.values - {id})
  }

  // --- the few things all operations are made of ----------------------------------------------------------

  /** A value that owns nothing appears, or replaces one that owned nothing. */
  lemma PutIdle(w: World, id: nat, h: Handle)
    requires Sound(w) && (id in w.values ==> !w.values[id].Owns()) && !h.Owns()
    requires (h.resource.Some? ==> !h.data.Foreign?)
    ensures Sound(w.(values := w.values[id := h]))
  {
    var w' := w.(values := w.values[id := h]);
    forall a | a in w'.heap.live ensures Owned(w', a) {
      var i := SomeOwner(w, a);
      OwnedAs(w, i, w', i);
    }
  }

  /** A value that owned nothing now owns a fresh block. */
  lemma PutFresh(w: World, id: nat, resource: nat, record: Record)
    requires Sound(w) && (id in w.values ==> !w.values[id].Owns()) && record.size >= MIN_SIZE
    ensures var (heap, data) := Allocated(w.heap, resource, record);
            Sound(World(heap, w.values[id := Handle(data, Some(resource))]))
  {
    var (heap, data) := Allocated(w.heap, resource, record);
    var w' := World(heap, w.values[id := Handle(data, Some(resource))]);
    FreshBlock(w.heap, resource, record);
    FreshOwner(w, id, resource, record);
    hide BlocksSound, ReleasesSound, OwnersSound, Owned;
    forall a | a in w'.heap.live ensures Owned(w', a) {
      if a == |w.heap.made| {
        OwnedAs(w', id, w', id);
      } else {
        var i := SomeOwner(w, a);
        OwnedAs(w, i, w', i);
      }
    }
  }

  lemma FreshOwner(w: World, id: nat, resource: nat, record: Record)
    requires OwnersSound(w) && (forall a :: a in w.heap.live ==> a < |w.heap.made|)
    ensures OwnersSound(World(Allocated(w.heap, resource, record).0,
                              w.values[id := Handle(At(|w.heap.made|), Some(resource))]))
  {
  }

  lemma FreshBlock(heap: Heap, resource: nat, record: Record)
    requires BlocksSound(heap) && ReleasesSound(heap) && record.size >= MIN_SIZE
    ensures var after := Allocated(heap, resource, record).0; BlocksSound(after) && ReleasesSound(after)
  {
    var after := Allocated(heap, resource, record).0;
    forall a | 0 <= a < |after.made| ensures a in after.live || Freed(after, a) {
      if a < |heap.made| && a !in heap.live {
        assert Freed(heap, a);
        var k :| 0 <= k < |heap.freed| && heap.freed[k].address == a;
        assert after.freed[k].address == a;
      }
    }
  }

  /** What a value owned is released, and it owns nothing any more. */
  lemma Emptied(w: World, id: nat, h: Handle)
    requires Sound(w) && id in w.values && !h.Owns() && (h.resource.Some? ==> !h.data.Foreign?)
    requires w.values[id].resource.Some? ==> Readable(w.heap, w.values[id].data)
    ensures Sound(World(Destroyed(w.heap, w.values[id]).0, w.values[id := h]))
  {
    if w.values[id].Owns() {
      ReleaseOwned(w, id, h);
    } else {
      PutIdle(w, id, h);
    }
  }

  lemma ReleaseOwned(w: World, id: nat, h: Handle)
    requires Sound(w) && id in w.values && w.values[id].Owns() && !h.Owns() && (h.resource.Some? ==> !h.data.Foreign?)
    ensures Sound(World(Destroyed(w.heap, w.values[id]).0, w.values[id := h]))
  {
    hide ReleasesSound;
    var address, heap := w.values[id].data.address, Destroyed(w.heap, w.values[id]).0;
    var w' := World(heap, w.values[id := h]);
    assert heap == Deallocated(w.heap, address, w.values[id].resource.value, w.heap.live[address].size);
    assert heap.live == w.heap.live - {address};
    forall a | a in heap.live ensures Owned(w', a) {
      var i := SomeOwner(w, a);
      OwnedAs(w, i, w', i);
    }
    ReleaseRecorded(w.heap, address, w.values[id].resource.value);
  }

  lemma ReleaseRecorded(heap: Heap, address: nat, resource: nat)
    requires BlocksSound(heap) && ReleasesSound(heap) && address in heap.live && heap.made[address].resource == resource
    ensures ReleasesSound(Deallocated(heap, address, resource, heap.live[address].size))
  {
    var after := Deallocated(heap, address, resource, heap.live[address].size);
    assert forall k :: 0 <= k < |heap.freed| ==> after.freed[k] == heap.freed[k];
    assert after.freed[|heap.freed|].address == address;
    forall a | 0 <= a < |after.made| ensures a in after.live || Freed(after, a) {
      if a != address && a !in heap.live {
        assert Freed(heap, a);
        var k :| 0 <= k < |heap.freed| && heap.freed[k].address == a;
        assert after.freed[k].address == a;
      }
    }
  }

  lemma SomeOwner(w: World, address: nat) returns (i: nat)
    requires Owned(w, address)
    ensures i in w.values && w.values[i].Owns() && w.values[i].data.address == address
  {
    i :| i in w.values && w.values[i].Owns() && w.values[i].data.address == address;
  }

  /** Whoever owned a block still does under its new name. */
  lemma OwnedAs(w: World, i: nat, w': World, i': nat)
    requires i in w.values && w.values[i].Owns() && i' in w'.values && w'.values[i'] == w.values[i]
    ensures Owned(w', w.values[i].data.address)
  {
  }

  function Other(i: nat, a: nat, b: nat): nat {
    if i == a then b else if i == b then a else i
  }

  /** Two values swap what they are. */
  lemma Swapped(w: World, a: nat, b: nat)
    requires Sound(w) && a in w.values && b in w.values
    ensures Sound(w.(values := w.values[a := w.values[b]][b := w.values[a]]))
  {
    hide BlocksSound, ReleasesSound, OwnersSound, Owned;
    var w' := w.(values := w.values[a := w.values[b]][b := w.values[a]]);
    assert forall i :: i in w'.values ==> w'.values[i] == w.values[Other(i, a, b)];
    SwappedOwners(w, w', a, b);
    forall x | x in w.heap.live ensures Owned(w', x) {
      var i := SomeOwner(w, x);
      OwnedAs(w, i, w', Other(i, a, b));
    }
  }

  lemma SwappedOwners(w: World, w': World, a: nat, b: nat)
    requires OwnersSound(w) && a in w.values && b in w.values && w'.heap == w.heap
    requires forall i :: i in w'.values <==> i in w.values
    requires forall i :: i in w'.values ==> w'.values[i] == w.values[Other(i, a, b)]
    ensures OwnersSound(w')
  {
    forall i | i in w'.values && w'.values[i].Owns()
      ensures w'.values[i].data.address in w'.heap.live && w'.values[i].data.address < |w'.heap.made|
              && w'.heap.made[w'.values[i].data.address].resource == w'.values[i].resource.value
    {
      assert w.values[Other(i, a, b)].Owns();
    }
    forall i, j | i in w'.values && j in w'.values && w'.values[i].Owns() && w'.values[j].Owns() && i != j
      ensures w'.values[i].data.address != w'.values[j].data.address
    {
      assert Other(i, a, b) != Other(j, a, b);
    }
  }

  /** A value that owns nothing goes away. */
  lemma Forgotten(w: World, id: nat)
    requires Sound(w) && id in w.values && !w.values[id].Owns()
    ensures Sound(w.(values := w.values - {id}))
  {
    var w' := w.(values := w.values - {id});
    forall a | a in w.heap.live ensures Owned(w', a) {
      var i := SomeOwner(w, a);
      OwnedAs(w, i, w', i);
    }
  }

  /** A copy of a readable record appears, owning or not as its resource says. */
  lemma PutCopy(w: World, id: nat, source: Handle, resource: Option<nat>)
    requires Sound(w) && id !in w.values && Readable(w.heap, source.data)
    ensures var (heap, h) := Copied(w.heap, source, resource); Sound(World(heap, w.values[id := h]))
  {
    hide Sound;
    var target := if resource.Some? then resource else source.resource;
    if target.None? {
      PutIdle(w, id, Handle(source.data, None));
    } else if RecordAt(w.heap, source.data).size < MIN_SIZE {
      PutIdle(w, id, Handle(Sentinel, target));
    } else {
      PutFresh(w, id, target.value, RecordAt(w.heap, source.data));
    }
  }

  lemma {:induction false} FreshAbove(keys: set<nat>) returns (t: nat)
    ensures forall k :: k in keys ==> k < t
    decreases |keys|
  {
    if keys == {} { return 0; }
    var k :| k in keys;
    var rest := FreshAbove(keys - {k});
    t := if rest > k then rest else k + 1;
    assert forall x :: x in keys ==> x == k || x in keys - {k};
  }

  lemma AssignSound(w: World, id: nat, from: nat)
    requires Sound(w) && Admissible(w, Assign(id, from)) && id != from
    ensures Sound(World(Assigned(w.heap, w.values[id], w.values[from]).0,
                        w.values[id := Assigned(w.heap, w.values[id], w.values[from]).1]))
  {
    StepDefined(w);
    var t := FreshAbove(w.values.Keys);
    var (heap, copy) := Copied(w.heap, w.values[from], w.values[id].resource);
    PutCopy(w, t, w.values[from], w.values[id].resource);
    hide Sound, Destroyed, Copied, Numbered;
    assert w.values[t := copy][id] == w.values[id] && w.values[t := copy][t] == copy;
    ReplaceSound(World(heap, w.values[t := copy]), id, t);
    PlaceTakenFrom(w.values, id, t, copy);
  }

  lemma PlaceTakenFrom<V>(m: map<nat, V>, id: nat, t: nat, copy: V)
    requires t !in m && id in m
    ensures m[t := copy][id := copy] - {t} == m[id := copy]
  {
  }

  /** The second value takes the first one's place, and what the first one owned is released. */
  lemma ReplaceSound(w: World, id: nat, t: nat)
    requires Sound(w) && id in w.values && t in w.values && id != t
    ensures w.values[id].resource.Some? ==> Readable(w.heap, w.values[id].data)
    ensures Sound(World(Destroyed(w.heap, w.values[id]).0, w.values[id := w.values[t]] - {t}))
  {
    OwnersRead(w);
    hide Sound;
    var w1 := w.(values := w.values[id := w.values[t]][t := w.values[id]]);
    Swapped(w, id, t);
    Emptied(w1, t, EMPTY);
    var w2 := World(Destroyed(w.heap, w.values[id]).0, w1.values[t := EMPTY]);
    Forgotten(w2, t);
    SwapAndDrop(w.values, id, t, EMPTY);
  }

  lemma SwapAndDrop<V>(m: map<nat, V>, id: nat, t: nat, empty: V)
    requires id in m && t in m && id != t
    ensures m[id := m[t]][t := m[id]][t := empty] - {t} == m[id := m[t]] - {t}
  {
  }

  lemma OwnersRead(w: World)
    requires Sound(w)
    ensures forall i :: i in w.values && w.values[i].resource.Some? ==> Readable(w.heap, w.values[i].data)
  {
    forall i | i in w.values && w.values[i].resource.Some? ensures Readable(w.heap, w.values[i].data) {
      OwnerReads(w, i);
    }
  }

  lemma MoveAssignSound(w: World, id: nat, from: nat)
    requires Sound(w) && Admissible(w, MoveAssign(id, from)) && id != from
    requires w.values[id].resource.Some? ==> Readable(w.heap, w.values[id].data)
    requires Numbered(w.heap)
    requires (w.values[id].Owns() && w.values[from].Owns() ==> w.values[id].data != w.values[from].data)
    ensures var (heap, h) := MoveAssigned(w.heap, w.values[id], w.values[from]);
            Sound(World(heap, w.values[id := h][from := EMPTY]))
  {
    hide Sound, Destroyed, Copied;
    var target, source := w.values[id], w.values[from];
    if target.resource == source.resource {
      Emptied(w, id, EMPTY);
      var w1 := World(Destroyed(w.heap, target).0, w.values[id := EMPTY]);
      Swapped(w1, id, from);
      assert w1.values[id := w1.values[from]][from := w1.values[id]] == w.values[id := source][from := EMPTY];
    } else {
      CrossMoveSound(w, id, from);
    }
  }

  lemma CrossMoveSound(w: World, id: nat, from: nat)
    requires Sound(w) && Admissible(w, MoveAssign(id, from)) && id != from
    requires w.values[id].resource != w.values[from].resource
    requires w.values[id].resource.Some? ==> Readable(w.heap, w.values[id].data)
    requires Numbered(w.heap)
    requires (w.values[id].Owns() && w.values[from].Owns() ==> w.values[id].data != w.values[from].data)
    ensures var (heap, h) := MoveAssigned(w.heap, w.values[id], w.values[from]);
            Sound(World(heap, w.values[id := h][from := EMPTY]))
  {
    var target, source := w.values[id], w.values[from];
    var t := FreshAbove(w.values.Keys);
    PutCopy(w, t, source, target.resource);
    hide Sound, Destroyed, Copied, Numbered;
    var (heap, copy) := Copied(w.heap, source, target.resource);
    CopyTakesPlace(World(heap, w.values[t := copy]), id, from, t);
    PlaceTaken(w.values, id, from, t, copy, EMPTY);
  }

  lemma PlaceTaken<V>(m: map<nat, V>, id: nat, from: nat, t: nat, copy: V, empty: V)
    requires t !in m && id in m && from in m && id != from
    ensures m[t := copy][from := empty][id := copy] - {t} == m[id := copy][from := empty]
  {
  }

  /** A moved-from value is emptied, and the copy made for it replaces the target. */
  lemma CopyTakesPlace(w: World, id: nat, from: nat, t: nat)
    requires Sound(w) && id in w.values && from in w.values && t in w.values && id != from && t != id && t != from
    ensures w.values[from].resource.Some? ==> Readable(w.heap, w.values[from].data)
    ensures var heap := Destroyed(w.heap, w.values[from]).0;
            && (w.values[id].resource.Some? ==> Readable(heap, w.values[id].data))
            && Sound(World(Destroyed(heap, w.values[id]).0, w.values[from := EMPTY][id := w.values[t]] - {t}))
  {
    OwnersRead(w);
    hide Sound, Destroyed;
    Emptied(w, from, EMPTY);
    ReplaceSound(World(Destroyed(w.heap, w.values[from]).0, w.values[from := EMPTY]), id, t);
  }

  lemma StepSound(w: World, op: Op)
    requires Sound(w) && Admissible(w, op)
    ensures Sound(Step(w, op))
  {
    StepDefined(w);
    hide Sound, Destroyed, Assigned, MoveAssigned, Copied;
    match op
    case Default(id) => PutIdle(w, id, EMPTY);
    case FromRecord(id, record, pool) => PutFresh(w, id, pool, record);
    case View(id, bytes) => PutIdle(w, id, Handle(bytes, None));
    case Copy(id, from, resource) => PutCopy(w, id, w.values[from], resource);
    case Move(id, from) => MoveSound(w, id, from);
    case Assign(id, from) => if id != from { AssignSound(w, id, from); }
    case MoveAssign(id, from) => if id != from { MoveAssignSound(w, id, from); }
    case Exchange(id, with) => Swapped(w, id, with);
    case Clear(id) => Emptied(w, id, EMPTY);
    case Destruct(id) => DestructSound(w, id);
  }

  lemma MoveSound(w: World, id: nat, from: nat)
    requires Sound(w) && id !in w.values && from in w.values
    ensures Sound(w.(values := w.values[id := w.values[from]][from := EMPTY]))
  {
    hide Sound;
    PutIdle(w, id, EMPTY);
    var w1 := w.(values := w.values[id := EMPTY]);
    assert w1.values[id] == EMPTY && w1.values[from] == w.values[from];
    Swapped(w1, id, from);
    assert w.values[id := EMPTY][id := w.values[from]][from := EMPTY] == w.values[id := w.values[from]][from := EMPTY];
  }

  lemma DestructSound(w: World, id: nat)
    requires Sound(w) && id in w.values
    ensures w.values[id].resource.Some? ==> Readable(w.heap, w.values[id].data)
    ensures Sound(World(Destroyed(w.heap, w.values[id]).0, w.values - {id}))
  {
    OwnersRead(w);
    hide Sound, Destroyed;
    Emptied(w, id, EMPTY);
    Forgotten(World(Destroyed(w.heap, w.values[id]).0, w.values[id := EMPTY]), id);
    assert w.values[id := EMPTY] - {id} == w.values - {id};
  }

  // --- whole programs ---------------------------------------------------------------------------------

  ghost predicate Run(w: World, ops: seq<Op>, end: World)
    decreases |ops|
  {
    Sound(w) && (if ops == [] then w == end else Admissible(w, ops[0]) && Run(Step(w, ops[0]), ops[1..], end))
  }

  const NOTHING := World(Heap(map[], [], []), map[])

  /** Every step of a program keeps the owners sound, so it can go on with any admissible step. */
  lemma {:induction false} RunContinues(w: World, ops: seq<Op>, end: World, op: Op)
    requires Run(w, ops, end) && Admissible(end, op)
    ensures Sound(end) && Run(w, ops + [op], Step(end, op))
    decreases |ops|
  {
    hide Sound, Step;
    if ops == [] {
      StepSound(w, op);
      assert [op][1..] == [];
      assert Run(Step(w, op), [], Step(w, op));
      assert ops + [op] == [op];
    } else {
      RunContinues(Step(w, ops[0]), ops[1..], end, op);
      assert (ops + [op])[1..] == ops[1..] + [op];
    }
  }

  /** A program can start from nothing and go on with any admissible operation: no step gets stuck, and
      the owners are sound wherever it has got. */
  lemma ProgramsNeverStick()
    ensures Run(NOTHING, [], NOTHING)
    ensures forall ops: seq<Op>, end: World, op: Op :: Run(NOTHING, ops, end) && Admissible(end, op) ==>
              Sound(end) && Run(NOTHING, ops + [op], Step(end, op))
  {
    forall ops: seq<Op>, end: World, op: Op | Run(NOTHING, ops, end) && Admissible(end, op)
      ensures Sound(end) && Run(NOTHING, ops + [op], Step(end, op))
    {
      RunContinues(NOTHING, ops, end, op);
    }
  }

  lemma {:induction false} RunSound(w: World, ops: seq<Op>, end: World)
    requires Run(w, ops, end)
    ensures Sound(end)
    decreases |ops|
  {
    hide Sound, Step;
    if ops != [] {
      RunSound(Step(w, ops[0]), ops[1..], end);
    }
  }

  /** After any program each live block has exactly one owner, of the resource and for the size it was
      made with. */
  lemma LiveBlocksHaveOneOwner(ops: seq<Op>, end: World, a: nat)
    requires Run(NOTHING, ops, end) && a in end.heap.live
    ensures exists i :: i in end.values && end.values[i].Owns() && end.values[i].data.address == a
                        && a < |end.heap.made| && end.heap.made[a]
                           == Allocation(end.values[i].resource.value, end.heap.live[a].size)
                        && forall j ::
                             j in end.values && end.values[j].Owns() && end.values[j].data.address == a ==> j == i
  {
    RunSound(NOTHING, ops, end);
    hide Run, ReleasesSound;
    assert Owned(end, a);
    var i :| i in end.values && end.values[i].Owns() && end.values[i].data.address == a;
    assert end.heap.made[a].resource == end.values[i].resource.value && end.heap.made[a].size == end.heap.live[a].size;
    assert end.heap.made[a] == Allocation(end.values[i].resource.value, end.heap.live[a].size);
    forall j | j in end.values && end.values[j].Owns() && end.values[j].data.address == a ensures j == i {}
  }

  /** After any program that has destructed all its values, every allocation was released exactly once,
      to the resource and with the size it was made with. */
  lemma NothingLeaks(ops: seq<Op>, end: World)
    requires Run(NOTHING, ops, end) && end.values == map[]
    ensures end.heap.live == map[]
    ensures forall a :: 0 <= a < |end.heap.made| ==> ReleasedAsMade(end.heap, a)
    ensures forall k, l :: 0 <= k < l < |end.heap.freed| ==> end.heap.freed[k].address != end.heap.freed[l].address
  {
    RunSound(NOTHING, ops, end);
    hide Run, OwnersSound, BlocksSound;
    forall a ensures a !in end.heap.live { assert !Owned(end, a); }
    forall a | 0 <= a < |end.heap.made| ensures ReleasedAsMade(end.heap, a) {
      assert a !in end.heap.live;
      FreedAsMade(end.heap, a);
    }
  }

  /** Released to the resource and with the size of the allocation. */
  ghost predicate ReleasedAsMade(heap: Heap, a: nat)
    requires a < |heap.made|
  {
    exists k :: 0 <= k < |heap.freed| && heap.freed[k] == Release(a, heap.made[a].resource, heap.made[a].size)
  }

  lemma FreedAsMade(heap: Heap, a: nat)
    requires ReleasesSound(heap) && a < |heap.made| && a !in heap.live
    ensures ReleasedAsMade(heap, a)
  {
    assert Freed(heap, a);
    var k :| 0 <= k < |heap.freed| && heap.freed[k].address == a;
    assert heap.freed[k] == Release(a, heap.made[a].resource, heap.made[a].size);
  }

  // --- what the values say ----------------------------------------------------------------------------

  /** What a copy of a handle is: for a resource, its own or else the source's, it owns a whole record that
      reads the same, or holds the sentinel if the record is no whole one; without any it is a view of the
      same bytes. */
  predicate CopyOf(before: Heap, source: Handle, resource: Option<nat>, after: Heap, h: Handle)
    requires Readable(before, source.data)
  {
    var wanted := if resource.Some? then resource else source.resource;
    && h.resource == wanted
    && if wanted.None? then h.data == source.data
       else if RecordAt(before, source.data).size < MIN_SIZE then h.data == Sentinel
       else && h.Owns() && h.data.address !in before.live && Readable(after, h.data)
            && RecordAt(after, h.data) == RecordAt(before, source.data)
  }

  lemma CopiedIsCopy(heap: Heap, source: Handle, resource: Option<nat>)
    requires Numbered(heap) && Readable(heap, source.data)
    ensures CopyOf(heap, source, resource, Copied(heap, source, resource).0, Copied(heap, source, resource).1)
  {
  }

  lemma AssignedIsCopy(heap: Heap, target: Handle, source: Handle)
    requires Numbered(heap) && Readable(heap, source.data) && (target.resource.Some? ==> Readable(heap, target.data))
    ensures var (after, h) := Assigned(heap, target, source); CopyOf(heap, source, target.resource, after, h)
  {
  }

  lemma MoveAssignedIsCopy(heap: Heap, target: Handle, source: Handle)
    requires Numbered(heap) && Readable(heap, source.data) && (target.resource.Some? ==> Readable(heap, target.data))
    requires target.Owns() && source.Owns() ==> target.data != source.data
    ensures var (after, h) := MoveAssigned(heap, target, source);
            if target.resource == source.resource then h == source
            else CopyOf(heap, source, target.resource, after, h)
  {
  }

  /** The heap without the block of this handle, if it owns one. */
  predicate LosesBlock(before: Heap, h: Handle, after: Heap) {
    after.made == before.made
    && after.live == if h.Owns() then before.live - {h.data.address} else before.live
  }

  /** What each operation does to the values it names. */
  predicate Effect(w: World, op: Op, w': World)
    requires Admissible(w, op)
  {
    match op
    case Default(id) => w' == w.(values := w.values[id := EMPTY])
    case FromRecord(id, record, pool) =>
      && id in w'.values && w' == World(w'.heap, w.values[id := w'.values[id]])
      && w'.values[id].Owns() && w'.values[id].resource == Some(pool)
      && Readable(w'.heap, w'.values[id].data) && RecordAt(w'.heap, w'.values[id].data) == record
    case View(id, bytes) => w' == w.(values := w.values[id := Handle(bytes, None)])
    case Copy(id, from, resource) =>
      && id in w'.values && w' == World(w'.heap, w.values[id := w'.values[id]])
      && CopyOf(w.heap, w.values[from], resource, w'.heap, w'.values[id])
    case Move(id, from) => w' == w.(values := w.values[id := w.values[from]][from := EMPTY])
    case Assign(id, from) =>
      if id == from then w' == w
      else && id in w'.values && w' == World(w'.heap, w.values[id := w'.values[id]])
           && CopyOf(w.heap, w.values[from], w.values[id].resource, w'.heap, w'.values[id])
    case MoveAssign(id, from) =>
      if id == from then w' == w
      else && id in w'.values && w' == World(w'.heap, w.values[id := w'.values[id]][from := EMPTY])
           && if w.values[id].resource == w.values[from].resource then w'.values[id] == w.values[from]
              else CopyOf(w.heap, w.values[from], w.values[id].resource, w'.heap, w'.values[id])
    case Exchange(id, with) => w' == w.(values := w.values[id := w.values[with]][with := w.values[id]])
    case Clear(id) => w'.values == w.values[id := EMPTY] && LosesBlock(w.heap, w.values[id], w'.heap)
    case Destruct(id) => w'.values == w.values - {id} && LosesBlock(w.heap, w.values[id], w'.heap)
  }

  lemma StepEffect(w: World, op: Op)
    requires Sound(w) && Admissible(w, op)
    ensures Effect(w, op, Step(w, op))
  {
    hide Sound, Copied, CopyOf, Assigned, MoveAssigned, Destroyed, LosesBlock;
    StepDefined(w);
    match op
    case Copy(_, from, resource) => CopiedIsCopy(w.heap, w.values[from], resource);
    case Assign(id, from) => if id != from { AssignedIsCopy(w.heap, w.values[id], w.values[from]); }
    case MoveAssign(id, from) => if id != from { MoveAssignedIsCopy(w.heap, w.values[id], w.values[from]); }
    case Clear(id) => DestroyedLoses(w, id);
    case Destruct(id) => DestroyedLoses(w, id);
    case _ =>
  }

  lemma DestroyedLoses(w: World, id: nat)
    requires Sound(w) && id in w.values
    ensures w.values[id].resource.Some? ==> Readable(w.heap, w.values[id].data)
    ensures LosesBlock(w.heap, w.values[id], Destroyed(w.heap, w.values[id]).0)
  {
    if w.values[id].Owns() { OwnedIsWhole(w, id); }
    if w.values[id].resource.Some? { OwnerReads(w, id); }
  }

  lemma OwnedIsWhole(w: World, id: nat)
    requires Sound(w) && id in w.values && w.values[id].Owns()
    ensures Readable(w.heap, w.values[id].data) && RecordAt(w.heap, w.values[id].data).size >= MIN_SIZE
  {
  }

  lemma AssignedRecord(heap: Heap, target: Handle, source: Handle)
    requires Numbered(heap) && Readable(heap, source.data) && (target.resource.Some? ==> Readable(heap, target.data))
    requires RecordAt(heap, source.data).size >= MIN_SIZE
    ensures var (after, h) := Assigned(heap, target, source);
            && Readable(after, h.data) && RecordAt(after, h.data) == RecordAt(heap, source.data)
            && (target.resource.Some? ==> h.resource == target.resource)
  {
  }

  lemma MoveAssignedRecord(heap: Heap, target: Handle, source: Handle)
    requires Numbered(heap) && Readable(heap, source.data) && (target.resource.Some? ==> Readable(heap, target.data))
    requires target.Owns() && source.Owns() ==> target.data != source.data
    requires RecordAt(heap, source.data).size >= MIN_SIZE
    ensures var (after, h) := MoveAssigned(heap, target, source);
            Readable(after, h.data) && RecordAt(after, h.data) == RecordAt(heap, source.data)
  {
  }

  /** Assigning gives the target the source's record; what it owned itself is gone. */
  lemma AssignGivesRecord(w: World, id: nat, from: nat, op: Op)
    requires Sound(w) && Admissible(w, op) && id != from && (op == Assign(id, from) || op == MoveAssign(id, from))
    requires RecordAt(w.heap, w.values[from].data).size >= MIN_SIZE
    ensures var w' := Step(w, op);
            && Readable(w'.heap, w'.values[id].data)
               && RecordAt(w'.heap, w'.values[id].data) == RecordAt(w.heap, w.values[from].data)
            && w'.values[from] == (if op.Assign? then w.values[from] else EMPTY)
            && (w.values[id].resource.Some? && op.Assign? ==> w'.values[id].resource == w.values[id].resource)
  {
    hide Sound, Assigned, MoveAssigned;
    StepDefined(w);
    var target, source := w.values[id], w.values[from];
    if op.Assign? {
      AssignedRecord(w.heap, target, source);
    } else {
      MoveAssignedRecord(w.heap, target, source);
    }
  }

  /** Whoever is not named in an operation keeps its handle and, if it owns a record, its record. */
  lemma OthersKeepRecords(w: World, op: Op, k: nat)
    requires Sound(w) && Admissible(w, op) && k in w.values && k != op.id && w.values[k].Owns()
    requires op.Move? || op.MoveAssign? ==> k != op.from
    requires op.Exchange? ==> k != op.with
    ensures var w' := Step(w, op);
            && k in w'.values && w'.values[k] == w.values[k]
            && Readable(w'.heap, w'.values[k].data)
               && RecordAt(w'.heap, w'.values[k].data) == RecordAt(w.heap, w.values[k].data)
  {
    hide Sound, Destroyed, Copied, Assigned, MoveAssigned;
    StepDefined(w);
    OnlyOwner(w, k);
    var a := w.values[k].data.address;
    match op
    case Copy(_, from, resource) => CopiedKeeps(w.heap, w.values[from], resource, a);
    case Assign(id, from) => if id != from { AssignedKeeps(w.heap, w.values[id], w.values[from], a); }
    case MoveAssign(id, from) => if id != from { MoveAssignedKeeps(w.heap, w.values[id], w.values[from], a); }
    case Clear(id) => DestroyedKeeps(w.heap, w.values[id], a);
    case Destruct(id) => DestroyedKeeps(w.heap, w.values[id], a);
    case _ =>
  }

  predicate IsAt(h: Handle, address: nat) {
    h.Owns() && h.data.address == address
  }

  lemma OnlyOwner(w: World, k: nat)
    requires Sound(w) && k in w.values && w.values[k].Owns()
    ensures w.values[k].data.address in w.heap.live && w.values[k].data.address < |w.heap.made|
    ensures forall i :: i in w.values && i != k ==> !IsAt(w.values[i], w.values[k].data.address)
  {
  }

  lemma CopiedKeeps(heap: Heap, source: Handle, resource: Option<nat>, a: nat)
    requires Readable(heap, source.data) && a in heap.live && a < |heap.made|
    ensures var after := Copied(heap, source, resource).0; a in after.live && after.live[a] == heap.live[a]
  {
  }

  lemma DestroyedKeeps(heap: Heap, h: Handle, a: nat)
    requires (h.resource.Some? ==> Readable(heap, h.data)) && a in heap.live && !IsAt(h, a)
    ensures var after := Destroyed(heap, h).0; a in after.live && after.live[a] == heap.live[a]
  {
  }

  lemma AssignedKeeps(heap: Heap, target: Handle, source: Handle, a: nat)
    requires Numbered(heap) && Readable(heap, source.data) && (target.resource.Some? ==> Readable(heap, target.data))
    requires a in heap.live && !IsAt(target, a)
    ensures var after := Assigned(heap, target, source).0; a in after.live && after.live[a] == heap.live[a]
  {
  }

  lemma MoveAssignedKeeps(heap: Heap, target: Handle, source: Handle, a: nat)
    requires Numbered(heap) && Readable(heap, source.data) && (target.resource.Some? ==> Readable(heap, target.data))
    requires target.Owns() && source.Owns() ==> target.data != source.data
    requires a in heap.live && !IsAt(target, a) && !IsAt(source, a)
    ensures var after := MoveAssigned(heap, target, source).0; a in after.live && after.live[a] == heap.live[a]
  {
  }
}
