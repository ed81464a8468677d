/** The memory of one rank while it makes the calls of a script: a receive stores a block, a send reads one. */
module TreeMemory {
  import opened Items

  /** The buffer that the caller gives for all blocks, the rank's own buffer, and the staging area. */
  datatype Area = User | Own | Staging

  datatype Place = Place(area: Area, offset: nat)

  /** A call and the place of its block in memory. */
  datatype Access = Access(item: Item, place: Place)

  datatype Cell = Cell(area: Area, index: nat)

  predicate In(a: Access, c: Cell)
  {
    c.area == a.place.area && a.place.offset <= c.index < a.place.offset + a.item.count
  }

  /** The elements of the block of `a` are stored at its place. */
  ghost function Stored<V>(mem: Cell -> V, a: Access, n: nat, data: nat -> V): Cell -> V
  {
    (c: Cell) => if In(a, c) then data(Element(n, a.item.block, c.index - a.place.offset)) else mem(c)
  }

  /** The memory after the calls of `log`, all receives having brought their block. */
  ghost function Memory<V>(mem: Cell -> V, log: seq<Access>, n: nat, data: nat -> V): Cell -> V
  {
    if log == [] then mem
    else
      var before, a := Memory(mem, log[..|log| - 1], n, data), log[|log| - 1];
      if a.item.sending then before else Stored(before, a, n, data)
  }

  ghost predicate CellIs<V(!new)>(mem: Cell -> V, a: Access, n: nat, data: nat -> V, j: nat)
  {
    mem(Cell(a.place.area, a.place.offset + j)) == data(Element(n, a.item.block, j))
  }

  /** The cells of the access hold the elements of its block. */
  ghost predicate Holds<V(!new)>(mem: Cell -> V, a: Access, n: nat, data: nat -> V)
  {
    forall j: nat :: j < a.item.count ==> CellIs(mem, a, n, data, j)
  }

  ghost function BlockAt(place: Place, b: nat, count: nat): Access
  {
    Access(Item(false, 0, b, count), place)
  }

  /** The first `count` elements of block `b` are at `place`. */
  ghost predicate HoldsBlock<V(!new)>(mem: Cell -> V, place: Place, n: nat, b: nat, count: nat, data: nat -> V)
  {
    Holds(mem, BlockAt(place, b, count), n, data)
  }

  lemma HoldsSame<V(!new)>(mem: Cell -> V, a: Access, b: Access, n: nat, data: nat -> V)
    requires Holds(mem, a, n, data) && a.item.block == b.item.block && a.place == b.place && a.item.count == b.item.count
    ensures Holds(mem, b, n, data)
  {
    forall j: nat | j < b.item.count ensures CellIs(mem, b, n, data, j) {
      assert CellIs(mem, a, n, data, j);
    }
  }

  /** Every send reads the elements of its block. */
  ghost predicate ReadsRight<V(!new)>(mem: Cell -> V, log: seq<Access>, n: nat, data: nat -> V)
  {
    forall u: nat :: u < |log| && log[u].item.sending ==> Holds(Memory(mem, log[..u], n, data), log[u], n, data)
  }

  /** No cell belongs to both. */
  ghost predicate Apart(a: Access, b: Access)
  {
    forall c: Cell :: !(In(a, c) && In(b, c))
  }

  predicate SamePlace(a: Access, b: Access)
  {
    a.place == b.place && a.item.count == b.item.count
  }

  ghost predicate Fit(a: Access, b: Access)
  {
    if a.item.block == b.item.block then SamePlace(a, b) else Apart(a, b)
  }

  /** A block has one place, and different blocks do not overlap. */
  ghost predicate Tidy(log: seq<Access>)
  {
    forall i: nat, j: nat :: i < |log| && j < |log| ==> Fit(log[i], log[j])
  }

  lemma StoreKeeps<V(!new)>(mem: Cell -> V, a: Access, b: Access, n: nat, data: nat -> V)
    requires Holds(mem, a, n, data) && Fit(a, b)
    ensures Holds(Stored(mem, b, n, data), a, n, data)
  {
    forall j: nat | j < a.item.count ensures CellIs(Stored(mem, b, n, data), a, n, data, j) {
      assert CellIs(mem, a, n, data, j);
      assert In(a, Cell(a.place.area, a.place.offset + j));
    }
  }

  lemma StoreHolds<V(!new)>(mem: Cell -> V, a: Access, n: nat, data: nat -> V)
    ensures Holds(Stored(mem, a, n, data), a, n, data)
  {
    forall j: nat | j < a.item.count ensures CellIs(Stored(mem, a, n, data), a, n, data, j) {
      assert In(a, Cell(a.place.area, a.place.offset + j));
    }
  }

  lemma MemoryNext<V>(mem: Cell -> V, log: seq<Access>, u: nat, n: nat, data: nat -> V)
    requires u < |log|
    ensures Memory(mem, log[..u + 1], n, data)
         == (if log[u].item.sending then Memory(mem, log[..u], n, data)
             else Stored(Memory(mem, log[..u], n, data), log[u], n, data))
  {
    assert log[..u + 1][..u] == log[..u];
  }

  /** What is in memory stays there. */
  lemma {:induction false} HoldsOn<V(!new)>(mem: Cell -> V, log: seq<Access>, a: Access, t: nat, u: nat, n: nat,
                                            data: nat -> V)
    requires t <= u <= |log| && Holds(Memory(mem, log[..t], n, data), a, n, data)
    requires forall i: nat :: i < |log| ==> Fit(a, log[i])
    ensures Holds(Memory(mem, log[..u], n, data), a, n, data)
    decreases u
  {
    if t < u {
      HoldsOn(mem, log, a, t, u - 1, n, data);
      MemoryNext(mem, log, u - 1, n, data);
      if !log[u - 1].item.sending {
        StoreKeeps(Memory(mem, log[..u - 1], n, data), a, log[u - 1], n, data);
      }
    }
  }

  lemma FitWith(log: seq<Access>, t: nat, a: Access)
    requires Tidy(log) && t < |log| && a.item.block == log[t].item.block && SamePlace(a, log[t])
    ensures forall i: nat :: i < |log| ==> Fit(a, log[i])
  {
    forall i: nat | i < |log| ensures Fit(a, log[i]) {
      assert Fit(log[t], log[i]);
    }
  }

  /** What has been received is in memory from then on. */
  lemma ReceivedHolds<V(!new)>(mem: Cell -> V, log: seq<Access>, t: nat, a: Access, u: nat, n: nat, data: nat -> V)
    requires Tidy(log) && t < u <= |log| && !log[t].item.sending
    requires a.item.block == log[t].item.block && SamePlace(a, log[t])
    ensures Holds(Memory(mem, log[..u], n, data), a, n, data)
  {
    MemoryNext(mem, log, t, n, data);
    StoreHolds(Memory(mem, log[..t], n, data), log[t], n, data);
    var after := Memory(mem, log[..t + 1], n, data);
    forall j: nat | j < a.item.count ensures CellIs(after, a, n, data, j) {
      assert CellIs(after, log[t], n, data, j);
    }
    FitWith(log, t, a);
    HoldsOn(mem, log, a, t + 1, u, n, data);
  }

  /** A send reads its block if the block was there at the start or has come before. */
  ghost predicate ThereBefore<V(!new)>(mem: Cell -> V, log: seq<Access>, u: nat, n: nat, data: nat -> V)
    requires u < |log|
  {
    Holds(mem, log[u], n, data) || exists t: nat :: t < u && !log[t].item.sending && log[t].item.block == log[u].item.block
  }

  lemma ReadsRightBy<V(!new)>(mem: Cell -> V, log: seq<Access>, n: nat, data: nat -> V)
    requires Tidy(log)
    requires forall u: nat :: u < |log| && log[u].item.sending ==> ThereBefore(mem, log, u, n, data)
    ensures ReadsRight(mem, log, n, data)
  {
    forall u: nat | u < |log| && log[u].item.sending
      ensures Holds(Memory(mem, log[..u], n, data), log[u], n, data)
    {
      assert ThereBefore(mem, log, u, n, data);
      assert Fit(log[u], log[u]);
      if Holds(mem, log[u], n, data) {
        FitWith(log, u, log[u]);
        assert log[..0] == [];
        HoldsOn(mem, log, log[u], 0, u, n, data);
      } else {
        var t: nat :| t < u && !log[t].item.sending && log[t].item.block == log[u].item.block;
        assert Fit(log[u], log[t]);
        ReceivedHolds(mem, log, t, log[u], u, n, data);
      }
    }
  }

  /** Without receives the memory stays as it is. */
  lemma {:induction false} OnlySends<V(!new)>(mem: Cell -> V, log: seq<Access>, n: nat, data: nat -> V)
    requires forall i: nat :: i < |log| ==> log[i].item.sending
    ensures Memory(mem, log, n, data) == mem
    decreases |log|
  {
    if log != [] {
      OnlySends(mem, log[..|log| - 1], n, data);
    }
  }
}
