/**
 * The abstract contract of the interpreter's RAM: an ordered sequence of named
 * cells. A cell's address is the position at which it was created.
 * Reading by name finds the cell with that name; writing by name overwrites it
 * or, when there is none, creates it at the next address; writing by address
 * succeeds only for an existing address and may change the cell's type.
 */
module Memory {

  import opened Wrappers

  /** A run-time value: the tagged union held by a memory cell. Reals are carried
      as opaque tokens (the literal's text). */
  datatype Value = Int(i: int) | Real(token: string) | Str(s: string) | Ptr(addr: int)

  datatype Cell = Cell(name: string, value: Value)

  /** No two cells share a name: writing by name never creates a duplicate. */
  ghost predicate UniqueNames(cells: seq<Cell>)
  {
    forall i, j :: 0 <= i < j < |cells| ==> cells[i].name != cells[j].name
  }

  /** The address of the first cell called `name`, if there is one. */
  function IndexOf(cells: seq<Cell>, name: string): (r: Option<nat>)
    ensures r.Some? ==> r.value < |cells| && cells[r.value].name == name
  {
    if cells == [] then None
    else if cells[0].name == name then Some(0)
    else match IndexOf(cells[1..], name)
      case None => None
      case Some(k) => Some(k + 1)
  }

  /** Read by name: the value of the cell called `name`, or `None` when it is undefined. */
  function Lookup(cells: seq<Cell>, name: string): Option<Value>
  {
    match IndexOf(cells, name)
    case None => None
    case Some(k) => Some(cells[k].value)
  }

  /** Write by name: overwrite the cell called `name`, or append a new one. */
  function Store(cells: seq<Cell>, name: string, v: Value): seq<Cell>
  {
    match IndexOf(cells, name)
    case None => cells + [Cell(name, v)]
    case Some(k) => cells[k := Cell(name, v)]
  }

  /** Write by address: `None` when `addr` names no cell; otherwise the cell keeps
      its name and takes the new value, whatever its old type. */
  function StoreAt(cells: seq<Cell>, addr: int, v: Value): Option<seq<Cell>>
  {
    if 0 <= addr < |cells| then Some(cells[addr := Cell(cells[addr].name, v)]) else None
  }

  /** `IndexOf` finds the first cell with that name, and finds none exactly when
      no cell has it. */
  lemma {:induction false} IndexOfSpec(cells: seq<Cell>, name: string)
    ensures IndexOf(cells, name).Some? ==> forall j :: 0 <= j < IndexOf(cells, name).value ==> cells[j].name != name
    ensures IndexOf(cells, name).None? <==> forall j :: 0 <= j < |cells| ==> cells[j].name != name
  {
    if cells != [] && cells[0].name != name {
      IndexOfSpec(cells[1..], name);
      assert forall j :: 1 <= j < |cells| ==> cells[j] == cells[1..][j - 1];
    }
  }

  /** `IndexOf` is determined by its contract: the first cell with that name. */
  lemma IndexOfIsFirst(cells: seq<Cell>, name: string, k: nat)
    requires k < |cells| && cells[k].name == name
    requires forall j :: 0 <= j < k ==> cells[j].name != name
    ensures IndexOf(cells, name) == Some(k)
  {
    IndexOfSpec(cells, name);
  }

  /** After a write by name, reading `name` gives the new value and every other
      name reads as before. */
  lemma LookupStore(cells: seq<Cell>, name: string, v: Value, other: string)
    ensures Lookup(Store(cells, name, v), other) == if other == name then Some(v) else Lookup(cells, other)
  {
    var r := Store(cells, name, v);
    IndexOfSpec(cells, name);
    IndexOfSpec(cells, other);
    match IndexOf(cells, name)
    case None =>
      if other == name {
        IndexOfIsFirst(r, name, |cells|);
      } else {
        match IndexOf(cells, other)
        case None =>
          assert forall j :: 0 <= j < |r| ==> r[j].name != other;
        case Some(k) =>
          IndexOfIsFirst(r, other, k);
      }
    case Some(k) =>
      if other == name {
        IndexOfIsFirst(r, name, k);
      } else {
        match IndexOf(cells, other)
        case None =>
          assert forall j :: 0 <= j < |r| ==> r[j].name != other;
        case Some(k') =>
          IndexOfIsFirst(r, other, k');
      }
  }

  /** A write by name keeps every existing cell at its address with its name,
      changes no cell but the one called `name`, and creates a cell only when the
      name was undefined, at the next address. */
  lemma StoreAddresses(cells: seq<Cell>, name: string, v: Value)
    ensures var r := Store(cells, name, v);
      && |r| == (if Lookup(cells, name).None? then |cells| + 1 else |cells|)
      && (forall i :: 0 <= i < |cells| ==> r[i].name == cells[i].name)
      && (forall i :: 0 <= i < |cells| && cells[i].name != name ==> r[i] == cells[i])
      && (Lookup(cells, name).None? ==> r[|cells|] == Cell(name, v))
  {
    IndexOfSpec(cells, name);
  }

  /** Writing by name never introduces a duplicate name. */
  lemma StoreKeepsNamesUnique(cells: seq<Cell>, name: string, v: Value)
    requires UniqueNames(cells)
    ensures UniqueNames(Store(cells, name, v))
  {
    IndexOfSpec(cells, name);
  }

  /** A write by address succeeds exactly for an existing address, changes only that
      cell's value, and keeps every name where it was. */
  lemma StoreAtFrame(cells: seq<Cell>, addr: int, v: Value)
    ensures StoreAt(cells, addr, v).Some? <==> 0 <= addr < |cells|
    ensures StoreAt(cells, addr, v).Some? ==>
      var r := StoreAt(cells, addr, v).value;
      && |r| == |cells|
      && r[addr] == Cell(cells[addr].name, v)
      && (forall j :: 0 <= j < |cells| ==> r[j].name == cells[j].name)
      && (forall j :: 0 <= j < |cells| && j != addr ==> r[j] == cells[j])
  {
  }

  /** With unique names, a write by address changes what exactly one name reads:
      the name of the cell at that address. */
  lemma LookupStoreAt(cells: seq<Cell>, addr: int, v: Value, other: string)
    requires UniqueNames(cells)
    requires 0 <= addr < |cells|
    ensures UniqueNames(StoreAt(cells, addr, v).value)
    ensures Lookup(StoreAt(cells, addr, v).value, other) ==
      if other == cells[addr].name then Some(v) else Lookup(cells, other)
  {
    var r := StoreAt(cells, addr, v).value;
    IndexOfSpec(cells, other);
    match IndexOf(cells, other)
    case None =>
      assert forall j :: 0 <= j < |r| ==> r[j].name != other;
    case Some(k) =>
      IndexOfIsFirst(r, other, k);
  }

  /** The interpreter's RAM: a store whose cells the write operations replace. */
  class Ram {
    var cells: seq<Cell>

    ghost predicate Valid()
      reads this
    {
      UniqueNames(cells)
    }

    function ReadCellByName(name: string): Option<Value>
      reads this
    {
      Lookup(cells, name)
    }

    method WriteCellByName(v: Value, name: string)
      requires Valid()
      modifies this
      ensures Valid()
      ensures cells == Store(old(cells), name, v)
    {
      StoreKeepsNamesUnique(cells, name, v);
      cells := Store(cells, name, v);
    }

    method WriteCellByAddr(v: Value, addr: int) returns (ok: bool)
      requires Valid()
      modifies this
      ensures Valid()
      ensures ok <==> 0 <= addr < |old(cells)|
      ensures cells == if ok then StoreAt(old(cells), addr, v).value else old(cells)
    {
      ok := 0 <= addr < |cells|;
      if ok {
        LookupStoreAt(cells, addr, v, "");
        cells := StoreAt(cells, addr, v).value;
      }
    }
  }
}
