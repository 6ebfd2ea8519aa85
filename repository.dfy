/** The device repository: a table of rows keyed by id, its derived queries,
    and the stateful repository object whose `save` and `deleteById` change
    the table in place. */
module Repository {
  import opened Options
  import opened DeviceStates
  import opened Text
  import opened Devices

  /** Every row is stored under its own id. */
  predicate IdsMatch(table: map<int, DeviceRecord>) {
    forall k :: k in table ==> table[k].id == k
  }

  /** Which rows a query selects. */
  datatype Filter = All | BrandContains(brand: string) | StateIs(state: State)

  predicate Matches(f: Filter, d: DeviceRecord) {
    match f
    case All => true
    case BrandContains(b) => ContainsIgnoreCase(d.brand, b)
    case StateIs(s) => d.state == s
  }

  /** Strictly ascending ids, hence each row at most once. */
  predicate Ascending(rs: seq<DeviceRecord>) {
    forall i, j :: 0 <= i < j < |rs| ==> rs[i].id < rs[j].id
  }

  /** `rs` lists exactly the stored rows that `f` selects, each once, in id order. */
  predicate ExactListing(rs: seq<DeviceRecord>, table: map<int, DeviceRecord>, f: Filter) {
    && (forall i :: 0 <= i < |rs| ==> rs[i].id in table && table[rs[i].id] == rs[i] && Matches(f, rs[i]))
    && (forall k :: k in table && Matches(f, table[k]) ==> table[k] in rs)
    && Ascending(rs)
  }

  /** The rows with ids in [lo, hi) that `f` selects, in id order. */
  function Select(table: map<int, DeviceRecord>, f: Filter, lo: int, hi: int): (r: seq<DeviceRecord>)
    requires IdsMatch(table)
    ensures forall i :: 0 <= i < |r| ==>
      lo <= r[i].id < hi && r[i].id in table && table[r[i].id] == r[i] && Matches(f, r[i])
    ensures forall k :: lo <= k < hi && k in table && Matches(f, table[k]) ==> table[k] in r
    ensures Ascending(r)
    decreases hi - lo
  {
    if lo >= hi then []
    else
      var rest := Select(table, f, lo + 1, hi);
      if lo in table && Matches(f, table[lo]) then [table[lo]] + rest else rest
  }

  /** Two ascending listings with the same rows are the same listing. */
  lemma {:induction false} AscendingSameElements(a: seq<DeviceRecord>, b: seq<DeviceRecord>)
    requires Ascending(a) && Ascending(b)
    requires forall x :: x in a <==> x in b
    ensures a == b
    decreases |a|
  {
    if a != [] || b != [] {
      var x := if a != [] then a[0] else b[0];
      assert x in a && x in b;
      assert b[0] in b;
      var i :| 0 <= i < |a| && a[i] == b[0];
      var j :| 0 <= j < |b| && b[j] == a[0];
      assert a[0].id <= a[i].id == b[0].id <= b[j].id == a[0].id;
      assert i == 0;
      forall y ensures y in a[1..] <==> y in b[1..] {
        if y in a[1..] {
          var p :| 1 <= p < |a| && a[p] == y;
          assert y in a;
          var q :| 0 <= q < |b| && b[q] == y;
          assert q != 0;
        }
        if y in b[1..] {
          var q :| 1 <= q < |b| && b[q] == y;
          assert y in b;
          var p :| 0 <= p < |a| && a[p] == y;
          assert p != 0;
        }
      }
      AscendingSameElements(a[1..], b[1..]);
      assert a == [a[0]] + a[1..];
      assert b == [b[0]] + b[1..];
    }
  }

  /** A listing is determined by the table and the filter. */
  lemma ExactListingUnique(a: seq<DeviceRecord>, b: seq<DeviceRecord>, table: map<int, DeviceRecord>, f: Filter)
    requires ExactListing(a, table, f) && ExactListing(b, table, f)
    ensures a == b
  {
    forall x ensures x in a <==> x in b {
      if x in a {
        var i :| 0 <= i < |a| && a[i] == x;
        assert table[x.id] == x;
      }
      if x in b {
        var i :| 0 <= i < |b| && b[i] == x;
        assert table[x.id] == x;
      }
    }
    AscendingSameElements(a, b);
  }

  /** The abstract value of the repository: the table and the next id the
      generator hands out. */
  datatype Store = Store(table: map<int, DeviceRecord>, nextId: int) {

    /** Ids are handed out from 1 upwards, every stored id was handed out
        already, and every row is stored under its own id. */
    predicate Valid() {
      nextId >= 1 && forall k :: k in table ==> 1 <= k < nextId && table[k].id == k
    }

    function FindById(id: int): (r: Option<DeviceRecord>)
      ensures r.Some? <==> id in table
      ensures r.Some? ==> r.value == table[id]
    {
      if id in table then Some(table[id]) else None
    }

    function FindAll(): (r: seq<DeviceRecord>)
      requires Valid()
      ensures ExactListing(r, table, All)
    {
      Select(table, All, 1, nextId)
    }

    function FindByState(s: State): (r: seq<DeviceRecord>)
      requires Valid()
      ensures ExactListing(r, table, StateIs(s))
      ensures forall i :: 0 <= i < |r| ==> r[i].state == s
    {
      Select(table, StateIs(s), 1, nextId)
    }

    function FindByBrandContainingIgnoreCase(b: string): (r: seq<DeviceRecord>)
      requires Valid()
      ensures ExactListing(r, table, BrandContains(b))
      ensures forall i :: 0 <= i < |r| ==> ContainsIgnoreCase(r[i].brand, b)
    {
      Select(table, BrandContains(b), 1, nextId)
    }

    /** Saving an entity with no id inserts it under a newly generated id;
        saving one with a stored id overwrites that row. */
    function Save(id: Option<int>, name: string, brand: string, state: State): (r: SaveResult)
      requires Valid()
      requires id.Some? ==> id.value in table
      ensures r.store.Valid()
      ensures r.saved.name == name && r.saved.brand == brand && r.saved.state == state
      ensures id.None? ==>
        && r.saved.id !in table
        && r.saved.id == nextId && r.store.nextId == nextId + 1
        && r.store.table == table[r.saved.id := r.saved]
      ensures id.Some? ==>
        && r.saved.id == id.value
        && r.store.nextId == nextId
        && r.store.table == table[r.saved.id := r.saved]
    {
      match id
      case None =>
        var d := DeviceRecord(nextId, name, brand, state);
        SaveResult(Store(table[nextId := d], nextId + 1), d)
      case Some(k) =>
        var d := DeviceRecord(k, name, brand, state);
        SaveResult(Store(table[k := d], nextId), d)
    }

    /** Removes the row stored under `id`, if any. */
    function DeleteById(id: int): (r: Store)
      requires Valid()
      ensures r.Valid()
      ensures id !in r.table && r.nextId == nextId
      ensures r.table.Keys == table.Keys - {id}
      ensures forall k :: k in r.table ==> r.table[k] == table[k]
    {
      Store(table - {id}, nextId)
    }
  }

  /** The store after a save, and the row it persisted. */
  datatype SaveResult = SaveResult(store: Store, saved: DeviceRecord)

  /** The repository object: it owns the table and the id generator. */
  class DeviceRepository {
    var table: map<int, DeviceRecord>
    var nextId: int

    function Value(): Store
      reads this
    {
      Store(table, nextId)
    }

    predicate Valid()
      reads this
    {
      Value().Valid()
    }

    /** An empty repository; the first generated id is 1. */
    constructor ()
      ensures Valid() && Value() == Store(map[], 1)
    {
      table := map[];
      nextId := 1;
    }

    /** Loads the row stored under `id` as a fresh entity, or nothing. */
    method FindById(id: int) returns (d: Option<Device>)
      requires Valid()
      ensures d.None? <==> Value().FindById(id).None?
      ensures d.Some? ==> fresh(d.value)
      ensures d.Some? ==>
        var r := table[id];
        d.value.id == Some(id) && d.value.name == r.name && d.value.brand == r.brand && d.value.state == r.state
    {
      if id in table {
        var e := new Device.Load(table[id]);
        d := Some(e);
      } else {
        d := None;
      }
    }

    /** Persists the entity's fields and, on insert, gives the entity its new id. */
    method Save(d: Device) returns (saved: DeviceRecord)
      requires Valid()
      requires d.id.Some? ==> d.id.value in table
      modifies this, d`id
      ensures Valid()
      ensures SaveResult(Value(), saved) == old(Value().Save(d.id, d.name, d.brand, d.state))
      ensures d.id == Some(saved.id)
    {
      match d.id
      case None =>
        saved := DeviceRecord(nextId, d.name, d.brand, d.state);
        table := table[nextId := saved];
        nextId := nextId + 1;
        d.SetId(Some(saved.id));
      case Some(k) =>
        saved := DeviceRecord(k, d.name, d.brand, d.state);
        table := table[k := saved];
    }

    method DeleteById(id: int)
      requires Valid()
      modifies this
      ensures Valid()
      ensures Value() == old(Value()).DeleteById(id)
    {
      table := table - {id};
    }
  }
}
