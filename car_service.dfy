/** TeslaCarService: adding a car to the fleet and listing the fleet. */
module CarService {
  import opened Store

  /** The TeslaCar record a TeslaCars row with primary key `id` reads back as. */
  function CarOf(id: int, row: CarRow): TeslaCar
  {
    TeslaCar(id, row.model, row.hourlyRate, row.perKmRate)
  }

  /**
   * `list` is what reading every row of TeslaCars yields: each entry is a
   * stored car with its columns copied, each stored car appears, and no ID
   * appears twice. The query has no ORDER BY, so the order is left open.
   */
  predicate IsListingOf(list: seq<TeslaCar>, cars: map<int, CarRow>)
  {
    && (forall i :: 0 <= i < |list| ==> list[i].id in cars && list[i] == CarOf(list[i].id, cars[list[i].id]))
    && (forall id :: id in cars ==> exists i :: 0 <= i < |list| && list[i].id == id)
    && (forall i, j :: 0 <= i < j < |list| ==> list[i].id != list[j].id)
  }

  /**
   * AddTeslaCar on a database value: the INSERT fails when TeslaCars was never
   * created; otherwise exactly one row is added, under an ID above every ID
   * the table has ever used, carrying the given columns (the record's own ID is
   * ignored), and nothing else changes.
   */
  function AddTeslaCarStep(s: DbState, car: TeslaCar): (st: Step<int>)
    requires WellFormed(s)
    ensures WellFormed(st.post)
    ensures st.result.Err? <==> TeslaCars !in s.tables
    ensures st.result.Err? ==> st.result.error == NoSuchTable(TeslaCars) && st.post == s
    ensures st.result.Ok? ==>
      && st.result.value > s.carSeq
      && (forall id :: id in s.cars ==> id < st.result.value)
      && st.post.cars == s.cars[st.result.value := CarRow(car.model, car.hourlyRate, car.perKmRate)]
      && st.post.carSeq == st.result.value
      && st.post.(cars := s.cars, carSeq := s.carSeq) == s
  {
    if TeslaCars !in s.tables then
      Step(Err(NoSuchTable(TeslaCars)), s)
    else
      var id := s.carSeq + 1;
      Step(Ok(id), s.(cars := s.cars[id := CarRow(car.model, car.hourlyRate, car.perKmRate)], carSeq := id))
  }

  /** An entry of a listing occurs in it exactly once. */
  lemma {:induction false} ListedOnce(list: seq<TeslaCar>, x: TeslaCar)
    requires forall i, j :: 0 <= i < j < |list| ==> list[i].id != list[j].id
    ensures multiset(list)[x] == if x in list then 1 else 0
  {
    if list != [] {
      var init, last := list[..|list| - 1], list[|list| - 1];
      assert list == init + [last];
      ListedOnce(init, x);
      if x == last {
        assert x !in init by {
          forall i | 0 <= i < |init| ensures init[i] != x {
            assert list[i].id != list[|list| - 1].id;
          }
        }
      }
    }
  }

  /** Any two listings of the same table hold the same cars, in some order. */
  lemma ListingsAgreeUpToOrder(list1: seq<TeslaCar>, list2: seq<TeslaCar>, cars: map<int, CarRow>)
    requires IsListingOf(list1, cars) && IsListingOf(list2, cars)
    ensures multiset(list1) == multiset(list2)
  {
    forall x: TeslaCar ensures multiset(list1)[x] == multiset(list2)[x] {
      ListedOnce(list1, x);
      ListedOnce(list2, x);
      if x in list1 {
        var i :| 0 <= i < |list1| && list1[i] == x;
        var j :| 0 <= j < |list2| && list2[j].id == x.id;
        assert list2[j] == x;
      }
      if x in list2 {
        var j :| 0 <= j < |list2| && list2[j] == x;
        var i :| 0 <= i < |list1| && list1[i].id == x.id;
        assert list1[i] == x;
      }
    }
  }

  /** After AddTeslaCar, a listing holds the new car with its columns, and every other entry was there before. */
  lemma AddedCarIsListed(s: DbState, car: TeslaCar, list: seq<TeslaCar>)
    requires WellFormed(s) && TeslaCars in s.tables
    requires IsListingOf(list, AddTeslaCarStep(s, car).post.cars)
    ensures AddTeslaCarStep(s, car).result.Ok?
    ensures var id := AddTeslaCarStep(s, car).result.value;
      && (exists i :: 0 <= i < |list| && list[i] == TeslaCar(id, car.model, car.hourlyRate, car.perKmRate))
      && (forall i :: 0 <= i < |list| && list[i].id != id ==> list[i] == CarOf(list[i].id, s.cars[list[i].id]))
  {
    var st := AddTeslaCarStep(s, car);
    var id := st.result.value;
    assert id in st.post.cars;
    var i :| 0 <= i < |list| && list[i].id == id;
    assert list[i] == TeslaCar(id, car.model, car.hourlyRate, car.perKmRate);
  }

  /** `read` holds, by ascending ID, exactly the cars of `table` whose IDs are below `rowid`. */
  predicate ReadBelow(read: seq<TeslaCar>, table: map<int, CarRow>, rowid: int)
  {
    ReadCopied(read, table, rowid) && ReadCovers(read, table, rowid) && Ascending(read)
  }

  /** Every car read is a stored row below `rowid`, copied unchanged. */
  predicate ReadCopied(read: seq<TeslaCar>, table: map<int, CarRow>, rowid: int)
  {
    forall i :: 0 <= i < |read| ==>
      read[i].id in table && read[i].id < rowid && read[i] == CarOf(read[i].id, table[read[i].id])
  }

  /** Every stored row below `rowid` has been read. */
  predicate ReadCovers(read: seq<TeslaCar>, table: map<int, CarRow>, rowid: int)
  {
    forall id :: id in table && id < rowid ==> exists i :: 0 <= i < |read| && read[i].id == id
  }

  /** The IDs read are strictly ascending. */
  predicate Ascending(read: seq<TeslaCar>)
  {
    forall i, j :: 0 <= i < j < |read| ==> read[i].id < read[j].id
  }

  lemma AppendCopied(read: seq<TeslaCar>, table: map<int, CarRow>, rowid: int)
    requires ReadCopied(read, table, rowid) && rowid in table
    ensures ReadCopied(read + [CarOf(rowid, table[rowid])], table, rowid + 1)
  {
    var next := read + [CarOf(rowid, table[rowid])];
    forall i | 0 <= i < |next|
      ensures next[i].id in table && next[i].id < rowid + 1 && next[i] == CarOf(next[i].id, table[next[i].id])
    {
      if i < |read| { assert next[i] == read[i]; }
    }
  }

  lemma AppendCovers(read: seq<TeslaCar>, table: map<int, CarRow>, rowid: int)
    requires ReadCovers(read, table, rowid) && rowid in table
    ensures ReadCovers(read + [CarOf(rowid, table[rowid])], table, rowid + 1)
  {
    var next := read + [CarOf(rowid, table[rowid])];
    forall id | id in table && id < rowid + 1 ensures exists i :: 0 <= i < |next| && next[i].id == id {
      if id == rowid {
        assert next[|read|].id == id;
      } else {
        var i :| 0 <= i < |read| && read[i].id == id;
        assert next[i].id == id;
      }
    }
  }

  lemma AppendAscending(read: seq<TeslaCar>, table: map<int, CarRow>, rowid: int)
    requires ReadCopied(read, table, rowid) && Ascending(read) && rowid in table
    ensures Ascending(read + [CarOf(rowid, table[rowid])])
  {
    var next := read + [CarOf(rowid, table[rowid])];
    forall i, j | 0 <= i < j < |next| ensures next[i].id < next[j].id {
      assert next[i] == read[i];
      if j < |read| { assert next[j] == read[j]; }
    }
  }

  /** Reading the row with ID `rowid`, if there is one, extends what has been read by one ID. */
  lemma ReadNext(read: seq<TeslaCar>, table: map<int, CarRow>, rowid: int)
    requires ReadBelow(read, table, rowid)
    ensures rowid in table ==> ReadBelow(read + [CarOf(rowid, table[rowid])], table, rowid + 1)
    ensures rowid !in table ==> ReadBelow(read, table, rowid + 1)
  {
    if rowid in table {
      AppendCopied(read, table, rowid);
      AppendCovers(read, table, rowid);
      AppendAscending(read, table, rowid);
    }
  }

  /** Once every ID up to the table's counter has been read, the cars read are a listing of the table. */
  lemma ReadAll(read: seq<TeslaCar>, table: map<int, CarRow>, last: int)
    requires ReadBelow(read, table, last + 1)
    requires forall id :: id in table ==> id <= last
    ensures IsListingOf(read, table)
  {
  }

  class TeslaCarService {
    const db: Database

    constructor (db: Database)
      ensures this.db == db
    {
      this.db := db;
    }

    /** AddTeslaCar: one INSERT into TeslaCars. Returns the ID SQLite assigned. */
    method AddTeslaCar(car: TeslaCar) returns (r: Result<int>)
      requires db.Valid()
      modifies db
      ensures db.Valid()
      ensures r == AddTeslaCarStep(old(db.State()), car).result
      ensures db.State() == AddTeslaCarStep(old(db.State()), car).post
    {
      if TeslaCars !in db.tables {
        return Err(NoSuchTable(TeslaCars));
      }
      var id := db.InsertCar(CarRow(car.model, car.hourlyRate, car.perKmRate));
      r := Ok(id);
    }

    /**
     * GetAllTeslaCars: reads every row of TeslaCars into a list, one row per
     * step. SQLite scans a table without ORDER BY in rowid order, so the rows
     * are visited by ascending ID; the contract leaves the order open.
     */
    method GetAllTeslaCars() returns (r: Result<seq<TeslaCar>>)
      requires db.Valid()
      ensures TeslaCars !in db.tables ==> r == Err(NoSuchTable(TeslaCars))
      ensures TeslaCars in db.tables ==> r.Ok? && IsListingOf(r.value, db.cars)
    {
      if TeslaCars !in db.tables {
        return Err(NoSuchTable(TeslaCars));
      }
      var table, last := db.cars, db.carSeq;
      var cars: seq<TeslaCar> := [];
      var rowid := 1;
      while rowid <= last
        invariant 1 <= rowid <= last + 1
        invariant ReadBelow(cars, table, rowid)
      {
        ReadNext(cars, table, rowid);
        if rowid in table {
          cars := cars + [CarOf(rowid, table[rowid])];
        }
        rowid := rowid + 1;
      }
      ReadAll(cars, table, last);
      r := Ok(cars);
    }
  }
}
