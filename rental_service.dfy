/**
 * RentalService: opening a rental after checking that its client and car
 * exist, and closing it by billing the elapsed time and the distance driven.
 */
module RentalLifecycle {
  import opened Store
  import Billing

  /** A rental as StartRental writes it: open, with only the start time set. */
  function OpenRental(clientId: int, carId: int, startTime: int): RentalRow
  {
    RentalRow(clientId, carId, startTime, None, None, None)
  }

  /** The row EndRental leaves behind: the three closing columns set, the others kept. */
  function ClosedRental(row: RentalRow, endTime: int, kilometersDriven: real, totalAmount: real): RentalRow
  {
    row.(endTime := Some(endTime), kilometersDriven := Some(kilometersDriven), totalAmount := Some(totalAmount))
  }

  /**
   * StartRental on a database value at instant `now`. Both COUNT queries run
   * before either result is looked at, so a missing Clients table is reported
   * before a missing TeslaCars table, and an unknown client before an unknown
   * car. On success exactly one open rental is added under an ID above every
   * ID Rentals has ever used; no other row or table changes.
   */
  function StartRentalStep(s: DbState, clientId: int, carId: int, now: int): (st: Step<int>)
    requires WellFormed(s)
    ensures WellFormed(st.post)
    ensures Clients !in s.tables ==> st.result == Err(NoSuchTable(Clients))
    ensures Clients in s.tables && TeslaCars !in s.tables ==> st.result == Err(NoSuchTable(TeslaCars))
    ensures Clients in s.tables && TeslaCars in s.tables && clientId !in s.clients ==>
      st.result == Err(ClientMissing)
    ensures Clients in s.tables && TeslaCars in s.tables && clientId in s.clients && carId !in s.cars ==>
      st.result == Err(CarMissing)
    ensures Clients in s.tables && TeslaCars in s.tables && clientId in s.clients && carId in s.cars && Rentals !in s.tables ==>
      st.result == Err(NoSuchTable(Rentals))
    ensures st.result.Ok? <==> AllTables <= s.tables && clientId in s.clients && carId in s.cars
    ensures st.result.Err? ==> st.post == s
    ensures st.result.Ok? ==>
      && st.result.value > s.rentalSeq
      && st.result.value !in s.rentals
      && st.post.rentals == s.rentals[st.result.value := OpenRental(clientId, carId, now)]
      && st.post.rentalSeq == st.result.value
      && st.post.(rentals := s.rentals, rentalSeq := s.rentalSeq) == s
  {
    if Clients !in s.tables then Step(Err(NoSuchTable(Clients)), s)
    else if TeslaCars !in s.tables then Step(Err(NoSuchTable(TeslaCars)), s)
    else if clientId !in s.clients then Step(Err(ClientMissing), s)
    else if carId !in s.cars then Step(Err(CarMissing), s)
    else if Rentals !in s.tables then Step(Err(NoSuchTable(Rentals)), s)
    else
      var id := s.rentalSeq + 1;
      Step(Ok(id), s.(rentals := s.rentals[id := OpenRental(clientId, carId, now)], rentalSeq := id))
  }

  /**
   * EndRental on a database value at instant `now`. The join reads the start
   * time and the rates of the rental's own car; when it yields no row (no such
   * rental, or its car is gone) nothing changes. Otherwise the returned total
   * is the billing formula, and only EndTime, KilometersDriven and TotalAmount
   * of that one row change. An already closed rental is closed again.
   */
  function EndRentalStep(s: DbState, rentalId: int, kilometersDriven: real, now: int): (st: Step<real>)
    requires WellFormed(s)
    ensures WellFormed(st.post)
    ensures Rentals !in s.tables ==> st.result == Err(NoSuchTable(Rentals))
    ensures Rentals in s.tables && TeslaCars !in s.tables ==> st.result == Err(NoSuchTable(TeslaCars))
    ensures Rentals in s.tables && TeslaCars in s.tables && !JoinFinds(s, rentalId) ==> st.result == Err(RentalNotFound)
    ensures st.result.Ok? <==> Rentals in s.tables && TeslaCars in s.tables && JoinFinds(s, rentalId)
    ensures st.result.Err? ==> st.post == s
    ensures st.result.Ok? ==>
      && rentalId in s.rentals && s.rentals[rentalId].carId in s.cars
      && var row := s.rentals[rentalId];
      && var car := s.cars[row.carId];
      && st.result.value == Billing.Total(row.startTime, now, car.hourlyRate, car.perKmRate, kilometersDriven)
      && st.post == s.(rentals := s.rentals[rentalId := ClosedRental(row, now, kilometersDriven, st.result.value)])
  {
    if Rentals !in s.tables then Step(Err(NoSuchTable(Rentals)), s)
    else if TeslaCars !in s.tables then Step(Err(NoSuchTable(TeslaCars)), s)
    else if !JoinFinds(s, rentalId) then Step(Err(RentalNotFound), s)
    else
      var row := s.rentals[rentalId];
      var car := s.cars[row.carId];
      var totalAmount := Billing.Total(row.startTime, now, car.hourlyRate, car.perKmRate, kilometersDriven);
      Step(Ok(totalAmount), s.(rentals := s.rentals[rentalId := ClosedRental(row, now, kilometersDriven, totalAmount)]))
  }

  /**
   * Closing a rental twice: the second call succeeds too, and the row then
   * holds the second call's end time, distance and total.
   */
  lemma ClosingTwiceOverwrites(s: DbState, rentalId: int, km1: real, end1: int, km2: real, end2: int)
    requires WellFormed(s)
    requires EndRentalStep(s, rentalId, km1, end1).result.Ok?
    ensures var mid := EndRentalStep(s, rentalId, km1, end1).post;
      var st := EndRentalStep(mid, rentalId, km2, end2);
      && st.result.Ok?
      && st.post.rentals[rentalId] == ClosedRental(s.rentals[rentalId], end2, km2, st.result.value)
      && st.post.rentals[rentalId].totalAmount
         == Some(EndRentalStep(s, rentalId, km2, end2).result.value)
  {
  }

  /** A rental closed at the instant it was opened, over 0 km, costs nothing. */
  lemma StartThenEndAtOnce(s: DbState, clientId: int, carId: int, now: int)
    requires WellFormed(s)
    requires StartRentalStep(s, clientId, carId, now).result.Ok?
    ensures var started := StartRentalStep(s, clientId, carId, now);
      EndRentalStep(started.post, started.result.value, 0.0, now).result == Ok(0.0)
  {
  }

  class RentalService {
    const db: Database

    constructor (db: Database)
      ensures this.db == db
    {
      this.db := db;
    }

    /** StartRental: two COUNT(*) queries, the two checks, then one INSERT. Returns the new rental's ID. */
    method StartRental(clientId: int, carId: int, now: int) returns (r: Result<int>)
      requires db.Valid()
      modifies db
      ensures db.Valid()
      ensures r == StartRentalStep(old(db.State()), clientId, carId, now).result
      ensures db.State() == StartRentalStep(old(db.State()), clientId, carId, now).post
    {
      if Clients !in db.tables {
        return Err(NoSuchTable(Clients));
      }
      var clientExists := clientId in db.clients;
      if TeslaCars !in db.tables {
        return Err(NoSuchTable(TeslaCars));
      }
      var carExists := carId in db.cars;
      if !clientExists {
        return Err(ClientMissing);
      }
      if !carExists {
        return Err(CarMissing);
      }
      if Rentals !in db.tables {
        return Err(NoSuchTable(Rentals));
      }
      var id := db.InsertRental(OpenRental(clientId, carId, now));
      r := Ok(id);
    }

    /** EndRental: the join lookup, the billing formula, then one UPDATE. Returns the total it prints. */
    method EndRental(rentalId: int, kilometersDriven: real, now: int) returns (r: Result<real>)
      requires db.Valid()
      modifies db
      ensures db.Valid()
      ensures r == EndRentalStep(old(db.State()), rentalId, kilometersDriven, now).result
      ensures db.State() == EndRentalStep(old(db.State()), rentalId, kilometersDriven, now).post
    {
      if Rentals !in db.tables {
        return Err(NoSuchTable(Rentals));
      }
      if TeslaCars !in db.tables {
        return Err(NoSuchTable(TeslaCars));
      }
      if !(rentalId in db.rentals && db.rentals[rentalId].carId in db.cars) {
        return Err(RentalNotFound);
      }
      var startTime := db.rentals[rentalId].startTime;
      var car := db.cars[db.rentals[rentalId].carId];
      var endTime := now;
      var totalAmount := Billing.Total(startTime, endTime, car.hourlyRate, car.perKmRate, kilometersDriven);
      db.UpdateRentalEnd(rentalId, endTime, kilometersDriven, totalAmount);
      r := Ok(totalAmount);
    }
  }

  const MessagePrefix: string := "Invalid "
  const MessageSuffix: string := ". Ensure exist before starting a rental."

  /** The exception text StartRental throws when the check on an ID column fails. */
  function InvalidIdMessage(column: string): string
  {
    MessagePrefix + column + MessageSuffix
  }

  /** The column an InvalidIdMessage names. */
  function NamedColumn(msg: string): string
    requires |MessagePrefix| + |MessageSuffix| <= |msg|
  {
    msg[|MessagePrefix|..|msg| - |MessageSuffix|]
  }

  /** A message built for a column names that column. */
  lemma NamedColumnOf(column: string)
    ensures NamedColumn(InvalidIdMessage(column)) == column
  {
  }

  /** The ID column whose check produced a StartRental error. */
  function CheckedColumn(e: Error): string
    requires e == ClientMissing || e == CarMissing
  {
    if e == ClientMissing then "ClientID" else "CarID"
  }

  /** The exception messages of StartRental as the code writes them. */
  function SourceMessage(e: Error): (msg: string)
    requires e == ClientMissing || e == CarMissing
    ensures |MessagePrefix| + |MessageSuffix| <= |msg|
    ensures NamedColumn(msg) == "ClientID" || NamedColumn(msg) == "CarID"
  {
    if e == ClientMissing then InvalidIdMessage("CarID") else InvalidIdMessage("ClientID")
  }

  /** Each as-written message names the column whose check did not fail. */
  lemma SourceMessagesSwapped(e: Error)
    requires e == ClientMissing || e == CarMissing
    ensures NamedColumn(SourceMessage(e)) != CheckedColumn(e)
    ensures NamedColumn(SourceMessage(e)) == CheckedColumn(if e == ClientMissing then CarMissing else ClientMissing)
  {
  }

  /** The exception messages of StartRental, each naming the column that was checked. */
  function Message(e: Error): (msg: string)
    requires e == ClientMissing || e == CarMissing
    ensures |MessagePrefix| + |MessageSuffix| <= |msg| && NamedColumn(msg) == CheckedColumn(e)
  {
    NamedColumnOf(CheckedColumn(e));
    InvalidIdMessage(CheckedColumn(e))
  }
}
