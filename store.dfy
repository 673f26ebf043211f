/**
 * The SQLite file TeslaRental.db as the services see it: three tables, each a
 * map from the integer primary key to the rest of the row, and, per table, the
 * AUTOINCREMENT counter SQLite keeps in sqlite_sequence (the largest ID the
 * table has ever handed out).
 */
module Store {

  datatype Option<T> = None | Some(value: T)

  /** The three tables created by the schema script. */
  datatype Table = TeslaCars | Clients | Rentals

  const AllTables: set<Table> := {TeslaCars, Clients, Rentals}

  /** A TeslaCars row without its ID column. */
  datatype CarRow = CarRow(model: string, hourlyRate: real, perKmRate: real)

  /** A Clients row without its ID column. */
  datatype ClientRow = ClientRow(name: string, email: string)

  /**
   * A Rentals row without its ID column. Times are instants in ticks of
   * 100 nanoseconds; the three nullable columns stay None while the rental is
   * open.
   */
  datatype RentalRow = RentalRow(
    clientId: int,
    carId: int,
    startTime: int,
    endTime: Option<int>,
    kilometersDriven: Option<real>,
    totalAmount: Option<real>)

  /** The TeslaCar record the car service takes and returns. */
  datatype TeslaCar = TeslaCar(id: int, model: string, hourlyRate: real, perKmRate: real)

  /** Why a service call throws instead of completing. */
  datatype Error =
    | NoSuchTable(table: Table)   // a statement names a table that was never created
    | ClientMissing               // StartRental: COUNT(*) on Clients was 0
    | CarMissing                  // StartRental: COUNT(*) on TeslaCars was 0
    | RentalNotFound              // EndRental: the join produced no row

  datatype Result<T> = Ok(value: T) | Err(error: Error)

  /** The whole database file as a value. */
  datatype DbState = DbState(
    tables: set<Table>,
    cars: map<int, CarRow>,
    clients: map<int, ClientRow>,
    rentals: map<int, RentalRow>,
    carSeq: nat,
    clientSeq: nat,
    rentalSeq: nat)

  /** What a service call returns together with the database it leaves behind. */
  datatype Step<T> = Step(result: Result<T>, post: DbState)

  /** The UNIQUE constraint on Clients.Email. */
  predicate EmailsUnique(clients: map<int, ClientRow>)
  {
    forall a, b :: a in clients && b in clients && a != b ==> clients[a].email != clients[b].email
  }

  /**
   * What SQLite guarantees of a database file whose IDs were all assigned by
   * AUTOINCREMENT: a table that does not exist has no rows and no counter,
   * every ID lies between 1 and its table's counter, and e-mail addresses are
   * unique.
   */
  predicate WellFormed(s: DbState)
    ensures WellFormed(s) ==> s.carSeq + 1 !in s.cars && s.clientSeq + 1 !in s.clients && s.rentalSeq + 1 !in s.rentals
    ensures WellFormed(s) ==> 0 !in s.cars && 0 !in s.clients && 0 !in s.rentals
  {
    && (TeslaCars !in s.tables ==> s.cars == map[] && s.carSeq == 0)
    && (Clients !in s.tables ==> s.clients == map[] && s.clientSeq == 0)
    && (Rentals !in s.tables ==> s.rentals == map[] && s.rentalSeq == 0)
    && (forall id :: id in s.cars ==> 1 <= id <= s.carSeq)
    && (forall id :: id in s.clients ==> 1 <= id <= s.clientSeq)
    && (forall id :: id in s.rentals ==> 1 <= id <= s.rentalSeq)
    && EmailsUnique(s.clients)
  }

  /** Whether `Rentals JOIN TeslaCars ON Rentals.CarID = TeslaCars.ID WHERE Rentals.ID = rentalId` yields a row. */
  predicate JoinFinds(s: DbState, rentalId: int)
  {
    rentalId in s.rentals && s.rentals[rentalId].carId in s.cars
  }

  /** The database file; its methods are the effects of single SQL statements. */
  class Database {
    var tables: set<Table>
    var cars: map<int, CarRow>
    var clients: map<int, ClientRow>
    var rentals: map<int, RentalRow>
    var carSeq: nat
    var clientSeq: nat
    var rentalSeq: nat

    function State(): DbState
      reads this
    {
      DbState(tables, cars, clients, rentals, carSeq, clientSeq, rentalSeq)
    }

    predicate Valid()
      reads this
    {
      WellFormed(State())
    }

    /** Opens a database file with whatever earlier runs left in it. */
    constructor Open(s: DbState)
      requires WellFormed(s)
      ensures Valid() && State() == s
    {
      tables, cars, clients, rentals := s.tables, s.cars, s.clients, s.rentals;
      carSeq, clientSeq, rentalSeq := s.carSeq, s.clientSeq, s.rentalSeq;
    }

    /** CREATE TABLE IF NOT EXISTS: adds an empty table, or does nothing when it exists. */
    method CreateTableIfNotExists(t: Table)
      requires Valid()
      modifies this
      ensures Valid()
      ensures State() == old(State()).(tables := old(tables) + {t})
    {
      tables := tables + {t};
    }

    /** INSERT INTO TeslaCars: the row gets the ID after the largest ever used. */
    method InsertCar(row: CarRow) returns (id: int)
      requires Valid() && TeslaCars in tables
      modifies this
      ensures Valid()
      ensures id == old(carSeq) + 1 && id !in old(cars)
      ensures State() == old(State()).(cars := old(cars)[id := row], carSeq := id)
    {
      id := carSeq + 1;
      cars := cars[id := row];
      carSeq := id;
    }

    /** INSERT INTO Rentals: the row gets the ID after the largest ever used. */
    method InsertRental(row: RentalRow) returns (id: int)
      requires Valid() && Rentals in tables
      modifies this
      ensures Valid()
      ensures id == old(rentalSeq) + 1 && id !in old(rentals)
      ensures State() == old(State()).(rentals := old(rentals)[id := row], rentalSeq := id)
    {
      id := rentalSeq + 1;
      rentals := rentals[id := row];
      rentalSeq := id;
    }

    /**
     * UPDATE Rentals SET EndTime, KilometersDriven, TotalAmount WHERE ID = id:
     * sets the three columns of that row, if there is one, and nothing else.
     */
    method UpdateRentalEnd(id: int, endTime: int, kilometersDriven: real, totalAmount: real)
      requires Valid() && Rentals in tables
      modifies this
      ensures Valid()
      ensures id in old(rentals) ==>
        State() == old(State()).(rentals := old(rentals)[id := old(rentals)[id].(
          endTime := Some(endTime), kilometersDriven := Some(kilometersDriven), totalAmount := Some(totalAmount))])
      ensures id !in old(rentals) ==> State() == old(State())
    {
      if id in rentals {
        rentals := rentals[id := rentals[id].(
          endTime := Some(endTime), kilometersDriven := Some(kilometersDriven), totalAmount := Some(totalAmount))];
      }
    }
  }
}
