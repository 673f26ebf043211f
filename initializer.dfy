/** DatabaseInitializer: the schema script run at every start of the program. */
module Initializer {
  import opened Store

  /** The database after the script: every table exists, every row and counter is as it was. */
  function InitializeStep(s: DbState): (t: DbState)
    requires WellFormed(s)
    ensures WellFormed(t)
    ensures t.tables == AllTables
    ensures t.cars == s.cars && t.clients == s.clients && t.rentals == s.rentals
    ensures t.carSeq == s.carSeq && t.clientSeq == s.clientSeq && t.rentalSeq == s.rentalSeq
  {
    assert forall x :: x in s.tables ==> x.TeslaCars? || x.Clients? || x.Rentals?;
    s.(tables := s.tables + AllTables)
  }

  /** Running the script on its own output changes nothing. */
  lemma InitializeIdempotent(s: DbState)
    requires WellFormed(s)
    ensures InitializeStep(InitializeStep(s)) == InitializeStep(s)
  {
  }

  /** DatabaseInitializer.Initialize: three CREATE TABLE IF NOT EXISTS statements in one command. */
  method Initialize(db: Database)
    requires db.Valid()
    modifies db
    ensures db.Valid()
    ensures db.State() == InitializeStep(old(db.State()))
  {
    db.CreateTableIfNotExists(TeslaCars);
    db.CreateTableIfNotExists(Clients);
    db.CreateTableIfNotExists(Rentals);
  }
}
