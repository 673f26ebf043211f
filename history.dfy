/**
 * Any sequence of service calls against one database file. Each rental moves
 * through NONEXISTENT -> OPEN -> CLOSED (closing again stays CLOSED); IDs are
 * never reused; what the services never write never changes; and a closed
 * rental always carries the billing formula's total for its own car.
 */
module History {
  import opened Store
  import Billing
  import Initializer
  import CarService
  import RentalLifecycle

  /** One call of a service method, with the instant the clock reads when it needs one. */
  datatype Call =
    | Initialize
    | AddTeslaCar(car: TeslaCar)
    | StartRental(clientId: int, carId: int, now: int)
    | EndRental(rentalId: int, kilometersDriven: real, now: int)

  /** The database after one call, whether it succeeded or threw. */
  function Apply(s: DbState, c: Call): (t: DbState)
    requires WellFormed(s)
    ensures WellFormed(t)
  {
    match c
    case Initialize => Initializer.InitializeStep(s)
    case AddTeslaCar(car) => CarService.AddTeslaCarStep(s, car).post
    case StartRental(clientId, carId, now) => RentalLifecycle.StartRentalStep(s, clientId, carId, now).post
    case EndRental(rentalId, km, now) => RentalLifecycle.EndRentalStep(s, rentalId, km, now).post
  }

  /** The database after the calls, in order. */
  function Run(s: DbState, calls: seq<Call>): (t: DbState)
    requires WellFormed(s)
    ensures WellFormed(t)
    decreases |calls|
  {
    if calls == [] then s else Run(Apply(s, calls[0]), calls[1..])
  }

  datatype Status = Absent | Open | Closed

  function StatusOf(s: DbState, rentalId: int): Status
  {
    if rentalId !in s.rentals then Absent
    else if s.rentals[rentalId].endTime.None? then Open
    else Closed
  }

  function Rank(st: Status): nat
  {
    match st
    case Absent => 0
    case Open => 1
    case Closed => 2
  }

  /** `after` is a later version of the rental row `before`: same client, car and start, and not reopened. */
  predicate Succeeds(before: RentalRow, after: RentalRow)
  {
    && after.clientId == before.clientId
    && after.carId == before.carId
    && after.startTime == before.startTime
    && (before.endTime.Some? ==> after.endTime.Some?)
  }

  /**
   * `t` is a later version of `s`: tables are only created, Clients is never
   * written, cars and rentals are never deleted, cars never change, rentals
   * keep their identity columns and never reopen, counters never go back, and
   * every new row has an ID above the counter of `s`.
   */
  predicate Evolves(s: DbState, t: DbState)
  {
    && s.tables <= t.tables
    && t.clients == s.clients && t.clientSeq == s.clientSeq
    && s.carSeq <= t.carSeq && s.rentalSeq <= t.rentalSeq
    && (forall id :: id in s.cars ==> id in t.cars && t.cars[id] == s.cars[id])
    && (forall id :: id in t.cars && id !in s.cars ==> id > s.carSeq)
    && (forall id :: id in s.rentals ==> id in t.rentals && Succeeds(s.rentals[id], t.rentals[id]))
    && (forall id :: id in t.rentals && id !in s.rentals ==> id > s.rentalSeq)
  }

  lemma ApplyEvolves(s: DbState, c: Call)
    requires WellFormed(s)
    ensures Evolves(s, Apply(s, c))
  {
  }

  lemma EvolvesTransitive(s: DbState, t: DbState, u: DbState)
    requires Evolves(s, t) && Evolves(t, u)
    ensures Evolves(s, u)
  {
  }

  /** Every sequence of calls only moves the database forward. */
  lemma {:induction false} RunEvolves(s: DbState, calls: seq<Call>)
    requires WellFormed(s)
    ensures Evolves(s, Run(s, calls))
    decreases |calls|
  {
    if calls == [] {
    } else {
      var t := Apply(s, calls[0]);
      ApplyEvolves(s, calls[0]);
      RunEvolves(t, calls[1..]);
      EvolvesTransitive(s, t, Run(t, calls[1..]));
    }
  }

  /** No sequence of calls moves a rental back: an open rental never becomes absent, a closed one never reopens. */
  lemma StatusNeverGoesBack(s: DbState, calls: seq<Call>, rentalId: int)
    requires WellFormed(s)
    ensures Rank(StatusOf(s, rentalId)) <= Rank(StatusOf(Run(s, calls), rentalId))
  {
    RunEvolves(s, calls);
  }

  /**
   * A rental row as the services leave it: its client and car exist; it is
   * open with no distance and no total, or closed with both, the total being
   * the billing formula over its own car's rates.
   */
  predicate Settled(s: DbState, row: RentalRow)
  {
    && row.clientId in s.clients
    && row.carId in s.cars
    && (row.endTime.None? ==> row.kilometersDriven.None? && row.totalAmount.None?)
    && (row.endTime.Some? ==>
          && row.kilometersDriven.Some? && row.totalAmount.Some?
          && row.totalAmount.value == Billing.Total(row.startTime, row.endTime.value,
               s.cars[row.carId].hourlyRate, s.cars[row.carId].perKmRate, row.kilometersDriven.value))
  }

  predicate Consistent(s: DbState)
  {
    forall id :: id in s.rentals ==> Settled(s, s.rentals[id])
  }

  lemma ApplyKeepsConsistent(s: DbState, c: Call)
    requires WellFormed(s) && Consistent(s)
    ensures Consistent(Apply(s, c))
  {
  }

  /** Starting from a consistent database, every sequence of calls leaves it consistent. */
  lemma {:induction false} RunKeepsConsistent(s: DbState, calls: seq<Call>)
    requires WellFormed(s) && Consistent(s)
    ensures Consistent(Run(s, calls))
    decreases |calls|
  {
    if calls != [] {
      ApplyKeepsConsistent(s, calls[0]);
      RunKeepsConsistent(Apply(s, calls[0]), calls[1..]);
    }
  }

  /** In a consistent database whose tables exist, closing an existing rental never fails. */
  lemma ConsistentEndRentalFinds(s: DbState, rentalId: int, kilometersDriven: real, now: int)
    requires WellFormed(s) && Consistent(s)
    requires AllTables <= s.tables && rentalId in s.rentals
    ensures RentalLifecycle.EndRentalStep(s, rentalId, kilometersDriven, now).result.Ok?
  {
  }

  /** Running the schema script any positive number of times is the same as running it once. */
  lemma {:induction false} RepeatedInitialize(s: DbState, n: nat)
    requires WellFormed(s) && 1 <= n
    ensures Run(s, seq(n, _ => Initialize)) == Initializer.InitializeStep(s)
    decreases n
  {
    var calls := seq(n, _ => Initialize);
    var t := Initializer.InitializeStep(s);
    assert Run(s, calls) == Run(t, calls[1..]);
    if n == 1 {
      assert calls[1..] == [];
    } else {
      assert calls[1..] == seq(n - 1, _ => Initialize);
      RepeatedInitialize(t, n - 1);
      Initializer.InitializeIdempotent(s);
    }
  }
}
