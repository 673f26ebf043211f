# Tesla rental platform: a Dafny model of the rental lifecycle

The program keeps a small car-rental business in one SQLite file,
`TeslaRental.db`. It has three tables: `TeslaCars` (model, hourly rate,
per-kilometre rate), `Clients` (name, unique e-mail) and `Rentals` (client,
car, start time, and the end time, distance and total once the rental is
closed). Four service operations work on that file:

- `DatabaseInitializer.Initialize` creates any of the three tables that is missing.
- `TeslaCarService.AddTeslaCar` inserts a car. `GetAllTeslaCars` reads every car back.
- `RentalService.StartRental` checks that the client and the car exist, then inserts an open rental stamped with the current time.
- `RentalService.EndRental` looks the rental up joined with its car, bills the elapsed hours and the kilometres driven, and writes the end time, distance and total onto the row.

The model works on the effect of each SQL statement, not on the SQL text:

- `Store.Database` is the file: a class with one map per table, keyed by the integer primary key. It also keeps, per table, the AUTOINCREMENT counter (the largest ID the table has ever handed out) and the set of tables that exist.
- Its methods are single statements: CREATE TABLE IF NOT EXISTS, the two INSERTs and the UPDATE.
- Each service method runs the source's statements in the source's order.
- Each state-changing service method is proved equal to a pure function on `Store.DbState`, the file as a value: `InitializeStep`, `AddTeslaCarStep`, `StartRentalStep` and `EndRentalStep`. The contracts of those functions state what each call promises. `GetAllTeslaCars`, which changes nothing, is proved to return a complete listing of the table (`CarService.IsListingOf`).
- `History` applies any sequence of calls. It proves that each rental only moves forward through absent → open → closed, that IDs are never reused, that cars and clients are never altered, and that every closed rental carries the billing formula's total for its own car.

Time is an integer count of DateTime ticks (100 ns; 36 000 000 000 per hour).
The clock (`DateTime.UtcNow`) is a parameter `now` of the calls that read it.
Rates, distances and amounts are exact `real`s. Errors that the source throws
are values of `Store.Error`:

- `NoSuchTable`: a statement names a table that was never created.
- `ClientMissing` and `CarMissing`: the two checks of StartRental.
- `RentalNotFound`: the join in EndRental yields no row.

Where the code and its description differ, the model follows the code:

- No operation validates a model name, a rate or a distance.
- EndRental closes an already closed rental again and overwrites its three closing columns.
- The listing query has no ORDER BY, so no order is promised.
- The two StartRental messages are swapped. See Findings.

The source's service methods return nothing. The model's StartRental and
AddTeslaCar return the ID SQLite assigned. EndRental returns the total that
the source prints.

## Model

| member | source | states |
|---|---|---|
| `Store.WellFormed` | Program.cs:189-213 | what the schema guarantees of a file: a missing table has no rows and no counter, AUTOINCREMENT IDs lie between 1 and the counter, e-mails are UNIQUE; so the next ID of each table is free and no row has ID 0 |
| `Store.JoinFinds` | Program.cs:134-140 | the inner join of Rentals with TeslaCars on CarID yields a row exactly when the rental exists and its car still exists |
| `Store.Database.Open` | Program.cs:45-46 | opening the file yields exactly the tables, rows and counters earlier runs left, which satisfy SQLite's guarantees |
| `Store.Database.CreateTableIfNotExists` | Program.cs:189-213 | the table exists afterwards; if it already existed nothing changes; no row or counter changes |
| `Store.Database.InsertCar` | Program.cs:49-57 | AUTOINCREMENT: the new car's ID is one above the largest ID the table ever used, so it is not a current ID; only that row and the counter change |
| `Store.Database.InsertRental` | Program.cs:116-125 | AUTOINCREMENT: the new rental's ID is one above the largest ID ever used; only that row and the counter change |
| `Store.Database.UpdateRentalEnd` | Program.cs:162-173 | only EndTime, KilometersDriven and TotalAmount of the row with that ID change; with no such row nothing changes |
| `Billing.ElapsedHours` | Program.cs:158 | the elapsed hours times ticks per hour is the tick difference; they are non-negative exactly when the end is not before the start |
| `Billing.Total` | Program.cs:157-159 | the charge is non-negative for non-negative rates, distance and duration; with zero duration only the distance is charged; with no distance charge it is the hours times the hourly rate |
| `Billing.TotalGrowsWithTime` | Program.cs:158-159 | with a non-negative hourly rate a later end never bills less |
| `Billing.TwoHoursAndOneHundredFiftyKm` | Program.cs:158-159 | 2 hours at 50 per hour plus 150 km at 0.8 per km bill 220 |
| `Billing.ElapsedHoursAsWritten` | Program.cs:151-158 | the code's elapsed hours are the true ones minus the local UTC offset in hours |
| `Billing.TotalAsWritten` | Program.cs:151-159 | the code's total equals the formula's in UTC, and is strictly smaller when the zone is ahead of UTC and the hourly rate is positive |
| `Billing.ParsedStartShiftsTotal` | Program.cs:151-159 | one hour ahead of UTC, an instant zero-kilometre return at 50 per hour is billed -50 by the code and 0 by the formula |
| `Initializer.InitializeStep` | Program.cs:183-216 | afterwards all three tables exist, and every row and counter is as before |
| `Initializer.InitializeIdempotent` | Program.cs:189-213 | running the schema script on its own result changes nothing |
| `Initializer.Initialize` | Program.cs:183-216 | the three CREATE TABLE IF NOT EXISTS statements together have exactly the effect of `InitializeStep` |
| `CarService.AddTeslaCarStep` | Program.cs:43-57 | fails with no TeslaCars table and changes nothing then; otherwise adds exactly one car with the given Model and rates, ignoring the record's ID, under an ID above every ID ever used, and changes nothing else |
| `CarService.ListingsAgreeUpToOrder` | Program.cs:66-80 | any two complete listings of the same table hold the same cars, each once, in some order |
| `CarService.AddedCarIsListed` | Program.cs:43-80 | after AddTeslaCar a listing holds the new car with its own columns under the new ID, and every other entry is a car that was there before |
| `CarService.TeslaCarService.AddTeslaCar` | Program.cs:43-57 | one INSERT into TeslaCars, with exactly the result and new database of `AddTeslaCarStep` |
| `CarService.TeslaCarService.GetAllTeslaCars` | Program.cs:60-81 | fails with no TeslaCars table; otherwise returns every stored car once, each with its ID and columns copied, and no other entry |
| `RentalLifecycle.StartRentalStep` | Program.cs:88-126 | check order: missing Clients table, missing TeslaCars table, unknown client (even when the car is unknown too), unknown car, then a missing Rentals table at the INSERT; succeeds exactly when all tables exist and both IDs do; on failure nothing changes; on success exactly one open rental with the given IDs and start time is added under a fresh ID, and no other row or table changes |
| `RentalLifecycle.EndRentalStep` | Program.cs:128-176 | a missing Rentals table is reported first, then a missing TeslaCars table; with both present, a join that finds no row fails with "Rental not found" (`RentalNotFound`); it succeeds exactly when both tables exist and the join finds the rental and its car; on failure nothing changes; the total is the billing formula over the rental's own start time and car rates; only the three closing columns of that row change |
| `RentalLifecycle.ClosingTwiceOverwrites` | Program.cs:128-173 | a closed rental can be closed again: the second call succeeds and leaves its own end time, distance and freshly computed total |
| `RentalLifecycle.StartThenEndAtOnce` | Program.cs:88-173 | a rental closed at the instant it was started, over 0 km, costs 0 |
| `RentalLifecycle.RentalService.StartRental` | Program.cs:88-126 | the two COUNT queries, the two checks and the INSERT have exactly the result and new database of `StartRentalStep` |
| `RentalLifecycle.RentalService.EndRental` | Program.cs:128-176 | the join, the billing formula and the UPDATE have exactly the result and new database of `EndRentalStep` |
| `RentalLifecycle.SourceMessage` | Program.cs:105-112 | the texts as written: each has the form "Invalid <column>. Ensure exist before starting a rental." and names one of the two ID columns |
| `RentalLifecycle.SourceMessagesSwapped` | Program.cs:105-112 | as written, the client check's message names CarID and the car check's names ClientID |
| `RentalLifecycle.Message` | Program.cs:105-112 | each StartRental message names the ID column whose check failed |
| `History.Apply` | Program.cs:43-216 | every service call, succeeding or throwing, leaves a database SQLite could hold |
| `History.Run` | Program.cs:43-216 | so does every sequence of calls |
| `History.ApplyEvolves` | Program.cs:43-216 | one call only moves the database forward: tables only appear, clients and existing cars never change, rentals keep client, car and start time and never reopen, new rows get IDs above the old counters |
| `History.RunEvolves` | Program.cs:43-216 | the same holds across any sequence of calls, so no ID is ever reused |
| `History.StatusNeverGoesBack` | Program.cs:116-173 | a rental's state only moves forward through absent, open and closed |
| `History.ApplyKeepsConsistent` | Program.cs:94-173 | one call keeps every rental settled: its client and car exist, and it is open with no distance and total, or closed with the billing formula's total for its own car |
| `History.RunKeepsConsistent` | Program.cs:94-173 | any sequence of calls keeps every rental settled |
| `History.ConsistentEndRentalFinds` | Program.cs:134-149 | in a settled database with all tables present, EndRental on an existing rental never fails |
| `History.RepeatedInitialize` | Program.cs:189-215 | running the schema script n ≥ 1 times has the effect of running it once |

## Left out

- SQLite connections, the SQL text, parameter binding and `using` disposal are not modelled. Each statement is modelled by its effect on the tables.
- Failures other than a missing table are not modelled: locked or corrupt file, full disk. So is AUTOINCREMENT exhaustion at 2^63 − 1.
- Foreign-key enforcement by the store is not modelled. StartRental's explicit COUNT checks are the guard, and EndRental's lookup is the inner join.
- A join in EndRental with both tables missing is reported as a missing `Rentals`, the first table of its FROM clause. SQLite's exact message wording is not modelled.
- Timestamps are ticks, not ISO-8601 strings. The "o" string keeps every tick, but `DateTime.Parse` then shifts the instant to local time; that shift is modelled separately, under Findings.
- Doubles are exact reals, and the `F2` formatting of the printed total is not modelled.
- Console output and the demo driver `Main` are not modelled.
- C# `int` parameters and `reader.GetInt32` limit IDs to 2^31 − 1; the model's IDs are unbounded.
- A null `Model` string, which the NOT NULL column would refuse, is not modelled. Dafny strings are never null.
- `Store.WellFormed` takes every ID to be assigned by AUTOINCREMENT, so at least 1. A file holding rows inserted under explicit IDs of 0 or below is outside the model.
- No operation of this program inserts clients. `Store.Database.Open` takes the clients that are already in the file.
- CarService.TeslaCarService.GetAllTeslaCars: reads rows in ascending ID order, SQLite's scan order for a table without ORDER BY, but its contract, like the query, promises no order.
- Concurrent callers racing on one rental are not modelled. Each call runs to completion before the next.

## Findings

| source | as written | input that shows it | evidently intended | confidence | as-written member | corrected member |
|---|---|---|---|---|---|---|
| Program.cs:105-112 | the failed client check throws "Invalid CarID…" and the failed car check "Invalid ClientID…" | StartRental with a client ID that has no row in Clients | each message names the ID whose check failed | high; not executed | `RentalLifecycle.SourceMessagesSwapped` | `RentalLifecycle.Message` |
| Program.cs:151-158 | the stored UTC start time ends in 'Z'; `DateTime.Parse` turns it into local time, and subtracting it from `DateTime.UtcNow` ignores the two values' kinds | on a machine one hour ahead of UTC, a car at 50 per hour returned at the instant it was taken with 0 km | elapsed hours measured between the two UTC instants (0, so a total of 0) | medium; not executed | `Billing.ParsedStartShiftsTotal` | `Billing.Total` |
