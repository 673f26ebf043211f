/**
 * The charge EndRental computes when a rental is closed: elapsed hours times
 * the car's hourly rate plus kilometres driven times the car's per-kilometre
 * rate. Instants are DateTime ticks (100 nanoseconds each); amounts are exact
 * reals, with no rounding.
 */
module Billing {

  /** TimeSpan.TicksPerHour. */
  const TicksPerHour: int := 36_000_000_000

  /** (end - start).TotalHours: negative when end precedes start. */
  function ElapsedHours(start: int, end: int): (hours: real)
    ensures hours * TicksPerHour as real == (end - start) as real
    ensures 0.0 <= hours <==> start <= end
  {
    (end - start) as real / TicksPerHour as real
  }

  /** The amount billed for a rental from `start` to `end` over `kilometersDriven` km. */
  function Total(start: int, end: int, hourlyRate: real, perKmRate: real, kilometersDriven: real): (amount: real)
    ensures start <= end && 0.0 <= hourlyRate && 0.0 <= perKmRate && 0.0 <= kilometersDriven ==> 0.0 <= amount
    ensures start == end ==> amount == kilometersDriven * perKmRate
    ensures kilometersDriven == 0.0 || perKmRate == 0.0 ==> amount * TicksPerHour as real == (end - start) as real * hourlyRate
  {
    ElapsedHours(start, end) * hourlyRate + kilometersDriven * perKmRate
  }

  /** A later end never bills less when the hourly rate is not negative. */
  lemma TotalGrowsWithTime(start: int, end1: int, end2: int, hourlyRate: real, perKmRate: real, kilometersDriven: real)
    requires end1 <= end2 && 0.0 <= hourlyRate
    ensures Total(start, end1, hourlyRate, perKmRate, kilometersDriven) <= Total(start, end2, hourlyRate, perKmRate, kilometersDriven)
  {
    var h1, h2 := ElapsedHours(start, end1), ElapsedHours(start, end2);
    assert h1 <= h2;
    assert h1 * hourlyRate <= h2 * hourlyRate;
  }

  /** Two hours at 50 per hour and 150 km at 0.8 per km come to 220. */
  lemma TwoHoursAndOneHundredFiftyKm()
    ensures Total(0, 2 * TicksPerHour, 50.0, 0.8, 150.0) == 220.0
  {
  }

  /**
   * The elapsed hours as the code computes them: the stored start time is a
   * round-trip string ending in 'Z', DateTime.Parse converts it to local time
   * (adding the zone's UTC offset, in ticks), and subtracting that from
   * DateTime.UtcNow ignores the kinds of the two values.
   */
  function ElapsedHoursAsWritten(start: int, end: int, localOffset: int): (hours: real)
    ensures hours == ElapsedHours(start, end) - localOffset as real / TicksPerHour as real
  {
    ElapsedHours(start + localOffset, end)
  }

  /** The amount the code bills: Total with the start shifted by the local UTC offset. */
  function TotalAsWritten(start: int, end: int, localOffset: int, hourlyRate: real, perKmRate: real, kilometersDriven: real): (amount: real)
    ensures localOffset == 0 ==> amount == Total(start, end, hourlyRate, perKmRate, kilometersDriven)
    ensures 0 < localOffset && 0.0 < hourlyRate ==> amount < Total(start, end, hourlyRate, perKmRate, kilometersDriven)
  {
    ElapsedHoursAsWritten(start, end, localOffset) * hourlyRate + kilometersDriven * perKmRate
  }

  /**
   * In a zone one hour ahead of UTC, a car returned the instant it was taken,
   * at 50 per hour, is billed -50 by the code and 0 by the billing formula.
   */
  lemma ParsedStartShiftsTotal()
    ensures TotalAsWritten(0, 0, TicksPerHour, 50.0, 0.8, 0.0) == -50.0
    ensures Total(0, 0, 50.0, 0.8, 0.0) == 0.0
  {
  }
}
