/** The usage fact the projector writes and the quota counters sum. */
module Facts {

  // Times are milliseconds since the Unix epoch, money is in units of 1e-8.
  datatype Fact = Fact(odsId: int, org: string, id: string, time: int, seat: string, period: string,
    tokens: int, usd: int, rest: string)

  /** The UTC day of an instant, counted from the Unix epoch. */
  function UtcDay(time: int): int {
    time / 86400000
  }
}
