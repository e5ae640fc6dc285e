/** The entities the client works with. */
module Types {

  /** `Date.prototype.getMonth()`: 0 for January through 11 for December. */
  type MonthIndex = m: int | 0 <= m < 12

  /** A JavaScript `Date`, seen through its local calendar fields
      (`getFullYear()`, `getMonth()`) and its `getTime()` milliseconds. */
  datatype Date = Date(year: int, month: MonthIndex, millis: int)

  /** An accomplishment entry; ratings come from a 1..10 integer slider. */
  datatype Accomplishment = Accomplishment(id: string, text: string, rating: int, timestamp: Date)

  function Millis(e: Accomplishment): int {
    e.timestamp.millis
  }
}
