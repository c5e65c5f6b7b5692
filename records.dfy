/**
 * The records the two upstream feeds deliver, as the dashboard reads them
 * (their declarations live in the repository's vault type definitions).
 * Amounts are exact reals; a timestamp is milliseconds since the epoch.
 */
module Records {

  /** One entry of the transaction history feed. `kind` is the raw `type` string,
      which the feed promises is "deposit" or "withdraw" and nothing checks. */
  datatype Transaction = Transaction(
    id: string,
    kind: string,
    amount: real,
    timestamp: int,
    vaultName: string)

  /** One position of the investment feed; `profit` is a stored field of its own. */
  datatype Investment = Investment(
    vaultId: string,
    principal: real,
    currentValue: real,
    profit: real)

  const MillisPerDay: int := 86_400_000

  /** The UTC calendar day of a timestamp, the date part before `T` of its ISO-8601 form. */
  function DayOf(timestamp: int): int {
    timestamp / MillisPerDay
  }
}
