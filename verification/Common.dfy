/** What several controllers share. */
module Common {
  /** The fate of one patch: a lost reply is an accepted patch the caller takes for a failed one. */
  datatype Delivery = Accepted | Refused | ReplyLost

  /** What a handler returns to its queue. */
  datatype Verdict = NoError | Error

  /** How a polled status write went: accepted at attempt `attempt`, or never. */
  datatype Report = Unreported | Reported(attempt: nat)

  const WITHOUT_BACKUP_REPOSITORY := "without-backup-repository"

  function Min(a: int, b: int): (r: int) { if a <= b then a else b }

  function Max(a: int, b: int): (r: int) { if a >= b then a else b }
}
