/** Value types shared by the job manager model. */
module Types {

  datatype Option<+T> = None | Some(value: T)

  /** A call into a collaborator (the store, the cron parser) either yields a
      value or fails with an error whose text is `message`. */
  datatype Result<+T> = Ok(value: T) | Err(message: string)

  /** Go's `uint32` and `int64`. */
  newtype uint32 = x: int | 0 <= x < 0x1_0000_0000
  newtype int64 = x: int | -0x8000_0000_0000_0000 <= x < 0x8000_0000_0000_0000

  /** A `uuid.UUID`: 128 bits; the zero value is the nil UUID. */
  newtype Uuid = x: int | 0 <= x < 0x1_0000_0000_0000_0000_0000_0000_0000_0000
  const NilUuid: Uuid := 0

  /** A point in time, as the store receives it. */
  type Timestamp = int

  /** What the job manager asks of a scheduled job (the `Job` interface):
      its name, the string its advisory lock is derived from, its tenant,
      its cron schedule and whether it needs heartbeats. */
  datatype Job = Job(
    name: string,
    lock: string,
    tenantId: string,
    schedule: string,
    isLongRunning: bool)
}
