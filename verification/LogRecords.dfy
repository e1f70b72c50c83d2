/** A log record (log/LogRecord.h, log/Level.h): as kept in the rings and, without its repeat count, on flash. */
module LogRecords {
  import opened Wrappers

  datatype Level = Error | Warn | Info | Debug | Trace

  function LevelNumber(l: Level): (n: nat)
    ensures n <= 4
  {
    match l
    case Error => 0
    case Warn => 1
    case Info => 2
    case Debug => 3
    case Trace => 4
  }

  const MAX_TAG: nat := 15
  const MAX_MESSAGE: nat := 200

  /** `repeatCount` is positive only in the summary of a run. */
  datatype LogRecord = LogRecord(seqNo: nat, uptimeMs: nat, level: Level, repeatCount: nat, tag: bytes, message: bytes)
}
