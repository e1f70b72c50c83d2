/** Runs of equal log lines collapsed into one counted summary (log/RateLimiter.h, log/LogRecord.h). */
module RateLimiter {
  import opened Wrappers
  import opened LogRecords

  /** How many values `repeatCount`, a `uint16_t`, has. */
  const COUNT: nat := 0x1_0000

  /** What a line says, whatever its number and time. */
  datatype Line = Line(level: Level, tag: bytes, message: bytes)

  function LineOf(r: LogRecord): Line { Line(r.level, r.tag, r.message) }

  /** The character arrays of a record hold no longer text. */
  predicate Fits(l: Line) { |l.tag| <= MAX_TAG && |l.message| <= MAX_MESSAGE }

  function Truncated(s: bytes, most: nat): bytes { if |s| > most then s[..most] else s }

  datatype Limiter = Limiter(last: Option<Line>, count: nat)

  datatype Fed = Fed(emitNow: bool, pendingFlush: Option<LogRecord>)

  /** The summary of a run. */
  function Summary(l: Line, count: nat): LogRecord {
    LogRecord(0, 0, l.level, count, Truncated(l.tag, MAX_TAG), Truncated(l.message, MAX_MESSAGE))
  }

  function PendingFlush(s: Limiter): Option<LogRecord> {
    if s.count == 0 || s.last.None? then None else Some(Summary(s.last.value, s.count))
  }

  function Repeats(s: Limiter, l: Line): bool { s.last == Some(l) }

  function FeedNext(s: Limiter, l: Line): Limiter {
    if Repeats(s, l) then s.(count := (s.count + 1) % COUNT) else Limiter(Some(l), 0)
  }

  function FeedResult(s: Limiter, l: Line): Fed {
    if Repeats(s, l) then Fed(false, None) else Fed(true, PendingFlush(s))
  }

  class RateLimiter {
    var hasLast: bool
    var lastTag: bytes
    var lastMessage: bytes
    var lastLevel: Level
    var repeatCount: nat

    ghost predicate Valid()
      reads this
    {
      repeatCount < COUNT && (repeatCount > 0 ==> hasLast)
    }

    function State(): Limiter
      reads this
    {
      Limiter(if hasLast then Some(Line(lastLevel, lastTag, lastMessage)) else None, repeatCount)
    }

    constructor ()
      ensures Valid() && State() == Limiter(None, 0)
    {
      hasLast, lastTag, lastMessage, lastLevel, repeatCount := false, [], [], Info, 0;
    }

    method MakeFlushRecord() returns (r: LogRecord)
      ensures r == Summary(Line(lastLevel, lastTag, lastMessage), repeatCount)
    {
      r := LogRecord(0, 0, lastLevel, repeatCount, Truncated(lastTag, MAX_TAG), Truncated(lastMessage, MAX_MESSAGE));
    }

    method Feed(record: LogRecord) returns (result: Fed)
      requires Valid()
      modifies this
      ensures Valid() && State() == FeedNext(old(State()), LineOf(record))
      ensures result == FeedResult(old(State()), LineOf(record))
    {
      result := Fed(true, None);
      if hasLast && lastTag == record.tag && lastMessage == record.message && lastLevel == record.level {
        repeatCount := (repeatCount + 1) % COUNT;
        return result.(emitNow := false);
      }
      if repeatCount > 0 {
        var flush := MakeFlushRecord();
        result := result.(pendingFlush := Some(flush));
      }
      hasLast, lastTag, lastMessage, lastLevel, repeatCount := true, record.tag, record.message, record.level, 0;
    }

    method FlushPending() returns (flushed: Option<LogRecord>)
      requires Valid()
      modifies this`repeatCount
      ensures Valid() && State() == old(State()).(count := 0)
      ensures flushed == PendingFlush(old(State()))
    {
      if repeatCount == 0 { return None; }
      var record := MakeFlushRecord();
      repeatCount := 0;
      flushed := Some(record);
    }
  }
}
