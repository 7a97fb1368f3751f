/**
 * The system-time gateway: the timedate1 (D-Bus) reading with its zero
 * sentinel, the runtime-clock fallback, and the choice between them.
 *
 * The clock readings are parameters, and the "O" round-trip formatting of a
 * DateTimeOffset is an uninterpreted function passed in as `format`.
 */
module SystemService {
  import opened Wrappers
  import opened DotNet
  import opened SafeInvoke

  /** The SystemTime message. */
  datatype SystemTime = SystemTime(unixMicroseconds: Int64, iso8601: string)

  /** DateTimeOffset.ToString("O"). */
  type Formatter = DateTimeOffset -> string

  /** What the session with org.freedesktop.timedate1 produced. */
  datatype TimedateSession =
    | Unreachable                    // connecting or creating the proxy threw
    | Connected(timeUSec: Fetch<Int64>) // the TimeUSec property fetch

  /** BuildSystemTime: the microseconds as given, the text from the DateTimeOffset alone. */
  function BuildSystemTime(unixMicroseconds: Int64, dto: DateTimeOffset, format: Formatter): (r: SystemTime)
    ensures r.unixMicroseconds == unixMicroseconds
    ensures r.iso8601 == format(dto)
  {
    SystemTime(unixMicroseconds, format(dto))
  }

  /**
   * GetSystemTimeFromDbusAsync: None (null) when the session fails, when
   * TimeUSec reads as 0 (the value SafeAsync leaves after a failed fetch) or
   * when `usec / 1000` is outside what FromUnixTimeMilliseconds accepts (its
   * exception is caught). Otherwise the record of `usec`, rendered from the
   * UTC instant `usec / 1000` milliseconds after the epoch.
   */
  function GetSystemTimeFromDbus(session: TimedateSession, format: Formatter): (r: Option<SystemTime>)
    ensures r.Some? <==>
      && session.Connected? && session.timeUSec.Got? && session.timeUSec.value != 0
      && MinUnixMilliseconds <= TruncDiv1000(session.timeUSec.value) <= MaxUnixMilliseconds
    ensures r.Some? ==>
      && r.value.unixMicroseconds == session.timeUSec.value
      && r.value.iso8601 == format(DbusInstant(session.timeUSec.value))
  {
    match session
    case Unreachable => None
    case Connected(fetch) =>
      var usec := SafeAsync(fetch).GetOr(0);
      if usec == 0 then None
      else
        match FromUnixTimeMilliseconds(TruncDiv1000(usec))
        case None => None
        case Some(dto) => Some(BuildSystemTime(usec, dto, format))
  }

  /** The instant a D-Bus reading is rendered from: `usec / 1000` ms, at offset zero. */
  function DbusInstant(usec: Int64): DateTimeOffset
    requires MinUnixMilliseconds <= TruncDiv1000(usec) <= MaxUnixMilliseconds
  {
    FromUnixTimeMilliseconds(TruncDiv1000(usec)).value
  }

  /** The runtime-clock record: whole milliseconds of `now` times 1000, rendered from `now`. */
  function FallbackTime(now: DateTimeOffset, format: Formatter): (r: SystemTime)
    ensures r.unixMicroseconds % 1000 == 0
    ensures 0 <= UnixMicros(now) - r.unixMicroseconds < 1000
    ensures r.iso8601 == format(now)
  {
    BuildSystemTime(ToUnixTimeMilliseconds(now) * 1000, now, format)
  }

  /**
   * GetSystemTime. `now` is the clock reading of the ordinary fallback;
   * `escapes` says an exception left the main path (the catch block), which
   * reads the clock again as `nowOnError`. Whatever path is taken, the text
   * is rendered from one instant and the microseconds lie within a
   * millisecond of it.
   */
  function GetSystemTime(isLinux: bool, session: TimedateSession, now: DateTimeOffset,
                         escapes: bool, nowOnError: DateTimeOffset, format: Formatter): (r: SystemTime)
    ensures r.iso8601 == format(SourceInstant(isLinux, session, now, escapes, nowOnError))
    ensures Abs(r.unixMicroseconds - UnixMicros(SourceInstant(isLinux, session, now, escapes, nowOnError))) < 1000
  {
    if escapes then FallbackTime(nowOnError, format)
    else if isLinux && GetSystemTimeFromDbus(session, format).Some? then
      GetSystemTimeFromDbus(session, format).value
    else FallbackTime(now, format)
  }

  /** The instant GetSystemTime's text is rendered from. */
  function SourceInstant(isLinux: bool, session: TimedateSession, now: DateTimeOffset,
                         escapes: bool, nowOnError: DateTimeOffset): DateTimeOffset
  {
    if escapes then nowOnError
    else if isLinux && session.Connected? && session.timeUSec.Got? && session.timeUSec.value != 0
         && MinUnixMilliseconds <= TruncDiv1000(session.timeUSec.value) <= MaxUnixMilliseconds
    then DbusInstant(session.timeUSec.value)
    else now
  }

  // ---------------------------------------------------------------------------
  // Properties of the model

  /** BuildSystemTime keeps the two fields apart: each depends on its own argument only. */
  lemma BuildSystemTimeFieldsIndependent(u1: Int64, u2: Int64, d1: DateTimeOffset, d2: DateTimeOffset, format: Formatter)
    ensures BuildSystemTime(u1, d1, format).iso8601 == BuildSystemTime(u2, d1, format).iso8601
    ensures BuildSystemTime(u1, d1, format).unixMicroseconds == BuildSystemTime(u1, d2, format).unixMicroseconds
  {
  }

  /** A zero reading, a failed fetch (read as zero) or a failed session give no D-Bus record. */
  lemma DbusZeroIsUnavailable(session: TimedateSession, format: Formatter)
    requires session.Unreachable? || session.timeUSec.Threw? || session.timeUSec == Got(0)
    ensures GetSystemTimeFromDbus(session, format).None?
  {
  }

  /**
   * A D-Bus record keeps `usec` exactly, and its text is rendered from an
   * instant less than a millisecond away from it.
   */
  lemma {:induction false} DbusRecordSameInstant(usec: Int64, format: Formatter)
    requires GetSystemTimeFromDbus(Connected(Got(usec)), format).Some?
    ensures var r := GetSystemTimeFromDbus(Connected(Got(usec)), format).value;
      && r.unixMicroseconds == usec
      && r.iso8601 == format(DbusInstant(usec))
      && Abs(usec - UnixMicros(DbusInstant(usec))) < 1000
  {
    assert UnixMicros(DbusInstant(usec)) == TruncDiv1000(usec) * 1000;
  }

  /**
   * GetSystemTime's choice: the D-Bus record on Linux when there is one,
   * otherwise the clock record; an escaping exception also gives a clock record.
   */
  lemma GetSystemTimeChoice(isLinux: bool, session: TimedateSession, now: DateTimeOffset,
                            escapes: bool, nowOnError: DateTimeOffset, format: Formatter)
    ensures var r := GetSystemTime(isLinux, session, now, escapes, nowOnError, format);
      && (!escapes && isLinux && GetSystemTimeFromDbus(session, format).Some? ==>
            r == GetSystemTimeFromDbus(session, format).value)
      && (!escapes && !isLinux ==> r == FallbackTime(now, format))
      && (!escapes && GetSystemTimeFromDbus(session, format).None? ==> r == FallbackTime(now, format))
      && (escapes ==> r == FallbackTime(nowOnError, format))
  {
  }

  /**
   * A reading whose milliseconds .NET cannot represent gives no D-Bus record
   * either: the exception of FromUnixTimeMilliseconds is caught.
   */
  lemma DbusOutOfRangeIsUnavailable(usec: Int64, format: Formatter)
    requires !(MinUnixMilliseconds <= TruncDiv1000(usec) <= MaxUnixMilliseconds)
    ensures GetSystemTimeFromDbus(Connected(Got(usec)), format).None?
  {
  }

  /** The largest reading, 2^63 - 1 microseconds, is such a reading. */
  lemma DbusMaxReadingIsUnavailable(format: Formatter)
    ensures GetSystemTimeFromDbus(Connected(Got(0x7FFF_FFFF_FFFF_FFFF)), format).None?
  {
    DbusOutOfRangeIsUnavailable(0x7FFF_FFFF_FFFF_FFFF, format);
  }
}
