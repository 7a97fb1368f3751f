/**
 * The few facts about the .NET runtime that the gateway's decisions depend on:
 * the ranges of the C# integer types, truncating integer division, the tick
 * representation of DateTimeOffset and the Unix-time conversions, and the
 * character class behind string.IsNullOrWhiteSpace.
 */
module DotNet {
  import opened Wrappers

  /** C# `uint`. */
  type UInt32 = x: int | 0 <= x < 0x1_0000_0000

  /** C# `long`: an arithmetic result stored in one must be proved to fit. */
  type Int64 = x: int | -0x8000_0000_0000_0000 <= x < 0x8000_0000_0000_0000

  function Abs(x: int): nat { if x < 0 then -x else x }

  /**
   * C# `a / 1000` on integers, which rounds toward zero (Dafny's `/` is
   * Euclidean). What is left over is less than 1000 and has the sign of `a`.
   */
  function TruncDiv1000(a: int): (q: int)
    ensures 0 <= a ==> 0 <= a - q * 1000 < 1000
    ensures a < 0 ==> 0 <= q * 1000 - a < 1000
    ensures Abs(q) <= Abs(a)
  {
    if a >= 0 then a / 1000 else -((-a) / 1000)
  }

  // DateTime and DateTimeOffset count 100-nanosecond ticks from 0001-01-01T00:00:00Z.
  const TicksPerMillisecond: int := 10_000
  const TicksPerMicrosecond: int := 10
  /** DateTime.MaxValue.Ticks (9999-12-31T23:59:59.9999999). */
  const MaxTicks: int := 3_155_378_975_999_999_999
  /** Milliseconds from 0001-01-01 to the Unix epoch 1970-01-01. */
  const UnixEpochMilliseconds: int := 62_135_596_800_000
  /** The range DateTimeOffset.FromUnixTimeMilliseconds accepts. */
  const MinUnixMilliseconds: int := -62_135_596_800_000
  const MaxUnixMilliseconds: int := 253_402_300_799_999

  type Ticks = t: int | 0 <= t <= MaxTicks

  /** An offset from UTC in minutes; .NET limits it to plus or minus 14 hours. */
  type OffsetMinutes = m: int | -840 <= m <= 840

  /** A DateTimeOffset: an instant (UTC ticks) and the offset it is shown in. */
  datatype DateTimeOffset = DateTimeOffset(utcTicks: Ticks, offset: OffsetMinutes)

  /**
   * The instant a DateTimeOffset denotes, in whole microseconds since the Unix
   * epoch (rounded down; a tick is a tenth of a microsecond).
   */
  function UnixMicros(d: DateTimeOffset): int {
    (d.utcTicks - UnixEpochMilliseconds * TicksPerMillisecond) / TicksPerMicrosecond
  }

  /** DateTimeOffset.ToUnixTimeMilliseconds: whole milliseconds, rounded down. */
  function ToUnixTimeMilliseconds(d: DateTimeOffset): (ms: int)
    ensures MinUnixMilliseconds <= ms <= MaxUnixMilliseconds
    ensures 0 <= UnixMicros(d) - ms * 1000 < 1000
  {
    var q := d.utcTicks / TicksPerMillisecond;
    var rem := d.utcTicks % TicksPerMillisecond;
    assert (d.utcTicks - UnixEpochMilliseconds * TicksPerMillisecond) / TicksPerMicrosecond
        == (q - UnixEpochMilliseconds) * 1000 + rem / TicksPerMicrosecond;
    q - UnixEpochMilliseconds
  }

  /**
   * DateTimeOffset.FromUnixTimeMilliseconds: the instant `ms` milliseconds after
   * the epoch, at offset zero; None where .NET throws ArgumentOutOfRangeException.
   */
  function FromUnixTimeMilliseconds(ms: int): (r: Option<DateTimeOffset>)
    ensures r.Some? <==> MinUnixMilliseconds <= ms <= MaxUnixMilliseconds
    ensures r.Some? ==> UnixMicros(r.value) == ms * 1000 && r.value.offset == 0
  {
    if MinUnixMilliseconds <= ms <= MaxUnixMilliseconds then
      var d := DateTimeOffset((ms + UnixEpochMilliseconds) * TicksPerMillisecond, 0);
      assert d.utcTicks - UnixEpochMilliseconds * TicksPerMillisecond == (ms * 1000) * TicksPerMicrosecond;
      Some(d)
    else
      None
  }

  /** Char.IsWhiteSpace: the Unicode white-space characters. */
  predicate IsWhiteSpace(c: char) {
    || c == ' '
    || '\t' <= c <= '\r'
    || c == '\U{85}'
    || c == '\U{A0}'
    || c == '\U{1680}'
    || '\U{2000}' <= c <= '\U{200A}'
    || c == '\U{2028}'
    || c == '\U{2029}'
    || c == '\U{202F}'
    || c == '\U{205F}'
    || c == '\U{3000}'
  }

  /** string.IsNullOrWhiteSpace for a non-null string: empty or only white space. */
  predicate IsWhiteSpaceOnly(s: string) {
    forall i :: 0 <= i < |s| ==> IsWhiteSpace(s[i])
  }
}
