/** Change detection between a source object and the destination object of its name. */
module Comparator {
  import opened Prelude
  import opened Listing

  datatype DiffStatus = Identical | New | Modified | Conflict

  /** One second, in the nanoseconds of the source's durations. */
  const MOD_TIME_EPSILON := 1_000_000_000

  /** The ends of the 64-bit nanosecond count of a duration, about 292 years. */
  const LONGEST := 0x7FFF_FFFF_FFFF_FFFF
  const SHORTEST := -LONGEST - 1

  /** The difference from which on the conversion to floating point rounds to 2^63. */
  const ROUNDS_UP := LONGEST - 511

  /** `time.Time.Sub`: the difference, held to the range of a duration. */
  function Sub(a: int, b: int): int {
    if a - b > LONGEST then LONGEST else if a - b < SHORTEST then SHORTEST else a - b
  }

  /** `time.Duration(math.Abs(float64(d)))`. At 2^63 the conversion back leaves the range; the
      language leaves the result to the machine, which holds to the range or `wraps` to the
      least value. The rounding of smaller magnitudes is left out: it is far above a second. */
  function Magnitude(d: int, wraps: bool): int {
    var abs := if d < 0 then -d else d;
    if abs < ROUNDS_UP then abs else if wraps then SHORTEST else LONGEST
  }

  /** The default mode: size, then modification time with a tolerance. */
  function CompareMeta(src: ObjectInfo, dst: ObjectInfo, wraps: bool): DiffStatus {
    if src.size != dst.size then Conflict
    else
      var diff := Sub(src.modTime, dst.modTime);
      var absDiff := Magnitude(diff, wraps);
      if absDiff <= MOD_TIME_EPSILON then Identical
      else if diff > MOD_TIME_EPSILON then Modified
      else Conflict
  }

  /** Two objects that pass for the same by size and time: of one size, and with times no more
      than a second apart, or, where conversions wrap, at least 2^63 - 512 nanoseconds. */
  predicate SameByTime(a: ObjectInfo, b: ObjectInfo, wraps: bool) {
    var apart := if a.modTime < b.modTime then b.modTime - a.modTime else a.modTime - b.modTime;
    a.size == b.size && (apart <= 1_000_000_000 || (wraps && apart >= 9_223_372_036_854_775_296))
  }

  /** What the default mode decides, on the times themselves: objects pass for the same as just
      said; otherwise, of one size, the newer one is an update of the older. Agreement is
      mutual, and a size difference is a conflict both ways. */
  lemma MetaExactly(a: ObjectInfo, b: ObjectInfo, wraps: bool)
    ensures CompareMeta(a, b, wraps) == Identical <==> SameByTime(a, b, wraps)
    ensures CompareMeta(a, b, wraps) == Modified <==>
              a.size == b.size && a.modTime > b.modTime && !SameByTime(a, b, wraps)
    ensures CompareMeta(a, b, wraps) == Identical <==> CompareMeta(b, a, wraps) == Identical
    ensures a.size != b.size <==> CompareMeta(a, b, wraps) == Conflict && CompareMeta(b, a, wraps) == Conflict
    ensures CompareMeta(a, b, wraps) != New
  {
  }

  /** The zero time, the start of the year 1, in nanoseconds since 1970: what an object without
      a modification time is listed with. */
  const ZERO_TIME := -62_135_596_800_000_000_000

  /** Where conversions wrap, an object of unknown age passes for the same as any object of its
      size modified since 1970; elsewhere it is in conflict with it. */
  lemma ZeroTimeWitness(src: ObjectInfo, dst: ObjectInfo)
    requires src.modTime == ZERO_TIME && dst.modTime >= 0 && src.size == dst.size
    ensures CompareMeta(src, dst, true) == CompareMeta(dst, src, true) == Identical
    ensures CompareMeta(src, dst, false) == Conflict && CompareMeta(dst, src, false) == Modified
  {
  }

  /** The checksum mode. */
  function CompareHash(srcHash: string, dstHash: string): DiffStatus {
    if srcHash == dstHash then Identical else Conflict
  }

  /** SHA-256 is taken as a function on contents; where a theorem needs it, as one without
      collisions. */
  ghost predicate Injective(hash: bytes -> string) {
    forall a, b :: hash(a) == hash(b) ==> a == b
  }
}
