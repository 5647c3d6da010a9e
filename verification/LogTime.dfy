/** The 128-bit keys of the log store: 48 bits of milliseconds above 80 bits of
    randomness, and the key range of a time query (mvirt-log/src/storage.rs). */
module LogTime {
  import opened Basics

  const RANDOM: nat := 0x1_0000_0000_0000_0000_0000
  const MILLIS: nat := 0x1_0000_0000_0000
  const U64: nat := 0x1_0000_0000_0000_0000
  const I64_MAX: int := 0x7fff_ffff_ffff_ffff
  const NANOS: int := 1_000_000

  predicate IsI64(n: int) {
    -I64_MAX - 1 <= n <= I64_MAX
  }

  /** `Ulid::from_parts`. */
  function FromParts(ms: nat, random: nat): nat {
    ms % MILLIS * RANDOM + random % RANDOM
  }

  /** Nanoseconds to milliseconds: `/` truncates toward zero. */
  function Trunc(ns: int): int {
    if ns >= 0 then ns / NANOS else -((-ns) / NANOS)
  }

  /** `as u64`: what is negative wraps. */
  function Millis(ns: int): nat
    requires IsI64(ns)
  {
    if Trunc(ns) >= 0 then Trunc(ns) else U64 + Trunc(ns)
  }

  /** The key of an entry with this timestamp. */
  function Key(ns: int, random: nat): nat
    requires IsI64(ns)
  {
    FromParts(Millis(ns), random)
  }

  predicate IsBound(bound: Option<int>) {
    bound.Some? ==> IsI64(bound.value)
  }

  function MinKey(start: Option<int>): nat
    requires IsBound(start)
  {
    FromParts(Millis(start.GetOr(0)), 0)
  }

  function MaxKey(end: Option<int>): nat
    requires IsBound(end)
  {
    FromParts(Millis(end.GetOr(I64_MAX)), RANDOM - 1)
  }

  predicate InRange(start: Option<int>, end: Option<int>, ns: int, random: nat)
    requires IsBound(start) && IsBound(end) && IsI64(ns)
  {
    MinKey(start) <= Key(ns, random) <= MaxKey(end)
  }

  // ------------------------------------------------------------- arithmetic

  lemma KeyParts(hi: nat, lo: nat, random: nat)
    requires random < RANDOM
    ensures hi * RANDOM <= lo * RANDOM + random <==> hi <= lo
    ensures lo * RANDOM + random <= hi * RANDOM + (RANDOM - 1) <==> lo <= hi
  {
  }

  /** The 48 bits that end up in the key: a millisecond before the epoch lands
      above every one after it, and neither wraps onto another. */
  lemma MillisBits(ns: int)
    requires IsI64(ns)
    ensures -0x1000_0000_0000 < Trunc(ns) < 0x1000_0000_0000
    ensures Millis(ns) % MILLIS == if Trunc(ns) >= 0 then Trunc(ns) else MILLIS + Trunc(ns)
  {
    if Trunc(ns) < 0 {
      assert U64 + Trunc(ns) == (MILLIS + Trunc(ns)) + 0xffff * MILLIS;
    }
  }

  lemma TruncMonotone(a: int, b: int)
    requires a <= b
    ensures Trunc(a) <= Trunc(b)
  {
  }

  /** A key is read back as 48 bits of milliseconds, of which those before the epoch
      wrap, and 80 random bits. */
  lemma KeyReadBack(ns: int, random: nat)
    requires IsI64(ns)
    ensures Key(ns, random) % 0x1_0000_0000_0000_0000_0000 == random % 0x1_0000_0000_0000_0000_0000
    ensures ns >= 0 ==> Key(ns, random) / 0x1_0000_0000_0000_0000_0000 == ns / 1_000_000
    ensures ns < 0 ==>
      Key(ns, random) / 0x1_0000_0000_0000_0000_0000 == (0x1_0000_0000_0000 - (-ns) / 1_000_000) % 0x1_0000_0000_0000
  {
    MillisBits(ns);
  }

  /** A later millisecond has a greater key, except from before to after the epoch. */
  lemma KeyOrderIff(s: int, t: int, p: nat, q: nat)
    requires IsI64(s) && IsI64(t) && Trunc(s) < Trunc(t)
    ensures Key(s, p) < Key(t, q) <==> !(s <= -1_000_000 && t > -1_000_000)
  {
    MillisBits(s);
    MillisBits(t);
    KeyParts(Millis(t) % MILLIS, Millis(s) % MILLIS, p % RANDOM);
    KeyParts(Millis(s) % MILLIS, Millis(t) % MILLIS, q % RANDOM);
  }

  /** For all bounds, in whichever order: ranges compare the 48 bits. */
  lemma InRangeBits(start: Option<int>, end: Option<int>, ns: int, random: nat)
    requires IsBound(start) && IsBound(end) && IsI64(ns)
    ensures InRange(start, end, ns, random)
      <==> Millis(start.GetOr(0)) % MILLIS <= Millis(ns) % MILLIS <= Millis(end.GetOr(I64_MAX)) % MILLIS
  {
    hide Millis;
    KeyParts(Millis(start.GetOr(0)) % MILLIS, Millis(ns) % MILLIS, random % RANDOM);
    KeyParts(Millis(end.GetOr(I64_MAX)) % MILLIS, Millis(ns) % MILLIS, random % RANDOM);
  }

  /** The bounds do not straddle the wrap at the epoch. */
  predicate SameSide(start: int, end: int) {
    start > -1_000_000 || end <= -1_000_000
  }

  /** A key lies in the range of two ordered bounds exactly when its millisecond
      lies in the truncated range and the bounds are on one side of the epoch. */
  lemma InRangeIff(start: Option<int>, end: Option<int>, ns: int, random: nat)
    requires IsBound(start) && IsBound(end) && IsI64(ns) && start.GetOr(0) <= end.GetOr(I64_MAX)
    ensures var a, b := start.GetOr(0), end.GetOr(I64_MAX);
      InRange(start, end, ns, random) <==> Trunc(a) <= Trunc(ns) <= Trunc(b) && SameSide(a, b)
  {
    var a, b := start.GetOr(0), end.GetOr(I64_MAX);
    MillisBits(a);
    MillisBits(b);
    MillisBits(ns);
    TruncMonotone(a, b);
    InRangeBits(start, end, ns, random);
    hide Millis, InRange;
  }

  /** What a range lets in besides is less than a millisecond off; less than two
      where bound and timestamp lie on both sides of the epoch, whose millisecond
      is twice as long. */
  lemma ExtrasAreClose(start: Option<int>, end: Option<int>, ns: int, random: nat)
    requires IsBound(start) && IsBound(end) && IsI64(ns) && start.GetOr(0) <= end.GetOr(I64_MAX)
    requires InRange(start, end, ns, random)
    ensures var a, b := start.GetOr(0), end.GetOr(I64_MAX);
      && a - ns < (if ns < 0 < a then 2_000_000 else 1_000_000)
      && ns - b < (if b < 0 < ns then 2_000_000 else 1_000_000)
  {
    InRangeIff(start, end, ns, random);
  }

  /** The wider bound is needed. */
  lemma EpochIsTwiceAsLong(random: nat)
    ensures InRange(Some(999_999), Some(999_999), -999_999, random)
  {
    InRangeIff(Some(999_999), Some(999_999), -999_999, random);
  }

  // ---------------------------------------------------- which bounds are safe

  ghost predicate NoneMissed(start: Option<int>, end: Option<int>)
    requires IsBound(start) && IsBound(end)
  {
    forall ns, random: nat :: IsI64(ns) && start.GetOr(0) <= ns <= end.GetOr(I64_MAX) ==>
      InRange(start, end, ns, random)
  }

  /** No timestamp between two ordered bounds is missed exactly when the bounds
      lie on one side of the epoch; otherwise every one is. */
  lemma NoneMissedIff(start: Option<int>, end: Option<int>)
    requires IsBound(start) && IsBound(end) && start.GetOr(0) <= end.GetOr(I64_MAX)
    ensures NoneMissed(start, end) <==> SameSide(start.GetOr(0), end.GetOr(I64_MAX))
  {
    var a, b := start.GetOr(0), end.GetOr(I64_MAX);
    if SameSide(a, b) {
      forall ns, random: nat | IsI64(ns) && a <= ns <= b ensures InRange(start, end, ns, random) {
        TruncMonotone(a, ns);
        TruncMonotone(ns, b);
        InRangeIff(start, end, ns, random);
      }
    } else {
      InRangeIff(start, end, a, 0);
      assert !InRange(start, end, a, 0);
    }
  }

  /** A start of a millisecond or more before the epoch, with an end after it,
      wraps to the far future and matches nothing at all. */
  lemma StraddlingRangeIsEmpty(start: Option<int>, end: Option<int>, ns: int, random: nat)
    requires IsBound(start) && IsBound(end) && IsI64(ns) && start.GetOr(0) <= end.GetOr(I64_MAX)
    requires !SameSide(start.GetOr(0), end.GetOr(I64_MAX))
    ensures !InRange(start, end, ns, random)
  {
    InRangeIff(start, end, ns, random);
  }
}
