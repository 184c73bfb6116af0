// Bounds, presets and the 64-bit duration arithmetic of a channel TTL.
module TtlRules {
  import opened Int64
  import opened Wrappers

  // Durations are in nanoseconds.
  const SECOND := 1_000_000_000
  const MIN_TTL := 60 * SECOND
  const MAX_TTL := 365 * 24 * 3600 * SECOND

  const MIN_SECONDS := 60
  const MAX_SECONDS := 31_536_000

  datatype Preset = Preset(name: string, duration: int)

  const PRESETS: seq<Preset> := [
    Preset("5m", 300 * SECOND),
    Preset("1h", 3600 * SECOND),
    Preset("8h", 8 * 3600 * SECOND),
    Preset("1d", 24 * 3600 * SECOND),
    Preset("1w", 7 * 24 * 3600 * SECOND)
  ]

  predicate ValidTTL(d: int) {
    MIN_TTL <= d <= MAX_TTL
  }

  predicate InBounds(seconds: int) {
    MIN_SECONDS <= seconds <= MAX_SECONDS
  }

  // The first preset with this name.
  function PresetForLabel(name: string): Option<Preset> {
    FindPreset(PRESETS, name)
  }

  function FindPreset(presets: seq<Preset>, name: string): Option<Preset> {
    if presets == [] then None
    else if presets[0].name == name then Some(presets[0])
    else FindPreset(presets[1..], name)
  }

  // time.Duration(seconds) * time.Second
  function FromSeconds(seconds: int): int {
    Wrap(seconds * SECOND)
  }

  // int64(d.Seconds()), which goes through a float (see FloatSecondsAreWhole).
  function WholeSeconds(d: int): int {
    TruncDiv(d, SECOND)
  }

  // d.Milliseconds()
  function Milliseconds(d: int): int {
    TruncDiv(d, 1_000_000)
  }

  // CreateAt + d.Milliseconds() for the duration GetTTL rebuilds from stored seconds.
  function ExpiryOf(createAt: int, seconds: int): int {
    Wrap(createAt + Milliseconds(FromSeconds(seconds)))
  }

  // A send time that leaves a year of headroom below 2^63 milliseconds.
  predicate RealisticTime(createAt: int) {
    0 <= createAt < TWO_63 - 1000 * MAX_SECONDS
  }

  // SECOND is a multiple of 512, and so is what wrapping takes away.
  lemma ProductsAreMultiplesOf512(seconds: int) returns (k: int)
    ensures FromSeconds(seconds) == 512 * k
  {
    var q := (FromSeconds(seconds) - seconds * SECOND) / TWO_64;
    k := seconds * 1_953_125 + q * 0x80_0000_0000_0000;
  }

  lemma RemainderOfMultiple(d: int, k: int)
    requires d == 512 * k
    ensures d % SECOND <= SECOND - 512
  {
    var q, r := d / SECOND, d % SECOND;
    assert d == SECOND * q + r;
    assert r == 512 * (k - 1_953_125 * q);
  }

  // Even a wrapped product keeps 512 ns distance from the next full second.
  lemma FromSecondsIsFarFromRounding(seconds: int)
    ensures FromSeconds(seconds) % SECOND <= SECOND - 512
  {
    var k := ProductsAreMultiplesOf512(seconds);
    RemainderOfMultiple(FromSeconds(seconds), k);
  }

  // A product that passes validation is stored in whole seconds although the
  // conversion goes through a float x: the double nearest to whole seconds plus
  // fraction is not below the whole seconds, and below 2^25 seconds it is off by less
  // than 2^-28 seconds, which is far less than 512 ns.
  lemma FloatSecondsAreWhole(seconds: int, x: real)
    requires ValidTTL(FromSeconds(seconds))
    requires var d := FromSeconds(seconds);
             (d / SECOND) as real <= x < d as real / SECOND as real + 1.0 / 0x1000_0000 as real
    ensures x.Floor == WholeSeconds(FromSeconds(seconds))
  {
    var d := FromSeconds(seconds);
    FromSecondsIsFarFromRounding(seconds);
    assert d == SECOND * (d / SECOND) + d % SECOND;
    assert d as real / 1_000_000_000.0 <= (d / SECOND) as real + 1.0 - 0.000_000_512;
  }

  // The milliseconds of a duration lose less than one of them.
  lemma MillisecondsTruncate(d: int)
    requires d >= 0
    ensures 1_000_000 * Milliseconds(d) <= d < 1_000_000 * Milliseconds(d) + 1_000_000
  {
  }

  // An expiry is send time plus TTL in 64 bits, whatever the two are.
  lemma ExpiryWraps(createAt: int, seconds: int)
    ensures Fits(ExpiryOf(createAt, seconds))
    ensures (ExpiryOf(createAt, seconds) - createAt - Milliseconds(FromSeconds(seconds))) % TWO_64 == 0
    ensures Fits(FromSeconds(seconds)) && (FromSeconds(seconds) - 1_000_000_000 * seconds) % TWO_64 == 0
  {
  }

  // One minute to one year, both included.
  lemma BoundsAreMinuteAndYear(d: int)
    ensures ValidTTL(d) <==> 60_000_000_000 <= d <= 31_536_000_000_000_000
    ensures InBounds(d) <==> 60 <= d <= 31_536_000
  {
  }

  // Every duration that validation lets through is stored within the bounds.
  lemma StoredSecondsInBounds(d: int)
    requires ValidTTL(d)
    ensures InBounds(WholeSeconds(d))
  {
  }

  // Stored seconds never overflow the products computed from them later, and a
  // realistic send time keeps the sum exact.
  lemma StoredSecondsAreExact(seconds: int, createAt: int)
    requires InBounds(seconds)
    ensures FromSeconds(seconds) == seconds * SECOND
    ensures ValidTTL(FromSeconds(seconds))
    ensures WholeSeconds(FromSeconds(seconds)) == seconds
    ensures RealisticTime(createAt) ==> ExpiryOf(createAt, seconds) == createAt + 1000 * seconds
  {
  }

  // The response of an accepted POST repeats the stored duration exactly when the
  // request did not exceed a year; anything above that was accepted only because
  // its product wrapped.
  lemma EchoIsStoredIffUnwrapped(ttlSeconds: int64)
    requires ttlSeconds >= 0
    requires ValidTTL(FromSeconds(ttlSeconds))
    ensures WholeSeconds(FromSeconds(ttlSeconds)) == ttlSeconds <==> ttlSeconds <= MAX_SECONDS
    ensures ttlSeconds > MAX_SECONDS ==> !Fits(ttlSeconds * SECOND)
  {
  }

  // Such a request exists: 2^55 + 3600 seconds is accepted and stores one hour.
  lemma WrappedRequestStoresAnHour()
    ensures var t := 0x80_0000_0000_0000 + 3600;
            && t < TWO_63
            && ValidTTL(FromSeconds(t))
            && WholeSeconds(FromSeconds(t)) == 3600
  {
  }
}
