/** The reference generator: `prefix ++ millis ++ %04d(counter mod 10000) ++ hex(4 random bytes)`,
    with a per-generator counter advanced on every call. The clock and the random source are
    inputs of each call. */
module Formula {
  import opened Builtins
  import opened Wrappers
  import opened AppErrors

  /** The buffer `make([]byte, 4)` that `rand.Read` fills. */
  type Bytes4 = b: seq<byte> | |b| == 4 witness [0, 0, 0, 0]

  /** The outcome of `rand.Read` on the 4-byte buffer: all four bytes read, or the error. */
  datatype RandomRead = RandomBytes(bytes: Bytes4) | RandomFailure(cause: string)

  /** The counter after one `atomic.AddUint64(&g.counter, 1)`: uint64 wrap-around. */
  function NextCounter(c: uint64): uint64 {
    if c == TwoTo64 - 1 then 0 else c + 1
  }

  /** The increment is addition modulo 2^64. */
  lemma NextCounterIsModular(c: uint64)
    ensures NextCounter(c) == (c + 1) % TwoTo64
  {
    if c < TwoTo64 - 1 {
      assert (c + 1) % TwoTo64 == c + 1;
    }
  }

  /** The counter after n more increments. */
  function CounterAfter(c: uint64, n: nat): uint64 {
    if n == 0 then c else NextCounter(CounterAfter(c, n - 1))
  }

  /** n increments add n modulo 2^64. */
  lemma {:induction false} CounterAfterIsModular(c: uint64, n: nat)
    ensures CounterAfter(c, n) == (c + n) % TwoTo64
  {
    if n > 0 {
      var prev := CounterAfter(c, n - 1);
      CounterAfterIsModular(c, n - 1);
      ModSucc(c + n - 1, prev);
    }
  }

  /** Reducing before or after adding one gives the same value modulo 2^64, and the
      increment of a reduced value is that value. */
  lemma ModSucc(x: nat, r: uint64)
    requires r == x % TwoTo64
    ensures NextCounter(r) == (x + 1) % TwoTo64
  {
    var q := x / TwoTo64;
    assert x + 1 == q * TwoTo64 + (r + 1);
    if r + 1 == TwoTo64 {
      assert x + 1 == (q + 1) * TwoTo64;
    }
  }

  /** `encoding/hex`'s lower-case digits. */
  function HexDigit(d: nat): (c: char)
    requires d < 16
    ensures IsLowerHex(c)
  {
    if d < 10 then ('0' as int + d) as char else ('a' as int + d - 10) as char
  }

  predicate IsLowerHex(c: char) {
    '0' <= c <= '9' || 'a' <= c <= 'f'
  }

  /** `hex.EncodeToString(bytes)`: two lower-case digits per byte, high nibble first. */
  function Hex(bytes: seq<byte>): (r: string)
    ensures |r| == 2 * |bytes|
    ensures forall i :: 0 <= i < |r| ==> IsLowerHex(r[i])
  {
    if bytes == [] then [] else [HexDigit(bytes[0] / 16), HexDigit(bytes[0] % 16)] + Hex(bytes[1..])
  }

  /** The last `width` decimal digits of n, zero-padded. */
  function PadDigits(n: nat, width: nat): (r: string)
    ensures |r| == width
    ensures forall i :: 0 <= i < width ==> IsDigit(r[i])
  {
    if width == 0 then [] else PadDigits(n / 10, width - 1) + [DigitChar(n % 10)]
  }

  function Pow10(w: nat): (p: nat)
    ensures p >= 1
  {
    if w == 0 then 1 else 10 * Pow10(w - 1)
  }

  /** Below 10^width, the padded digits determine the number. */
  lemma {:induction false} PadDigitsInjective(a: nat, b: nat, width: nat)
    requires a < Pow10(width) && b < Pow10(width) && PadDigits(a, width) == PadDigits(b, width)
    ensures a == b
  {
    if width > 0 {
      var pa := PadDigits(a, width);
      var pb := PadDigits(b, width);
      assert pa[..width - 1] == PadDigits(a / 10, width - 1);
      assert pb[..width - 1] == PadDigits(b / 10, width - 1);
      assert pa[width - 1] == DigitChar(a % 10) && pb[width - 1] == DigitChar(b % 10);
      PadDigitsInjective(a / 10, b / 10, width - 1);
    }
  }

  /** `fmt.Sprintf("%04d", n)` for 0 <= n < 10000. */
  function Pad4(n: nat): (r: string)
    requires n < 10000
    ensures |r| == 4
    ensures forall i :: 0 <= i < 4 ==> IsDigit(r[i])
  {
    PadDigits(n, 4)
  }

  lemma Pad4Injective(a: nat, b: nat)
    requires a < 10000 && b < 10000 && Pad4(a) == Pad4(b)
    ensures a == b
  {
    assert Pow10(4) == 10000;
    PadDigitsInjective(a, b, 4);
  }

  /** The id format `"%v%d%04d%s"` of identifier, timestamp, counter mod 10000 and hex bytes. */
  function FormatId(identifier: string, timestamp: int64, counter: uint64, bytes: seq<byte>): (id: string)
    ensures |id| == |identifier| + |Decimal(timestamp)| + 4 + 2 * |bytes|
    ensures identifier + Decimal(timestamp) <= id
  {
    identifier + Decimal(timestamp) + Pad4(counter % 10000) + Hex(bytes)
  }

  /** `id` is the prefix, the decimal timestamp, exactly four digits spelling the counter
      mod 10000 and exactly eight lower-case hex digits. */
  predicate IdLayout(id: string, identifier: string, timestamp: int64, counter: uint64) {
    var n := |identifier| + |Decimal(timestamp)|;
    |id| == n + 12 &&
    id[..|identifier|] == identifier &&
    id[|identifier|..n] == Decimal(timestamp) &&
    id[n..n + 4] == Pad4(counter % 10000) &&
    (forall i :: n <= i < n + 4 ==> IsDigit(id[i])) &&
    (forall i :: n + 4 <= i < n + 12 ==> IsLowerHex(id[i]))
  }

  /** The result of one call, given the counter value it drew. */
  function IdResult(identifier: string, timestamp: int64, counter: uint64, random: RandomRead): (r: Result<string, Error>)
    ensures random.RandomFailure? <==> r.Failure?
    ensures r.Failure? ==> r.error == Fail(random.cause, Conflict) && Is(r.error, Conflict)
  {
    match random
    case RandomFailure(cause) =>
      IsAppError(Some(Plain(cause)), Conflict, Conflict);
      Failure(Fail(cause, Conflict))
    case RandomBytes(bytes) => Success(FormatId(identifier, timestamp, counter, bytes))
  }

  /** Every id a call returns has the fixed layout, and ends in the hex of the four bytes read. */
  lemma IdResultLayout(identifier: string, timestamp: int64, counter: uint64, random: RandomRead)
    ensures var r := IdResult(identifier, timestamp, counter, random);
            r.Success? ==> IdLayout(r.value, identifier, timestamp, counter) &&
                           r.value[|r.value| - 8..] == Hex(random.bytes)
  {
    if random.RandomBytes? {
      IdShape(identifier, timestamp, counter, random.bytes);
    }
  }

  class IdGenerator {
    var counter: uint64

    /** `NewIDGenerator()`. */
    constructor ()
      ensures counter == 0
    {
      counter := 0;
    }

    /** `GenerateCommonID(identifier)` called at time `timestamp` with `random` as what
        `rand.Read` returns. The counter advances before the random read, so it advances on
        failure too. */
    method GenerateCommonID(identifier: string, timestamp: int64, random: RandomRead) returns (r: Result<string, Error>)
      modifies this
      ensures counter == NextCounter(old(counter))
      ensures r == IdResult(identifier, timestamp, counter, random)
      ensures r.Success? ==> IdLayout(r.value, identifier, timestamp, counter)
    {
      IdResultLayout(identifier, timestamp, NextCounter(counter), random);
      counter := NextCounter(counter);
      if random.RandomFailure? {
        var err := Fail(random.cause, Conflict);
        return Failure(err);
      }
      var randomHex := Hex(random.bytes);
      r := Success(identifier + Decimal(timestamp) + Pad4(counter % 10000) + randomHex);
    }
  }

  /** A successful id is the prefix, the decimal timestamp, exactly four digits spelling the
      counter mod 10000 and exactly eight lower-case hex digits. */
  lemma IdShape(identifier: string, timestamp: int64, counter: uint64, bytes: Bytes4)
    ensures IdLayout(FormatId(identifier, timestamp, counter, bytes), identifier, timestamp, counter)
    ensures var id := FormatId(identifier, timestamp, counter, bytes); id[|id| - 8..] == Hex(bytes)
  {
    var id := FormatId(identifier, timestamp, counter, bytes);
    var n := |identifier| + |Decimal(timestamp)|;
    assert id[n..n + 4] == Pad4(counter % 10000);
    assert id[n + 4..] == Hex(bytes);
  }

  /** With the same prefix, timestamp and random bytes, ids drawn with counters that differ
      mod 10000 differ. */
  lemma {:induction false} IdsDifferByCounter(identifier: string, timestamp: int64, c1: uint64, c2: uint64, bytes: seq<byte>)
    requires c1 % 10000 != c2 % 10000
    ensures FormatId(identifier, timestamp, c1, bytes) != FormatId(identifier, timestamp, c2, bytes)
  {
    var n := |identifier| + |Decimal(timestamp)|;
    if FormatId(identifier, timestamp, c1, bytes) == FormatId(identifier, timestamp, c2, bytes) {
      assert FormatId(identifier, timestamp, c1, bytes)[n..n + 4] == Pad4(c1 % 10000);
      assert FormatId(identifier, timestamp, c2, bytes)[n..n + 4] == Pad4(c2 % 10000);
      Pad4Injective(c1 % 10000, c2 % 10000);
    }
  }

  /** Two calls fewer than 10000 steps apart, without the uint64 counter wrapping in between,
      draw different counter suffixes. */
  lemma CountersApartDiffer(c1: uint64, k: nat)
    requires 0 < k < 10000 && c1 + k < TwoTo64
    ensures c1 % 10000 != (c1 + k) % 10000
  {
  }

  /** Across the uint64 wrap the suffix repeats after only 1616 steps, because 2^64 mod 10000
      is 1616: the counter values 2^64 - 1 and 1615 both print as "1615". */
  lemma CounterSuffixRepeatsAcrossWrap()
    ensures (TwoTo64 - 1) % 10000 == ((TwoTo64 - 1) + 1616) % TwoTo64 % 10000
  {
  }
}
