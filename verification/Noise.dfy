/**
 * Line noise: which bytes a wire drops, and which it delivers with one bit flipped.
 *
 * Probabilities are thresholds on the 53-bit draw: a float draw/2^53 is below p exactly
 * when the draw is below the ceiling of p * 2^53, and p is 0.0 exactly when that is 0.
 */
module Noise {
  import opened Common
  import opened Rng

  datatype Rates = Rates(drop: bv64, corrupt: bv64)

  // ── one bit of a byte ───────────────────────────────────────────────────

  /** `1 << k` for k below 8. */
  function Weight(k: bv64): bv8 {
    if k == 0 then 1 else if k == 1 then 2 else if k == 2 then 4 else if k == 3 then 8
    else if k == 4 then 16 else if k == 5 then 32 else if k == 6 then 64 else 128
  }

  function Bits(b: byte): bv8 {
    b as bv8
  }

  function Flipped(b: byte, k: bv64): byte {
    (Bits(b) ^ Weight(k)) as byte
  }

  lemma BitsRoundTrip(x: bv8)
    ensures Bits(x as byte) == x
  {
  }

  predicate SingleBit(x: bv8) {
    x != 0 && x & (x - 1) == 0
  }

  /** The flipped byte differs from the original in exactly one bit. */
  lemma FlipChangesOneBit(b: byte, k: bv64)
    ensures SingleBit(Bits(b) ^ Bits(Flipped(b, k)))
  {
    hide SingleBit, Weight, Bits, Flipped;
    FlippedBits(b, k);
    WeightIsSingleBit(k);
    XorBack(Bits(b), Weight(k));
  }

  /** Flipping is `b ^ (1 << k)`. */
  lemma FlippedBits(b: byte, k: bv64)
    ensures Bits(Flipped(b, k)) == Bits(b) ^ Weight(k)
  {
    hide Weight, Bits;
    BitsRoundTrip(Bits(b) ^ Weight(k));
  }

  lemma WeightIsSingleBit(k: bv64)
    ensures SingleBit(Weight(k))
  {
  }

  lemma XorBack(x: bv8, y: bv8)
    ensures x ^ (x ^ y) == y
  {
  }

  // ── one byte on the wire ────────────────────────────────────────────────

  datatype Fate = Dropped | Kept | FlippedAt(k: bv64)

  predicate On(threshold: bv64) {
    threshold > 0
  }

  predicate Below(draw: bv64, threshold: bv64) {
    draw < threshold
  }

  predicate Struck(x: bv64, threshold: bv64) {
    Below(Draw(x), threshold)
  }

  function BitFrom(word: bv64): (k: bv64)
    ensures k < 8
  {
    word % 8
  }

  function PickBit(x: bv64): (k: bv64)
    ensures k < 8
  {
    BitFrom(Output(x))
  }

  /** The draws one byte costs, and what they decide. */
  function FateOf(r: Rates, x: bv64): (bv64, Fate) {
    var x1 := if On(r.drop) then Shifted(x) else x;
    if On(r.drop) && Struck(x1, r.drop) then (x1, Dropped)
    else
      var x2 := if On(r.corrupt) then Shifted(x1) else x1;
      if On(r.corrupt) && Struck(x2, r.corrupt) then (Shifted(x2), FlippedAt(PickBit(Shifted(x2))))
      else (x2, Kept)
  }

  /** The fates of `n` bytes: they depend on the rates and the generator, on nothing else. */
  function Fates(r: Rates, x: bv64, n: nat): (bv64, seq<Fate>)
    decreases n
  {
    if n == 0 then (x, [])
    else
      var (x1, f) := FateOf(r, x);
      var (x2, fs) := Fates(r, x1, n - 1);
      (x2, [f] + fs)
  }

  function Suffered(b: byte, f: Fate): seq<byte> {
    match f
    case Dropped => []
    case Kept => [b]
    case FlippedAt(k) => [Flipped(b, k)]
  }

  /** Apply a list of fates to the bytes they befall. */
  function Survivors(data: seq<byte>, fates: seq<Fate>): seq<byte>
    requires |data| == |fates|
  {
    if data == [] then [] else Suffered(data[0], fates[0]) + Survivors(data[1..], fates[1..])
  }

  lemma {:induction false} FatesLength(r: Rates, x: bv64, n: nat)
    ensures |Fates(r, x, n).1| == n
    decreases n
  {
    hide FateOf;
    if n > 0 {
      FatesLength(r, FateOf(r, x).0, n - 1);
    }
  }

  /** The whole effect of the line on a stream: bytes out, and the generator left behind. */
  function Transformed(r: Rates, x: bv64, data: seq<byte>): (bv64, seq<byte>) {
    FatesLength(r, x, |data|);
    var (x', fates) := Fates(r, x, |data|);
    (x', Survivors(data, fates))
  }

  lemma TransformedCons(r: Rates, x: bv64, b: byte, rest: seq<byte>)
    ensures var (x1, f) := FateOf(r, x);
            Transformed(r, x, [b] + rest) == (Transformed(r, x1, rest).0, Suffered(b, f) + Transformed(r, x1, rest).1)
  {
    hide FateOf, Suffered;
    var (x1, f) := FateOf(r, x);
    var (x2, fs) := Fates(r, x1, |rest|);
    FatesLength(r, x1, |rest|);
    assert Fates(r, x, 1 + |rest|) == (x2, [f] + fs);
    assert ([b] + rest)[1..] == rest && ([f] + fs)[1..] == fs;
  }

  lemma {:induction false} TransformedConcat(r: Rates, x: bv64, a: seq<byte>, b: seq<byte>)
    ensures Transformed(r, x, a + b)
         == (Transformed(r, Transformed(r, x, a).0, b).0,
             Transformed(r, x, a).1 + Transformed(r, Transformed(r, x, a).0, b).1)
    decreases |a|
  {
    hide FateOf, Suffered;
    if a == [] {
      assert a + b == b;
      assert Transformed(r, x, []) == (x, []);
      assert [] + Transformed(r, x, b).1 == Transformed(r, x, b).1;
    } else {
      var (x1, f) := FateOf(r, x);
      assert a + b == [a[0]] + (a[1..] + b) && a == [a[0]] + a[1..];
      TransformedCons(r, x, a[0], a[1..] + b);
      TransformedCons(r, x, a[0], a[1..]);
      TransformedConcat(r, x1, a[1..], b);
      Assoc(Suffered(a[0], f), Transformed(r, x1, a[1..]).1, Transformed(r, Transformed(r, x1, a[1..]).0, b).1);
    }
  }

  lemma TransformedNone(r: Rates, x: bv64)
    ensures Transformed(r, x, []) == (x, [])
  {
  }

  lemma TransformedSnoc(r: Rates, x: bv64, data: seq<byte>, b: byte)
    ensures var (x1, out) := Transformed(r, x, data);
            var (x2, f) := FateOf(r, x1);
            Transformed(r, x, data + [b]) == (x2, out + Suffered(b, f))
  {
    hide FateOf, Suffered, Transformed;
    TransformedConcat(r, x, data, [b]);
    TransformedOne(r, Transformed(r, x, data).0, b);
  }

  lemma TransformedOne(r: Rates, x: bv64, b: byte)
    ensures Transformed(r, x, [b]) == (FateOf(r, x).0, Suffered(b, FateOf(r, x).1))
  {
    hide FateOf, Suffered;
    TransformedCons(r, x, b, []);
    assert [b] + [] == [b];
    assert Transformed(r, FateOf(r, x).0, []) == (FateOf(r, x).0, []);
    assert Suffered(b, FateOf(r, x).1) + [] == Suffered(b, FateOf(r, x).1);
  }

  /**
   * Noise does not look at the data: two streams of one length leave the generator in the
   * same state, and suffer the same fates byte for byte.
   */
  lemma NoiseIgnoresData(r: Rates, x: bv64, a: seq<byte>, b: seq<byte>)
    requires |a| == |b|
    ensures Transformed(r, x, a).0 == Transformed(r, x, b).0
    ensures |Transformed(r, x, a).1| == |Transformed(r, x, b).1|
  {
    FatesLength(r, x, |a|);
    SurvivorCount(a, b, Fates(r, x, |a|).1);
  }

  lemma {:induction false} SurvivorCount(a: seq<byte>, b: seq<byte>, fates: seq<Fate>)
    requires |a| == |b| == |fates|
    ensures |Survivors(a, fates)| == |Survivors(b, fates)|
  {
    if a != [] {
      SurvivorCount(a[1..], b[1..], fates[1..]);
    }
  }

  /** Without a drop rate nothing is dropped; without a corrupt rate nothing is flipped. */
  lemma {:induction false} RatesBoundFates(r: Rates, x: bv64, n: nat, i: nat)
    requires i < |Fates(r, x, n).1|
    ensures !On(r.drop) ==> !Fates(r, x, n).1[i].Dropped?
    ensures !On(r.corrupt) ==> !Fates(r, x, n).1[i].FlippedAt?
    ensures Fates(r, x, n).1[i].FlippedAt? ==> Fates(r, x, n).1[i].k < 8
    decreases n
  {
    hide On, Shifted, Struck;
    if i > 0 {
      RatesBoundFates(r, FateOf(r, x).0, n - 1, i - 1);
    }
  }

  /** Where each surviving byte came from: strictly increasing positions of the input. */
  function Origins(fates: seq<Fate>, base: nat): seq<nat> {
    if fates == [] then []
    else (if fates[0].Dropped? then [] else [base]) + Origins(fates[1..], base + 1)
  }

  lemma {:induction false} OriginsOrdered(fates: seq<Fate>, base: nat)
    ensures forall i :: 0 <= i < |Origins(fates, base)| ==> base <= Origins(fates, base)[i] < base + |fates|
    ensures forall i, j :: 0 <= i < j < |Origins(fates, base)| ==> Origins(fates, base)[i] < Origins(fates, base)[j]
    decreases |fates|
  {
    if fates != [] {
      OriginsOrdered(fates[1..], base + 1);
    }
  }

  /** Every byte out is the byte in at its origin, or that byte with exactly one bit flipped. */
  lemma {:induction false} SurvivorsComeFromOrigins(data: seq<byte>, fates: seq<Fate>, base: nat, i: nat)
    requires |data| == |fates| && i < |Survivors(data, fates)|
    ensures |Origins(fates, base)| == |Survivors(data, fates)|
    ensures var o := Origins(fates, base)[i] - base;
            && 0 <= o < |data|
            && Survivors(data, fates)[i] == (match fates[o] case FlippedAt(k) => Flipped(data[o], k) case _ => data[o])
            && !fates[o].Dropped?
    decreases |data|
  {
    hide Flipped;
    var keep := |Suffered(data[0], fates[0])|;
    assert keep <= 1;
    if i >= keep {
      SurvivorsComeFromOrigins(data[1..], fates[1..], base + 1, i - keep);
    } else if |Survivors(data[1..], fates[1..])| > 0 {
      SurvivorsComeFromOrigins(data[1..], fates[1..], base + 1, 0);
    } else {
      OriginCount(data[1..], fates[1..], base + 1);
    }
  }

  lemma {:induction false} OriginCount(data: seq<byte>, fates: seq<Fate>, base: nat)
    requires |data| == |fates|
    ensures |Origins(fates, base)| == |Survivors(data, fates)|
    decreases |data|
  {
    hide Flipped;
    if data != [] {
      OriginCount(data[1..], fates[1..], base + 1);
    }
  }

  lemma {:induction false} NothingDroppedKeepsLength(data: seq<byte>, fates: seq<Fate>)
    requires |data| == |fates| && forall i :: 0 <= i < |fates| ==> !fates[i].Dropped?
    ensures |Survivors(data, fates)| == |data|
    decreases |data|
  {
    hide Flipped;
    if data != [] {
      NothingDroppedKeepsLength(data[1..], fates[1..]);
    }
  }

  /** Drop rate 0 loses no byte. */
  lemma NoDropKeepsLength(r: Rates, x: bv64, data: seq<byte>)
    requires !On(r.drop)
    ensures |Transformed(r, x, data).1| == |data|
  {
    FatesLength(r, x, |data|);
    forall i | 0 <= i < |data|
      ensures !Fates(r, x, |data|).1[i].Dropped?
    {
      RatesBoundFates(r, x, |data|, i);
    }
    NothingDroppedKeepsLength(data, Fates(r, x, |data|).1);
  }

  /** Corrupt rate 0 delivers a plain subsequence: each byte out is some byte in, in order, unaltered. */
  lemma NoCorruptIsSubsequence(r: Rates, x: bv64, data: seq<byte>, i: nat)
    requires !On(r.corrupt) && i < |Transformed(r, x, data).1|
    ensures var origins := Origins(Fates(r, x, |data|).1, 0);
            && |origins| == |Transformed(r, x, data).1|
            && origins[i] < |data| && Transformed(r, x, data).1[i] == data[origins[i]]
            && (forall j :: 0 <= j < i ==> origins[j] < origins[i])
  {
    hide Flipped, FateOf, Suffered, Origins;
    FatesLength(r, x, |data|);
    var fates := Fates(r, x, |data|).1;
    SurvivorsComeFromOrigins(data, fates, 0, i);
    var o := Origins(fates, 0)[i];
    RatesBoundFates(r, x, |data|, o);
    OriginsOrdered(fates, 0);
  }

  /** With both rates 0 the line is transparent and draws nothing. */
  lemma {:induction false} QuietLine(r: Rates, x: bv64, data: seq<byte>)
    requires !On(r.drop) && !On(r.corrupt)
    ensures Transformed(r, x, data) == (x, data)
    decreases |data|
  {
    if data != [] {
      assert FateOf(r, x) == (x, Kept);
      assert data == [data[0]] + data[1..];
      TransformedCons(r, x, data[0], data[1..]);
      QuietLine(r, x, data[1..]);
    }
  }

  /** No amount of noise kills the generator. */
  lemma {:induction false} NoiseKeepsAlive(r: Rates, x: bv64, n: nat)
    requires x != 0
    ensures Fates(r, x, n).0 != 0
    decreases n
  {
    hide On, Shifted, Struck;
    if n > 0 {
      FateKeepsAlive(r, x);
      NoiseKeepsAlive(r, FateOf(r, x).0, n - 1);
    }
  }

  lemma FateKeepsAlive(r: Rates, x: bv64)
    requires x != 0
    ensures FateOf(r, x).0 != 0
  {
    hide On, Shifted, Struck, PickBit;
    var x1 := if On(r.drop) then Shifted(x) else x;
    var x2 := if On(r.corrupt) then Shifted(x1) else x1;
    ShiftedNonZero(x);
    ShiftedNonZero(x1);
    ShiftedNonZero(x2);
  }

  // ── fates by their draws ────────────────────────────────────────────────

  lemma {:induction false} FateAt(r: Rates, x: bv64, n: nat, i: nat)
    requires i < n
    ensures i < |Fates(r, x, n).1| && Fates(r, x, n).1[i] == FateOf(r, Fates(r, x, i).0).1
    ensures Fates(r, x, i + 1).0 == FateOf(r, Fates(r, x, i).0).0
    decreases n
  {
    hide FateOf;
    var x1 := FateOf(r, x).0;
    if i > 0 {
      FateAt(r, x1, n - 1, i - 1);
    } else {
      assert Fates(r, x1, 0).0 == x1;
    }
  }

  /** The next word's top 53 bits are below a threshold; a threshold of 0 makes no draw and never strikes. */
  predicate Strikes(state: bv64, threshold: bv64) {
    WordStrikes(Output(Shifted(state)), threshold)
  }

  predicate WordStrikes(word: bv64, threshold: bv64) {
    threshold > 0 && Less(word >> 11, threshold)
  }

  predicate Less(a: bv64, b: bv64) {
    a < b
  }

  lemma LessIsBelow(a: bv64, b: bv64)
    ensures Less(a, b) == Below(a, b)
  {
  }

  lemma WordStrikesIs(word: bv64, threshold: bv64)
    ensures WordStrikes(word, threshold) <==> On(threshold) && Below(Top53(word), threshold)
  {
    hide Less, Below;
    LessIsBelow(Top53(word), threshold);
  }

  function AfterDraw(state: bv64, threshold: bv64): bv64 {
    if threshold > 0 then Shifted(state) else state
  }

  lemma StrikeIs(x: bv64, threshold: bv64)
    ensures Strikes(x, threshold) <==> On(threshold) && Struck(Shifted(x), threshold)
  {
    hide Shifted, Output, WordStrikes, On, Below, Top53;
    WordStrikesIs(Output(Shifted(x)), threshold);
  }

  lemma AfterDrawIs(x: bv64, threshold: bv64)
    ensures AfterDraw(x, threshold) == if On(threshold) then Shifted(x) else x
  {
    hide Shifted;
  }

  lemma FateByDraws(r: Rates, x: bv64)
    ensures FateOf(r, x).1.Dropped? <==> Strikes(x, r.drop)
    ensures FateOf(r, x).1.FlippedAt? <==> !Strikes(x, r.drop) && Strikes(AfterDraw(x, r.drop), r.corrupt)
    ensures !FateOf(r, x).1.FlippedAt? ==>
      FateOf(r, x).0 == if Strikes(x, r.drop) then Shifted(x) else AfterDraw(AfterDraw(x, r.drop), r.corrupt)
    ensures FateOf(r, x).1.FlippedAt? ==>
      FateOf(r, x).0 == Shifted(Shifted(AfterDraw(x, r.drop))) && FateOf(r, x).1.k == BitFrom(Output(FateOf(r, x).0))
  {
    hide Shifted, Strikes, Struck, On, AfterDraw, BitFrom, Output;
    StrikeIs(x, r.drop);
    AfterDrawIs(x, r.drop);
    StrikeIs(AfterDraw(x, r.drop), r.corrupt);
    AfterDrawIs(AfterDraw(x, r.drop), r.corrupt);
  }

  /**
   * Fates, exactly: each byte of a stream is dropped when its draw falls below the drop
   * threshold, flipped when it survives and its next draw falls below the corrupt one, and
   * kept otherwise; a rate of 0 costs no draw, and a flip one more.
   */
  lemma FatesFollowDraws(r: Rates, x: bv64, n: nat, i: nat)
    requires i < n && n == |Fates(r, x, n).1|
    ensures var state, fate, next := Fates(r, x, i).0, Fates(r, x, n).1[i], Fates(r, x, i + 1).0;
            var later := AfterDraw(state, r.drop);
            && (fate.Dropped? <==> Strikes(state, r.drop))
            && (fate.FlippedAt? <==> !Strikes(state, r.drop) && Strikes(later, r.corrupt))
            && (fate.Dropped? ==> next == Shifted(state))
            && (fate.Kept? ==> next == AfterDraw(later, r.corrupt))
            && (fate.FlippedAt? ==> next == Shifted(Shifted(later)) && fate.k == Output(next) % 8)
  {
    hide FateOf, Strikes, Shifted, AfterDraw, BitFrom, Output;
    BitIsDrawn(Output(Fates(r, x, i + 1).0));
    FateAt(r, x, n, i);
    FateByDraws(r, Fates(r, x, i).0);
    DroppedDraws(r, Fates(r, x, i).0);
  }

  lemma BitIsDrawn(word: bv64)
    ensures BitFrom(word) == word % 8
  {
  }

  lemma DroppedDraws(r: Rates, x: bv64)
    ensures FateOf(r, x).1.Dropped? ==> FateOf(r, x).0 == Shifted(x)
  {
    hide Shifted, Struck;
  }

  lemma CertainWord(word: bv64, threshold: bv64)
    requires threshold >= 0x20_0000_0000_0000
    ensures WordStrikes(word, threshold)
  {
  }

  lemma CertainStrike(state: bv64, threshold: bv64)
    requires threshold >= 0x20_0000_0000_0000
    ensures Strikes(state, threshold)
  {
    hide Shifted, Output;
    CertainWord(Output(Shifted(state)), threshold);
  }

  /** A probability of 1 is a certainty: a drop rate of 1 loses everything. */
  lemma {:induction false} CertainDrop(r: Rates, x: bv64, data: seq<byte>)
    requires r.drop >= 0x20_0000_0000_0000
    ensures Transformed(r, x, data).1 == []
    decreases |data|
  {
    hide FateOf, Transformed;
    if data == [] {
      TransformedNone(r, x);
    } else {
      assert data == [data[0]] + data[1..];
      TransformedCons(r, x, data[0], data[1..]);
      CertainStrike(x, r.drop);
      FateByDraws(r, x);
      CertainDrop(r, FateOf(r, x).0, data[1..]);
    }
  }

  /** And a corrupt rate of 1, with none dropped, alters every byte. */
  lemma {:induction false} CertainFlip(r: Rates, x: bv64, data: seq<byte>, i: nat)
    requires r.drop == 0 && r.corrupt >= 0x20_0000_0000_0000 && i < |data|
    ensures |Transformed(r, x, data).1| == |data| && Transformed(r, x, data).1[i] != data[i]
    decreases i
  {
    hide FateOf, Transformed, Flipped;
    NoDropKeepsLength(r, x, data);
    assert data == [data[0]] + data[1..];
    TransformedCons(r, x, data[0], data[1..]);
    CertainStrike(x, r.corrupt);
    FateByDraws(r, x);
    if i > 0 {
      CertainFlip(r, FateOf(r, x).0, data[1..], i - 1);
    } else {
      FlipAlters(data[0], FateOf(r, x).1.k);
    }
  }

  lemma FlipAlters(b: byte, k: bv64)
    ensures Flipped(b, k) != b
  {
    hide Weight;
    FlippedBits(b, k);
    WeightIsSingleBit(k);
    assert Bits(b) ^ Bits(b) == 0;
  }

  /** The bit flipped is the one of the number drawn: each is worth twice the one before. */
  lemma WeightsDouble(k: bv64)
    requires k < 7
    ensures Weight(0) == 1 && Weight(k + 1) == Weight(k) << 1
  {
  }
}
