/**
 * The wire's random source: splitmix64 seeding and xorshift64*, on 64-bit words.
 *
 * Every mixing step is undone by an explicit inverse, so seeding keeps wires apart and a
 * run never falls into the dead state 0. The `hide` statements keep word-level
 * definitions out of proofs that only chain the steps.
 */
module Rng {

  const GOLDEN: bv64 := 0x9E37_79B9_7F4A_7C15

  // ── one xor-shift at a time ─────────────────────────────────────────────

  function Shift12(z: bv64): bv64 { z ^ (z >> 12) }
  function Shift25(z: bv64): bv64 { z ^ (z << 25) }
  function Shift27(z: bv64): bv64 { z ^ (z >> 27) }
  function Shift30(z: bv64): bv64 { z ^ (z >> 30) }
  function Shift31(z: bv64): bv64 { z ^ (z >> 31) }

  function Unshift12(y: bv64): bv64 { y ^ (y >> 12) ^ (y >> 24) ^ (y >> 36) ^ (y >> 48) ^ (y >> 60) }
  function Unshift25(y: bv64): bv64 { y ^ (y << 25) ^ (y << 50) }
  function Unshift27(y: bv64): bv64 { y ^ (y >> 27) ^ (y >> 54) }
  function Unshift30(y: bv64): bv64 { y ^ (y >> 30) ^ (y >> 60) }
  function Unshift31(y: bv64): bv64 { y ^ (y >> 31) ^ (y >> 62) }

  lemma Identity12(z: bv64)
    ensures Unshift12(z ^ (z >> 12)) == z
  {
  }

  lemma Identity25(z: bv64)
    ensures Unshift25(z ^ (z << 25)) == z
  {
  }

  lemma Identity27(z: bv64)
    ensures Unshift27(z ^ (z >> 27)) == z
  {
  }

  lemma Identity30(z: bv64)
    ensures Unshift30(z ^ (z >> 30)) == z
  {
  }

  lemma Identity31(z: bv64)
    ensures Unshift31(z ^ (z >> 31)) == z
  {
  }

  lemma UndoShift12(z: bv64)
    ensures Unshift12(Shift12(z)) == z
  {
    hide Unshift12;
    Identity12(z);
  }

  lemma UndoShift25(z: bv64)
    ensures Unshift25(Shift25(z)) == z
  {
    hide Unshift25;
    Identity25(z);
  }

  lemma UndoShift27(z: bv64)
    ensures Unshift27(Shift27(z)) == z
  {
    hide Unshift27;
    Identity27(z);
  }

  lemma UndoShift30(z: bv64)
    ensures Unshift30(Shift30(z)) == z
  {
    hide Unshift30;
    Identity30(z);
  }

  lemma UndoShift31(z: bv64)
    ensures Unshift31(Shift31(z)) == z
  {
    hide Unshift31;
    Identity31(z);
  }

  // ── multiplication by an odd constant ───────────────────────────────────

  function Times1(z: bv64): bv64 { z * 0xBF58_476D_1CE4_E5B9 }
  function Times2(z: bv64): bv64 { z * 0x94D0_49BB_1331_11EB }
  function TimesGolden(z: bv64): bv64 { z * 0x9E37_79B9_7F4A_7C15 }

  function Untimes1(y: bv64): bv64 { y * 0x96DE_1B17_3F11_9089 }
  function Untimes2(y: bv64): bv64 { y * 0x3196_42B2_D24D_8EC3 }
  function UntimesGolden(y: bv64): bv64 { y * 0xF1DE_83E1_9937_733D }

  lemma Identity1(z: bv64)
    ensures Untimes1(z * 0xBF58_476D_1CE4_E5B9) == z
  {
  }

  lemma UndoTimes1(z: bv64)
    ensures Untimes1(Times1(z)) == z
  {
    hide Untimes1;
    Identity1(z);
  }

  lemma Identity2(z: bv64)
    ensures Untimes2(z * 0x94D0_49BB_1331_11EB) == z
  {
  }

  lemma UndoTimes2(z: bv64)
    ensures Untimes2(Times2(z)) == z
  {
    hide Untimes2;
    Identity2(z);
  }

  lemma IdentityGolden(z: bv64)
    ensures UntimesGolden(z * 0x9E37_79B9_7F4A_7C15) == z
  {
  }

  lemma UndoTimesGolden(z: bv64)
    ensures UntimesGolden(TimesGolden(z)) == z
  {
    hide UntimesGolden;
    IdentityGolden(z);
  }

  // ── seeding ─────────────────────────────────────────────────────────────

  function Plus(a: bv64, b: bv64): bv64 { a + b }
  function Minus(a: bv64, b: bv64): bv64 { a - b }

  lemma UndoPlus(a: bv64, b: bv64)
    ensures Minus(Plus(a, b), a) == b && Minus(Plus(a, b), b) == a
  {
  }

  function Mix(seed: bv64): bv64 {
    Shift31(Times2(Shift27(Times1(Shift30(Plus(seed, GOLDEN))))))
  }

  function Unmix(y: bv64): bv64 {
    Minus(Unshift30(Untimes1(Unshift27(Untimes2(Unshift31(y))))), GOLDEN)
  }

  /** Seeding mixes, it does not merge: every seed can be read back from its mixed word. */
  lemma UndoMix(seed: bv64)
    ensures Unmix(Mix(seed)) == seed
  {
    hide Shift30, Times1, Shift27, Times2, Shift31, Plus;
    hide Unshift30, Untimes1, Unshift27, Untimes2, Unshift31, Minus;
    var z := Plus(seed, GOLDEN);
    UndoPlus(seed, GOLDEN);
    UndoShift30(z);
    UndoTimes1(Shift30(z));
    UndoShift27(Times1(Shift30(z)));
    UndoTimes2(Shift27(Times1(Shift30(z))));
    UndoShift31(Times2(Shift27(Times1(Shift30(z)))));
  }

  /** `Rng::new`: a well-mixed state, never 0. */
  function Seeded(seed: bv64): (state: bv64)
    ensures state != 0
  {
    if Mix(seed) == 0 then 1 else Mix(seed)
  }

  /** Distinct seeds get distinct states, except that the word 0 is moved onto the word 1. */
  lemma SeededInjective(a: bv64, b: bv64)
    ensures Seeded(a) == Seeded(b)
       <==> a == b || (Mix(a) == 0 && Mix(b) == 1) || (Mix(a) == 1 && Mix(b) == 0)
  {
    hide Mix, Unmix;
    UndoMix(a);
    UndoMix(b);
  }

  /** Only one seed mixes to 0: the one the golden constant wraps to 0. */
  lemma MixesToZeroOnce(seed: bv64)
    ensures Mix(seed) == 0 <==> seed == 0x61C8_8646_80B5_83EB
  {
    hide Mix, Unmix;
    UndoMix(seed);
    UnmixZero();
    UndoMix(0x61C8_8646_80B5_83EB);
    MixOfThatSeed();
  }

  lemma UnmixZero()
    ensures Unmix(0) == 0x61C8_8646_80B5_83EB
  {
  }

  lemma MixOfThatSeed()
    ensures Mix(0x61C8_8646_80B5_83EB) == 0
  {
  }

  // ── one pair of wires per session ───────────────────────────────────────

  /** Sessions use wire 2s towards the peer and wire 2s + 1 back, mod 2^64. */
  function WireNumber(session: bv64, back: bool): bv64 {
    session * 2 + if back then 1 else 0
  }

  function WireSeed(seed: bv64, wire: bv64): bv64 {
    Plus(seed, TimesGolden(wire))
  }

  /** The first state of a wire. */
  function InitialState(seed: bv64, session: bv64, back: bool): bv64 {
    Seeded(WireSeed(seed, WireNumber(session, back)))
  }

  lemma WireSeedInjective(seed: bv64, d: bv64, e: bv64)
    ensures WireSeed(seed, d) == WireSeed(seed, e) <==> d == e
  {
    hide Plus, Minus, TimesGolden, UntimesGolden;
    UndoPlus(seed, TimesGolden(d));
    UndoPlus(seed, TimesGolden(e));
    UndoTimesGolden(d);
    UndoTimesGolden(e);
  }

  lemma WireNumbersDiffer(s: bv64, t: bv64, back: bool, forth: bool)
    requires s < 0x8000_0000_0000_0000 && t < 0x8000_0000_0000_0000
    ensures WireNumber(s, back) == WireNumber(t, forth) <==> s == t && back == forth
  {
  }

  /**
   * Decorrelation, exactly: under one seed two wires start in the same state if and only
   * if they are the same wire, or one of the two mixes to 0 and so borrows state 1 from
   * the other.
   */
  lemma WiresStartApart(seed: bv64, s: bv64, t: bv64, back: bool, forth: bool)
    requires s < 0x8000_0000_0000_0000 && t < 0x8000_0000_0000_0000
    ensures var m := Mix(WireSeed(seed, WireNumber(s, back)));
            var n := Mix(WireSeed(seed, WireNumber(t, forth)));
            InitialState(seed, s, back) == InitialState(seed, t, forth)
            <==> (s == t && back == forth) || (m == 0 && n == 1) || (m == 1 && n == 0)
  {
    hide Mix, Seeded, WireSeed, WireNumber;
    var d, e := WireNumber(s, back), WireNumber(t, forth);
    WireNumbersDiffer(s, t, back, forth);
    WireSeedInjective(seed, d, e);
    SeededInjective(WireSeed(seed, d), WireSeed(seed, e));
  }

  /** From session 2^63 on the numbers wrap: sessions 2^63 apart are handed the same wires. */
  lemma SessionsWrap(seed: bv64, s: bv64, back: bool)
    ensures InitialState(seed, s + 0x8000_0000_0000_0000, back) == InitialState(seed, s, back)
  {
    hide Seeded, WireSeed;
    DoubledWraps(s);
  }

  lemma DoubledWraps(s: bv64)
    ensures (s + 0x8000_0000_0000_0000) * 2 == s * 2
  {
  }

  // ── running ─────────────────────────────────────────────────────────────

  /** The xorshift step. */
  function Shifted(x: bv64): bv64 {
    Shift27(Shift25(Shift12(x)))
  }

  function Unshifted(y: bv64): bv64 {
    Unshift12(Unshift25(Unshift27(y)))
  }

  /** What a state puts out. */
  function Output(x: bv64): bv64 {
    x * 0x2545_F491_4F6C_DD1D
  }

  /** The top 53 bits of a word: the source's uniform float is this over 2^53. */
  function Top53(word: bv64): bv64 {
    word >> 11
  }

  function Draw(x: bv64): bv64 {
    Top53(Output(x))
  }

  lemma DrawIsSmall(x: bv64)
    ensures Draw(x) < 0x20_0000_0000_0000
  {
    hide Output;
    TopIsSmall(Output(x));
  }

  lemma TopIsSmall(word: bv64)
    ensures Top53(word) < 0x20_0000_0000_0000
  {
  }

  /** The published reference values of splitmix64 from seed 0 and of xorshift64* from state 1. */
  lemma ReferenceValues()
    ensures Seeded(0) == 0xE220_A839_7B1D_CDAF
    ensures Output(Shifted(1)) == 0x47E4_CE4B_896C_DD1D
    ensures Output(Shifted(Shifted(1))) == 0xABCF_A6A8_E079_651D
  {
  }

  /** Where the wires of seed 42 start: session 0 towards the peer and back, and session 1 towards the peer. */
  lemma ReferenceWires()
    ensures InitialState(42, 0, false) == 0xBDD7_3226_2FEB_6E95
    ensures InitialState(42, 0, true) == 0x28EF_E333_B266_F103
    ensures InitialState(42, 1, false) == 0x4752_6757_130F_9F52
  {
  }

  /** The step loses nothing: every state has one predecessor. */
  lemma UndoShifted(x: bv64)
    ensures Unshifted(Shifted(x)) == x
  {
    hide Shift12, Shift25, Shift27, Unshift12, Unshift25, Unshift27;
    UndoShift12(x);
    UndoShift25(Shift12(x));
    UndoShift27(Shift25(Shift12(x)));
  }

  lemma UnshiftedZero()
    ensures Unshifted(0) == 0
  {
  }

  /** The dead state 0 is reached only from itself. */
  lemma ShiftedNonZero(x: bv64)
    requires x != 0
    ensures Shifted(x) != 0
  {
    hide Shifted, Unshifted;
    UndoShifted(x);
    UnshiftedZero();
  }

  function StateAfter(x: bv64, steps: nat): bv64
    decreases steps
  {
    if steps == 0 then x else StateAfter(Shifted(x), steps - 1)
  }

  /** No generator, however seeded and however long it runs, ever reaches state 0. */
  lemma {:induction false} NeverDead(x: bv64, steps: nat)
    requires x != 0
    ensures StateAfter(x, steps) != 0
    decreases steps
  {
    hide Shifted;
    if steps > 0 {
      ShiftedNonZero(x);
      NeverDead(Shifted(x), steps - 1);
    }
  }

  /** The generator itself; each assignment is one line of the source. */
  class Generator {
    var state: bv64

    constructor (seed: bv64)
      ensures state == Seeded(seed) && state != 0
    {
      hide Plus, Shift30, Times1, Shift27, Times2, Shift31;
      var z := Plus(seed, GOLDEN);
      z := Times1(Shift30(z));
      z := Times2(Shift27(z));
      z := Shift31(z);
      state := if z == 0 then 1 else z;
    }

    method Next() returns (r: bv64)
      requires state != 0
      modifies this
      ensures state == Shifted(old(state)) && state != 0 && r == Output(state)
    {
      hide Shift12, Shift25, Shift27, Output;
      var x := state;
      x := Shift12(x);
      x := Shift25(x);
      x := Shift27(x);
      assert x == Shifted(state);
      ShiftedNonZero(state);
      state := x;
      r := Output(x);
    }

    /** The draw behind `f64`. */
    method Uniform() returns (d: bv64)
      requires state != 0
      modifies this
      ensures state == Shifted(old(state)) && state != 0 && d == Draw(state)
    {
      hide Shifted, Output, Top53;
      var word := Next();
      d := Top53(word);
    }
  }
}
