/** The xoroshiro128+ generator of `randLIB.c` on pairs of 64-bit words. */
module Xoroshiro {
  function Rol(n: bv64, bits: bv64): (w: bv64)
    requires 0 < bits < 64
  {
    (n << bits) | (n >> (64 - bits))
  }

  function Xor(a: bv64, b: bv64): (w: bv64) {
    a ^ b
  }

  function Shifted(t: bv64): (w: bv64) {
    t << 14
  }

  datatype Generator = Generator(s0: bv64, s1: bv64)

  const UNSEEDED := Generator(0, 0)

  // ----- one draw

  function Next0(s0: bv64, s1: bv64): (w: bv64) {
    var t := Xor(s1, s0);
    Xor(Xor(Rol(s0, 55), t), Shifted(t))
  }

  function Next1(s0: bv64, s1: bv64): (w: bv64) {
    Rol(Xor(s1, s0), 36)
  }

  /** The state after a draw. */
  function Advance(g: Generator): (after: Generator) {
    Generator(Next0(g.s0, g.s1), Next1(g.s0, g.s1))
  }

  function Previous0(s0: bv64, s1: bv64): (w: bv64) {
    var t := Rol(s1, 28);
    Rol(Xor(Xor(s0, Shifted(t)), t), 9)
  }

  function Previous1(s0: bv64, s1: bv64): (w: bv64) {
    Xor(Rol(s1, 28), Previous0(s0, s1))
  }

  /** The state before a draw. */
  function Retreat(g: Generator): (after: Generator) {
    Generator(Previous0(g.s0, g.s1), Previous1(g.s0, g.s1))
  }

  lemma RotatesBack(x: bv64)
    ensures Rol(Rol(x, 36), 28) == x && Rol(Rol(x, 28), 36) == x
  {
  }

  lemma RotatesOn(x: bv64)
    ensures Rol(Rol(x, 55), 9) == x && Rol(Rol(x, 9), 55) == x
  {
  }

  lemma Cancels(x: bv64, y: bv64)
    ensures Xor(Xor(x, y), y) == x
  {
  }

  lemma PreviousOfNext(s0: bv64, s1: bv64)
    ensures Previous0(Next0(s0, s1), Next1(s0, s1)) == s0
    ensures Previous1(Next0(s0, s1), Next1(s0, s1)) == s1
  {
    hide Rol, Xor, Shifted;
    var t := Xor(s1, s0);
    RotatesBack(t);
    RotatesOn(s0);
    Cancels(Xor(Rol(s0, 55), t), Shifted(t));
    Cancels(Rol(s0, 55), t);
    Cancels(s1, s0);
  }

  lemma NextOfPrevious(s0: bv64, s1: bv64)
    ensures Next0(Previous0(s0, s1), Previous1(s0, s1)) == s0
    ensures Next1(Previous0(s0, s1), Previous1(s0, s1)) == s1
  {
    hide Rol, Xor, Shifted;
    var t := Rol(s1, 28);
    var x := Xor(Xor(s0, Shifted(t)), t);
    RotatesBack(s1);
    RotatesOn(x);
    Cancels(t, Rol(x, 9));
    Cancels(Xor(s0, Shifted(t)), t);
    Cancels(s0, Shifted(t));
  }

  lemma ZeroIsFixed()
    ensures Next0(0, 0) == 0 && Next1(0, 0) == 0
  {
  }

  /** The step is a bijection on pairs of words, and only zero goes to zero. */
  lemma AdvanceIsBijective(g: Generator, h: Generator)
    ensures Retreat(Advance(g)) == g && Advance(Retreat(g)) == g
    ensures Advance(g) == Advance(h) ==> g == h
    ensures Advance(g) == UNSEEDED <==> g == UNSEEDED
  {
    hide Next0, Next1, Previous0, Previous1;
    PreviousOfNext(g.s0, g.s1);
    PreviousOfNext(h.s0, h.s1);
    NextOfPrevious(g.s0, g.s1);
    PreviousOfNext(0, 0);
    ZeroIsFixed();
  }

  // ----- the step is linear

  function Combined(g: Generator, h: Generator): (c: Generator) {
    Generator(Xor(g.s0, h.s0), Xor(g.s1, h.s1))
  }

  lemma Commutes(a: bv64, b: bv64)
    ensures Xor(a, b) == Xor(b, a)
  {
  }

  lemma Associates(a: bv64, b: bv64, c: bv64)
    ensures Xor(Xor(a, b), c) == Xor(a, Xor(b, c))
  {
  }

  lemma Regrouped(a: bv64, b: bv64, c: bv64, d: bv64)
    ensures Xor(Xor(a, b), Xor(c, d)) == Xor(Xor(a, c), Xor(b, d))
  {
    hide Xor;
    Associates(a, b, Xor(c, d));
    Associates(b, c, d);
    Commutes(b, c);
    Associates(c, b, d);
    Associates(a, c, Xor(b, d));
  }

  lemma RolCombines55(x: bv64, y: bv64)
    ensures Rol(Xor(x, y), 55) == Xor(Rol(x, 55), Rol(y, 55))
  {
  }

  lemma RolCombines36(x: bv64, y: bv64)
    ensures Rol(Xor(x, y), 36) == Xor(Rol(x, 36), Rol(y, 36))
  {
  }

  lemma ShiftCombines(x: bv64, y: bv64)
    ensures Shifted(Xor(x, y)) == Xor(Shifted(x), Shifted(y))
  {
  }

  /** A draw from combined states gives the combined states, so it is known from the states with one bit. */
  lemma AdvanceIsLinear(g: Generator, h: Generator)
    ensures Advance(Combined(g, h)) == Combined(Advance(g), Advance(h))
  {
    hide Rol, Xor, Shifted;
    var t, u := Xor(g.s1, g.s0), Xor(h.s1, h.s0);
    Regrouped(g.s1, h.s1, g.s0, h.s0);
    RolCombines55(g.s0, h.s0);
    RolCombines36(t, u);
    ShiftCombines(t, u);
    Regrouped(Rol(g.s0, 55), Rol(h.s0, 55), t, u);
    Regrouped(Xor(Rol(g.s0, 55), t), Xor(Rol(h.s0, 55), u), Shifted(t), Shifted(u));
  }

  /** Where the outermost bits go. */
  lemma UnitSteps()
    ensures Advance(Generator(1, 0)) == Generator(0x0080_0000_0000_4001, 0x10_0000_0000)
    ensures Advance(Generator(0, 1)) == Generator(0x4001, 0x10_0000_0000)
    ensures Advance(Generator(0x8000_0000_0000_0000, 0)) == Generator(0x8040_0000_0000_0000, 0x8_0000_0000)
    ensures Advance(Generator(0, 0x8000_0000_0000_0000)) == Generator(0x8000_0000_0000_0000, 0x8_0000_0000)
  {
  }

  // ----- seeding

  const GOLDEN_GAMMA: bv64 := 0x9E37_79B9_7F4A_7C15

  function MixStep(z: bv64, shift: bv64, factor: bv64): (w: bv64)
    requires shift < 64
  {
    (z ^ (z >> shift)) * factor
  }

  function MixEnd(z: bv64): (w: bv64) {
    z ^ (z >> 31)
  }

  function Plus(a: bv64, b: bv64): (w: bv64) {
    a + b
  }

  /** `splitmix64` on the seed it has just advanced. */
  function Mixed(seed: bv64): (w: bv64) {
    MixEnd(MixStep(MixStep(seed, 30, 0xBF58_476D_1CE4_E5B9), 27, 0x94D0_49BB_1331_11EB))
  }

  /** `randLIB_add_seed`: two words of `splitmix64`, and never the zero state. */
  function Perturbed(g: Generator, seed: bv64): (after: Generator) {
    var seed1 := Plus(seed, GOLDEN_GAMMA);
    var s0 := Xor(g.s0, Mixed(seed1));
    var s1 := Xor(g.s1, Mixed(Plus(seed1, GOLDEN_GAMMA)));
    if s1 == 0 && s0 == 0 then Generator(1, s1) else Generator(s0, s1)
  }

  /** Two 32-bit seeds, the first one on top. */
  function Word(high: bv32, low: bv32): (w: bv64) {
    ((high as bv64) << 32) | (low as bv64)
  }

  /** `randLIB_seed_random` with the words put together from the four seeds of the platform. */
  function Reseeded(g: Generator, w0: bv64, w1: bv64): (after: Generator) {
    var g1 := Generator(Xor(g.s0, w0), Xor(g.s1, w1));
    if g1.s0 == g1.s1 then Perturbed(g1, g1.s0) else g1
  }

  lemma SeedsAreNotZero(g: Generator, seed: bv64, w0: bv64, w1: bv64)
    ensures Perturbed(g, seed) != UNSEEDED && Reseeded(g, w0, w1) != UNSEEDED
  {
    hide Mixed, Xor, Plus;
  }

  /** The first three words of `splitmix64` from the seed 0. */
  lemma MixedFromZero()
    ensures Mixed(GOLDEN_GAMMA) == 0xE220_A839_7B1D_CDAF
    ensures Mixed(Plus(GOLDEN_GAMMA, GOLDEN_GAMMA)) == 0x6E78_9E6A_A1B9_65F4
    ensures Mixed(Plus(Plus(GOLDEN_GAMMA, GOLDEN_GAMMA), GOLDEN_GAMMA)) == 0x06C4_5D18_8009_454F
  {
  }

  /** The words of the platform's seeds, from which the seeds can be read again. */
  lemma WordParts(high: bv32, low: bv32)
    ensures (Word(high, low) >> 32) as bv32 == high && (Word(high, low) & 0xFFFF_FFFF) as bv32 == low
  {
  }

  /** A perturbation adds two words that depend on the seed alone, unless they cancel the state. */
  lemma PerturbedExactly(g: Generator, seed: bv64)
    ensures var mixed := Generator(Mixed(Plus(seed, GOLDEN_GAMMA)), Mixed(Plus(Plus(seed, GOLDEN_GAMMA), GOLDEN_GAMMA)));
            Perturbed(g, seed) == if Combined(g, mixed) == UNSEEDED then Generator(1, 0) else Combined(g, mixed)
  {
    hide Mixed, Xor, Plus;
  }

  /** The state that the first seed 0 gives. */
  lemma PerturbedFromZero()
    ensures Perturbed(UNSEEDED, 0) == Generator(0xE220_A839_7B1D_CDAF, 0x6E78_9E6A_A1B9_65F4)
  {
  }

  /** Seeding adds the words to the state, and the same words again take them out of it, unless both halves agree. */
  lemma ReseedsExactly(g: Generator, w0: bv64, w1: bv64)
    requires Xor(g.s0, w0) != Xor(g.s1, w1)
    ensures Reseeded(g, w0, w1) == Combined(g, Generator(w0, w1))
    ensures g.s0 != g.s1 ==> Reseeded(Reseeded(g, w0, w1), w0, w1) == g
  {
    hide Perturbed, Xor;
    Cancels(g.s0, w0);
    Cancels(g.s1, w1);
  }

  /** The generator's static state. */
  class Random {
    var s0: bv64
    var s1: bv64

    ghost function State(): (g: Generator)
      reads this
    {
      Generator(s0, s1)
    }

    constructor ()
      ensures State() == UNSEEDED
    {
      s0, s1 := 0, 0;
    }

    static method SplitMix64(seed: bv64) returns (value: bv64, next: bv64)
      ensures next == Plus(seed, GOLDEN_GAMMA) && value == Mixed(next)
    {
      hide MixStep, MixEnd, Plus;
      next := Plus(seed, GOLDEN_GAMMA);
      var z := next;
      z := MixStep(z, 30, 0xBF58_476D_1CE4_E5B9);
      z := MixStep(z, 27, 0x94D0_49BB_1331_11EB);
      value := MixEnd(z);
    }

    method AddSeed(seed: bv64)
      modifies this
      ensures State() == Perturbed(old(State()), seed) && State() != UNSEEDED
    {
      hide Mixed, Xor, Plus;
      var value, next := SplitMix64(seed);
      s0 := Xor(s0, value);
      value, next := SplitMix64(next);
      s1 := Xor(s1, value);
      if s1 == 0 && s0 == 0 {
        s0 := 1;
      }
    }

    method SeedRandom(a: bv32, b: bv32, c: bv32, d: bv32)
      modifies this
      ensures State() == Reseeded(old(State()), Word(a, b), Word(c, d)) && State() != UNSEEDED
    {
      hide Perturbed, Word, Xor;
      s0 := Xor(s0, Word(a, b));
      s1 := Xor(s1, Word(c, d));
      if s0 == s1 {
        AddSeed(s0);
      }
    }

    static method Step(s0: bv64, s1: bv64) returns (n0: bv64, n1: bv64)
      ensures n0 == Next0(s0, s1) && n1 == Next1(s0, s1)
    {
      hide Rol, Xor, Shifted;
      var t := Xor(s1, s0);
      n0 := Xor(Xor(Rol(s0, 55), t), Shifted(t));
      n1 := Rol(t, 36);
    }

    method Get64Bit() returns (result: bv64)
      modifies this
      ensures State() == Advance(old(State())) && result == Plus(old(s0), old(s1))
      ensures State() == UNSEEDED <==> old(State()) == UNSEEDED
    {
      hide Next0, Next1, Plus;
      ghost var before := State();
      result := Plus(s0, s1);
      s0, s1 := Step(s0, s1);
      AdvanceIsBijective(before, before);
    }
  }

  // ----- runs

  datatype Op = Draw | Perturb(seed: bv64) | Reseed(a: bv32, b: bv32, c: bv32, d: bv32)

  function Apply(g: Generator, op: Op): (after: Generator) {
    match op
    case Draw => Advance(g)
    case Perturb(seed) => Perturbed(g, seed)
    case Reseed(a, b, c, d) => Reseeded(g, Word(a, b), Word(c, d))
  }

  function RunFrom(g: Generator, ops: seq<Op>): (after: Generator)
    decreases |ops|
  {
    if ops == [] then g else Apply(RunFrom(g, ops[..|ops| - 1]), ops[|ops| - 1])
  }

  predicate Seeded(ops: seq<Op>) {
    exists i :: 0 <= i < |ops| && !ops[i].Draw?
  }

  lemma SeededSnoc(ops: seq<Op>, op: Op)
    ensures Seeded(ops + [op]) <==> Seeded(ops) || !op.Draw?
  {
    var all := ops + [op];
    assert all[|ops|] == op;
    if Seeded(ops) {
      var i :| 0 <= i < |ops| && !ops[i].Draw?;
      assert !all[i].Draw?;
    }
  }

  /** From power-up the state is zero exactly until the first seed; no later draw or reseed returns to it. */
  lemma {:induction false} ZeroExactlyUntilSeeded(ops: seq<Op>)
    ensures RunFrom(UNSEEDED, ops) != UNSEEDED <==> Seeded(ops)
    decreases |ops|
  {
    hide Advance, Perturbed, Reseeded, Word, Seeded;
    if ops == [] {
      assert !Seeded([]) by { NeverSeeded(); }
    } else {
      var before, last := ops[..|ops| - 1], ops[|ops| - 1];
      ZeroExactlyUntilSeeded(before);
      assert before + [last] == ops;
      SeededSnoc(before, last);
      var g := RunFrom(UNSEEDED, before);
      match last
      case Draw => AdvanceIsBijective(g, g);
      case Perturb(seed) => SeedsAreNotZero(g, seed, 0, 0);
      case Reseed(a, b, c, d) => SeedsAreNotZero(g, 0, Word(a, b), Word(c, d));
    }
  }

  lemma NeverSeeded()
    ensures !Seeded([])
  {
  }
}
