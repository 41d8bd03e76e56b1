/** Octave-independent pitch and the two modes of a key, shared by the harmonizer and the feature encoder. */
module Music {

  /** A pitch class: C = 0, C#/D-flat = 1, ..., B = 11. */
  type PitchClass = x: int | 0 <= x < 12

  datatype Mode = Major | Minor

  /** The pitch class `semitones` above `pc` (below, for a negative count). */
  function Transpose(pc: PitchClass, semitones: int): PitchClass
  {
    (pc + semitones) % 12
  }

  lemma TransposeTwice(pc: PitchClass, a: int, b: int)
    ensures Transpose(Transpose(pc, a), b) == Transpose(pc, a + b)
  {
    var x := pc + a;
    assert x == 12 * (x / 12) + x % 12;
    assert (x % 12 + b) - (x + b) == -12 * (x / 12);
    ModShift(x + b, x / 12);
  }

  lemma ModShift(y: int, q: int)
    ensures (y - 12 * q) % 12 == y % 12
    decreases if q < 0 then -q else q
  {
    if q > 0 { ModShift(y, q - 1); assert y - 12 * q == (y - 12 * (q - 1)) - 12; }
    else if q < 0 { ModShift(y, q + 1); assert y - 12 * q == (y - 12 * (q + 1)) + 12; }
  }
}
