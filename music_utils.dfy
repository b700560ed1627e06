/**
 * Mapping of a measured frequency to the nearest piano key, its note name,
 * octave, ideal frequency and deviation in cents (utils/musicUtils.ts).
 *
 * Math.log2 and Math.pow(2, .) are not computed here: they are passed in as a
 * pair of functions. The lemmas that need their algebra state it in `Lawful`.
 * Math.round is modelled exactly (nearest integer, ties toward +infinity).
 */
module MusicUtils {
  import opened Wrappers
  import opened Constants

  /** The record handed to the display (types.ts, NoteDetails). */
  datatype NoteDetails = NoteDetails(
    name: string,
    octave: int,
    frequency: real,
    targetFrequency: real,
    cents: real)

  /** Powers of two are positive, so a key's ideal frequency is never zero. */
  type PositiveReal = r: real | r > 0.0 witness 1.0

  /** The two transcendental functions the mapper needs: log2 and x |-> 2^x. */
  datatype Exponentials = Exponentials(log2: real -> real, exp2: real -> PositiveReal)

  /** Math.log2. */
  function Log2(e: Exponentials, x: real): real
  {
    e.log2(x)
  }

  /** Math.pow(2, y). */
  function Pow2(e: Exponentials, y: real): PositiveReal
  {
    e.exp2(y)
  }

  /** The logarithm of a product is the sum of the logarithms. */
  ghost predicate ProductRule(e: Exponentials, a: real, b: real)
  {
    Log2(e, a * b) == Log2(e, a) + Log2(e, b)
  }

  /** The laws of the real log2 and 2^y that the lemmas below rely on. */
  ghost predicate Lawful(e: Exponentials)
  {
    && Pow2(e, 0.0) == 1.0
    && (forall y :: Log2(e, Pow2(e, y)) == y)
    && (forall a, b :: a > 0.0 && b > 0.0 ==> ProductRule(e, a, b))
  }

  /** JavaScript's Math.round: the nearest integer, halves rounded up. */
  function Round(x: real): (n: int)
    ensures n as real - 0.5 <= x < n as real + 0.5
  {
    (x + 0.5).Floor
  }

  /** The continuous piano-key number of a frequency: A4 (= a4) is key 49. */
  function KeyNumber(frequency: real, a4: real, e: Exponentials): (k: real)
    requires a4 > 0.0
    ensures frequency == a4 && Log2(e, 1.0) == 0.0 ==> k == 49.0
  {
    assert a4 / a4 == 1.0;
    12.0 * Log2(e, frequency / a4) + 49.0
  }

  /** The piano key nearest to a frequency, before the range check. */
  function NearestKey(frequency: real, a4: real, e: Exponentials): (key: int)
    requires a4 > 0.0
    ensures key as real - 0.5 <= KeyNumber(frequency, a4, e) < key as real + 0.5
  {
    Round(KeyNumber(frequency, a4, e))
  }

  /** Keys 1 to 88 exist on the piano. */
  predicate OnKeyboard(key: int)
  {
    1 <= key <= PianoKeyCount
  }

  /** Index into NoteNames of a key's pitch class. */
  function PitchClass(key: int): (index: nat)
    requires OnKeyboard(key)
    ensures index < |NoteNames|
  {
    (key + 8) % 12
  }

  /** Octave number of a key in scientific pitch notation (C starts each octave). */
  function Octave(key: int): (octave: nat)
    requires OnKeyboard(key)
    ensures octave <= 8
    ensures 12 * octave + PitchClass(key) == key + 8
  {
    (key + 8) / 12
  }

  /** The exact frequency of a key, tuned relative to a4. */
  function TargetFrequency(key: int, a4: real, e: Exponentials): (target: real)
    ensures a4 > 0.0 ==> target > 0.0
    ensures key == 49 && Pow2(e, 0.0) == 1.0 ==> target == a4
  {
    a4 * Pow2(e, (key - 49) as real / 12.0)
  }

  /**
   * frequencyToNote: null for a non-positive frequency or one whose nearest
   * key is off the keyboard; otherwise the nearest key's note.
   */
  function FrequencyToNote(frequency: real, a4: real, e: Exponentials): (r: Option<NoteDetails>)
    requires a4 > 0.0
    ensures frequency <= 0.0 ==> r == None
    ensures r.Some? <==> frequency > 0.0 && OnKeyboard(NearestKey(frequency, a4, e))
    ensures r.Some? ==>
              var key := NearestKey(frequency, a4, e);
              && r.value.name == NoteNames[PitchClass(key)]
              && r.value.octave == Octave(key)
              && r.value.frequency == frequency
              && r.value.targetFrequency == TargetFrequency(key, a4, e)
  {
    if frequency <= 0.0 then None
    else
      var roundedNoteNum := NearestKey(frequency, a4, e);
      if roundedNoteNum < 1 || roundedNoteNum > PianoKeyCount then None
      else
        var targetFrequency := TargetFrequency(roundedNoteNum, a4, e);
        var cents := 1200.0 * Log2(e, frequency / targetFrequency);
        Some(NoteDetails(NoteNames[PitchClass(roundedNoteNum)], Octave(roundedNoteNum),
                         frequency, targetFrequency, cents))
  }

  /** Key 49 is A4, key 1 is A0 and key 88 is C8. */
  lemma Landmarks()
    ensures NoteNames[PitchClass(49)] == "A" && Octave(49) == 4
    ensures NoteNames[PitchClass(1)] == "A" && Octave(1) == 0
    ensures NoteNames[PitchClass(88)] == "C" && Octave(88) == 8
  {
  }

  /** One key up advances the pitch class cyclically; the octave turns over from B to C. */
  lemma KeyStep(key: int)
    requires 1 <= key < PianoKeyCount
    ensures PitchClass(key + 1) == (PitchClass(key) + 1) % 12
    ensures Octave(key + 1) == if PitchClass(key) == 11 then Octave(key) + 1 else Octave(key)
  {
  }

  /** A note name and octave determine the key. */
  lemma NoteDeterminesKey(k1: int, k2: int)
    requires OnKeyboard(k1) && OnKeyboard(k2)
    requires NoteNames[PitchClass(k1)] == NoteNames[PitchClass(k2)]
    requires Octave(k1) == Octave(k2)
    ensures k1 == k2
  {
    NoteNamesDistinct();
  }

  /** The product rule, stated for a named product p = a * b. */
  lemma Log2Product(a: real, b: real, p: real, e: Exponentials)
    requires Lawful(e) && a > 0.0 && b > 0.0 && p == a * b
    ensures Log2(e, p) == Log2(e, a) + Log2(e, b)
  {
    assert ProductRule(e, a, b);
  }

  /** The quotient rule, stated for a named quotient q = a / b. */
  lemma Log2Quotient(a: real, b: real, q: real, e: Exponentials)
    requires Lawful(e) && a > 0.0 && b > 0.0 && q == a / b
    ensures Log2(e, q) == Log2(e, a) - Log2(e, b)
  {
    Log2Product(q, b, a, e);
  }

  /** log2(1) = 0 follows from 2^0 = 1. */
  lemma Log2One(e: Exponentials)
    requires Lawful(e)
    ensures Log2(e, 1.0) == 0.0
  {
    assert Log2(e, Pow2(e, 0.0)) == 0.0;
  }

  /** The reference pitch maps to A4 with no deviation. */
  lemma ReferencePitchIsA4(a4: real, e: Exponentials)
    requires a4 > 0.0 && Lawful(e)
    ensures FrequencyToNote(a4, a4, e) == Some(NoteDetails("A", 4, a4, a4, 0.0))
  {
    Log2One(e);
    assert a4 / a4 == 1.0;
    assert KeyNumber(a4, a4, e) == 49.0;
    Landmarks();
  }

  /**
   * The deviation in cents is 100 times the distance from the continuous key
   * number to the chosen key, so it lies in [-50, 50).
   */
  lemma CentsWithinHalfSemitone(frequency: real, a4: real, e: Exponentials)
    requires a4 > 0.0 && Lawful(e)
    requires FrequencyToNote(frequency, a4, e).Some?
    ensures FrequencyToNote(frequency, a4, e).value.cents
         == 100.0 * (KeyNumber(frequency, a4, e) - NearestKey(frequency, a4, e) as real)
    ensures -50.0 <= FrequencyToNote(frequency, a4, e).value.cents < 50.0
  {
    var key := NearestKey(frequency, a4, e);
    var y := (key - 49) as real / 12.0;
    var target := TargetFrequency(key, a4, e);
    assert Log2(e, Pow2(e, y)) == y;
    Log2Product(a4, Pow2(e, y), target, e);
    Log2Quotient(frequency, target, frequency / target, e);
    Log2Quotient(frequency, a4, frequency / a4, e);
  }

  /** Every key's own frequency maps back to that key, with no deviation. */
  lemma KeyRoundTrip(key: int, a4: real, e: Exponentials)
    requires OnKeyboard(key) && a4 > 0.0 && Lawful(e)
    ensures var f := TargetFrequency(key, a4, e);
            FrequencyToNote(f, a4, e)
              == Some(NoteDetails(NoteNames[PitchClass(key)], Octave(key), f, f, 0.0))
  {
    var y := (key - 49) as real / 12.0;
    var f := TargetFrequency(key, a4, e);
    assert Log2(e, Pow2(e, y)) == y;
    Log2Product(a4, Pow2(e, y), f, e);
    Log2Quotient(f, a4, f / a4, e);
    assert NearestKey(f, a4, e) == key;
    Log2One(e);
    assert f / f == 1.0;
  }

  /** Raising a frequency by one semitone raises its nearest key by exactly one. */
  lemma SemitoneUp(frequency: real, a4: real, e: Exponentials)
    requires frequency > 0.0 && a4 > 0.0 && Lawful(e)
    ensures NearestKey(frequency * Pow2(e, 1.0 / 12.0), a4, e) == NearestKey(frequency, a4, e) + 1
  {
    var higher := frequency * Pow2(e, 1.0 / 12.0);
    assert Log2(e, Pow2(e, 1.0 / 12.0)) == 1.0 / 12.0;
    Log2Product(frequency, Pow2(e, 1.0 / 12.0), higher, e);
    Log2Quotient(higher, a4, higher / a4, e);
    Log2Quotient(frequency, a4, frequency / a4, e);
    assert KeyNumber(higher, a4, e) == KeyNumber(frequency, a4, e) + 1.0;
  }

  /**
   * Scaling both the measured frequency and the reference by the same factor
   * keeps the note and the cents, and scales the ideal frequency.
   */
  lemma ReferenceScaling(frequency: real, a4: real, c: real, e: Exponentials)
    requires frequency > 0.0 && a4 > 0.0 && c > 0.0
    requires FrequencyToNote(frequency, a4, e).Some?
    ensures FrequencyToNote(c * frequency, c * a4, e).Some?
    ensures var n := FrequencyToNote(frequency, a4, e).value;
            FrequencyToNote(c * frequency, c * a4, e).value
              == NoteDetails(n.name, n.octave, c * frequency, c * n.targetFrequency, n.cents)
  {
    var key := NearestKey(frequency, a4, e);
    assert (c * frequency) / (c * a4) == frequency / a4;
    assert KeyNumber(c * frequency, c * a4, e) == KeyNumber(frequency, a4, e);
    assert NearestKey(c * frequency, c * a4, e) == key;
    var t := TargetFrequency(key, a4, e);
    var scaled := TargetFrequency(key, c * a4, e);
    assert scaled == c * t;
    assert (c * frequency) / scaled == frequency / t;
    assert Log2(e, (c * frequency) / scaled) == Log2(e, frequency / t);
    var n := FrequencyToNote(frequency, a4, e).value;
    var m := FrequencyToNote(c * frequency, c * a4, e).value;
    assert FrequencyToNote(c * frequency, c * a4, e).Some?;
    assert n.cents == 1200.0 * Log2(e, frequency / t);
    assert m.cents == 1200.0 * Log2(e, (c * frequency) / scaled);
  }
}
