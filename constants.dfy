/**
 * The application-wide constants of the tuner (constants.ts).
 */
module Constants {

  /** Default reference pitch of A4, in Hz. */
  const DefaultA4Frequency: real := 440.0

  /** The twelve pitch-class labels, starting at C. */
  const NoteNames: seq<string> := ["C", "C#", "D", "D#", "E", "F", "F#", "G", "G#", "A", "A#", "B"]

  /** Number of keys of a standard piano; key 1 is A0, key 49 is A4. */
  const PianoKeyCount: int := 88

  /** A detected pitch is forwarded only when its clarity exceeds this. */
  const ClarityThreshold: real := 0.9

  /** Half-width, in cents, of the tuner gauge. */
  const CentsRange: real := 50.0

  /** The name table has one entry per pitch class, C first and A tenth. */
  lemma NoteNamesShape()
    ensures |NoteNames| == 12
    ensures NoteNames[0] == "C" && NoteNames[9] == "A" && NoteNames[11] == "B"
  {
  }

  /** No two pitch classes share a label. */
  lemma NoteNamesDistinct()
    ensures forall i, j :: 0 <= i < j < |NoteNames| ==> NoteNames[i] != NoteNames[j]
  {
  }

  /** The numeric settings lie where their uses need them. */
  lemma SettingsInRange()
    ensures 0.0 <= ClarityThreshold <= 1.0
    ensures DefaultA4Frequency > 0.0 && CentsRange > 0.0
    ensures PianoKeyCount == 88
  {
  }
}
