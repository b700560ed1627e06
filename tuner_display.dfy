/**
 * The pure display logic of components/TunerDisplay.tsx: the in-tune test,
 * the needle rotation, the colour bands of the cents readout and of the
 * needle, and the list of tick marks and labels drawn on the gauge. The SVG
 * coordinates (sines and cosines) are not modelled; each tick keeps its cents
 * value, whether it is major, and its stroke colour.
 */
module TunerDisplay {
  import opened Wrappers
  import opened Constants
  import opened MusicUtils

  /** Half the angular spread of the gauge, in degrees. */
  const GaugeArcDegrees: real := 75.0

  /** Readings this close to the target (in cents) count as in tune. */
  const InTuneCents: real := 2.0

  /** Readings this close to the target (in cents) are shown in yellow, not red. */
  const NearCents: real := 10.0

  const TextGreen: string := "text-green-400"
  const TextYellow: string := "text-yellow-400"
  const TextRed: string := "text-red-400"
  const StrokeGreen: string := "stroke-green-400"
  const StrokeYellow: string := "stroke-yellow-400"
  const StrokeRed: string := "stroke-red-400"
  const StrokeGray: string := "stroke-gray-500"

  /** Stroke of the centre tick when in tune, and of every other tick. */
  const TickGlow: string := "#4ade80"
  const TickGray: string := "#6b7280"

  /** Math.abs. */
  function Abs(x: real): (r: real)
    ensures r >= 0.0 && (r == x || r == -x)
  {
    if x < 0.0 then -x else x
  }

  /** inTune: there is a note and it is less than 2 cents off. */
  function InTune(note: Option<NoteDetails>): (inTune: bool)
    ensures inTune <==> note.Some? && -InTuneCents < note.value.cents < InTuneCents
  {
    note.Some? && Abs(note.value.cents) < InTuneCents
  }

  /**
   * centsToDegrees: clamp to [-50, 50] cents, then scale onto [-75, 75]
   * degrees.
   */
  function CentsToDegrees(cents: real): (degrees: real)
    ensures -GaugeArcDegrees <= degrees <= GaugeArcDegrees
    ensures -CentsRange <= cents <= CentsRange ==> degrees == cents * 1.5
    ensures cents >= CentsRange ==> degrees == GaugeArcDegrees
    ensures cents <= -CentsRange ==> degrees == -GaugeArcDegrees
  {
    var clampedCents := Max(-CentsRange, Min(CentsRange, cents));
    (clampedCents / CentsRange) * GaugeArcDegrees
  }

  /** Math.max. */
  function Max(a: real, b: real): (m: real)
    ensures m >= a && m >= b && (m == a || m == b)
  {
    if a >= b then a else b
  }

  /** Math.min. */
  function Min(a: real, b: real): (m: real)
    ensures m <= a && m <= b && (m == a || m == b)
  {
    if a <= b then a else b
  }

  /** Zero cents points the needle straight up. */
  lemma CentsToDegreesZero()
    ensures CentsToDegrees(0.0) == 0.0
  {
  }

  /** A sharper reading never turns the needle further left. */
  lemma CentsToDegreesMonotone(a: real, b: real)
    requires a <= b
    ensures CentsToDegrees(a) <= CentsToDegrees(b)
  {
  }

  /** The needle is symmetric: flat and sharp by the same amount turn it equally far. */
  lemma CentsToDegreesOdd(c: real)
    ensures CentsToDegrees(-c) == -CentsToDegrees(c)
  {
  }

  /** rotation: the needle angle, 0 when there is no note. */
  function Rotation(note: Option<NoteDetails>): (degrees: real)
    ensures note.None? ==> degrees == 0.0
    ensures note.Some? ==> degrees == CentsToDegrees(note.value.cents)
    ensures -GaugeArcDegrees <= degrees <= GaugeArcDegrees
  {
    if note.Some? then CentsToDegrees(note.value.cents) else 0.0
  }

  /** The three colour bands shared by the cents readout and the needle. */
  datatype Band = Green | Yellow | Red

  /** The band of a reading: green below 2 cents off, yellow below 10, red otherwise. */
  function BandOf(cents: real): (b: Band)
    ensures b == Green <==> Abs(cents) < InTuneCents
    ensures b == Yellow <==> InTuneCents <= Abs(cents) < NearCents
    ensures b == Red <==> Abs(cents) >= NearCents
  {
    if Abs(cents) < InTuneCents then Green
    else if Abs(cents) < NearCents then Yellow
    else Red
  }

  /** The text class that shows a band: "text-" followed by the band's colour. */
  function TextClass(b: Band): (cls: string)
    ensures |cls| > 5 && cls[..5] == "text-"
  {
    match b
    case Green => TextGreen
    case Yellow => TextYellow
    case Red => TextRed
  }

  /** The stroke class that shows a band: "stroke-" followed by the same colour as its text class. */
  function StrokeClass(b: Band): (cls: string)
    ensures |cls| > 7 && cls[..7] == "stroke-" && cls[7..] == TextClass(b)[5..]
  {
    match b
    case Green => StrokeGreen
    case Yellow => StrokeYellow
    case Red => StrokeRed
  }

  /** Different bands get different classes, both as text and as stroke. */
  lemma ClassesTellBandsApart(a: Band, b: Band)
    ensures TextClass(a) == TextClass(b) ==> a == b
    ensures StrokeClass(a) == StrokeClass(b) ==> a == b
  {
  }

  /** getCentsColor: green below 2 cents, yellow below 10, red otherwise. */
  function CentsColor(cents: real): (cls: string)
    ensures cls == TextClass(BandOf(cents))
    ensures cls == TextGreen <==> Abs(cents) < InTuneCents
    ensures cls == TextYellow <==> InTuneCents <= Abs(cents) < NearCents
    ensures cls == TextRed <==> Abs(cents) >= NearCents
  {
    if Abs(cents) < InTuneCents then TextGreen
    else if Abs(cents) < NearCents then TextYellow
    else TextRed
  }

  /** getNeedleColorClass: the same three bands as stroke classes. */
  function NeedleColor(cents: real): (cls: string)
    ensures cls == StrokeClass(BandOf(cents))
    ensures cls == StrokeGreen <==> Abs(cents) < InTuneCents
    ensures cls == StrokeYellow <==> InTuneCents <= Abs(cents) < NearCents
    ensures cls == StrokeRed <==> Abs(cents) >= NearCents
  {
    if Abs(cents) < InTuneCents then StrokeGreen
    else if Abs(cents) < NearCents then StrokeYellow
    else StrokeRed
  }

  /** needleColorClass: gray without a note, otherwise the band of its cents. */
  function NeedleColorClass(note: Option<NoteDetails>): (cls: string)
    ensures note.None? ==> cls == StrokeGray
    ensures note.Some? ==> cls == NeedleColor(note.value.cents)
    ensures cls != StrokeGray <==> note.Some?
  {
    if note.Some? then NeedleColor(note.value.cents) else StrokeGray
  }

  /** The needle and the readout always show the same band. */
  lemma NeedleMatchesReadout(cents: real)
    ensures forall b :: CentsColor(cents) == TextClass(b) <==> NeedleColor(cents) == StrokeClass(b)
  {
    forall b: Band
      ensures CentsColor(cents) == TextClass(b) <==> NeedleColor(cents) == StrokeClass(b)
    {
      ClassesTellBandsApart(b, BandOf(cents));
    }
  }

  /** A note is in tune exactly when its readout is green, and then the needle is green too. */
  lemma InTuneIsGreen(note: Option<NoteDetails>)
    ensures InTune(note) <==> note.Some? && CentsColor(note.value.cents) == TextGreen
    ensures InTune(note) <==> NeedleColorClass(note) == StrokeGreen
  {
  }

  // ---------------------------------------------------------------------
  // The tick marks of the gauge
  // ---------------------------------------------------------------------

  /** One element pushed by the tick loop: a tick line or a text label. */
  datatype TickMark =
    | Line(cents: int, major: bool, stroke: string)
    | Label(cents: int)

  /** Every tenth cent gets a major tick. */
  predicate IsMajor(cents: int)
  {
    cents % 10 == 0
  }

  /** What one turn of the loop pushes for a cents value: its line, then its label if major. */
  function TickAt(cents: int, inTune: bool): (ticks: seq<TickMark>)
    ensures |ticks| == if IsMajor(cents) then 2 else 1
    ensures ticks[0].Line? && ticks[0].cents == cents && ticks[0].major == IsMajor(cents)
    ensures IsMajor(cents) ==> ticks[1] == Label(cents)
  {
    var major := IsMajor(cents);
    var stroke := if major && cents == 0 && inTune then TickGlow else TickGray;
    if major then [Line(cents, major, stroke), Label(cents)] else [Line(cents, major, stroke)]
  }

  /** Everything the loop pushes for the count cents values first, first + 1, .... */
  function TickRun(first: int, count: nat, inTune: bool): (ticks: seq<TickMark>)
    ensures |ticks| == count + MultiplesOfTenBelow(first + count) - MultiplesOfTenBelow(first)
  {
    if count == 0 then []
    else
      MultiplesOfTenStep(first + count - 1);
      TickRun(first, count - 1, inTune) + TickAt(first + count - 1, inTune)
  }

  /** The Ticks loop, over every cent from -50 to 50. */
  method Ticks(inTune: bool) returns (ticks: seq<TickMark>)
    ensures ticks == TickRun(-50, 101, inTune)
  {
    ticks := [];
    var cents := -50;
    while cents <= 50
      invariant -50 <= cents <= 51
      invariant ticks == TickRun(-50, cents + 50, inTune)
    {
      ghost var before := ticks;
      var isMajorTick := cents % 10 == 0;
      var stroke := if isMajorTick && cents == 0 && inTune then TickGlow else TickGray;
      ticks := ticks + [Line(cents, isMajorTick, stroke)];
      if isMajorTick {
        ticks := ticks + [Label(cents)];
        assert ticks == before + [Line(cents, isMajorTick, stroke), Label(cents)];
      }
      assert ticks == before + TickAt(cents, inTune);
      cents := cents + 1;
    }
  }

  /** The cents values of the tick lines, in order. */
  function LineCents(ticks: seq<TickMark>): seq<int>
  {
    if ticks == [] then []
    else (if ticks[0].Line? then [ticks[0].cents] else []) + LineCents(ticks[1..])
  }

  /** The cents values of the labels, in order. */
  function LabelCents(ticks: seq<TickMark>): seq<int>
  {
    if ticks == [] then []
    else (if ticks[0].Label? then [ticks[0].cents] else []) + LabelCents(ticks[1..])
  }

  /** The line projection distributes over concatenation. */
  lemma {:induction false} LineCentsAppend(a: seq<TickMark>, b: seq<TickMark>)
    ensures LineCents(a + b) == LineCents(a) + LineCents(b)
  {
    if a == [] {
      assert a + b == b;
    } else {
      LineCentsAppend(a[1..], b);
      assert (a + b)[1..] == a[1..] + b;
      assert (a + b)[0] == a[0];
      assert LineCents(a + b) == (if a[0].Line? then [a[0].cents] else []) + LineCents(a[1..] + b);
    }
  }

  /** The label projection distributes over concatenation. */
  lemma {:induction false} LabelCentsAppend(a: seq<TickMark>, b: seq<TickMark>)
    ensures LabelCents(a + b) == LabelCents(a) + LabelCents(b)
  {
    if a == [] {
      assert a + b == b;
    } else {
      LabelCentsAppend(a[1..], b);
      assert (a + b)[1..] == a[1..] + b;
      assert (a + b)[0] == a[0];
      assert LabelCents(a + b) == (if a[0].Label? then [a[0].cents] else []) + LabelCents(a[1..] + b);
    }
  }

  /** One turn draws one line and labels it exactly when it is major. */
  lemma TickAtCents(cents: int, inTune: bool)
    ensures LineCents(TickAt(cents, inTune)) == [cents]
    ensures LabelCents(TickAt(cents, inTune)) == if IsMajor(cents) then [cents] else []
  {
    var t := TickAt(cents, inTune);
    if IsMajor(cents) {
      var rest := t[1..];
      assert rest == [Label(cents)] && rest[1..] == [];
      assert LineCents(rest) == [] && LabelCents(rest) == [cents];
    } else {
      assert t[1..] == [];
    }
  }

  /** The number of multiples of 10 below n, counted from a fixed origin. */
  function MultiplesOfTenBelow(n: int): int
  {
    (n + 9) / 10
  }

  /** Moving n up by one adds one multiple of 10 exactly when n itself is one. */
  lemma MultiplesOfTenStep(n: int)
    ensures MultiplesOfTenBelow(n + 1) == MultiplesOfTenBelow(n) + if n % 10 == 0 then 1 else 0
  {
  }

  /** The loop over count cents values from first draws one line per cent, in order. */
  lemma {:induction false} TickRunLines(first: int, count: nat, inTune: bool)
    ensures |LineCents(TickRun(first, count, inTune))| == count
    ensures forall i :: 0 <= i < count ==> LineCents(TickRun(first, count, inTune))[i] == first + i
  {
    if count > 0 {
      var c := first + count - 1;
      TickRunLines(first, count - 1, inTune);
      LineCentsAppend(TickRun(first, count - 1, inTune), TickAt(c, inTune));
      TickAtCents(c, inTune);
    }
  }

  /** It labels exactly the multiples of 10 among those cents values. */
  lemma {:induction false} TickRunLabels(first: int, count: nat, inTune: bool)
    ensures forall c :: c in LabelCents(TickRun(first, count, inTune)) <==>
              first <= c < first + count && c % 10 == 0
  {
    if count > 0 {
      var c := first + count - 1;
      TickRunLabels(first, count - 1, inTune);
      LabelCentsAppend(TickRun(first, count - 1, inTune), TickAt(c, inTune));
      TickAtCents(c, inTune);
    }
  }

  /** The number of labels is the number of multiples of 10 among those cents values. */
  lemma {:induction false} TickRunLabelCount(first: int, count: nat, inTune: bool)
    ensures |LabelCents(TickRun(first, count, inTune))|
              == MultiplesOfTenBelow(first + count) - MultiplesOfTenBelow(first)
  {
    if count > 0 {
      var c := first + count - 1;
      var earlier := TickRun(first, count - 1, inTune);
      TickRunLabelCount(first, count - 1, inTune);
      LabelCentsAppend(earlier, TickAt(c, inTune));
      TickAtCents(c, inTune);
      MultiplesOfTenStep(c);
      assert |LabelCents(TickRun(first, count, inTune))|
               == |LabelCents(earlier)| + if IsMajor(c) then 1 else 0;
    }
  }

  /** The gauge has 101 tick lines, for -50 to 50 cents, and 11 labels, at -50, -40, ..., 50. */
  lemma GaugeTicks(inTune: bool)
    ensures var ticks := TickRun(-50, 101, inTune);
            && |ticks| == 112
            && |LineCents(ticks)| == 101
            && (forall i :: 0 <= i < 101 ==> LineCents(ticks)[i] == i - 50)
            && |LabelCents(ticks)| == 11
            && forall c :: c in LabelCents(ticks) <==> -50 <= c <= 50 && c % 10 == 0
  {
    TickRunLines(-50, 101, inTune);
    TickRunLabels(-50, 101, inTune);
    TickRunLabelCount(-50, 101, inTune);
  }

  /** Only the centre tick can glow, and it does exactly when the note is in tune. */
  lemma {:induction false} OnlyCentreGlows(first: int, count: nat, inTune: bool)
    ensures forall t :: t in TickRun(first, count, inTune) && t.Line? ==>
              (t.stroke == TickGlow <==> t.cents == 0 && inTune)
  {
    if count > 0 {
      OnlyCentreGlows(first, count - 1, inTune);
    }
  }
}
