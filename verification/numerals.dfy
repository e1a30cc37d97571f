/** Chord quality as the scale-note click reads it off the Roman-numeral
    table, and how that reading compares with the triads the scale actually
    stacks on each degree. */
module Numerals {
  import opened Modes
  import opened Chords

  datatype Quality = MajorChord | MinorChord | DiminishedChord | AugmentedChord

  /** The word shown after the chord's root. */
  function QualityName(q: Quality): string {
    match q
    case MajorChord => "Major"
    case MinorChord => "Minor"
    case DiminishedChord => "Diminished"
    case AugmentedChord => "Augmented"
  }

  /** The degree sign of a diminished numeral. */
  const DegreeSign: char := '°'

  predicate IsLower(c: char) {
    'a' <= c <= 'z'
  }

  /** `toUpperCase` on the characters the numeral table uses: the letters
      a..z are raised, everything else is kept. */
  function ToUpper(s: string): (r: string)
    ensures |r| == |s|
    ensures forall k | 0 <= k < |s| :: r[k] == if IsLower(s[k]) then (s[k] as int - 32) as char else s[k]
  {
    if |s| == 0 then []
    else [if IsLower(s[0]) then (s[0] as int - 32) as char else s[0]] + ToUpper(s[1..])
  }

  /** A numeral equals its upper-case form exactly when it has no
      lower-case letter. */
  lemma UpperFixed(s: string)
    ensures ToUpper(s) == s <==> forall k | 0 <= k < |s| :: !IsLower(s[k])
  {
    if forall k | 0 <= k < |s| :: !IsLower(s[k]) {
      assert forall k | 0 <= k < |s| :: ToUpper(s)[k] == s[k];
    } else {
      var k :| 0 <= k < |s| && IsLower(s[k]);
      assert ToUpper(s)[k] != s[k];
    }
  }

  /** The quality test of the scale-note click: a degree sign means
      diminished, otherwise a plus sign means augmented, otherwise a numeral
      equal to its upper-case form means major, and anything else minor. */
  function QualityOf(roman: string): (q: Quality)
    ensures q == DiminishedChord <==> DegreeSign in roman
    ensures q == AugmentedChord <==> DegreeSign !in roman && '+' in roman
  {
    if DegreeSign in roman then DiminishedChord
    else if '+' in roman then AugmentedChord
    else if roman == ToUpper(roman) then MajorChord
    else MinorChord
  }

  /** What the case test means: without a degree sign or a plus sign, the
      numeral is major exactly when it has no lower-case letter. */
  lemma QualityOfSpec(roman: string)
    ensures QualityOf(roman) == DiminishedChord <==> DegreeSign in roman
    ensures QualityOf(roman) == AugmentedChord <==> DegreeSign !in roman && '+' in roman
    ensures QualityOf(roman) == MajorChord <==>
      DegreeSign !in roman && '+' !in roman && forall k | 0 <= k < |roman| :: !IsLower(roman[k])
    ensures QualityOf(roman) == MinorChord <==>
      DegreeSign !in roman && '+' !in roman && exists k | 0 <= k < |roman| :: IsLower(roman[k])
  {
    UpperFixed(roman);
  }

  /** The step of the mode leaving degree `k`, counting round the octave. */
  function StepFrom(m: Mode, k: nat): nat {
    IntervalsShape(m);
    Intervals(m)[k % 7]
  }

  /** A triad by its third and its fifth, in semitones above its root. */
  datatype Shape = Shape(third: int, fifth: int)

  /** The shape of the triad on degree `d` of a mode: two steps up to the
      third, two more up to the fifth. */
  function TriadShape(m: Mode, d: nat): Shape {
    var third := StepFrom(m, d) + StepFrom(m, d + 1);
    Shape(third, third + StepFrom(m, d + 2) + StepFrom(m, d + 3))
  }

  /** The triad each quality names. */
  function QualityTemplate(q: Quality): Shape {
    match q
    case MajorChord => Shape(4, 7)
    case MinorChord => Shape(3, 7)
    case DiminishedChord => Shape(3, 6)
    case AugmentedChord => Shape(4, 8)
  }

  /** The triad clicked on degree `d` of any root has the shape of that
      degree. */
  lemma ClickedTriadHasShape(x1: int, m: Mode, d: nat)
    requires d < 7
    ensures var ids := BuildChordIds(ScaleFromX1(x1, m), d, 3);
      Shape(ids[1] - ids[0], ids[2] - ids[0]) == TriadShape(m, d)
  {
    ScaleEntry(x1, m, d);
    ScaleEntry(x1, m, d + 2);
    ScaleEntry(x1, m, d + 4);
    ThirdsAbove(x1, m, d);
  }

  /** Two steps of the scale from degree `d` make its third, four its fifth. */
  lemma ThirdsAbove(x1: int, m: Mode, d: nat)
    ensures ScaleId(x1, m, d + 2) - ScaleId(x1, m, d) == StepFrom(m, d) + StepFrom(m, d + 1)
    ensures ScaleId(x1, m, d + 4) - ScaleId(x1, m, d) == StepFrom(m, d) + StepFrom(m, d + 1) + StepFrom(m, d + 2) + StepFrom(m, d + 3)
  {
    ScaleIdStep(x1, m, d);
    ScaleIdStep(x1, m, d + 1);
    ScaleIdStep(x1, m, d + 2);
    ScaleIdStep(x1, m, d + 3);
  }

  /** The numeral table and the stacked thirds agree on 61 of the 63
      degrees: the quality read off the numeral names exactly the triad the
      scale builds there. The two exceptions are below. */
  lemma NumeralsMatchTriads(m: Mode, d: nat)
    requires d < 7
    requires !(m == Melodic && d == 2) && !(m == Locrian && d == 6)
    ensures TriadShape(m, d) == QualityTemplate(QualityOf(RomanNumerals(m)[d]))
  {
    match m
    case Major => NumeralsMatchMajor(d);
    case Dorian => NumeralsMatchDorian(d);
    case Phrygian => NumeralsMatchPhrygian(d);
    case Lydian => NumeralsMatchLydian(d);
    case Mixolydian => NumeralsMatchMixolydian(d);
    case Minor => NumeralsMatchMinor(d);
    case Harmonic => NumeralsMatchHarmonic(d);
    case Melodic => NumeralsMatchMelodic(d);
    case Locrian => NumeralsMatchLocrian(d);
  }

  // One lemma per mode, one case per degree: each case unfolds a single
  // numeral and a single stacked triad, which keeps every proof small; the
  // 63 cases in one lemma are far more costly for the solver.

  lemma NumeralsMatchMajor(d: nat)
    requires d < 7
    ensures TriadShape(Major, d) == QualityTemplate(QualityOf(RomanNumerals(Major)[d]))
  {
    if d == 0 {
      assert TriadShape(Major, 0) == QualityTemplate(QualityOf(RomanNumerals(Major)[0]));
    } else if d == 1 {
      assert TriadShape(Major, 1) == QualityTemplate(QualityOf(RomanNumerals(Major)[1]));
    } else if d == 2 {
      assert TriadShape(Major, 2) == QualityTemplate(QualityOf(RomanNumerals(Major)[2]));
    } else if d == 3 {
      assert TriadShape(Major, 3) == QualityTemplate(QualityOf(RomanNumerals(Major)[3]));
    } else if d == 4 {
      assert TriadShape(Major, 4) == QualityTemplate(QualityOf(RomanNumerals(Major)[4]));
    } else if d == 5 {
      assert TriadShape(Major, 5) == QualityTemplate(QualityOf(RomanNumerals(Major)[5]));
    } else {
      assert TriadShape(Major, 6) == QualityTemplate(QualityOf(RomanNumerals(Major)[6]));
    }
  }

  lemma NumeralsMatchDorian(d: nat)
    requires d < 7
    ensures TriadShape(Dorian, d) == QualityTemplate(QualityOf(RomanNumerals(Dorian)[d]))
  {
    if d == 0 {
      assert TriadShape(Dorian, 0) == QualityTemplate(QualityOf(RomanNumerals(Dorian)[0]));
    } else if d == 1 {
      assert TriadShape(Dorian, 1) == QualityTemplate(QualityOf(RomanNumerals(Dorian)[1]));
    } else if d == 2 {
      assert TriadShape(Dorian, 2) == QualityTemplate(QualityOf(RomanNumerals(Dorian)[2]));
    } else if d == 3 {
      assert TriadShape(Dorian, 3) == QualityTemplate(QualityOf(RomanNumerals(Dorian)[3]));
    } else if d == 4 {
      assert TriadShape(Dorian, 4) == QualityTemplate(QualityOf(RomanNumerals(Dorian)[4]));
    } else if d == 5 {
      assert TriadShape(Dorian, 5) == QualityTemplate(QualityOf(RomanNumerals(Dorian)[5]));
    } else {
      assert TriadShape(Dorian, 6) == QualityTemplate(QualityOf(RomanNumerals(Dorian)[6]));
    }
  }

  lemma NumeralsMatchPhrygian(d: nat)
    requires d < 7
    ensures TriadShape(Phrygian, d) == QualityTemplate(QualityOf(RomanNumerals(Phrygian)[d]))
  {
    if d == 0 {
      assert TriadShape(Phrygian, 0) == QualityTemplate(QualityOf(RomanNumerals(Phrygian)[0]));
    } else if d == 1 {
      assert TriadShape(Phrygian, 1) == QualityTemplate(QualityOf(RomanNumerals(Phrygian)[1]));
    } else if d == 2 {
      assert TriadShape(Phrygian, 2) == QualityTemplate(QualityOf(RomanNumerals(Phrygian)[2]));
    } else if d == 3 {
      assert TriadShape(Phrygian, 3) == QualityTemplate(QualityOf(RomanNumerals(Phrygian)[3]));
    } else if d == 4 {
      assert TriadShape(Phrygian, 4) == QualityTemplate(QualityOf(RomanNumerals(Phrygian)[4]));
    } else if d == 5 {
      assert TriadShape(Phrygian, 5) == QualityTemplate(QualityOf(RomanNumerals(Phrygian)[5]));
    } else {
      assert TriadShape(Phrygian, 6) == QualityTemplate(QualityOf(RomanNumerals(Phrygian)[6]));
    }
  }

  lemma NumeralsMatchLydian(d: nat)
    requires d < 7
    ensures TriadShape(Lydian, d) == QualityTemplate(QualityOf(RomanNumerals(Lydian)[d]))
  {
    if d == 0 {
      assert TriadShape(Lydian, 0) == QualityTemplate(QualityOf(RomanNumerals(Lydian)[0]));
    } else if d == 1 {
      assert TriadShape(Lydian, 1) == QualityTemplate(QualityOf(RomanNumerals(Lydian)[1]));
    } else if d == 2 {
      assert TriadShape(Lydian, 2) == QualityTemplate(QualityOf(RomanNumerals(Lydian)[2]));
    } else if d == 3 {
      assert TriadShape(Lydian, 3) == QualityTemplate(QualityOf(RomanNumerals(Lydian)[3]));
    } else if d == 4 {
      assert TriadShape(Lydian, 4) == QualityTemplate(QualityOf(RomanNumerals(Lydian)[4]));
    } else if d == 5 {
      assert TriadShape(Lydian, 5) == QualityTemplate(QualityOf(RomanNumerals(Lydian)[5]));
    } else {
      assert TriadShape(Lydian, 6) == QualityTemplate(QualityOf(RomanNumerals(Lydian)[6]));
    }
  }

  lemma NumeralsMatchMixolydian(d: nat)
    requires d < 7
    ensures TriadShape(Mixolydian, d) == QualityTemplate(QualityOf(RomanNumerals(Mixolydian)[d]))
  {
    if d == 0 {
      assert TriadShape(Mixolydian, 0) == QualityTemplate(QualityOf(RomanNumerals(Mixolydian)[0]));
    } else if d == 1 {
      assert TriadShape(Mixolydian, 1) == QualityTemplate(QualityOf(RomanNumerals(Mixolydian)[1]));
    } else if d == 2 {
      assert TriadShape(Mixolydian, 2) == QualityTemplate(QualityOf(RomanNumerals(Mixolydian)[2]));
    } else if d == 3 {
      assert TriadShape(Mixolydian, 3) == QualityTemplate(QualityOf(RomanNumerals(Mixolydian)[3]));
    } else if d == 4 {
      assert TriadShape(Mixolydian, 4) == QualityTemplate(QualityOf(RomanNumerals(Mixolydian)[4]));
    } else if d == 5 {
      assert TriadShape(Mixolydian, 5) == QualityTemplate(QualityOf(RomanNumerals(Mixolydian)[5]));
    } else {
      assert TriadShape(Mixolydian, 6) == QualityTemplate(QualityOf(RomanNumerals(Mixolydian)[6]));
    }
  }

  lemma NumeralsMatchMinor(d: nat)
    requires d < 7
    ensures TriadShape(Minor, d) == QualityTemplate(QualityOf(RomanNumerals(Minor)[d]))
  {
    if d == 0 {
      assert TriadShape(Minor, 0) == QualityTemplate(QualityOf(RomanNumerals(Minor)[0]));
    } else if d == 1 {
      assert TriadShape(Minor, 1) == QualityTemplate(QualityOf(RomanNumerals(Minor)[1]));
    } else if d == 2 {
      assert TriadShape(Minor, 2) == QualityTemplate(QualityOf(RomanNumerals(Minor)[2]));
    } else if d == 3 {
      assert TriadShape(Minor, 3) == QualityTemplate(QualityOf(RomanNumerals(Minor)[3]));
    } else if d == 4 {
      assert TriadShape(Minor, 4) == QualityTemplate(QualityOf(RomanNumerals(Minor)[4]));
    } else if d == 5 {
      assert TriadShape(Minor, 5) == QualityTemplate(QualityOf(RomanNumerals(Minor)[5]));
    } else {
      assert TriadShape(Minor, 6) == QualityTemplate(QualityOf(RomanNumerals(Minor)[6]));
    }
  }

  lemma NumeralsMatchHarmonic(d: nat)
    requires d < 7
    ensures TriadShape(Harmonic, d) == QualityTemplate(QualityOf(RomanNumerals(Harmonic)[d]))
  {
    if d == 0 {
      assert TriadShape(Harmonic, 0) == QualityTemplate(QualityOf(RomanNumerals(Harmonic)[0]));
    } else if d == 1 {
      assert TriadShape(Harmonic, 1) == QualityTemplate(QualityOf(RomanNumerals(Harmonic)[1]));
    } else if d == 2 {
      assert TriadShape(Harmonic, 2) == QualityTemplate(QualityOf(RomanNumerals(Harmonic)[2]));
    } else if d == 3 {
      assert TriadShape(Harmonic, 3) == QualityTemplate(QualityOf(RomanNumerals(Harmonic)[3]));
    } else if d == 4 {
      assert TriadShape(Harmonic, 4) == QualityTemplate(QualityOf(RomanNumerals(Harmonic)[4]));
    } else if d == 5 {
      assert TriadShape(Harmonic, 5) == QualityTemplate(QualityOf(RomanNumerals(Harmonic)[5]));
    } else {
      assert TriadShape(Harmonic, 6) == QualityTemplate(QualityOf(RomanNumerals(Harmonic)[6]));
    }
  }

  lemma NumeralsMatchMelodic(d: nat)
    requires d < 7 && d != 2
    ensures TriadShape(Melodic, d) == QualityTemplate(QualityOf(RomanNumerals(Melodic)[d]))
  {
    if d == 0 {
      assert TriadShape(Melodic, 0) == QualityTemplate(QualityOf(RomanNumerals(Melodic)[0]));
    } else if d == 1 {
      assert TriadShape(Melodic, 1) == QualityTemplate(QualityOf(RomanNumerals(Melodic)[1]));
    } else if d == 3 {
      assert TriadShape(Melodic, 3) == QualityTemplate(QualityOf(RomanNumerals(Melodic)[3]));
    } else if d == 4 {
      assert TriadShape(Melodic, 4) == QualityTemplate(QualityOf(RomanNumerals(Melodic)[4]));
    } else if d == 5 {
      assert TriadShape(Melodic, 5) == QualityTemplate(QualityOf(RomanNumerals(Melodic)[5]));
    } else {
      assert TriadShape(Melodic, 6) == QualityTemplate(QualityOf(RomanNumerals(Melodic)[6]));
    }
  }

  lemma NumeralsMatchLocrian(d: nat)
    requires d < 7 && d != 6
    ensures TriadShape(Locrian, d) == QualityTemplate(QualityOf(RomanNumerals(Locrian)[d]))
  {
    if d == 0 {
      assert TriadShape(Locrian, 0) == QualityTemplate(QualityOf(RomanNumerals(Locrian)[0]));
    } else if d == 1 {
      assert TriadShape(Locrian, 1) == QualityTemplate(QualityOf(RomanNumerals(Locrian)[1]));
    } else if d == 2 {
      assert TriadShape(Locrian, 2) == QualityTemplate(QualityOf(RomanNumerals(Locrian)[2]));
    } else if d == 3 {
      assert TriadShape(Locrian, 3) == QualityTemplate(QualityOf(RomanNumerals(Locrian)[3]));
    } else if d == 4 {
      assert TriadShape(Locrian, 4) == QualityTemplate(QualityOf(RomanNumerals(Locrian)[4]));
    } else {
      assert TriadShape(Locrian, 5) == QualityTemplate(QualityOf(RomanNumerals(Locrian)[5]));
    }
  }

  /** Melodic III and Locrian VII are labelled major, while the scale stacks
      an augmented and a minor triad there. */
  lemma NumeralMismatches()
    ensures QualityOf(RomanNumerals(Melodic)[2]) == MajorChord
    ensures TriadShape(Melodic, 2) == QualityTemplate(AugmentedChord)
    ensures QualityOf(RomanNumerals(Locrian)[6]) == MajorChord
    ensures TriadShape(Locrian, 6) == QualityTemplate(MinorChord)
  {
  }
}
