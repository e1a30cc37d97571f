/** The nine modes: their interval vectors, the key spellings offered for
    each, their Roman-numeral rows, and the two scale generators — the one
    `update` uses, which expands a root id into 22 ascending ids, and the
    unused helper that adds each raw interval to the root. */
module Modes {
  import opened Basics
  import opened Pitch

  datatype Mode = Major | Dorian | Phrygian | Lydian | Mixolydian | Minor | Harmonic | Melodic | Locrian

  /** The keys of MODES in declaration order. */
  const AllModes: seq<Mode> := [Major, Dorian, Phrygian, Lydian, Mixolydian, Minor, Harmonic, Melodic, Locrian]

  function ModeName(m: Mode): string {
    match m
    case Major => "Major"
    case Dorian => "Dorian"
    case Phrygian => "Phrygian"
    case Lydian => "Lydian"
    case Mixolydian => "Mixolydian"
    case Minor => "Minor"
    case Harmonic => "Harmonic"
    case Melodic => "Melodic"
    case Locrian => "Locrian"
  }

  /** Looking a mode name up in MODES (or MODE_KEYS, or MODE_ROMAN_NUMERALS,
      which have the same nine keys): absent for any other string. */
  function ParseMode(name: string): (r: Option<Mode>)
    ensures r.Some? ==> ModeName(r.value) == name
  {
    if name == "Major" then Some(Major)
    else if name == "Dorian" then Some(Dorian)
    else if name == "Phrygian" then Some(Phrygian)
    else if name == "Lydian" then Some(Lydian)
    else if name == "Mixolydian" then Some(Mixolydian)
    else if name == "Minor" then Some(Minor)
    else if name == "Harmonic" then Some(Harmonic)
    else if name == "Melodic" then Some(Melodic)
    else if name == "Locrian" then Some(Locrian)
    else None
  }

  /** Every mode is found under its own name, and the mode list holds each
      mode once. */
  lemma ParseModeName(m: Mode)
    ensures ParseMode(ModeName(m)) == Some(m)
    ensures m in AllModes
  {
  }

  /** MODES: the seven semitone steps of each mode. */
  function Intervals(m: Mode): seq<nat> {
    match m
    case Major => [2, 2, 1, 2, 2, 2, 1]
    case Dorian => [2, 1, 2, 2, 2, 1, 2]
    case Phrygian => [1, 2, 2, 2, 1, 2, 2]
    case Lydian => [2, 2, 2, 1, 2, 2, 1]
    case Mixolydian => [2, 2, 1, 2, 2, 1, 2]
    case Minor => [2, 1, 2, 2, 1, 2, 2]
    case Harmonic => [2, 1, 2, 2, 1, 3, 1]
    case Melodic => [2, 1, 2, 2, 2, 2, 1]
    case Locrian => [1, 2, 2, 1, 2, 2, 2]
  }

  /** Semitones from the root up to scale degree `d`: the sum of the first
      `d` steps. */
  function DegreeOffset(m: Mode, d: nat): nat
    requires d <= 7
  {
    if d == 0 then 0 else DegreeOffset(m, d - 1) + StepAt(m, d - 1)
  }

  function StepAt(m: Mode, d: nat): nat
    requires d < 7
  {
    IntervalsShape(m);
    Intervals(m)[d]
  }

  lemma IntervalsShape(m: Mode)
    ensures |Intervals(m)| == 7
  {
  }

  /** Every MODES vector has seven steps of one to three semitones that add
      up to one octave, and the degrees below the octave climb strictly. */
  lemma IntervalsWellFormed(m: Mode)
    ensures |Intervals(m)| == 7
    ensures forall d | 0 <= d < 7 :: 1 <= Intervals(m)[d] <= 3
    ensures DegreeOffset(m, 7) == 12
    ensures forall d | 0 <= d < 7 :: DegreeOffset(m, d) < 12
  {
    StepsInRange(m);
    OctaveSum(m);
    forall d | 0 <= d < 7
      ensures DegreeOffset(m, d) < 12
    {
      OffsetsClimb(m, d, 7);
    }
  }

  /** Each step is one to three semitones. */
  lemma StepsInRange(m: Mode)
    ensures |Intervals(m)| == 7
    ensures forall d | 0 <= d < 7 :: 1 <= Intervals(m)[d] <= 3
  {
  }

  /** The seven steps add up to one octave. */
  lemma OctaveSum(m: Mode)
    ensures DegreeOffset(m, 7) == 12
  {
    match m
    case Major =>
    case Dorian =>
    case Phrygian =>
    case Lydian =>
    case Mixolydian =>
    case Minor =>
    case Harmonic =>
    case Melodic =>
    case Locrian =>
  }

  /** Offsets climb strictly with the degree, every step being positive. */
  lemma {:induction false} OffsetsClimb(m: Mode, a: nat, b: nat)
    requires a < b <= 7
    ensures DegreeOffset(m, a) < DegreeOffset(m, b)
    decreases b - a
  {
    StepsInRange(m);
    if a + 1 < b {
      OffsetsClimb(m, a + 1, b);
    }
  }

  /** The id of entry `k` of the expanded scale: `k / 7` octaves above the
      root, plus the offset of degree `k % 7`. */
  function ScaleId(x1: int, m: Mode, k: nat): int {
    x1 + 12 * (k / 7) + DegreeOffset(m, k % 7)
  }

  /** Consecutive entries of the expanded scale are one step of the mode
      apart, the step cycling through the vector. */
  lemma ScaleIdStep(x1: int, m: Mode, k: nat)
    ensures ScaleId(x1, m, k + 1) == ScaleId(x1, m, k) + Intervals(m)[k % 7]
  {
    StepsInRange(m);
    OctaveSum(m);
    var q, r := k / 7, k % 7;
    assert k == 7 * q + r;
    if r == 6 {
      assert (k + 1) / 7 == q + 1 && (k + 1) % 7 == 0;
    } else {
      assert (k + 1) / 7 == q && (k + 1) % 7 == r + 1;
    }
  }

  /** getScaleNotesFromX1 as a whole: 22 ids starting at the root. */
  function ScaleFromX1(x1: int, m: Mode): (notes: seq<int>)
    ensures |notes| == 22 && notes[0] == x1
    ensures forall k | 0 <= k < 21 :: notes[k] < notes[k + 1]
    ensures forall k | 0 <= k < 15 :: notes[k + 7] == notes[k] + 12
  {
    var notes := seq(22, k requires 0 <= k < 22 => ScaleId(x1, m, k));
    StepsInRange(m);
    forall k | 0 <= k < 21
      ensures notes[k] < notes[k + 1]
    {
      ScaleIdStep(x1, m, k);
    }
    forall k | 0 <= k < 15
      ensures notes[k + 7] == notes[k] + 12
    {
      assert (k + 7) / 7 == k / 7 + 1 && (k + 7) % 7 == k % 7;
    }
    notes
  }

  /** Entry `k` of the expanded scale. */
  lemma ScaleEntry(x1: int, m: Mode, k: nat)
    requires k < 22
    ensures ScaleFromX1(x1, m)[k] == ScaleId(x1, m, k)
  {
  }

  /** The loop of getScaleNotesFromX1: start at the root and add the steps of
      the mode, cycling through the vector, 21 times. It produces exactly
      the closed-form expansion. */
  method ExpandScale(x1: int, m: Mode) returns (notes: seq<int>)
    ensures notes == ScaleFromX1(x1, m)
  {
    var intervals := Intervals(m);
    StepsInRange(m);
    notes := [x1];
    var current := x1;
    var i := 0;
    while i < 21
      invariant 0 <= i <= 21
      invariant |notes| == i + 1
      invariant forall k | 0 <= k <= i :: notes[k] == ScaleId(x1, m, k)
      invariant current == notes[i]
    {
      var step := intervals[i % 7];
      ScaleIdStep(x1, m, i);
      current := current + step;
      notes := notes + [current];
      i := i + 1;
    }
  }

  /** Two root ids an octave apart expand to scales an octave apart. */
  lemma ScaleTransposes(x1: int, m: Mode, k: nat)
    requires k < 22
    ensures ScaleFromX1(x1 + 12, m)[k] == ScaleFromX1(x1, m)[k] + 12
  {
  }

  /** MODE_ROMAN_NUMERALS. */
  function RomanNumerals(m: Mode): (r: seq<string>)
    ensures |r| == 7
  {
    match m
    case Major => ["I", "ii", "iii", "IV", "V", "vi", "vii°"]
    case Dorian => ["i", "ii", "III", "IV", "v", "vi°", "VII"]
    case Phrygian => ["i", "II", "III", "iv", "v°", "VI", "vii"]
    case Lydian => ["I", "II", "iii", "#iv°", "V", "vi", "vii"]
    case Mixolydian => ["I", "ii", "iii°", "IV", "v", "vi", "VII"]
    case Minor => ["i", "ii°", "III", "iv", "v", "VI", "VII"]
    case Harmonic => ["i", "ii°", "III+", "iv", "V", "VI", "vii°"]
    case Melodic => ["i", "ii", "III", "IV", "V", "vi°", "vii°"]
    case Locrian => ["i°", "II", "iii", "iv", "V", "VI", "VII"]
  }

  /** MODE_KEYS: the key spellings offered for each mode. */
  function ModeKeys(m: Mode): seq<string> {
    match m
    case Major => ["C", "Db", "D", "Eb", "E", "F", "F#", "Gb", "G", "Ab", "A", "Bb", "B"]
    case Minor => ["C", "C#", "D", "D#", "Eb", "E", "F", "F#", "G", "G#", "A", "Bb", "B"]
    case Dorian => ["C", "C#", "D", "Eb", "E", "F", "F#", "G", "G#", "Ab", "A", "Bb", "B"]
    case Phrygian => ["C", "C#", "D", "D#", "E", "F", "F#", "G", "G#", "A", "A#", "Bb", "B"]
    case Lydian => ["C", "D", "Db", "E", "Eb", "F", "Gb", "G", "Ab", "A", "Bb", "B"]
    case Mixolydian => ["C", "D", "E", "F", "F#", "G", "A", "A#", "B", "Bb", "C#", "D#", "G#"]
    case Locrian => ["C", "C#", "D", "D#", "E", "F", "F#", "G", "G#", "A", "A#", "B", "Bb"]
    case Harmonic => ["C", "C#", "D", "D#", "Eb", "E", "F", "F#", "G", "G#", "A", "Bb", "B"]
    case Melodic => ["C", "C#", "D", "D#", "Eb", "E", "F", "F#", "G", "G#", "A", "Bb", "B"]
  }

  /** The black keys (pitch classes) a mode offers under their sharp name,
      and those it offers under their flat name; every mode offers all
      seven naturals. */
  function SharpKeys(m: Mode): set<nat> {
    match m
    case Major => {6}
    case Minor => {1, 3, 6, 8}
    case Dorian => {1, 6, 8}
    case Phrygian => {1, 3, 6, 8, 10}
    case Lydian => {}
    case Mixolydian => {1, 3, 6, 8, 10}
    case Locrian => {1, 3, 6, 8, 10}
    case Harmonic => {1, 3, 6, 8}
    case Melodic => {1, 3, 6, 8}
  }

  function FlatKeys(m: Mode): set<nat> {
    match m
    case Major => {1, 3, 6, 8, 10}
    case Minor => {3, 10}
    case Dorian => {3, 8, 10}
    case Phrygian => {10}
    case Lydian => {1, 3, 6, 8, 10}
    case Mixolydian => {10}
    case Locrian => {10}
    case Harmonic => {3, 10}
    case Melodic => {3, 10}
  }

  /** A key spelling the mode lists, read off its pitch class and its sign. */
  predicate KeyListed(m: Mode, baseKey: string) {
    match PitchClass(baseKey)
    case None => false
    case Some(c) =>
      if |baseKey| == 1 then true
      else if baseKey[1] == '#' then c in SharpKeys(m)
      else c in FlatKeys(m)
  }

  /** isKeyValidForMode: the key is listed for the mode; an unknown mode
      lists nothing. */
  predicate IsKeyValidForMode(baseKey: string, modeName: string)
    ensures IsKeyValidForMode(baseKey, modeName) <==>
      ParseMode(modeName).Some? && baseKey in ModeKeys(ParseMode(modeName).value)
  {
    match ParseMode(modeName)
    case Some(m) => KeyListedIsTable(m, baseKey); KeyListed(m, baseKey)
    case None => false
  }

  /** The sign-and-class reading of the key lists is exactly MODE_KEYS. */
  lemma KeyListedIsTable(m: Mode, baseKey: string)
    ensures KeyListed(m, baseKey) <==> baseKey in ModeKeys(m)
  {
    if KeyListed(m, baseKey) {
      KeyListedInTable(m, baseKey);
    }
    if baseKey in ModeKeys(m) {
      var j :| 0 <= j < |ModeKeys(m)| && ModeKeys(m)[j] == baseKey;
      TableKeyListed(m, j);
    }
  }

  /** Every entry of MODE_KEYS is read as listed. */
  lemma TableKeyListed(m: Mode, j: nat)
    requires j < |ModeKeys(m)|
    ensures KeyListed(m, ModeKeys(m)[j])
  {
    match m
    case Major => MajorKeysListed(j);
    case Minor => MinorKeysListed(j);
    case Dorian => DorianKeysListed(j);
    case Phrygian => PhrygianKeysListed(j);
    case Lydian => LydianKeysListed(j);
    case Mixolydian => MixolydianKeysListed(j);
    case Locrian => LocrianKeysListed(j);
    case Harmonic => HarmonicKeysListed(j);
    case Melodic => MelodicKeysListed(j);
  }

  /** The entries of one row of MODE_KEYS, mode by mode. */
  lemma MajorKeysListed(j: nat)
    requires j < |ModeKeys(Major)|
    ensures KeyListed(Major, ModeKeys(Major)[j])
  {
  }

  lemma MinorKeysListed(j: nat)
    requires j < |ModeKeys(Minor)|
    ensures KeyListed(Minor, ModeKeys(Minor)[j])
  {
  }

  lemma DorianKeysListed(j: nat)
    requires j < |ModeKeys(Dorian)|
    ensures KeyListed(Dorian, ModeKeys(Dorian)[j])
  {
  }

  lemma PhrygianKeysListed(j: nat)
    requires j < |ModeKeys(Phrygian)|
    ensures KeyListed(Phrygian, ModeKeys(Phrygian)[j])
  {
  }

  lemma LydianKeysListed(j: nat)
    requires j < |ModeKeys(Lydian)|
    ensures KeyListed(Lydian, ModeKeys(Lydian)[j])
  {
  }

  lemma MixolydianKeysListed(j: nat)
    requires j < |ModeKeys(Mixolydian)|
    ensures KeyListed(Mixolydian, ModeKeys(Mixolydian)[j])
  {
  }

  lemma LocrianKeysListed(j: nat)
    requires j < |ModeKeys(Locrian)|
    ensures KeyListed(Locrian, ModeKeys(Locrian)[j])
  {
  }

  lemma HarmonicKeysListed(j: nat)
    requires j < |ModeKeys(Harmonic)|
    ensures KeyListed(Harmonic, ModeKeys(Harmonic)[j])
  {
  }

  lemma MelodicKeysListed(j: nat)
    requires j < |ModeKeys(Melodic)|
    ensures KeyListed(Melodic, ModeKeys(Melodic)[j])
  {
  }

  /** A key read as listed is an entry of MODE_KEYS: it is the sharp name of
      its class, or the flat partner of that name. */
  lemma KeyListedInTable(m: Mode, baseKey: string)
    requires KeyListed(m, baseKey)
    ensures baseKey in ModeKeys(m)
  {
    var c := PitchClass(baseKey).value;
    PitchClassSpelling(baseKey);
    if baseKey == NoteNames[c] {
      SharpListed(m, c);
    } else {
      FlatListed(m, c);
    }
  }

  lemma SharpListed(m: Mode, c: nat)
    requires c < 12 && KeyListed(m, NoteNames[c])
    ensures NoteNames[c] in ModeKeys(m)
  {
    NoteNamesResolve(c);
  }

  lemma FlatListed(m: Mode, c: nat)
    requires c < 12 && Partner(NoteNames[c]).Some? && KeyListed(m, Partner(NoteNames[c]).value)
    ensures Partner(NoteNames[c]).value in ModeKeys(m)
  {
    PartnerIsPairing(NoteNames[c]);
    PartnerSameClass(NoteNames[c]);
    NoteNamesResolve(c);
  }

  /** A key valid for its mode is a known spelling, so it resolves at octave
      4 in the note map, to id 36 plus its pitch class. */
  lemma ValidKeyResolves(baseKey: string, modeName: string)
    requires IsKeyValidForMode(baseKey, modeName)
    ensures PitchClass(baseKey).Some?
    ensures NoteId(baseKey + [OctaveDigit(4)]) == Some(36 + PitchClass(baseKey).value)
  {
    NoteIdOfSpelling(baseKey, PitchClass(baseKey).value, 4);
  }

  /** getScaleNotes, as written: for an unknown mode or a key that resolves
      neither directly nor through its partner, no notes; otherwise, for
      each step of the mode, the sharp name of root plus that one step —
      the raw step, not the running total. */
  function GetScaleNotes(key: string, modeName: string): (r: seq<string>)
    ensures |r| == 0 || |r| == 7
    ensures forall i | 0 <= i < |r| :: r[i] in NoteNames
  {
    match ParseMode(modeName)
    case None => []
    case Some(m) =>
      match PitchClass(key)
      case None => []
      case Some(rootIndex) => RawStepNotes(rootIndex, m)
  }

  /** The `intervals.map` of getScaleNotes: the sharp name of the root's
      pitch class raised by each step of the mode on its own. */
  function RawStepNotes(rootIndex: nat, m: Mode): (r: seq<string>)
    ensures |r| == 7
  {
    seq(7, i requires 0 <= i < 7 => NoteNames[(rootIndex + StepAt(m, i)) % 12])
  }

  /** The two error exits of getScaleNotes are its only empty results. */
  lemma GetScaleNotesErrors(key: string, modeName: string)
    ensures GetScaleNotes(key, modeName) == [] <==> ParseMode(modeName).None? || PitchClass(key).None?
  {
  }

  /** Entry `i` of getScaleNotes is the sharp name of the root raised by
      step `i` alone, so every entry lies one to three semitones above the
      root: none of them is the root, and the result is not the mode's scale. */
  lemma GetScaleNotesRawSteps(key: string, modeName: string, m: Mode, c: nat, i: nat)
    requires ParseMode(modeName) == Some(m) && PitchClass(key) == Some(c) && i < 7
    ensures |GetScaleNotes(key, modeName)| == 7 && |Intervals(m)| == 7
    ensures GetScaleNotes(key, modeName)[i] == NoteNames[(c + Intervals(m)[i]) % 12]
    ensures PitchClass(GetScaleNotes(key, modeName)[i]) == Some((c + Intervals(m)[i]) % 12)
    ensures PitchClass(GetScaleNotes(key, modeName)[i]) != Some(c)
  {
    assert GetScaleNotes(key, modeName) == RawStepNotes(c, m);
    RawStepEntry(c, m, i);
  }

  /** Entry `i` of the raw-step notes is the sharp name of root plus step `i`,
      which is never the root's own class. */
  lemma RawStepEntry(c: nat, m: Mode, i: nat)
    requires c < 12 && i < 7
    ensures |Intervals(m)| == 7
    ensures RawStepNotes(c, m)[i] == NoteNames[(c + Intervals(m)[i]) % 12]
    ensures PitchClass(RawStepNotes(c, m)[i]) == Some((c + Intervals(m)[i]) % 12)
    ensures (c + Intervals(m)[i]) % 12 != c
  {
    StepsInRange(m);
    var step := StepAt(m, i);
    assert RawStepNotes(c, m)[i] == NoteNames[(c + step) % 12];
    RawStepClass(c, step);
  }

  /** A raw step of one to three semitones never lands back on the root. */
  lemma RawStepClass(c: nat, step: nat)
    requires c < 12 && 1 <= step <= 3
    ensures PitchClass(NoteNames[(c + step) % 12]) == Some((c + step) % 12)
    ensures (c + step) % 12 != c
  {
    NoteNamesResolve((c + step) % 12);
  }

  /** For C major the helper yields D, D, C#, D, D, D, C# rather than the
      C major scale. */
  lemma GetScaleNotesCMajor()
    ensures GetScaleNotes("C", "Major") == ["D", "D", "C#", "D", "D", "D", "C#"]
  {
    assert ParseMode("Major") == Some(Major);
    assert PitchClass("C") == Some(0);
    var r := RawStepNotes(0, Major);
    assert r[0] == "D" && r[1] == "D" && r[2] == "C#" && r[3] == "D";
    assert r[4] == "D" && r[5] == "D" && r[6] == "C#";
  }
}
