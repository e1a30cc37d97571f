/** The chord selection: the globals that the scale-note clicks, the
    Triads/7ths toggle, the inversion buttons, the reset and `update` read
    and write, and each of those handlers as a transition of them. */
module ChordState {
  import opened Basics
  import opened Pitch
  import opened Spelling
  import opened Modes
  import opened Chords
  import opened Numerals
  import opened Engine

  /** The selection globals; `chordLabel` is the text of the active-chord
      heading. */
  datatype Selection = Selection(
    chordType: ChordType,
    scaleIds: seq<int>,
    baseChordIds: seq<int>,
    currentChord: seq<Option<string>>,
    currentInversion: int,
    lastClickedScaleNote: Option<string>,
    lastClickedScaleId: Option<int>,
    chordLabel: string)

  /** The globals as the page loads them. */
  const Initial: Selection := Selection(Triad, [], [], [], 0, None, None, "")

  /** What the handlers keep true: the inversion is never negative, a base
      chord is empty, a triad or a seventh, and a non-empty base has its
      inversion among its own notes. */
  predicate Consistent(s: Selection) {
    && 0 <= s.currentInversion
    && (|s.baseChordIds| == 0 || |s.baseChordIds| == 3 || |s.baseChordIds| == 4)
    && (|s.baseChordIds| > 0 ==> s.currentInversion < |s.baseChordIds|)
  }

  /** The globals `update` writes: an invalid key drops the chord (but not
      the inversion), a mapped key stores its scale ids (the chord is
      left as it was), and an unmapped key changes nothing. */
  function ApplyUpdate(s: Selection, u: UpdateOutcome): (r: Selection)
    ensures u.Cleared? ==> r.baseChordIds == [] && r.currentChord == [] && r.chordLabel == ""
    ensures !u.Cleared? ==> r.baseChordIds == s.baseChordIds && r.currentChord == s.currentChord
    ensures u.Partial? || u.Rendered? ==> r.scaleIds == u.scaleIds
    ensures r.chordType == s.chordType && r.currentInversion == s.currentInversion
    ensures u.Cleared? || u.Unmapped? ==> r.scaleIds == s.scaleIds
    ensures r.lastClickedScaleId == s.lastClickedScaleId && r.lastClickedScaleNote == s.lastClickedScaleNote
    ensures !u.Cleared? ==> r.chordLabel == s.chordLabel
  {
    match u
    case Cleared => s.(baseChordIds := [], currentChord := [], chordLabel := "")
    case Unmapped => s
    case Partial(_, ids, _) => s.(scaleIds := ids)
    case Rendered(_, ids, _, _, _) => s.(scaleIds := ids)
  }

  /** setActiveInversion: with a base chord of three or more notes, store
      the normalised inversion; otherwise do nothing. */
  function SetActiveInversion(s: Selection, i: int): (r: Selection)
    ensures r.baseChordIds == s.baseChordIds && r.currentChord == s.currentChord && r.chordType == s.chordType
    ensures |s.baseChordIds| < 3 ==> r == s
    ensures |s.baseChordIds| >= 3 ==> 0 <= r.currentInversion < |s.baseChordIds|
    ensures |s.baseChordIds| >= 3 ==> r.currentInversion == i % |s.baseChordIds|
    ensures r == s.(currentInversion := r.currentInversion)
  {
    if |s.baseChordIds| < 3 then s
    else s.(currentInversion := NormalizeInversion(i, |s.baseChordIds|))
  }

  /** The ids of the chosen inversion (invIDs), the keys the keyboard
      highlights. */
  function ActiveVoicing(s: Selection): (r: seq<int>)
    requires |s.baseChordIds| >= 3
    ensures |r| == |s.baseChordIds|
  {
    Voicing(s.baseChordIds, s.currentInversion)
  }

  /** The chord-note labels setActiveInversion writes for inversion `i`. */
  function InversionLabels(base: seq<int>, i: int, displayed: set<string>): (r: seq<string>)
    requires |base| > 0
    ensures |r| <= |base|
  {
    ChordNoteLabels(Defined(IdNames(Voicing(base, i))), displayed)
  }

  /** Choosing inversion `i` and then voicing the stored inversion gives
      the voicing of `i` itself: the normalisation loses nothing. */
  lemma SetActiveInversionVoicing(s: Selection, i: int)
    requires |s.baseChordIds| >= 3
    ensures ActiveVoicing(SetActiveInversion(s, i)) == Voicing(s.baseChordIds, i)
  {
    VoicingNormalized(s.baseChordIds, i);
  }

  /** Every label of a voicing inside the id table has the pitch class of
      the id it labels. */
  lemma InversionLabelsKeepPitchClass(base: seq<int>, i: int, displayed: set<string>, k: nat)
    requires |base| > 0 && k < |base|
    requires forall j | 0 <= j < |base| :: 12 <= base[j] < 84
    ensures var v := Voicing(base, i);
      |InversionLabels(base, i, displayed)| == |base|
      && PitchClass(InversionLabels(base, i, displayed)[k]) == Some(v[k] % 12)
  {
    var v := Voicing(base, i);
    VoicingRotates(base, i);
    assert forall j | 0 <= j < |v| :: 12 <= v[j] < 96;
    var names := IdNames(v);
    assert forall j | 0 <= j < |v| :: names[j].Some?;
    var plain := seq(|v|, j requires 0 <= j < |v| => if 12 <= v[j] < 96 then IdToNote(v[j]).value else "");
    assert Defined(names) == plain;
    LabelKeepsPitchClass(v, displayed, k);
  }

  /** resetChordDisplay: clear the chord names and the heading, and go back
      to root position; the base chord, the scale and the remembered note
      and id are kept. */
  function ResetChordDisplay(s: Selection): (r: Selection)
    ensures r.currentChord == [] && r.chordLabel == ""
    ensures r == s.(currentChord := [], chordLabel := "", currentInversion := r.currentInversion)
    ensures r.baseChordIds == s.baseChordIds && r.chordType == s.chordType
    ensures |s.baseChordIds| >= 3 ==> r.currentInversion == 0
    ensures |s.baseChordIds| < 3 ==> r.currentInversion == s.currentInversion
  {
    SetActiveInversion(s.(currentChord := [], chordLabel := ""), 0)
  }

  /** The position of the remembered scale id, when it is truthy (not 0) and
      the scale is not empty; -1 otherwise. */
  function SelectedDegree(s: Selection): (r: int)
    ensures -1 <= r < |s.scaleIds|
    ensures r >= 0 ==> (s.lastClickedScaleId.Some? && s.lastClickedScaleId.value != 0
                        && s.scaleIds[r] == s.lastClickedScaleId.value)
    ensures s.lastClickedScaleId.Some? && s.lastClickedScaleId.value != 0 && s.lastClickedScaleId.value in s.scaleIds ==>
      r >= 0 && s.lastClickedScaleId.value !in s.scaleIds[..r]
  {
    if s.lastClickedScaleId.Some? && s.lastClickedScaleId.value != 0 && |s.scaleIds| > 0
    then IndexOf(s.scaleIds, s.lastClickedScaleId.value)
    else -1
  }

  /** A chord of type `t` from position `index` reads only inside the scale. */
  predicate ChordFits(scaleIds: seq<int>, index: int, t: ChordType) {
    index == -1 || (0 <= index && index + 2 * (ChordSize(t) - 1) < |scaleIds|)
  }

  /** The Triads/7ths toggle: the same type changes nothing; a new type is
      stored, and when a degree is remembered its chord is rebuilt at the
      new size in root position. The chord names and the heading are left
      as they were. */
  function ToggleChordType(s: Selection, newType: ChordType): (r: Selection)
    requires ChordFits(s.scaleIds, SelectedDegree(s), newType)
    ensures r.chordType == newType
    ensures r.currentChord == s.currentChord && r.chordLabel == s.chordLabel && r.scaleIds == s.scaleIds
    ensures r.lastClickedScaleId == s.lastClickedScaleId && r.lastClickedScaleNote == s.lastClickedScaleNote
  {
    if newType == s.chordType then s
    else
      var s1 := s.(chordType := newType);
      var index := SelectedDegree(s);
      if index == -1 then s1
      else
        var ids := BuildChordIds(s.scaleIds, index, ChordSize(newType));
        SetActiveInversion(s1.(baseChordIds := ids, currentInversion := 0), 0)
  }

  /** Picking the type already chosen changes nothing. */
  lemma ToggleSameType(s: Selection)
    requires ChordFits(s.scaleIds, SelectedDegree(s), s.chordType)
    ensures ToggleChordType(s, s.chordType) == s
  {
  }

  /** With a degree remembered, the toggle rebuilds that degree's chord at
      the new size in root position; without one it only stores the type. */
  lemma ToggleRebuilds(s: Selection, t: ChordType)
    requires t != s.chordType && ChordFits(s.scaleIds, SelectedDegree(s), t)
    ensures var r := ToggleChordType(s, t);
      var index := SelectedDegree(s);
      (index >= 0 ==> r.baseChordIds == BuildChordIds(s.scaleIds, index, ChordSize(t)) && r.currentInversion == 0)
      && (index == -1 ==> r == s.(chordType := t))
  {
  }

  /** Toggling to the other type and back restores a chord built from the
      remembered degree, in root position. */
  lemma ToggleRoundTrip(s: Selection, t: ChordType)
    requires t != s.chordType
    requires ChordFits(s.scaleIds, SelectedDegree(s), t) && ChordFits(s.scaleIds, SelectedDegree(s), s.chordType)
    requires SelectedDegree(s) >= 0
    requires s.baseChordIds == BuildChordIds(s.scaleIds, SelectedDegree(s), ChordSize(s.chordType))
    ensures ToggleChordType(ToggleChordType(s, t), s.chordType) == s.(currentInversion := 0)
  {
    var r := ToggleChordType(s, t);
    assert SelectedDegree(r) == SelectedDegree(s);
  }

  /** The numeral of degree `index` in the named mode, or the empty string
      for a name that is not a mode. Apart from Melodic III and Locrian VII,
      the quality it names is that of the triad the scale stacks on the
      degree. */
  function NumeralAt(modeName: string, index: nat): (r: string)
    ensures ParseMode(modeName).None? ==> r == ""
    ensures ParseMode(modeName).Some? ==> r in RomanNumerals(ParseMode(modeName).value)
    ensures ParseMode(modeName).Some? ==>
      var m := ParseMode(modeName).value;
      !(m == Melodic && index % 7 == 2) && !(m == Locrian && index % 7 == 6) ==>
        QualityTemplate(QualityOf(r)) == TriadShape(m, index % 7)
    ensures ParseMode(modeName).Some? ==>
      var m := ParseMode(modeName).value;
      (m == Melodic && index % 7 == 2) || (m == Locrian && index % 7 == 6) ==> QualityOf(r) == MajorChord
  {
    match ParseMode(modeName)
    case None => ""
    case Some(m) =>
      NumeralQuality(m, index % 7);
      RomanNumerals(m)[index % 7]
  }

  /** The numeral table names the stacked triad on every degree but the two
      known exceptions, which it names major. */
  lemma NumeralQuality(m: Mode, d: nat)
    requires d < 7
    ensures !(m == Melodic && d == 2) && !(m == Locrian && d == 6) ==>
      QualityTemplate(QualityOf(RomanNumerals(m)[d])) == TriadShape(m, d)
    ensures (m == Melodic && d == 2) || (m == Locrian && d == 6) ==>
      QualityOf(RomanNumerals(m)[d]) == MajorChord
  {
    if !(m == Melodic && d == 2) && !(m == Locrian && d == 6) {
      NumeralsMatchTriads(m, d);
    } else {
      NumeralMismatches();
    }
  }

  /** Degrees seven apart get the same numeral. */
  lemma NumeralAtRepeats(modeName: string, index: nat)
    ensures NumeralAt(modeName, index + 7) == NumeralAt(modeName, index)
  {
    assert (index + 7) % 7 == index % 7;
  }

  /** The heading of a clicked chord: the display spelling of its root and
      the quality its numeral names. */
  function ChordLabel(base: string, roman: string, displayed: set<string>): string {
    DisplaySpelling(base, displayed) + " " + QualityName(QualityOf(roman))
  }

  /** The heading reads back as a root spelling, one space and a quality
      name; the root is the note or its partner, the one the scale shows. */
  lemma ChordLabelParts(base: string, roman: string, displayed: set<string>)
    ensures var r := ChordLabel(base, roman, displayed);
      var spelled := DisplaySpelling(base, displayed);
      |r| > |spelled| + 1 && r[..|spelled|] == spelled && r[|spelled|] == ' '
      && r[|spelled| + 1..] in ["Major", "Minor", "Diminished", "Augmented"]
      && (spelled == base || Partner(base) == Some(spelled))
      && (base in displayed ==> spelled == base)
  {
    var spelled := DisplaySpelling(base, displayed);
    var q := QualityName(QualityOf(roman));
    assert ChordLabel(base, roman, displayed)[|spelled| + 1..] == q;
  }

  /** `ID_TO_NOTE[noteId] || ''`: the name of the clicked note, empty when
      the table has none. */
  function ClickedNote(noteId: int): string {
    if IdToNote(noteId).Some? then IdToNote(noteId).value else ""
  }

  /** The click on a scale note with id `noteId`. The same note twice in a
      row resets the chord and forgets the note; otherwise the note is
      remembered, and when the id is in the scale its chord is built in root
      position and the heading names it. */
  function ClickScaleNote(s: Selection, modeName: string, noteId: int, displayed: set<string>): (r: Selection)
    requires ChordFits(s.scaleIds, IndexOf(s.scaleIds, noteId), s.chordType)
    ensures r.lastClickedScaleId == Some(noteId) && r.chordType == s.chordType && r.scaleIds == s.scaleIds
    ensures Some(ClickedNote(noteId)) != s.lastClickedScaleNote ==> r.lastClickedScaleNote == Some(ClickedNote(noteId))
    ensures Some(ClickedNote(noteId)) == s.lastClickedScaleNote ==> r.lastClickedScaleNote == None
    ensures IndexOf(s.scaleIds, noteId) == -1 && Some(ClickedNote(noteId)) != s.lastClickedScaleNote ==>
      r == s.(lastClickedScaleId := Some(noteId), lastClickedScaleNote := Some(ClickedNote(noteId)))
  {
    var note := ClickedNote(noteId);
    var s1 := s.(lastClickedScaleId := Some(noteId));
    if Some(note) == s.lastClickedScaleNote then
      ResetChordDisplay(s1).(lastClickedScaleNote := None)
    else
      var s2 := s1.(lastClickedScaleNote := Some(note));
      var index := IndexOf(s.scaleIds, noteId);
      if index == -1 then s2
      else
        var ids := BuildChordIds(s.scaleIds, index, ChordSize(s.chordType));
        var s3 := SetActiveInversion(s2.(baseChordIds := ids, currentInversion := 0, currentChord := IdNames(ids)), 0);
        if note == "" then s3
        else s3.(chordLabel := ChordLabel(StripTrailingDigits(note), NumeralAt(modeName, index), displayed))
  }

  /** A click on a new note that is in the scale builds its chord from its
      position, voices it in root position, names its notes, and heads it
      with the root's display spelling and the numeral's quality. */
  lemma ClickBuildsChord(s: Selection, modeName: string, index: nat, displayed: set<string>)
    requires index < |s.scaleIds| && NoRepeats(s.scaleIds)
    requires 12 <= s.scaleIds[index] < 96
    requires index + 2 * (ChordSize(s.chordType) - 1) < |s.scaleIds|
    requires s.lastClickedScaleNote != IdToNote(s.scaleIds[index])
    ensures var noteId := s.scaleIds[index];
      var r := ClickScaleNote(s, modeName, noteId, displayed);
      var ids := BuildChordIds(s.scaleIds, index, ChordSize(s.chordType));
      && r.baseChordIds == ids
      && r.currentInversion == 0
      && r.currentChord == IdNames(ids)
      && r.lastClickedScaleNote == IdToNote(noteId)
      && r.chordLabel == ChordLabel(NoteNames[noteId % 12], NumeralAt(modeName, index), displayed)
  {
    var noteId := s.scaleIds[index];
    IndexOfDistinct(s.scaleIds, index);
    IdNameStrips(noteId);
    var note := IdToNote(noteId).value;
    assert Some(note) != s.lastClickedScaleNote && note != "";
  }

  /** The name of an id, octave stripped, is its sharp name. */
  lemma IdNameStrips(noteId: int)
    requires 12 <= noteId < 96
    ensures IdToNote(noteId).Some? && IdToNote(noteId).value != ""
    ensures StripTrailingDigits(IdToNote(noteId).value) == NoteNames[noteId % 12]
  {
    var c, o := noteId % 12, noteId / 12;
    NoteNamesResolve(c);
    assert IdToNote(noteId).value == NoteNames[c] + [OctaveDigit(o)];
    StripOctave(NoteNames[c], o);
  }

  /** Clicking the same note again right after selecting it deselects it:
      the chord names and the heading are emptied, the note is
      forgotten, and the base chord is kept in root position. */
  lemma ClickTwiceDeselects(s: Selection, modeName: string, noteId: int, displayed: set<string>)
    requires ChordFits(s.scaleIds, IndexOf(s.scaleIds, noteId), s.chordType)
    requires s.lastClickedScaleNote != Some(ClickedNote(noteId))
    ensures var once := ClickScaleNote(s, modeName, noteId, displayed);
      var twice := ClickScaleNote(once, modeName, noteId, displayed);
      && twice.currentChord == [] && twice.chordLabel == ""
      && twice.lastClickedScaleNote == None
      && twice.baseChordIds == once.baseChordIds
      && (|once.baseChordIds| >= 3 ==> twice.currentInversion == 0)
  {
  }

  /** The page starts consistent, and every handler keeps it so. */
  lemma InitialConsistent()
    ensures Consistent(Initial)
  {
  }

  lemma UpdateKeepsConsistent(s: Selection, u: UpdateOutcome)
    requires Consistent(s)
    ensures Consistent(ApplyUpdate(s, u))
  {
  }

  lemma InversionKeepsConsistent(s: Selection, i: int)
    requires Consistent(s)
    ensures Consistent(SetActiveInversion(s, i))
    ensures Consistent(ResetChordDisplay(s))
  {
  }

  lemma ToggleKeepsConsistent(s: Selection, t: ChordType)
    requires Consistent(s) && ChordFits(s.scaleIds, SelectedDegree(s), t)
    ensures Consistent(ToggleChordType(s, t))
  {
  }

  lemma ClickKeepsConsistent(s: Selection, modeName: string, noteId: int, displayed: set<string>)
    requires Consistent(s) && ChordFits(s.scaleIds, IndexOf(s.scaleIds, noteId), s.chordType)
    ensures Consistent(ClickScaleNote(s, modeName, noteId, displayed))
  {
  }

  /** Whichever handler runs next, a consistent selection stays consistent. */
  lemma HandlersKeepConsistent(s: Selection, u: UpdateOutcome, i: int, t: ChordType,
                               modeName: string, noteId: int, displayed: set<string>)
    requires Consistent(s)
    ensures Consistent(ApplyUpdate(s, u))
    ensures Consistent(SetActiveInversion(s, i))
    ensures Consistent(ResetChordDisplay(s))
    ensures ChordFits(s.scaleIds, SelectedDegree(s), t) ==> Consistent(ToggleChordType(s, t))
    ensures ChordFits(s.scaleIds, IndexOf(s.scaleIds, noteId), s.chordType) ==>
      Consistent(ClickScaleNote(s, modeName, noteId, displayed))
  {
    UpdateKeepsConsistent(s, u);
    InversionKeepsConsistent(s, i);
    if ChordFits(s.scaleIds, SelectedDegree(s), t) {
      ToggleKeepsConsistent(s, t);
    }
    if ChordFits(s.scaleIds, IndexOf(s.scaleIds, noteId), s.chordType) {
      ClickKeepsConsistent(s, modeName, noteId, displayed);
    }
  }
}
