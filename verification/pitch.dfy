/** The pitch tables: the twelve sharp-spelled pitch classes, the enharmonic
    pairing of the black keys, and the two note tables built at start-up —
    one from spelled note names to ids, one from ids to sharp names. The two
    tables are offset by one octave: "C4" has id 36, while id 36 reads back
    as "C3".

    The tables are given verbatim (`NoteNames`, `EnharmonicMap`); the lookups
    the rest of the model uses (`Partner`, `PitchClass`) read a spelling
    character by character and are proved to agree with the tables on every
    string. */
module Pitch {
  import opened Basics

  /** NOTE_NAMES: pitch classes 0 (C) to 11 (B), sharp-spelled. */
  const NoteNames: seq<string> := ["C", "C#", "D", "D#", "E", "F", "F#", "G", "G#", "A", "A#", "B"]

  /** ENHARMONIC_MAP: the five black keys, each spelled as a sharp and as a
      flat, paired both ways. */
  const EnharmonicMap: map<string, string> := map[
    "C#" := "Db", "Db" := "C#",
    "D#" := "Eb", "Eb" := "D#",
    "F#" := "Gb", "Gb" := "F#",
    "G#" := "Ab", "Ab" := "G#",
    "A#" := "Bb", "Bb" := "A#"
  ]

  /** The natural letters in the order the enharmonic respelling walks them. */
  const Letters: seq<char> := ['C', 'D', 'E', 'F', 'G', 'A', 'B']

  /** The octaves the note tables cover. */
  const FirstOctave := 1
  const LastOctave := 7

  /** Pitch class of a natural letter. */
  function NaturalClass(l: char): Option<nat> {
    match l
    case 'C' => Some(0)
    case 'D' => Some(2)
    case 'E' => Some(4)
    case 'F' => Some(5)
    case 'G' => Some(7)
    case 'A' => Some(9)
    case 'B' => Some(11)
    case _ => None
  }

  /** The letters whose sharp, and the letters whose flat, is a black key of
      the enharmonic table. */
  predicate SharpensToBlack(l: char) { l in "CDFGA" }
  predicate FlattensToBlack(l: char) { l in "DEGAB" }

  function LetterAfter(l: char): char {
    match l
    case 'C' => 'D'
    case 'D' => 'E'
    case 'F' => 'G'
    case 'G' => 'A'
    case _ => 'B'
  }

  function LetterBefore(l: char): char {
    match l
    case 'D' => 'C'
    case 'E' => 'D'
    case 'G' => 'F'
    case 'A' => 'G'
    case _ => 'A'
  }

  /** The ENHARMONIC_MAP lookup: the partner spelling of a black key, absent
      for every other string. */
  function Partner(p: string): Option<string> {
    if |p| == 2 && p[1] == '#' && SharpensToBlack(p[0]) then Some([LetterAfter(p[0]), 'b'])
    else if |p| == 2 && p[1] == 'b' && FlattensToBlack(p[0]) then Some([LetterBefore(p[0]), '#'])
    else None
  }

  /** `Partner` is exactly the ENHARMONIC_MAP table, on every string. */
  lemma PartnerIsTable(p: string)
    ensures p in EnharmonicMap <==> Partner(p).Some?
    ensures p in EnharmonicMap ==> Partner(p) == Some(EnharmonicMap[p])
  {
    if Partner(p).Some? {
      assert p == [p[0], p[1]];
    }
  }

  /** The table is a pairing: the partner of a partner is the spelling
      itself, and the two start with different letters. */
  lemma PartnerIsPairing(p: string)
    requires Partner(p).Some?
    ensures Partner(Partner(p).value) == Some(p)
    ensures |Partner(p).value| == 2 && Partner(p).value[0] != p[0]
  {
    assert p == [p[0], p[1]];
  }

  /** Pitch class of a spelling without octave: a natural letter alone, or a
      letter with the sharp or flat sign the enharmonic table knows. */
  function PitchClass(p: string): (r: Option<nat>)
    ensures r.Some? ==> r.value < 12
    ensures r.Some? ==> 1 <= |p| <= 2 && p[0] in Letters
    ensures r.Some? && |p| == 2 ==> p[1] == '#' || p[1] == 'b'
    ensures |p| == 1 ==> (r.Some? <==> p[0] in Letters)
  {
    if |p| == 1 then NaturalClass(p[0])
    else if |p| == 2 && p[1] == '#' && SharpensToBlack(p[0]) then Some(NaturalClass(p[0]).value + 1)
    else if |p| == 2 && p[1] == 'b' && FlattensToBlack(p[0]) then Some(NaturalClass(p[0]).value - 1)
    else None
  }

  /** The sharp names resolve to their own positions, and each is a natural
      letter alone or a letter with a sharp sign. */
  lemma NoteNamesResolve(i: nat)
    requires i < 12
    ensures PitchClass(NoteNames[i]) == Some(i)
    ensures |NoteNames[i]| == 1 || (|NoteNames[i]| == 2 && NoteNames[i][1] == '#')
  {
  }

  /** A spelling with no flat sign is the table's sharp name of its class. */
  lemma SharpSpellingIsNoteName(p: string)
    requires PitchClass(p).Some? && !(|p| == 2 && p[1] == 'b')
    ensures p == NoteNames[PitchClass(p).value]
  {
    var c := PitchClass(p).value;
    NoteNamesResolve(c);
    if |p| == 1 {
      assert p == [p[0]];
    } else {
      assert p == [p[0], p[1]];
    }
  }

  /** No two sharp names coincide. */
  lemma NoteNamesDistinct()
    ensures forall a, b | 0 <= a < b < |NoteNames| :: NoteNames[a] != NoteNames[b]
  {
    forall a, b | 0 <= a < b < |NoteNames|
      ensures NoteNames[a] != NoteNames[b]
    {
      NoteNamesResolve(a);
      NoteNamesResolve(b);
    }
  }

  /** The pitch-class lookup as getScaleNotes writes it: the position of `p` in
      NOTE_NAMES, or else the position of its ENHARMONIC_MAP partner. */
  function TableClass(p: string): Option<nat> {
    var i := IndexOf(NoteNames, p);
    if i >= 0 then Some(i)
    else if p in EnharmonicMap && IndexOf(NoteNames, EnharmonicMap[p]) >= 0 then Some(IndexOf(NoteNames, EnharmonicMap[p]))
    else None
  }

  /** `PitchClass` agrees with the table lookup of getScaleNotes on every string. */
  lemma PitchClassIsTableLookup(p: string)
    ensures PitchClass(p) == TableClass(p)
  {
    if p in NoteNames {
      SharpClassByTable(p);
    } else if p in EnharmonicMap {
      FlatClassByTable(p);
    } else {
      PartnerIsTable(p);
      if PitchClass(p).Some? {
        NotANoteName(p);
      }
    }
  }

  lemma SharpClassByTable(p: string)
    requires p in NoteNames
    ensures PitchClass(p) == TableClass(p)
  {
    var i := IndexOf(NoteNames, p);
    NoteNamesResolve(i);
  }

  lemma FlatClassByTable(p: string)
    requires p !in NoteNames && p in EnharmonicMap
    ensures PitchClass(p) == TableClass(p)
  {
    PartnerIsTable(p);
    var q := EnharmonicMap[p];
    PartnerSameClass(p);
    var c := PitchClass(p).value;
    NotANoteName(p);
    assert q[1] == '#';
    SharpSpellingIsNoteName(q);
    NoteNamesDistinct();
    IndexOfDistinct(NoteNames, c);
    assert IndexOf(NoteNames, q) == c;
  }

  /** Enharmonic partners share their pitch class. */
  lemma PartnerSameClass(p: string)
    requires Partner(p).Some?
    ensures PitchClass(p).Some? && PitchClass(Partner(p).value) == PitchClass(p)
  {
    assert p == [p[0], p[1]];
  }

  /** A string missing from NOTE_NAMES that still resolves must be flat. */
  lemma NotANoteName(q: string)
    requires q !in NoteNames && PitchClass(q).Some?
    ensures |q| == 2 && q[1] == 'b'
  {
    if !(|q| == 2 && q[1] == 'b') {
      SharpSpellingIsNoteName(q);
    }
  }

  /** Both spellings of every pitch class resolve to that class. */
  lemma SpellingsResolve(i: nat)
    requires i < 12
    ensures PitchClass(NoteNames[i]) == Some(i)
    ensures Partner(NoteNames[i]).Some? ==> PitchClass(Partner(NoteNames[i]).value) == Some(i)
  {
    NoteNamesResolve(i);
  }

  /** A resolvable spelling is the sharp name of its pitch class or that
      name's enharmonic partner. */
  lemma PitchClassSpelling(p: string)
    requires PitchClass(p).Some?
    ensures var c := PitchClass(p).value;
      p == NoteNames[c] || Partner(NoteNames[c]) == Some(p)
  {
    if |p| == 2 && p[1] == 'b' {
      PartnerIsPairing(p);
      var q := Partner(p).value;
      SharpSpellingIsNoteName(q);
    } else {
      SharpSpellingIsNoteName(p);
    }
  }

  /** An id splits uniquely into twelve times an octave index plus a pitch class. */
  lemma IdSplit(k: int, c: int)
    requires 0 <= c < 12
    ensures (12 * k + c) / 12 == k && (12 * k + c) % 12 == c
  {
  }

  /** The character standing for octave `o`. */
  function OctaveDigit(o: nat): (c: char)
    requires o <= 9
    ensures '0' <= c <= '9'
  {
    ('0' as int + o) as char
  }

  /** The NOTE_MAP lookup: a spelling (sharp or flat) followed by one octave
      digit 1..7 names the id 12 * (octave - 1) + pitch class; every other
      string is absent. */
  function NoteId(name: string): (r: Option<nat>)
    ensures r.Some? ==> r.value < 84
    ensures r.Some? <==> |name| > 0 && '1' <= name[|name| - 1] <= '7' && PitchClass(name[..|name| - 1]).Some?
    ensures r.Some? ==> r.value % 12 == PitchClass(name[..|name| - 1]).value
    ensures r.Some? ==> r.value / 12 == name[|name| - 1] as int - '1' as int
  {
    if |name| == 0 then None
    else
      var octave := name[|name| - 1] as int - '0' as int;
      if FirstOctave <= octave <= LastOctave then
        match PitchClass(name[..|name| - 1])
        case Some(c) => IdSplit(octave - 1, c); Some(12 * (octave - 1) + c)
        case None => None
      else None
  }

  /** The ID_TO_NOTE lookup: ids 12..95 read back as the sharp name of their
      pitch class with octave digit id / 12; every other id is absent. */
  function IdToNote(k: int): (r: Option<string>)
    ensures r.Some? <==> 12 <= k < 96
    ensures r.Some? ==> NoteId(r.value) == Some(k - 12)
  {
    if 12 <= k < 96 then
      NoteNamesResolve(k % 12);
      NoteIdOfSpelling(NoteNames[k % 12], k % 12, k / 12);
      Some(NoteNames[k % 12] + [OctaveDigit(k / 12)])
    else None
  }

  /** A spelling of pitch class `c` followed by an octave digit 1..7 has
      the id 12 * (octave - 1) + c. */
  lemma NoteIdOfSpelling(p: string, c: nat, o: nat)
    requires PitchClass(p) == Some(c) && FirstOctave <= o <= LastOctave
    ensures NoteId(p + [OctaveDigit(o)]) == Some(12 * (o - 1) + c)
  {
    var name := p + [OctaveDigit(o)];
    assert name[..|name| - 1] == p;
  }

  /** The sharp and the flat spelling of pitch class `i` in octave `o` share
      the id 12 * (o - 1) + i. */
  lemma SpellingsShareId(i: nat, o: nat)
    requires i < 12 && FirstOctave <= o <= LastOctave
    ensures NoteId(NoteNames[i] + [OctaveDigit(o)]) == Some(12 * (o - 1) + i)
    ensures Partner(NoteNames[i]).Some? ==> NoteId(Partner(NoteNames[i]).value + [OctaveDigit(o)]) == Some(12 * (o - 1) + i)
  {
    SpellingsResolve(i);
    NoteIdOfSpelling(NoteNames[i], i, o);
    if Partner(NoteNames[i]).Some? {
      NoteIdOfSpelling(Partner(NoteNames[i]).value, i, o);
    }
  }

  /** A name the note map knows splits into a resolvable spelling and an
      octave digit 1..7. */
  lemma NameParts(name: string) returns (p: string, d: char)
    requires NoteId(name).Some?
    ensures name == p + [d] && PitchClass(p).Some?
    ensures '1' <= d <= '7' && OctaveDigit(d as int - '0' as int) == d
    ensures NoteId(name).value == 12 * (d as int - '0' as int - 1) + PitchClass(p).value
  {
    p, d := name[..|name| - 1], name[|name| - 1];
    assert name == p + [d];
  }

  /** A name the note map knows is the sharp or the flat spelling of its
      id's pitch class, followed by its id's octave digit. */
  lemma NoteIdNames(name: string)
    requires NoteId(name).Some?
    ensures var v := NoteId(name).value;
      name == NoteNames[v % 12] + [OctaveDigit(v / 12 + 1)]
      || (Partner(NoteNames[v % 12]).Some? && name == Partner(NoteNames[v % 12]).value + [OctaveDigit(v / 12 + 1)])
  {
    var p, d := NameParts(name);
    PitchClassSpelling(p);
    var c := PitchClass(p).value;
    IdSplit(d as int - '0' as int - 1, c);
  }

  /** Id 12 * o + i reads back as the sharp name of `i` with octave digit `o`. */
  lemma IdToNoteOf(i: nat, o: nat)
    requires i < 12 && FirstOctave <= o <= LastOctave
    ensures IdToNote(12 * o + i) == Some(NoteNames[i] + [OctaveDigit(o)])
  {
    IdSplit(o, i);
  }

  /** The id of a known name, raised by one octave, reads back in ID_TO_NOTE
      as the sharp spelling of that name: the tables agree on pitch class and
      octave once the 12-id offset between them is applied. */
  lemma SharpSpellingAcrossTables(name: string)
    requires NoteId(name).Some?
    ensures var p := name[..|name| - 1];
      IdToNote(NoteId(name).value + 12) == Some(NoteNames[PitchClass(p).value] + [name[|name| - 1]])
  {
    var p, d := NameParts(name);
    assert p == name[..|name| - 1];
    var c := PitchClass(p).value;
    var o := d as int - '0' as int;
    IdToNoteOf(c, o);
  }

  /** The offset between the tables: the id of a name in octave o reads back
      one octave lower, so NOTE_MAP["C4"] is 36 and ID_TO_NOTE[36] is "C3". */
  lemma TablesOffsetByOctave(i: nat, o: nat)
    requires i < 12 && FirstOctave < o <= LastOctave
    ensures IdToNote(NoteId(NoteNames[i] + [OctaveDigit(o)]).value) == Some(NoteNames[i] + [OctaveDigit(o - 1)])
  {
    SpellingsShareId(i, o);
    IdToNoteOf(i, o - 1);
  }

  /** One pass of the inner start-up loop: adding the sharp and flat names of
      pitch class `i` in octave `o` under id 12 * (o - 1) + i extends a note
      map that agrees with `NoteId` below that id to one that agrees with it
      up to and including that id. */
  lemma NoteMapStep(before: map<string, nat>, after: map<string, nat>, i: nat, o: nat)
    requires i < 12 && FirstOctave <= o <= LastOctave
    requires forall n :: n in before <==> NoteId(n).Some? && NoteId(n).value < 12 * (o - 1) + i
    requires forall n | n in before :: before[n] == NoteId(n).value
    requires var id := 12 * (o - 1) + i;
      var withSharp := before[NoteNames[i] + [OctaveDigit(o)] := id];
      after == if Partner(NoteNames[i]).Some? then withSharp[Partner(NoteNames[i]).value + [OctaveDigit(o)] := id] else withSharp
    ensures forall n :: n in after <==> NoteId(n).Some? && NoteId(n).value <= 12 * (o - 1) + i
    ensures forall n | n in after :: after[n] == NoteId(n).value
  {
    var id := 12 * (o - 1) + i;
    SpellingsShareId(i, o);
    IdSplit(o - 1, i);
    forall n
      ensures n in after <==> NoteId(n).Some? && NoteId(n).value <= id
      ensures n in after ==> after[n] == NoteId(n).value
    {
      if NoteId(n).Some? && NoteId(n).value == id {
        NoteIdNames(n);
      }
    }
  }

  /** The body of the start-up loop for pitch class `i` in octave `o`: the
      sharp name and, for a black key, its ENHARMONIC_MAP partner go into the
      note map under id 12 * (o - 1) + i; the sharp name goes into the id map
      under that id plus 12. */
  method AddPitchClass(noteMap: map<string, nat>, idToNote: map<int, string>, i: nat, o: nat)
    returns (noteMap': map<string, nat>, idToNote': map<int, string>)
    requires i < 12 && FirstOctave <= o <= LastOctave
    requires forall n :: n in noteMap <==> NoteId(n).Some? && NoteId(n).value < 12 * (o - 1) + i
    requires forall n | n in noteMap :: noteMap[n] == NoteId(n).value
    requires forall k :: k in idToNote <==> 12 <= k < 12 + 12 * (o - 1) + i
    requires forall k | k in idToNote :: IdToNote(k) == Some(idToNote[k])
    ensures forall n :: n in noteMap' <==> NoteId(n).Some? && NoteId(n).value <= 12 * (o - 1) + i
    ensures forall n | n in noteMap' :: noteMap'[n] == NoteId(n).value
    ensures forall k :: k in idToNote' <==> 12 <= k <= 12 + 12 * (o - 1) + i
    ensures forall k | k in idToNote' :: IdToNote(k) == Some(idToNote'[k])
  {
    var id := 12 * (o - 1) + i;
    var sharpName := NoteNames[i] + [OctaveDigit(o)];
    noteMap' := noteMap[sharpName := id];
    idToNote' := idToNote[12 + id := sharpName];
    var baseNote := NoteNames[i];
    PartnerIsTable(baseNote);
    if baseNote in EnharmonicMap {
      var flatName := EnharmonicMap[baseNote] + [OctaveDigit(o)];
      noteMap' := noteMap'[flatName := id];
    }
    NoteMapStep(noteMap, noteMap', i, o);
    IdToNoteOf(i, o);
  }

  /** The start-up loop that fills NOTE_MAP and ID_TO_NOTE: octaves 1..7,
      pitch classes 0..11, the sharp name and (for black keys) the flat name
      under one id, the sharp name again under that id plus 12. It builds
      exactly the tables `NoteId` and `IdToNote` describe. */
  method BuildNoteTables() returns (noteMap: map<string, nat>, idToNote: map<int, string>)
    ensures forall n :: n in noteMap <==> NoteId(n).Some?
    ensures forall n | n in noteMap :: noteMap[n] == NoteId(n).value
    ensures forall k :: k in idToNote <==> IdToNote(k).Some?
    ensures forall k | k in idToNote :: idToNote[k] == IdToNote(k).value
  {
    noteMap := map[];
    idToNote := map[];
    var id := 0;
    var octave := FirstOctave;
    while octave <= LastOctave
      invariant FirstOctave <= octave <= LastOctave + 1
      invariant id == 12 * (octave - 1)
      invariant forall n :: n in noteMap <==> NoteId(n).Some? && NoteId(n).value < id
      invariant forall n | n in noteMap :: noteMap[n] == NoteId(n).value
      invariant forall k :: k in idToNote <==> 12 <= k < 12 + id
      invariant forall k | k in idToNote :: IdToNote(k) == Some(idToNote[k])
    {
      var i := 0;
      while i < 12
        invariant 0 <= i <= 12
        invariant id == 12 * (octave - 1) + i
        invariant forall n :: n in noteMap <==> NoteId(n).Some? && NoteId(n).value < id
        invariant forall n | n in noteMap :: noteMap[n] == NoteId(n).value
        invariant forall k :: k in idToNote <==> 12 <= k < 12 + id
        invariant forall k | k in idToNote :: IdToNote(k) == Some(idToNote[k])
      {
        noteMap, idToNote := AddPitchClass(noteMap, idToNote, i, octave);
        id := id + 1;
        i := i + 1;
      }
      octave := octave + 1;
    }
  }

  /** The characters the first-match `replace(/[#b]/, '')` removes: a sharp
      sign or a lower-case b. */
  predicate IsAccidental(c: char) {
    c == '#' || c == 'b'
  }

  /** getNoteLetter: `n` without its first accidental character, if any. */
  function NoteLetter(n: string): (r: string)
    ensures (forall j | 0 <= j < |n| :: !IsAccidental(n[j])) ==> r == n
    ensures forall k | 0 <= k < |n| && IsAccidental(n[k]) && (forall j | 0 <= j < k :: !IsAccidental(n[j])) ::
      r == n[..k] + n[k + 1..]
  {
    if |n| == 0 then n
    else if IsAccidental(n[0]) then n[1..]
    else
      var rest := NoteLetter(n[1..]);
      NoteLetterStep(n, rest);
      [n[0]] + rest
  }

  /** The step of `NoteLetter` past a leading non-accidental character. */
  lemma NoteLetterStep(n: string, rest: string)
    requires |n| > 0 && !IsAccidental(n[0])
    requires forall k | 0 <= k < |n[1..]| && IsAccidental(n[1..][k]) && (forall j | 0 <= j < k :: !IsAccidental(n[1..][j])) ::
      rest == n[1..][..k] + n[1..][k + 1..]
    ensures forall k | 0 <= k < |n| && IsAccidental(n[k]) && (forall j | 0 <= j < k :: !IsAccidental(n[j])) ::
      [n[0]] + rest == n[..k] + n[k + 1..]
  {
    forall k | 0 <= k < |n| && IsAccidental(n[k]) && (forall j | 0 <= j < k :: !IsAccidental(n[j]))
      ensures [n[0]] + rest == n[..k] + n[k + 1..]
    {
      assert k >= 1;
      assert IsAccidental(n[1..][k - 1]);
      forall j | 0 <= j < k - 1
        ensures !IsAccidental(n[1..][j])
      {
        assert n[1..][j] == n[j + 1];
      }
      assert rest == n[1..][..k - 1] + n[1..][k..];
      assert n[..k] == [n[0]] + n[1..][..k - 1];
      assert n[k + 1..] == n[1..][k..];
    }
  }

  /** Every spelling the tables know starts with a natural letter, and its
      letter is that first character alone. */
  lemma SpellingLetters(p: string)
    requires PitchClass(p).Some?
    ensures |p| > 0 && p[0] in Letters
    ensures NoteLetter(p) == [p[0]]
  {
    if |p| == 2 {
      assert !IsAccidental(p[0]);
      assert p[1..] == [p[1]];
      assert NoteLetter(p[1..]) == [];
      assert p == [p[0]] + p[1..];
    }
  }
}
