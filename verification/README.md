# Chordtopia music-theory core in Dafny

Chordtopia is a browser piano. It draws a scale for a chosen key and mode.
A click on a scale degree builds that degree's triad or seventh chord and
names its quality. The chord can be shown in any inversion. All of this lives
in `script.js`. This project models the music-theory part of that file,
without the DOM, as pure Dafny functions, and proves what the tables and
operations promise.

The model covers:

- the pitch tables `NOTE_NAMES`, `ENHARMONIC_MAP`, `NOTE_MAP` and
  `ID_TO_NOTE`, with the 12-id offset between the last two kept as written;
- `getNoteLetter`;
- enharmonic respelling (`adjustEnharmonics`);
- the mode tables `MODES`, `MODE_ROMAN_NUMERALS` and `MODE_KEYS`, and
  `isKeyValidForMode`;
- scale expansion (`getScaleNotesFromX1`) and the unused `getScaleNotes`;
- chord building (`getChordSize`, `buildChordIDs`), the inversion
  arithmetic of `setActiveInversion`, and `ordinalLabel`;
- the chord quality read off a Roman numeral;
- the display-spelling rule of `getDisplaySpelling` and
  `renderChordNoteLabels`;
- the pure part of `update`;
- the chord-selection globals, and the handlers that change them: the
  scale-note click, the Triads/7ths toggle, the inversion choice and the
  reset.

Modules, one file each:

- `Basics` (`basics.dfy`): `Option`, the `indexOf` search and the
  `filter(Boolean)` of a list of optional names.
- `Pitch` (`pitch.dfy`): the pitch and id tables. `NOTE_MAP` and
  `ID_TO_NOTE` are declarative lookups (`NoteId`, `IdToNote`). The
  start-up loop that fills them is the method `BuildNoteTables`, proved to
  produce exactly those lookups.
- `Spelling` (`spelling.dfy`): `adjustEnharmonics`, the display rule and
  octave stripping.
- `Modes` (`modes.dfy`): the mode tables, the key lists, scale expansion and
  `getScaleNotes`.
- `Chords` (`chords.dfy`): chord size, chord ids, the inversion voicing
  with JavaScript's `%`, and the inversion labels.
- `Numerals` (`numerals.dfy`): the quality test on a numeral, compared with
  the triads the scale actually stacks.
- `Engine` (`engine.dfy`): `update` as a function from the selected key and
  mode name to an outcome. The outcome is cleared, unmapped, partial, or
  rendered with the seven displayed spellings and the numeral row.
- `ChordState` (`chordstate.dfy`): the selection globals as a record, and
  each handler as a transition.

Behaviour of `script.js` the model keeps:

- `NOTE_MAP` gives a name in octave o the id `12*(o-1)+class`. The id
  `12*o+class` is the key of that name in `ID_TO_NOTE`, not in `NOTE_MAP`.
- `getScaleNotes` adds each raw interval to the root, not the running total.
  For C major it yields D, D, C#, D, D, D, C# (`Modes.GetScaleNotesCMajor`).
- `adjustEnharmonics` does not always give seven distinct letters. When no
  candidate has the expected letter it keeps the entry. F# major therefore
  shows F and later F again (`Spelling.SharpKeyRepeatsLetter`). Seven
  distinct letters are proved only when every entry has a spelling with its
  expected letter (`Spelling.AdjustedLettersDistinct`).
- The numeral table disagrees with the stacked thirds in two places.
  Melodic III reads as major but stacks 0-4-8 (augmented). Locrian VII reads
  as major but stacks 0-3-7 (minor). The other 61 degrees agree
  (`Numerals.NumeralsMatchTriads`, `Numerals.NumeralMismatches`). The table
  is modelled verbatim, as the page uses it.

Quirks of the handlers that the model keeps:

- An `update` that clears the chord does not reset the inversion.
- A mapped `update` leaves the old chord in place.
- The toggle leaves the chord names (`currentChord`) and the heading as they were.
- The reset keeps the base chord.
- The remembered scale id stays set after a deselect.
- Id 0 counts as "nothing remembered", because `0` is falsy in JavaScript.
- The heading is written only when the clicked id has a name.
- A mode name the tables do not know gives the numeral `""`, and so the
  quality Major.

## Model

| member | source | states |
|---|---|---|
| Pitch.PartnerIsTable | script.js:6-12 | `Partner` answers exactly on the ten ENHARMONIC_MAP keys, with the table's value |
| Pitch.PartnerIsPairing | script.js:6-12 | the enharmonic map is a symmetric pairing: the partner of a partner is the name itself, and partners start with different letters |
| Pitch.PartnerSameClass | script.js:6-12 | enharmonic partners denote the same pitch class |
| Pitch.PitchClassIsTableLookup | script.js:312-318 | the pitch class of any string is its position in NOTE_NAMES, or failing that the position of its enharmonic partner |
| Pitch.PitchClass | script.js:3-12 | a resolvable spelling is a natural letter, alone or with `#` or `b`, and its class is below 12; a single character resolves exactly when it is a natural letter |
| Pitch.NoteId | script.js:32-47 | NOTE_MAP knows a name exactly when it is a resolvable spelling followed by a digit 1..7, and the id has that spelling's class and octave digit minus one as its octave |
| Pitch.IdToNote | script.js:32-47 | ID_TO_NOTE names exactly ids 12..95, and the name at id k is one NOTE_MAP maps to k - 12 |
| Pitch.SpellingsShareId | script.js:32-47 | the sharp and the flat spelling of class i in octave o (1..7) both map to id 12*(o-1)+i |
| Pitch.NoteIdOfSpelling | script.js:32-47 | any resolvable spelling with octave digit o maps to 12*(o-1) plus its pitch class |
| Pitch.SharpSpellingAcrossTables | script.js:32-47 | for every name NOTE_MAP knows, ID_TO_NOTE at its id plus 12 is the sharp spelling of its pitch class followed by its own octave digit |
| Pitch.TablesOffsetByOctave | script.js:32-47 | read straight across, the two tables disagree by one octave: ID_TO_NOTE[NOTE_MAP[C4]] is C3 |
| Pitch.BuildNoteTables | script.js:32-47 | the start-up loop fills NOTE_MAP with exactly the spellings of octaves 1..7 and their ids, and ID_TO_NOTE with exactly ids 12..95 |
| Pitch.NoteLetter | script.js:13-15 | getNoteLetter removes the first `#` or `b` and nothing else; a name without one is returned unchanged |
| Pitch.SpellingLetters | script.js:13-15 | every known spelling starts with a natural letter, and getNoteLetter reduces it to that letter |
| Spelling.Respell | script.js:24-25 | the chosen spelling is the name or its partner; it starts with the expected letter exactly when the name or its partner does; the name is kept when it has that letter, and also when neither candidate has it |
| Spelling.AdjustEnharmonics | script.js:17-31 | same length; each entry is `scale[i]` or its partner; it has the expected letter exactly when one candidate does; `scale[i]` is kept when neither does |
| Spelling.AdjustEnharmonicsSpec | script.js:17-31 | each entry is `scale[i]` or its partner with the same pitch class; `scale[i]` is kept when it has the expected letter; a candidate with the expected letter is chosen whenever one exists, and `scale[i]` is kept when neither candidate has it |
| Spelling.AdjustEnharmonicsIdempotent | script.js:17-31 | a second pass with the same root changes nothing |
| Spelling.AdjustedLettersDistinct | script.js:17-31 | when every entry has a spelling with its expected letter, the seven results start with seven different letters |
| Spelling.SharpKeyRepeatsLetter | script.js:17-31 | for the F# major names with the F-rooted walk, the output repeats the letter F |
| Spelling.DisplaySpelling | script.js:256-262 | the shown name is the note or its partner; the note itself when the scale shows it; the partner only when the note is not shown and the partner is |
| Spelling.DisplaySpellingMatchesScale | script.js:256-262 | when the scale shows some spelling of the note's pitch class, the note is shown with a displayed spelling of the same class |
| Spelling.StripTrailingDigits | script.js:246 | the result is the name minus its maximal run of trailing digits |
| Spelling.StripOctave | script.js:246 | a spelling plus one octave digit strips back to the spelling |
| Spelling.ChordNoteLabels | script.js:243-254 | each label is its stripped note name or that name's partner, and the name itself when the scale shows it |
| Spelling.LabelsAgreeWithDisplaySpelling | script.js:243-262 | the test written out inside renderChordNoteLabels picks, for every chord note, the spelling getDisplaySpelling picks |
| Spelling.LabelKeepsPitchClass | script.js:243-254 | the label of each chord id has that id's pitch class |
| Modes.ParseModeName | script.js:49-59 | each of the nine modes is found under its own name |
| Modes.IntervalsWellFormed | script.js:49-59 | every MODES vector has seven steps of 1 to 3 semitones that add up to 12 |
| Modes.OffsetsClimb | script.js:49-59 | the running offsets of a mode climb strictly with the degree |
| Modes.ScaleFromX1 | script.js:293-304 | the expansion has 22 ids, starts at x1, climbs strictly, and repeats each id one octave higher seven places on |
| Modes.ExpandScale | script.js:293-304 | the loop that adds `intervals[i % 7]` 21 times computes exactly that expansion |
| Modes.ScaleTransposes | script.js:293-304 | a root one octave higher gives the same scale one octave higher |
| Modes.KeyListedIsTable | script.js:78-88 | a key is listed for a mode exactly when it is an entry of that mode's MODE_KEYS row |
| Modes.IsKeyValidForMode | script.js:90-93 | a key is valid exactly for a known mode name whose MODE_KEYS row contains it; an unknown mode lists nothing |
| Modes.ValidKeyResolves | script.js:78-93 | every valid key resolves in NOTE_MAP at octave 4, to 36 plus its pitch class |
| Modes.GetScaleNotes | script.js:307-328 | getScaleNotes returns either nothing or seven names, each a sharp name from NOTE_NAMES |
| Modes.GetScaleNotesErrors | script.js:307-319 | the result is empty exactly for an unknown mode or a key that resolves neither directly nor through its partner |
| Modes.GetScaleNotesRawSteps | script.js:321-327 | entry i is the NOTE_NAMES sharp name of the root plus step i alone, so its class never equals the root's |
| Modes.GetScaleNotesCMajor | script.js:321-327 | for C major the helper returns D, D, C#, D, D, D, C# |
| Chords.ChordSize | script.js:151-153 | a seventh has four notes and a triad three |
| Chords.CollectChordIds | script.js:155-161 | the push loop of buildChordIDs collects exactly every second scale entry from `start`, `size` of them |
| Chords.SeventhExtendsTriad | script.js:155-161 | a seventh chord is its degree's triad with one more note on top |
| Chords.ClickedChordShape | script.js:155-161 | from any of the seven clickable degrees, both chord sizes read inside the 22-id scale, climb strictly and span less than 12 |
| Chords.JsRem | script.js:601 | JavaScript's `%` agrees with the floored remainder on non-negative dividends and is never positive on negative ones |
| Chords.NormalizeInversion | script.js:601 | the JavaScript normalisation lands in 0..n-1 and equals the floored remainder of i |
| Chords.NormalizeIsFloorMod | script.js:601 | `((i % n) + n) % n` is the floored remainder of i, so i and i + n give the same inversion |
| Chords.Voicing | script.js:600-613 | raising the first `inv` notes and rotating them to the top gives the base from note `inv` on followed by the notes below `inv` an octave higher |
| Chords.VoicingShape | script.js:600-613 | the voicing is the base from note `inv` on followed by the lower notes an octave up; inversion 0 is the base; i and i + n give the same voicing |
| Chords.VoicingKeepsPitchClasses | script.js:611-613 | note k of a voicing has the pitch class of base note (k + inv) mod n |
| Chords.VoicingAscending | script.js:611-613 | a base that climbs and spans less than an octave climbs in every inversion, whose lowest note is base note `inv` |
| Chords.InversionsDiffer | script.js:600-613 | two different inversions of such a base are different voicings |
| Chords.OrdinalLabel | script.js:163-168 | the label is one of the four names; "Root" exactly for 0; for 1 to 3 it starts with the digit i; every i other than 0, 1 and 2, negative ones included, gets "3rd" |
| Chords.OrdinalLabelsDistinct | script.js:163-168 | the four inversions get four different labels |
| Numerals.UpperFixed | script.js:569 | a numeral equals its upper-case form exactly when it has no lower-case letter |
| Numerals.QualityOf | script.js:565-570 | the quality is diminished exactly when the numeral has a degree sign, and augmented exactly when it has a plus sign but no degree sign |
| Numerals.QualityOfSpec | script.js:565-570 | a degree sign gives diminished; otherwise a plus gives augmented; otherwise major exactly when no letter is lower-case, minor otherwise |
| Numerals.ClickedTriadHasShape | script.js:554-558 | the triad built on degree d, from any root, has the third and fifth of that degree's stacked thirds |
| Numerals.NumeralsMatchTriads | script.js:65-75 | on all degrees except Melodic III and Locrian VII, the quality the numeral names is the triad the scale stacks |
| Numerals.NumeralMismatches | script.js:65-75 | Melodic III and Locrian VII read as major, while the scale stacks an augmented and a minor triad there |
| Engine.IdNames | script.js:330-332 | each id gets a name exactly when it lies in 12..95, and that name is a spelling of the id's pitch class followed by one character |
| Engine.Update | script.js:485-513 | update clears exactly for a key not listed for the mode, warns exactly for a listed key NOTE_MAP lacks, and otherwise expands the scale from the key's NOTE_MAP id |
| Engine.ScaleOutcome | script.js:512-534 | the scale is always stored, expanded from x1; it is drawn exactly when seven names survive, as seven spellings under the mode's numerals |
| Engine.UpdateClearsInvalidKey | script.js:485-505 | update clears exactly when the key is not listed for the mode |
| Engine.UpdateMapsValidKey | script.js:506-513 | a listed key with an octave digit 1..7 always has an id, so the warning exit is never taken; the scale is built from that key's id |
| Engine.UpdateRendersScale | script.js:512-534 | a listed key in octaves 2..7 is drawn: the display is the first seven sharp names respelled towards the key, each with its id's pitch class, starting with the key itself; the numerals are the mode's row |
| Engine.UpdateNeverPartial | script.js:512-534 | a listed key with any octave digit 1..7 is drawn, never left at the partial outcome |
| Engine.SecondPassKeeps | script.js:518-523 | the second respelling pass in update gives the same result as the first |
| Engine.RootKeepsKeySpelling | script.js:512-523 | the first displayed note is spelled as the selected key |
| Engine.CMajorUpdate | script.js:485-534 | C4 major is drawn from id 36 as C D E F G A B under I ii iii IV V vi vii° |
| ChordState.InitialConsistent | script.js:136-149 | the globals as loaded satisfy the selection invariant |
| ChordState.ApplyUpdate | script.js:485-513 | a cleared update empties the chord and the heading; any other update keeps the chord; a mapped update stores its scale ids and the others keep them; only a cleared update touches the heading; chord type, inversion and the remembered note and id are never touched |
| ChordState.SetActiveInversion | script.js:596-602 | only the stored inversion changes; with fewer than three base notes nothing changes; otherwise it becomes i modulo the chord size, in range |
| ChordState.SetActiveInversionVoicing | script.js:596-613 | the voicing of the stored, normalised inversion equals the voicing of the requested i |
| ChordState.InversionLabelsKeepPitchClass | script.js:612-616 | every label under the inversion buttons has the pitch class of the note it labels |
| ChordState.ResetChordDisplay | script.js:274-283 | only the chord names, the heading and the inversion change: the names and heading are cleared, and a real chord returns to root position; the base chord, the scale and the remembered note and id are kept |
| ChordState.SelectedDegree | script.js:222-223 | a found degree holds the remembered id, which is non-zero; a non-zero remembered id in the scale is always found, at its first occurrence |
| ChordState.ToggleChordType | script.js:206-236 | the toggle stores the new type and leaves the chord names, the heading, the scale and the remembered note alone |
| ChordState.ToggleSameType | script.js:210 | choosing the current type changes nothing |
| ChordState.ToggleRebuilds | script.js:219-229 | with a remembered degree the chord is rebuilt at the new size in root position; without one only the type changes |
| ChordState.ToggleRoundTrip | script.js:206-236 | toggling away and back restores the remembered degree's chord in root position |
| ChordState.NumeralAt | script.js:565 | an unknown mode gives the empty numeral; a known one gives an entry of its row whose quality is the triad stacked on degree `index % 7`, except at Melodic III and Locrian VII, which it names major |
| ChordState.NumeralAtRepeats | script.js:565 | degrees seven apart get the same numeral |
| ChordState.ChordLabelParts | script.js:571-576 | the heading is a spelling of the root, one space and a quality name; the root is spelled as the scale shows it |
| ChordState.ClickScaleNote | script.js:536-576 | every click remembers the clicked id and leaves the chord type and the scale alone; a repeat click forgets the note; a new note outside the scale is remembered and nothing else changes |
| ChordState.ClickBuildsChord | script.js:536-576 | a click on a new in-scale note builds the chord from its position in root position, names its notes, and heads it with the root's display spelling and the numeral's quality |
| ChordState.ClickTwiceDeselects | script.js:540-547 | the same note clicked twice in a row clears the chord names, empties the heading and forgets the note, but keeps the base chord |
| ChordState.HandlersKeepConsistent | script.js:206-236 | from a consistent selection, the update, inversion, reset, toggle and click handlers all lead to a consistent selection |

## Left out

- Rendering: `renderKeys`, `getBlackKeyX`, `getSizes`, `setPianoScale`, the
  scroll centring and the SVG layout. They are pixel and float work with no
  music-theory content.
- DOM wiring: the mode and key buttons, `updateKeyOptions` (which builds key
  buttons from `MODE_KEYS` through `NOTE_MAP` key searches), the controls
  transitions, and the markup of `renderInversionButtons` and
  `renderChordTypeToggle`.
- `updateChordVisibility`: it only toggles CSS classes from
  `baseChordIDs.length >= 3`.
- `KEY_BACKGROUNDS` colours and `console.warn`: cosmetic output. The warning
  exit of `update` is the `Unmapped` outcome.
- `activeScaleNote`, `activeOctave` and the `active` class of scale notes:
  these are display state.
- Reading the displayed scale back from the DOM: the set of shown names is a
  parameter (`displayed`).
- The `!inversionsEl` guard of `setActiveInversion`: the model assumes the
  inversion buttons exist.
- `parseInt` of the clicked element's `data-note-id`: the click takes the
  integer id directly. A `NaN` id is not modelled.
- `toUpperCase` beyond the ASCII letters: the numerals use only ASCII
  letters, `°`, `#` and `+`.
- Modes.ParseMode: knows only the nine mode names. JavaScript property
  lookup also finds inherited keys such as `toString` or `constructor`:
  `isKeyValidForMode(k, "toString")` would call `.includes` on a function
  and throw, and `getScaleNotes(k, "constructor")` would pass its
  `!intervals` guard. The model answers `false` and `[]` there. The mode
  buttons only ever send the nine names.
- Chords.BuildChordIds and Chords.CollectChordIds: require every index read
  to lie inside the scale. In JavaScript a read past the end pushes
  `undefined`.
  `Chords.ClickedChordShape` shows that the seven clickable degrees never
  reach that case.
- ChordState.ToggleChordType: requires the rebuilt chord to fit inside the
  scale (`ChordFits`), for the same reason.
- ChordState.ClickScaleNote: requires the chord built from the clicked
  position to fit inside the scale (`ChordFits`), for the same reason.
- ChordState.ClickBuildsChord: assumes the scale ids have no repeats, as
  every expanded scale has. With repeats, `indexOf` would find the first
  copy.
- Engine.UpdateRendersScale: covers octave digits 2 to 7. In octaves 6 and
  7 the top ids have no names in ID_TO_NOTE and are dropped, but the first
  seven always keep theirs, so the same seven names are drawn. At octave 1
  the ids below 12 have no names, so the displayed names start further up
  the scale; the model computes that shifted display, and
  `Engine.UpdateNeverPartial` shows it is still drawn, but no lemma states
  which names it shows.
- Engine.UpdateMapsValidKey: covers octave digits 1 to 7. Other last
  characters take the warning exit, as `Engine.Update` computes.
- `getNoteLetter` is modelled (`Pitch.NoteLetter`), but nothing else uses
  it; `script.js` never calls it either.
