/** Spelling choices: the letter-walking enharmonic respelling of a scale,
    the rule that picks how a chord note is shown against the displayed
    scale, and the octave stripping both rely on. */
module Spelling {
  import opened Basics
  import opened Pitch

  /** `noteLetters.indexOf(root[0])`: the root's letter among C..B, or -1
      when the root is empty or does not start with a natural letter. */
  function StartIndex(root: string): (r: int)
    ensures -1 <= r < 7
    ensures r >= 0 <==> |root| > 0 && root[0] in Letters
    ensures r >= 0 ==> Letters[r] == root[0]
  {
    if |root| == 0 then -1 else IndexOf(Letters, root[0])
  }

  /** The letter expected at position `i`: `noteLetters[(start + i) % 7]`.
      JavaScript's `%` keeps the sign of its left operand, so a root with no
      letter (start -1) expects `undefined` at position 0 and C, D, ... from
      position 1 on. */
  function ExpectedLetter(root: string, i: nat): (r: Option<char>)
    ensures r.None? <==> i == 0 && StartIndex(root) == -1
    ensures r.Some? ==> r.value in Letters
    ensures StartIndex(root) >= 0 ==> r == Some(Letters[(StartIndex(root) + i) % 7])
  {
    var idx := StartIndex(root) + i;
    if idx < 0 then None else Some(Letters[idx % 7])
  }

  /** `n[0] === expectedLetter`; an empty string or an undefined expected
      letter never matches. */
  predicate StartsWith(n: string, letter: Option<char>) {
    letter.Some? && |n| > 0 && n[0] == letter.value
  }

  /** `name` or its ENHARMONIC_MAP partner starts with the expected letter. */
  predicate HasSpellingWith(name: string, expected: Option<char>) {
    StartsWith(name, expected) || (Partner(name).Some? && StartsWith(Partner(name).value, expected))
  }

  /** One position of adjustEnharmonics: among the candidates `name` and its
      ENHARMONIC_MAP partner, the first that starts with the expected letter,
      else `name`. */
  function Respell(name: string, expected: Option<char>): (r: string)
    ensures r == name || Partner(name) == Some(r)
    ensures StartsWith(name, expected) ==> r == name
    ensures StartsWith(r, expected) <==> HasSpellingWith(name, expected)
    ensures !HasSpellingWith(name, expected) ==> r == name
  {
    if StartsWith(name, expected) then name
    else if Partner(name).Some? && StartsWith(Partner(name).value, expected) then Partner(name).value
    else name
  }

  /** adjustEnharmonics: respell every entry of `scale` towards the letter
      that follows the root's letter by its position. */
  function AdjustEnharmonics(scale: seq<string>, root: string): (r: seq<string>)
    ensures |r| == |scale|
    ensures forall i | 0 <= i < |r| :: r[i] == scale[i] || Partner(scale[i]) == Some(r[i])
    ensures forall i | 0 <= i < |r| :: StartsWith(r[i], ExpectedLetter(root, i)) <==> HasSpellingWith(scale[i], ExpectedLetter(root, i))
    ensures forall i | 0 <= i < |r| :: !HasSpellingWith(scale[i], ExpectedLetter(root, i)) ==> r[i] == scale[i]
  {
    seq(|scale|, i requires 0 <= i < |scale| => Respell(scale[i], ExpectedLetter(root, i)))
  }

  /** Each entry depends only on its own name and position, so respelling a
      prefix gives the prefix of the respelling. */
  lemma AdjustEnharmonicsPrefix(scale: seq<string>, root: string, p: nat, n: nat)
    requires n <= p <= |scale|
    ensures AdjustEnharmonics(scale[..p], root)[..n] == AdjustEnharmonics(scale, root)[..n]
  {
  }

  /** What adjustEnharmonics promises at every position: the entry is
      `scale[i]` or its enharmonic partner, so the pitch class is kept; a
      candidate with the expected letter is chosen whenever one exists, and
      `scale[i]` is kept when it already has that letter. */
  lemma AdjustEnharmonicsSpec(scale: seq<string>, root: string, i: nat)
    requires i < |scale|
    ensures var r := AdjustEnharmonics(scale, root);
      var e := ExpectedLetter(root, i);
      (r[i] == scale[i] || Partner(scale[i]) == Some(r[i]))
      && PitchClass(r[i]) == PitchClass(scale[i])
      && (StartsWith(scale[i], e) ==> r[i] == scale[i])
      && (StartsWith(r[i], e) <==> HasSpellingWith(scale[i], e))
      && (!HasSpellingWith(scale[i], e) ==> r[i] == scale[i])
  {
    var r := AdjustEnharmonics(scale, root);
    AdjustedEntry(scale, root, i);
    if r[i] != scale[i] {
      PartnerSameClass(scale[i]);
    }
  }

  /** Respelling a respelled entry towards the same letter keeps it. */
  lemma RespellIdempotent(name: string, expected: Option<char>)
    ensures Respell(Respell(name, expected), expected) == Respell(name, expected)
  {
  }

  /** adjustEnharmonics is idempotent: a second pass with the same root
      changes nothing, which is why the second call in `update` is harmless. */
  lemma AdjustEnharmonicsIdempotent(scale: seq<string>, root: string)
    ensures AdjustEnharmonics(AdjustEnharmonics(scale, root), root) == AdjustEnharmonics(scale, root)
  {
    var once := AdjustEnharmonics(scale, root);
    var twice := AdjustEnharmonics(once, root);
    forall i | 0 <= i < |scale|
      ensures twice[i] == once[i]
    {
      RespellIdempotent(scale[i], ExpectedLetter(root, i));
    }
  }

  /** The first `n` names are non-empty and start with `n` different letters. */
  predicate FirstLettersDistinct(r: seq<string>, n: nat) {
    n <= |r| && (forall i | 0 <= i < n :: |r[i]| > 0)
    && forall i, j | 0 <= i < j < n :: r[i][0] != r[j][0]
  }

  /** When the root starts with a letter and every one of the first seven
      entries has a spelling with the expected letter, the respelled entries
      start with seven different letters — one per letter C..B. */
  lemma AdjustedLettersDistinct(scale: seq<string>, root: string)
    requires |scale| >= 7 && StartIndex(root) >= 0
    requires forall i | 0 <= i < 7 :: HasSpellingWith(scale[i], ExpectedLetter(root, i))
    ensures FirstLettersDistinct(AdjustEnharmonics(scale, root), 7)
  {
    AdjustedLettersFromStart(scale, root);
    LettersFromStartDistinct(AdjustEnharmonics(scale, root), StartIndex(root));
  }

  /** The first seven names start with the letters from `Letters[s]` on,
      wrapping round after B. */
  predicate LettersFrom(r: seq<string>, s: int) {
    |r| >= 7 && forall i | 0 <= i < 7 :: StartsWith(r[i], Some(Letters[(s + i) % 7]))
  }

  /** Seven entries carrying the letters from `Letters[s]` on, wrapping
      round, start with seven different letters. */
  lemma LettersFromStartDistinct(r: seq<string>, s: nat)
    requires s < 7 && LettersFrom(r, s)
    ensures FirstLettersDistinct(r, 7)
  {
    forall i, j | 0 <= i < j < 7
      ensures r[i][0] != r[j][0]
    {
      assert StartsWith(r[i], Some(Letters[(s + i) % 7]));
      assert StartsWith(r[j], Some(Letters[(s + j) % 7]));
      LettersApart(s, i, j);
    }
  }

  /** Entries with a spelling of the expected letter are respelled to it. */
  lemma AdjustedLettersFromStart(scale: seq<string>, root: string)
    requires |scale| >= 7 && StartIndex(root) >= 0
    requires forall i | 0 <= i < 7 :: HasSpellingWith(scale[i], ExpectedLetter(root, i))
    ensures LettersFrom(AdjustEnharmonics(scale, root), StartIndex(root))
  {
    forall i | 0 <= i < 7
      ensures StartsWith(AdjustEnharmonics(scale, root)[i], Some(Letters[(StartIndex(root) + i) % 7]))
    {
      AdjustEnharmonicsSpec(scale, root, i);
    }
  }

  /** Two positions fewer than seven apart expect different letters. */
  lemma LettersApart(s: nat, i: nat, j: nat)
    requires s < 7 && i < j < 7
    ensures Letters[(s + i) % 7] != Letters[(s + j) % 7]
  {
    assert (s + i) % 7 != (s + j) % 7;
  }

  /** The F-sharp major scale in sharp names keeps its F (E-sharp is not a
      spelling the tables know), so the respelling gives two F's. */
  lemma SharpKeyRepeatsLetter()
    ensures AdjustEnharmonics(["F#", "G#", "A#", "B", "C#", "D#", "F"], "F#")
      == ["F#", "G#", "A#", "B", "C#", "D#", "F"]
  {
    var scale := ["F#", "G#", "A#", "B", "C#", "D#", "F"];
    assert forall k | 0 <= k < 6 :: |scale[k]| > 0 && scale[k][0] == "FGABCDE"[k];
    assert Partner(scale[6]).None?;
    KeptAfterF(scale, "F#");
  }

  /** After a root on F, a seven-entry scale whose first six entries have
      the letters F..D and whose last entry has no partner comes back
      unchanged. */
  lemma KeptAfterF(scale: seq<string>, root: string)
    requires |root| > 0 && root[0] == 'F' && |scale| == 7
    requires forall k | 0 <= k < 6 :: |scale[k]| > 0 && scale[k][0] == "FGABCDE"[k]
    requires Partner(scale[6]).None?
    ensures AdjustEnharmonics(scale, root) == scale
  {
    var r := AdjustEnharmonics(scale, root);
    forall k | 0 <= k < 6
      ensures r[k] == scale[k]
    {
      ExpectedAt(root, k, "FGABCDE"[k]);
      KeptEntry(scale, root, k, "FGABCDE"[k]);
    }
    KeptEntry(scale, root, 6, 'E');
    EqualEntries(r, scale);
  }

  /** An entry that already has the expected letter, or that has no
      partner to respell to, is kept. */
  lemma KeptEntry(scale: seq<string>, root: string, i: nat, l: char)
    requires i < |scale|
    requires (ExpectedLetter(root, i) == Some(l) && |scale[i]| > 0 && scale[i][0] == l)
      || Partner(scale[i]).None?
    ensures AdjustEnharmonics(scale, root)[i] == scale[i]
  {
    AdjustedEntry(scale, root, i);
  }

  /** Two sequences of seven strings with equal entries are equal. */
  lemma EqualEntries(a: seq<string>, b: seq<string>)
    requires |a| == 7 && |b| == 7
    requires a[0] == b[0] && a[1] == b[1] && a[2] == b[2] && a[3] == b[3]
    requires a[4] == b[4] && a[5] == b[5] && a[6] == b[6]
    ensures a == b
  {
    assert forall i | 0 <= i < 7 :: a[i] == b[i];
  }

  /** The letter expected at position `i` after a root starting with F. */
  lemma ExpectedAt(root: string, i: nat, l: char)
    requires |root| > 0 && root[0] == 'F' && i < 7 && l == "FGABCDE"[i]
    ensures ExpectedLetter(root, i) == Some(l)
  {
    IndexOfDistinctLetters(3);
    WrapLetter(3 + i);
  }

  /** A letter position past B wraps round to C. */
  lemma WrapLetter(k: nat)
    requires k < 14
    ensures k % 7 == if k < 7 then k else k - 7
  {
  }

  /** Entry `i` of adjustEnharmonics is the respelling of `scale[i]` towards
      the letter expected at position `i`. */
  lemma AdjustedEntry(scale: seq<string>, root: string, i: nat)
    requires i < |scale|
    ensures AdjustEnharmonics(scale, root)[i] == Respell(scale[i], ExpectedLetter(root, i))
  {
  }

  /** The letters C..B are distinct, so each is found at its own position. */
  lemma IndexOfDistinctLetters(i: nat)
    requires i < 7
    ensures IndexOf(Letters, Letters[i]) == i
  {
    IndexOfDistinct(Letters, i);
  }

  /** getDisplaySpelling: keep `base` if the displayed scale shows it, else
      show its partner if that is displayed, else keep `base`. */
  function DisplaySpelling(base: string, displayed: set<string>): (r: string)
    ensures r == base || Partner(base) == Some(r)
    ensures base in displayed ==> r == base
    ensures r != base <==> base !in displayed && Partner(base).Some? && Partner(base).value in displayed
    ensures r != base ==> r in displayed
  {
    if base in displayed then base
    else if Partner(base).Some? && Partner(base).value in displayed then Partner(base).value
    else base
  }

  /** Whenever the displayed scale shows some spelling of the note's pitch
      class, the note is shown with a displayed spelling, and its pitch class
      is kept. */
  lemma DisplaySpellingMatchesScale(base: string, displayed: set<string>, shown: string)
    requires shown in displayed && PitchClass(base).Some? && PitchClass(shown) == PitchClass(base)
    ensures DisplaySpelling(base, displayed) in displayed
    ensures PitchClass(DisplaySpelling(base, displayed)) == PitchClass(base)
  {
    PitchClassSpelling(base);
    PitchClassSpelling(shown);
    var c := PitchClass(base).value;
    if Partner(NoteNames[c]).Some? {
      PartnerIsPairing(NoteNames[c]);
    }
  }

  predicate IsDigit(c: char) {
    '0' <= c <= '9'
  }

  /** `n.replace(/\d+$/, '')`: `n` without its trailing run of digits. */
  function StripTrailingDigits(n: string): (r: string)
    ensures |r| <= |n| && r == n[..|r|]
    ensures |r| == 0 || !IsDigit(r[|r| - 1])
    ensures forall k | |r| <= k < |n| :: IsDigit(n[k])
  {
    if |n| > 0 && IsDigit(n[|n| - 1]) then
      var r := StripTrailingDigits(n[..|n| - 1]);
      assert n[..|n| - 1][..|r|] == n[..|r|];
      r
    else n
  }

  /** A spelling followed by one octave digit strips back to the spelling. */
  lemma StripOctave(p: string, o: nat)
    requires PitchClass(p).Some? && o <= 9
    ensures StripTrailingDigits(p + [OctaveDigit(o)]) == p
  {
    var n := p + [OctaveDigit(o)];
    assert n[..|n| - 1] == p;
    assert !IsDigit(p[|p| - 1]) by {
      if |p| == 2 {
        assert p[1] == '#' || p[1] == 'b';
      } else {
        SpellingLetters(p);
      }
    }
    assert StripTrailingDigits(p) == p;
  }

  /** renderChordNoteLabels: each chord note name with its octave stripped,
      kept when the scale shows it, else replaced by its partner when that is
      shown; the test is written out again here, as in the page script. */
  function ChordNoteLabels(noteNames: seq<string>, displayed: set<string>): (r: seq<string>)
    ensures |r| == |noteNames|
    ensures forall k | 0 <= k < |r| ::
      var base := StripTrailingDigits(noteNames[k]);
      r[k] == base || Partner(base) == Some(r[k])
    ensures forall k | 0 <= k < |r| :: StripTrailingDigits(noteNames[k]) in displayed ==> r[k] == StripTrailingDigits(noteNames[k])
  {
    seq(|noteNames|, k requires 0 <= k < |noteNames| =>
      var base := StripTrailingDigits(noteNames[k]);
      if base in displayed then base
      else if Partner(base).Some? && Partner(base).value in displayed then Partner(base).value
      else base)
  }

  /** getDisplaySpelling and renderChordNoteLabels agree: the label of a chord
      note is the display spelling of that note's name without its octave. */
  lemma LabelsAgreeWithDisplaySpelling(noteNames: seq<string>, displayed: set<string>, k: nat)
    requires k < |noteNames|
    ensures ChordNoteLabels(noteNames, displayed)[k] == DisplaySpelling(StripTrailingDigits(noteNames[k]), displayed)
  {
  }

  /** Chord note labels keep pitch class: the label of a name the id table
      produced has the pitch class of that name's id. */
  lemma LabelKeepsPitchClass(ids: seq<int>, displayed: set<string>, k: nat)
    requires k < |ids| && 12 <= ids[k] < 96
    ensures var names := seq(|ids|, j requires 0 <= j < |ids| => if 12 <= ids[j] < 96 then IdToNote(ids[j]).value else "");
      PitchClass(ChordNoteLabels(names, displayed)[k]) == Some(ids[k] % 12)
  {
    var names := seq(|ids|, j requires 0 <= j < |ids| => if 12 <= ids[j] < 96 then IdToNote(ids[j]).value else "");
    var n := names[k];
    var c := ids[k] % 12;
    var o := ids[k] / 12;
    NoteNamesResolve(c);
    assert n == NoteNames[c] + [OctaveDigit(o)];
    StripOctave(NoteNames[c], o);
    var base := StripTrailingDigits(n);
    if ChordNoteLabels(names, displayed)[k] != base {
      PartnerSameClass(base);
    }
  }
}
