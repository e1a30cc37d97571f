/** The state behind the page: what `update` derives from the selected key
    and mode, and the chord selection the scale-note clicks, the chord-type
    toggle, the inversion buttons and the reset act on. The DOM is gone;
    the text of the displayed scale comes in as a set of strings. */
module Engine {
  import opened Basics
  import opened Pitch
  import opened Spelling
  import opened Modes
  import opened Chords

  /** `s.slice(0, -1)`: all but the last character. */
  function DropLast(s: string): (r: string)
    ensures |s| > 0 ==> s == r + [s[|s| - 1]]
    ensures |s| == 0 ==> r == []
  {
    if |s| == 0 then [] else s[..|s| - 1]
  }

  /** `s.slice(-1)`: the last character alone, or nothing. */
  function LastChar(s: string): (r: string)
    ensures |r| <= 1
    ensures DropLast(s) + r == s
  {
    if |s| == 0 then [] else [s[|s| - 1]]
  }

  /** getNoteNamesFromIDs: the ID_TO_NOTE name of every id, undefined where
      the table has none. */
  function IdNames(ids: seq<int>): (r: seq<Option<string>>)
    ensures |r| == |ids|
    ensures forall k | 0 <= k < |ids| :: r[k] == IdToNote(ids[k])
    ensures forall k | 0 <= k < |ids| :: r[k].Some? <==> 12 <= ids[k] < 96
    ensures forall k | 0 <= k < |ids| :: r[k].Some? ==>
      |r[k].value| > 0 && PitchClass(r[k].value[..|r[k].value| - 1]) == Some(ids[k] % 12)
  {
    seq(|ids|, k requires 0 <= k < |ids| => IdToNote(ids[k]))
  }

  /** The first respelling pass of `update`: strip each name's last
      character, respell the stripped names towards the key, and put the
      last characters back. */
  function RespellNames(raw: seq<string>, baseKey: string): (r: seq<string>)
    ensures |r| == |raw|
  {
    var baseNames := seq(|raw|, i requires 0 <= i < |raw| => DropLast(raw[i]));
    var adjusted := AdjustEnharmonics(baseNames, baseKey);
    seq(|raw|, i requires 0 <= i < |raw| => adjusted[i] + LastChar(raw[i]))
  }

  /** What a call of `update` ends in. */
  datatype UpdateOutcome =
      /** The key is not offered for the mode: the chord is dropped and
          nothing is drawn. */
      Cleared
      /** The key has no id: a warning, and nothing changes. */
    | Unmapped
      /** Fewer than seven names: the scale is stored but not drawn. */
    | Partial(x1: nat, scaleIds: seq<int>, scaleNotes: seq<string>)
      /** The scale is stored and drawn: the seven displayed spellings and
          the numeral row. */
    | Rendered(x1: nat, scaleIds: seq<int>, scaleNotes: seq<string>, display: seq<string>, numerals: seq<string>)

  /** The pure part of `update` for the selected key (spelling plus octave
      digit) and mode name. */
  function Update(selectedKey: string, modeName: string): (r: UpdateOutcome)
    ensures r.Cleared? <==> !IsKeyValidForMode(DropLast(selectedKey), modeName)
    ensures r.Unmapped? <==> IsKeyValidForMode(DropLast(selectedKey), modeName) && NoteId(selectedKey).None?
    ensures r.Partial? || r.Rendered? ==>
      ParseMode(modeName).Some? && NoteId(selectedKey) == Some(r.x1)
      && r.scaleIds == ScaleFromX1(r.x1, ParseMode(modeName).value)
  {
    var baseKey := DropLast(selectedKey);
    var octave := LastChar(selectedKey);
    if !IsKeyValidForMode(baseKey, modeName) then Cleared
    else
      match NoteId(baseKey + octave)
      case None => Unmapped
      case Some(x1) => ScaleOutcome(x1, ParseMode(modeName).value, baseKey)
  }

  /** The rest of `update` once the key has its id `x1`: expand the scale,
      name the ids that have names, respell twice towards the key, and draw
      the first seven names if there are seven. */
  function ScaleOutcome(x1: nat, m: Mode, baseKey: string): (r: UpdateOutcome)
    ensures r.Partial? || r.Rendered?
    ensures r.x1 == x1 && r.scaleIds == ScaleFromX1(x1, m)
    ensures r.Rendered? <==> |r.scaleNotes| >= 7
    ensures |r.scaleNotes| <= |r.scaleIds|
    ensures r.Rendered? ==> |r.display| == 7 && r.numerals == RomanNumerals(m)
  {
    var scaleIds := ScaleFromX1(x1, m);
    var raw := Defined(IdNames(scaleIds));
    var scaleNotes := RespellNames(raw, baseKey);
    if |scaleNotes| < 7 then Partial(x1, scaleIds, scaleNotes)
    else
      var scale := seq(|scaleNotes|, i requires 0 <= i < |scaleNotes| => DropLast(scaleNotes[i]));
      var adjustedScale := AdjustEnharmonics(scale, baseKey);
      Rendered(x1, scaleIds, scaleNotes, adjustedScale[..7], RomanNumerals(m))
  }

  /** `update` clears exactly when the key is not listed for the mode. */
  lemma UpdateClearsInvalidKey(selectedKey: string, modeName: string)
    ensures Update(selectedKey, modeName).Cleared? <==> !IsKeyValidForMode(DropLast(selectedKey), modeName)
  {
  }

  /** A listed key with an octave digit 1..7 always has an id, so the
      warning exit is never taken for it; the id is the key's pitch class in
      that octave. */
  lemma UpdateMapsValidKey(selectedKey: string, modeName: string)
    requires IsKeyValidForMode(DropLast(selectedKey), modeName)
    requires |selectedKey| > 0 && '1' <= selectedKey[|selectedKey| - 1] <= '7'
    ensures PitchClass(DropLast(selectedKey)).Some?
    ensures Update(selectedKey, modeName) == ScaleOutcome(KeyId(selectedKey), ParseMode(modeName).value, DropLast(selectedKey))
  {
    ValidKeyResolves(DropLast(selectedKey), modeName);
    KeyWithOctave(selectedKey);
    UpdateRoute(selectedKey, modeName, KeyId(selectedKey));
  }

  /** The id a selected key names: the pitch class of its spelling in the
      octave its last digit gives, 12 * (digit - 1) + class. */
  function KeyId(selectedKey: string): nat
    requires |selectedKey| > 0 && '1' <= selectedKey[|selectedKey| - 1] <= '7'
    requires PitchClass(DropLast(selectedKey)).Some?
  {
    12 * (selectedKey[|selectedKey| - 1] as int - '1' as int) + PitchClass(DropLast(selectedKey)).value
  }

  /** A listed key whose spelling and octave have the id `x1` goes on to
      expand the scale from `x1`. */
  lemma UpdateRoute(selectedKey: string, modeName: string, x1: nat)
    requires IsKeyValidForMode(DropLast(selectedKey), modeName)
    requires NoteId(selectedKey) == Some(x1)
    ensures Update(selectedKey, modeName) == ScaleOutcome(x1, ParseMode(modeName).value, DropLast(selectedKey))
  {
    assert DropLast(selectedKey) + LastChar(selectedKey) == selectedKey;
  }

  /** A spelling followed by an octave digit 1..7 has the id of its pitch
      class in that octave. */
  lemma KeyWithOctave(selectedKey: string)
    requires |selectedKey| > 0 && '1' <= selectedKey[|selectedKey| - 1] <= '7'
    requires PitchClass(DropLast(selectedKey)).Some?
    ensures NoteId(selectedKey) == Some(KeyId(selectedKey))
  {
    assert selectedKey[..|selectedKey| - 1] == DropLast(selectedKey);
  }

  /** The sharp name of every id, octave dropped. */
  function SharpNames(ids: seq<int>): (r: seq<string>)
    ensures |r| == |ids|
    ensures forall k | 0 <= k < |ids| :: r[k] == NoteNames[ids[k] % 12]
  {
    seq(|ids|, k requires 0 <= k < |ids| => NoteNames[ids[k] % 12])
  }

  /** For a listed key in octaves 2 to 7 `update` draws the scale: the
      displayed spellings are the sharp names of the first seven ids
      respelled towards the key — the second respelling pass changes
      nothing — each has the pitch class of its id, and the first is the key
      itself. */
  lemma UpdateRendersScale(selectedKey: string, modeName: string)
    requires IsKeyValidForMode(DropLast(selectedKey), modeName)
    requires |selectedKey| > 0 && '2' <= selectedKey[|selectedKey| - 1] <= '7'
    ensures var u := Update(selectedKey, modeName);
      var baseKey := DropLast(selectedKey);
      var m := ParseMode(modeName).value;
      u.Rendered?
      && u.scaleIds == ScaleFromX1(u.x1, m)
      && u.numerals == RomanNumerals(m)
      && u.display == AdjustEnharmonics(SharpNames(u.scaleIds), baseKey)[..7]
      && (forall i | 0 <= i < 7 :: PitchClass(u.display[i]) == Some(u.scaleIds[i] % 12))
      && u.display[0] == baseKey
  {
    var x1, c := KeyRoot(selectedKey, modeName);
    ScaleOutcomeRendered(x1, ParseMode(modeName).value, DropLast(selectedKey), c);
  }

  /** Every listed key with an octave digit 1..7 is drawn: enough of its 22
      ids have names, so `update` never stops at the partial outcome. */
  lemma UpdateNeverPartial(selectedKey: string, modeName: string)
    requires IsKeyValidForMode(DropLast(selectedKey), modeName)
    requires |selectedKey| > 0 && '1' <= selectedKey[|selectedKey| - 1] <= '7'
    ensures Update(selectedKey, modeName).Rendered?
  {
    if selectedKey[|selectedKey| - 1] == '1' {
      UpdateMapsValidKey(selectedKey, modeName);
      LowestOctaveDrawn(KeyId(selectedKey), ParseMode(modeName).value, DropLast(selectedKey));
    } else {
      UpdateRendersScale(selectedKey, modeName);
    }
  }

  /** From a root id below 12 the first ids have no names, but the fifteen
      from position 7 on do, so the scale is still drawn. */
  lemma LowestOctaveDrawn(x1: nat, m: Mode, baseKey: string)
    requires x1 < 12
    ensures ScaleOutcome(x1, m, baseKey).Rendered?
  {
    var ids := ScaleFromX1(x1, m);
    HighIdsNamed(x1, m);
    DefinedFrom(IdNames(ids), 7);
  }

  /** From a root id below 12, the ids from position 7 on have names. */
  lemma HighIdsNamed(x1: nat, m: Mode)
    requires x1 < 12
    ensures var names := IdNames(ScaleFromX1(x1, m));
      forall k | 7 <= k < |names| :: names[k].Some?
  {
    var ids := ScaleFromX1(x1, m);
    assert ids[21] == ids[14] + 12 == ids[7] + 24 == x1 + 36;
    forall k | 7 <= k < 22
      ensures 12 <= ids[k] < 96
    {
      if 7 < k {
        StrictlyAscending(ids, 7, k);
      }
      if k < 21 {
        StrictlyAscending(ids, k, 21);
      }
    }
  }

  /** The root id of a listed key in octaves 2 to 7, and the key's pitch
      class. */
  lemma KeyRoot(selectedKey: string, modeName: string) returns (x1: nat, c: nat)
    requires IsKeyValidForMode(DropLast(selectedKey), modeName)
    requires |selectedKey| > 0 && '2' <= selectedKey[|selectedKey| - 1] <= '7'
    ensures 12 <= x1 < 84 && PitchClass(DropLast(selectedKey)) == Some(c) && x1 % 12 == c
    ensures Update(selectedKey, modeName) == ScaleOutcome(x1, ParseMode(modeName).value, DropLast(selectedKey))
  {
    UpdateMapsValidKey(selectedKey, modeName);
    c := PitchClass(DropLast(selectedKey)).value;
    var o := selectedKey[|selectedKey| - 1] as int - '1' as int;
    x1 := 12 * o + c;
    IdSplit(o, c);
  }

  /** From a root id in octaves 2 to 7 with a known key spelling, the scale
      is drawn as the respelled sharp names, and the root keeps the key's
      spelling. In octaves 6 and 7 the top ids have no names and are
      dropped, but the first seven always survive. */
  lemma ScaleOutcomeRendered(x1: nat, m: Mode, baseKey: string, c: nat)
    requires 12 <= x1 < 84 && PitchClass(baseKey) == Some(c) && x1 % 12 == c
    ensures var u := ScaleOutcome(x1, m, baseKey);
      u.Rendered?
      && u.scaleIds == ScaleFromX1(x1, m)
      && u.numerals == RomanNumerals(m)
      && u.display == AdjustEnharmonics(SharpNames(u.scaleIds), baseKey)[..7]
      && (forall i | 0 <= i < 7 :: PitchClass(u.display[i]) == Some(u.scaleIds[i] % 12))
      && u.display[0] == baseKey
  {
    var scaleIds := ScaleFromX1(x1, m);
    var sharp := SharpNames(scaleIds);
    RenderedDisplay(x1, m, baseKey);
    forall i | 0 <= i < 7
      ensures PitchClass(AdjustEnharmonics(sharp, baseKey)[i]) == Some(scaleIds[i] % 12)
    {
      AdjustEnharmonicsSpec(sharp, baseKey, i);
      NoteNamesResolve(scaleIds[i] % 12);
    }
    RootKeepsKeySpelling(sharp, baseKey, c);
  }

  /** From a root id in octaves 2 to 7 the scale is drawn, and the display
      is the first seven sharp names respelled towards the key: the names
      the filter drops lie past the seventh. */
  lemma RenderedDisplay(x1: nat, m: Mode, baseKey: string)
    requires 12 <= x1 < 84
    ensures var u := ScaleOutcome(x1, m, baseKey);
      u.Rendered? && u.display == AdjustEnharmonics(SharpNames(ScaleFromX1(x1, m)), baseKey)[..7]
  {
    var scaleIds := ScaleFromX1(x1, m);
    var p := NamedPrefixNames(x1, m);
    var raw := Defined(IdNames(scaleIds));
    var sharp := SharpNames(scaleIds);
    SecondPassKeeps(raw, baseKey, sharp[..p]);
    AdjustEnharmonicsPrefix(sharp, baseKey, p, 7);
  }

  /** The names that survive the filter for a root in octaves 2 to 7: the
      first `p` ids, at least 8, each as its sharp name plus one character. */
  lemma NamedPrefixNames(x1: int, m: Mode) returns (p: nat)
    requires 12 <= x1 < 84
    ensures var ids := ScaleFromX1(x1, m);
      var raw := Defined(IdNames(ids));
      8 <= p <= |ids| && |raw| == p
      && forall k | 0 <= k < p :: |raw[k]| > 0 && DropLast(raw[k]) == SharpNames(ids)[..p][k]
  {
    var ids := ScaleFromX1(x1, m);
    p := ScaleNamedPrefix(x1, m);
    var names := IdNames(ids);
    DefinedUpTo(names, p);
    assert names[..p] == IdNames(ids[..p]);
    NamesOfIds(ids[..p]);
  }

  /** The ids of a scale rooted in octaves 2 to 7 have names up to some
      position `p`, at least 8, and none from there on. */
  lemma ScaleNamedPrefix(x1: int, m: Mode) returns (p: nat)
    requires 12 <= x1 < 84
    ensures var ids := ScaleFromX1(x1, m);
      8 <= p <= |ids|
      && (forall k | 0 <= k < p :: 12 <= ids[k] < 96)
      && (forall k | p <= k < |ids| :: 96 <= ids[k])
  {
    var ids := ScaleFromX1(x1, m);
    p := 0;
    while p < |ids| && ids[p] < 96
      invariant p <= |ids|
      invariant forall k | 0 <= k < p :: ids[k] < 96
    {
      p := p + 1;
    }
    forall k | 0 <= k < |ids|
      ensures 12 <= ids[k] && (p <= k ==> 96 <= ids[k]) && (k <= 7 ==> ids[k] < 96)
    {
      if 0 < k {
        StrictlyAscending(ids, 0, k);
      }
      if p < k {
        StrictlyAscending(ids, p, k);
      }
      if k < 7 {
        StrictlyAscending(ids, k, 7);
      }
    }
  }

  /** When every id has a name, the defined names are the sharp names with
      one octave digit appended. */
  lemma NamesOfIds(ids: seq<int>)
    requires forall k | 0 <= k < |ids| :: 12 <= ids[k] < 96
    ensures var raw := Defined(IdNames(ids));
      |raw| == |ids|
      && forall k | 0 <= k < |ids| :: |raw[k]| > 0 && DropLast(raw[k]) == NoteNames[ids[k] % 12]
  {
    var names := IdNames(ids);
    assert forall k | 0 <= k < |ids| :: names[k].Some?;
    var raw := Defined(names);
    forall k | 0 <= k < |ids|
      ensures |raw[k]| > 0 && DropLast(raw[k]) == NoteNames[ids[k] % 12]
    {
      assert raw[k] == NoteNames[ids[k] % 12] + [OctaveDigit(ids[k] / 12)];
    }
  }

  /** On names that are a sharp name plus one character, the first pass
      respells the sharp names and keeps the characters, and the second pass
      then finds nothing left to change. */
  lemma SecondPassKeeps(raw: seq<string>, baseKey: string, sharp: seq<string>)
    requires |raw| == |sharp| && |raw| >= 7
    requires forall k | 0 <= k < |raw| :: |raw[k]| > 0 && DropLast(raw[k]) == sharp[k]
    ensures var scaleNotes := RespellNames(raw, baseKey);
      var scale := seq(|scaleNotes|, i requires 0 <= i < |scaleNotes| => DropLast(scaleNotes[i]));
      AdjustEnharmonics(scale, baseKey) == AdjustEnharmonics(sharp, baseKey)
  {
    var baseNames := seq(|raw|, i requires 0 <= i < |raw| => DropLast(raw[i]));
    assert baseNames == sharp;
    var adjusted := AdjustEnharmonics(sharp, baseKey);
    var scaleNotes := RespellNames(raw, baseKey);
    var scale := seq(|scaleNotes|, i requires 0 <= i < |scaleNotes| => DropLast(scaleNotes[i]));
    assert scale == adjusted;
    AdjustEnharmonicsIdempotent(sharp, baseKey);
  }

  /** The key's own spelling survives the respelling of the root: the root's
      sharp name is the key or its partner, and only the key starts with the
      key's letter. */
  lemma RootKeepsKeySpelling(sharp: seq<string>, baseKey: string, c: nat)
    requires PitchClass(baseKey) == Some(c)
    requires |sharp| > 0 && sharp[0] == NoteNames[c]
    ensures AdjustEnharmonics(sharp, baseKey)[0] == baseKey
  {
    SpellingLetters(baseKey);
    ExpectedRootLetter(baseKey);
    AdjustedEntry(sharp, baseKey, 0);
    RespellToKey(NoteNames[c], baseKey, c);
  }

  lemma RespellToKey(name: string, baseKey: string, c: nat)
    requires PitchClass(baseKey) == Some(c) && name == NoteNames[c]
    requires |baseKey| > 0
    ensures Respell(name, Some(baseKey[0])) == baseKey
  {
    PitchClassSpelling(baseKey);
    if baseKey != name {
      PartnerIsPairing(name);
    }
  }

  /** Position 0 expects the root's own first letter. */
  lemma ExpectedRootLetter(root: string)
    requires |root| > 0 && root[0] in Letters
    ensures ExpectedLetter(root, 0) == Some(root[0])
  {
    var start := StartIndex(root);
    assert 0 <= start < 7 && (start + 0) % 7 == start;
  }

  /** C in octave 4, major: the scale is drawn as the seven naturals under
      the major numerals. */
  lemma CMajorUpdate()
    ensures var u := Update("C4", "Major");
      u.Rendered? && u.x1 == 36
      && u.display == ["C", "D", "E", "F", "G", "A", "B"]
      && u.numerals == ["I", "ii", "iii", "IV", "V", "vi", "vii°"]
  {
    CMajorRoute();
    CMajorScale(36);
  }

  /** C4 is a listed major key with id 36. */
  lemma CMajorRoute()
    ensures Update("C4", "Major") == ScaleOutcome(36, Major, "C")
  {
    C4Listed();
    UpdateMapsValidKey("C4", "Major");
    C4Id();
  }

  /** C is listed for the major mode under its own name. */
  lemma C4Listed()
    ensures DropLast("C4") == "C" && ParseMode("Major") == Some(Major)
    ensures IsKeyValidForMode(DropLast("C4"), "Major")
  {
    assert DropLast("C4") == "C";
    assert KeyListed(Major, "C");
  }

  /** C in octave 4 has id 36. */
  lemma C4Id()
    ensures PitchClass(DropLast("C4")) == Some(0) && KeyId("C4") == 36
  {
    assert DropLast("C4") == "C";
  }

  /** C major rooted on any C in octaves 2 to 5 is drawn as the seven
      naturals. */
  lemma CMajorScale(x1: nat)
    requires 12 <= x1 < 60 && x1 % 12 == 0
    ensures var u := ScaleOutcome(x1, Major, "C");
      u.Rendered? && u.display == ["C", "D", "E", "F", "G", "A", "B"]
  {
    assert PitchClass("C") == Some(0);
    ScaleOutcomeRendered(x1, Major, "C", 0);
    CMajorNaturals(x1);
  }

  lemma CMajorNaturals(x1: nat)
    requires x1 % 12 == 0
    ensures AdjustEnharmonics(SharpNames(ScaleFromX1(x1, Major)), "C")[..7] == ["C", "D", "E", "F", "G", "A", "B"]
  {
    var r := AdjustEnharmonics(SharpNames(ScaleFromX1(x1, Major)), "C");
    forall i | 0 <= i < 7
      ensures r[i] == [Letters[i]]
    {
      CMajorEntry(x1, i, Letters[i]);
    }
    NaturalsInOrder(r);
  }

  /** Seven entries that are the natural letters in order are C D E F G A B. */
  lemma NaturalsInOrder(r: seq<string>)
    requires |r| >= 7 && forall i | 0 <= i < 7 :: r[i] == [Letters[i]]
    ensures r[..7] == ["C", "D", "E", "F", "G", "A", "B"]
  {
    EqualEntries(r[..7], ["C", "D", "E", "F", "G", "A", "B"]);
  }

  /** Degree `i` of C major is the natural `letter`, kept by the respelling. */
  lemma CMajorEntry(x1: nat, i: nat, letter: char)
    requires x1 % 12 == 0
    requires i < 7 && letter == Letters[i]
    ensures AdjustEnharmonics(SharpNames(ScaleFromX1(x1, Major)), "C")[i] == [letter]
  {
    var ids := ScaleFromX1(x1, Major);
    ScaleEntry(x1, Major, i);
    assert i / 7 == 0 && i % 7 == i;
    var offset := [0, 2, 4, 5, 7, 9, 11][i];
    assert DegreeOffset(Major, i) == offset by {
      if i == 0 {} else if i == 1 {} else if i == 2 {} else if i == 3 {}
      else if i == 4 {} else if i == 5 {} else {}
    }
    assert ids[i] == 12 * (x1 / 12) + offset;
    IdSplit(x1 / 12, offset);
    var sharp := SharpNames(ids);
    assert sharp[i] == [letter];
    assert StartIndex("C") == 0;
    assert ExpectedLetter("C", i) == Some(letter);
    AdjustedEntry(sharp, "C", i);
  }
}
