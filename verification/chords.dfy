/** Chords on a scale degree: stacking thirds out of the expanded scale,
    the inversion arithmetic, the inversion labels, and the chord quality
    read off a mode's Roman numeral. */
module Chords {
  import opened Modes

  datatype ChordType = Triad | Seventh

  /** getChordSize: three notes for a triad, four for a seventh chord. */
  function ChordSize(t: ChordType): (n: nat)
    ensures n == 3 || n == 4
    ensures n == 4 <==> t == Seventh
  {
    if t == Seventh then 4 else 3
  }

  /** buildChordIDs: every second entry of the scale from `start` on, `size`
      of them. In JavaScript a read past the end pushes `undefined`; here
      every index read must lie inside the scale. */
  function BuildChordIds(scaleIds: seq<int>, start: nat, size: nat): (ids: seq<int>)
    requires size == 0 || start + 2 * (size - 1) < |scaleIds|
    ensures |ids| == size
    ensures forall k | 0 <= k < size :: ids[k] == scaleIds[start + 2 * k]
  {
    seq(size, k requires 0 <= k < size => scaleIds[start + 2 * k])
  }

  /** The push loop of buildChordIDs: for k = 0 .. size-1, append entry
      start + 2k of the scale. */
  method CollectChordIds(scaleIds: seq<int>, start: nat, size: nat) returns (ids: seq<int>)
    requires size == 0 || start + 2 * (size - 1) < |scaleIds|
    ensures ids == BuildChordIds(scaleIds, start, size)
  {
    ids := [];
    var k := 0;
    while k < size
      invariant 0 <= k <= size
      invariant |ids| == k
      invariant forall j | 0 <= j < k :: ids[j] == scaleIds[start + 2 * j]
    {
      ids := ids + [scaleIds[start + 2 * k]];
      k := k + 1;
    }
  }

  /** A seventh chord is its degree's triad with one more third on top. */
  lemma SeventhExtendsTriad(scaleIds: seq<int>, start: nat)
    requires start + 6 < |scaleIds|
    ensures BuildChordIds(scaleIds, start, 4)[..3] == BuildChordIds(scaleIds, start, 3)
  {
  }

  /** The chords a click builds — from one of the seven displayed degrees
      of a 22-id scale, as a triad or a seventh — read only inside the
      scale, climb strictly, and span less than an octave. */
  lemma ClickedChordShape(x1: int, m: Mode, start: nat, t: ChordType)
    requires start < 7
    ensures var scale := ScaleFromX1(x1, m);
      var size := ChordSize(t);
      start + 2 * (size - 1) < |scale|
      && var ids := BuildChordIds(scale, start, size);
      (forall k | 0 <= k < size - 1 :: ids[k] < ids[k + 1])
      && ids[size - 1] - ids[0] < 12
  {
    var scale := ScaleFromX1(x1, m);
    var size := ChordSize(t);
    var ids := BuildChordIds(scale, start, size);
    forall k | 0 <= k < size - 1
      ensures ids[k] < ids[k + 1]
    {
      assert ids[k + 1] == scale[start + 2 * k + 2];
      assert scale[start + 2 * k] < scale[start + 2 * k + 1] < scale[start + 2 * k + 2];
    }
    assert ids[size - 1] < scale[start + 7] by {
      assert scale[start + 2 * (size - 1)] < scale[start + 7] by {
        StrictlyAscending(scale, start + 2 * (size - 1), start + 7);
      }
    }
    assert scale[start + 7] == scale[start] + 12;
  }

  /** In a sequence that climbs step by step, a later entry is larger. */
  lemma {:induction false} StrictlyAscending(s: seq<int>, a: nat, b: nat)
    requires forall k | 0 <= k < |s| - 1 :: s[k] < s[k + 1]
    requires a < b < |s|
    ensures s[a] < s[b]
    decreases b - a
  {
    if a + 1 < b {
      StrictlyAscending(s, a + 1, b);
    }
  }

  /** JavaScript's `%`: the remainder takes the sign of the dividend. */
  function JsRem(a: int, n: int): (r: int)
    requires n > 0
    ensures -n < r < n
    ensures a >= 0 ==> r == a % n
    ensures a < 0 ==> r <= 0
  {
    if a >= 0 then a % n else -((-a) % n)
  }

  /** The dividend is a multiple of the divisor plus the JavaScript remainder. */
  lemma JsRemDecompose(a: int, n: int) returns (q: int)
    requires n > 0
    ensures a == q * n + JsRem(a, n)
  {
    if a >= 0 {
      q := a / n;
    } else {
      q := -((-a) / n);
    }
  }

  /** Quotient and remainder are unique. */
  lemma DivModUnique(a: int, n: int, q: int, r: int)
    requires n > 0 && 0 <= r < n && a == q * n + r
    ensures a % n == r
  {
    var q0, r0 := a / n, a % n;
    assert (q - q0) * n == r0 - r;
    if q - q0 >= 1 {
      MulAtLeast(q - q0, n);
    } else if q - q0 <= -1 {
      MulAtLeast(q0 - q, n);
    }
  }

  lemma {:induction false} MulAtLeast(d: int, n: int)
    requires d >= 1 && n > 0
    ensures d * n >= n
    decreases d
  {
    if d > 1 {
      MulAtLeast(d - 1, n);
      assert d * n == (d - 1) * n + n;
    }
  }

  /** `((i % n) + n) % n`: an inversion number brought into 0..n-1. With
      JavaScript's `%` this is the floored remainder of `i`. */
  function NormalizeInversion(i: int, n: nat): (inv: nat)
    requires n > 0
    ensures inv < n
    ensures inv == i % n
  {
    JsNormalizeIsMod(i, n);
    JsRem(JsRem(i, n) + n, n)
  }

  /** The JavaScript normalisation is the mathematical (floored) remainder,
      so `i` and `i + n` select the same inversion. */
  lemma NormalizeIsFloorMod(i: int, n: nat)
    requires n > 0
    ensures NormalizeInversion(i, n) == i % n
    ensures NormalizeInversion(i + n, n) == NormalizeInversion(i, n)
  {
    var i0, r0 := i / n, i % n;
    assert i + n == (i0 + 1) * n + r0;
    DivModUnique(i + n, n, i0 + 1, r0);
  }

  /** Adding `n` to the truncated remainder and taking the truncated
      remainder again gives the floored remainder. */
  lemma JsNormalizeIsMod(i: int, n: nat)
    requires n > 0
    ensures JsRem(JsRem(i, n) + n, n) == i % n
  {
    var t := JsRem(i, n);
    var q := JsRemDecompose(i, n);
    var u := JsRem(t + n, n);
    var q2 := JsRemDecompose(t + n, n);
    assert i == (q + q2 - 1) * n + u;
    DivModUnique(i, n, q + q2 - 1, u);
  }

  /** The voicing of the base chord in inversion `i` (setActiveInversion):
      normalise `i`, raise the first `inv` notes by an octave, then rotate
      them to the top. */
  function Voicing(base: seq<int>, i: int): (r: seq<int>)
    requires |base| > 0
    ensures |r| == |base|
    ensures var inv := NormalizeInversion(i, |base|);
      r == base[inv..] + RaiseOctave(base[..inv])
  {
    var inv := NormalizeInversion(i, |base|);
    var raised := seq(|base|, k requires 0 <= k < |base| => if k < inv then base[k] + 12 else base[k]);
    var r := raised[inv..] + raised[..inv];
    assert forall k | 0 <= k < |r| :: r[k] == (base[inv..] + RaiseOctave(base[..inv]))[k];
    r
  }

  /** An octave above every note of `s`. */
  function RaiseOctave(s: seq<int>): (r: seq<int>)
    ensures |r| == |s|
    ensures forall k | 0 <= k < |s| :: r[k] == s[k] + 12
  {
    seq(|s|, k requires 0 <= k < |s| => s[k] + 12)
  }

  /** Inversion `inv` is the base from note `inv` on, followed by the notes
      below `inv` an octave higher; in particular inversion 0 is the base
      itself, and `i` and `i + n` give the same voicing. */
  lemma VoicingShape(base: seq<int>, i: int)
    requires |base| > 0
    ensures var inv := NormalizeInversion(i, |base|);
      Voicing(base, i) == base[inv..] + RaiseOctave(base[..inv])
    ensures NormalizeInversion(i, |base|) == 0 ==> Voicing(base, i) == base
    ensures Voicing(base, i + |base|) == Voicing(base, i)
  {
    VoicingRotates(base, i);
    VoicingRotates(base, i + |base|);
    NormalizeIsFloorMod(i, |base|);
  }

  lemma VoicingRotates(base: seq<int>, i: int)
    requires |base| > 0
    ensures var inv := NormalizeInversion(i, |base|);
      Voicing(base, i) == base[inv..] + RaiseOctave(base[..inv])
  {
    var inv := NormalizeInversion(i, |base|);
    var r := Voicing(base, i);
    var want := base[inv..] + RaiseOctave(base[..inv]);
    assert |r| == |want|;
    forall k | 0 <= k < |r|
      ensures r[k] == want[k]
    {
    }
  }

  /** The stored, normalised inversion gives back the voicing it came from. */
  lemma VoicingNormalized(base: seq<int>, i: int)
    requires |base| > 0
    ensures Voicing(base, NormalizeInversion(i, |base|)) == Voicing(base, i)
  {
    var inv := NormalizeInversion(i, |base|);
    NormalizeFixed(inv, |base|);
    VoicingRotates(base, inv);
    VoicingRotates(base, i);
  }

  /** An inversion already in range is its own normal form. */
  lemma NormalizeFixed(inv: nat, n: nat)
    requires inv < n
    ensures NormalizeInversion(inv, n) == inv
  {
    DivModUnique(inv, n, 0, inv);
    DivModUnique(inv + n, n, 1, inv);
  }

  /** Every voicing keeps the notes' pitch classes, rotated by the
      inversion: note `k` of the voicing has the class of base note
      `(k + inv) mod n`. */
  lemma VoicingKeepsPitchClasses(base: seq<int>, i: int, k: nat)
    requires |base| > 0 && k < |base|
    ensures var inv := NormalizeInversion(i, |base|);
      var j := if k + inv < |base| then k + inv else k + inv - |base|;
      Voicing(base, i)[k] % 12 == base[j] % 12
  {
    var inv := NormalizeInversion(i, |base|);
    VoicingRotates(base, i);
    if k + inv >= |base| {
      var x := base[k + inv - |base|];
      assert Voicing(base, i)[k] == x + 12;
      assert (x + 12) % 12 == x % 12;
    }
  }

  /** A base chord that climbs strictly and spans less than an octave climbs
      strictly in every inversion, and its inversions differ in their lowest
      note. */
  lemma VoicingAscending(base: seq<int>, i: int)
    requires |base| > 0
    requires forall k | 0 <= k < |base| - 1 :: base[k] < base[k + 1]
    requires base[|base| - 1] - base[0] < 12
    ensures var r := Voicing(base, i);
      forall k | 0 <= k < |r| - 1 :: r[k] < r[k + 1]
    ensures Voicing(base, i)[0] == base[NormalizeInversion(i, |base|)]
  {
    var inv := NormalizeInversion(i, |base|);
    var n := |base|;
    VoicingShape(base, i);
    var r := Voicing(base, i);
    forall k | 0 <= k < n - 1
      ensures r[k] < r[k + 1]
    {
      if k + 1 + inv == n {
        assert r[k] == base[n - 1];
        assert r[k + 1] == base[0] + 12;
      }
    }
  }

  /** Two different inversions of a strictly climbing base start on
      different notes. */
  lemma InversionsDiffer(base: seq<int>, a: int, b: int)
    requires |base| > 0
    requires forall k | 0 <= k < |base| - 1 :: base[k] < base[k + 1]
    requires base[|base| - 1] - base[0] < 12
    requires NormalizeInversion(a, |base|) != NormalizeInversion(b, |base|)
    ensures Voicing(base, a) != Voicing(base, b)
  {
    VoicingAscending(base, a);
    VoicingAscending(base, b);
    var x, y := NormalizeInversion(a, |base|), NormalizeInversion(b, |base|);
    if x < y {
      StrictlyAscending(base, x, y);
    } else {
      StrictlyAscending(base, y, x);
    }
  }

  /** ordinalLabel: the button label of inversion `i`. */
  function OrdinalLabel(i: int): (r: string)
    ensures r in ["Root", "1st", "2nd", "3rd"]
    ensures r == "Root" <==> i == 0
    ensures 1 <= i <= 3 ==> r[0] == ('0' as int + i) as char
    ensures i != 0 && i != 1 && i != 2 ==> r == "3rd"
  {
    if i == 0 then "Root"
    else if i == 1 then "1st"
    else if i == 2 then "2nd"
    else "3rd"
  }

  /** The four inversions of a seventh chord get four different labels. */
  lemma OrdinalLabelsDistinct(a: int, b: int)
    requires 0 <= a < b < 4
    ensures OrdinalLabel(a) != OrdinalLabel(b)
  {
  }
}
