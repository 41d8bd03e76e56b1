/**
 * The chord search of the harmonizer (scripts/accomp.py): the seven stacked-third triads of a key,
 * the four candidate keys of a home key, the symmetric-difference distance between a triad and the
 * notes of a measure, and the running-minimum search over the 4 x 7 candidates.
 *
 * Pitches are pitch classes. music21 compares spelled names (`p.name`), so a triad spelled with
 * D-flat and a note spelled C# count as different there and as equal here.
 */
module Harmony {
  import opened Music
  import opened Wrappers
  import Strings

  datatype Key = Key(tonic: PitchClass, mode: Mode)

  /**
   * The mode of `key.Key(pitch)` when no mode is passed: music21 reads a tonic name that starts with an
   * upper-case letter, which every pitch name does, as major.
   */
  const UnspecifiedMode: Mode := Major

  /** Semitone steps from each scale degree to the next, the last one back to the octave. */
  function Steps(m: Mode): seq<nat>
  {
    if m == Major then [2, 2, 1, 2, 2, 2, 1] else [2, 1, 2, 2, 1, 2, 2]
  }

  /** Semitones from the tonic to each of the seven degrees (major scale, natural minor scale). */
  function Offsets(m: Mode): seq<nat>
  {
    if m == Major then [0, 2, 4, 5, 7, 9, 11] else [0, 2, 3, 5, 7, 8, 10]
  }

  /** The first seven pitches of `key.getScale().getPitches()`. */
  function Scale(k: Key): (r: seq<PitchClass>)
    ensures |r| == 7
  {
    seq(7, i requires 0 <= i < 7 => Transpose(k.tonic, Offsets(k.mode)[i]))
  }

  function ScaleSet(k: Key): set<PitchClass>
  {
    set i | 0 <= i < 7 :: Scale(k)[i]
  }

  /** Walking the scale by the mode's steps gives the next degree, wrapping from the seventh to the tonic. */
  lemma ScaleFollowsSteps(k: Key, i: nat)
    requires i < 7
    ensures Scale(k)[(i + 1) % 7] == Transpose(Scale(k)[i], Steps(k.mode)[i])
  {
    var a, step := Offsets(k.mode)[i], Steps(k.mode)[i];
    var j := if i < 6 then i + 1 else 0;
    assert (i + 1) % 7 == j;
    TransposeTwice(k.tonic, a, step);
    OffsetsAccumulateSteps(k.mode, i);
    if i == 6 {
      assert a + step == 12;
      ModShift(k.tonic + 12, 1);
      assert Transpose(k.tonic, 12) == Transpose(k.tonic, 0);
    }
  }

  lemma OffsetsAccumulateSteps(m: Mode, i: nat)
    requires i < 7
    ensures i < 6 ==> Offsets(m)[i + 1] == Offsets(m)[i] + Steps(m)[i]
    ensures i == 6 ==> Offsets(m)[i] + Steps(m)[i] == 12
  {
  }

  /** Transposing one tonic by two offsets that differ by less than an octave gives two pitch classes. */
  lemma TransposeDistinct(t: PitchClass, a: int, b: int)
    requires 0 <= a < b < 12
    ensures Transpose(t, a) != Transpose(t, b)
  {
  }

  lemma ScaleDistinct(k: Key, i: nat, j: nat)
    requires i < 7 && j < 7 && i != j
    ensures Scale(k)[i] != Scale(k)[j]
  {
    if i < j { TransposeDistinct(k.tonic, Offsets(k.mode)[i], Offsets(k.mode)[j]); }
    else { TransposeDistinct(k.tonic, Offsets(k.mode)[j], Offsets(k.mode)[i]); }
  }

  /** Roman-numeral labels of the seven degrees, in scale order. */
  function DegreeLabels(m: Mode): seq<string>
  {
    if m == Major then ["I", "ii", "iii", "IV", "V", "vi", "vii\U{b0}"]
    else ["i", "ii\U{b0}", "III", "iv", "v", "VI", "VII"]
  }

  datatype Triad = Triad(root: PitchClass, third: PitchClass, fifth: PitchClass)

  /** The pitch names of `chord.pitches`, as a set. */
  function PitchSet(t: Triad): set<PitchClass>
  {
    {t.root, t.third, t.fifth}
  }

  /** `chord.Chord([scale[i], scale[(i + 2) % 7], scale[(i + 4) % 7]])` */
  function StackedTriad(scale: seq<PitchClass>, i: nat): Triad
    requires |scale| == 7 && i < 7
  {
    Triad(scale[i], scale[(i + 2) % 7], scale[(i + 4) % 7])
  }

  /**
   * The items of the dictionary `get_key_harmony_named(k)`, in insertion order. The labels are
   * distinct (TriadTableShape), so no assignment overwrites an earlier one.
   */
  function HarmonyTable(k: Key): (h: seq<(string, Triad)>)
    ensures |h| == 7
  {
    seq(7, i requires 0 <= i < 7 => (DegreeLabels(k.mode)[i], StackedTriad(Scale(k), i)))
  }

  /**
   * `get_key_harmony_named`: the dictionary is filled one degree at a time.
   */
  method KeyHarmony(k: Key) returns (harmony: seq<(string, Triad)>)
    ensures harmony == HarmonyTable(k)
  {
    var degreeNames := DegreeLabels(k.mode);
    var scalePitches := Scale(k);
    harmony := [];
    for i := 0 to 7
      invariant harmony == HarmonyTable(k)[..i]
    {
      var root := scalePitches[i];
      var third := scalePitches[(i + 2) % 7];
      var fifth := scalePitches[(i + 4) % 7];
      harmony := harmony + [(degreeNames[i], Triad(root, third, fifth))];
    }
  }

  /**
   * Seven entries with pairwise distinct labels, the mode's labels in order, and triads of three
   * distinct pitch classes drawn from the key's scale.
   */
  lemma TriadTableShape(k: Key)
    ensures var h := HarmonyTable(k);
      && |h| == 7
      && (forall i, j :: 0 <= i < j < 7 ==> h[i].0 != h[j].0)
      && (forall i :: 0 <= i < 7 ==> h[i].0 == DegreeLabels(k.mode)[i])
      && (forall i :: 0 <= i < 7 ==> |PitchSet(h[i].1)| == 3 && PitchSet(h[i].1) <= ScaleSet(k))
  {
    var h := HarmonyTable(k);
    LabelsDistinct(k.mode);
    assert forall i :: 0 <= i < 7 ==> h[i].0 == DegreeLabels(k.mode)[i];
    forall i | 0 <= i < 7
      ensures |PitchSet(h[i].1)| == 3 && PitchSet(h[i].1) <= ScaleSet(k)
    {
      TriadDistinct(k, i);
    }
  }

  /** Length and first character tell the seven labels of a mode apart. */
  lemma LabelsDistinct(m: Mode)
    ensures forall i, j :: 0 <= i < j < 7 ==> DegreeLabels(m)[i] != DegreeLabels(m)[j]
  {
    var l := DegreeLabels(m);
    forall i, j | 0 <= i < j < 7 ensures l[i] != l[j] {
      assert |l[i]| != |l[j]| || l[i][0] != l[j][0];
    }
  }

  lemma TriadDistinct(k: Key, i: nat)
    requires i < 7
    ensures |PitchSet(HarmonyTable(k)[i].1)| == 3
    ensures PitchSet(HarmonyTable(k)[i].1) <= ScaleSet(k)
  {
    var t := HarmonyTable(k)[i].1;
    ScaleDistinct(k, i, (i + 2) % 7);
    ScaleDistinct(k, i, (i + 4) % 7);
    ScaleDistinct(k, (i + 2) % 7, (i + 4) % 7);
    assert PitchSet(t) == {t.root} + {t.third} + {t.fifth};
  }

  datatype Quality = MajorTriad | MinorTriad | DiminishedTriad | OtherTriad

  /** Semitones from `a` up to `b`. */
  function Interval(a: PitchClass, b: PitchClass): nat
  {
    (b - a) % 12
  }

  /** The quality of a triad by its intervals above the root: major third and perfect fifth, and so on. */
  function QualityOf(t: Triad): Quality
  {
    var third := Interval(t.root, t.third);
    var fifth := Interval(t.root, t.fifth);
    if third == 4 && fifth == 7 then MajorTriad
    else if third == 3 && fifth == 7 then MinorTriad
    else if third == 3 && fifth == 6 then DiminishedTriad
    else OtherTriad
  }

  /** The quality a Roman numeral names: '°' diminished, upper case major, lower case minor. */
  function LabelQuality(numeral: string): Quality
  {
    if numeral != [] && numeral[|numeral| - 1] == '\U{b0}' then DiminishedTriad
    else if numeral != [] && Strings.IsUpper(numeral[0]) then MajorTriad
    else MinorTriad
  }

  lemma IntervalOfTransposes(t: PitchClass, a: int, b: int)
    requires 0 <= a < 12 && 0 <= b < 12
    ensures Interval(Transpose(t, a), Transpose(t, b)) == (b - a) % 12
  {
    var qa := if t + a < 12 then 0 else 1;
    var qb := if t + b < 12 then 0 else 1;
    ModShift(t + a, qa);
    ModShift(t + b, qb);
    assert Transpose(t, a) == t + a - 12 * qa;
    assert Transpose(t, b) == t + b - 12 * qb;
    ModShift(b - a, qb - qa);
  }

  /** Each label names the quality of the triad it is attached to, so every triad is major, minor or diminished. */
  lemma LabelsNameQualities(k: Key, i: nat)
    requires i < 7
    ensures LabelQuality(HarmonyTable(k)[i].0) == QualityOf(HarmonyTable(k)[i].1)
    ensures QualityOf(HarmonyTable(k)[i].1) != OtherTriad
  {
    var t := k.tonic;
    var entry := HarmonyTable(k)[i];
    var a, b, c := Offsets(k.mode)[i], Offsets(k.mode)[(i + 2) % 7], Offsets(k.mode)[(i + 4) % 7];
    assert entry.1 == Triad(Transpose(t, a), Transpose(t, b), Transpose(t, c));
    IntervalOfTransposes(t, a, b);
    IntervalOfTransposes(t, a, c);
    QualityByOffsets(k.mode, i);
  }

  /** The intervals of each degree's triad, read off the offsets of the mode. */
  lemma QualityByOffsets(m: Mode, i: nat)
    requires i < 7
    ensures var a: int, b: int, c: int := Offsets(m)[i], Offsets(m)[(i + 2) % 7], Offsets(m)[(i + 4) % 7];
      var third, fifth := (b - a) % 12, (c - a) % 12;
      var q := LabelQuality(DegreeLabels(m)[i]);
      && (q == MajorTriad ==> third == 4 && fifth == 7)
      && (q == MinorTriad ==> third == 3 && fifth == 7)
      && (q == DiminishedTriad ==> third == 3 && fifth == 6)
  {
    var l := DegreeLabels(m);
    if m == Major {
      assert l[6] == "vii\U{b0}";
      assert i == 0 || i == 1 || i == 2 || i == 3 || i == 4 || i == 5 || i == 6;
    } else {
      assert l[1] == "ii\U{b0}";
      assert i == 0 || i == 1 || i == 2 || i == 3 || i == 4 || i == 5 || i == 6;
    }
  }

  // ---------------------------------------------------------------------------
  // Distance between a triad and the notes of a measure

  /** An element of a measure: a single note, a rest, or a chord. */
  datatype Element = Note(pc: PitchClass) | Rest | ChordElement(pcs: seq<PitchClass>)

  /** `set(n.name for n in note_group if isinstance(n, note.Note))` */
  function SoundingSet(g: seq<Element>): set<PitchClass>
  {
    set i | 0 <= i < |g| && g[i].Note? :: g[i].pc
  }

  /** `chord_distance_no_octave`: the size of the symmetric difference of the two name sets. */
  function Distance(t: Triad, g: seq<Element>): nat
  {
    var a := PitchSet(t);
    var b := SoundingSet(g);
    |(a - b) + (b - a)|
  }

  /** Distance 0 exactly when the triad's names are the names sounding in the group. */
  lemma DistanceZeroIffSame(t: Triad, g: seq<Element>)
    ensures Distance(t, g) == 0 <==> PitchSet(t) == SoundingSet(g)
  {
    var a := PitchSet(t);
    var b := SoundingSet(g);
    if Distance(t, g) == 0 {
      assert (a - b) + (b - a) == {};
      forall x | x in a ensures x in b { assert x !in a - b; }
      forall x | x in b ensures x in a { assert x !in b - a; }
    }
  }

  /** The elements of `g` that are single notes, in order. */
  function NotesOnly(g: seq<Element>): (r: seq<Element>)
    ensures forall i :: 0 <= i < |r| ==> r[i].Note?
  {
    if g == [] then []
    else if g[0].Note? then [g[0]] + NotesOnly(g[1..])
    else NotesOnly(g[1..])
  }

  lemma {:induction false} NotesOnlySameSet(g: seq<Element>)
    ensures SoundingSet(NotesOnly(g)) == SoundingSet(g)
  {
    if g != [] {
      NotesOnlySameSet(g[1..]);
      assert SoundingSet(g) == (if g[0].Note? then {g[0].pc} else {}) + SoundingSet(g[1..]) by {
        forall x | x in SoundingSet(g) ensures x in (if g[0].Note? then {g[0].pc} else {}) + SoundingSet(g[1..]) {
          var i :| 0 <= i < |g| && g[i].Note? && g[i].pc == x;
          if i > 0 { assert g[1..][i - 1] == g[i]; }
        }
        forall x | x in SoundingSet(g[1..]) ensures x in SoundingSet(g) {
          var i :| 0 <= i < |g[1..]| && g[1..][i].Note? && g[1..][i].pc == x;
          assert g[i + 1] == g[1..][i];
        }
      }
      if g[0].Note? {
        var r := NotesOnly(g);
        assert r == [g[0]] + NotesOnly(g[1..]);
        assert SoundingSet(r) == {g[0].pc} + SoundingSet(NotesOnly(g[1..])) by {
          forall x | x in SoundingSet(r) ensures x in {g[0].pc} + SoundingSet(NotesOnly(g[1..])) {
            var i :| 0 <= i < |r| && r[i].Note? && r[i].pc == x;
            if i > 0 { assert r[i] == NotesOnly(g[1..])[i - 1]; }
          }
          forall x | x in SoundingSet(NotesOnly(g[1..])) ensures x in SoundingSet(r) {
            var i :| 0 <= i < |NotesOnly(g[1..])| && NotesOnly(g[1..])[i].pc == x;
            assert r[i + 1] == NotesOnly(g[1..])[i];
          }
          assert r[0].pc == g[0].pc;
        }
      }
    }
  }

  /** Rests and chords in the group do not change the distance. */
  lemma DistanceIgnoresRestsAndChords(t: Triad, g: seq<Element>)
    ensures Distance(t, g) == Distance(t, NotesOnly(g))
  {
    NotesOnlySameSet(g);
  }

  /** With nothing sounding, a triad of three distinct pitch classes is at distance 3. */
  lemma DistanceOfSilence(t: Triad, g: seq<Element>)
    requires |PitchSet(t)| == 3
    requires forall i :: 0 <= i < |g| ==> !g[i].Note?
    ensures Distance(t, g) == 3
  {
    assert SoundingSet(g) == {};
    assert (PitchSet(t) - {}) + ({} - PitchSet(t)) == PitchSet(t);
  }

  // ---------------------------------------------------------------------------
  // Candidate keys and the search

  /** `music_key.relative`: same key signature, other mode. */
  function Relative(k: Key): Key
  {
    if k.mode == Major then Key(Transpose(k.tonic, 9), Minor) else Key(Transpose(k.tonic, 3), Major)
  }

  /**
   * `get_common_modulation_keys`: the home key, the keys on the tonic a fifth up and a fifth down, and
   * the relative key, in that order and without removing coinciding keys. The two fifth keys are built
   * from a tonic alone and so take UnspecifiedMode, whatever the home mode.
   */
  function ModulationKeys(home: Key): (ks: seq<Key>)
    ensures |ks| == 4 && ks[0] == home && ks[3] == Relative(home)
    ensures ks[1] == Key(Transpose(home.tonic, 7), UnspecifiedMode)
    ensures ks[2] == Key(Transpose(home.tonic, -7), UnspecifiedMode)
  {
    [home, Key(Transpose(home.tonic, 7), UnspecifiedMode), Key(Transpose(home.tonic, -7), UnspecifiedMode), Relative(home)]
  }

  /** How many degrees above the home tonic the relative key's tonic lies. */
  function RelativeMove(m: Mode): nat
  {
    if m == Major then 5 else 2
  }

  /** Degree i + RelativeMove(m), counted round the seven degrees. */
  function RelativeIndex(m: Mode, i: nat): (j: nat)
    requires i < 7
    ensures j < 7
  {
    var j := i + RelativeMove(m);
    if j < 7 then j else j - 7
  }

  /**
   * Degree i of the relative key lies, in semitones above the home tonic, on degree i + RelativeMove
   * of the home key or an octave above it.
   */
  lemma RelativeOffsets(m: Mode, i: nat)
    requires i < 7
    ensures var a := (if m == Major then 9 else 3) + Offsets(if m == Major then Minor else Major)[i];
      var b := Offsets(m)[RelativeIndex(m, i)];
      a == b || a == b + 12
  {
    var j := RelativeIndex(m, i);
    if m == Major {
      assert j == [5, 6, 0, 1, 2, 3, 4][i];
    } else {
      assert j == [2, 3, 4, 5, 6, 0, 1][i];
    }
  }

  /** Degree i of the relative key is degree i + RelativeMove of the home key. */
  lemma RelativeDegree(k: Key, i: nat)
    requires i < 7
    ensures Scale(Relative(k))[i] == Scale(k)[RelativeIndex(k.mode, i)]
  {
    var r := Relative(k);
    var shift: int := if k.mode == Major then 9 else 3;
    var j := RelativeIndex(k.mode, i);
    var a := shift + Offsets(r.mode)[i];
    var b := Offsets(k.mode)[j];
    RelativeOffsets(k.mode, i);
    assert Scale(r)[i] == Transpose(Transpose(k.tonic, shift), Offsets(r.mode)[i]);
    TransposeTwice(k.tonic, shift, Offsets(r.mode)[i]);
    assert Scale(k)[j] == Transpose(k.tonic, b);
    if a == b + 12 {
      ModShift(k.tonic + a, 1);
    }
  }

  lemma RelativeScaleWithin(k: Key)
    ensures ScaleSet(Relative(k)) <= ScaleSet(k)
  {
    forall x | x in ScaleSet(Relative(k)) ensures x in ScaleSet(k) {
      var i :| 0 <= i < 7 && Scale(Relative(k))[i] == x;
      RelativeDegree(k, i);
    }
  }

  lemma ScaleWithinRelative(k: Key)
    ensures ScaleSet(k) <= ScaleSet(Relative(k))
  {
    var move := RelativeMove(k.mode);
    forall x | x in ScaleSet(k) ensures x in ScaleSet(Relative(k)) {
      var j :| 0 <= j < 7 && Scale(k)[j] == x;
      var i := if j >= move then j - move else j + 7 - move;
      assert RelativeIndex(k.mode, i) == j;
      RelativeDegree(k, i);
    }
  }

  /** The relative key has the other mode, the same seven pitch classes, and leads back to the home key. */
  lemma RelativeSharesScale(k: Key)
    ensures Relative(k).mode != k.mode
    ensures ScaleSet(Relative(k)) == ScaleSet(k)
    ensures Relative(Relative(k)) == k
  {
    RelativeScaleWithin(k);
    ScaleWithinRelative(k);
    var shift: int := if k.mode == Major then 9 else 3;
    TransposeTwice(k.tonic, shift, 12 - shift);
    ModShift(k.tonic + 12, 1);
  }

  /** One (key, degree) pair of the search; `degree` is the dictionary key, `triad` its value. */
  datatype Candidate = Candidate(key: Key, degree: string, triad: Triad)

  /** The seven candidates of one key, in the order of its table. */
  function KeyCandidates(k: Key): (cs: seq<Candidate>)
    ensures |cs| == 7
  {
    seq(7, d requires 0 <= d < 7 => Candidate(k, HarmonyTable(k)[d].0, HarmonyTable(k)[d].1))
  }

  /** The candidates of the keys `ks`, key by key. */
  function CandidatesOf(ks: seq<Key>): (cs: seq<Candidate>)
    ensures |cs| == 7 * |ks|
  {
    if ks == [] then [] else KeyCandidates(ks[0]) + CandidatesOf(ks[1..])
  }

  /** Candidate `7 * ki + di` is degree `di` of key `ki`. */
  lemma {:induction false} CandidatesOfAt(ks: seq<Key>, ki: nat, di: nat)
    requires ki < |ks| && di < 7
    ensures CandidatesOf(ks)[7 * ki + di] == KeyCandidates(ks[ki])[di]
    decreases ki
  {
    if ki > 0 {
      CandidatesOfAt(ks[1..], ki - 1, di);
      assert ks[1..][ki - 1] == ks[ki];
    }
  }

  /** The 28 candidates in the order of the nested loops of `detect_chord_with_modulation`. */
  function SearchSpace(home: Key): (cs: seq<Candidate>)
    ensures |cs| == 28
  {
    CandidatesOf(ModulationKeys(home))
  }

  /** The first index of a least element: where a running minimum with strict `<` ends. */
  function ArgMin(ds: seq<nat>): (w: nat)
    requires |ds| > 0
    ensures w < |ds|
    ensures forall j :: 0 <= j < |ds| ==> ds[w] <= ds[j]
    ensures forall j :: 0 <= j < w ==> ds[w] < ds[j]
  {
    if |ds| == 1 then 0
    else
      var w0 := ArgMin(ds[..|ds| - 1]);
      if ds[|ds| - 1] < ds[w0] then |ds| - 1 else w0
  }

  /** The distance of each candidate's triad to `g`. */
  function Distances(cs: seq<Candidate>, g: seq<Element>): (ds: seq<nat>)
    ensures |ds| == |cs|
  {
    seq(|cs|, j requires 0 <= j < |cs| => Distance(cs[j].triad, g))
  }

  /**
   * The index a running minimum with strict `<` ends on: a candidate of least distance, and the
   * first one among those of least distance.
   */
  function Winner(cs: seq<Candidate>, g: seq<Element>): (w: nat)
    requires |cs| > 0
    ensures w < |cs|
    ensures forall j :: 0 <= j < |cs| ==> Distance(cs[w].triad, g) <= Distance(cs[j].triad, g)
    ensures forall j :: 0 <= j < w ==> Distance(cs[w].triad, g) < Distance(cs[j].triad, g)
  {
    var ds := Distances(cs, g);
    var w := ArgMin(ds);
    assert forall j :: 0 <= j < |cs| ==> ds[j] == Distance(cs[j].triad, g);
    w
  }

  /** The dictionary `detect_chord_with_modulation` returns; no field is ever `None`. */
  datatype HarmonyResult = HarmonyResult(key: Key, triad: Triad, degree: string, distance: nat)

  /** `r` reports candidate `c`: its key, triad and degree, and the triad's distance to `g`. */
  predicate Reports(r: HarmonyResult, c: Candidate, g: seq<Element>)
  {
    r.key == c.key && r.triad == c.triad && r.degree == c.degree && r.distance == Distance(c.triad, g)
  }

  /**
   * The result of the search: key, triad and degree come from one candidate, the first of least
   * distance, and no candidate is closer.
   */
  function BestMatch(g: seq<Element>, home: Key): (r: HarmonyResult)
    ensures exists n :: 0 <= n < 28 && Reports(r, SearchSpace(home)[n], g)
                 && forall m :: 0 <= m < n ==> r.distance < Distance(SearchSpace(home)[m].triad, g)
    ensures forall m :: 0 <= m < 28 ==> r.distance <= Distance(SearchSpace(home)[m].triad, g)
  {
    var cs := SearchSpace(home);
    var n := Winner(cs, g);
    var c := cs[n];
    var r := HarmonyResult(c.key, c.triad, c.degree, Distance(c.triad, g));
    assert Reports(r, cs[n], g);
    r
  }

  /**
   * Tie-break: the candidate reported is the one of least distance that comes first, that is the
   * earliest key of [home, fifth up, fifth down, relative] and within it the lowest degree.
   */
  lemma BestMatchIsFirstMinimum(g: seq<Element>, home: Key, n: nat)
    requires n < 28
    requires forall m :: 0 <= m < 28 ==> Distance(SearchSpace(home)[n].triad, g) <= Distance(SearchSpace(home)[m].triad, g)
    requires forall m :: 0 <= m < n ==> Distance(SearchSpace(home)[n].triad, g) < Distance(SearchSpace(home)[m].triad, g)
    ensures Reports(BestMatch(g, home), SearchSpace(home)[n], g)
  {
    var cs := SearchSpace(home);
    var r := BestMatch(g, home);
    var w :| 0 <= w < 28 && Reports(r, cs[w], g) && forall m :: 0 <= m < w ==> r.distance < Distance(cs[m].triad, g);
  }

  /** The degree the search reports names the quality of the triad it reports. */
  lemma BestMatchLabelled(g: seq<Element>, home: Key)
    ensures LabelQuality(BestMatch(g, home).degree) == QualityOf(BestMatch(g, home).triad)
    ensures QualityOf(BestMatch(g, home).triad) != OtherTriad
  {
    var cs := SearchSpace(home);
    var r := BestMatch(g, home);
    var n :| 0 <= n < 28 && Reports(r, cs[n], g);
    var ki := if n < 7 then 0 else if n < 14 then 1 else if n < 21 then 2 else 3;
    SearchSpaceAt(home, ki, n - 7 * ki);
    LabelsNameQualities(ModulationKeys(home)[ki], n - 7 * ki);
  }

  /** The modulation search never does worse than the home key's own seven triads. */
  lemma NeverWorseThanHomeKey(g: seq<Element>, home: Key, i: nat)
    requires i < 7
    ensures BestMatch(g, home).distance <= Distance(HarmonyTable(home)[i].1, g)
  {
    SearchSpaceAt(home, 0, i);
  }

  /** Every candidate triad has three distinct pitch classes. */
  lemma CandidateTriadDistinct(home: Key, m: nat)
    requires m < 28
    ensures |PitchSet(SearchSpace(home)[m].triad)| == 3
  {
    var ki := if m < 7 then 0 else if m < 14 then 1 else if m < 21 then 2 else 3;
    var di := m - 7 * ki;
    SearchSpaceAt(home, ki, di);
    TriadDistinct(ModulationKeys(home)[ki], di);
  }

  /** With no note sounding, every candidate is at distance 3 and the home key's first degree wins. */
  lemma SilenceGivesHomeTonic(g: seq<Element>, home: Key)
    requires forall i :: 0 <= i < |g| ==> !g[i].Note?
    ensures BestMatch(g, home) == HarmonyResult(home, HarmonyTable(home)[0].1, DegreeLabels(home.mode)[0], 3)
  {
    var cs := SearchSpace(home);
    forall m | 0 <= m < 28 ensures Distance(cs[m].triad, g) == 3 {
      CandidateTriadDistinct(home, m);
      DistanceOfSilence(cs[m].triad, g);
    }
    BestMatchIsFirstMinimum(g, home, 0);
  }

  /** C major, notes C, E and G: triad I of the home key at distance 0. */
  lemma CMajorTriadExample()
    ensures BestMatch([Note(0), Note(4), Note(7)], Key(0, Major)) == HarmonyResult(Key(0, Major), Triad(0, 4, 7), "I", 0)
  {
    var g := [Note(0), Note(4), Note(7)];
    var home := Key(0, Major);
    var cs := SearchSpace(home);
    SearchSpaceAt(home, 0, 0);
    assert cs[0] == Candidate(home, "I", Triad(0, 4, 7));
    assert SoundingSet(g) == {0, 4, 7} by {
      assert g[0].pc == 0 && g[1].pc == 4 && g[2].pc == 7;
    }
    assert PitchSet(Triad(0, 4, 7)) == {0, 4, 7};
    DistanceZeroIffSame(Triad(0, 4, 7), g);
    BestMatchIsFirstMinimum(g, home, 0);
  }

  lemma SearchSpaceAt(home: Key, ki: nat, di: nat)
    requires ki < 4 && di < 7
    ensures var k := ModulationKeys(home)[ki];
      SearchSpace(home)[7 * ki + di] == Candidate(k, HarmonyTable(k)[di].0, HarmonyTable(k)[di].1)
  {
    CandidatesOfAt(ModulationKeys(home), ki, di);
  }

  /** One step of a running minimum over numbers: the new one replaces the best so far only when strictly smaller. */
  lemma ArgMinStep(ds: seq<nat>, n: nat, best: nat)
    requires n < |ds|
    requires n > 0 ==> best == ArgMin(ds[..n])
    ensures ArgMin(ds[..n + 1]) == if n == 0 then 0 else if ds[n] < ds[best] then n else best
  {
    assert ds[..n + 1][..n] == ds[..n];
  }

  /** One step of the running minimum: the new candidate replaces the best so far only when strictly closer. */
  lemma DistancesPrefix(cs: seq<Candidate>, g: seq<Element>, n: nat)
    requires n <= |cs|
    ensures Distances(cs[..n], g) == Distances(cs, g)[..n]
  {
  }

  lemma WinnerStep(cs: seq<Candidate>, n: nat, g: seq<Element>, best: nat)
    requires n < |cs|
    requires n > 0 ==> best == Winner(cs[..n], g)
    ensures n == 0 ==> Winner(cs[..n + 1], g) == n
    ensures n > 0 ==> Winner(cs[..n + 1], g) == (if Distance(cs[n].triad, g) < Distance(cs[best].triad, g) then n else best)
  {
    var ds := Distances(cs, g);
    DistancesPrefix(cs, g, n + 1);
    if n > 0 {
      DistancesPrefix(cs, g, n);
    }
    ArgMinStep(ds, n, best);
  }

  /** The search state after the candidates `cs[..n]`: the best so far is the first of least distance. */
  ghost predicate BestSoFar(cs: seq<Candidate>, n: nat, g: seq<Element>, best: Option<HarmonyResult>, bestIndex: nat)
    requires n <= |cs|
  {
    (best.None? <==> n == 0) && (best.Some? ==> bestIndex == Winner(cs[..n], g) && Reports(best.value, cs[bestIndex], g))
  }

  /**
   * The inner loop of `detect_chord_with_modulation`: each (degree, triad) of one candidate key's
   * table replaces the best so far when its distance is smaller.
   */
  method ScanKey(g: seq<Element>, home: Key, ki: nat, best: Option<HarmonyResult>, ghost bestIndex: nat)
    returns (best': Option<HarmonyResult>, ghost bestIndex': nat)
    requires ki < 4
    requires BestSoFar(SearchSpace(home), 7 * ki, g, best, bestIndex)
    ensures BestSoFar(SearchSpace(home), 7 * ki + 7, g, best', bestIndex')
  {
    var key := ModulationKeys(home)[ki];
    ghost var cs := SearchSpace(home);
    var harmony := KeyHarmony(key);
    best', bestIndex' := best, bestIndex;
    for di := 0 to 7
      invariant BestSoFar(cs, 7 * ki + di, g, best', bestIndex')
    {
      var (degreeName, chordObj) := harmony[di];
      var dist := Distance(chordObj, g);
      ghost var n := 7 * ki + di;
      SearchSpaceAt(home, ki, di);
      assert cs[n] == Candidate(key, degreeName, chordObj);
      WinnerStep(cs, n, g, bestIndex');
      if best'.None? || dist < best'.value.distance {
        best' := Some(HarmonyResult(key, chordObj, degreeName, dist));
        bestIndex' := n;
      }
    }
  }

  /**
   * `detect_chord_with_modulation`: for each candidate key, for each (degree, triad) of its table,
   * keep the candidate if its distance is below the best so far (initially infinite).
   */
  method DetectChordWithModulation(g: seq<Element>, home: Key) returns (r: HarmonyResult)
    ensures r == BestMatch(g, home)
  {
    ghost var cs := SearchSpace(home);
    var best: Option<HarmonyResult> := None;   // None: min_distance is still infinite
    ghost var bestIndex: nat := 0;
    for ki := 0 to 4
      invariant BestSoFar(cs, 7 * ki, g, best, bestIndex)
    {
      best, bestIndex := ScanKey(g, home, ki, best, bestIndex);
    }
    BestSoFarComplete(g, home, best, bestIndex);
    r := best.value;
  }

  /** Once all 28 candidates are scanned, the best so far is the search's result. */
  lemma BestSoFarComplete(g: seq<Element>, home: Key, best: Option<HarmonyResult>, bestIndex: nat)
    requires BestSoFar(SearchSpace(home), 28, g, best, bestIndex)
    ensures best == Some(BestMatch(g, home))
  {
    var cs := SearchSpace(home);
    assert cs[..28] == cs;
  }
}
