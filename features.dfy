/**
 * The feature encoder and aggregator (scripts/transform.py): one fixed-schema row per chord of an
 * accompaniment part, with a twelve-bucket pitch-class histogram weighted by the chord's duration,
 * and the walk that gathers the rows of every `*Accomp.xml` file.
 *
 * music21 is opaque here: a parsed score is given by the chords `chordify` yields for each part and
 * by the outcome of key analysis; a chord carries its root and common name as the library names them,
 * and a root the library cannot find (`root()` raises) fails the file.
 */
module Features {
  import opened Wrappers
  import opened Paths
  import opened Music

  /** A pitch of a chord: its spelled name (`p.name`) and its pitch class. */
  datatype Pitch = Pitch(name: string, pitchClass: PitchClass)

  /** What `extract_features_from_chord` reads of a chord element. */
  datatype ChordElement = ChordElement(
    pitches: seq<Pitch>,
    quarterLength: real,
    beat: real,
    measureNumber: int,
    isChord: bool,
    rootName: Option<string>,  // `ch.root().name`; `None` when `root()` raises, as for a chord with no pitches
    pitchedCommonName: string)

  /** The analysed key of a score: its tonic's name and its mode. */
  datatype KeyInfo = KeyInfo(tonicName: string, mode: Mode)

  /** A feature row; `None` stands for Python's `None`. */
  datatype FeatureRow = FeatureRow(
    measure: int,
    beat: real,
    duration: real,
    numNotes: nat,
    root: Option<string>,
    bass: Option<string>,
    localKey: Option<string>,
    mode: Option<Mode>,
    pcHist: seq<real>,
    chordName: string)

  // ---------------------------------------------------------------------------
  // The histogram

  /** The number of pitches of class `k`. */
  function Count(pitches: seq<Pitch>, k: int): nat
  {
    if pitches == [] then 0
    else Count(pitches[..|pitches| - 1], k) + (if pitches[|pitches| - 1].pitchClass == k then 1 else 0)
  }

  /** `d` added `c` times to 0, as the loop adds the duration once per pitch. */
  function Repeated(d: real, c: nat): real
  {
    if c == 0 then 0.0 else Repeated(d, c - 1) + d
  }

  /** Adding the duration c times gives the duration times c. */
  lemma {:induction false} RepeatedIsProduct(d: real, c: nat)
    ensures Repeated(d, c) == d * c as real
  {
    if c > 0 {
      RepeatedIsProduct(d, c - 1);
      assert d * (c - 1) as real + d == d * c as real;
    }
  }

  lemma {:induction false} RepeatedAdds(d: real, a: nat, b: nat)
    ensures Repeated(d, a) + Repeated(d, b) == Repeated(d, a + b)
  {
    if b > 0 {
      RepeatedAdds(d, a, b - 1);
    }
  }

  /** A positive duration added at least once is at least that duration. */
  lemma {:induction false} RepeatedPositive(d: real, c: nat)
    requires d > 0.0 && c > 0
    ensures Repeated(d, c) >= d
  {
    if c > 1 {
      RepeatedPositive(d, c - 1);
    }
  }

  /** Bucket k holds the duration once for every pitch of class k. */
  function Histogram(pitches: seq<Pitch>, duration: real): (h: seq<real>)
    ensures |h| == 12
  {
    seq(12, k requires 0 <= k < 12 => Repeated(duration, Count(pitches, k)))
  }

  /** Adding a pitch adds the duration to its own bucket and leaves the other eleven alone. */
  lemma HistogramStep(pitches: seq<Pitch>, p: Pitch, duration: real)
    ensures Histogram(pitches + [p], duration)
         == Histogram(pitches, duration)[p.pitchClass := Histogram(pitches, duration)[p.pitchClass] + duration]
  {
    var before := Histogram(pitches, duration);
    var after := Histogram(pitches + [p], duration);
    assert (pitches + [p])[..|pitches|] == pitches;
    forall k | 0 <= k < 12
      ensures after[k] == before[p.pitchClass := before[p.pitchClass] + duration][k]
    {
      var c := Count(pitches, k);
      if k == p.pitchClass {
        assert after[k] == Repeated(duration, c + 1);
      } else {
        assert after[k] == Repeated(duration, c);
      }
    }
  }

  /** The loop of `extract_features_from_chord` that fills `pc_hist`, all buckets starting at 0. */
  method WeightedHistogram(pitches: seq<Pitch>, duration: real) returns (pcHist: seq<real>)
    ensures pcHist == Histogram(pitches, duration)
  {
    pcHist := seq(12, k => 0.0);
    for i := 0 to |pitches|
      invariant pcHist == Histogram(pitches[..i], duration)
    {
      var p := pitches[i];
      HistogramStep(pitches[..i], p, duration);
      assert pitches[..i + 1] == pitches[..i] + [p];
      pcHist := pcHist[p.pitchClass := pcHist[p.pitchClass] + duration];
    }
    assert pitches[..|pitches|] == pitches;
  }

  function Sum(xs: seq<real>): real
  {
    if xs == [] then 0.0 else Sum(xs[..|xs| - 1]) + xs[|xs| - 1]
  }

  /** The sum of the counts of the classes below `n`. */
  function CountBelow(pitches: seq<Pitch>, n: nat): nat
  {
    if n == 0 then 0 else CountBelow(pitches, n - 1) + Count(pitches, n - 1)
  }

  lemma {:induction false} CountBelowStep(pitches: seq<Pitch>, p: Pitch, n: nat)
    ensures CountBelow(pitches + [p], n) == CountBelow(pitches, n) + (if p.pitchClass < n then 1 else 0)
  {
    assert (pitches + [p])[..|pitches|] == pitches;
    if n > 0 {
      CountBelowStep(pitches, p, n - 1);
    }
  }

  /** Every pitch has a class below 12, so the counts of all twelve classes add up to the number of pitches. */
  lemma {:induction false} CountAll(pitches: seq<Pitch>)
    ensures CountBelow(pitches, 12) == |pitches|
  {
    if pitches != [] {
      var init := pitches[..|pitches| - 1];
      var last := pitches[|pitches| - 1];
      assert init + [last] == pitches;
      CountAll(init);
      CountBelowStep(init, last, 12);
      assert last.pitchClass < 12;
    } else {
      CountBelowNone(pitches, 12);
    }
  }

  lemma {:induction false} CountBelowNone(pitches: seq<Pitch>, n: nat)
    requires pitches == []
    ensures CountBelow(pitches, n) == 0
  {
    if n > 0 {
      CountBelowNone(pitches, n - 1);
    }
  }

  lemma {:induction false} HistogramPrefixSum(pitches: seq<Pitch>, duration: real, n: nat)
    requires n <= 12
    ensures Sum(Histogram(pitches, duration)[..n]) == Repeated(duration, CountBelow(pitches, n))
  {
    if n > 0 {
      var h := Histogram(pitches, duration);
      HistogramPrefixSum(pitches, duration, n - 1);
      assert h[..n][..n - 1] == h[..n - 1];
      RepeatedAdds(duration, CountBelow(pitches, n - 1), Count(pitches, n - 1));
    }
  }

  /** The twelve buckets add up to the duration times the number of pitches. */
  lemma HistogramTotal(pitches: seq<Pitch>, duration: real)
    ensures Sum(Histogram(pitches, duration)) == duration * |pitches| as real
  {
    var h := Histogram(pitches, duration);
    HistogramPrefixSum(pitches, duration, 12);
    assert h[..12] == h;
    CountAll(pitches);
    RepeatedIsProduct(duration, |pitches|);
  }

  /** For a chord of positive duration, a bucket is empty exactly when no pitch has that class. */
  lemma {:induction false} EmptyBucketMeansAbsent(pitches: seq<Pitch>, duration: real, k: PitchClass)
    requires duration > 0.0
    ensures Histogram(pitches, duration)[k] == 0.0 <==> forall i :: 0 <= i < |pitches| ==> pitches[i].pitchClass != k
  {
    CountZeroIffAbsent(pitches, k);
    if Count(pitches, k) > 0 {
      RepeatedPositive(duration, Count(pitches, k));
    }
  }

  lemma {:induction false} CountZeroIffAbsent(pitches: seq<Pitch>, k: int)
    ensures Count(pitches, k) == 0 <==> forall i :: 0 <= i < |pitches| ==> pitches[i].pitchClass != k
  {
    if pitches != [] {
      var init := pitches[..|pitches| - 1];
      CountZeroIffAbsent(init, k);
      assert forall i :: 0 <= i < |init| ==> init[i] == pitches[i];
    }
  }

  // ---------------------------------------------------------------------------
  // The row

  /** `ch.root()` raises: the element is a chord and the library finds no root. */
  predicate RootRaises(ch: ChordElement) { ch.isChord && ch.rootName.None? }

  /** The row `extract_features_from_chord(ch, current_key)` returns, or the exception `ch.root()` raises. */
  function FeatureRowOf(ch: ChordElement, currentKey: Option<KeyInfo>): Result<FeatureRow>
  {
    if RootRaises(ch) then Failure("root() raised")
    else Success(FeatureRow(
      ch.measureNumber,
      ch.beat,
      ch.quarterLength,
      |ch.pitches|,
      if ch.isChord then ch.rootName else None,
      if ch.pitches != [] then Some(ch.pitches[0].name) else None,
      if currentKey.Some? then Some(currentKey.value.tonicName) else None,
      if currentKey.Some? then Some(currentKey.value.mode) else None,
      Histogram(ch.pitches, ch.quarterLength),
      ch.pitchedCommonName))
  }

  /**
   * A row exists exactly when `root()` does not raise. It then says of its chord: twelve buckets adding
   * up to duration times `num_notes`, which counts the pitches; the bass is the first pitch, if any; the
   * library's root exactly for a chord; and the key fields both present or both absent with the key.
   */
  lemma RowDescribesChord(ch: ChordElement, currentKey: Option<KeyInfo>)
    ensures FeatureRowOf(ch, currentKey).Failure? <==> RootRaises(ch)
    ensures FeatureRowOf(ch, currentKey).Success? ==>
      var row := FeatureRowOf(ch, currentKey).value;
      && |row.pcHist| == 12
      && row.numNotes == |ch.pitches|
      && Sum(row.pcHist) == row.duration * row.numNotes as real
      && (row.bass.None? <==> ch.pitches == [])
      && (row.bass.Some? ==> row.bass.value == ch.pitches[0].name)
      && (row.root.None? <==> !ch.isChord)
      && (row.root.Some? ==> row.root == ch.rootName)
      && (row.localKey.None? <==> currentKey.None?)
      && (row.mode.None? <==> currentKey.None?)
      && (currentKey.Some? ==> row.localKey == Some(currentKey.value.tonicName) && row.mode == Some(currentKey.value.mode))
  {
    HistogramTotal(ch.pitches, ch.quarterLength);
  }

  /** `extract_features_from_chord`: the histogram loop, then the root, which may raise, then the other fields. */
  method ExtractFeaturesFromChord(ch: ChordElement, currentKey: Option<KeyInfo>) returns (r: Result<FeatureRow>)
    ensures r == FeatureRowOf(ch, currentKey)
  {
    var pitches := ch.pitches;
    var duration := ch.quarterLength;
    var pcHist := WeightedHistogram(pitches, duration);
    if ch.isChord && ch.rootName.None? {
      return Failure("root() raised");
    }
    var root := if ch.isChord then ch.rootName else None;
    var bass := if pitches != [] then Some(pitches[0].name) else None;
    var localKey := if currentKey.Some? then Some(currentKey.value.tonicName) else None;
    var mode := if currentKey.Some? then Some(currentKey.value.mode) else None;
    r := Success(FeatureRow(ch.measureNumber, ch.beat, duration, |pitches|, root, bass, localKey, mode, pcHist, ch.pitchedCommonName));
  }

  /** A cell of the row as a dictionary. */
  datatype Cell = Number(x: real) | Text(s: string) | MissingCell | ModeCell(m: Mode)

  function OptText(o: Option<string>): Cell
  {
    if o.Some? then Text(o.value) else MissingCell
  }

  /** The name of histogram bucket k. */
  function BucketColumn(k: nat): string
  {
    "pc_" + Strings.Decimal(k)
  }

  /** The columns of a row, in order. */
  const FeatureColumns: seq<string> :=
    ["measure", "beat", "duration", "num_notes", "root", "bass", "local_key", "mode"]
    + seq(12, k requires 0 <= k < 12 => BucketColumn(k))
    + ["chord_name"]

  lemma BucketColumnNames()
    ensures seq(12, k requires 0 <= k < 12 => BucketColumn(k))
         == ["pc_0", "pc_1", "pc_2", "pc_3", "pc_4", "pc_5", "pc_6", "pc_7", "pc_8", "pc_9", "pc_10", "pc_11"]
  {
    var names := ["pc_0", "pc_1", "pc_2", "pc_3", "pc_4", "pc_5", "pc_6", "pc_7", "pc_8", "pc_9", "pc_10", "pc_11"];
    forall k | 0 <= k < 12
      ensures BucketColumn(k) == names[k]
    {
      if k >= 10 {
        assert Strings.Decimal(k) == Strings.Decimal(1) + [('0' as int + k % 10) as char];
      }
    }
  }

  /** The row as the dictionary the source builds, keys in insertion order. */
  function Record(row: FeatureRow): seq<(string, Cell)>
    requires |row.pcHist| == 12
  {
    [("measure", Number(row.measure as real)), ("beat", Number(row.beat)), ("duration", Number(row.duration)),
     ("num_notes", Number(row.numNotes as real)), ("root", OptText(row.root)), ("bass", OptText(row.bass)),
     ("local_key", OptText(row.localKey)), ("mode", if row.mode.Some? then ModeCell(row.mode.value) else MissingCell)]
    + seq(12, k requires 0 <= k < 12 => (BucketColumn(k), Number(row.pcHist[k])))
    + [("chord_name", Text(row.chordName))]
  }

  /** Every row has exactly the schema's columns, in order, with bucket k under `pc_k`. */
  lemma RecordSchema(row: FeatureRow)
    requires |row.pcHist| == 12
    ensures |Record(row)| == |FeatureColumns| == 21
    ensures forall i :: 0 <= i < 21 ==> Record(row)[i].0 == FeatureColumns[i]
    ensures FeatureColumns == ["measure", "beat", "duration", "num_notes", "root", "bass", "local_key", "mode",
      "pc_0", "pc_1", "pc_2", "pc_3", "pc_4", "pc_5", "pc_6", "pc_7", "pc_8", "pc_9", "pc_10", "pc_11", "chord_name"]
    ensures forall k :: 0 <= k < 12 ==> Record(row)[8 + k].1 == Number(row.pcHist[k])
  {
    BucketColumnNames();
    var r := Record(row);
    forall i | 0 <= i < 21
      ensures r[i].0 == FeatureColumns[i]
    {
      if 8 <= i < 20 {
        assert r[i].0 == BucketColumn(i - 8) == FeatureColumns[i];
      }
    }
  }

  // ---------------------------------------------------------------------------
  // One file

  /** What music21 yields for an accompaniment file: the chords `chordify` finds in each part, and the key. */
  datatype AccompScore = AccompScore(partChords: seq<seq<ChordElement>>, analyzedKey: Option<KeyInfo>)

  /** The accompaniment staff: the second part when there is more than one, otherwise the first. */
  function AccompPart(score: AccompScore): seq<ChordElement>
    requires |score.partChords| > 0
  {
    if |score.partChords| > 1 then score.partChords[1] else score.partChords[0]
  }

  /** The rows of the chords in order, or the first chord's exception, which ends the loop. */
  function Rows(chords: seq<ChordElement>, currentKey: Option<KeyInfo>): Result<seq<FeatureRow>>
  {
    if chords == [] then Success([])
    else
      var before := Rows(chords[..|chords| - 1], currentKey);
      var last := FeatureRowOf(chords[|chords| - 1], currentKey);
      if before.Failure? then before
      else if last.Failure? then Failure(last.reason)
      else Success(before.value + [last.value])
  }

  /** Rows succeed exactly when no chord's root raises, and then hold one row per chord, in order. */
  lemma {:induction false} RowsPerChord(chords: seq<ChordElement>, currentKey: Option<KeyInfo>)
    ensures Rows(chords, currentKey).Success? <==> forall i :: 0 <= i < |chords| ==> !RootRaises(chords[i])
    ensures Rows(chords, currentKey).Success? ==>
      && |Rows(chords, currentKey).value| == |chords|
      && forall i :: 0 <= i < |chords| ==> Rows(chords, currentKey).value[i] == FeatureRowOf(chords[i], currentKey).value
  {
    if chords != [] {
      var init := chords[..|chords| - 1];
      RowsPerChord(init, currentKey);
      assert forall i :: 0 <= i < |init| ==> init[i] == chords[i];
      RowDescribesChord(chords[|chords| - 1], currentKey);
    }
  }

  /** Once a prefix of the chords fails, the rows of all of them fail the same way. */
  lemma {:induction false} RowsFailureStays(chords: seq<ChordElement>, currentKey: Option<KeyInfo>, n: nat)
    requires n <= |chords| && Rows(chords[..n], currentKey).Failure?
    ensures Rows(chords, currentKey) == Rows(chords[..n], currentKey)
    decreases |chords| - n
  {
    if n < |chords| {
      assert chords[..n + 1][..n] == chords[..n];
      assert Rows(chords[..n + 1], currentKey) == Rows(chords[..n], currentKey);
      RowsFailureStays(chords, currentKey, n + 1);
    } else {
      assert chords[..n] == chords;
    }
  }

  /** What `process_xml_file` returns, or the exception it raises (`None`: parsing raised). */
  function FileRows(parsed: Option<AccompScore>): Result<seq<FeatureRow>>
  {
    if parsed.None? then Failure("parse failed")
    else if |parsed.value.partChords| == 0 then Failure("score has no parts")
    else Rows(AccompPart(parsed.value), parsed.value.analyzedKey)
  }

  /**
   * A parsed score with parts fails only when the root of one of its accompaniment chords raises;
   * otherwise it gives one row per chord of that part, in order, and a failed key analysis leaves
   * the key columns empty rather than failing the file.
   */
  lemma FileRowsPerChord(score: AccompScore)
    requires |score.partChords| > 0
    ensures |score.partChords| > 1 ==> AccompPart(score) == score.partChords[1]
    ensures |score.partChords| == 1 ==> AccompPart(score) == score.partChords[0]
    ensures FileRows(Some(score)).Success? <==> forall i :: 0 <= i < |AccompPart(score)| ==> !RootRaises(AccompPart(score)[i])
    ensures var r := FileRows(Some(score));
      r.Success? ==>
      && |r.value| == |AccompPart(score)|
      && (forall i :: 0 <= i < |r.value| ==> r.value[i] == FeatureRowOf(AccompPart(score)[i], score.analyzedKey).value)
      && (score.analyzedKey.None? ==> forall i :: 0 <= i < |r.value| ==> r.value[i].localKey.None? && r.value[i].mode.None?)
  {
    var part := AccompPart(score);
    RowsPerChord(part, score.analyzedKey);
    forall i | 0 <= i < |part|
      ensures !RootRaises(part[i]) ==> FeatureRowOf(part[i], score.analyzedKey).Success?
    {
      RowDescribesChord(part[i], score.analyzedKey);
    }
  }

  /** `process_xml_file` */
  method ProcessXmlFile(parsed: Option<AccompScore>) returns (r: Result<seq<FeatureRow>>)
    ensures r == FileRows(parsed)
  {
    if parsed.None? {
      return Failure("parse failed");
    }
    var score := parsed.value;
    if |score.partChords| == 0 {
      return Failure("score has no parts");
    }
    var accomp := if |score.partChords| > 1 then score.partChords[1] else score.partChords[0];
    var currentKey := score.analyzedKey;
    var rows := [];
    for i := 0 to |accomp|
      invariant Rows(accomp[..i], currentKey) == Success(rows)
    {
      assert accomp[..i + 1][..i] == accomp[..i];
      var feat := ExtractFeaturesFromChord(accomp[i], currentKey);
      if feat.Failure? {
        RowsFailureStays(accomp, currentKey, i + 1);
        return Failure(feat.reason);
      }
      rows := rows + [feat.value];
    }
    assert accomp[..|accomp|] == accomp;
    r := Success(rows);
  }

  // ---------------------------------------------------------------------------
  // The walk

  /** A row with the `piece_name` column added. */
  datatype TaggedRow = TaggedRow(row: FeatureRow, pieceName: string)

  function Tag(rows: seq<FeatureRow>, piece: string): seq<TaggedRow>
  {
    seq(|rows|, i requires 0 <= i < |rows| => TaggedRow(rows[i], piece))
  }

  /** A file taken by the walk: its path and the name of its enclosing folder. */
  datatype Taken = Taken(path: string, piece: string)

  predicate IsAccompName(f: string) { Strings.EndsWith(f, "Accomp.xml") }

  function AccompInDir(dirpath: string, filenames: seq<string>): seq<Taken>
  {
    if filenames == [] then []
    else
      var last := filenames[|filenames| - 1];
      AccompInDir(dirpath, filenames[..|filenames| - 1])
      + (if IsAccompName(last) then [Taken(Join(dirpath, last), Basename(dirpath))] else [])
  }

  /** The files `process_all_accomp_files` processes, in walk order. */
  function AccompInWalk(walk: seq<WalkDir>): seq<Taken>
  {
    if walk == [] then []
    else AccompInWalk(walk[..|walk| - 1]) + AccompInDir(walk[|walk| - 1].dirpath, walk[|walk| - 1].filenames)
  }

  /** Only names ending in `Accomp.xml` (case-sensitive) are taken, each tagged with its folder's name. */
  lemma {:induction false} AccompInDirSelects(dirpath: string, filenames: seq<string>, t: Taken)
    requires t in AccompInDir(dirpath, filenames)
    ensures exists f :: f in filenames && IsAccompName(f) && t.path == Join(dirpath, f)
    ensures t.piece == Basename(dirpath)
    decreases |filenames|
  {
    var init := filenames[..|filenames| - 1];
    if t in AccompInDir(dirpath, init) {
      AccompInDirSelects(dirpath, init, t);
      var f :| f in init && IsAccompName(f) && t.path == Join(dirpath, f);
      assert f in filenames;
    }
  }

  /** The tagged tables of the files that succeeded, in walk order (`all_dfs`). */
  function Successes(taken: seq<Taken>, files: string -> Option<AccompScore>): seq<seq<TaggedRow>>
  {
    if taken == [] then []
    else
      var t := taken[|taken| - 1];
      var r := FileRows(files(t.path));
      Successes(taken[..|taken| - 1], files) + (if r.Success? then [Tag(r.value, t.piece)] else [])
  }

  /** `results`: each successful file's tagged table under its path. */
  function ResultsMap(taken: seq<Taken>, files: string -> Option<AccompScore>): map<string, seq<TaggedRow>>
  {
    if taken == [] then map[]
    else
      var t := taken[|taken| - 1];
      var r := FileRows(files(t.path));
      var before := ResultsMap(taken[..|taken| - 1], files);
      if r.Success? then before[t.path := Tag(r.value, t.piece)] else before
  }

  function Concat(tables: seq<seq<TaggedRow>>): seq<TaggedRow>
  {
    if tables == [] then [] else Concat(tables[..|tables| - 1]) + tables[|tables| - 1]
  }

  /** The number of rows of the files that succeeded. */
  function SuccessfulRowCount(taken: seq<Taken>, files: string -> Option<AccompScore>): nat
  {
    if taken == [] then 0
    else
      var r := FileRows(files(taken[|taken| - 1].path));
      SuccessfulRowCount(taken[..|taken| - 1], files) + (if r.Success? then |r.value| else 0)
  }

  /** The concatenated table has as many rows as the successful files together; failed files add none. */
  lemma {:induction false} ConcatRowCount(taken: seq<Taken>, files: string -> Option<AccompScore>)
    ensures |Concat(Successes(taken, files))| == SuccessfulRowCount(taken, files)
  {
    if taken != [] {
      var init := taken[..|taken| - 1];
      ConcatRowCount(init, files);
      var r := FileRows(files(taken[|taken| - 1].path));
      var tables := Successes(taken, files);
      if r.Success? {
        var table := Tag(r.value, taken[|taken| - 1].piece);
        assert tables == Successes(init, files) + [table];
        assert tables[..|tables| - 1] == Successes(init, files);
        assert |Concat(tables)| == |Concat(Successes(init, files))| + |table|;
      } else {
        assert tables == Successes(init, files);
      }
    }
  }

  /**
   * A path has an entry in `results` exactly when some taken file with that path succeeded; the entry
   * is that file's rows, each tagged with a folder name under which the path was taken.
   */
  lemma {:induction false} ResultsMapEntries(taken: seq<Taken>, files: string -> Option<AccompScore>, p: string)
    ensures p in ResultsMap(taken, files) <==> exists i :: 0 <= i < |taken| && taken[i].path == p && FileRows(files(p)).Success?
    ensures p in ResultsMap(taken, files) ==>
      exists i :: 0 <= i < |taken| && taken[i].path == p && ResultsMap(taken, files)[p] == Tag(FileRows(files(p)).value, taken[i].piece)
  {
    if taken != [] {
      var init := taken[..|taken| - 1];
      var t := taken[|taken| - 1];
      ResultsMapEntries(init, files, p);
      assert forall i :: 0 <= i < |init| ==> init[i] == taken[i];
      if p in ResultsMap(taken, files) && !(t.path == p && FileRows(files(p)).Success?) {
        var i :| 0 <= i < |init| && init[i].path == p && ResultsMap(init, files)[p] == Tag(FileRows(files(p)).value, init[i].piece);
        assert taken[i] == init[i];
      }
    }
  }

  /** The value `process_all_accomp_files` returns: the map of tables, or all rows in one table. */
  datatype Aggregate = PerFile(results: map<string, seq<TaggedRow>>) | Concatenated(rows: seq<TaggedRow>)

  function Aggregated(taken: seq<Taken>, files: string -> Option<AccompScore>, concat: bool): Result<Aggregate>
  {
    if !concat then Success(PerFile(ResultsMap(taken, files)))
    else if Successes(taken, files) == [] then Failure("No objects to concatenate")
    else Success(Concatenated(Concat(Successes(taken, files))))
  }

  lemma SuccessesStep(taken: seq<Taken>, t: Taken, files: string -> Option<AccompScore>)
    ensures var r := FileRows(files(t.path));
      && Successes(taken + [t], files) == Successes(taken, files) + (if r.Success? then [Tag(r.value, t.piece)] else [])
      && ResultsMap(taken + [t], files) == (if r.Success? then ResultsMap(taken, files)[t.path := Tag(r.value, t.piece)] else ResultsMap(taken, files))
  {
    assert (taken + [t])[..|taken|] == taken;
  }

  lemma AccompInDirStep(dirpath: string, filenames: seq<string>, f: nat)
    requires f < |filenames|
    ensures AccompInDir(dirpath, filenames[..f + 1])
         == AccompInDir(dirpath, filenames[..f])
            + (if IsAccompName(filenames[f]) then [Taken(Join(dirpath, filenames[f]), Basename(dirpath))] else [])
  {
    assert filenames[..f + 1][..f] == filenames[..f];
  }

  lemma AccompInWalkStep(walk: seq<WalkDir>, d: nat)
    requires d < |walk|
    ensures AccompInWalk(walk[..d + 1]) == AccompInWalk(walk[..d]) + AccompInDir(walk[d].dirpath, walk[d].filenames)
  {
    assert walk[..d + 1][..d] == walk[..d];
  }

  /** `process_all_accomp_files`: a file that fails adds nothing and the walk goes on. */
  method ProcessAllAccompFiles(walk: seq<WalkDir>, files: string -> Option<AccompScore>, concat: bool)
    returns (r: Result<Aggregate>)
    ensures r == Aggregated(AccompInWalk(walk), files, concat)
  {
    var results: map<string, seq<TaggedRow>> := map[];
    var allDfs: seq<seq<TaggedRow>> := [];
    for d := 0 to |walk|
      invariant results == ResultsMap(AccompInWalk(walk[..d]), files)
      invariant allDfs == Successes(AccompInWalk(walk[..d]), files)
    {
      results, allDfs := ProcessDir(walk[d].dirpath, walk[d].filenames, files, AccompInWalk(walk[..d]), results, allDfs);
      AccompInWalkStep(walk, d);
    }
    assert walk[..|walk|] == walk;
    if concat {
      if allDfs == [] {
        return Failure("No objects to concatenate");
      }
      r := Success(Concatenated(Concat(allDfs)));
    } else {
      r := Success(PerFile(results));
    }
  }

  /**
   * The inner loop of `process_all_accomp_files` over one folder's files: each `*Accomp.xml` file
   * that yields rows adds its tagged table to `results` and to `all_dfs`.
   */
  method ProcessDir(root: string, filenames: seq<string>, files: string -> Option<AccompScore>, ghost done: seq<Taken>,
                    results: map<string, seq<TaggedRow>>, allDfs: seq<seq<TaggedRow>>)
    returns (results': map<string, seq<TaggedRow>>, allDfs': seq<seq<TaggedRow>>)
    requires results == ResultsMap(done, files) && allDfs == Successes(done, files)
    ensures results' == ResultsMap(done + AccompInDir(root, filenames), files)
    ensures allDfs' == Successes(done + AccompInDir(root, filenames), files)
  {
    results', allDfs' := results, allDfs;
    assert done + AccompInDir(root, filenames[..0]) == done;
    for j := 0 to |filenames|
      invariant results' == ResultsMap(done + AccompInDir(root, filenames[..j]), files)
      invariant allDfs' == Successes(done + AccompInDir(root, filenames[..j]), files)
    {
      var f := filenames[j];
      AccompInDirStep(root, filenames, j);
      ghost var sofar := done + AccompInDir(root, filenames[..j]);
      if Strings.EndsWith(f, "Accomp.xml") {
        var filepath := Join(root, f);
        var t := Taken(filepath, Basename(root));
        SuccessesStep(sofar, t, files);
        assert sofar + [t] == done + AccompInDir(root, filenames[..j + 1]);
        var outcome := ProcessXmlFile(files(filepath));
        if outcome.Success? {
          var df := Tag(outcome.value, Basename(root));
          results' := results'[filepath := df];
          allDfs' := allDfs' + [df];
        }
      } else {
        assert sofar == done + AccompInDir(root, filenames[..j + 1]);
      }
    }
    assert filenames[..|filenames|] == filenames;
  }
}
