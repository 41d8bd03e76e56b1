/**
 * The per-measure loop and the file handling of the harmonizer (scripts/accomp.py): one chord or rest
 * per measure of the melody, the names of the two output files, and the batch over a directory walk.
 *
 * Parsing, key analysis and writing are music21's; a source file is given here by what they yield.
 */
module Accompaniment {
  import opened Wrappers
  import opened Strings
  import opened Paths
  import opened Music
  import opened Harmony

  /** A measure of the melody part: its elements in order and its duration in quarter notes. */
  datatype Measure = Measure(elements: seq<Element>, duration: real)

  /** `[n for n in measure.notes if isinstance(n, note.Note)]` */
  function NotesInMeasure(m: Measure): seq<Element>
  {
    NotesOnly(m.elements)
  }

  /** An event of the piano part: a triad with its degree as lyric, or a rest. */
  datatype Event = ChordEvent(triad: Triad, duration: real, lyric: string) | RestEvent(duration: real)

  /** What the loop appends for one measure. */
  function EventFor(m: Measure, home: Key): Event
  {
    var notes := NotesInMeasure(m);
    if |notes| >= 3 then
      var result := BestMatch(notes, home);
      ChordEvent(result.triad, m.duration, result.degree)
    else
      RestEvent(m.duration)
  }

  /** The piano part built for a melody, one event per measure. */
  function Accompaniment(measures: seq<Measure>, home: Key): seq<Event>
  {
    seq(|measures|, i requires 0 <= i < |measures| => EventFor(measures[i], home))
  }

  /**
   * Event i describes measure i and lasts as long as it; it is a rest exactly when the measure has
   * fewer than three notes, and otherwise the best triad of the search, labelled with its degree.
   */
  lemma AccompanimentAligned(measures: seq<Measure>, home: Key)
    ensures var track := Accompaniment(measures, home);
      && |track| == |measures|
      && (forall i :: 0 <= i < |track| ==> track[i].duration == measures[i].duration)
      && (forall i :: 0 <= i < |track| ==> (track[i].RestEvent? <==> |NotesInMeasure(measures[i])| < 3))
      && (forall i :: 0 <= i < |track| && track[i].ChordEvent? ==>
            track[i].triad == BestMatch(NotesInMeasure(measures[i]), home).triad
            && track[i].lyric == BestMatch(NotesInMeasure(measures[i]), home).degree)
  {
  }

  /** The lyric of every chord event names the quality of its triad (major, minor or diminished). */
  lemma LyricNamesChordQuality(measures: seq<Measure>, home: Key, i: nat)
    requires i < |measures|
    requires Accompaniment(measures, home)[i].ChordEvent?
    ensures var e := Accompaniment(measures, home)[i];
      LabelQuality(e.lyric) == QualityOf(e.triad) && QualityOf(e.triad) != OtherTriad
  {
    var notes := NotesInMeasure(measures[i]);
    assert Accompaniment(measures, home)[i] == EventFor(measures[i], home);
    BestMatchLabelled(notes, home);
  }

  /** A measure with only two notes gets a rest spanning the whole measure, never a chord. */
  lemma TwoNoteMeasureRests(a: PitchClass, b: PitchClass, d: real, home: Key)
    ensures EventFor(Measure([Note(a), Rest, Note(b)], d), home) == RestEvent(d)
  {
    var els := [Note(a), Rest, Note(b)];
    assert els[1..] == [Rest, Note(b)];
    assert els[1..][1..] == [Note(b)];
    assert NotesOnly([Note(b)]) == [Note(b)] by { assert [Note(b)][1..] == []; }
    assert |NotesOnly(els)| == 2;
  }

  lemma AccompanimentStep(measures: seq<Measure>, i: nat, home: Key)
    requires i < |measures|
    ensures Accompaniment(measures[..i + 1], home) == Accompaniment(measures[..i], home) + [EventFor(measures[i], home)]
  {
  }

  lemma ChordEventFor(m: Measure, home: Key, result: HarmonyResult)
    requires |NotesInMeasure(m)| >= 3 && result == BestMatch(NotesInMeasure(m), home)
    ensures EventFor(m, home) == ChordEvent(result.triad, m.duration, result.degree)
  {
  }

  /** The loop of `add_piano_accompaniment` that appends one event per measure to the piano part. */
  method HarmonizeMeasures(measures: seq<Measure>, home: Key) returns (pianoPart: seq<Event>)
    ensures pianoPart == Accompaniment(measures, home)
  {
    pianoPart := [];
    for i := 0 to |measures|
      invariant pianoPart == Accompaniment(measures[..i], home)
    {
      var measure := measures[i];
      var notesInMeasure := NotesInMeasure(measure);
      var event;
      if |notesInMeasure| >= 3 {
        var result := DetectChordWithModulation(notesInMeasure, home);
        event := ChordEvent(result.triad, measure.duration, result.degree);
        ChordEventFor(measure, home, result);
      } else {
        event := RestEvent(measure.duration);
      }
      AccompanimentStep(measures, i, home);
      pianoPart := pianoPart + [event];
    }
    assert measures[..|measures|] == measures;
  }

  // ---------------------------------------------------------------------------
  // Output names

  /** `f"{base_name} Accomp"` where `base_name` is the source's file name without its extension. */
  function OutputTitle(path: string): string
  {
    Stem(Basename(path)) + " Accomp"
  }

  /** The MIDI and MusicXML paths written for `path`. */
  function OutputPaths(path: string): (string, string)
  {
    var folder := Dirname(path);
    (Join(folder, OutputTitle(path) + ".mid"), Join(folder, OutputTitle(path) + ".xml"))
  }

  lemma StemOfBasenameNoSlash(path: string)
    ensures NoSlash(Stem(Basename(path)))
  {
    var b := Basename(path);
    assert forall k :: 0 <= k < |Stem(b)| ==> Stem(b)[k] == b[k];
  }

  /** `title + ext` names a file; its path ends in `" Accomp" + ext`. */
  lemma OutputNamed(path: string, ext: string)
    requires NoSlash(ext)
    ensures var name := OutputTitle(path) + ext;
      && name != [] && NoSlash(name)
      && EndsWith(name, " Accomp" + ext)
  {
    var stem := Stem(Basename(path));
    StemOfBasenameNoSlash(path);
    var name := OutputTitle(path) + ext;
    assert name == stem + (" Accomp" + ext);
    assert forall k :: 0 <= k < |stem| ==> name[k] == stem[k];
    assert forall k :: |stem| <= k < |name| ==> name[k] == (" Accomp" + ext)[k - |stem|];
    assert name[|name| - |" Accomp" + ext|..] == " Accomp" + ext;
  }

  /** Both outputs lie in the source's folder and are named `<base> Accomp.mid` and `<base> Accomp.xml`. */
  lemma OutputsBesideSource(path: string)
    ensures Dirname(OutputPaths(path).0) == Dirname(path) && Basename(OutputPaths(path).0) == OutputTitle(path) + ".mid"
    ensures Dirname(OutputPaths(path).1) == Dirname(path) && Basename(OutputPaths(path).1) == OutputTitle(path) + ".xml"
    ensures EndsWith(OutputPaths(path).0, " Accomp.mid") && EndsWith(OutputPaths(path).1, " Accomp.xml")
  {
    OutputNamed(path, ".mid");
    OutputNamed(path, ".xml");
    assert " Accomp" + ".mid" == " Accomp.mid";
    assert " Accomp" + ".xml" == " Accomp.xml";
    JoinInDirname(path, OutputTitle(path) + ".mid");
    JoinInDirname(path, OutputTitle(path) + ".xml");
    JoinEndsWith(Dirname(path), OutputTitle(path) + ".mid");
    JoinEndsWith(Dirname(path), OutputTitle(path) + ".xml");
    EndsWithTransitive(OutputPaths(path).0, OutputTitle(path) + ".mid", " Accomp.mid");
    EndsWithTransitive(OutputPaths(path).1, OutputTitle(path) + ".xml", " Accomp.xml");
  }

  // ---------------------------------------------------------------------------
  // One piece, and the batch

  /** What music21 yields for a source file: its parts' measures, and the analysed key (`None` if analysis raised). */
  datatype ParsedScore = ParsedScore(parts: seq<seq<Measure>>, analyzedKey: Option<Key>)

  /** A source file: its parse (`None` if parsing raised) and whether its folder accepts the two outputs. */
  datatype SourceFile = SourceFile(parsed: Option<ParsedScore>, writable: bool)

  /** The two files written for a piece and the piano part they carry under the melody. */
  datatype Generated = Generated(midiPath: string, xmlPath: string, pianoPart: seq<Event>)

  /** What `add_piano_accompaniment(path)` returns, or the exception it raises. */
  function PieceOutcome(path: string, file: SourceFile): Result<Generated>
  {
    if file.parsed.None? then Failure("parse failed")
    else if |file.parsed.value.parts| == 0 then Failure("score has no parts")
    else if file.parsed.value.analyzedKey.None? then Failure("key analysis failed")
    else if !file.writable then Failure("write failed")
    else
      var paths := OutputPaths(path);
      Success(Generated(paths.0, paths.1, Accompaniment(file.parsed.value.parts[0], file.parsed.value.analyzedKey.value)))
  }

  /** `add_piano_accompaniment`: harmonizes the first part against its analysed key and writes both files. */
  method AddPianoAccompaniment(path: string, file: SourceFile) returns (outcome: Result<Generated>)
    ensures outcome == PieceOutcome(path, file)
  {
    if file.parsed.None? {
      return Failure("parse failed");
    }
    var score := file.parsed.value;
    if |score.parts| == 0 {
      return Failure("score has no parts");
    }
    var part := score.parts[0];
    if score.analyzedKey.None? {
      return Failure("key analysis failed");
    }
    var baseKey := score.analyzedKey.value;
    var pianoPart := HarmonizeMeasures(part, baseKey);
    if !file.writable {
      return Failure("write failed");
    }
    var (midiFilePath, xmlFilePath) := OutputPaths(path);
    outcome := Success(Generated(midiFilePath, xmlFilePath, pianoPart));
  }

  predicate IsXmlName(filename: string) { EndsWith(Lower(filename), ".xml") }

  /** The paths of the files of one directory whose names end in `.xml`, in any case. */
  function XmlInDir(dirpath: string, filenames: seq<string>): seq<string>
  {
    if filenames == [] then []
    else
      var last := filenames[|filenames| - 1];
      XmlInDir(dirpath, filenames[..|filenames| - 1]) + (if IsXmlName(last) then [Join(dirpath, last)] else [])
  }

  /** The paths the batch processes, in walk order. */
  function XmlInWalk(walk: seq<WalkDir>): seq<string>
  {
    if walk == [] then []
    else XmlInWalk(walk[..|walk| - 1]) + XmlInDir(walk[|walk| - 1].dirpath, walk[|walk| - 1].filenames)
  }

  /** Everything in the batch's selection is the join of a directory and a name ending in `.xml`. */
  lemma {:induction false} XmlInDirSelects(dirpath: string, filenames: seq<string>, p: string)
    requires p in XmlInDir(dirpath, filenames)
    ensures exists f :: f in filenames && IsXmlName(f) && p == Join(dirpath, f)
    decreases |filenames|
  {
    var init := filenames[..|filenames| - 1];
    var last := filenames[|filenames| - 1];
    if p in XmlInDir(dirpath, init) {
      XmlInDirSelects(dirpath, init, p);
      var f :| f in init && IsXmlName(f) && p == Join(dirpath, f);
      assert f in filenames;
    } else {
      assert IsXmlName(last) && p == Join(dirpath, last);
    }
  }

  /** A reported failure or the generated files, for each processed path. */
  datatype BatchEntry = BatchEntry(path: string, outcome: Result<Generated>)

  function BatchLog(paths: seq<string>, files: string -> SourceFile): seq<BatchEntry>
  {
    seq(|paths|, i requires 0 <= i < |paths| => BatchEntry(paths[i], PieceOutcome(paths[i], files(paths[i]))))
  }

  lemma BatchLogAppend(paths: seq<string>, more: seq<string>, files: string -> SourceFile)
    ensures BatchLog(paths + more, files) == BatchLog(paths, files) + BatchLog(more, files)
  {
  }

  lemma XmlInDirStep(dirpath: string, filenames: seq<string>, f: nat)
    requires f < |filenames|
    ensures XmlInDir(dirpath, filenames[..f + 1])
         == XmlInDir(dirpath, filenames[..f]) + (if IsXmlName(filenames[f]) then [Join(dirpath, filenames[f])] else [])
  {
    assert filenames[..f + 1][..f] == filenames[..f];
  }

  lemma XmlInWalkStep(walk: seq<WalkDir>, d: nat)
    requires d < |walk|
    ensures XmlInWalk(walk[..d + 1]) == XmlInWalk(walk[..d]) + XmlInDir(walk[d].dirpath, walk[d].filenames)
  {
    assert walk[..d + 1][..d] == walk[..d];
  }

  /**
   * `add_accompaniment_to_all_xml`: every `.xml` file of the walk is processed in walk order; a file
   * that fails is reported and the walk goes on. Each entry depends on its own file only.
   */
  method AddAccompanimentToAllXml(walk: seq<WalkDir>, files: string -> SourceFile) returns (log: seq<BatchEntry>)
    ensures |log| == |XmlInWalk(walk)|
    ensures forall i :: 0 <= i < |log| ==> log[i].path == XmlInWalk(walk)[i]
    ensures forall i :: 0 <= i < |log| ==> log[i].outcome == PieceOutcome(log[i].path, files(log[i].path))
  {
    log := [];
    for d := 0 to |walk|
      invariant log == BatchLog(XmlInWalk(walk[..d]), files)
    {
      var dirpath := walk[d].dirpath;
      var filenames := walk[d].filenames;
      for f := 0 to |filenames|
        invariant log == BatchLog(XmlInWalk(walk[..d]) + XmlInDir(dirpath, filenames[..f]), files)
      {
        var filename := filenames[f];
        XmlInDirStep(dirpath, filenames, f);
        ghost var done := XmlInWalk(walk[..d]) + XmlInDir(dirpath, filenames[..f]);
        if EndsWith(Lower(filename), ".xml") {
          var filePath := Join(dirpath, filename);
          var outcome := AddPianoAccompaniment(filePath, files(filePath));
          BatchLogAppend(done, [filePath], files);
          assert done + [filePath] == XmlInWalk(walk[..d]) + XmlInDir(dirpath, filenames[..f + 1]);
          log := log + [BatchEntry(filePath, outcome)];
        } else {
          assert done == XmlInWalk(walk[..d]) + XmlInDir(dirpath, filenames[..f + 1]);
        }
      }
      assert filenames[..|filenames|] == filenames;
      XmlInWalkStep(walk, d);
    }
    assert walk[..|walk|] == walk;
  }
}
