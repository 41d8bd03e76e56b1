/**
 * `load_solo.py`: loading the MIDI data folder, which holds one folder per instrument and, inside it,
 * one folder per work. The instrument is the instrument folder's name; the BWV number, title and key
 * are parsed from the work folder's name with `(BWV\d+)\s+(.*)\s+in\s+(.*)`; the movements are the
 * work folder's `.mid` files, numbered in sorted order. As in `load.py`, an insert is the record it
 * would insert.
 */
module SoloLoader {
  import opened Wrappers
  import opened Strings
  import opened Paths
  import opened Sorting
  import opened Scan
  import opened Loader

  // ---------------------------------------------------------------- the work folder: bwv, title, key

  /** `\s+in\s+` at `x`, in lower case: where the whitespace after "in" ends, and the key begins. */
  function SeparatorAt(t: string, x: nat): (r: Option<nat>)
    requires x <= |t|
    ensures r.Some? ==> x + 4 <= r.value <= |t|
  {
    var w := SpanEnd(t, x, IsSpace);
    if w > x && w + 2 < |t| && t[w] == 'i' && t[w + 1] == 'n' && IsSpace(t[w + 2]) then
      Some(SpanEnd(t, w + 2, IsSpace))
    else None
  }

  /** A separator found at `x` is whitespace, the word "in" and whitespace again, up to the key. */
  lemma SeparatorShape(t: string, x: nat)
    requires x <= |t| && SeparatorAt(t, x).Some?
    ensures var w := SpanEnd(t, x, IsSpace);
      && x < w && w + 2 < SeparatorAt(t, x).value && t[w..w + 2] == "in"
      && (forall k :: x <= k < w ==> IsSpace(t[k]))
      && (forall k :: w + 2 <= k < SeparatorAt(t, x).value ==> IsSpace(t[k]))
  {
    var w := SpanEnd(t, x, IsSpace);
    assert t[w..w + 2] == [t[w], t[w + 1]];
  }

  function SeparatorMatcher(t: string): nat -> Option<nat>
  {
    (x: nat) => if x <= |t| then SeparatorAt(t, x) else None
  }

  /** Where `.*` from `i` stops: the end of the line. */
  function LineEnd(t: string, i: nat): (e: nat)
    requires i <= |t|
    ensures i <= e <= |t| && (forall k :: i <= k < e ==> t[k] != '\n') && (e < |t| ==> t[e] == '\n')
  {
    SpanEnd(t, i, NotNewline)
  }

  /**
   * The greedy title `(.*)` from `a`, then `\s+in\s+`: the engine tries the title's end from the end
   * of the line back to `a`, so the last separator of the line wins. Its end and where the key begins.
   */
  function TitleEnd(t: string, a: nat): Option<(nat, nat)>
    requires a <= |t|
  {
    Rightmost(SeparatorMatcher(t), a, LineEnd(t, a))
  }

  function TitleMatcher(t: string): nat -> Option<(nat, nat)>
  {
    (a: nat) => if a <= |t| then TitleEnd(t, a) else None
  }

  /**
   * `re.match(r"(BWV\d+)\s+(.*)\s+in\s+(.*)", t)`: the end `d` of the digits, the start `a` of the
   * title, its end `x` and the start `g` of the key. The `\s+` after the digits gives back whitespace
   * one character at a time when the rest does not match, so the title starts at the latest `a` that works.
   */
  function SoloMatch(t: string): (r: Option<(nat, nat, nat, nat)>)
    ensures r.Some? ==> 3 < r.value.0 < r.value.1 <= r.value.2 < r.value.3 <= |t|
  {
    if !(BwvCapitalsAt(t, 0) && 3 < |t| && IsDigit(t[3])) then None
    else
      var d := SpanEnd(t, 3, IsDigit);
      var s := SpanEnd(t, d, IsSpace);
      if s == d then None
      else
        var found := Rightmost(TitleMatcher(t), d + 1, s);
        if found.None? then None
        else Some((d, found.value.0, found.value.1.0, found.value.1.1))
  }

  /** `work_folder.split(" ", 1)[0]`: everything before the first space. */
  function FirstToken(t: string): (r: string)
    ensures |r| <= |t| && t == r + t[|r|..] && (forall k :: 0 <= k < |r| ==> r[k] != ' ')
    ensures r == t || t[|r|] == ' '
  {
    t[..SpanEnd(t, 0, NotBlank)]
  }

  predicate NotBlank(c: char) { c != ' ' }

  /** A work as `load_solo.py` records it. */
  datatype SoloWork = SoloWork(bwv: string, title: string, key: Option<string>)

  /** The folder parse of `load_solo.py`. */
  function ParseSoloFolder(t: string): SoloWork
  {
    var m := SoloMatch(t);
    if m.None? then SoloWork(FirstToken(t), t, None)
    else
      var (d, a, x, g) := m.value;
      SoloWork(t[..d], t[a..x], Some(t[g..LineEnd(t, g)]))
  }

  /**
   * A match starts with "BWV" and a maximal run of digits, which is the BWV; whitespace follows, then
   * the one-line title, then a separator, and the key is the rest of the line after it.
   */
  lemma SoloMatchShape(t: string)
    requires SoloMatch(t).Some?
    ensures var (d, a, x, g) := SoloMatch(t).value;
      && t[..3] == "BWV" && 3 < d && (forall k :: 3 <= k < d ==> IsDigit(t[k])) && !IsDigit(t[d])
      && (forall k :: d <= k < a ==> IsSpace(t[k]))
      && x <= LineEnd(t, a) && (forall k :: a <= k < x ==> t[k] != '\n')
      && SeparatorAt(t, x) == Some(g)
  {
    var (d, a, x, g) := SoloMatch(t).value;
    assert t[..3] == [t[0], t[1], t[2]];
    assert TitleMatcher(t)(a) == Some((x, g));
    assert SeparatorMatcher(t)(x) == Some(g);
  }

  /**
   * The title is greedy: no separator starts after the title's end on the title's line, so the key
   * is what follows the last whitespace-"in"-whitespace of that line. And no later start of the title works.
   */
  lemma SoloMatchGreedy(t: string)
    requires SoloMatch(t).Some?
    ensures var (d, a, x, g) := SoloMatch(t).value;
      && (forall y :: x < y <= LineEnd(t, a) ==> SeparatorAt(t, y).None?)
      && (forall a' :: a < a' <= SpanEnd(t, d, IsSpace) ==>
            forall y :: a' <= y <= LineEnd(t, a') ==> SeparatorAt(t, y).None?)
  {
    var (d, a, x, g) := SoloMatch(t).value;
    assert TitleMatcher(t)(a) == Some((x, g));
    forall y | x < y <= LineEnd(t, a) ensures SeparatorAt(t, y).None? {
      assert SeparatorMatcher(t)(y).None?;
    }
    forall a', y | a < a' <= SpanEnd(t, d, IsSpace) && a' <= y <= LineEnd(t, a') ensures SeparatorAt(t, y).None? {
      assert TitleMatcher(t)(a').None?;
      assert SeparatorMatcher(t)(y).None?;
    }
  }

  /** On a match, the BWV is the leading token, the title the greedy group and the key the rest of its line. */
  lemma ParseSoloFolderMatched(t: string)
    requires SoloMatch(t).Some?
    ensures var (d, a, x, g) := SoloMatch(t).value;
      var w := ParseSoloFolder(t);
      && w.bwv == t[..d] && w.title == t[a..x] && w.key.Some?
      && w.key.value == t[g..LineEnd(t, g)] && (forall k :: 0 <= k < |w.key.value| ==> w.key.value[k] != '\n')
      && (LineEnd(t, g) == |t| || t[LineEnd(t, g)] == '\n')
  {
  }

  /**
   * Without a match the title is the whole folder name, there is no key, and the BWV is the text
   * before the first space, or the whole name when it has none.
   */
  lemma ParseSoloFolderUnmatched(t: string)
    requires SoloMatch(t).None?
    ensures var w := ParseSoloFolder(t);
      && w.title == t && w.key.None?
      && t == w.bwv + t[|w.bwv|..] && (forall k :: 0 <= k < |w.bwv| ==> w.bwv[k] != ' ')
      && (w.bwv == t || t[|w.bwv|] == ' ')
  {
  }

  /** A folder that does not start with "BWV" and a digit does not match. */
  lemma NoBwvNoMatch(t: string)
    requires |t| < 4 || t[..3] != "BWV" || !IsDigit(t[3])
    ensures SoloMatch(t).None?
  {
    if |t| >= 4 && BwvCapitalsAt(t, 0) {
      assert t[..3] == [t[0], t[1], t[2]];
    }
  }

  /** "BWV1 A in B in C": the title is "A in B" and the key "C", after the last separator. */
  lemma GreedyExample(t: string)
    requires t == "BWV1 A in B in C"
    ensures ParseSoloFolder(t) == SoloWork("BWV1", "A in B", Some("C"))
  {
    GreedyExampleMatch(t);
    GreedyExampleParts(t);
  }

  lemma GreedyExampleParts(t: string)
    requires t == "BWV1 A in B in C"
    ensures t[..4] == "BWV1" && t[5..11] == "A in B" && t[15..16] == "C"
  {
  }

  lemma GreedyExampleChars(t: string)
    requires t == "BWV1 A in B in C"
    ensures forall y :: 11 < y < 16 ==> !IsSpace(t[y]) || (!IsSpace(t[y + 1]) && t[y + 1] != 'i')
    ensures forall k :: 5 <= k < 16 ==> t[k] != '\n'
    ensures IsDigit(t[3]) && !IsDigit(t[4]) && IsSpace(t[4]) && !IsSpace(t[5])
    ensures IsSpace(t[11]) && t[12] == 'i' && t[13] == 'n' && IsSpace(t[14]) && !IsSpace(t[15])
  {
  }

  /** No separator from `x` to the end when each whitespace there is followed by a character other than white or 'i'. */
  lemma NoSeparatorBetween(t: string, lo: nat, hi: nat)
    requires hi < |t|
    requires forall y :: lo <= y < hi ==> !IsSpace(t[y]) || (!IsSpace(t[y + 1]) && t[y + 1] != 'i')
    ensures forall y :: lo <= y < hi ==> SeparatorMatcher(t)(y).None?
  {
    forall y | lo <= y < hi ensures SeparatorAt(t, y).None? {
      if IsSpace(t[y]) {
        SpanEndExact(t, y, IsSpace, y + 1);
      } else {
        SpanEndExact(t, y, IsSpace, y);
      }
    }
  }

  lemma GreedyExampleMatch(t: string)
    requires t == "BWV1 A in B in C"
    ensures SoloMatch(t) == Some((4, 5, 11, 15))
  {
    GreedyExampleChars(t);
    SpanEndExact(t, 3, IsDigit, 4);
    SpanEndExact(t, 4, IsSpace, 5);
    SpanEndExact(t, 5, NotNewline, 16);
    SpanEndExact(t, 11, IsSpace, 12);
    SpanEndExact(t, 14, IsSpace, 15);
    SpanEndExact(t, 16, IsSpace, 16);
    assert SeparatorMatcher(t)(11) == Some(15);
    NoSeparatorBetween(t, 12, 15);
    assert SeparatorMatcher(t)(15).None?;
    assert SeparatorMatcher(t)(16).None?;
    RightmostExact(SeparatorMatcher(t), 5, 16, 11);
    assert TitleMatcher(t)(5) == Some((11, 15));
  }

  // ---------------------------------------------------------------- movements and the scan

  /** `f.lower().endswith(".mid")` */
  predicate IsMidiFile(name: string)
  {
    EndsWith(Lower(name), ".mid")
  }

  /** The movements `load_solo.py` inserts for a work folder with the given listing. */
  function SoloMovements(workPath: string, listing: seq<string>): seq<MovementRow>
  {
    Numbered(workPath, Sort(Filter(listing, IsMidiFile)))
  }

  /**
   * The movements are exactly the `.mid` files of the listing, in any case, each as often as it is
   * listed, in sorted order, numbered 1, 2, ... and named by the file name without the extension.
   */
  lemma SoloMovementsAreMidiFiles(workPath: string, listing: seq<string>)
    ensures var files := Sort(Filter(listing, IsMidiFile));
      var rows := SoloMovements(workPath, listing);
      && |rows| == |files| && Sorted(files)
      && (forall f :: multiset(files)[f] == if IsMidiFile(f) then multiset(listing)[f] else 0)
      && (forall i :: 0 <= i < |rows| ==> rows[i].number == i + 1 && rows[i].path == Join(workPath, files[i]))
      && (forall i :: 0 <= i < |rows| ==> rows[i].name + Ext(files[i]) == files[i])
  {
    NumberedSortedMovements(workPath, listing, IsMidiFile);
  }

  /** An entry of the data folder: an instrument folder's name, whether it is a folder, and its work entries. */
  datatype InstrumentEntry = InstrumentEntry(name: string, isDir: bool, works: seq<Entry>)

  /** A work record as inserted, with its instrument by name, and its movements. */
  datatype SoloRecord = SoloRecord(instrument: string, work: SoloWork, folderPath: string, movements: seq<MovementRow>)

  /** What `load_solo.py` records for one work folder of an instrument folder. */
  function LoadSoloWork(instrumentPath: string, instrument: string, entry: Entry): SoloRecord
  {
    var path := Join(instrumentPath, entry.name);
    SoloRecord(instrument, ParseSoloFolder(entry.name), path, SoloMovements(path, entry.listing))
  }

  function WorkLoader(instrumentPath: string, instrument: string): Entry -> SoloRecord
  {
    (e: Entry) => LoadSoloWork(instrumentPath, instrument, e)
  }

  /** The records of one instrument folder, one per work folder in listing order. */
  function InstrumentWorks(baseDir: string, entry: InstrumentEntry): seq<SoloRecord>
  {
    Map(Folders(entry.works), WorkLoader(Join(baseDir, entry.name), entry.name))
  }

  /** The records of the data folder: the instrument folders' records in listing order, files skipped. */
  function LoadedSolo(baseDir: string, entries: seq<InstrumentEntry>): seq<SoloRecord>
  {
    if entries == [] then []
    else
      var last := entries[|entries| - 1];
      LoadedSolo(baseDir, entries[..|entries| - 1]) + (if last.isDir then InstrumentWorks(baseDir, last) else [])
  }

  /** The two nested scans of `load_solo.py`: instrument folders, then the work folders in each. */
  method LoadAllSolo(baseDir: string, entries: seq<InstrumentEntry>) returns (works: seq<SoloRecord>)
    ensures works == LoadedSolo(baseDir, entries)
  {
    works := [];
    var i := 0;
    while i < |entries|
      invariant 0 <= i <= |entries|
      invariant works == LoadedSolo(baseDir, entries[..i])
    {
      LoadedSoloStep(baseDir, entries, i);
      if entries[i].isDir {
        var records := LoadInstrument(baseDir, entries[i]);
        works := works + records;
      }
      i := i + 1;
    }
    assert entries[..|entries|] == entries;
  }

  /** The inner scan: one record per work folder of an instrument folder. */
  method LoadInstrument(baseDir: string, inst: InstrumentEntry) returns (records: seq<SoloRecord>)
    ensures records == InstrumentWorks(baseDir, inst)
  {
    var instrumentPath := Join(baseDir, inst.name);
    records := [];
    var j := 0;
    while j < |inst.works|
      invariant 0 <= j <= |inst.works|
      invariant records == Map(Folders(inst.works[..j]), WorkLoader(instrumentPath, inst.name))
    {
      FoldersStep(inst.works, j, WorkLoader(instrumentPath, inst.name));
      var work := inst.works[j];
      if work.isDir {
        var workPath := Join(instrumentPath, work.name);
        var movements := InsertMovements(workPath, Sort(Filter(work.listing, IsMidiFile)));
        records := records + [SoloRecord(inst.name, ParseSoloFolder(work.name), workPath, movements)];
      }
      j := j + 1;
    }
    assert inst.works[..|inst.works|] == inst.works;
  }

  lemma LoadedSoloStep(baseDir: string, entries: seq<InstrumentEntry>, i: nat)
    requires i < |entries|
    ensures LoadedSolo(baseDir, entries[..i + 1])
      == LoadedSolo(baseDir, entries[..i]) + (if entries[i].isDir then InstrumentWorks(baseDir, entries[i]) else [])
  {
    assert entries[..i + 1][..i] == entries[..i];
  }

  /** Each record of an instrument folder is that of one of its work folders. */
  lemma InstrumentWorksFrom(baseDir: string, inst: InstrumentEntry)
    ensures forall r | r in InstrumentWorks(baseDir, inst) ::
      (exists w :: w in inst.works && w.isDir && r == LoadSoloWork(Join(baseDir, inst.name), inst.name, w))
  {
    var folders := Folders(inst.works);
    forall r | r in InstrumentWorks(baseDir, inst)
      ensures exists w :: w in inst.works && w.isDir && r == LoadSoloWork(Join(baseDir, inst.name), inst.name, w)
    {
      var k :| 0 <= k < |folders| && r == InstrumentWorks(baseDir, inst)[k];
      assert multiset(folders)[folders[k]] > 0;
    }
  }

  /**
   * Every record comes from a work folder of an instrument folder: its instrument is that folder's
   * name, and its path the work folder's path under it.
   */
  lemma {:induction false} LoadedSoloFromFolders(baseDir: string, entries: seq<InstrumentEntry>)
    ensures forall r | r in LoadedSolo(baseDir, entries) ::
      (exists i, w :: 0 <= i < |entries| && entries[i].isDir && w in entries[i].works && w.isDir
        && r == LoadSoloWork(Join(baseDir, entries[i].name), entries[i].name, w))
    decreases |entries|
  {
    if entries != [] {
      var n := |entries| - 1;
      var init := entries[..n];
      var last := entries[n];
      var tail := if last.isDir then InstrumentWorks(baseDir, last) else [];
      assert LoadedSolo(baseDir, entries) == LoadedSolo(baseDir, init) + tail;
      LoadedSoloFromFolders(baseDir, init);
      InstrumentWorksFrom(baseDir, last);
      forall r | r in LoadedSolo(baseDir, entries)
        ensures (exists i, w ::
                   0 <= i < |entries| && entries[i].isDir && w in entries[i].works && w.isDir
                   && r == LoadSoloWork(Join(baseDir, entries[i].name), entries[i].name, w))
      {
        if r in LoadedSolo(baseDir, init) {
          var i, w :| 0 <= i < |init| && init[i].isDir && w in init[i].works && w.isDir
            && r == LoadSoloWork(Join(baseDir, init[i].name), init[i].name, w);
          assert entries[i] == init[i];
        } else {
          assert last.isDir && r in InstrumentWorks(baseDir, last);
          var w :| w in last.works && w.isDir && r == LoadSoloWork(Join(baseDir, last.name), last.name, w);
          assert entries[n] == last;
        }
      }
    }
  }
}
