# GenAI-Music: the harmonizer, the feature encoder and the naming scripts, in Dafny

GenAI-Music collects Bach's solo works (cello suites, violin sonatas and partitas, the flute
partita). It downloads them as MIDI, converts them to MusicXML and files them by BWV catalogue
number. It then adds a piano accompaniment to each piece and turns the accompaniment into a table
of chord features for learning. This project models the deterministic core of those scripts.

- **The harmonizer** (`scripts/accomp.py`), in modules `Harmony` and `Accompaniment`.
  - Each key has seven stacked-third triads, labelled with Roman numerals.
  - A home key has four candidate keys: itself, the key a fifth up, the key a fifth down, and the relative key.
  - A triad is scored against the notes of a measure by the size of the symmetric difference of the two sets of pitches.
  - A strict running-minimum search runs over the 4 × 7 candidates.
  - Each measure of the melody gets one chord or one rest.
  - The two output files are named after the source file, and a batch runs over a directory walk.
- **The feature encoder** (`scripts/transform.py`), in module `Features`.
  - One fixed-schema row per chord of the accompaniment part.
  - Each row carries a twelve-bucket pitch-class histogram weighted by the chord's duration.
  - An aggregator tags each file's rows with the folder name and joins them. A file that fails adds no rows.
- **Classification of downloads** (`scripts/extract.py`), in module `Catalog`.
  - `clean_name`, the filename table, BWV extraction, work-title extraction and movement-name derivation.
  - The `.xml` rewrite of saved file names.
- **The crawlers' helpers** (`scripts/extract_solo.py`, `scripts/extract_all.py`), in module `Crawl`.
  - `clean_name` of `extract_solo.py`, which that script defines but never calls, and the two `find_bwv` helpers.
  - The rules that choose the folder a MIDI link or a zip member is saved under.
- **The two database loaders** (`scripts/load.py`, `scripts/load_solo.py`), in modules `Loader` and `SoloLoader`.
  - Instrument inference from the folder name.
  - Parsing a work folder's name into BWV number, title and key.
  - Numbering a work's score files in sorted order.
  - The folder scans that produce one record per work folder.

Supporting modules:

- `Music`: pitch classes and modes.
- `Strings` and `Paths`: ASCII character classes, `strip`, `lower`, and `os.path` basics in their POSIX (`posixpath`) form.
- `Sorting`: insertion sort on strings.
- `Scan`: how Python's `re` uses a matcher. `re.search` takes the leftmost match, `re.sub` removes matches one after another, and a greedy group then backtracks.
- `Wrappers`: `Option` and `Result`.

Modelling conventions:

- **Pitches are pitch classes 0..11.** music21 compares spelled names (`p.name`), so a triad with D-flat and a note C# differ there but are equal here.
- **The fifth keys come out major.** They are built from a tonic alone. music21 gives such a key the major mode, since every pitch name starts with an upper-case letter. The model follows the code.
- **Durations are exact `real` values**, music21's `quarterLength`.
- **Regular expressions are explicit scanners** over strings, with ASCII `\s`, `\d`, letters and case. The engine's search order is followed: lazy versus greedy, leftmost match, backtracking.
- **music21 results are inputs.** These are the parse, the key analysis, `chordify`, `Chord.root()` and `pitchedCommonName`. A failed parse, analysis or `root()` is an input too.
- **A directory listing or walk is an input sequence.**
- **A database insert is the record it would insert.**
- **Where a script's loop changes state step by step, the model is a method with a loop.** It is proved equal to a specification function, and the properties are proved about that function.

## Model

| member | source | states |
|---|---|---|
| Harmony.Scale | scripts/accomp.py:14 | a key's scale has seven degrees |
| Harmony.ScaleFollowsSteps | scripts/accomp.py:14 | each degree lies the mode's step (major 2,2,1,2,2,2,1; natural minor 2,1,2,2,1,2,2) above the previous one, wrapping from the seventh back to the tonic |
| Harmony.ScaleDistinct | scripts/accomp.py:17-20 | the seven degrees of a scale are pairwise distinct pitch classes |
| Harmony.HarmonyTable | scripts/accomp.py:15-21 | the table of a key has seven entries |
| Harmony.KeyHarmony | scripts/accomp.py:9-21 | the degree-by-degree loop that fills the dictionary yields exactly the table HarmonyTable describes |
| Harmony.TriadTableShape | scripts/accomp.py:11-20 | seven entries with pairwise distinct labels, labelled I ii iii IV V vi vii° in major and i ii° III iv v VI VII in minor, in that order; each triad has three distinct pitch classes of the key's scale |
| Harmony.LabelsDistinct | scripts/accomp.py:11-12 | no label occurs twice in a mode's list, so no dictionary entry overwrites another |
| Harmony.TriadDistinct | scripts/accomp.py:17-20 | triad i, built from degrees i, i+2 and i+4 mod 7, has three distinct pitch classes, all in the scale |
| Harmony.LabelsNameQualities | scripts/accomp.py:11-20 | each label's case and '°' name the quality of the triad stored under it, which is major, minor or diminished, never anything else |
| Harmony.QualityByOffsets | scripts/accomp.py:11-12 | the label of each degree matches the third and fifth above its root (major 4 and 7, minor 3 and 7, diminished 3 and 6 semitones) |
| Harmony.Distance | scripts/accomp.py:24-28 | `chord_distance_no_octave`: zero exactly when the triad is the set of notes sounding (DistanceZeroIffSame), unaffected by rests and chords (DistanceIgnoresRestsAndChords), 3 in silence (DistanceOfSilence) |
| Harmony.DistanceZeroIffSame | scripts/accomp.py:24-28 | the distance is 0 exactly when the triad's pitches are the pitches sounding in the group |
| Harmony.NotesOnly | scripts/accomp.py:27 | the filtered group holds single notes only |
| Harmony.NotesOnlySameSet | scripts/accomp.py:27 | filtering out rests and chords leaves the set of sounding pitches unchanged |
| Harmony.DistanceIgnoresRestsAndChords | scripts/accomp.py:27-28 | rests and chord elements in the group do not change the distance |
| Harmony.DistanceOfSilence | scripts/accomp.py:26-28 | with no single note sounding, a triad of three pitch classes is at distance 3 |
| Harmony.ModulationKeys | scripts/accomp.py:31-37 | four keys, in this order: the home key, the tonic 7 semitones up, 7 semitones down (both in the default mode), and the relative key; keys that coincide are not removed |
| Harmony.Relative | scripts/accomp.py:36 | `music_key.relative`: the other mode over the same pitch classes, whose relative is the home key (RelativeSharesScale), with degrees shifted by five or two (RelativeDegree) |
| Harmony.RelativeDegree | scripts/accomp.py:36 | degree i of the relative key is degree i + 5 (from major) or i + 2 (from minor), counted round the seven degrees, of the home key |
| Harmony.RelativeSharesScale | scripts/accomp.py:36 | the relative key has the other mode and the same seven pitch classes, and its relative is the home key |
| Harmony.KeyCandidates | scripts/accomp.py:49-50 | one key contributes seven candidates, one per entry of its table |
| Harmony.CandidatesOfAt | scripts/accomp.py:48-50 | in the key-by-key candidate list, candidate 7·k + d is entry d of key k |
| Harmony.SearchSpace | scripts/accomp.py:48-50 | the nested loops visit 4 × 7 = 28 candidates |
| Harmony.SearchSpaceAt | scripts/accomp.py:48-50 | candidate 7·k + d is degree d of candidate key k, with that degree's label and triad |
| Harmony.CandidateTriadDistinct | scripts/accomp.py:17-20 | every one of the 28 candidate triads has three distinct pitch classes |
| Harmony.ArgMin | scripts/accomp.py:46-56 | a running minimum with strict `<`, started at infinity, ends on a least element and on the first one |
| Harmony.ArgMinStep | scripts/accomp.py:51-56 | one more element moves the running minimum to it exactly when it is strictly smaller |
| Harmony.Winner | scripts/accomp.py:46-56 | the strict running minimum ends on a candidate of least distance, and on the first such candidate |
| Harmony.WinnerStep | scripts/accomp.py:51-56 | one loop step replaces the best so far only when the new distance is strictly smaller; the first candidate always replaces the initial infinity |
| Harmony.BestMatch | scripts/accomp.py:40-63 | key, triad and degree come from one candidate, the first of least distance, and the reported distance is at most that of every one of the 28 candidates |
| Harmony.BestMatchLabelled | scripts/accomp.py:11-56 | the degree label reported names the quality (major, minor or diminished) of the triad reported |
| Harmony.BestMatchIsFirstMinimum | scripts/accomp.py:52 | tie-break: the candidate reported is the earliest one of least distance, that is the earliest key and then the lowest degree |
| Harmony.NeverWorseThanHomeKey | scripts/accomp.py:48-56 | the search result is never worse than any of the home key's own seven triads |
| Harmony.SilenceGivesHomeTonic | scripts/accomp.py:46-56 | with no note sounding, triad I (or i) of the home key wins at distance 3 |
| Harmony.CMajorTriadExample | scripts/accomp.py:40-63 | notes C, E and G in C major give triad I of C major at distance 0 |
| Harmony.ScanKey | scripts/accomp.py:49-56 | the inner loop over one key's seven triads, entered with the first least candidate among the earlier keys, leaves the first least candidate among those and its own seven |
| Harmony.BestSoFarComplete | scripts/accomp.py:46-63 | once all 28 candidates are scanned, the best so far is BestMatch |
| Harmony.DetectChordWithModulation | scripts/accomp.py:40-63 | the nested loop with its running minimum returns exactly BestMatch |
| Accompaniment.Accompaniment | scripts/accomp.py:95-108 | the accompaniment part: one event per measure, a rest below three notes, else the best triad with its degree as lyric (AccompanimentAligned, LyricNamesChordQuality); the loop HarmonizeMeasures computes it |
| Accompaniment.AccompanimentAligned | scripts/accomp.py:95-108 | one event per measure, in order, each as long as its measure; a rest exactly when the measure has fewer than three single notes, otherwise the best-match triad with the winning degree as lyric |
| Accompaniment.LyricNamesChordQuality | scripts/accomp.py:103 | every chord's lyric names the chord's quality (major, minor or diminished) |
| Accompaniment.TwoNoteMeasureRests | scripts/accomp.py:96-108 | a measure with two notes and a rest gets a rest spanning the whole measure |
| Accompaniment.AccompanimentStep | scripts/accomp.py:95-108 | one more measure appends exactly its own event to the part |
| Accompaniment.ChordEventFor | scripts/accomp.py:97-104 | a measure with three or more notes gets the search's triad, the measure's duration and the degree as lyric |
| Accompaniment.HarmonizeMeasures | scripts/accomp.py:95-108 | the per-measure loop builds exactly the part Accompaniment describes |
| Accompaniment.OutputTitle | scripts/accomp.py:75-76 | the base name followed by " Accomp", a file name without a slash (OutputNamed) |
| Accompaniment.OutputPaths | scripts/accomp.py:119-120 | the two output paths, beside the source and named after it (OutputsBesideSource) |
| Accompaniment.PieceOutcome | scripts/accomp.py:68-127 | one file's outcome: the first failure in source order, else the paths and the harmonized part (AddPianoAccompaniment) |
| Accompaniment.XmlInDir | scripts/accomp.py:138-140 | the paths of a directory's names ending in `.xml`, in any case, in listing order (XmlInDirSelects, XmlInDirStep) |
| Accompaniment.BatchLog | scripts/accomp.py:137-144 | one entry per path, each depending on that file alone (BatchLogAppend), as the walk produces it (AddAccompanimentToAllXml) |
| Accompaniment.StemOfBasenameNoSlash | scripts/accomp.py:75 | the base name taken from the path holds no slash |
| Accompaniment.OutputNamed | scripts/accomp.py:75-76 | the output title plus an extension is a non-empty file name without a slash, ending in " Accomp" and the extension |
| Accompaniment.OutputsBesideSource | scripts/accomp.py:119-120 | both outputs lie in the source's folder and are named `<base> Accomp.mid` and `<base> Accomp.xml` |
| Accompaniment.AddPianoAccompaniment | scripts/accomp.py:68-127 | the outcome is the failure raised by parsing, by a score with no parts, by key analysis or by writing, or else the two paths and the harmonized first part |
| Accompaniment.XmlInDirSelects | scripts/accomp.py:138-140 | every processed path joins the walked directory to a listed name ending in `.xml`, in any case |
| Accompaniment.BatchLogAppend | scripts/accomp.py:137-144 | each file's entry depends on that file only, so a failure does not affect what follows |
| Accompaniment.XmlInDirStep | scripts/accomp.py:138-140 | one more name adds its path exactly when it ends in `.xml`, in any case |
| Accompaniment.XmlInWalkStep | scripts/accomp.py:137-140 | one more walked directory adds its own selected paths |
| Accompaniment.AddAccompanimentToAllXml | scripts/accomp.py:132-144 | one log entry per selected `.xml` path, in walk order; each entry is that file's success or its reported failure, and the walk goes on |
| Features.Histogram | scripts/transform.py:16-18 | the histogram has twelve buckets |
| Features.HistogramStep | scripts/transform.py:17-18 | a pitch adds the chord's duration to its own bucket and leaves the other eleven unchanged |
| Features.WeightedHistogram | scripts/transform.py:15-18 | the loop, starting from twelve zero buckets and adding the duration per pitch, yields Histogram |
| Features.CountAll | scripts/transform.py:17-18 | the counts of the twelve classes add up to the number of pitches |
| Features.RepeatedIsProduct | scripts/transform.py:17-18 | adding the duration once per pitch, c times, gives the duration times c |
| Features.RepeatedAdds | scripts/transform.py:17-18 | adding the duration a times and then b times is adding it a + b times |
| Features.RepeatedPositive | scripts/transform.py:17-18 | a positive duration added at least once gives at least that duration |
| Features.HistogramPrefixSum | scripts/transform.py:16-18 | the first n buckets together hold the duration once for every pitch of class below n |
| Features.HistogramTotal | scripts/transform.py:17-18 | the twelve buckets sum to the duration times the number of pitches |
| Features.EmptyBucketMeansAbsent | scripts/transform.py:16-18 | for a positive duration, a bucket is 0 exactly when no pitch has that class |
| Features.CountZeroIffAbsent | scripts/transform.py:16-18 | the count of a class is 0 exactly when no pitch has it |
| Features.FeatureRowOf | scripts/transform.py:5-39 | the row of one chord, or the failure when `ch.root()` raises: histogram, bass, root, key, mode and note count (RowDescribesChord), 21 fields in order (RecordSchema), computed by ExtractFeaturesFromChord |
| Features.RowDescribesChord | scripts/transform.py:5-39 | no row exactly when the element is a chord whose `root()` raises; otherwise twelve buckets summing to duration × `num_notes`; `num_notes` counts the pitches; `bass` is the first pitch's name, absent exactly when there are no pitches; `root` is the library's root, absent exactly for a non-chord; `local_key` and `mode` are both absent without a key, and the key's tonic name and mode otherwise |
| Features.ExtractFeaturesFromChord | scripts/transform.py:5-39 | the histogram loop, the root that may raise, and the row expressions give exactly FeatureRowOf |
| Features.BucketColumnNames | scripts/transform.py:16 | the bucket columns are `pc_0` .. `pc_11` |
| Features.RecordSchema | scripts/transform.py:28-39 | the record has exactly 21 fields, `measure, beat, duration, num_notes, root, bass, local_key, mode, pc_0..pc_11, chord_name`, in that order, with bucket k under `pc_k` |
| Features.FileRows | scripts/transform.py:41-67 | one row per chord of the accompaniment part, or the failure of the parse, of a missing part or of a chord's `root()` (FileRowsPerChord), computed by ProcessXmlFile |
| Features.FileRowsPerChord | scripts/transform.py:48-67 | part 1, or part 0 when there is only one; the file fails exactly when some chord of that part has a `root()` that raises, and otherwise gives one row per chord, in order; a failed key analysis leaves the key columns empty instead of failing the file |
| Features.RowsPerChord | scripts/transform.py:62-65 | the chords' rows exist exactly when no chord's `root()` raises, and are then one row per chord, in order |
| Features.RowsFailureStays | scripts/transform.py:62-65 | an exception in the loop ends it: once a prefix of the chords fails, the whole part fails the same way |
| Features.ProcessXmlFile | scripts/transform.py:41-67 | the row-collecting loop returns exactly FileRows, stopping at the first chord whose `root()` raises, with failure when parsing raised or there is no part |
| Features.AccompInDirSelects | scripts/transform.py:79-85 | only names ending in `Accomp.xml` (case-sensitive) are taken, each tagged with its enclosing folder's name |
| Features.Aggregated | scripts/transform.py:69-94 | the `results` map of successful files (ResultsMapEntries) or their rows concatenated (ConcatRowCount), computed by ProcessAllAccompFiles |
| Features.ConcatRowCount | scripts/transform.py:91-92 | the concatenated table has as many rows as the successful files together; a failed file adds none |
| Features.ResultsMapEntries | scripts/transform.py:83-86 | a path is in `results` exactly when a taken file with that path succeeded, and its entry is that file's rows tagged with its folder's name |
| Features.SuccessesStep | scripts/transform.py:83-89 | a successful file appends its tagged table and sets its `results` entry; a failed file changes neither |
| Features.AccompInDirStep | scripts/transform.py:80-82 | one more name is taken exactly when it ends in `Accomp.xml` |
| Features.AccompInWalkStep | scripts/transform.py:79-82 | one more walked directory adds its own taken files |
| Features.ProcessDir | scripts/transform.py:80-89 | the loop over one folder's files adds exactly that folder's taken files, in order, to `results` and `all_dfs` |
| Features.ProcessAllAccompFiles | scripts/transform.py:69-94 | the walk with per-file isolation returns the `results` map, or the concatenation, which fails when no file succeeded |
| Catalog.CleanName | scripts/extract.py:48-67 | `clean_name`: clean characters only, no slash, stripped (CleanNameClean), idempotent (CleanNameIdempotent) |
| Catalog.ExtractBwvFromFilename | scripts/extract.py:70-88 | the entry of the first table key that starts the lower-cased name (FirstPrefixEntry) |
| Catalog.ExtractBwv | scripts/extract.py:91-110 | "BWV" and the group of the leftmost match, none exactly when nothing matches (ExtractBwvMeaning, SearchBwvGroup) |
| Catalog.ExtractWorkTitle | scripts/extract.py:113-134 | the cleaned text before the first "BWV" (ExtractWorkTitleBeforeFirstBwv, ExtractWorkTitleLeftmost), found exactly when a "BWV" follows a character of its line (ExtractWorkTitleMeaning), clean and stripped (ExtractWorkTitleIsClean) |
| Catalog.ExtractMovementInfo | scripts/extract.py:137-220 | the four branches in order: prefixed pattern (PrefixedMovement), leading number (LeadingNumberMovement), numbered fallback (NumberedFallbackMovement), tidied name (LastResortMovement) |
| Catalog.KeepCleanChars | scripts/extract.py:67 | the result is no longer than the input and holds only `[A-Za-z0-9_\-#. ]` |
| Catalog.KeepCleanCharsKeepsClean | scripts/extract.py:67 | text made of allowed characters is kept as it is |
| Catalog.CleanNameClean | scripts/extract.py:65-67 | the result holds only `[A-Za-z0-9_\-#. ]`, no slash, and has no leading or trailing whitespace |
| Catalog.CleanNameIdempotent | scripts/extract.py:65-67 | cleaning twice is cleaning once |
| Catalog.CleanNameExamples | scripts/extract.py:59-67 | "Menuet I/II" gives "Menuet I_II", and "Suite No. 1 / BWV 1007" gives "Suite No. 1 _ BWV 1007" (the code's value, not the docstring's) |
| Catalog.FirstPrefixEntry | scripts/extract.py:85-88 | an entry is found exactly when some table key starts the name, and it is the entry of the first such key |
| Catalog.ExtractBwvFromFilenameExample | scripts/extract.py:80-88 | "cs1-1pre.mid", in either case, gives ("BWV1007", "Suite No. 1 in G major") |
| Catalog.BwvMappingsPrefixFree | scripts/extract.py:28-45 | no key of the table starts another, so at most one entry applies |
| Catalog.SearchBwvGroup | scripts/extract.py:107 | the search reports the group of the leftmost match, and finds one exactly when some position matches |
| Catalog.BwvGroupAtMeaning | scripts/extract.py:107 | a match at k is "BWV" in any case, optional whitespace and at least three digits; its group gives "BWV", three or four digits and at most one letter |
| Catalog.ExtractBwvMeaning | scripts/extract.py:107-110 | a number is returned exactly when the pattern matches somewhere, and it is "BWV", three or four digits and an optional letter |
| Catalog.ExtractBwvExample | scripts/extract.py:101-110 | "Partita No. 2 BWV 1004" gives "BWV1004" |
| Catalog.ExtractBwvKeepsLetter | scripts/extract.py:107-109 | "bwv1007a" gives "BWV1007a": the letter is kept |
| Catalog.SearchFromFirst | scripts/extract.py:107 | with no "BWV" before k and a match at k, the search reports the match at k |
| Catalog.LazyTitleEnd | scripts/extract.py:128 | the lazy `.+?` ends where "BWV" follows after optional whitespace, with no newline consumed |
| Catalog.LazyTitleEndLeast | scripts/extract.py:128 | the lazy group ends at the first end on the line that works, never later |
| Catalog.SearchTitle | scripts/extract.py:128 | a match found has a non-empty group inside the text |
| Catalog.SearchTitleEnd | scripts/extract.py:128 | the group of a match found ends at the lazy end from its start |
| Catalog.SearchTitleFirst | scripts/extract.py:128 | a match found starts at the leftmost position where one can start |
| Catalog.SearchTitleNone | scripts/extract.py:128 | the search finds nothing only when no position starts a match |
| Catalog.ExtractWorkTitleLeftmost | scripts/extract.py:128-133 | the title is the text from the leftmost match start to the lazy end, stripped, with the work word's spacing collapsed, and cleaned |
| Catalog.ExtractWorkTitleBeforeFirstBwv | scripts/extract.py:115-133 | when the first `\s*BWV` follows at least one character and no newline comes before it, the title is the text before it, stripped, collapsed and cleaned |
| Catalog.ExtractWorkTitleMeaning | scripts/extract.py:127-134 | a title is found exactly when a character other than a newline is followed, after optional whitespace, by "BWV" in any case |
| Catalog.ExtractWorkTitleIsClean | scripts/extract.py:130-133 | a title found is clean and stripped |
| Catalog.SearchTitleFrom | scripts/extract.py:128 | a match that exists from a later start is also found from the text's start |
| Catalog.ExtractWorkTitleExample | scripts/extract.py:123-134 | "Partita No. 2 in D minor BWV1004" gives "Partita No. 2 in D minor" |
| Catalog.Lookup | scripts/extract.py:198-199 | a key is found exactly when the table holds it, with the value stored under it |
| Catalog.MovementNamesDistinct | scripts/extract.py:160-188 | the movement abbreviations are pairwise distinct, so the table is a dictionary |
| Catalog.LookupEntry | scripts/extract.py:198-199 | looking up an entry's key gives that entry's value |
| Catalog.Search | scripts/extract.py:192 | the match at the leftmost position where the pattern matches, and nothing exactly when no position matches |
| Catalog.BacktrackStart | scripts/extract.py:205 | the backtracked start of `(.+)` lies after the digits and within the text, at a character other than a newline |
| Catalog.NoLeadingZerosShape | scripts/extract.py:207 | after stripping, the number is "0" or a suffix of the digits that does not start with 0 |
| Catalog.PrefixedMovement | scripts/extract.py:192-202 | `<series><n>-<number><abbrev>` is named by the number and the table's name for the abbreviation, or the abbreviation capitalised when the table lacks it |
| Catalog.PrefixedSearch | scripts/extract.py:192 | `[a-z]+\d*-(\d+)([a-z]+)` on such a name captures the number and the abbreviation |
| Catalog.PreludeExample | scripts/extract.py:150-202 | "cs1-1pre.mid" gives "1 Prelude" |
| Catalog.SarabandeExample | scripts/extract.py:153-202 | "vp2-3sar.mid" gives "3 Sarabande" |
| Catalog.UnknownAbbreviationExample | scripts/extract.py:200-202 | "fp-2xyz.mid" gives "2 Xyz" |
| Catalog.LeadingNumberMovement | scripts/extract.py:157-209 | `<number><separators><text>`, with or without `.mid`, is named by the number without its leading zeros and the text with `_` and `-` read as spaces, stripped and title-cased; the text may hold `-` wherever no digit follows it |
| Catalog.LeadingNumberShape | scripts/extract.py:205 | `^(\d+)[\s\-_]+(.+)` on such a name captures the number and the text |
| Catalog.LeadingZeroExample | scripts/extract.py:157-209 | "01_allemande.mid" gives "1 Allemande" |
| Catalog.AllZerosExample | scripts/extract.py:207-209 | "000 - gigue" gives "0 Gigue" |
| Catalog.NumberedFallbackMovement | scripts/extract.py:157-217 | a name, with or without `.mid`, whose stem has no dot, no `-` before a digit and no separator right after its leading digits (such as `3sar.mid`) is named by its leftmost `(\d+)([a-z]+)` when the table knows the letters |
| Catalog.LastResortMovement | scripts/extract.py:157-220 | a name, with or without `.mid`, whose stem has no digit and no dot matches none of the patterns and is tidied: `_` and `-` as spaces, stripped, title-cased |
| Catalog.FallbackExample | scripts/extract.py:212-217 | "3sar.mid" gives "3 Sarabande" through the last search |
| Catalog.LastResortExample | scripts/extract.py:220 | "prelude.mid" gives "Prelude" |
| Catalog.MidRemoved | scripts/extract.py:157 | removing `.mid` and `.MID` from a dot-free name plus `.mid` gives the name |
| Catalog.WithXmlExtension | scripts/extract.py:467-471 | the `.xml` rewrite: ends in `.xml`, idempotent (WithXmlExtensionProperties), keeps clean names clean (WithXmlExtensionKeepsClean) |
| Catalog.MovementFileName | scripts/extract.py:457-471 | the saved movement name, ending in `.xml` and clean when derived from the file name (MovementFileNameProperties) |
| Catalog.WithXmlExtensionProperties | scripts/extract.py:467-471 | the rewritten name ends in `.xml`; a trailing `.mid` (in any case) is replaced, a trailing `.xml` is kept as it is, and anything else gets `.xml` appended; a second rewrite changes nothing |
| Catalog.WithXmlExtensionKeepsClean | scripts/extract.py:465-471 | rewriting a clean name keeps it clean |
| Catalog.MovementFileNameProperties | scripts/extract.py:457-471 | the saved movement name ends in `.xml`; derived from the file name, it holds only characters that `clean_name` keeps |
| Catalog.BourreeFileName | scripts/extract.py:464-471 | "cs3-5bou.mid" is named "5 Bourrée" and saved as "5 Bourre.xml": the accented letter is dropped |
| Crawl.CleanName | scripts/extract_solo.py:13-15 | `clean_name`, defined but never called by the script: holds only `[A-Za-z0-9_\-]` (CleanNameChars), idempotent (CleanNameIdempotent) |
| Crawl.FindBwv | scripts/extract_solo.py:17-22 | `None` exactly without three consecutive digits, else "BWV" and the leftmost run's first three or four digits (FindBwvLeftmostRun, FindBwvNumber) |
| Crawl.FindBwvOrNone | scripts/extract_all.py:25-37 | the guarded `find_bwv` of the other script, equal to FindBwv on any string (FindBwvScriptsAgree) |
| Crawl.SoloLink | scripts/extract_solo.py:52-74 | the folder and saved name of a link (SoloLinkFolder) |
| Crawl.SoloMember | scripts/extract_solo.py:77-82 | the folder and saved name of a zip member (SoloMemberFolder) |
| Crawl.AllLink | scripts/extract_all.py:45-72 | the same classification of a link as SoloLink (LinkRulesAgree) |
| Crawl.AllMember | scripts/extract_all.py:77-81 | the same filing of a zip member as SoloMember (LinkRulesAgree) |
| Crawl.KeepNameChars | scripts/extract_solo.py:15 | the result is no longer than the input and holds only `[A-Za-z0-9_\- ]` |
| Crawl.KeepNameCharsKeeps | scripts/extract_solo.py:15 | text made of allowed characters is kept as it is |
| Crawl.CleanNameChars | scripts/extract_solo.py:13-15 | the result holds only `[A-Za-z0-9_\-]`, with no space |
| Crawl.CleanNameIdempotent | scripts/extract_solo.py:13-15 | cleaning twice is cleaning once |
| Crawl.CleanNameFixed | scripts/extract_solo.py:13-15 | a name made only of `[A-Za-z0-9_\-]` is left as it is |
| Crawl.DigitsAfterSpaces | scripts/extract_solo.py:19 | `\s*` then three digits: three digits start where the whitespace ends |
| Crawl.MatchAt | scripts/extract_solo.py:19 | a match at p has three digits at its group's start and no digit before it |
| Crawl.SearchFrom | scripts/extract_solo.py:19 | a match found has three digits at its group's start |
| Crawl.Digits | scripts/extract_solo.py:19 | group 2 is three or four digits of the text, three only when a fourth digit does not follow |
| Crawl.FirstThreeDigits | scripts/extract_solo.py:19 | reference: the leftmost position where three digits start, or none anywhere |
| Crawl.SearchFindsFirstDigits | scripts/extract_solo.py:19 | the regex search finds exactly the leftmost three digits |
| Crawl.FindBwvLeftmostRun | scripts/extract_solo.py:17-22 | `None` exactly when the text has no three consecutive digits; otherwise "BWV" and the first three or four digits of the leftmost such run, any "BWV" before it and any letter after it dropped |
| Crawl.FindBwvNumber | scripts/extract_solo.py:19-21 | a result is "BWV" and three or four digits |
| Crawl.FindBwvSpacedWord | scripts/extract_all.py:28-36 | "bwv 1007" gives "BWV1007" |
| Crawl.FindBwvDropsLetter | scripts/extract_all.py:29-36 | "BWV1007a" and "BWV1007b" both give "BWV1007" |
| Crawl.FindBwvBareDigits | scripts/extract_all.py:28-36 | a bare "1007a" gives "BWV1007" |
| Crawl.FindBwvScriptsAgree | scripts/extract_all.py:25-37 | the guard for missing or empty text gives `None`, and otherwise the same result as the search of the other script |
| Crawl.SavedName | scripts/extract_solo.py:58 | the saved name is as long as the link's base name and holds no space and no slash |
| Crawl.LinkRulesAgree | scripts/extract_all.py:48-81 | both scripts classify every link and file every zip member alike |
| Crawl.SoloLinkFolder | scripts/extract_solo.py:52-74 | a MIDI or zip link is filed under its BWV number, under "Misc" exactly when it has none; the saved name has no space and no slash |
| Crawl.SoloMemberFolder | scripts/extract_solo.py:79-82 | a zip member is kept exactly when it ends in `.mid`, in any case; it is filed under its own BWV number when it has one, otherwise under the archive's folder (itself a BWV number or "Misc") |
| Loader.InferInstrument | scripts/load.py:89-105 | the first table pattern matching at the start, or "Cello" (InferInstrumentFirstMatch) |
| Loader.FirstPattern | scripts/load.py:100-103 | the first table pattern that matches, if any, with no earlier pattern matching |
| Loader.InferInstrumentFirstMatch | scripts/load.py:89-105 | the instrument of the first pattern, in table order, that matches at the start of the folder name, and "Cello" when none does; always Violin, Flute or Cello |
| Loader.InferInstrumentExample | scripts/load.py:55-105 | "Partita No. 2 in D minor BWV1004" is a violin work |
| Loader.ParseWorkFolder | scripts/load.py:116-131 | BWV, title and key of a work folder (ParseWorkFolderBwv, WorkKeyLeftmost, RemoveFirstKeyPhrase) |
| Loader.WorkKey | scripts/load.py:123-124 | group 1 of the leftmost key phrase, none exactly when none matches (WorkKeyLeftmost) |
| Loader.WorkTitle | scripts/load.py:127 | the title part with each key phrase removed, stripped (RemoveFirstKeyPhrase, WorkTitleNoKey) |
| Loader.BwvAfter | scripts/load.py:117 | `\s+BWV(\d+)`: whitespace, "BWV" in capitals, and a maximal run of digits |
| Loader.LazyTitle | scripts/load.py:117 | the lazy title ends at the first end on the line after which `\s+BWV\d+` follows, and no earlier end works |
| Loader.ParseWorkFolderBwv | scripts/load.py:117-131 | a folder matching `<title> BWV<digits>` gets "BWV" and those digits, and a stripped title; a folder that does not match keeps its whole name as title, with no BWV and no key |
| Loader.LazyTitleShape | scripts/load.py:117-120 | the title is followed by whitespace, "BWV" and a maximal run of digits |
| Loader.KeyPhraseShape | scripts/load.py:123 | a key phrase match is "in", whitespace, a note letter, and so on to "major" or "minor", in any case |
| Loader.SearchKeyLeftmost | scripts/load.py:123 | the key search finds the leftmost position where `in\s+<key>` matches, and nothing when none does |
| Loader.WorkKeyLeftmost | scripts/load.py:123-124 | the key is absent exactly when no position matches; otherwise it is the group of the leftmost match, from a note letter up to "major" or "minor" |
| Loader.WorkTitleNoKey | scripts/load.py:127 | with no key phrase, the title is the title part, stripped |
| Loader.RemoveFirstKeyPhrase | scripts/load.py:127 | the removal keeps the title part up to the first `\s+in\s+<key>`, drops that phrase, and goes on after it |
| Loader.ParseWorkFolderExample | scripts/load.py:117-127 | "Suite No. 1 in G major BWV1007" gives BWV "BWV1007", title "Suite No. 1" and key "G major" |
| Loader.Filter | scripts/load.py:143 | the kept files are exactly the listed ones that pass the test, each as often as listed |
| Loader.InsertMovements | scripts/load.py:145-151 | the `enumerate(..., start=1)` loop yields one row per file: number i+1, the name without extension, and the path in the work folder |
| Loader.NumberedSortedMovements | scripts/load.py:143-151 | the movements are exactly the score files of the listing, each as often as listed, sorted, numbered from 1, and named by file name without extension |
| Loader.Map | scripts/load.py:108-113 | one result per element, in order |
| Loader.FoldersStep | scripts/load.py:108-111 | one more listing entry adds its record when it is a folder and nothing when it is a file |
| Loader.LoadAll | scripts/load.py:108-151 | the scan of the data folder yields one record per work folder, in listing order, with its instrument, parse and movements |
| SoloLoader.ParseSoloFolder | scripts/load_solo.py:76-83 | the three groups on a match (ParseSoloFolderMatched), else the first token, the whole name and no key (ParseSoloFolderUnmatched) |
| SoloLoader.SeparatorAt | scripts/load_solo.py:76 | `\s+in\s+` ends at least four characters further on |
| SoloLoader.SeparatorShape | scripts/load_solo.py:76 | a separator is whitespace, "in" (case-sensitive) and whitespace again |
| SoloLoader.LineEnd | scripts/load_solo.py:76 | `.*` stops at the first newline or the end of the text |
| SoloLoader.SoloMatch | scripts/load_solo.py:76 | a match's digits, title start, title end and key start come in that order inside the text |
| SoloLoader.SoloMatchShape | scripts/load_solo.py:76-78 | a match is "BWV" and a maximal run of digits, whitespace, a one-line title and a separator |
| SoloLoader.SoloMatchGreedy | scripts/load_solo.py:76-78 | the greedy title ends at the last separator of its line, and no later start of the title works |
| SoloLoader.ParseSoloFolderMatched | scripts/load_solo.py:76-78 | on a match, the BWV is the leading `BWV<digits>`, the title the greedy group, and the key the rest of the line after the separator |
| SoloLoader.ParseSoloFolderUnmatched | scripts/load_solo.py:79-83 | without a match, the title is the whole folder name, there is no key, and the BWV is the text before the first space, or the whole name when it has none |
| SoloLoader.NoBwvNoMatch | scripts/load_solo.py:76 | a folder not starting with "BWV" and a digit does not match |
| SoloLoader.GreedyExample | scripts/load_solo.py:76-78 | "BWV1 A in B in C" gives BWV "BWV1", title "A in B" and key "C" |
| SoloLoader.FirstToken | scripts/load_solo.py:80-81 | the first token is a space-free prefix that ends at the first space or at the end |
| SoloLoader.SoloMovementsAreMidiFiles | scripts/load_solo.py:92-94 | the movements are exactly the `.mid` files (any case) of the listing, each as often as listed, sorted, numbered from 1, and named by file name without extension |
| Sorting.Sort | scripts/load_solo.py:93 | `sorted` of the MIDI names is in ascending string order and holds the same names, each as often as in the listing |
| SoloLoader.LoadInstrument | scripts/load_solo.py:70-99 | the inner scan yields one record per work folder of an instrument folder, in listing order |
| SoloLoader.LoadedSoloStep | scripts/load_solo.py:63-66 | one more entry of the data folder adds its works when it is a folder and nothing when it is a file |
| SoloLoader.InstrumentWorksFrom | scripts/load_solo.py:68-74 | each record of an instrument folder comes from one of its work folders |
| SoloLoader.LoadedSoloFromFolders | scripts/load_solo.py:63-99 | every record comes from a work folder of an instrument folder; its instrument is that folder's name and its path lies under it |
| SoloLoader.LoadAllSolo | scripts/load_solo.py:63-99 | the two nested scans yield the records LoadedSolo describes |

## Left out

- HTTP and HTML crawling is not modelled: requests, BeautifulSoup, zip download and extraction, MIDI-to-MusicXML conversion, `os.makedirs` and existence checks. A link, a zip member name and a MIDI page's movement information are inputs.
- The solo crawler's discovery of instrument pages (`midi_solo_*.html`) is not modelled. The folder joins in the crawlers (`DEST_ROOT`, instrument, BWV) are not modelled either; the chosen folder name and saved name are.
- The PostgreSQL client is not modelled: connection, table creation, `get_instrument_id`, ids, commit. An insert is the record it would insert, and an instrument is named, not numbered.
- music21 internals are inputs: `converter.parse`, `analyze('key')`, `chordify`, `recurse().getElementsByClass`, `Chord.root()`, `pitchedCommonName`, pitch spelling from `getScale()`. A parse or analysis that raises is an input flag, and a `Chord.root()` that raises (music21 raises it for a chord with no pitches) is a chord without a root name, which fails its file.
- Harmony.Distance: pitch classes stand for music21's spelled names, so enharmonic spellings (C# and D-flat) count as equal here and as different in the source.
- Score assembly and writing are not modelled: the cello part, instrument objects, metadata title, tempo mark and the `write` calls. A write that fails is the `writable` flag of a source file.
- The accompaniment's `if harmony_chord:` guard is not a branch of the model: the search always returns a three-note triad, which is truthy.
- Pandas is modelled as row lists: a DataFrame is a sequence of rows, and `df["piece_name"] = ...` tags every row. `pd.concat` of no tables raises, and the model returns a failure then.
- Console output (`print`) is not modelled.
- Windows paths are not modelled: `Paths` follows `posixpath`, where `join` inserts `/` and `basename`, `dirname` and `splitext` split at `/` only. The scripts' own roots are Windows drive paths (scripts/load.py:9, scripts/load_solo.py:10), and on Windows `os.path` is `ntpath`: `join` inserts a backslash and the splitting functions split at both the backslash and `/`. So the paths recorded by `Loader.LoadWork`, `SoloLoader.LoadSoloWork`, `Loader.LoadAll` and `SoloLoader.LoadAllSolo` are joined with `/` where the scripts join with a backslash; `Features.AccompInDir` tags rows with the text after the last `/` of the walk directory, where the scripts take the text after the last separator of either kind; and `Accompaniment.OutputTitle` and `Accompaniment.OutputPaths` split and join the same way. The splitting functions of the two flavours agree on paths without a backslash.
- Unicode is not modelled: `\s`, `\d`, `str.lower`, `str.title` and `str.capitalize` are their ASCII versions.
- Catalog.LeadingNumberMovement: names whose text part holds a dot, or a hyphen followed by a digit, are not covered; there `.replace('.mid', '')` may cut inside the text and the prefixed pattern may match first, and only the examples and the other branch lemmas describe them.
- Catalog.NumberedFallbackMovement: stems holding a dot, or a `-` followed by a digit, are not covered; there `.replace('.mid', '')` may cut inside the stem and the prefixed pattern may match first.
- Catalog.LastResortMovement: stems holding a dot are not covered, for the same reason; stems with a digit are the other three branches' concern.
- Loader.WorkTitleNoKey: the title of a folder whose title part holds a key phrase is described by the first removal (Loader.RemoveFirstKeyPhrase) and by one example, not by a closed form for every removal.
- Loader.SearchKeyLeftmost: the key search's `in` may end inside a word ("Cabin D major" gives the key "D major"), while the removal needs whitespace before `in`; the model follows both patterns as written, so such a key stays in the title.
- `scripts/random_forest.py`, `scripts/neural_network.py`, `main.py` and `scripts/musicxml.py` are not part of this model: model training on floating point, orchestration with fixed paths, and a subprocess launcher.
