/**
 * `load.py`: loading the works of the MusicXML data folder. Each work folder gives one work record
 * (the instrument inferred from the folder name, and the BWV number, title and key parsed from it)
 * and one movement record per score file, numbered in sorted order. The database is not modelled: an
 * insert is the record it would insert, and an instrument is named rather than looked up by id.
 */
module Loader {
  import opened Wrappers
  import opened Strings
  import opened Paths
  import opened Sorting
  import opened Scan

  // ---------------------------------------------------------------- infer_instrument_from_folder

  /** An entry of the folder-to-instrument table: the pattern `<title>.*<bwv>` and its instrument. */
  datatype FolderPattern = FolderPattern(title: string, bwv: string, instrument: string)

  const DefaultInstrument: string := "Cello"

  /** The patterns, in the order the table lists them. */
  const FolderToInstrument: seq<FolderPattern> := [
    FolderPattern("Partita No. 1", "BWV1002", "Violin"),
    FolderPattern("Partita No. 2", "BWV1004", "Violin"),
    FolderPattern("Partita No. 3", "BWV1006", "Violin"),
    FolderPattern("Partita in A minor", "BWV1013", "Flute"),
    FolderPattern("Sonata No. 1", "BWV1001", "Violin"),
    FolderPattern("Sonata No. 2", "BWV1003", "Violin"),
    FolderPattern("Sonata No. 3", "BWV1005", "Violin"),
    FolderPattern("Suite No. 1", "BWV1007", "Cello"),
    FolderPattern("Suite No. 2", "BWV1008", "Cello"),
    FolderPattern("Suite No. 3", "BWV1009", "Cello"),
    FolderPattern("Suite No. 4", "BWV1010", "Cello"),
    FolderPattern("Suite No. 5", "BWV1011", "Cello"),
    FolderPattern("Suite No. 6", "BWV1012", "Cello")
  ]

  /** `.*<word>` at `i`: the word occurs at or after `i` with no newline before it. */
  predicate OccursOnLine(s: string, i: nat, word: string)
    decreases |s| - i
  {
    i + |word| <= |s| && (s[i..i + |word|] == word || (s[i] != '\n' && OccursOnLine(s, i + 1, word)))
  }

  /** `re.match(pattern, folder)` for a table pattern. */
  predicate MatchesPattern(folder: string, pattern: FolderPattern)
  {
    StartsWith(folder, pattern.title) && OccursOnLine(folder, |pattern.title|, pattern.bwv)
  }

  /** The first pattern from `i` on that matches the folder name. */
  function FirstPattern(folder: string, i: nat): (r: Option<nat>)
    requires i <= |FolderToInstrument|
    ensures r.Some? ==> i <= r.value < |FolderToInstrument| && MatchesPattern(folder, FolderToInstrument[r.value])
    ensures r.Some? ==> forall j :: i <= j < r.value ==> !MatchesPattern(folder, FolderToInstrument[j])
    ensures r.None? ==> forall j :: i <= j < |FolderToInstrument| ==> !MatchesPattern(folder, FolderToInstrument[j])
    decreases |FolderToInstrument| - i
  {
    if i == |FolderToInstrument| then None
    else if MatchesPattern(folder, FolderToInstrument[i]) then Some(i)
    else FirstPattern(folder, i + 1)
  }

  /** `infer_instrument_from_folder` */
  function InferInstrument(folder: string): string
  {
    match FirstPattern(folder, 0)
    case Some(j) => FolderToInstrument[j].instrument
    case None => DefaultInstrument
  }

  /**
   * The instrument is that of the first pattern, in table order, that matches at the start of the
   * folder name, and the default when none does; it is always a violin, a flute or a cello.
   */
  lemma InferInstrumentFirstMatch(folder: string)
    ensures forall j | 0 <= j < |FolderToInstrument| && MatchesPattern(folder, FolderToInstrument[j])
                       && (forall k :: 0 <= k < j ==> !MatchesPattern(folder, FolderToInstrument[k])) ::
              InferInstrument(folder) == FolderToInstrument[j].instrument
    ensures (forall j :: 0 <= j < |FolderToInstrument| ==> !MatchesPattern(folder, FolderToInstrument[j]))
      ==> InferInstrument(folder) == DefaultInstrument
    ensures InferInstrument(folder) in {"Violin", "Flute", "Cello"}
  {
    assert forall j :: 0 <= j < |FolderToInstrument| ==> FolderToInstrument[j].instrument in {"Violin", "Flute", "Cello"};
  }

  lemma InferInstrumentExample(folder: string)
    requires folder == "Partita No. 2 in D minor BWV1004"
    ensures InferInstrument(folder) == "Violin"
  {
    ExampleFolderWords(folder);
    assert !MatchesPattern(folder, FolderToInstrument[0]) by {
      assert FolderToInstrument[0].title[12] == '1';
    }
    OccursOnLineAt(folder, 13, 25, "BWV1004");
    assert MatchesPattern(folder, FolderToInstrument[1]);
  }

  lemma ExampleFolderWords(folder: string)
    requires folder == "Partita No. 2 in D minor BWV1004"
    ensures folder[12] == '2' && folder[..13] == "Partita No. 2" && folder[25..32] == "BWV1004"
    ensures forall k :: 13 <= k < 25 ==> folder[k] != '\n'
  {
  }

  lemma {:induction false} OccursOnLineAt(s: string, i: nat, j: nat, word: string)
    requires i <= j && j + |word| <= |s| && s[j..j + |word|] == word
    requires forall k :: i <= k < j ==> s[k] != '\n'
    ensures OccursOnLine(s, i, word)
    decreases j - i
  {
    if i < j {
      OccursOnLineAt(s, i + 1, j, word);
    }
  }

  // ---------------------------------------------------------------- the work folder: bwv, title, key

  /** `\s+BWV(\d+)` at `e`: where the digits start and end. */
  function BwvAfter(s: string, e: nat): (r: Option<(nat, nat)>)
    requires e <= |s|
    ensures r.Some? ==> e + 4 <= r.value.0 < r.value.1 <= |s| && BwvCapitalsAt(s, r.value.0 - 3)
    ensures r.Some? ==> (forall k :: e <= k < r.value.0 - 3 ==> IsSpace(s[k])) && AllDigits(s[r.value.0..r.value.1])
    ensures r.Some? ==> r.value.1 == |s| || !IsDigit(s[r.value.1])
  {
    var w := SpanEnd(s, e, IsSpace);
    if w > e && w + 3 < |s| && BwvCapitalsAt(s, w) && IsDigit(s[w + 3]) then
      Some((w + 3, SpanEnd(s, w + 3, IsDigit)))
    else None
  }

  /** "BWV", in capitals, at `w`. */
  predicate BwvCapitalsAt(s: string, w: nat) { w + 3 <= |s| && s[w] == 'B' && s[w + 1] == 'W' && s[w + 2] == 'V' }

  predicate AllDigits(s: string) { forall k :: 0 <= k < |s| ==> IsDigit(s[k]) }

  /**
   * The lazy title `(.+?)` of `re.match(r"(.+?)\s+BWV(\d+)", folder)`, tried from length `e` up:
   * the end of the shortest one-line title after which the rest matches, and the digits' bounds.
   */
  function LazyTitle(s: string, e: nat): (r: Option<(nat, nat, nat)>)
    requires e >= 1
    ensures r.Some? ==> e <= r.value.0 <= |s| && BwvAfter(s, r.value.0) == Some((r.value.1, r.value.2))
    ensures r.Some? ==> forall k :: e - 1 <= k < r.value.0 ==> s[k] != '\n'
    ensures r.Some? ==> forall x :: e <= x < r.value.0 ==> BwvAfter(s, x).None?
    ensures r.None? ==> forall x :: e <= x <= |s| && (forall k :: e - 1 <= k < x ==> s[k] != '\n') ==> BwvAfter(s, x).None?
    decreases |s| + 1 - e
  {
    if e > |s| || s[e - 1] == '\n' then None
    else match BwvAfter(s, e)
      case Some((a, b)) => Some((e, a, b))
      case None => LazyTitle(s, e + 1)
  }

  /** `(?:major|minor)` after `\s*` from `x`, ignoring case: where the word ends. */
  function ModeWordAt(t: string, x: nat): (r: Option<nat>)
    requires x <= |t|
    ensures r.Some? ==> x + 5 <= r.value <= |t| && ModeWord(t[r.value - 5..r.value])
  {
    var y := SpanEnd(t, x, IsSpace);
    if y + 5 <= |t| && ModeWord(t[y..y + 5]) then Some(y + 5) else None
  }

  /** "major" or "minor", ignoring case. */
  predicate ModeWord(w: string)
  {
    && |w| == 5 && ToLower(w[0]) == 'm' && ToLower(w[3]) == 'o' && ToLower(w[4]) == 'r'
    && ((ToLower(w[1]) == 'a' && ToLower(w[2]) == 'j') || (ToLower(w[1]) == 'i' && ToLower(w[2]) == 'n'))
  }

  /** `[a-z]+` from `x`, tried from the end `e` of the run of letters back to one letter, then the mode word. */
  function LettersThenMode(t: string, x: nat, e: nat): (r: Option<nat>)
    requires x <= e <= |t|
    ensures r.Some? ==> x + 5 < r.value <= |t| && ModeWord(t[r.value - 5..r.value])
    decreases e
  {
    if e <= x then None
    else if ModeWordAt(t, e).Some? then ModeWordAt(t, e)
    else LettersThenMode(t, x, e - 1)
  }

  /** `(?:-?[a-z]+)?\s*(?:major|minor)` from `x`, ignoring case, alternatives in the engine's order. */
  function SuffixAt(t: string, x: nat): (r: Option<nat>)
    requires x <= |t|
    ensures r.Some? ==> x + 5 <= r.value <= |t| && ModeWord(t[r.value - 5..r.value])
  {
    var hyphen := if x < |t| && t[x] == '-' then LettersThenMode(t, x + 1, SpanEnd(t, x + 1, IsLetter)) else None;
    var letters := LettersThenMode(t, x, SpanEnd(t, x, IsLetter));
    if hyphen.Some? then hyphen else if letters.Some? then letters else ModeWordAt(t, x)
  }

  /** A note name `[A-G]`, ignoring case. */
  predicate NoteLetter(c: char) { 'a' <= ToLower(c) <= 'g' }

  /** The key phrase `[A-G][#b]?(?:-?[a-z]+)?\s*(?:major|minor)` at `i`, ignoring case: where it ends. */
  function KeyAt(t: string, i: nat): (r: Option<nat>)
    requires i <= |t|
    ensures r.Some? ==> i + 6 <= r.value <= |t| && NoteLetter(t[i]) && ModeWord(t[r.value - 5..r.value])
  {
    if i >= |t| || !NoteLetter(t[i]) then None
    else
      var accidental := if i + 1 < |t| && (t[i + 1] == '#' || ToLower(t[i + 1]) == 'b') then SuffixAt(t, i + 2) else None;
      if accidental.Some? then accidental else SuffixAt(t, i + 1)
  }

  /** `in\s+` and a key phrase at `p`, ignoring case: the phrase's bounds. */
  function KeyPhraseAt(t: string, p: nat): (r: Option<(nat, nat)>)
    requires p <= |t|
    ensures r.Some? ==> p + 3 <= r.value.0 && r.value.0 + 6 <= r.value.1 <= |t|
  {
    if !(p + 2 <= |t| && ToLower(t[p]) == 'i' && ToLower(t[p + 1]) == 'n') then None
    else
      var q := SpanEnd(t, p + 2, IsSpace);
      if q == p + 2 then None
      else match KeyAt(t, q)
        case None => None
        case Some(e) => Some((q, e))
  }

  /** A key phrase found at `p` is "in", whitespace, a note letter, and so on up to "major" or "minor". */
  lemma KeyPhraseShape(t: string, p: nat)
    requires p <= |t| && KeyPhraseAt(t, p).Some?
    ensures var (q, e) := KeyPhraseAt(t, p).value;
      && InWord(t[p..p + 2]) && (forall k :: p + 2 <= k < q ==> IsSpace(t[k]))
      && NoteLetter(t[q]) && ModeWord(t[e - 5..e])
  {
  }

  /** "in", ignoring case. */
  predicate InWord(w: string) { |w| == 2 && ToLower(w[0]) == 'i' && ToLower(w[1]) == 'n' }

  /** The key pattern's matcher: the phrase's bounds where `in\s+<key>` matches. */
  function KeyMatcher(t: string): nat -> Option<(nat, nat)>
  {
    (x: nat) => if x <= |t| then KeyPhraseAt(t, x) else None
  }

  /**
   * `re.search(r"in\s+(<key>)", t, flags=re.I)`: the leftmost position where the pattern matches,
   * and the bounds of the group there.
   */
  function SearchKey(t: string): Option<(nat, (nat, nat))>
  {
    Leftmost(KeyMatcher(t), 0, |t|)
  }

  /** `\s+in\s+<key>` at `p`, ignoring case: where the match ends. */
  function InKeyAt(t: string, p: nat): (r: Option<nat>)
    requires p <= |t|
    ensures r.Some? ==> p < r.value <= |t|
  {
    var w := SpanEnd(t, p, IsSpace);
    if w == p then None
    else match KeyPhraseAt(t, w)
      case None => None
      case Some((_, e)) => Some(e)
  }

  /** The removal pattern's matcher: where `\s+in\s+<key>` ends. */
  function RemoveMatcher(t: string): nat -> Option<nat>
  {
    (x: nat) => if x <= |t| then InKeyAt(t, x) else None
  }

  /** `re.sub(r"\s+in\s+<key>", "", t, flags=re.I)` */
  function RemoveKeyPhrases(t: string): string
  {
    Sub(t, RemoveMatcher(t), 0)
  }

  /** A work as `load.py` records it. */
  datatype Work = Work(bwv: Option<string>, title: string, key: Option<string>)

  /** The title of a work: its title part with the key phrases removed, stripped. */
  function WorkTitle(t: string): string
  {
    Strip(RemoveKeyPhrases(t))
  }

  /** The key of a work: the key phrase the search finds in the title part, if any. */
  function WorkKey(t: string): Option<string>
  {
    var found := SearchKey(t);
    if found.None? then None
    else Some(t[found.value.1.0..found.value.1.1])
  }

  /** The folder parse of `load.py`. */
  function ParseWorkFolder(folder: string): Work
  {
    var found := LazyTitle(folder, 1);
    if found.None? then Work(None, folder, None)
    else
      var (e, a, b) := found.value;
      Work(Some("BWV" + folder[a..b]), WorkTitle(folder[..e]), WorkKey(folder[..e]))
  }

  /**
   * A folder that matches `<title> BWV<digits>` gets "BWV" and those digits, the shortest such title
   * being taken; a folder that does not match keeps its whole name as the title, with no BWV and no key.
   */
  lemma ParseWorkFolderBwv(folder: string)
    ensures var w := ParseWorkFolder(folder);
      && (w.bwv.None? <==> LazyTitle(folder, 1).None?)
      && (w.bwv.None? ==> w.title == folder && w.key.None?)
      && (w.bwv.Some? ==>
            var (e, a, b) := LazyTitle(folder, 1).value;
            && 0 < e < a - 3 && a < b <= |folder| && BwvCapitalsAt(folder, a - 3) && AllDigits(folder[a..b])
            && (b == |folder| || !IsDigit(folder[b])) && w.bwv == Some("BWV" + folder[a..b])
            && Stripped(w.title))
  {
    if LazyTitle(folder, 1).Some? {
      LazyTitleShape(folder);
    }
  }

  /** The lazy title is followed by whitespace, "BWV" and a maximal run of digits. */
  lemma LazyTitleShape(folder: string)
    requires LazyTitle(folder, 1).Some?
    ensures var (e, a, b) := LazyTitle(folder, 1).value;
      && 0 < e < a - 3 && a < b <= |folder| && BwvCapitalsAt(folder, a - 3) && AllDigits(folder[a..b])
      && (b == |folder| || !IsDigit(folder[b]))
  {
  }

  /** The search finds the leftmost position of the title part where a key phrase matches. */
  lemma SearchKeyLeftmost(t: string)
    ensures SearchKey(t).None? ==> forall x :: 0 <= x <= |t| ==> KeyPhraseAt(t, x).None?
    ensures SearchKey(t).Some? ==>
      var (x, (q, k)) := SearchKey(t).value;
      && x <= |t| && KeyPhraseAt(t, x) == Some((q, k))
      && forall y :: 0 <= y < x ==> KeyPhraseAt(t, y).None?
  {
    forall x | 0 <= x <= |t| ensures KeyMatcher(t)(x) == KeyPhraseAt(t, x) {
    }
  }

  /**
   * The key, when there is one, is the phrase after the leftmost "in" and whitespace of the title part
   * that is followed by a key phrase: from a note letter to "major" or "minor".
   */
  lemma WorkKeyLeftmost(t: string)
    ensures WorkKey(t).None? ==> forall x :: 0 <= x <= |t| ==> KeyPhraseAt(t, x).None?
    ensures WorkKey(t).Some? ==>
      var (x, (q, k)) := SearchKey(t).value;
      && (forall y :: 0 <= y < x ==> KeyPhraseAt(t, y).None?)
      && WorkKey(t).value == t[q..k] && k - q >= 6
      && InWord(t[x..x + 2]) && (forall j :: x + 2 <= j < q ==> IsSpace(t[j])) && x + 2 < q
      && NoteLetter(t[q]) && ModeWord(t[k - 5..k])
  {
    SearchKeyLeftmost(t);
    if SearchKey(t).Some? {
      KeyPhraseShape(t, SearchKey(t).value.0);
    }
  }

  /** With no key phrase in the title part there is nothing to remove: the title is the part, stripped. */
  lemma WorkTitleNoKey(t: string)
    requires WorkKey(t).None?
    ensures WorkTitle(t) == Strip(t)
  {
    SearchKeyLeftmost(t);
    forall x | 0 <= x < |t| ensures RemoveMatcher(t)(x).None? {
      assert KeyPhraseAt(t, SpanEnd(t, x, IsSpace)).None?;
    }
    SubNothing(t, RemoveMatcher(t));
  }

  /**
   * The removal keeps the title part up to the first `\s+in\s+<key>`, drops that phrase, which is
   * whitespace, "in", whitespace and a key phrase, and goes on after it.
   */
  lemma RemoveFirstKeyPhrase(t: string, p: nat)
    requires p <= |t| && InKeyAt(t, p).Some?
    requires forall x :: 0 <= x < p ==> InKeyAt(t, x).None?
    ensures var w := SpanEnd(t, p, IsSpace);
      && p < w && KeyPhraseAt(t, w).Some?
      && RemoveKeyPhrases(t) == t[..p] + Sub(t, RemoveMatcher(t), KeyPhraseAt(t, w).value.1)
  {
    var m := RemoveMatcher(t);
    forall x | 0 <= x < p ensures m(x).None? {
    }
    assert m(p) == InKeyAt(t, p);
    SubFirst(t, m, 0, p);
  }

  /** After a non-space, or after one space and a character other than 'B', there is no `\s+BWV`. */
  lemma NoBwvAfter(s: string, x: nat)
    requires x + 1 < |s| && (!IsSpace(s[x]) || (!IsSpace(s[x + 1]) && s[x + 1] != 'B'))
    ensures BwvAfter(s, x).None?
  {
    if IsSpace(s[x]) {
      SpanEndExact(s, x, IsSpace, x + 1);
    } else {
      SpanEndExact(s, x, IsSpace, x);
    }
  }

  lemma NoBwvBetween(s: string, lo: nat, hi: nat)
    requires hi < |s| && forall x :: lo <= x < hi ==> !IsSpace(s[x]) || (!IsSpace(s[x + 1]) && s[x + 1] != 'B')
    ensures forall x :: lo <= x < hi ==> BwvAfter(s, x).None?
  {
    forall x | lo <= x < hi ensures BwvAfter(s, x).None? {
      NoBwvAfter(s, x);
    }
  }

  /** No "in" at `y`, so no key phrase there. */
  lemma NoKeyPhraseAt(t: string, y: nat)
    requires y + 1 < |t| && ((t[y] != 'i' && t[y] != 'I') || (t[y + 1] != 'n' && t[y + 1] != 'N'))
    ensures KeyPhraseAt(t, y).None?
  {
  }

  lemma NoKeyPhraseBetween(t: string, lo: nat, hi: nat)
    requires hi < |t| && forall y :: lo <= y < hi ==> (t[y] != 'i' && t[y] != 'I') || (t[y + 1] != 'n' && t[y + 1] != 'N')
    ensures forall y :: lo <= y < hi ==> KeyMatcher(t)(y).None?
  {
    forall y | lo <= y < hi ensures KeyMatcher(t)(y).None? {
      NoKeyPhraseAt(t, y);
    }
  }

  /** After a non-space, or after one space and a character other than 'i' or 'I', there is no `\s+in`. */
  lemma NoInKeyAt(t: string, x: nat)
    requires x + 2 < |t| && (!IsSpace(t[x]) || (!IsSpace(t[x + 1]) && t[x + 1] != 'i' && t[x + 1] != 'I'))
    ensures InKeyAt(t, x).None?
  {
    if IsSpace(t[x]) {
      SpanEndExact(t, x, IsSpace, x + 1);
      NoKeyPhraseAt(t, x + 1);
    } else {
      SpanEndExact(t, x, IsSpace, x);
    }
  }

  lemma NoInKeyBetween(t: string, lo: nat, hi: nat)
    requires hi + 1 < |t|
    requires forall x :: lo <= x < hi ==> !IsSpace(t[x]) || (!IsSpace(t[x + 1]) && t[x + 1] != 'i' && t[x + 1] != 'I')
    ensures forall x :: lo <= x < hi ==> RemoveMatcher(t)(x).None?
  {
    forall x | lo <= x < hi ensures RemoveMatcher(t)(x).None? {
      NoInKeyAt(t, x);
    }
  }

  /** "Suite No. 1 in G major BWV1007": BWV1007, the title "Suite No. 1" and the key "G major". */
  lemma ParseWorkFolderExample(folder: string)
    requires folder == "Suite No. 1 in G major BWV1007"
    ensures ParseWorkFolder(folder) == Work(Some("BWV1007"), "Suite No. 1", Some("G major"))
  {
    ExampleLazyTitle(folder);
    ParseMatched(folder, 22, 26, 30);
    ExampleFolderParts(folder);
    TitleExample(folder[..22]);
  }

  lemma ExampleFolderParts(folder: string)
    requires folder == "Suite No. 1 in G major BWV1007"
    ensures "BWV" + folder[26..30] == "BWV1007" && folder[..22] == "Suite No. 1 in G major"
  {
    assert folder[26..30] == "1007";
  }

  lemma ParseMatched(folder: string, e: nat, a: nat, b: nat)
    requires LazyTitle(folder, 1) == Some((e, a, b))
    ensures e <= |folder| && a <= b <= |folder|
    ensures ParseWorkFolder(folder) == Work(Some("BWV" + folder[a..b]), WorkTitle(folder[..e]), WorkKey(folder[..e]))
  {
  }

  lemma ExampleLazyTitle(folder: string)
    requires folder == "Suite No. 1 in G major BWV1007"
    ensures LazyTitle(folder, 1) == Some((22, 26, 30))
  {
    ExampleFolderChars(folder);
    SpanEndExact(folder, 22, IsSpace, 23);
    SpanEndExact(folder, 26, IsDigit, 30);
    assert BwvAfter(folder, 22) == Some((26, 30));
    NoBwvBetween(folder, 1, 22);
    LazyTitleExact(folder, 1, 22);
  }

  lemma ExampleFolderChars(folder: string)
    requires folder == "Suite No. 1 in G major BWV1007"
    ensures forall x :: 1 <= x < 22 ==> !IsSpace(folder[x]) || (!IsSpace(folder[x + 1]) && folder[x + 1] != 'B')
    ensures forall k :: 0 <= k < 22 ==> folder[k] != '\n'
  {
  }

  lemma TitleExample(t: string)
    requires t == "Suite No. 1 in G major"
    ensures WorkKey(t) == Some("G major") && WorkTitle(t) == "Suite No. 1"
  {
    TitleExampleKeyAt(t);
    TitleExampleKey(t);
    TitleExampleRemoved(t);
    TitleChars(t);
    StripStripped(t[..11]);
  }

  lemma {:induction false} LazyTitleExact(s: string, e0: nat, e: nat)
    requires 1 <= e0 <= e <= |s| && BwvAfter(s, e).Some?
    requires forall x :: e0 <= x < e ==> BwvAfter(s, x).None?
    requires forall k :: e0 - 1 <= k < e ==> s[k] != '\n'
    ensures LazyTitle(s, e0) == Some((e, BwvAfter(s, e).value.0, BwvAfter(s, e).value.1))
    decreases e - e0
  {
    if e0 < e {
      LazyTitleExact(s, e0 + 1, e);
    }
  }

  lemma TitleExampleKeyAt(t: string)
    requires t == "Suite No. 1 in G major"
    ensures KeyPhraseAt(t, 12) == Some((15, 22))
  {
    SpanEndExact(t, 14, IsSpace, 15);
    SpanEndExact(t, 16, IsLetter, 16);
    SpanEndExact(t, 16, IsSpace, 17);
    assert t[17..22] == "major";
    assert ModeWordAt(t, 16) == Some(22);
    assert SuffixAt(t, 16) == Some(22);
  }

  lemma TitleChars(t: string)
    requires t == "Suite No. 1 in G major"
    ensures forall y :: 0 <= y < 12 ==> (t[y] != 'i' && t[y] != 'I') || (t[y + 1] != 'n' && t[y + 1] != 'N')
    ensures forall x :: 0 <= x < 11 ==> !IsSpace(t[x]) || (!IsSpace(t[x + 1]) && t[x + 1] != 'i' && t[x + 1] != 'I')
    ensures IsSpace(t[11]) && !IsSpace(t[12]) && t[15..22] == "G major" && t[..11] == "Suite No. 1"
  {
  }

  lemma TitleExampleKey(t: string)
    requires t == "Suite No. 1 in G major" && KeyPhraseAt(t, 12) == Some((15, 22))
    ensures WorkKey(t) == Some("G major")
  {
    TitleChars(t);
    NoKeyPhraseBetween(t, 0, 12);
    LeftmostExact(KeyMatcher(t), 0, |t|, 12);
  }

  lemma TitleExampleRemoved(t: string)
    requires t == "Suite No. 1 in G major" && KeyPhraseAt(t, 12) == Some((15, 22))
    ensures RemoveKeyPhrases(t) == t[..11]
  {
    TitleChars(t);
    NoInKeyBetween(t, 0, 11);
    SubKeeps(t, RemoveMatcher(t), 0, 11);
    SpanEndExact(t, 11, IsSpace, 12);
    assert RemoveMatcher(t)(11) == Some(22);
    assert t[0..11] == t[..11];
  }

  // ---------------------------------------------------------------- movements

  /** The files a listing keeps, in listing order: `[f for f in listing if keep(f)]`. */
  function Filter<T(==, !new)>(listing: seq<T>, keep: T -> bool): (r: seq<T>)
    ensures forall x :: multiset(r)[x] == if keep(x) then multiset(listing)[x] else 0
  {
    if listing == [] then []
    else
      var init := listing[..|listing| - 1];
      assert listing == init + [listing[|listing| - 1]];
      Filter(init, keep) + (if keep(listing[|listing| - 1]) then [listing[|listing| - 1]] else [])
  }

  /** `f.lower().endswith((".xml", ".musicxml", ".mxl"))` */
  predicate IsScoreFile(name: string)
  {
    EndsWith(Lower(name), ".xml") || EndsWith(Lower(name), ".musicxml") || EndsWith(Lower(name), ".mxl")
  }

  /** A movement as it is inserted: its number, its name and the path of its file. */
  datatype MovementRow = MovementRow(number: nat, name: string, path: string)

  /** The movements of the files of a work folder, numbered from 1 in the order given. */
  function Numbered(workPath: string, files: seq<string>): seq<MovementRow>
  {
    seq(|files|, i requires 0 <= i < |files| => MovementRow(i + 1, Stem(files[i]), Join(workPath, files[i])))
  }

  /** The `enumerate(files, start=1)` loop that inserts one movement per file. */
  method InsertMovements(workPath: string, files: seq<string>) returns (rows: seq<MovementRow>)
    ensures rows == Numbered(workPath, files)
  {
    rows := [];
    var idx := 0;
    while idx < |files|
      invariant 0 <= idx <= |files|
      invariant |rows| == idx
      invariant forall i :: 0 <= i < idx ==> rows[i] == MovementRow(i + 1, Stem(files[i]), Join(workPath, files[i]))
    {
      rows := rows + [MovementRow(idx + 1, Stem(files[idx]), Join(workPath, files[idx]))];
      idx := idx + 1;
    }
  }

  /** The movements `load.py` inserts for a work folder with the given listing. */
  function ScoreMovements(workPath: string, listing: seq<string>): seq<MovementRow>
  {
    Numbered(workPath, Sort(Filter(listing, IsScoreFile)))
  }

  /**
   * The movements are exactly the score files of the listing, each as often as it is listed, in
   * sorted order, numbered 1, 2, ... ; each is named by its file name without the extension.
   */
  lemma NumberedSortedMovements(workPath: string, listing: seq<string>, keep: string -> bool)
    ensures var files := Sort(Filter(listing, keep));
      var rows := Numbered(workPath, files);
      && |rows| == |files|
      && Sorted(files)
      && (forall x :: multiset(files)[x] == if keep(x) then multiset(listing)[x] else 0)
      && (forall i :: 0 <= i < |rows| ==> rows[i].number == i + 1 && rows[i].path == Join(workPath, files[i]))
      && (forall i :: 0 <= i < |rows| ==> rows[i].name + Ext(files[i]) == files[i])
  {
    var files := Sort(Filter(listing, keep));
    forall i | 0 <= i < |files| ensures Stem(files[i]) + Ext(files[i]) == files[i] {
      SplitExtParts(files[i]);
    }
  }

  // ---------------------------------------------------------------- the scan of the data folder

  /** An entry of a folder listing: its name, whether it is a folder, and the names inside it. */
  datatype Entry = Entry(name: string, isDir: bool, listing: seq<string>)

  /** A work record as inserted, with its instrument by name, and the work's movements. */
  datatype LoadedWork = LoadedWork(instrument: string, work: Work, folderPath: string, movements: seq<MovementRow>)

  /** What `load.py` records for one work folder. */
  function LoadWork(baseDir: string, entry: Entry): LoadedWork
  {
    var path := Join(baseDir, entry.name);
    LoadedWork(InferInstrument(entry.name), ParseWorkFolder(entry.name), path, ScoreMovements(path, entry.listing))
  }

  /** The folders of a listing, in listing order: what `os.path.isdir` lets through. */
  function Folders(entries: seq<Entry>): seq<Entry>
  {
    Filter(entries, (e: Entry) => e.isDir)
  }

  /** `[f(x) for x in s]` */
  function Map<A, B>(s: seq<A>, f: A -> B): (r: seq<B>)
    ensures |r| == |s| && forall i :: 0 <= i < |s| ==> r[i] == f(s[i])
  {
    if s == [] then [] else Map(s[..|s| - 1], f) + [f(s[|s| - 1])]
  }

  lemma MapSnoc<A, B>(s: seq<A>, x: A, f: A -> B)
    ensures Map(s + [x], f) == Map(s, f) + [f(x)]
  {
    assert (s + [x])[..|s|] == s;
  }

  /** The records for the folders of a listing, one per folder, in listing order. */
  function LoadedWorks(baseDir: string, entries: seq<Entry>): seq<LoadedWork>
  {
    Map(Folders(entries), (e: Entry) => LoadWork(baseDir, e))
  }

  /** The scan of the data folder: one work, with its movements, per folder, plain files skipped. */
  method LoadAll(baseDir: string, entries: seq<Entry>) returns (works: seq<LoadedWork>)
    ensures works == LoadedWorks(baseDir, entries)
  {
    works := [];
    var i := 0;
    while i < |entries|
      invariant 0 <= i <= |entries|
      invariant works == LoadedWorks(baseDir, entries[..i])
    {
      FoldersStep(entries, i, (e: Entry) => LoadWork(baseDir, e));
      if entries[i].isDir {
        var path := Join(baseDir, entries[i].name);
        var files := Sort(Filter(entries[i].listing, IsScoreFile));
        var movements := InsertMovements(path, files);
        works := works + [LoadedWork(InferInstrument(entries[i].name), ParseWorkFolder(entries[i].name), path, movements)];
      }
      i := i + 1;
    }
    assert entries[..|entries|] == entries;
  }

  /** One more listing entry adds its record when it is a folder and nothing when it is a file. */
  lemma FoldersStep<B>(entries: seq<Entry>, i: nat, f: Entry -> B)
    requires i < |entries|
    ensures Map(Folders(entries[..i + 1]), f) == Map(Folders(entries[..i]), f) + (if entries[i].isDir then [f(entries[i])] else [])
  {
    assert entries[..i + 1][..i] == entries[..i];
    var f0 := Folders(entries[..i]);
    if entries[i].isDir {
      assert Folders(entries[..i + 1]) == f0 + [entries[i]];
      MapSnoc(f0, entries[i], f);
    } else {
      assert Folders(entries[..i + 1]) == f0;
    }
  }
}
