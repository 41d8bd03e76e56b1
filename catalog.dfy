/**
 * Naming and classification of downloaded pieces (scripts/extract.py): file-system-friendly names,
 * BWV catalogue numbers, work titles and movement names, and the `.xml` file name each movement gets.
 * Each regular expression of the source is an explicit scanner over the string; `\s`, `\d`, letters
 * and case are those of ASCII.
 */
module Catalog {
  import opened Wrappers
  import opened Strings

  // ---------------------------------------------------------------------------
  // clean_name

  /** The characters `[A-Za-z0-9_\-#. ]` that `clean_name` keeps. */
  predicate CleanChar(c: char)
  {
    IsLetter(c) || IsDigit(c) || c == '_' || c == '-' || c == '#' || c == '.' || c == ' '
  }

  /** `re.sub(r'[^A-Za-z0-9_\-#. ]+', '', s)` */
  function KeepCleanChars(s: string): (r: string)
    ensures |r| <= |s|
    ensures forall i :: 0 <= i < |r| ==> CleanChar(r[i])
  {
    if s == [] then []
    else KeepCleanChars(s[..|s| - 1]) + (if CleanChar(s[|s| - 1]) then [s[|s| - 1]] else [])
  }

  lemma {:induction false} KeepCleanCharsKeepsClean(s: string)
    requires forall i :: 0 <= i < |s| ==> CleanChar(s[i])
    ensures KeepCleanChars(s) == s
  {
    if s != [] {
      KeepCleanCharsKeepsClean(s[..|s| - 1]);
    }
  }

  lemma StripInside(s: string)
    ensures |Strip(s)| <= |s|
    ensures forall i :: 0 <= i < |Strip(s)| ==> Strip(s)[i] in s
  {
    var a := SpanEnd(s, 0, IsSpace);
    var b := SpanStart(s, a, |s|, IsSpace);
    assert forall i :: 0 <= i < b - a ==> Strip(s)[i] == s[a + i];
  }

  /** `clean_name`: slashes become underscores, other disallowed characters go, then the ends are stripped. */
  function CleanName(text: string): (r: string)
  {
    Strip(KeepCleanChars(ReplaceChar(text, '/', '_')))
  }

  /** A clean name holds only kept characters, has no slash, and starts and ends with a non-space. */
  lemma CleanNameClean(text: string)
    ensures forall i :: 0 <= i < |CleanName(text)| ==> CleanChar(CleanName(text)[i]) && CleanName(text)[i] != '/'
    ensures Stripped(CleanName(text))
  {
    StripInside(KeepCleanChars(ReplaceChar(text, '/', '_')));
  }

  /** Cleaning a clean name changes nothing. */
  lemma CleanNameIdempotent(text: string)
    ensures CleanName(CleanName(text)) == CleanName(text)
  {
    var c := CleanName(text);
    CleanNameClean(text);
    assert ReplaceChar(c, '/', '_') == c;
    KeepCleanCharsKeepsClean(c);
    StripStripped(c);
  }

  /** The code keeps the slash as an underscore; the docstring's first example, which drops it, is stale. */
  lemma CleanNameExamples()
    ensures CleanName("Menuet I/II") == "Menuet I_II"
    ensures CleanName("Suite No. 1 / BWV 1007") == "Suite No. 1 _ BWV 1007"
  {
    CleanNameSlash("Menuet I/II", "Menuet I_II");
    CleanNameSlash("Suite No. 1 / BWV 1007", "Suite No. 1 _ BWV 1007");
  }

  /** A name whose slashes, once replaced, leave clean characters with no space at either end. */
  lemma CleanNameSlash(text: string, r: string)
    requires r == ReplaceChar(text, '/', '_')
    requires Stripped(r) && forall i :: 0 <= i < |r| ==> CleanChar(r[i])
    ensures CleanName(text) == r
  {
    KeepCleanCharsKeepsClean(r);
    StripStripped(r);
  }

  // ---------------------------------------------------------------------------
  // extract_bwv_from_filename

  /** `BWV_MAPPINGS`, in the dictionary's order: file-name prefix, catalogue number, work title. */
  const BwvMappings: seq<(string, (string, string))> := [
    ("cs1", ("BWV1007", "Suite No. 1 in G major")),
    ("cs2", ("BWV1008", "Suite No. 2 in D minor")),
    ("cs3", ("BWV1009", "Suite No. 3 in C major")),
    ("cs4", ("BWV1010", "Suite No. 4 in E-flat major")),
    ("cs5", ("BWV1011", "Suite No. 5 in C minor")),
    ("cs6", ("BWV1012", "Suite No. 6 in D major")),
    ("vs1", ("BWV1001", "Sonata No. 1 in G minor")),
    ("vp1", ("BWV1002", "Partita No. 1 in B minor")),
    ("vs2", ("BWV1003", "Sonata No. 2 in A minor")),
    ("vp2", ("BWV1004", "Partita No. 2 in D minor")),
    ("vs3", ("BWV1005", "Sonata No. 3 in C major")),
    ("vp3", ("BWV1006", "Partita No. 3 in E major")),
    ("fp", ("BWV1013", "Partita in A minor"))
  ]

  /** The entry of the first prefix in `table[i..]` that starts `name`. */
  function FirstPrefixEntry(table: seq<(string, (string, string))>, i: nat, name: string): (r: Option<(string, string)>)
    requires i <= |table|
    ensures r.Some? <==> exists j :: i <= j < |table| && StartsWith(name, table[j].0)
    ensures r.Some? ==> exists j :: i <= j < |table| && StartsWith(name, table[j].0) && r.value == table[j].1
                          && forall m :: i <= m < j ==> !StartsWith(name, table[m].0)
    decreases |table| - i
  {
    if i == |table| then None
    else if StartsWith(name, table[i].0) then Some(table[i].1)
    else FirstPrefixEntry(table, i + 1, name)
  }

  /** `extract_bwv_from_filename`: the entry of the first table prefix of the lower-cased name, if any. */
  function ExtractBwvFromFilename(filename: string): Option<(string, string)>
  {
    FirstPrefixEntry(BwvMappings, 0, Lower(filename))
  }

  lemma ExtractBwvFromFilenameExample()
    ensures ExtractBwvFromFilename("cs1-1pre.mid") == Some(("BWV1007", "Suite No. 1 in G major"))
    ensures ExtractBwvFromFilename("CS1-1PRE.MID") == Some(("BWV1007", "Suite No. 1 in G major"))
  {
    assert Lower("cs1-1pre.mid")[..3] == "cs1";
    assert Lower("CS1-1PRE.MID")[..3] == "cs1";
  }

  /** No prefix of the table starts another, so at most one entry ever applies and the table's order is immaterial. */
  lemma BwvMappingsPrefixFree(i: nat, j: nat, name: string)
    requires i < |BwvMappings| && j < |BwvMappings|
    requires StartsWith(name, BwvMappings[i].0) && StartsWith(name, BwvMappings[j].0)
    ensures i == j
  {
    var a := BwvMappings[i].0;
    var b := BwvMappings[j].0;
    assert name[..|a|] == a && name[..|b|] == b;
    assert a[0] == name[0] == b[0] && a[1] == name[1] == b[1];
    if |a| == 3 && |b| == 3 {
      assert a[2] == name[2] == b[2];
    }
  }

  // ---------------------------------------------------------------------------
  // extract_bwv: r'BWV\s*(\d{3,4}[a-zA-Z]?)', case-insensitive, leftmost match

  /** "BWV" in any case at position k. */
  predicate BwvWordAt(text: string, k: nat)
  {
    k + 3 <= |text| && Lower(text[k..k + 3]) == "bwv"
  }

  /** The captured group of a match at `k`: three or four digits after optional whitespace, and a letter if one follows. */
  function BwvGroupAt(text: string, k: nat): Option<string>
  {
    if !BwvWordAt(text, k) then None
    else
      var d := SpanEnd(text, k + 3, IsSpace);
      var e := SpanEnd(text, d, IsDigit);
      if e - d < 3 then None
      else
        var stop := if e - d > 4 then d + 4 else e;
        if stop < |text| && IsLetter(text[stop]) then Some(text[d..stop + 1]) else Some(text[d..stop])
  }

  /** The group of the leftmost match at or after `k`. */
  function SearchBwvGroup(text: string, k: nat): (r: Option<string>)
    ensures r.Some? <==> exists j :: k <= j < |text| && BwvGroupAt(text, j).Some?
    ensures r.Some? ==> exists j :: k <= j < |text| && r == BwvGroupAt(text, j)
                          && forall m :: k <= m < j ==> BwvGroupAt(text, m).None?
    decreases |text| - k
  {
    if k >= |text| then None
    else if BwvGroupAt(text, k).Some? then BwvGroupAt(text, k)
    else SearchBwvGroup(text, k + 1)
  }

  /** `extract_bwv` */
  function ExtractBwv(text: string): Option<string>
  {
    var g := SearchBwvGroup(text, 0);
    if g.Some? then Some("BWV" + g.value) else None
  }

  /** A catalogue number: "BWV", three or four digits, and at most one letter. */
  predicate BwvNumber(s: string)
  {
    && |s| >= 3 && s[..3] == "BWV"
    && var n := SpanEnd(s, 3, IsDigit);
       6 <= n <= 7 && n <= |s| <= n + 1 && (|s| == n + 1 ==> IsLetter(s[n]))
  }

  /** The pattern matches at `k`: "BWV" in any case, then optional whitespace, then at least three digits. */
  predicate BwvMatchAt(text: string, k: nat)
  {
    BwvWordAt(text, k) && SpanEnd(text, SpanEnd(text, k + 3, IsSpace), IsDigit) - SpanEnd(text, k + 3, IsSpace) >= 3
  }

  lemma BwvGroupAtMeaning(text: string, k: nat)
    ensures BwvGroupAt(text, k).Some? <==> BwvMatchAt(text, k)
    ensures BwvGroupAt(text, k).Some? ==> BwvNumber("BWV" + BwvGroupAt(text, k).value)
  {
    if BwvGroupAt(text, k).Some? {
      var d := SpanEnd(text, k + 3, IsSpace);
      var e := SpanEnd(text, d, IsDigit);
      var stop := if e - d > 4 then d + 4 else e;
      var r := "BWV" + BwvGroupAt(text, k).value;
      assert forall i :: 3 <= i < 3 + (stop - d) ==> r[i] == text[d + i - 3];
      var n := 3 + (stop - d);
      assert 6 <= n <= 7 && r[..3] == "BWV";
      assert n <= |r| <= n + 1;
      assert forall i :: 3 <= i < n ==> IsDigit(r[i]);
      assert |r| == n + 1 ==> IsLetter(r[n]);
      SpanEndExact(r, 3, IsDigit, n);
    }
  }

  /**
   * `extract_bwv` finds a number exactly when the pattern matches somewhere; what it returns is "BWV",
   * at most four of the digits, and a letter right after them, taken from the leftmost match.
   */
  lemma ExtractBwvMeaning(text: string)
    ensures ExtractBwv(text).Some? <==> exists k :: 0 <= k < |text| && BwvMatchAt(text, k)
    ensures ExtractBwv(text).Some? ==> BwvNumber(ExtractBwv(text).value)
  {
    if exists k :: 0 <= k < |text| && BwvMatchAt(text, k) {
      var k :| 0 <= k < |text| && BwvMatchAt(text, k);
      BwvGroupAtMeaning(text, k);
    }
    var g := SearchBwvGroup(text, 0);
    if g.Some? {
      var k :| 0 <= k < |text| && g == BwvGroupAt(text, k) && forall m :: 0 <= m < k ==> BwvGroupAt(text, m).None?;
      BwvGroupAtMeaning(text, k);
    }
  }

  /** "BWV" can only start at a 'b' or a 'B'. */
  lemma NoBwvWordWithoutB(text: string, k: nat)
    requires k < |text| && text[k] != 'b' && text[k] != 'B'
    ensures !BwvWordAt(text, k)
  {
    if k + 3 <= |text| {
      assert Lower(text[k..k + 3])[0] == ToLower(text[k]);
    }
  }

  lemma ExtractBwvExample()
    ensures ExtractBwv("Partita No. 2 BWV 1004") == Some("BWV1004")
  {
    var t := "Partita No. 2 BWV 1004";
    BwvExampleGroup(t);
    BwvExampleNoEarlier(t);
    SearchFromFirst(t, 14);
  }

  lemma BwvExampleNoEarlier(t: string)
    requires t == "Partita No. 2 BWV 1004"
    ensures forall m :: 0 <= m < 14 ==> !BwvWordAt(t, m)
  {
    forall m | 0 <= m < 14
      ensures !BwvWordAt(t, m)
    {
      NoBwvWordWithoutB(t, m);
    }
  }

  lemma BwvExampleGroup(t: string)
    requires t == "Partita No. 2 BWV 1004"
    ensures BwvGroupAt(t, 14) == Some("1004") && "BWV" + "1004" == "BWV1004"
  {
    assert BwvWordAt(t, 14) by {
      assert t[14..17] == "BWV";
      assert Lower("BWV") == "bwv";
    }
    assert SpanEnd(t, 17, IsSpace) == 18;
    assert SpanEnd(t, 18, IsDigit) == 22;
    assert t[18..22] == "1004";
  }

  lemma ExtractBwvKeepsLetter()
    ensures ExtractBwv("bwv1007a") == Some("BWV1007a")
  {
    var u := "bwv1007a";
    BwvLetterGroup(u);
    assert SearchBwvGroup(u, 0) == Some("1007a");
  }

  lemma BwvLetterGroup(u: string)
    requires u == "bwv1007a"
    ensures BwvGroupAt(u, 0) == Some("1007a") && "BWV" + "1007a" == "BWV1007a"
  {
    assert BwvWordAt(u, 0) by {
      assert u[0..3] == "bwv";
      assert Lower("bwv") == "bwv";
    }
    assert SpanEnd(u, 3, IsSpace) == 3;
    SpanEndExact(u, 3, IsDigit, 7);
    assert u[3..8] == "1007a";
  }

  /** When no position before `k` matches and `k` does, the search reports `k`'s match. */
  lemma {:induction false} SearchFromFirst(text: string, k: nat)
    requires k < |text| && BwvGroupAt(text, k).Some?
    requires forall m :: 0 <= m < k ==> !BwvWordAt(text, m)
    ensures SearchBwvGroup(text, 0) == BwvGroupAt(text, k)
  {
    var r := SearchBwvGroup(text, 0);
    var j :| 0 <= j < |text| && r == BwvGroupAt(text, j) && forall m :: 0 <= m < j ==> BwvGroupAt(text, m).None?;
  }

  // ---------------------------------------------------------------------------
  // extract_work_title: r'(.+?)\s*BWV', case-insensitive, leftmost match

  /** The lazy group may end at `e` when "BWV" follows after optional whitespace. */
  predicate TitleEndsAt(text: string, e: nat)
    requires e <= |text|
  {
    BwvWordAt(text, SpanEnd(text, e, IsSpace))
  }

  /** No newline among the characters `text[e - 1..m]` that `.+?` would consume to end at `m`. */
  predicate OnOneLine(text: string, e: nat, m: nat)
    requires 1 <= e && m <= |text|
  {
    forall q :: e - 1 <= q < m ==> text[q] != '\n'
  }

  /** The shortest extension of the lazy `.+?` that is followed by "BWV"; `.` stops at a newline. */
  function LazyTitleEnd(text: string, e: nat): (r: Option<nat>)
    requires 1 <= e <= |text|
    ensures r.Some? ==> e <= r.value <= |text| && TitleEndsAt(text, r.value) && OnOneLine(text, e, r.value)
    decreases |text| - e
  {
    if text[e - 1] == '\n' then None
    else if TitleEndsAt(text, e) then Some(e)
    else if e == |text| then None
    else LazyTitleEnd(text, e + 1)
  }

  /** The lazy group ends at the first end that works: no end of the same line before it is followed by "BWV". */
  lemma {:induction false} LazyTitleEndLeast(text: string, e: nat, m: nat)
    requires 1 <= e <= m <= |text| && OnOneLine(text, e, m) && TitleEndsAt(text, m)
    ensures LazyTitleEnd(text, e).Some? && LazyTitleEnd(text, e).value <= m
    decreases m - e
  {
    assert text[e - 1] != '\n';
    if TitleEndsAt(text, e) {
      assert LazyTitleEnd(text, e) == Some(e);
    } else {
      assert e < m;
      assert OnOneLine(text, e + 1, m);
      LazyTitleEndLeast(text, e + 1, m);
      assert LazyTitleEnd(text, e) == LazyTitleEnd(text, e + 1);
    }
  }

  /** A match of `(.+?)\s*BWV` can start at `s`. */
  predicate TitleStartsAt(text: string, s: nat)
  {
    s < |text| && LazyTitleEnd(text, s + 1).Some?
  }

  /** The group of the leftmost match starting at or after `s`, as a start and an end. */
  function SearchTitle(text: string, s: nat): (r: Option<(nat, nat)>)
    ensures r.Some? ==> s <= r.value.0 < r.value.1 <= |text|
    decreases |text| - s
  {
    if s >= |text| then None
    else if TitleStartsAt(text, s) then Some((s, LazyTitleEnd(text, s + 1).value))
    else SearchTitle(text, s + 1)
  }

  /** `re.sub(r'^(Suite|Partita|Sonata)\s+', r'\1 ', title, flags=re.IGNORECASE)` */
  function CollapseAfterWorkWord(title: string): string
  {
    var w := if StartsWith(Lower(title), "suite") then 5
             else if StartsWith(Lower(title), "partita") then 7
             else if StartsWith(Lower(title), "sonata") then 6
             else 0;
    var after := SpanEnd(title, w, IsSpace);
    if w > 0 && after > w then title[..w] + " " + title[after..] else title
  }

  /** `extract_work_title` */
  function ExtractWorkTitle(text: string): Option<string>
  {
    match SearchTitle(text, 0)
    case None => None
    case Some((s, e)) => Some(CleanName(CollapseAfterWorkWord(Strip(text[s..e]))))
  }

  lemma {:induction false} SearchTitleFinds(text: string, s: nat, e: nat)
    requires s < e <= |text| && TitleEndsAt(text, e) && OnOneLine(text, s + 1, e)
    ensures SearchTitle(text, s).Some?
  {
    LazyTitleEndLeast(text, s + 1, e);
    var f := LazyTitleEnd(text, s + 1).value;
    assert SearchTitle(text, s) == Some((s, f));
  }

  lemma {:induction false} SearchTitleWitness(text: string, s: nat)
    requires SearchTitle(text, s).Some?
    ensures exists e :: 1 <= e <= |text| && text[e - 1] != '\n' && TitleEndsAt(text, e)
    decreases |text| - s
  {
    if LazyTitleEnd(text, s + 1).None? {
      SearchTitleWitness(text, s + 1);
    }
  }

  /**
   * A title is found exactly when some character other than a newline is followed, after optional
   * whitespace, by "BWV" in any case.
   */
  lemma ExtractWorkTitleMeaning(text: string)
    ensures ExtractWorkTitle(text).Some? <==>
      exists e :: 1 <= e <= |text| && text[e - 1] != '\n' && TitleEndsAt(text, e)
  {
    if exists e :: 1 <= e <= |text| && text[e - 1] != '\n' && TitleEndsAt(text, e) {
      var e :| 1 <= e <= |text| && text[e - 1] != '\n' && TitleEndsAt(text, e);
      assert OnOneLine(text, e, e);
      SearchTitleFinds(text, e - 1, e);
      SearchTitleFrom(text, e - 1);
    }
    if SearchTitle(text, 0).Some? {
      SearchTitleWitness(text, 0);
    }
  }

  /** A title found is a clean name. */
  lemma ExtractWorkTitleIsClean(text: string)
    requires ExtractWorkTitle(text).Some?
    ensures Stripped(ExtractWorkTitle(text).value)
    ensures forall i :: 0 <= i < |ExtractWorkTitle(text).value| ==> CleanChar(ExtractWorkTitle(text).value[i])
  {
    var (s, e) := SearchTitle(text, 0).value;
    CleanNameClean(CollapseAfterWorkWord(Strip(text[s..e])));
  }

  /** The group of a match found ends at the lazy end from its start. */
  lemma {:induction false} SearchTitleEnd(text: string, s: nat, b: nat, e: nat)
    requires SearchTitle(text, s) == Some((b, e))
    ensures LazyTitleEnd(text, b + 1) == Some(e)
    decreases |text| - s
  {
    if s < |text| && !TitleStartsAt(text, s) {
      assert SearchTitle(text, s + 1) == Some((b, e));
      SearchTitleEnd(text, s + 1, b, e);
    }
  }

  /** A match found starts at the leftmost position where one can start. */
  lemma {:induction false} SearchTitleFirst(text: string, s: nat, b: nat, e: nat)
    requires SearchTitle(text, s) == Some((b, e))
    ensures forall x :: s <= x < b ==> !TitleStartsAt(text, x)
    decreases |text| - s
  {
    if s < |text| && !TitleStartsAt(text, s) {
      assert SearchTitle(text, s + 1) == Some((b, e));
      SearchTitleFirst(text, s + 1, b, e);
      forall x | s <= x < b
        ensures !TitleStartsAt(text, x)
      {
        if x > s {
          assert s + 1 <= x < b;
        }
      }
    }
  }

  /** The search reports nothing only when no position starts a match. */
  lemma {:induction false} SearchTitleNone(text: string, s: nat)
    requires SearchTitle(text, s).None?
    ensures forall x :: s <= x ==> !TitleStartsAt(text, x)
    decreases |text| - s
  {
    if s < |text| {
      assert !TitleStartsAt(text, s);
      SearchTitleNone(text, s + 1);
    }
  }

  /**
   * In general the title comes from the leftmost position where a match can start (a line before the
   * first "BWV" line starts none), up to the lazy end from there.
   */
  lemma ExtractWorkTitleLeftmost(text: string, b: nat, e: nat)
    requires b < |text| && LazyTitleEnd(text, b + 1) == Some(e)
    requires forall x :: 0 <= x < b ==> !TitleStartsAt(text, x)
    ensures ExtractWorkTitle(text) == Some(CleanName(CollapseAfterWorkWord(Strip(text[b..e]))))
  {
    assert TitleStartsAt(text, b);
    if SearchTitle(text, 0).None? {
      SearchTitleNone(text, 0);
    }
    var (c, f) := SearchTitle(text, 0).value;
    SearchTitleEnd(text, 0, c, f);
    SearchTitleFirst(text, 0, c, f);
    assert TitleStartsAt(text, c);
    assert SearchTitle(text, 0) == Some((b, e));
  }

  /**
   * The title is the text before the first "BWV", stripped, with the work word's spacing collapsed and
   * cleaned, when that "BWV" comes after at least one character and no newline comes before it.
   */
  lemma ExtractWorkTitleBeforeFirstBwv(text: string, e: nat)
    requires 1 <= e <= |text| && TitleEndsAt(text, e)
    requires forall q :: 0 <= q < e ==> text[q] != '\n'
    requires forall x :: 1 <= x < e ==> !TitleEndsAt(text, x)
    ensures ExtractWorkTitle(text) == Some(CleanName(CollapseAfterWorkWord(Strip(text[..e]))))
  {
    assert OnOneLine(text, 1, e);
    LazyTitleEndLeast(text, 1, e);
    assert LazyTitleEnd(text, 1) == Some(e);
    assert SearchTitle(text, 0) == Some((0, e));
    assert text[0..e] == text[..e];
  }

  /** A match found from `s` is also found, no later, from any earlier start. */
  lemma {:induction false} SearchTitleFrom(text: string, s: nat)
    requires SearchTitle(text, s).Some?
    ensures SearchTitle(text, 0).Some?
    decreases s
  {
    if s > 0 {
      if LazyTitleEnd(text, s).None? {
        assert SearchTitle(text, s - 1) == SearchTitle(text, s);
      }
      SearchTitleFrom(text, s - 1);
    }
  }

  lemma ExtractWorkTitleExample()
    ensures ExtractWorkTitle("Partita No. 2 in D minor BWV1004") == Some("Partita No. 2 in D minor")
  {
    var t := "Partita No. 2 in D minor BWV1004";
    TitleExampleSearch();
    assert t[0..24] == "Partita No. 2 in D minor";
    TitleExampleClean(t[0..24]);
  }

  lemma TitleExampleSearch()
    ensures SearchTitle("Partita No. 2 in D minor BWV1004", 0) == Some((0, 24))
  {
    var t := "Partita No. 2 in D minor BWV1004";
    TitleExampleAt();
    TitleExampleNoB(t);
    LazyTitleSkip(t, 1, 24);
  }

  lemma TitleExampleNoB(t: string)
    requires t == "Partita No. 2 in D minor BWV1004"
    ensures forall k :: 0 <= k < 24 ==> t[k] != '\n' && t[k] != 'b' && t[k] != 'B'
    ensures !IsSpace(t[23])
  {
  }

  lemma TitleExampleAt()
    ensures LazyTitleEnd("Partita No. 2 in D minor BWV1004", 24) == Some(24)
  {
    var t := "Partita No. 2 in D minor BWV1004";
    TitleExampleEnd();
    assert t[23] == 'r';
  }

  lemma TitleExampleEnd()
    ensures TitleEndsAt("Partita No. 2 in D minor BWV1004", 24)
  {
    var t := "Partita No. 2 in D minor BWV1004";
    SpanEndExact(t, 24, IsSpace, 25);
    assert t[25..28] == "BWV";
    assert Lower("BWV") == "bwv";
  }

  lemma TitleExampleClean(m: string)
    requires m == "Partita No. 2 in D minor"
    ensures CleanName(CollapseAfterWorkWord(Strip(m))) == m
  {
    StripStripped(m);
    TitleExampleCollapse(m);
    TitleExampleKept(m);
  }

  lemma TitleExampleCollapse(m: string)
    requires m == "Partita No. 2 in D minor"
    ensures CollapseAfterWorkWord(m) == m
  {
    var lower := Lower(m);
    assert lower[..7] == "partita";
    assert lower[0] == 'p';
    SpanEndExact(m, 7, IsSpace, 8);
    assert m[..7] + " " + m[8..] == m;
  }

  lemma TitleExampleKept(m: string)
    requires m == "Partita No. 2 in D minor"
    ensures CleanName(m) == m
  {
    assert forall i :: 0 <= i < |m| ==> m[i] != '/' && CleanChar(m[i]);
    assert ReplaceChar(m, '/', '_') == m;
    KeepCleanCharsKeepsClean(m);
    StripStripped(m);
  }

  lemma SpanEndBefore(s: string, m: nat, p: char -> bool, j: nat)
    requires m <= j < |s| && !p(s[j])
    ensures SpanEnd(s, m, p) <= j
    decreases j - m
  {
    if m < j && p(s[m]) {
      SpanEndBefore(s, m + 1, p, j);
    }
  }

  /**
   * While no newline and no 'b' or 'B' occurs up to a non-space at `stop - 1`, no end before `stop` is
   * followed by "BWV", so the lazy scan moves on to `stop`.
   */
  lemma {:induction false} LazyTitleSkip(text: string, e: nat, stop: nat)
    requires 1 <= e <= stop <= |text| && !IsSpace(text[stop - 1])
    requires forall k :: e - 1 <= k < stop ==> text[k] != '\n' && text[k] != 'b' && text[k] != 'B'
    ensures LazyTitleEnd(text, e) == LazyTitleEnd(text, stop)
    decreases stop - e
  {
    if e < stop {
      assert text[e - 1] != '\n';
      SpanEndBefore(text, e, IsSpace, stop - 1);
      NoBwvWordWithoutB(text, SpanEnd(text, e, IsSpace));
      LazyTitleSkip(text, e + 1, stop);
    }
  }

  // ---------------------------------------------------------------------------
  // extract_movement_info

  /** `movement_names`, in the dictionary's order: abbreviation and movement name. */
  const MovementNames: seq<(string, string)> := [
    ("pre", "Prelude"), ("all", "Allemande"), ("ald", "Allemande (Double)"), ("cou", "Courante"),
    ("cod", "Courante (Double)"), ("sar", "Sarabande"), ("sad", "Sarabande (Double)"), ("men", "Menuet"),
    ("min", "Menuet"), ("bou", "Bourrée"), ("gig", "Gigue"), ("gav", "Gavotte"), ("fug", "Fugue"),
    ("ada", "Adagio"), ("and", "Andante"), ("alg", "Allegro"), ("prs", "Presto"), ("sic", "Siciliana"),
    ("cha", "Chaconne"), ("gra", "Grave"), ("lar", "Largo"), ("lou", "Loure"), ("tb", "Tempo di Borea"),
    ("tbd", "Tempo di Borea (Double)"), ("al", "Allemande"), ("co", "Courante"), ("sa", "Sarabande")]

  /** The entry for `key` in `table[i..]`, looked up as a dictionary is. */
  function Lookup(table: seq<(string, string)>, i: nat, key: string): (r: Option<string>)
    requires i <= |table|
    ensures r.None? <==> forall j :: i <= j < |table| ==> table[j].0 != key
    ensures r.Some? ==> exists j :: i <= j < |table| && table[j] == (key, r.value)
    decreases |table| - i
  {
    if i == |table| then None
    else if table[i].0 == key then Some(table[i].1)
    else Lookup(table, i + 1, key)
  }

  function MovementName(abbrev: string): Option<string>
  {
    Lookup(MovementNames, 0, abbrev)
  }

  /** The abbreviations are distinct, so the table is a dictionary. */
  lemma MovementNamesDistinct()
    ensures forall i, j :: 0 <= i < j < |MovementNames| ==> MovementNames[i].0 != MovementNames[j].0
  {
  }

  /** The entry at `i` is what looking up its key finds. */
  lemma LookupEntry(table: seq<(string, string)>, i: nat)
    requires i < |table| && forall j :: 0 <= j < i ==> table[j].0 != table[i].0
    ensures Lookup(table, 0, table[i].0) == Some(table[i].1)
  {
    LookupFrom(table, 0, i);
  }

  lemma {:induction false} LookupFrom(table: seq<(string, string)>, k: nat, i: nat)
    requires k <= i < |table| && forall j :: k <= j < i ==> table[j].0 != table[i].0
    ensures Lookup(table, k, table[i].0) == Some(table[i].1)
    decreases i - k
  {
    if k < i {
      LookupFrom(table, k + 1, i);
    }
  }

  /** A match of `[a-z]+\d*-(\d+)([a-z]+)` at `s`, as its two groups. */
  function PrefixedMatchAt(name: string, s: nat): Option<(string, string)>
  {
    if s >= |name| || !IsLower(name[s]) then None
    else
      var a := SpanEnd(name, s, IsLower);
      var b := SpanEnd(name, a, IsDigit);
      if b >= |name| || name[b] != '-' then None
      else
        var c := SpanEnd(name, b + 1, IsDigit);
        var d := SpanEnd(name, c, IsLower);
        if c == b + 1 || d == c then None else Some((name[b + 1..c], name[c..d]))
  }

  /** A match of `(\d+)([a-z]+)` at `s`. */
  function NumberedMatchAt(name: string, s: nat): Option<(string, string)>
  {
    if s >= |name| || !IsDigit(name[s]) then None
    else
      var c := SpanEnd(name, s, IsDigit);
      var d := SpanEnd(name, c, IsLower);
      if d == c then None else Some((name[s..c], name[c..d]))
  }

  /** A match at `j` of `(\d+)([a-z]+)` when `numbered`, else of `[a-z]+\d*-(\d+)([a-z]+)`. */
  function MatchAt(name: string, j: nat, numbered: bool): Option<(string, string)>
  {
    if numbered then NumberedMatchAt(name, j) else PrefixedMatchAt(name, j)
  }

  /**
   * `re.search` of one of the two patterns from `s`: the match at the leftmost position where one
   * starts, and nothing when no position from `s` on starts one.
   */
  function Search(name: string, s: nat, numbered: bool): (r: Option<(string, string)>)
    ensures r.Some? ==> exists j :: s <= j < |name| && r == MatchAt(name, j, numbered)
                                    && forall k :: s <= k < j ==> MatchAt(name, k, numbered).None?
    ensures r.None? ==> forall k :: s <= k < |name| ==> MatchAt(name, k, numbered).None?
    decreases |name| - s
  {
    if s >= |name| then None
    else
      var here := MatchAt(name, s, numbered);
      if here.Some? then here else Search(name, s + 1, numbered)
  }

  predicate IsMovementSeparator(c: char) { IsSpace(c) || c == '-' || c == '_' }

  /** Where `(.+)` starts after `[\s\-_]+` gives back characters, from `g` down to just after the digits at `a`. */
  function BacktrackStart(name: string, a: nat, g: nat): (r: Option<nat>)
    requires g <= |name|
    ensures r.Some? ==> a < r.value <= g && r.value < |name| && name[r.value] != '\n'
    decreases g
  {
    if g <= a then None
    else if g < |name| && name[g] != '\n' then Some(g)
    else BacktrackStart(name, a, g - 1)
  }

  /** A match of `^(\d+)[\s\-_]+(.+)`, as its two groups. */
  function LeadingNumberMatch(name: string): Option<(string, string)>
  {
    var a := SpanEnd(name, 0, IsDigit);
    if a == 0 then None
    else
      var b := SpanEnd(name, a, IsMovementSeparator);
      match BacktrackStart(name, a, b)
      case None => None
      case Some(g) => Some((name[..a], name[g..SpanEnd(name, g, NotNewline)]))
  }

  /** `s.replace('_', ' ').replace('-', ' ').strip().title()` */
  function Tidy(s: string): string
  {
    Title(Strip(ReplaceChar(ReplaceChar(s, '_', ' '), '-', ' ')))
  }

  /** `num.lstrip('0') or '0'` */
  function NoLeadingZeros(num: string): string
  {
    var t := LStripChar(num, '0');
    if t == [] then "0" else t
  }

  /** `extract_movement_info` */
  function ExtractMovementInfo(filename: string): string
  {
    var name := RemoveAll(RemoveAll(filename, ".mid"), ".MID");
    match Search(Lower(name), 0, false)
    case Some((num, abbrev)) =>
      num + " " + MovementName(abbrev).GetOr(Capitalize(abbrev))
    case None =>
      match LeadingNumberMatch(name)
      case Some((num, movement)) => NoLeadingZeros(num) + " " + Tidy(movement)
      case None =>
        var fallback := Search(Lower(name), 0, true);
        if fallback.Some? && MovementName(fallback.value.1).Some? then fallback.value.0 + " " + MovementName(fallback.value.1).value
        else Tidy(name)
  }

  /** The leading number, once its zeros are stripped, is "0" or starts with a digit other than 0. */
  lemma NoLeadingZerosShape(num: string)
    requires num != [] && forall i :: 0 <= i < |num| ==> IsDigit(num[i])
    ensures var r := NoLeadingZeros(num);
      && (r == "0" || (r[0] != '0' && |r| <= |num| && r == num[|num| - |r|..]))
      && forall i :: 0 <= i < |r| ==> IsDigit(r[i])
  {
  }

  predicate AllLower(s: string) { forall i :: 0 <= i < |s| ==> IsLower(s[i]) }

  predicate AllDigits(s: string) { forall i :: 0 <= i < |s| ==> IsDigit(s[i]) }

  lemma LowerUnchanged(s: string)
    requires forall i :: 0 <= i < |s| ==> !IsUpper(s[i])
    ensures Lower(s) == s
  {
  }

  /**
   * A name `<series><n>-<number><abbrev>.mid`, such as `cs1-1pre.mid`, is named after the table entry
   * of the abbreviation, or after the abbreviation capitalised when the table has none.
   */
  lemma PrefixedMovement(filename: string, series: string, n: string, number: string, abbrev: string)
    requires series != [] && AllLower(series) && AllDigits(n)
    requires number != [] && AllDigits(number) && abbrev != [] && AllLower(abbrev)
    requires filename == series + n + "-" + number + abbrev + ".mid"
    ensures ExtractMovementInfo(filename) == number + " " + MovementName(abbrev).GetOr(Capitalize(abbrev))
  {
    var name := series + n + "-" + number + abbrev;
    assert filename == name + ".mid";
    assert forall i :: 0 <= i < |name| ==> name[i] != '.' && !IsUpper(name[i]);
    MidRemoved(name);
    LowerUnchanged(name);
    PrefixedSearch(name, series, n, number, abbrev);
  }

  /** Removing `.mid` and `.MID` from a name without a dot leaves the name. */
  lemma MidRemoved(name: string)
    requires forall i :: 0 <= i < |name| ==> name[i] != '.'
    ensures RemoveAll(RemoveAll(name + ".mid", ".mid"), ".MID") == name
  {
    var file := name + ".mid";
    assert file[|name|..] == ".mid";
    RemoveAllPrefix(file, |name|, ".mid");
    assert file[..|name|] == name;
    RemoveAllAbsent(name, ".MID");
  }

  lemma PrefixedSearch(name: string, series: string, n: string, number: string, abbrev: string)
    requires series != [] && AllLower(series) && AllDigits(n)
    requires number != [] && AllDigits(number) && abbrev != [] && AllLower(abbrev)
    requires name == series + n + "-" + number + abbrev
    ensures Search(name, 0, false) == Some((number, abbrev))
  {
    var head := series + n + "-";
    assert name == head + number + abbrev;
    assert (head + number)[|head|..] == number;
    assert name[..|head| + |number|] == head + number;
    assert name[|head| + |number|..] == abbrev;
    var a := |series|;
    var b := a + |n|;
    var c := b + 1 + |number|;
    var d := c + |abbrev|;
    SpanEndExact(name, 0, IsLower, a);
    SpanEndExact(name, a, IsDigit, b);
    SpanEndExact(name, b + 1, IsDigit, c);
    SpanEndExact(name, c, IsLower, d);
    assert name[b] == '-';
    assert name[b + 1..c] == (head + number)[|head|..];
    PrefixedMatchShape(name, a, b, c);
  }

  lemma PrefixedMatchShape(name: string, a: nat, b: nat, c: nat)
    requires 0 < a <= b && b + 1 < c < |name| && IsLower(name[0]) && name[b] == '-'
    requires SpanEnd(name, 0, IsLower) == a && SpanEnd(name, a, IsDigit) == b
    requires SpanEnd(name, b + 1, IsDigit) == c && SpanEnd(name, c, IsLower) == |name|
    ensures PrefixedMatchAt(name, 0) == Some((name[b + 1..c], name[c..]))
  {
    assert name[c..|name|] == name[c..];
  }

  lemma PreludeExample(filename: string)
    requires filename == "cs1-1pre.mid"
    ensures ExtractMovementInfo(filename) == "1 Prelude"
  {
    PreludeParts(filename);
    PrefixedMovement(filename, "cs", "1", "1", "pre");
  }

  lemma PreludeParts(filename: string)
    requires filename == "cs1-1pre.mid"
    ensures filename == "cs" + "1" + "-" + "1" + "pre" + ".mid"
    ensures AllLower("cs") && AllDigits("1") && AllDigits("1") && AllLower("pre")
    ensures "1" + " " + MovementName("pre").GetOr(Capitalize("pre")) == "1 Prelude"
  {
    PreludeShape(filename);
    PreludeName();
  }

  lemma PreludeShape(filename: string)
    requires filename == "cs1-1pre.mid"
    ensures filename == "cs" + "1" + "-" + "1" + "pre" + ".mid"
  {
  }

  lemma PreludeName()
    ensures "1" + " " + MovementName("pre").GetOr(Capitalize("pre")) == "1 Prelude"
  {
    LookupEntry(MovementNames, 0);
    PreludeText();
  }

  lemma PreludeText()
    ensures "1" + " " + "Prelude" == "1 Prelude"
  {
  }

  lemma SarabandeExample(filename: string)
    requires filename == "vp2-3sar.mid"
    ensures ExtractMovementInfo(filename) == "3 Sarabande"
  {
    SarabandeParts(filename);
    PrefixedMovement(filename, "vp", "2", "3", "sar");
  }

  lemma SarabandeParts(filename: string)
    requires filename == "vp2-3sar.mid"
    ensures filename == "vp" + "2" + "-" + "3" + "sar" + ".mid"
    ensures AllLower("vp") && AllDigits("2") && AllDigits("3") && AllLower("sar")
    ensures "3" + " " + MovementName("sar").GetOr(Capitalize("sar")) == "3 Sarabande"
  {
    SarabandeShape(filename);
    SarabandeName();
  }

  lemma SarabandeShape(filename: string)
    requires filename == "vp2-3sar.mid"
    ensures filename == "vp" + "2" + "-" + "3" + "sar" + ".mid"
  {
  }

  lemma SarabandeName()
    ensures "3" + " " + MovementName("sar").GetOr(Capitalize("sar")) == "3 Sarabande"
  {
    LookupEntry(MovementNames, 5);
    SarabandeText();
  }

  lemma SarabandeText()
    ensures "3" + " " + "Sarabande" == "3 Sarabande"
  {
  }

  /** An abbreviation the table lacks is capitalised. */
  lemma UnknownAbbreviationExample(filename: string)
    requires filename == "fp-2xyz.mid"
    ensures ExtractMovementInfo(filename) == "2 Xyz"
  {
    UnknownAbbreviationParts(filename);
    PrefixedMovement(filename, "fp", "", "2", "xyz");
  }

  lemma UnknownAbbreviationParts(filename: string)
    requires filename == "fp-2xyz.mid"
    ensures filename == "fp" + "" + "-" + "2" + "xyz" + ".mid"
    ensures AllLower("fp") && AllDigits("") && AllDigits("2") && AllLower("xyz")
    ensures "2" + " " + MovementName("xyz").GetOr(Capitalize("xyz")) == "2 Xyz"
  {
    UnknownAbbreviationShape(filename);
    UnknownAbbreviationName();
  }

  lemma UnknownAbbreviationShape(filename: string)
    requires filename == "fp-2xyz.mid"
    ensures filename == "fp" + "" + "-" + "2" + "xyz" + ".mid"
  {
  }

  lemma UnknownAbbreviationName()
    ensures "2" + " " + MovementName("xyz").GetOr(Capitalize("xyz")) == "2 Xyz"
  {
    NoAbbreviationWithX();
    assert forall j :: 0 <= j < |MovementNames| ==> MovementNames[j].0 != "xyz";
    assert MovementName("xyz").None?;
    assert Capitalize("xyz") == "Xyz";
    UnknownAbbreviationText();
  }

  lemma NoAbbreviationWithX()
    ensures forall j :: 0 <= j < |MovementNames| ==> MovementNames[j].0 != [] && MovementNames[j].0[0] != 'x'
  {
  }

  lemma UnknownAbbreviationText()
    ensures "2" + " " + "Xyz" == "2 Xyz"
  {
  }

  predicate IsSeparatorRun(sep: string)
  {
    sep != [] && forall i :: 0 <= i < |sep| ==> IsMovementSeparator(sep[i]) && sep[i] != '\n'
  }

  /**
   * The text after the separators: a non-separator first, no '.' or newline, and no '-' followed by a
   * digit (which the prefixed pattern `[a-z]+\d*-(\d+)([a-z]+)` could take up).
   */
  predicate IsMovementText(rest: string)
  {
    && rest != [] && !IsMovementSeparator(rest[0])
    && (forall i :: 0 <= i < |rest| ==> rest[i] != '.' && rest[i] != '\n')
    && (forall i :: 0 <= i < |rest| - 1 ==> rest[i] == '-' ==> !IsDigit(rest[i + 1]))
  }

  /**
   * A name `<number><separators><text>`, with or without `.mid`, such as `01_allemande.mid`, is named
   * after the number without its leading zeros and the text in title case, underscores and hyphens
   * read as spaces.
   */
  lemma LeadingNumberMovement(filename: string, number: string, sep: string, rest: string, ext: string)
    requires number != [] && AllDigits(number) && IsSeparatorRun(sep) && IsMovementText(rest)
    requires ext == "" || ext == ".mid"
    requires filename == number + sep + rest + ext
    ensures ExtractMovementInfo(filename) == NoLeadingZeros(number) + " " + Tidy(rest)
  {
    var name := number + sep + rest;
    ExtensionRemoved(filename, name, ext);
    LeadingNumberNoPrefixed(name, number, sep, rest);
    LeadingNumberShape(name, number, sep, rest);
    LeadingNumberBranch(filename, name);
  }

  /** With `.mid` removed, no prefixed match and a leading number, the second branch names the movement. */
  lemma LeadingNumberBranch(filename: string, name: string)
    requires RemoveAll(RemoveAll(filename, ".mid"), ".MID") == name
    requires Search(Lower(name), 0, false).None? && LeadingNumberMatch(name).Some?
    ensures ExtractMovementInfo(filename) ==
      NoLeadingZeros(LeadingNumberMatch(name).value.0) + " " + Tidy(LeadingNumberMatch(name).value.1)
  {
  }

  lemma ExtensionRemoved(filename: string, name: string, ext: string)
    requires forall i :: 0 <= i < |name| ==> name[i] != '.'
    requires ext == "" || ext == ".mid"
    requires filename == name + ext
    ensures RemoveAll(RemoveAll(filename, ".mid"), ".MID") == name
  {
    if ext == "" {
      assert filename == name;
      RemoveAllAbsent(name, ".mid");
      RemoveAllAbsent(name, ".MID");
    } else {
      MidRemoved(name);
    }
  }

  /** The prefixed pattern finds nothing in a leading-number name. */
  lemma LeadingNumberNoPrefixed(name: string, number: string, sep: string, rest: string)
    requires number != [] && AllDigits(number) && IsSeparatorRun(sep) && IsMovementText(rest)
    requires name == number + sep + rest
    ensures Search(Lower(name), 0, false).None?
  {
    var k := |number| + |sep|;
    var lower := Lower(name);
    assert forall j :: 0 <= j < k ==> !IsLower(lower[j]);
    assert forall j :: k <= j < |lower| - 1 ==> lower[j] == '-' ==> !IsDigit(lower[j + 1]) by {
      forall j | k <= j < |lower| - 1 && lower[j] == '-'
        ensures !IsDigit(lower[j + 1])
      {
        assert name[j] == rest[j - k] && name[j + 1] == rest[j - k + 1];
      }
    }
    NoPrefixedMatchIn(lower, k);
  }

  /** No lower-case letter before `k` and no '-' followed by a digit from `k` on: `[a-z]+\d*-(\d+)` cannot match. */
  lemma NoPrefixedMatchIn(lower: string, k: nat)
    requires forall j :: 0 <= j < k && j < |lower| ==> !IsLower(lower[j])
    requires forall j :: k <= j < |lower| - 1 ==> lower[j] == '-' ==> !IsDigit(lower[j + 1])
    ensures Search(lower, 0, false).None?
  {
    forall s | 0 <= s < |lower|
      ensures MatchAt(lower, s, false).None?
    {
      if IsLower(lower[s]) {
        var x := SpanEnd(lower, s, IsLower);
        var y := SpanEnd(lower, x, IsDigit);
        if y < |lower| && lower[y] == '-' {
          assert SpanEnd(lower, y + 1, IsDigit) == y + 1;
        }
      }
    }
  }

  lemma LeadingNumberShape(name: string, number: string, sep: string, rest: string)
    requires number != [] && AllDigits(number) && IsSeparatorRun(sep) && IsMovementText(rest)
    requires name == number + sep + rest
    ensures LeadingNumberMatch(name) == Some((number, rest))
  {
    var a := |number|;
    var b := a + |sep|;
    SpanEndExact(name, 0, IsDigit, a);
    SpanEndExact(name, a, IsMovementSeparator, b);
    SpanEndExact(name, b, NotNewline, |name|);
    assert name[..a] == number && name[b..] == rest;
    assert name[b..|name|] == rest;
  }

  /** The digits a name starts with, if any, are not followed by `[\s\-_]`, so `^(\d+)[\s\-_]+` fails. */
  predicate NoSeparatorAfterNumber(name: string)
  {
    var a := SpanEnd(name, 0, IsDigit);
    a == |name| || !IsMovementSeparator(name[a])
  }

  /**
   * A name, with or without `.mid`, whose stem holds no '.', no '-' followed by a digit, and no separator
   * right after its leading digits (such as `3sar.mid`) falls through to the last search: its leftmost
   * `(\d+)([a-z]+)`, when the table knows the letters, names the movement.
   */
  lemma NumberedFallbackMovement(filename: string, name: string, ext: string, num: string, abbrev: string, full: string)
    requires forall i :: 0 <= i < |name| ==> name[i] != '.'
    requires forall i :: 0 <= i < |name| - 1 ==> name[i] == '-' ==> !IsDigit(name[i + 1])
    requires NoSeparatorAfterNumber(name)
    requires ext == "" || ext == ".mid"
    requires filename == name + ext
    requires Search(Lower(name), 0, true) == Some((num, abbrev)) && MovementName(abbrev) == Some(full)
    ensures ExtractMovementInfo(filename) == num + " " + full
  {
    ExtensionRemoved(filename, name, ext);
    NoDashDigitNoPrefixed(name);
    assert LeadingNumberMatch(name).None?;
  }

  /** With no '-' followed by a digit, the prefixed pattern `[a-z]+\d*-(\d+)([a-z]+)` finds nothing. */
  lemma NoDashDigitNoPrefixed(name: string)
    requires forall i :: 0 <= i < |name| - 1 ==> name[i] == '-' ==> !IsDigit(name[i + 1])
    ensures Search(Lower(name), 0, false).None?
  {
    var lower := Lower(name);
    assert forall j :: 0 <= j < |lower| - 1 ==> lower[j] == '-' ==> !IsDigit(lower[j + 1]) by {
      forall j | 0 <= j < |lower| - 1 && lower[j] == '-'
        ensures !IsDigit(lower[j + 1])
      {
        assert lower[j] == ToLower(name[j]) && lower[j + 1] == ToLower(name[j + 1]);
      }
    }
    NoPrefixedMatchIn(lower, 0);
  }

  /** A name, with or without `.mid`, whose stem has no digit and no dot matches none of the three patterns and is tidied. */
  lemma LastResortMovement(filename: string, name: string, ext: string)
    requires forall i :: 0 <= i < |name| ==> name[i] != '.' && !IsDigit(name[i])
    requires ext == "" || ext == ".mid"
    requires filename == name + ext
    ensures ExtractMovementInfo(filename) == Tidy(name)
  {
    ExtensionRemoved(filename, name, ext);
    var lower := Lower(name);
    assert forall j :: 0 <= j < |lower| ==> !IsDigit(lower[j]);
    NoPrefixedMatchIn(lower, 0);
    assert forall k :: 0 <= k < |lower| ==> MatchAt(lower, k, true).None?;
    assert LeadingNumberMatch(name).None?;
  }

  /** A name whose leading number is glued to its letters falls through to the last search. */
  lemma FallbackExample(filename: string)
    requires filename == "3sar.mid"
    ensures ExtractMovementInfo(filename) == "3 Sarabande"
  {
    FallbackParts(filename);
    FallbackSearch();
    LookupEntry(MovementNames, 5);
    NumberedFallbackMovement(filename, "3sar", ".mid", "3", "sar", "Sarabande");
    SarabandeText();
  }

  lemma FallbackParts(filename: string)
    requires filename == "3sar.mid"
    ensures filename == "3sar" + ".mid"
    ensures forall i :: 0 <= i < |"3sar"| ==> "3sar"[i] != '.' && "3sar"[i] != '-'
    ensures NoSeparatorAfterNumber("3sar")
  {
    assert SpanEnd("3sar", 0, IsDigit) == 1;
  }

  lemma FallbackSearch()
    ensures Search(Lower("3sar"), 0, true) == Some(("3", "sar"))
  {
    var lower := Lower("3sar");
    assert lower == "3sar";
    assert SpanEnd(lower, 0, IsDigit) == 1;
    assert SpanEnd(lower, 1, IsLower) == 4;
    assert lower[0..1] == "3" && lower[1..4] == "sar";
  }

  /** A name without digits is only tidied. */
  lemma LastResortExample(filename: string)
    requires filename == "prelude.mid"
    ensures ExtractMovementInfo(filename) == "Prelude"
  {
    LastResortParts(filename);
    LastResortMovement(filename, "prelude", ".mid");
    LastResortTidy();
  }

  lemma LastResortParts(filename: string)
    requires filename == "prelude.mid"
    ensures filename == "prelude" + ".mid"
    ensures forall i :: 0 <= i < |"prelude"| ==> "prelude"[i] != '.' && !IsDigit("prelude"[i])
  {
  }

  lemma LastResortTidy()
    ensures Tidy("prelude") == "Prelude"
  {
  }

  lemma LeadingZeroExample(filename: string)
    requires filename == "01_allemande.mid"
    ensures ExtractMovementInfo(filename) == "1 Allemande"
  {
    LeadingZeroParts(filename);
    LeadingNumberMovement(filename, "01", "_", "allemande", ".mid");
    LeadingZeroPieces();
  }

  lemma LeadingZeroParts(filename: string)
    requires filename == "01_allemande.mid"
    ensures filename == "01" + "_" + "allemande" + ".mid"
    ensures AllDigits("01") && IsSeparatorRun("_") && IsMovementText("allemande")
  {
  }

  lemma LeadingZeroPieces()
    ensures NoLeadingZeros("01") + " " + Tidy("allemande") == "1 Allemande"
  {
    LeadingZeroNumber();
    LeadingZeroText();
    assert "1" + " " + "Allemande" == "1 Allemande";
  }

  lemma LeadingZeroNumber()
    ensures NoLeadingZeros("01") == "1"
  {
    SpanEndExact("01", 0, x => x == '0', 1);
  }

  lemma LeadingZeroText()
    ensures Tidy("allemande") == "Allemande"
  {
    assert ReplaceChar(ReplaceChar("allemande", '_', ' '), '-', ' ') == "allemande";
    StripStripped("allemande");
  }

  lemma AllZerosExample(filename: string)
    requires filename == "000 - gigue"
    ensures ExtractMovementInfo(filename) == "0 Gigue"
  {
    AllZerosParts(filename);
    LeadingNumberMovement(filename, "000", " - ", "gigue", "");
    AllZerosPieces();
  }

  lemma AllZerosParts(filename: string)
    requires filename == "000 - gigue"
    ensures filename == "000" + " - " + "gigue" + ""
    ensures AllDigits("000") && IsSeparatorRun(" - ") && IsMovementText("gigue")
  {
  }

  lemma AllZerosPieces()
    ensures NoLeadingZeros("000") + " " + Tidy("gigue") == "0 Gigue"
  {
    AllZerosNumber();
    AllZerosText();
    assert "0" + " " + "Gigue" == "0 Gigue";
  }

  lemma AllZerosNumber()
    ensures NoLeadingZeros("000") == "0"
  {
    SpanEndExact("000", 0, x => x == '0', 3);
  }

  lemma AllZerosText()
    ensures Tidy("gigue") == "Gigue"
  {
    assert ReplaceChar(ReplaceChar("gigue", '_', ' '), '-', ' ') == "gigue";
    StripStripped("gigue");
  }

  lemma {:induction false} RemoveAllAbsent(s: string, pat: string)
    requires pat != []
    requires forall i :: 0 <= i < |s| ==> s[i] != pat[0]
    ensures RemoveAll(s, pat) == s
  {
    if |s| >= |pat| {
      assert s[..|pat|][0] != pat[0];
      RemoveAllAbsent(s[1..], pat);
      assert [s[0]] + s[1..] == s;
    }
  }

  /** With `pat` first found at `k` and `s` ending there, `s[..k]` is all that remains. */
  lemma {:induction false} RemoveAllPrefix(s: string, k: nat, pat: string)
    requires pat != [] && k + |pat| == |s| && s[k..] == pat
    requires forall i :: 0 <= i < k ==> s[i] != pat[0]
    ensures RemoveAll(s, pat) == s[..k]
    decreases k
  {
    if k == 0 {
      assert s[..|pat|] == pat;
      assert s[|pat|..] == [];
    } else {
      assert s[..|pat|][0] != pat[0];
      RemoveAllPrefix(s[1..], k - 1, pat);
      assert s[1..][..k - 1] == s[1..k];
      assert [s[0]] + s[1..k] == s[..k];
    }
  }

  // ---------------------------------------------------------------------------
  // The file name of a movement (process_instrument_page)

  /** The extension rewrite: a trailing `.mid`, in any case, becomes `.xml`; `.xml` is added unless there. */
  function WithXmlExtension(n: string): string
  {
    if EndsWith(Lower(n), ".mid") then n[..|n| - 4] + ".xml"
    else if !EndsWith(Lower(n), ".xml") then n + ".xml"
    else n
  }

  lemma LowerAppend(a: string, b: string)
    ensures Lower(a + b) == Lower(a) + Lower(b)
  {
  }

  /** After the rewrite the name ends in `.xml`, the rest of it is kept, and a second rewrite changes nothing. */
  lemma WithXmlExtensionProperties(n: string)
    ensures EndsWith(Lower(WithXmlExtension(n)), ".xml")
    ensures WithXmlExtension(WithXmlExtension(n)) == WithXmlExtension(n)
    ensures EndsWith(Lower(n), ".mid") ==> WithXmlExtension(n) == n[..|n| - 4] + ".xml"
    ensures EndsWith(Lower(n), ".xml") ==> WithXmlExtension(n) == n
    ensures !EndsWith(Lower(n), ".mid") && !EndsWith(Lower(n), ".xml") ==> WithXmlExtension(n) == n + ".xml"
  {
    var r := WithXmlExtension(n);
    if EndsWith(Lower(n), ".mid") {
      LowerAppend(n[..|n| - 4], ".xml");
      assert Lower(r)[|r| - 4..] == Lower(".xml");
    } else if !EndsWith(Lower(n), ".xml") {
      LowerAppend(n, ".xml");
      assert Lower(r)[|r| - 4..] == Lower(".xml");
    }
    assert EndsWith(Lower(r), ".xml");
    assert !EndsWith(Lower(r), ".mid") by {
      assert Lower(r)[|r| - 4..][1] == 'x';
    }
  }

  /** The name a movement file is saved under, from the table row's (number, name) when there is one. */
  function MovementFileName(movementInfo: Option<(string, string)>, originalFilename: string): string
  {
    var newFilename :=
      if movementInfo.Some? then movementInfo.value.0 + " " + CleanName(movementInfo.value.1)
      else CleanName(ExtractMovementInfo(originalFilename));
    WithXmlExtension(newFilename)
  }

  lemma WithXmlExtensionKeepsClean(n: string)
    requires forall i :: 0 <= i < |n| ==> CleanChar(n[i])
    ensures forall i :: 0 <= i < |WithXmlExtension(n)| ==> CleanChar(WithXmlExtension(n)[i])
  {
    var r := WithXmlExtension(n);
    assert forall i :: 0 <= i < 4 ==> CleanChar(".xml"[i]);
    if EndsWith(Lower(n), ".mid") {
      assert forall i :: 0 <= i < |r| ==> if i < |n| - 4 then r[i] == n[i] else r[i] == ".xml"[i - (|n| - 4)];
    } else if !EndsWith(Lower(n), ".xml") {
      assert forall i :: 0 <= i < |r| ==> if i < |n| then r[i] == n[i] else r[i] == ".xml"[i - |n|];
    }
  }

  /**
   * A movement file name ends in `.xml`; derived from the MIDI file name, it holds only characters
   * `clean_name` keeps.
   */
  lemma MovementFileNameProperties(movementInfo: Option<(string, string)>, originalFilename: string)
    ensures EndsWith(Lower(MovementFileName(movementInfo, originalFilename)), ".xml")
    ensures movementInfo.None? ==> forall i :: 0 <= i < |MovementFileName(movementInfo, originalFilename)| ==>
      CleanChar(MovementFileName(movementInfo, originalFilename)[i])
  {
    var n :=
      if movementInfo.Some? then movementInfo.value.0 + " " + CleanName(movementInfo.value.1)
      else CleanName(ExtractMovementInfo(originalFilename));
    WithXmlExtensionProperties(n);
    if movementInfo.None? {
      CleanNameClean(ExtractMovementInfo(originalFilename));
      WithXmlExtensionKeepsClean(n);
    }
  }

  /** A Bourrée loses its accented letter: `clean_name` keeps ASCII letters only. */
  lemma BourreeFileName(filename: string)
    requires filename == "cs3-5bou.mid"
    ensures ExtractMovementInfo(filename) == "5 Bourrée"
    ensures MovementFileName(None, filename) == "5 Bourre.xml"
  {
    BourreeExample(filename);
    BourreeCleaned();
    BourreeWithExtension("5 Bourre");
  }

  lemma BourreeExample(filename: string)
    requires filename == "cs3-5bou.mid"
    ensures ExtractMovementInfo(filename) == "5 Bourrée"
  {
    BourreeParts(filename);
    PrefixedMovement(filename, "cs", "3", "5", "bou");
  }

  lemma BourreeParts(filename: string)
    requires filename == "cs3-5bou.mid"
    ensures filename == "cs" + "3" + "-" + "5" + "bou" + ".mid"
    ensures AllLower("cs") && AllDigits("3") && AllDigits("5") && AllLower("bou")
    ensures "5" + " " + MovementName("bou").GetOr(Capitalize("bou")) == "5 Bourrée"
  {
    BourreeShape(filename);
    BourreeName();
  }

  lemma BourreeShape(filename: string)
    requires filename == "cs3-5bou.mid"
    ensures filename == "cs" + "3" + "-" + "5" + "bou" + ".mid"
  {
  }

  lemma BourreeName()
    ensures "5" + " " + MovementName("bou").GetOr(Capitalize("bou")) == "5 Bourrée"
  {
    LookupEntry(MovementNames, 9);
    BourreeText();
  }

  lemma BourreeText()
    ensures "5" + " " + "Bourrée" == "5 Bourrée"
  {
  }

  lemma BourreeWithExtension(r: string)
    requires r == "5 Bourre"
    ensures WithXmlExtension(r) == "5 Bourre.xml"
  {
    assert r + ".xml" == "5 Bourre.xml";
    assert Lower(r)[4..] == "urre";
  }

  lemma BourreeCleaned()
    ensures CleanName("5 Bourrée") == "5 Bourre"
  {
    var m := "5 Bourrée";
    assert ReplaceChar(m, '/', '_') == m;
    assert !CleanChar(m[7]) && CleanChar(m[8]);
    assert m[..8][..7] == "5 Bourr" && m[..|m| - 1] == m[..8];
    KeepCleanCharsKeepsClean("5 Bourr");
    assert KeepCleanChars(m[..8]) == "5 Bourr";
    assert "5 Bourr" + "e" == "5 Bourre";
    StripStripped("5 Bourre");
  }
}
