/**
 * The naming rules of the two download scripts, `extract_solo.py` and `extract_all.py`: how a
 * downloaded file is named, how its BWV number is found, and which BWV folder it is filed under.
 * The crawling itself (HTTP requests, HTML links, zip archives, file writes) is not modelled; each
 * link and each zip member is an input string.
 */
module Crawl {
  import opened Wrappers
  import opened Strings
  import opened Paths
  import Catalog

  // ---------------------------------------------------------------- clean_name

  /** The characters `[A-Za-z0-9_\- ]` that the crawler's `clean_name` keeps. */
  predicate NameChar(c: char) { IsLetter(c) || IsDigit(c) || c == '_' || c == '-' || c == ' ' }

  /** `re.sub(r'[^A-Za-z0-9_\- ]+', '', s)` */
  function KeepNameChars(s: string): (r: string)
    ensures |r| <= |s|
    ensures forall i :: 0 <= i < |r| ==> NameChar(r[i])
  {
    if s == [] then []
    else KeepNameChars(s[..|s| - 1]) + (if NameChar(s[|s| - 1]) then [s[|s| - 1]] else [])
  }

  lemma {:induction false} KeepNameCharsKeeps(s: string)
    requires forall i :: 0 <= i < |s| ==> NameChar(s[i])
    ensures KeepNameChars(s) == s
  {
    if s != [] {
      KeepNameCharsKeeps(s[..|s| - 1]);
      assert s[..|s| - 1] + [s[|s| - 1]] == s;
    }
  }

  /**
   * `clean_name` of `extract_solo.py`: keep the allowed characters, strip, spaces become underscores.
   * The script defines it but never calls it; its folders are named by `find_bwv` or "Misc".
   */
  function CleanName(text: string): string
  {
    ReplaceChar(Strip(KeepNameChars(text)), ' ', '_')
  }

  /** The characters `clean_name`'s result may hold: `[A-Za-z0-9_\-]`, no space. */
  predicate FolderChar(c: char) { IsLetter(c) || IsDigit(c) || c == '_' || c == '-' }

  lemma CleanNameChars(text: string)
    ensures forall i :: 0 <= i < |CleanName(text)| ==> FolderChar(CleanName(text)[i])
  {
    var kept := KeepNameChars(text);
    var stripped := Strip(kept);
    assert forall i :: 0 <= i < |stripped| ==> NameChar(stripped[i]) by {
      var a := SpanEnd(kept, 0, IsSpace);
      var b := SpanStart(kept, a, |kept|, IsSpace);
      assert stripped == kept[a..b];
    }
  }

  lemma CleanNameIdempotent(text: string)
    ensures CleanName(CleanName(text)) == CleanName(text)
  {
    var r := CleanName(text);
    CleanNameChars(text);
    CleanNameFixed(r);
  }

  /** A name of folder characters only is left as it is by `clean_name`. */
  lemma CleanNameFixed(r: string)
    requires forall i :: 0 <= i < |r| ==> FolderChar(r[i])
    ensures CleanName(r) == r
  {
    assert forall i :: 0 <= i < |r| ==> NameChar(r[i]) && !IsSpace(r[i]);
    KeepNameCharsKeeps(r);
    StripStripped(r);
    assert ReplaceChar(r, ' ', '_') == r;
  }

  // ---------------------------------------------------------------- find_bwv

  predicate ThreeDigitsAt(text: string, q: nat)
  {
    q + 3 <= |text| && IsDigit(text[q]) && IsDigit(text[q + 1]) && IsDigit(text[q + 2])
  }

  /** `\s*` from `i`, followed by `[0-9]{3}`: where the digits start. */
  function DigitsAfterSpaces(text: string, i: nat): (r: Option<nat>)
    requires i <= |text|
    ensures r.Some? ==> i <= r.value && ThreeDigitsAt(text, r.value)
    ensures r.Some? ==> forall k :: i <= k < r.value ==> IsSpace(text[k])
  {
    var q := SpanEnd(text, i, IsSpace);
    if ThreeDigitsAt(text, q) then Some(q) else None
  }

  /**
   * A match of `(BWV)?\s*([0-9]{3,4})([a-zA-Z]?)`, ignoring case, at `p`: where group 2 starts.
   * The optional word is tried first; `\s*` can only succeed by taking the whole run of whitespace.
   */
  function MatchAt(text: string, p: nat): (r: Option<nat>)
    requires p <= |text|
    ensures r.Some? ==> p <= r.value && ThreeDigitsAt(text, r.value)
    ensures r.Some? ==> forall k :: p <= k < r.value ==> !IsDigit(text[k])
  {
    var withWord := if Catalog.BwvWordAt(text, p) then DigitsAfterSpaces(text, p + 3) else None;
    if withWord.Some? then
      assert forall k :: p <= k < p + 3 ==> text[k] == text[p..p + 3][k - p];
      assert forall k :: p <= k < p + 3 ==> ToLower(text[k]) == Lower(text[p..p + 3])[k - p];
      withWord
    else DigitsAfterSpaces(text, p)
  }

  /** `re.search`: the match at the leftmost position from `p` on. */
  function SearchFrom(text: string, p: nat): (r: Option<nat>)
    requires p <= |text|
    ensures r.Some? ==> p <= r.value && ThreeDigitsAt(text, r.value)
    decreases |text| - p
  {
    if MatchAt(text, p).Some? then MatchAt(text, p)
    else if p == |text| then None
    else SearchFrom(text, p + 1)
  }

  /** Group 2, `[0-9]{3,4}` at `q`: four digits when four follow, three otherwise. */
  function Digits(text: string, q: nat): (g: string)
    requires ThreeDigitsAt(text, q)
    ensures |g| == 3 || |g| == 4
    ensures q + |g| <= |text| && g == text[q..q + |g|]
    ensures forall i :: 0 <= i < |g| ==> IsDigit(g[i])
    ensures |g| == 3 ==> q + 3 == |text| || !IsDigit(text[q + 3])
  {
    if q + 4 <= |text| && IsDigit(text[q + 3]) then text[q..q + 4] else text[q..q + 3]
  }

  /** `find_bwv` of `extract_solo.py` */
  function FindBwv(text: string): Option<string>
  {
    match SearchFrom(text, 0)
    case None => None
    case Some(q) => Some("BWV" + Digits(text, q))
  }

  /** The independent description: the leftmost position from `p` on where three digits start. */
  function FirstThreeDigits(text: string, p: nat): (r: Option<nat>)
    ensures r.Some? ==> p <= r.value && ThreeDigitsAt(text, r.value)
    ensures r.Some? ==> forall k :: p <= k < r.value ==> !ThreeDigitsAt(text, k)
    ensures r.None? ==> forall k :: p <= k ==> !ThreeDigitsAt(text, k)
    decreases |text| - p
  {
    if p + 3 > |text| then None
    else if ThreeDigitsAt(text, p) then Some(p)
    else FirstThreeDigits(text, p + 1)
  }

  lemma {:induction false} FirstThreeDigitsExact(text: string, p: nat, q: nat)
    requires p <= q && ThreeDigitsAt(text, q)
    requires forall k :: p <= k < q ==> !ThreeDigitsAt(text, k)
    ensures FirstThreeDigits(text, p) == Some(q)
    decreases q - p
  {
    if p < q {
      FirstThreeDigitsExact(text, p + 1, q);
    }
  }

  /** The search finds exactly the leftmost three digits: the word and the whitespace hold none. */
  lemma {:induction false} SearchFindsFirstDigits(text: string, p: nat)
    requires p <= |text|
    ensures SearchFrom(text, p) == FirstThreeDigits(text, p)
    decreases |text| - p
  {
    match MatchAt(text, p)
    case Some(q) =>
      FirstThreeDigitsExact(text, p, q);
    case None =>
      if p < |text| {
        SearchFindsFirstDigits(text, p + 1);
      }
  }

  /**
   * `find_bwv` returns `None` exactly when the text has no three consecutive digits; otherwise it
   * returns "BWV" and the first three or four digits of the leftmost such run, which starts the
   * run of digits: any "BWV" before it, in any case, and any letter after it are dropped.
   */
  lemma FindBwvLeftmostRun(text: string)
    ensures FindBwv(text).None? <==> forall k :: !ThreeDigitsAt(text, k)
    ensures FindBwv(text).Some? <==> FirstThreeDigits(text, 0).Some?
    ensures FindBwv(text).Some? ==>
      var r := FirstThreeDigits(text, 0).value;
      FindBwv(text) == Some("BWV" + Digits(text, r)) && (r == 0 || !IsDigit(text[r - 1]))
  {
    SearchFindsFirstDigits(text, 0);
    if FindBwv(text).Some? {
      var r := FirstThreeDigits(text, 0).value;
      if r > 0 {
        assert !ThreeDigitsAt(text, r - 1);
      }
    }
  }

  /** A BWV number as `find_bwv` writes it: "BWV" and three or four digits. */
  predicate BwvNumber(s: string)
  {
    (|s| == 6 || |s| == 7) && s[..3] == "BWV" && forall i :: 3 <= i < |s| ==> IsDigit(s[i])
  }

  lemma FindBwvNumber(text: string)
    ensures FindBwv(text).Some? ==> BwvNumber(FindBwv(text).value)
  {
  }

  /** "bwv 1007": the word in any case, then whitespace. */
  lemma FindBwvSpacedWord(text: string)
    requires text == "bwv 1007"
    ensures FindBwv(text) == Some("BWV1007")
  {
    assert ThreeDigitsAt(text, 4);
    FirstThreeDigitsExact(text, 0, 4);
    FindBwvLeftmostRun(text);
    assert "BWV" + text[4..8] == "BWV1007";
  }

  /** "BWV1007a" and "BWV1007b" both give "BWV1007": the letter after the digits is dropped. */
  lemma FindBwvDropsLetter(text: string, letter: char)
    requires letter == 'a' || letter == 'b'
    requires text == "BWV1007" + [letter]
    ensures FindBwv(text) == Some("BWV1007")
  {
    assert ThreeDigitsAt(text, 3);
    FirstThreeDigitsExact(text, 0, 3);
    FindBwvLeftmostRun(text);
    assert "BWV" + text[3..7] == "BWV1007";
  }

  /** A bare "1007a" gives "BWV1007" too. */
  lemma FindBwvBareDigits(text: string)
    requires text == "1007a"
    ensures FindBwv(text) == Some("BWV1007")
  {
    assert ThreeDigitsAt(text, 0);
    FindBwvLeftmostRun(text);
    assert "BWV" + text[0..4] == "BWV1007";
  }

  /** `find_bwv` of `extract_all.py`: empty or missing text gives `None`, anything else the same search. */
  function FindBwvOrNone(text: Option<string>): Option<string>
  {
    if text.None? || text.value == [] then None else FindBwv(text.value)
  }

  /** The guard changes nothing for a string: the search finds nothing in an empty one either. */
  lemma FindBwvScriptsAgree(text: string)
    ensures FindBwvOrNone(Some(text)) == FindBwv(text)
    ensures FindBwvOrNone(None).None?
  {
    if text == [] {
      FindBwvLeftmostRun(text);
    }
  }

  // ---------------------------------------------------------------- where a download goes

  /** `os.path.basename(href).replace(' ', '_')`: the name a download is saved under. */
  function SavedName(href: string): (r: string)
    ensures |r| == |Basename(href)|
    ensures forall i :: 0 <= i < |r| ==> r[i] != ' ' && r[i] != '/'
  {
    ReplaceChar(Basename(href), ' ', '_')
  }

  /** What a link of a MIDI page is: a MIDI file, a zip archive, or neither. */
  datatype Link =
    | MidiLink(name: string, folder: string)
    | ZipLink(name: string, folder: string)
    | OtherLink

  /**
   * The link handling of `extract_solo.py`: the `href` is stripped and classified by its lower-cased
   * ending; a MIDI file goes to its own BWV folder, and a zip's folder is the default of its members,
   * "Misc" when the name has no BWV number.
   */
  function SoloLink(href: string): Link
  {
    var h := Strip(href);
    if EndsWith(Lower(h), ".mid") then MidiLink(SavedName(h), FindBwv(SavedName(h)).GetOr("Misc"))
    else if EndsWith(Lower(h), ".zip") then ZipLink(SavedName(h), FindBwv(SavedName(h)).GetOr("Misc"))
    else OtherLink
  }

  /** The link handling of `extract_all.py`, with its own `find_bwv` and `if not bwv` fallbacks. */
  function AllLink(href: string): Link
  {
    var h := Strip(href);
    var name := SavedName(h);
    var bwv := FindBwvOrNone(Some(name));
    var folder := if bwv.None? then "Misc" else bwv.value;
    if EndsWith(Lower(h), ".mid") then MidiLink(name, folder)
    else if EndsWith(Lower(h), ".zip") then ZipLink(name, folder)
    else OtherLink
  }

  /** The folder and name of a zip member, when it is a MIDI file; `zipFolder` is the archive's folder. */
  function SoloMember(zipFolder: string, member: string): Option<(string, string)>
  {
    if EndsWith(Lower(member), ".mid") then
      Some((FindBwv(SavedName(member)).GetOr(zipFolder), SavedName(member)))
    else None
  }

  /** `extract_all.py` files zip members by the same rule. */
  function AllMember(zipFolder: string, member: string): Option<(string, string)>
  {
    if EndsWith(Lower(member), ".mid") then
      Some((FindBwvOrNone(Some(SavedName(member))).GetOr(zipFolder), SavedName(member)))
    else None
  }

  /** Both scripts file every link and every zip member alike. */
  lemma LinkRulesAgree(href: string, zipFolder: string, member: string)
    ensures AllLink(href) == SoloLink(href)
    ensures AllMember(zipFolder, member) == SoloMember(zipFolder, member)
  {
    FindBwvScriptsAgree(SavedName(Strip(href)));
    FindBwvScriptsAgree(SavedName(member));
  }

  /** A folder name `find_bwv` or the fallback gives: a BWV number or "Misc". */
  predicate BwvFolder(s: string) { BwvNumber(s) || s == "Misc" }

  /**
   * A MIDI link is filed under its BWV number, under "Misc" exactly when it has none; a zip's folder
   * is chosen the same way; the saved name has no space and no slash.
   */
  lemma SoloLinkFolder(href: string)
    ensures SoloLink(href).MidiLink? || SoloLink(href).ZipLink? ==>
      var l := SoloLink(href);
      && BwvFolder(l.folder)
      && (l.folder == "Misc" <==> FindBwv(l.name).None?)
      && (forall i :: 0 <= i < |l.name| ==> l.name[i] != ' ' && l.name[i] != '/')
  {
    FindBwvNumber(SavedName(Strip(href)));
  }

  /** A zip member uses its own BWV number when it has one, and the archive's folder otherwise. */
  lemma SoloMemberFolder(zipHref: string, member: string)
    requires SoloLink(zipHref).ZipLink?
    ensures var m := SoloMember(SoloLink(zipHref).folder, member);
      && (m.Some? <==> EndsWith(Lower(member), ".mid"))
      && (m.Some? ==> m.value.1 == SavedName(member))
      && (m.Some? && FindBwv(SavedName(member)).Some? ==> m.value.0 == FindBwv(SavedName(member)).value)
      && (m.Some? && FindBwv(SavedName(member)).None? ==> m.value.0 == SoloLink(zipHref).folder)
      && (m.Some? ==> BwvFolder(m.value.0))
  {
    FindBwvNumber(SavedName(member));
    SoloLinkFolder(zipHref);
  }
}
