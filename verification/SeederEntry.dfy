/**
 * The seeder's create_entry: the columns of a new Entry derived from a
 * theme line's version capture, episodes capture and (trimmed) notes.
 */
module SeederEntry {

  import opened Options
  import opened Strings

  /**
   * The attributes create_entry assigns. A flag that is false was never
   * assigned, so the column default applies; the source only ever sets
   * the flags to true.
   */
  datatype EntryFields = EntryFields(
    version: Option<nat>,
    episodes: string,
    notes: string,
    nsfw: bool,
    spoiler: bool)

  /** The characters PCRE's `\s` matches: space, tab, LF, VT, FF and CR. */
  predicate IsRegexSpace(c: char) {
    c == ' ' || c == '\t' || c == '\n' || c == '\U{B}' || c == '\U{C}' || c == '\r'
  }

  /** `s` without its prefix `p`, or `s` itself when it does not start with `p`. */
  function DropPrefix(s: string, p: string): string {
    if |p| <= |s| && s[..|p|] == p then s[|p|..] else s
  }

  /** The optional middle part of the pattern: empty, or a comma and one whitespace character. */
  predicate IsSeparator(t: string) {
    t == "" || (|t| == 2 && t[0] == ',' && IsRegexSpace(t[1]))
  }

  /**
   * Greedy whole-string match against `(?:NSFW)?(?:,\s)?(?:Spoiler)?`.
   * Greedy choice never has to be undone: skipping "NSFW" or the comma
   * when present leaves a string the later parts cannot match.
   */
  predicate FlagOnly(s: string) {
    var a := DropPrefix(s, "NSFW");
    var b := if |a| >= 2 && a[0] == ',' && IsRegexSpace(a[1]) then a[2..] else a;
    b == "" || b == "Spoiler"
  }

  /** Reference reading of the pattern: some split into its three optional parts. */
  ghost predicate FlagOnlySplit(s: string) {
    exists i, j :: 0 <= i <= j <= |s| && (s[..i] == "" || s[..i] == "NSFW")
      && IsSeparator(s[i..j]) && (s[j..] == "" || s[j..] == "Spoiler")
  }

  lemma FlagOnlyIff(s: string)
    ensures FlagOnly(s) <==> FlagOnlySplit(s)
  {
    if FlagOnly(s) {
      FlagOnlyHasSplit(s);
    }
    if FlagOnlySplit(s) {
      var i, j :| 0 <= i <= j <= |s| && (s[..i] == "" || s[..i] == "NSFW")
        && IsSeparator(s[i..j]) && (s[j..] == "" || s[j..] == "Spoiler");
      SplitIsGreedy(s, i, j);
    }
  }

  /** The greedy match exhibits a split. */
  lemma FlagOnlyHasSplit(s: string)
    requires FlagOnly(s)
    ensures FlagOnlySplit(s)
  {
    var a := DropPrefix(s, "NSFW");
    var i := |s| - |a|;
    assert a == s[i..];
    var b := if |a| >= 2 && a[0] == ',' && IsRegexSpace(a[1]) then a[2..] else a;
    var j := |s| - |b|;
    assert b == s[j..];
    assert s[i..j] == a[..|a| - |b|];
    assert 0 <= i <= j <= |s| && (s[..i] == "" || s[..i] == "NSFW")
      && IsSeparator(s[i..j]) && (s[j..] == "" || s[j..] == "Spoiler");
  }

  /** Any split is the one the greedy match finds, so the greedy match succeeds. */
  lemma SplitIsGreedy(s: string, i: int, j: int)
    requires 0 <= i <= j <= |s| && (s[..i] == "" || s[..i] == "NSFW")
    requires IsSeparator(s[i..j]) && (s[j..] == "" || s[j..] == "Spoiler")
    ensures FlagOnly(s)
  {
    var a := DropPrefix(s, "NSFW");
    assert a == s[i..] by {
      if s[..i] == "NSFW" {
        assert i == 4;
      } else if i < |s| {
        assert i == 0;
        assert s[0] == ',' || s[0] == 'S';
        assert |s| < 4 || s[..4][0] != 'N';
      }
    }
    var b := if |a| >= 2 && a[0] == ',' && IsRegexSpace(a[1]) then a[2..] else a;
    assert b == s[j..] by {
      if j > i {
        assert s[i..j][0] == s[i];
      } else if j < |s| {
        assert s[j..][0] == 'S';
      }
    }
  }

  /**
   * preg_replace of that pattern by "": the pattern is anchored at the
   * start and, lacking the D modifier, its `$` also matches just before a
   * final newline, which then survives the replacement.
   */
  function StripFlagOnly(notes: string): string {
    if FlagOnly(notes) then ""
    else if |notes| > 0 && notes[|notes| - 1] == '\n' && FlagOnly(notes[..|notes| - 1]) then "\n"
    else notes
  }

  /** Notes are trimmed before they get here: then they are cleared exactly when the whole of them matches. */
  lemma StripTrimmedNotes(notes: string)
    ensures Trim(notes) == notes && FlagOnlySplit(notes) ==> StripFlagOnly(notes) == ""
    ensures Trim(notes) == notes && !FlagOnlySplit(notes) ==> StripFlagOnly(notes) == notes && notes != ""
  {
    FlagOnlyIff(notes);
    if notes == "" {
      assert FlagOnly(notes);
    }
    if Trim(notes) == notes && |notes| > 0 {
      assert notes[|notes| - 1] != '\n';
    }
  }

  /** The window of `notes` at `i` spells `word` in some mix of letter cases. */
  predicate UpperWindow(notes: string, word: string, i: int) {
    0 <= i && i + |word| <= |notes| && Upper(notes[i..i + |word|]) == word
  }

  /** `word` occurs in `notes` in some mix of letter cases. */
  ghost predicate MentionsIgnoringCase(notes: string, word: string) {
    exists i :: UpperWindow(notes, word, i)
  }

  /** Str::contains(strtoupper(notes), word) finds `word` in any mix of cases. */
  lemma UpperContainsIff(notes: string, word: string)
    requires |word| > 0
    ensures Contains(Upper(notes), word) <==> MentionsIgnoringCase(notes, word)
  {
    ContainsIff(Upper(notes), word);
    if Contains(Upper(notes), word) {
      var i :| OccursAt(Upper(notes), word, i);
      UpperWindowAt(notes, word, i);
    }
    if MentionsIgnoringCase(notes, word) {
      var i :| UpperWindow(notes, word, i);
      UpperWindowAt(notes, word, i);
    }
  }

  /** A window spells `word` in the upper-cased notes exactly when it spells it in some mix of cases. */
  lemma UpperWindowAt(notes: string, word: string, i: int)
    ensures OccursAt(Upper(notes), word, i) <==> UpperWindow(notes, word, i)
  {
    if 0 <= i && i + |word| <= |notes| {
      UpperSlice(notes, i, i + |word|);
    }
  }

  /** create_entry(version, episodes, notes): the Entry columns it assigns; the caller passes trimmed notes. */
  function DeriveEntry(version: string, episodes: string, notes: string): (e: EntryFields)
    ensures e.version == Numeric(version)
    ensures e.episodes == episodes
    ensures e.nsfw <==> MentionsIgnoringCase(notes, "NSFW")
    ensures e.spoiler <==> MentionsIgnoringCase(notes, "SPOILER")
    ensures Trim(notes) == notes ==> (e.notes == "" <==> FlagOnlySplit(notes))
    ensures Trim(notes) == notes && e.notes != "" ==> e.notes == notes
  {
    UpperContainsIff(notes, "NSFW");
    UpperContainsIff(notes, "SPOILER");
    StripTrimmedNotes(notes);
    EntryFields(
      Numeric(version),
      episodes,
      StripFlagOnly(notes),
      Contains(Upper(notes), "NSFW"),
      Contains(Upper(notes), "SPOILER"))
  }

  /** Flags come from the notes in any case, while clearing the notes is case-sensitive. */
  lemma LowerCaseFlagKept()
    ensures Trim("nsfw") == "nsfw"
    ensures var e := DeriveEntry("", "", "nsfw"); e.nsfw && e.notes == "nsfw"
  {
    var n := "nsfw";
    TrimmedIsFixed(n);
    NsfwLowerMentioned();
    NsfwLowerNotFlagOnly();
    var e := DeriveEntry("", "", n);
    assert e.nsfw;
    assert e.notes != "";
  }

  lemma NsfwLowerMentioned()
    ensures MentionsIgnoringCase("nsfw", "NSFW")
  {
    var n := "nsfw";
    assert n[0..4] == n;
    assert Upper(n) == "NSFW";
    assert UpperWindow(n, "NSFW", 0);
  }

  lemma NsfwLowerNotFlagOnly()
    ensures !FlagOnlySplit("nsfw")
  {
    var n := "nsfw";
    assert n[..4][0] == 'n';
    assert DropPrefix(n, "NSFW") == n;
    assert !FlagOnly(n);
    FlagOnlyIff(n);
  }
}
