/**
 * The import of anime themes from the wiki's year pages: each page is read
 * line by line while a cursor remembers the current anime, group, theme
 * and entry. Headings pick the anime, synonym lines add synonyms, group
 * lines set the group, theme lines create songs, themes and entries, and
 * extra video lines attach further videos to the current entry.
 *
 * Lines arrive already classified by the page's line patterns, with their
 * captures html-decoded. Database writes are emitted as Actions; rows the
 * import creates are named by fresh handles drawn from a counter.
 */
module AnimeThemeSeeder {

  import opened Options
  import opened Strings
  import opened SeederEntry

  /** An existing anime row, found by name. */
  type AnimeId = nat

  /** A song, theme or entry row created by the import. */
  type Handle = nat

  datatype ThemeType = OP | ED

  /** One line of a year page, with the captures of the pattern it matched. */
  datatype Line =
    | Heading(name: string, matches: seq<AnimeId>)  // `###[name](url)`; matches: anime rows with that name
    | Synonyms(text: string)                        // `**a, b, c**`
    | GroupName(text: string)                       // words and whitespace only
    | ThemeRow(themeType: ThemeType, sequence: string, version: string,
               title: string, songBy: string, basename: string, episodes: string, notes: string)
    | VideoRow(basename: string)                    // `||[Webm](…/video/basename)||`
    | Other

  /** What the import is currently filling in; NULL is None. */
  datatype Cursor = Cursor(anime: Option<AnimeId>, group: Option<string>, theme: Option<Handle>, entry: Option<Handle>)

  /** The all-NULL cursor each year page starts from. */
  const Start: Cursor := Cursor(None, None, None, None)

  /** The database writes of the import. */
  datatype Action =
    | CreateSynonym(anime: AnimeId, text: string)
    | CreateSong(song: Handle, title: string, songBy: string)
    | CreateTheme(theme: Handle, anime: AnimeId, song: Handle, group: Option<string>,
                  themeType: ThemeType, sequence: Option<nat>)
    | CreateEntry(entry: Handle, theme: Handle, fields: EntryFields)
    | AttachVideo(entry: Handle, basename: string)

  /** The cursor and the next unused row handle. */
  datatype State = State(cursor: Cursor, next: Handle)

  /** The state after some lines and the writes they caused, in order. */
  datatype Outcome = Outcome(state: State, actions: seq<Action>)

  // ---------------------------------------------------------------------
  // Per-line transitions
  // ---------------------------------------------------------------------

  /** A heading keeps the anime only on a unique name match; group, theme and entry always reset. */
  function HeadingCursor(matches: seq<AnimeId>): Cursor {
    if |matches| == 1 then Cursor(Some(matches[0]), None, None, None) else Start
  }

  /** One synonym row per piece of the comma-separated list. */
  function SynonymActions(anime: AnimeId, names: seq<string>): (r: seq<Action>) {
    seq(|names|, i requires 0 <= i < |names| => CreateSynonym(anime, names[i]))
  }

  /**
   * A group line: a non-blank trimmed name becomes the group and closes
   * the current theme and entry; a blank one clears the group only.
   */
  function GroupCursor(c: Cursor, text: string): (r: Cursor)
    ensures r.anime == c.anime
    ensures Trim(text) != "" ==> r.group == Some(Trim(text)) && r.theme.None? && r.entry.None?
    ensures Trim(text) == "" ==> r.group.None? && r.theme == c.theme && r.entry == c.entry
  {
    var name := Trim(text);
    if name == "" then c.(group := None) else c.(group := Some(name), theme := None, entry := None)
  }

  /**
   * The group line as written: the blank test is applied to the trimmed
   * string object rather than to its text, and PHP's empty() is false
   * for every object, so the blank branch is never taken.
   */
  function GroupCursorAsWritten(c: Cursor, text: string): (r: Cursor)
    ensures r.anime == c.anime && r.group.Some? && r.group.value == Trim(text)
    ensures r.theme.None? && r.entry.None?
  {
    c.(group := Some(Trim(text)), theme := None, entry := None)
  }

  /** A blank line of a CRLF page ("\r") is a group line; as written it closes the current theme. */
  lemma BlankGroupLineCounterexample()
    ensures Trim("\r") == ""
    ensures var c := Cursor(Some(7), Some("Season 1"), Some(1), Some(2));
      && GroupCursorAsWritten(c, "\r") == Cursor(Some(7), Some(""), None, None)
      && GroupCursor(c, "\r") == Cursor(Some(7), None, Some(1), Some(2))
  {
    assert TrimStart("\r") == "";
  }

  /**
   * Which reading of the group line a run follows: the source as written,
   * or the evidently intended one.
   */
  datatype GroupRule = AsWritten | Intended

  function GroupStep(rule: GroupRule, c: Cursor, text: string): Cursor {
    match rule
    case AsWritten => GroupCursorAsWritten(c, text)
    case Intended => GroupCursor(c, text)
  }

  /** The entry columns a theme line carries, from its version, episodes and trimmed notes. */
  function EntryOf(line: Line): EntryFields
    requires line.ThemeRow?
  {
    DeriveEntry(line.version, line.episodes, Trim(line.notes))
  }

  /**
   * A theme line starting a new theme: a song, a theme of the current
   * anime and group pointing at that song, a first entry of that theme and
   * the entry's video, all under fresh handles; the cursor moves to the new
   * theme and entry.
   */
  function NewTheme(st: State, line: Line, fields: EntryFields): (o: Outcome)
    requires line.ThemeRow? && st.cursor.anime.Some?
    ensures |o.actions| == 4
    ensures o.actions[0].CreateSong? && o.actions[1].CreateTheme? && o.actions[2].CreateEntry? && o.actions[3].AttachVideo?
    ensures o.actions[1].song == o.actions[0].song
    ensures o.actions[2].theme == o.actions[1].theme
    ensures o.actions[3].entry == o.actions[2].entry
    ensures st.next <= o.actions[0].song < o.actions[1].theme < o.actions[2].entry < o.state.next
    ensures o.actions[0].title == line.title && o.actions[0].songBy == line.songBy
    ensures o.actions[1].anime == st.cursor.anime.value && o.actions[1].group == st.cursor.group
    ensures o.actions[1].themeType == line.themeType && o.actions[1].sequence == Numeric(line.sequence)
    ensures o.actions[2].fields == fields
    ensures o.actions[3].basename == line.basename
    ensures o.state.cursor == st.cursor.(theme := Some(o.actions[1].theme), entry := Some(o.actions[2].entry))
  {
    var c := st.cursor;
    var song := st.next;
    var theme := st.next + 1;
    var entry := st.next + 2;
    Outcome(
      State(c.(theme := Some(theme), entry := Some(entry)), st.next + 3),
      [ CreateSong(song, line.title, line.songBy),
        CreateTheme(theme, c.anime.value, song, c.group, line.themeType, Numeric(line.sequence)),
        CreateEntry(entry, theme, fields),
        AttachVideo(entry, line.basename) ])
  }

  /**
   * A theme line adding a later version: a new entry of the current theme
   * under a fresh handle, and that entry's video; the cursor moves to the
   * new entry.
   */
  function ExtraEntry(st: State, line: Line, fields: EntryFields): (o: Outcome)
    requires line.ThemeRow? && st.cursor.theme.Some?
    ensures |o.actions| == 2
    ensures o.actions[0].CreateEntry? && o.actions[1].AttachVideo?
    ensures o.actions[0].theme == st.cursor.theme.value
    ensures o.actions[1].entry == o.actions[0].entry
    ensures st.next <= o.actions[0].entry < o.state.next
    ensures o.actions[0].fields == fields
    ensures o.actions[1].basename == line.basename
    ensures o.state.cursor == st.cursor.(entry := Some(o.actions[0].entry))
  {
    var entry := st.next;
    Outcome(
      State(st.cursor.(entry := Some(entry)), st.next + 1),
      [ CreateEntry(entry, st.cursor.theme.value, fields),
        AttachVideo(entry, line.basename) ])
  }

  /**
   * A theme line under a current anime. Version absent or 1 starts a new
   * theme; a later version adds an entry to the current theme, if any;
   * version 0 does neither. The two tests run one after the other.
   */
  function ThemeStep(st: State, line: Line, fields: EntryFields): (o: Outcome)
    requires line.ThemeRow? && st.cursor.anime.Some?
    ensures var v := Numeric(line.version);
      (v.None? || v.value == 1) ==> o == NewTheme(st, line, fields)
    ensures var v := Numeric(line.version);
      (v.Some? && v.value > 1 && st.cursor.theme.Some?) ==> o == ExtraEntry(st, line, fields)
    ensures var v := Numeric(line.version);
      (v.Some? && (v.value == 0 || (v.value > 1 && st.cursor.theme.None?))) ==> o == Outcome(st, [])
  {
    var v := Numeric(line.version);
    var first := if v.None? || v.value == 1 then NewTheme(st, line, fields) else Outcome(st, []);
    var second :=
      if first.state.cursor.theme.Some? && v.Some? && v.value > 1 then ExtraEntry(first.state, line, fields)
      else Outcome(first.state, []);
    assert first.actions + [] == first.actions;
    assert [] + second.actions == second.actions;
    Outcome(second.state, first.actions + second.actions)
  }

  /**
   * Under a current anime, a theme line writes a song, a theme, an entry
   * and a video exactly when its version is absent or 1, and an entry and
   * a video exactly when a theme is current and the version exceeds 1;
   * otherwise (version 0, or a later version with no theme) it writes
   * nothing and changes nothing.
   */
  lemma ThemeLineCases(st: State, line: Line, fields: EntryFields)
    requires line.ThemeRow? && st.cursor.anime.Some?
    ensures var o := ThemeStep(st, line, fields); var v := Numeric(line.version);
      && (|o.actions| == 4 <==> v.None? || v.value == 1)
      && (|o.actions| == 2 <==> v.Some? && v.value > 1 && st.cursor.theme.Some?)
      && (o.actions == [] <==> v.Some? && v.value != 1 && (v.value == 0 || st.cursor.theme.None?))
      && (o.actions == [] ==> o.state == st)
  {
  }

  /** One line of a year page, with group lines read by `rule`. */
  function Step(rule: GroupRule, st: State, line: Line): (o: Outcome)
    ensures line.Heading? ==>
      && o.actions == [] && o.state.next == st.next
      && o.state.cursor.group.None? && o.state.cursor.theme.None? && o.state.cursor.entry.None?
      && (o.state.cursor.anime.Some? <==> |line.matches| == 1)
      && (o.state.cursor.anime.Some? ==> o.state.cursor.anime.value == line.matches[0])
    ensures (line.Synonyms? || line.GroupName? || line.ThemeRow?) && st.cursor.anime.None? ==>
      o == Outcome(st, [])
    ensures line.Synonyms? && st.cursor.anime.Some? ==>
      o.state == st && o.actions == SynonymActions(st.cursor.anime.value, Explode(line.text, ", "))
    ensures line.GroupName? && st.cursor.anime.Some? ==>
      o.actions == [] && o.state == State(GroupStep(rule, st.cursor, line.text), st.next)
    ensures line.ThemeRow? && st.cursor.anime.Some? ==> o == ThemeStep(st, line, EntryOf(line))
    ensures line.VideoRow? ==>
      o.state == st && o.actions == (if st.cursor.entry.None? then [] else [AttachVideo(st.cursor.entry.value, line.basename)])
    ensures line.Other? ==> o == Outcome(st, [])
  {
    var c := st.cursor;
    match line
    case Heading(_, matches) => Outcome(State(HeadingCursor(matches), st.next), [])
    case Synonyms(text) =>
      if c.anime.None? then Outcome(st, [])
      else Outcome(st, SynonymActions(c.anime.value, Explode(text, ", ")))
    case GroupName(text) =>
      if c.anime.None? then Outcome(st, [])
      else Outcome(State(GroupStep(rule, c, text), st.next), [])
    case ThemeRow(_, _, _, _, _, _, _, _) =>
      if c.anime.None? then Outcome(st, []) else ThemeStep(st, line, EntryOf(line))
    case VideoRow(basename) =>
      if c.entry.None? then Outcome(st, []) else Outcome(st, [AttachVideo(c.entry.value, basename)])
    case Other => Outcome(st, [])
  }

  /**
   * As written, a blank group line (every blank line of a CRLF page)
   * between a theme and its later version loses that version: the theme is
   * closed, so the later version writes nothing.
   */
  lemma BlankLineLosesLaterVersion(st: State, text: string, line: Line)
    requires st.cursor.anime.Some? && st.cursor.theme.Some? && Trim(text) == ""
    requires line.ThemeRow? && Numeric(line.version).Some? && Numeric(line.version).value > 1
    ensures RunLines(AsWritten, st, [GroupName(text), line]).actions == []
  {
    RunTwoLines(AsWritten, st, GroupName(text), line);
    var g := Step(AsWritten, st, GroupName(text));
    assert g.actions == [] && g.state.cursor.anime.Some? && g.state.cursor.theme.None?;
    ThemeLineCases(g.state, line, EntryOf(line));
  }

  /** Under the intended rule the same blank line keeps the theme, and the later version adds its entry and video. */
  lemma BlankLineKeepsLaterVersion(st: State, text: string, line: Line)
    requires st.cursor.anime.Some? && st.cursor.theme.Some? && Trim(text) == ""
    requires line.ThemeRow? && Numeric(line.version).Some? && Numeric(line.version).value > 1
    ensures |RunLines(Intended, st, [GroupName(text), line]).actions| == 2
  {
    RunTwoLines(Intended, st, GroupName(text), line);
    var g := Step(Intended, st, GroupName(text));
    assert g.actions == [] && g.state.cursor.anime.Some? && g.state.cursor.theme.Some?;
    ThemeLineCases(g.state, line, EntryOf(line));
  }

  lemma RunTwoLines(rule: GroupRule, st: State, a: Line, b: Line)
    ensures var o := Step(rule, st, a);
      RunLines(rule, st, [a, b]).actions == o.actions + Step(rule, o.state, b).actions
  {
    var o := Step(rule, st, a);
    assert [a, b][1..] == [b];
    RunOneLine(rule, o.state, b);
  }

  lemma RunOneLine(rule: GroupRule, st: State, b: Line)
    ensures RunLines(rule, st, [b]).actions == Step(rule, st, b).actions
  {
    assert [b][1..] == [];
    assert Step(rule, st, b).actions + [] == Step(rule, st, b).actions;
  }

  // ---------------------------------------------------------------------
  // Pages and the whole run
  // ---------------------------------------------------------------------

  /** The lines of one page, in order. */
  function RunLines(rule: GroupRule, st: State, lines: seq<Line>): Outcome
    decreases |lines|
  {
    if |lines| == 0 then Outcome(st, [])
    else
      var o := Step(rule, st, lines[0]);
      var rest := RunLines(rule, o.state, lines[1..]);
      Outcome(rest.state, o.actions + rest.actions)
  }

  /** All year pages in order; each starts from the all-NULL cursor, only row handles carry over. */
  function Run(rule: GroupRule, pages: seq<seq<Line>>, next: Handle): Outcome
    decreases |pages|
  {
    if |pages| == 0 then Outcome(State(Start, next), [])
    else
      var o := RunLines(rule, State(Start, next), pages[0]);
      var rest := Run(rule, pages[1..], o.state.next);
      Outcome(rest.state, o.actions + rest.actions)
  }

  /** Running pages one batch after another is running them all: no cursor survives a page boundary. */
  lemma {:induction false} RunAppend(rule: GroupRule, p1: seq<seq<Line>>, p2: seq<seq<Line>>, next: Handle)
    ensures var a := Run(rule, p1, next); var b := Run(rule, p2, a.state.next);
      Run(rule, p1 + p2, next) == Outcome(b.state, a.actions + b.actions)
    decreases |p1|
  {
    if |p1| == 0 {
      assert p1 + p2 == p2;
    } else {
      assert (p1 + p2)[1..] == p1[1..] + p2;
      var o := RunLines(rule, State(Start, next), p1[0]);
      RunAppend(rule, p1[1..], p2, o.state.next);
    }
  }

  /** Each page's writes are those of the page run alone from the all-NULL cursor. */
  lemma PageStartsFromScratch(rule: GroupRule, done: seq<seq<Line>>, page: seq<Line>, next: Handle)
    ensures var before := Run(rule, done, next);
      Run(rule, done + [page], next).actions
        == before.actions + RunLines(rule, State(Start, before.state.next), page).actions
  {
    RunAppend(rule, done, [page], next);
    var before := Run(rule, done, next);
    var o := RunLines(rule, State(Start, before.state.next), page);
    assert [page][1..] == [];
    assert Run(rule, [page], before.state.next).actions == o.actions + [];
  }

  // ---------------------------------------------------------------------
  // Referential soundness of the writes
  // ---------------------------------------------------------------------

  /** The kinds of row the import creates. */
  datatype Kind = SongKind | ThemeKind | EntryKind

  /** The rows the import has created so far, with their kinds. */
  type Ledger = map<Handle, Kind>

  /**
   * Performs one write against the ledger; None when it would refer to a
   * row not created yet (a theme's song, an entry's theme, a video's
   * entry) or reuse a handle.
   */
  function Apply(l: Ledger, a: Action): Option<Ledger> {
    match a
    case CreateSynonym(_, _) => Some(l)
    case CreateSong(s, _, _) =>
      if s in l then None else Some(l[s := SongKind])
    case CreateTheme(t, _, s, _, _, _) =>
      if s !in l || l[s] != SongKind || t in l then None else Some(l[t := ThemeKind])
    case CreateEntry(e, t, _) =>
      if t !in l || l[t] != ThemeKind || e in l then None else Some(l[e := EntryKind])
    case AttachVideo(e, _) =>
      if e in l && l[e] == EntryKind then Some(l) else None
  }

  function Replay(l: Ledger, log: seq<Action>): Option<Ledger>
    decreases |log|
  {
    if |log| == 0 then Some(l)
    else
      match Apply(l, log[0])
      case None => None
      case Some(l') => Replay(l', log[1..])
  }

  lemma {:induction false} ReplayAppend(l: Ledger, a: seq<Action>, b: seq<Action>)
    ensures Replay(l, a + b) == (match Replay(l, a) case None => None case Some(l') => Replay(l', b))
    decreases |a|
  {
    if |a| == 0 {
      assert a + b == b;
    } else {
      assert (a + b)[1..] == a[1..] + b;
      match Apply(l, a[0])
      case None =>
      case Some(l') => ReplayAppend(l', a[1..], b);
    }
  }

  lemma {:induction false} ReplaySynonyms(l: Ledger, anime: AnimeId, names: seq<string>)
    ensures Replay(l, SynonymActions(anime, names)) == Some(l)
    decreases |names|
  {
    if |names| > 0 {
      assert SynonymActions(anime, names)[1..] == SynonymActions(anime, names[1..]);
      ReplaySynonyms(l, anime, names[1..]);
    }
  }

  /**
   * The import's invariant: every handle in the ledger is below the
   * counter, the cursor's theme and entry are rows of that kind, an entry
   * implies a theme and a theme implies an anime.
   */
  ghost predicate Inv(st: State, l: Ledger) {
    && (forall h :: h in l ==> h < st.next)
    && (st.cursor.theme.Some? ==> st.cursor.theme.value in l && l[st.cursor.theme.value] == ThemeKind)
    && (st.cursor.entry.Some? ==> st.cursor.entry.value in l && l[st.cursor.entry.value] == EntryKind)
    && (st.cursor.entry.Some? ==> st.cursor.theme.Some?)
    && (st.cursor.theme.Some? ==> st.cursor.anime.Some?)
  }

  lemma NewThemeSound(st: State, l: Ledger, line: Line, fields: EntryFields)
    requires line.ThemeRow? && st.cursor.anime.Some? && Inv(st, l)
    ensures var o := NewTheme(st, line, fields);
      Replay(l, o.actions).Some? && Inv(o.state, Replay(l, o.actions).value)
  {
    var o := NewTheme(st, line, fields);
    var log := o.actions;
    var s, t, e := log[0].song, log[1].theme, log[2].entry;
    assert s !in l && t !in l && e !in l;
    var l1 := l[s := SongKind];
    var l2 := l1[t := ThemeKind];
    var l3 := l2[e := EntryKind];
    assert Apply(l2, log[2]) == Some(l3) && Apply(l3, log[3]) == Some(l3);
    assert Replay(l2, log[2..]) == Some(l3) by {
      assert log[2..][1..] == log[3..];
      assert Replay(l3, log[3..]) == Some(l3) by { assert log[3..][1..] == []; }
    }
    assert Apply(l, log[0]) == Some(l1) && Apply(l1, log[1]) == Some(l2);
    assert log[1..][1..] == log[2..];
  }

  lemma ExtraEntrySound(st: State, l: Ledger, line: Line, fields: EntryFields)
    requires line.ThemeRow? && st.cursor.theme.Some? && Inv(st, l)
    ensures var o := ExtraEntry(st, line, fields);
      Replay(l, o.actions).Some? && Inv(o.state, Replay(l, o.actions).value)
  {
    var o := ExtraEntry(st, line, fields);
    var e := o.actions[0].entry;
    var l1 := l[e := EntryKind];
    assert e !in l;
    assert Apply(l, o.actions[0]) == Some(l1);
    assert Replay(l1, o.actions[1..]) == Some(l1) by { assert o.actions[1..][1..] == []; }
  }

  lemma StepSound(rule: GroupRule, st: State, l: Ledger, line: Line)
    requires Inv(st, l)
    ensures var o := Step(rule, st, line);
      Replay(l, o.actions).Some? && Inv(o.state, Replay(l, o.actions).value)
  {
    var c := st.cursor;
    match line
    case Heading(_, _) =>
    case Synonyms(text) =>
      if c.anime.Some? {
        ReplaySynonyms(l, c.anime.value, Explode(text, ", "));
      }
    case GroupName(_) =>
    case ThemeRow(_, _, _, _, _, _, _, _) =>
      if c.anime.Some? {
        var v := Numeric(line.version);
        if v.None? || v.value == 1 {
          NewThemeSound(st, l, line, EntryOf(line));
        } else if c.theme.Some? && v.value > 1 {
          ExtraEntrySound(st, l, line, EntryOf(line));
        }
      }
    case VideoRow(_) =>
      if c.entry.Some? {
        assert Apply(l, AttachVideo(c.entry.value, line.basename)) == Some(l);
      }
    case Other =>
  }

  lemma {:induction false} RunLinesSound(rule: GroupRule, st: State, l: Ledger, lines: seq<Line>)
    requires Inv(st, l)
    ensures var o := RunLines(rule, st, lines);
      Replay(l, o.actions).Some? && Inv(o.state, Replay(l, o.actions).value)
    decreases |lines|
  {
    if |lines| > 0 {
      var o := Step(rule, st, lines[0]);
      StepSound(rule, st, l, lines[0]);
      var l' := Replay(l, o.actions).value;
      RunLinesSound(rule, o.state, l', lines[1..]);
      ReplayAppend(l, o.actions, RunLines(rule, o.state, lines[1..]).actions);
    }
  }

  lemma {:induction false} RunSound(rule: GroupRule, pages: seq<seq<Line>>, next: Handle, l: Ledger)
    requires forall h :: h in l ==> h < next
    ensures var o := Run(rule, pages, next);
      Replay(l, o.actions).Some? && (forall h :: h in Replay(l, o.actions).value ==> h < o.state.next)
    decreases |pages|
  {
    if |pages| > 0 {
      var o := RunLines(rule, State(Start, next), pages[0]);
      RunLinesSound(rule, State(Start, next), l, pages[0]);
      var l' := Replay(l, o.actions).value;
      RunSound(rule, pages[1..], o.state.next, l');
      ReplayAppend(l, o.actions, Run(rule, pages[1..], o.state.next).actions);
    }
  }

  /**
   * Whatever the pages hold, every theme the import writes points at a
   * song it created before, every entry at a theme created before, every
   * video attachment at an entry created before, and no handle is reused;
   * this holds under either reading of the group line.
   */
  lemma ImportIsReferentiallySound(rule: GroupRule, pages: seq<seq<Line>>, next: Handle)
    ensures Replay(map[], Run(rule, pages, next).actions).Some?
  {
    RunSound(rule, pages, next, map[]);
  }
}
