/**
 * The fixed icon table of src/lib.rs:8-97: an ordered sequence of
 * (key, glyph) pairs, the glyphs being single private-use characters of the
 * Nerd Fonts. The table is built from its categories, in the order the
 * source lists them, so that facts about it can be established category by
 * category.
 */
module Icons {
  import opened Options

  type Entry = (string, string)

  /** Files & Folders (src/lib.rs:9-15). */
  const FilesAndFolders: seq<Entry> := [
    ("folder", "\U{F07B}"), ("file", "\U{F15B}"), ("doc", "\U{F718}"), ("img", "\U{F71E}"),
    ("pdf", "\U{F724}"), ("zip", "\U{F1C6}")
  ]

  /** Status (src/lib.rs:17-27). */
  const Status: seq<Entry> := [
    ("ok", "\U{F00C}"), ("check", "\U{F00C}"), ("success", "\U{F00C}"), ("error", "\U{F057}"),
    ("fail", "\U{F057}"), ("warning", "\U{F071}"), ("warn", "\U{F071}"), ("info", "\U{F05A}"),
    ("question", "\U{F128}"), ("help", "\U{F059}")
  ]

  /** Arrows (src/lib.rs:29-34). */
  const Arrows: seq<Entry> := [
    ("arrow", "\U{F054}"), ("arrow-right", "\U{F054}"), ("arrow-left", "\U{F053}"), ("arrow-up", "\U{F077}"),
    ("arrow-down", "\U{F078}")
  ]

  /** UI (src/lib.rs:36-48). */
  const Ui: seq<Entry> := [
    ("gear", "\U{F013}"), ("settings", "\U{F013}"), ("home", "\U{F015}"), ("star", "\U{F005}"),
    ("heart", "\U{F004}"), ("trash", "\U{F1F8}"), ("edit", "\U{F040}"), ("add", "\U{F055}"),
    ("plus", "\U{F055}"), ("minus", "\U{F056}"), ("close", "\U{F00D}"), ("search", "\U{F002}")
  ]

  /** Git (src/lib.rs:50-54). */
  const Git: seq<Entry> := [
    ("git", "\U{F1D3}"), ("branch", "\U{E725}"), ("commit", "\U{E729}"), ("merge", "\U{E727}")
  ]

  /** Programming (src/lib.rs:56-64). */
  const Programming: seq<Entry> := [
    ("rust", "\U{E7A8}"), ("python", "\U{E235}"), ("js", "\U{E781}"), ("ts", "\U{E628}"),
    ("java", "\U{E738}"), ("go", "\U{E627}"), ("c", "\U{E61E}"), ("cpp", "\U{E61D}")
  ]

  /** OS (src/lib.rs:66-69). */
  const Os: seq<Entry> := [
    ("linux", "\U{F17C}"), ("apple", "\U{F179}"), ("windows", "\U{F17A}")
  ]

  /** Media (src/lib.rs:71-76). */
  const Media: seq<Entry> := [
    ("play", "\U{F04B}"), ("pause", "\U{F04C}"), ("stop", "\U{F04D}"), ("volume", "\U{F028}"),
    ("mute", "\U{F026}")
  ]

  /** Network (src/lib.rs:78-83). */
  const Network: seq<Entry> := [
    ("wifi", "\U{F1EB}"), ("network", "\U{F502}"), ("cloud", "\U{F0C2}"), ("download", "\U{F019}"),
    ("upload", "\U{F093}")
  ]

  /** Time (src/lib.rs:85-88). */
  const Time: seq<Entry> := [
    ("clock", "\U{F017}"), ("calendar", "\U{F073}"), ("time", "\U{F017}")
  ]

  /** People (src/lib.rs:90-94). */
  const People: seq<Entry> := [
    ("user", "\U{F007}"), ("users", "\U{F0C0}"), ("lock", "\U{F023}"), ("unlock", "\U{F09C}")
  ]

  /** The entry after the last category (src/lib.rs:96). */
  const Other: seq<Entry> := [
    ("demo", "\U{F0C3}")
  ]

  /** The whole table, in insertion order. */
  const IconMap: seq<Entry> :=
    FilesAndFolders + Status + Arrows + Ui + Git + Programming + Os + Media + Network + Time + People + Other

  /** First-match lookup of a key, as `get_icon`'s loop does it. */
  function Lookup(t: seq<Entry>, name: string): (r: Option<string>)
    ensures r == None <==> forall i :: 0 <= i < |t| ==> t[i].0 != name
    ensures r != None ==>
      exists i :: 0 <= i < |t| && t[i] == (name, r.value) && forall j :: 0 <= j < i ==> t[j].0 != name
    decreases |t|
  {
    if t == [] then None
    else if t[0].0 == name then Some(t[0].1)
    else
      var r := Lookup(t[1..], name);
      assert forall i :: 1 <= i < |t| ==> t[i] == t[1..][i - 1];
      r
  }

  /** No key appears twice. */
  ghost predicate DistinctKeys(t: seq<Entry>)
  {
    forall i, j :: 0 <= i < j < |t| ==> t[i].0 != t[j].0
  }

  /** No key of `a` is a key of `b`. */
  ghost predicate DisjointKeys(a: seq<Entry>, b: seq<Entry>)
  {
    forall i, j :: 0 <= i < |a| && 0 <= j < |b| ==> a[i].0 != b[j].0
  }

  predicate BraceFree(s: string)
  {
    '{' !in s && '}' !in s
  }

  /**
   * Keys contain no brace and glyphs no opening brace, so that neither a key
   * nor a glyph can take part in a placeholder other than its own.
   */
  ghost predicate WellFormed(t: seq<Entry>)
  {
    forall i :: 0 <= i < |t| ==> BraceFree(t[i].0) && '{' !in t[i].1
  }

  lemma DistinctAppend(a: seq<Entry>, b: seq<Entry>)
    requires DistinctKeys(a) && DistinctKeys(b) && DisjointKeys(a, b)
    ensures DistinctKeys(a + b)
  {
    forall i, j | 0 <= i < j < |a + b| ensures (a + b)[i].0 != (a + b)[j].0 {
      if i >= |a| {
        assert (a + b)[i] == b[i - |a|] && (a + b)[j] == b[j - |a|];
      } else if j >= |a| {
        assert (a + b)[j] == b[j - |a|];
      }
    }
  }

  /**
   * A key spelt only with characters that come before `{` in Unicode order,
   * as the placeholder alphabet `[a-zA-Z0-9\-_]` of `ICON_REGEX`
   * (src/lib.rs:99) does.
   */
  predicate PlainKey(s: string)
  {
    forall j :: 0 <= j < |s| ==> s[j] < '{'
  }

  /** A glyph of at least one character, each coming after `}` in Unicode order. */
  predicate PlainGlyph(g: string)
  {
    g != [] && forall j :: 0 <= j < |g| ==> g[j] > '}'
  }

  ghost predicate PlainKeys(t: seq<Entry>)
  {
    forall i :: 0 <= i < |t| ==> PlainKey(t[i].0)
  }

  ghost predicate PlainGlyphs(t: seq<Entry>)
  {
    forall i :: 0 <= i < |t| ==> PlainGlyph(t[i].1)
  }

  /**
   * Keys and glyphs are drawn from disjoint alphabets and glyphs are never
   * empty: no character of a glyph can be part of a key or a brace, so
   * inserting a glyph can neither complete nor break another placeholder.
   */
  ghost predicate Inert(t: seq<Entry>)
  {
    PlainKeys(t) && PlainGlyphs(t)
  }

  lemma InertWellFormed(t: seq<Entry>)
    requires Inert(t)
    ensures WellFormed(t)
  {
    forall i | 0 <= i < |t| ensures BraceFree(t[i].0) && '{' !in t[i].1 {
      assert PlainKey(t[i].0) && PlainGlyph(t[i].1);
    }
  }

  lemma PlainKeysAppend(a: seq<Entry>, b: seq<Entry>)
    requires PlainKeys(a) && PlainKeys(b)
    ensures PlainKeys(a + b)
  {
    forall i | 0 <= i < |a + b| ensures PlainKey((a + b)[i].0) {
      if i >= |a| {
        assert (a + b)[i] == b[i - |a|];
      }
    }
  }

  lemma PlainGlyphsAppend(a: seq<Entry>, b: seq<Entry>)
    requires PlainGlyphs(a) && PlainGlyphs(b)
    ensures PlainGlyphs(a + b)
  {
    forall i | 0 <= i < |a + b| ensures PlainGlyph((a + b)[i].1) {
      if i >= |a| {
        assert (a + b)[i] == b[i - |a|];
      }
    }
  }

  /*
   * Each category on its own: its keys are distinct and plain, and its
   * glyphs plain.
   */

  lemma FilesAndFoldersDistinct()
    ensures DistinctKeys(FilesAndFolders)
  {
  }

  lemma FilesAndFoldersPlainKeys()
    ensures PlainKeys(FilesAndFolders)
  {
  }

  lemma FilesAndFoldersPlainGlyphs()
    ensures PlainGlyphs(FilesAndFolders)
  {
  }

  lemma StatusDistinct()
    ensures DistinctKeys(Status)
  {
  }

  lemma StatusPlainKeys()
    ensures PlainKeys(Status)
  {
  }

  lemma StatusPlainGlyphs()
    ensures PlainGlyphs(Status)
  {
  }

  lemma ArrowsDistinct()
    ensures DistinctKeys(Arrows)
  {
  }

  lemma ArrowsPlainKeys()
    ensures PlainKeys(Arrows)
  {
  }

  lemma ArrowsPlainGlyphs()
    ensures PlainGlyphs(Arrows)
  {
  }

  lemma UiDistinct()
    ensures DistinctKeys(Ui)
  {
  }

  lemma UiPlainKeys()
    ensures PlainKeys(Ui)
  {
  }

  lemma UiPlainGlyphs()
    ensures PlainGlyphs(Ui)
  {
  }

  lemma GitDistinct()
    ensures DistinctKeys(Git)
  {
  }

  lemma GitPlainKeys()
    ensures PlainKeys(Git)
  {
  }

  lemma GitPlainGlyphs()
    ensures PlainGlyphs(Git)
  {
  }

  lemma ProgrammingDistinct()
    ensures DistinctKeys(Programming)
  {
  }

  lemma ProgrammingPlainKeys()
    ensures PlainKeys(Programming)
  {
  }

  lemma ProgrammingPlainGlyphs()
    ensures PlainGlyphs(Programming)
  {
  }

  lemma OsDistinct()
    ensures DistinctKeys(Os)
  {
  }

  lemma OsPlainKeys()
    ensures PlainKeys(Os)
  {
  }

  lemma OsPlainGlyphs()
    ensures PlainGlyphs(Os)
  {
  }

  lemma MediaDistinct()
    ensures DistinctKeys(Media)
  {
  }

  lemma MediaPlainKeys()
    ensures PlainKeys(Media)
  {
  }

  lemma MediaPlainGlyphs()
    ensures PlainGlyphs(Media)
  {
  }

  lemma NetworkDistinct()
    ensures DistinctKeys(Network)
  {
  }

  lemma NetworkPlainKeys()
    ensures PlainKeys(Network)
  {
  }

  lemma NetworkPlainGlyphs()
    ensures PlainGlyphs(Network)
  {
  }

  lemma TimeDistinct()
    ensures DistinctKeys(Time)
  {
  }

  lemma TimePlainKeys()
    ensures PlainKeys(Time)
  {
  }

  lemma TimePlainGlyphs()
    ensures PlainGlyphs(Time)
  {
  }

  lemma PeopleDistinct()
    ensures DistinctKeys(People)
  {
  }

  lemma PeoplePlainKeys()
    ensures PlainKeys(People)
  {
  }

  lemma PeoplePlainGlyphs()
    ensures PlainGlyphs(People)
  {
  }

  lemma OtherDistinct()
    ensures DistinctKeys(Other)
  {
  }

  lemma OtherPlainKeys()
    ensures PlainKeys(Other)
  {
  }

  lemma OtherPlainGlyphs()
    ensures PlainGlyphs(Other)
  {
  }

  /** Keys apart from both `a` and `b` are apart from their concatenation. */
  lemma DisjointAppendLeft(a: seq<Entry>, b: seq<Entry>, c: seq<Entry>)
    requires DisjointKeys(a, c) && DisjointKeys(b, c)
    ensures DisjointKeys(a + b, c)
  {
    forall i, j | 0 <= i < |a + b| && 0 <= j < |c| ensures (a + b)[i].0 != c[j].0 {
      if i >= |a| {
        assert (a + b)[i] == b[i - |a|];
      }
    }
  }

  /*
   * No key of one category is a key of another; each pair of categories is
   * settled on its own, earlier category first.
   */

  lemma FilesAndFoldersApartStatus()
    ensures DisjointKeys(FilesAndFolders, Status)
  {
  }

  lemma FilesAndFoldersApartArrows()
    ensures DisjointKeys(FilesAndFolders, Arrows)
  {
  }

  lemma StatusApartArrows()
    ensures DisjointKeys(Status, Arrows)
  {
  }

  lemma FilesAndFoldersApartUi()
    ensures DisjointKeys(FilesAndFolders, Ui)
  {
  }

  lemma StatusApartUi()
    ensures DisjointKeys(Status, Ui)
  {
  }

  lemma ArrowsApartUi()
    ensures DisjointKeys(Arrows, Ui)
  {
  }

  lemma FilesAndFoldersApartGit()
    ensures DisjointKeys(FilesAndFolders, Git)
  {
  }

  lemma StatusApartGit()
    ensures DisjointKeys(Status, Git)
  {
  }

  lemma ArrowsApartGit()
    ensures DisjointKeys(Arrows, Git)
  {
  }

  lemma UiApartGit()
    ensures DisjointKeys(Ui, Git)
  {
  }

  lemma FilesAndFoldersApartProgramming()
    ensures DisjointKeys(FilesAndFolders, Programming)
  {
  }

  lemma StatusApartProgramming()
    ensures DisjointKeys(Status, Programming)
  {
  }

  lemma ArrowsApartProgramming()
    ensures DisjointKeys(Arrows, Programming)
  {
  }

  lemma UiApartProgramming()
    ensures DisjointKeys(Ui, Programming)
  {
  }

  lemma GitApartProgramming()
    ensures DisjointKeys(Git, Programming)
  {
  }

  lemma FilesAndFoldersApartOs()
    ensures DisjointKeys(FilesAndFolders, Os)
  {
  }

  lemma StatusApartOs()
    ensures DisjointKeys(Status, Os)
  {
  }

  lemma ArrowsApartOs()
    ensures DisjointKeys(Arrows, Os)
  {
  }

  lemma UiApartOs()
    ensures DisjointKeys(Ui, Os)
  {
  }

  lemma GitApartOs()
    ensures DisjointKeys(Git, Os)
  {
  }

  lemma ProgrammingApartOs()
    ensures DisjointKeys(Programming, Os)
  {
  }

  lemma FilesAndFoldersApartMedia()
    ensures DisjointKeys(FilesAndFolders, Media)
  {
  }

  lemma StatusApartMedia()
    ensures DisjointKeys(Status, Media)
  {
  }

  lemma ArrowsApartMedia()
    ensures DisjointKeys(Arrows, Media)
  {
  }

  lemma UiApartMedia()
    ensures DisjointKeys(Ui, Media)
  {
  }

  lemma GitApartMedia()
    ensures DisjointKeys(Git, Media)
  {
  }

  lemma ProgrammingApartMedia()
    ensures DisjointKeys(Programming, Media)
  {
  }

  lemma OsApartMedia()
    ensures DisjointKeys(Os, Media)
  {
  }

  lemma FilesAndFoldersApartNetwork()
    ensures DisjointKeys(FilesAndFolders, Network)
  {
  }

  lemma StatusApartNetwork()
    ensures DisjointKeys(Status, Network)
  {
  }

  lemma ArrowsApartNetwork()
    ensures DisjointKeys(Arrows, Network)
  {
  }

  lemma UiApartNetwork()
    ensures DisjointKeys(Ui, Network)
  {
  }

  lemma GitApartNetwork()
    ensures DisjointKeys(Git, Network)
  {
  }

  lemma ProgrammingApartNetwork()
    ensures DisjointKeys(Programming, Network)
  {
  }

  lemma OsApartNetwork()
    ensures DisjointKeys(Os, Network)
  {
  }

  lemma MediaApartNetwork()
    ensures DisjointKeys(Media, Network)
  {
  }

  lemma FilesAndFoldersApartTime()
    ensures DisjointKeys(FilesAndFolders, Time)
  {
  }

  lemma StatusApartTime()
    ensures DisjointKeys(Status, Time)
  {
  }

  lemma ArrowsApartTime()
    ensures DisjointKeys(Arrows, Time)
  {
  }

  lemma UiApartTime()
    ensures DisjointKeys(Ui, Time)
  {
  }

  lemma GitApartTime()
    ensures DisjointKeys(Git, Time)
  {
  }

  lemma ProgrammingApartTime()
    ensures DisjointKeys(Programming, Time)
  {
  }

  lemma OsApartTime()
    ensures DisjointKeys(Os, Time)
  {
  }

  lemma MediaApartTime()
    ensures DisjointKeys(Media, Time)
  {
  }

  lemma NetworkApartTime()
    ensures DisjointKeys(Network, Time)
  {
  }

  lemma FilesAndFoldersApartPeople()
    ensures DisjointKeys(FilesAndFolders, People)
  {
  }

  lemma StatusApartPeople()
    ensures DisjointKeys(Status, People)
  {
  }

  lemma ArrowsApartPeople()
    ensures DisjointKeys(Arrows, People)
  {
  }

  lemma UiApartPeople()
    ensures DisjointKeys(Ui, People)
  {
  }

  lemma GitApartPeople()
    ensures DisjointKeys(Git, People)
  {
  }

  lemma ProgrammingApartPeople()
    ensures DisjointKeys(Programming, People)
  {
  }

  lemma OsApartPeople()
    ensures DisjointKeys(Os, People)
  {
  }

  lemma MediaApartPeople()
    ensures DisjointKeys(Media, People)
  {
  }

  lemma NetworkApartPeople()
    ensures DisjointKeys(Network, People)
  {
  }

  lemma TimeApartPeople()
    ensures DisjointKeys(Time, People)
  {
  }

  lemma FilesAndFoldersApartOther()
    ensures DisjointKeys(FilesAndFolders, Other)
  {
  }

  lemma StatusApartOther()
    ensures DisjointKeys(Status, Other)
  {
  }

  lemma ArrowsApartOther()
    ensures DisjointKeys(Arrows, Other)
  {
  }

  lemma UiApartOther()
    ensures DisjointKeys(Ui, Other)
  {
  }

  lemma GitApartOther()
    ensures DisjointKeys(Git, Other)
  {
  }

  lemma ProgrammingApartOther()
    ensures DisjointKeys(Programming, Other)
  {
  }

  lemma OsApartOther()
    ensures DisjointKeys(Os, Other)
  {
  }

  lemma MediaApartOther()
    ensures DisjointKeys(Media, Other)
  {
  }

  lemma NetworkApartOther()
    ensures DisjointKeys(Network, Other)
  {
  }

  lemma TimeApartOther()
    ensures DisjointKeys(Time, Other)
  {
  }

  lemma PeopleApartOther()
    ensures DisjointKeys(People, Other)
  {
  }

  /*
   * For each category, the categories before it, concatenated, share no
   * key with it.
   */

  lemma BeforeApartStatus()
    ensures DisjointKeys(FilesAndFolders, Status)
  {
    FilesAndFoldersApartStatus();
  }

  lemma BeforeApartArrows()
    ensures DisjointKeys(FilesAndFolders + Status, Arrows)
  {
    FilesAndFoldersApartArrows();
    StatusApartArrows();
    DisjointAppendLeft(FilesAndFolders, Status, Arrows);
  }

  lemma BeforeApartUi()
    ensures DisjointKeys(FilesAndFolders + Status + Arrows, Ui)
  {
    FilesAndFoldersApartUi();
    StatusApartUi();
    DisjointAppendLeft(FilesAndFolders, Status, Ui);
    ArrowsApartUi();
    DisjointAppendLeft(FilesAndFolders + Status, Arrows, Ui);
  }

  lemma BeforeApartGit()
    ensures DisjointKeys(FilesAndFolders + Status + Arrows + Ui, Git)
  {
    FilesAndFoldersApartGit();
    StatusApartGit();
    DisjointAppendLeft(FilesAndFolders, Status, Git);
    ArrowsApartGit();
    DisjointAppendLeft(FilesAndFolders + Status, Arrows, Git);
    UiApartGit();
    DisjointAppendLeft(FilesAndFolders + Status + Arrows, Ui, Git);
  }

  lemma BeforeApartProgramming()
    ensures DisjointKeys(FilesAndFolders + Status + Arrows + Ui + Git, Programming)
  {
    FilesAndFoldersApartProgramming();
    StatusApartProgramming();
    DisjointAppendLeft(FilesAndFolders, Status, Programming);
    ArrowsApartProgramming();
    DisjointAppendLeft(FilesAndFolders + Status, Arrows, Programming);
    UiApartProgramming();
    DisjointAppendLeft(FilesAndFolders + Status + Arrows, Ui, Programming);
    GitApartProgramming();
    DisjointAppendLeft(FilesAndFolders + Status + Arrows + Ui, Git, Programming);
  }

  lemma BeforeApartOs()
    ensures DisjointKeys(FilesAndFolders + Status + Arrows + Ui + Git + Programming, Os)
  {
    FilesAndFoldersApartOs();
    StatusApartOs();
    DisjointAppendLeft(FilesAndFolders, Status, Os);
    ArrowsApartOs();
    DisjointAppendLeft(FilesAndFolders + Status, Arrows, Os);
    UiApartOs();
    DisjointAppendLeft(FilesAndFolders + Status + Arrows, Ui, Os);
    GitApartOs();
    DisjointAppendLeft(FilesAndFolders + Status + Arrows + Ui, Git, Os);
    ProgrammingApartOs();
    DisjointAppendLeft(FilesAndFolders + Status + Arrows + Ui + Git, Programming, Os);
  }

  lemma BeforeApartMedia()
    ensures DisjointKeys(FilesAndFolders + Status + Arrows + Ui + Git + Programming + Os, Media)
  {
    FilesAndFoldersApartMedia();
    StatusApartMedia();
    DisjointAppendLeft(FilesAndFolders, Status, Media);
    ArrowsApartMedia();
    DisjointAppendLeft(FilesAndFolders + Status, Arrows, Media);
    UiApartMedia();
    DisjointAppendLeft(FilesAndFolders + Status + Arrows, Ui, Media);
    GitApartMedia();
    DisjointAppendLeft(FilesAndFolders + Status + Arrows + Ui, Git, Media);
    ProgrammingApartMedia();
    DisjointAppendLeft(FilesAndFolders + Status + Arrows + Ui + Git, Programming, Media);
    OsApartMedia();
    DisjointAppendLeft(FilesAndFolders + Status + Arrows + Ui + Git + Programming, Os, Media);
  }

  lemma BeforeApartNetwork()
    ensures DisjointKeys(FilesAndFolders + Status + Arrows + Ui + Git + Programming + Os + Media, Network)
  {
    FilesAndFoldersApartNetwork();
    StatusApartNetwork();
    DisjointAppendLeft(FilesAndFolders, Status, Network);
    ArrowsApartNetwork();
    DisjointAppendLeft(FilesAndFolders + Status, Arrows, Network);
    UiApartNetwork();
    DisjointAppendLeft(FilesAndFolders + Status + Arrows, Ui, Network);
    GitApartNetwork();
    DisjointAppendLeft(FilesAndFolders + Status + Arrows + Ui, Git, Network);
    ProgrammingApartNetwork();
    DisjointAppendLeft(FilesAndFolders + Status + Arrows + Ui + Git, Programming, Network);
    OsApartNetwork();
    DisjointAppendLeft(FilesAndFolders + Status + Arrows + Ui + Git + Programming, Os, Network);
    MediaApartNetwork();
    DisjointAppendLeft(FilesAndFolders + Status + Arrows + Ui + Git + Programming + Os, Media, Network);
  }

  lemma BeforeApartTime()
    ensures DisjointKeys(FilesAndFolders + Status + Arrows + Ui + Git + Programming + Os + Media + Network, Time)
  {
    FilesAndFoldersApartTime();
    StatusApartTime();
    DisjointAppendLeft(FilesAndFolders, Status, Time);
    ArrowsApartTime();
    DisjointAppendLeft(FilesAndFolders + Status, Arrows, Time);
    UiApartTime();
    DisjointAppendLeft(FilesAndFolders + Status + Arrows, Ui, Time);
    GitApartTime();
    DisjointAppendLeft(FilesAndFolders + Status + Arrows + Ui, Git, Time);
    ProgrammingApartTime();
    DisjointAppendLeft(FilesAndFolders + Status + Arrows + Ui + Git, Programming, Time);
    OsApartTime();
    DisjointAppendLeft(FilesAndFolders + Status + Arrows + Ui + Git + Programming, Os, Time);
    MediaApartTime();
    DisjointAppendLeft(FilesAndFolders + Status + Arrows + Ui + Git + Programming + Os, Media, Time);
    NetworkApartTime();
    DisjointAppendLeft(FilesAndFolders + Status + Arrows + Ui + Git + Programming + Os + Media, Network, Time);
  }

  lemma BeforeApartPeople()
    ensures DisjointKeys(FilesAndFolders + Status + Arrows + Ui + Git + Programming + Os + Media + Network + Time, People)
  {
    FilesAndFoldersApartPeople();
    StatusApartPeople();
    DisjointAppendLeft(FilesAndFolders, Status, People);
    ArrowsApartPeople();
    DisjointAppendLeft(FilesAndFolders + Status, Arrows, People);
    UiApartPeople();
    DisjointAppendLeft(FilesAndFolders + Status + Arrows, Ui, People);
    GitApartPeople();
    DisjointAppendLeft(FilesAndFolders + Status + Arrows + Ui, Git, People);
    ProgrammingApartPeople();
    DisjointAppendLeft(FilesAndFolders + Status + Arrows + Ui + Git, Programming, People);
    OsApartPeople();
    DisjointAppendLeft(FilesAndFolders + Status + Arrows + Ui + Git + Programming, Os, People);
    MediaApartPeople();
    DisjointAppendLeft(FilesAndFolders + Status + Arrows + Ui + Git + Programming + Os, Media, People);
    NetworkApartPeople();
    DisjointAppendLeft(FilesAndFolders + Status + Arrows + Ui + Git + Programming + Os + Media, Network, People);
    TimeApartPeople();
    DisjointAppendLeft(FilesAndFolders + Status + Arrows + Ui + Git + Programming + Os + Media + Network, Time, People);
  }

  lemma BeforeApartOther()
    ensures DisjointKeys(FilesAndFolders + Status + Arrows + Ui + Git + Programming + Os + Media + Network + Time + People, Other)
  {
    FilesAndFoldersApartOther();
    StatusApartOther();
    DisjointAppendLeft(FilesAndFolders, Status, Other);
    ArrowsApartOther();
    DisjointAppendLeft(FilesAndFolders + Status, Arrows, Other);
    UiApartOther();
    DisjointAppendLeft(FilesAndFolders + Status + Arrows, Ui, Other);
    GitApartOther();
    DisjointAppendLeft(FilesAndFolders + Status + Arrows + Ui, Git, Other);
    ProgrammingApartOther();
    DisjointAppendLeft(FilesAndFolders + Status + Arrows + Ui + Git, Programming, Other);
    OsApartOther();
    DisjointAppendLeft(FilesAndFolders + Status + Arrows + Ui + Git + Programming, Os, Other);
    MediaApartOther();
    DisjointAppendLeft(FilesAndFolders + Status + Arrows + Ui + Git + Programming + Os, Media, Other);
    NetworkApartOther();
    DisjointAppendLeft(FilesAndFolders + Status + Arrows + Ui + Git + Programming + Os + Media, Network, Other);
    TimeApartOther();
    DisjointAppendLeft(FilesAndFolders + Status + Arrows + Ui + Git + Programming + Os + Media + Network, Time, Other);
    PeopleApartOther();
    DisjointAppendLeft(FilesAndFolders + Status + Arrows + Ui + Git + Programming + Os + Media + Network + Time, People, Other);
  }

  /**
   * The table has 66 entries and no key twice; its keys and glyphs are
   * plain, so its entries are well-formed (src/lib.rs:8-97).
   */
  lemma {:induction false} IconMapFacts()
    ensures |IconMap| == 66
    ensures DistinctKeys(IconMap)
    ensures Inert(IconMap)
    ensures WellFormed(IconMap)
  {
    FilesAndFoldersDistinct();
    FilesAndFoldersPlainKeys();
    FilesAndFoldersPlainGlyphs();
    StatusDistinct();
    StatusPlainKeys();
    StatusPlainGlyphs();
    ArrowsDistinct();
    ArrowsPlainKeys();
    ArrowsPlainGlyphs();
    UiDistinct();
    UiPlainKeys();
    UiPlainGlyphs();
    GitDistinct();
    GitPlainKeys();
    GitPlainGlyphs();
    ProgrammingDistinct();
    ProgrammingPlainKeys();
    ProgrammingPlainGlyphs();
    OsDistinct();
    OsPlainKeys();
    OsPlainGlyphs();
    MediaDistinct();
    MediaPlainKeys();
    MediaPlainGlyphs();
    NetworkDistinct();
    NetworkPlainKeys();
    NetworkPlainGlyphs();
    TimeDistinct();
    TimePlainKeys();
    TimePlainGlyphs();
    PeopleDistinct();
    PeoplePlainKeys();
    PeoplePlainGlyphs();
    OtherDistinct();
    OtherPlainKeys();
    OtherPlainGlyphs();
    BeforeApartStatus();
    DistinctAppend(FilesAndFolders, Status);
    PlainKeysAppend(FilesAndFolders, Status);
    PlainGlyphsAppend(FilesAndFolders, Status);
    BeforeApartArrows();
    DistinctAppend(FilesAndFolders + Status, Arrows);
    PlainKeysAppend(FilesAndFolders + Status, Arrows);
    PlainGlyphsAppend(FilesAndFolders + Status, Arrows);
    BeforeApartUi();
    DistinctAppend(FilesAndFolders + Status + Arrows, Ui);
    PlainKeysAppend(FilesAndFolders + Status + Arrows, Ui);
    PlainGlyphsAppend(FilesAndFolders + Status + Arrows, Ui);
    BeforeApartGit();
    DistinctAppend(FilesAndFolders + Status + Arrows + Ui, Git);
    PlainKeysAppend(FilesAndFolders + Status + Arrows + Ui, Git);
    PlainGlyphsAppend(FilesAndFolders + Status + Arrows + Ui, Git);
    BeforeApartProgramming();
    DistinctAppend(FilesAndFolders + Status + Arrows + Ui + Git, Programming);
    PlainKeysAppend(FilesAndFolders + Status + Arrows + Ui + Git, Programming);
    PlainGlyphsAppend(FilesAndFolders + Status + Arrows + Ui + Git, Programming);
    BeforeApartOs();
    DistinctAppend(FilesAndFolders + Status + Arrows + Ui + Git + Programming, Os);
    PlainKeysAppend(FilesAndFolders + Status + Arrows + Ui + Git + Programming, Os);
    PlainGlyphsAppend(FilesAndFolders + Status + Arrows + Ui + Git + Programming, Os);
    BeforeApartMedia();
    DistinctAppend(FilesAndFolders + Status + Arrows + Ui + Git + Programming + Os, Media);
    PlainKeysAppend(FilesAndFolders + Status + Arrows + Ui + Git + Programming + Os, Media);
    PlainGlyphsAppend(FilesAndFolders + Status + Arrows + Ui + Git + Programming + Os, Media);
    BeforeApartNetwork();
    DistinctAppend(FilesAndFolders + Status + Arrows + Ui + Git + Programming + Os + Media, Network);
    PlainKeysAppend(FilesAndFolders + Status + Arrows + Ui + Git + Programming + Os + Media, Network);
    PlainGlyphsAppend(FilesAndFolders + Status + Arrows + Ui + Git + Programming + Os + Media, Network);
    BeforeApartTime();
    DistinctAppend(FilesAndFolders + Status + Arrows + Ui + Git + Programming + Os + Media + Network, Time);
    PlainKeysAppend(FilesAndFolders + Status + Arrows + Ui + Git + Programming + Os + Media + Network, Time);
    PlainGlyphsAppend(FilesAndFolders + Status + Arrows + Ui + Git + Programming + Os + Media + Network, Time);
    BeforeApartPeople();
    DistinctAppend(FilesAndFolders + Status + Arrows + Ui + Git + Programming + Os + Media + Network + Time, People);
    PlainKeysAppend(FilesAndFolders + Status + Arrows + Ui + Git + Programming + Os + Media + Network + Time, People);
    PlainGlyphsAppend(FilesAndFolders + Status + Arrows + Ui + Git + Programming + Os + Media + Network + Time, People);
    BeforeApartOther();
    DistinctAppend(FilesAndFolders + Status + Arrows + Ui + Git + Programming + Os + Media + Network + Time + People, Other);
    PlainKeysAppend(FilesAndFolders + Status + Arrows + Ui + Git + Programming + Os + Media + Network + Time + People, Other);
    PlainGlyphsAppend(FilesAndFolders + Status + Arrows + Ui + Git + Programming + Os + Media + Network + Time + People, Other);
    InertWellFormed(IconMap);
  }

  /** The entry a lookup stops at is the first one with the key. */
  lemma {:induction false} LookupFirst(t: seq<Entry>, name: string, i: nat)
    requires i < |t| && t[i].0 == name
    requires forall j :: 0 <= j < i ==> t[j].0 != name
    ensures Lookup(t, name) == Some(t[i].1)
    decreases i
  {
    if i > 0 {
      assert t[1..][i - 1] == t[i];
      forall j | 0 <= j < i - 1 ensures t[1..][j].0 != name {
        assert t[1..][j] == t[j + 1];
      }
      LookupFirst(t[1..], name, i - 1);
    }
  }

  /** A key no entry carries is not found. */
  lemma LookupAbsent(t: seq<Entry>, name: string)
    requires forall j :: 0 <= j < |t| ==> t[j].0 != name
    ensures Lookup(t, name) == None
  {
  }

  /** In a table without repeated keys, each listed key finds its own glyph. */
  lemma DistinctLookup(t: seq<Entry>, i: nat)
    requires DistinctKeys(t)
    requires i < |t|
    ensures Lookup(t, t[i].0) == Some(t[i].1)
  {
    LookupFirst(t, t[i].0, i);
  }
}
