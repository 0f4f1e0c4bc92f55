/** Migration of legacy session files into the store, in one namespace of files: the two directories
    may be the same one, so that the store's metadata files are files of the legacy directory too. */
module Migration {
  import opened Options
  import opened Messages
  import opened SessionLog
  import opened JsonlStore

  datatype Path = Path(dir: string, name: string)

  /** What is at a path. A saved session and a metadata file are both JSON objects with a key and a
      summary, so each can be read as the other. */
  datatype Content =
    | SubFolder
    | Unreadable
    | Saved(key: string, messages: seq<Message>, summary: string)
    | MetaFile(key: string, meta: Meta)
    | Log(lines: seq<Line>)
  {
    predicate IsObject() { Saved? || MetaFile? }

    /** Read as a session: a metadata file has no messages. */
    function Messages(): seq<Message>
      requires IsObject()
    {
      if Saved? then messages else []
    }

    function Summary(): string
      requires IsObject()
    {
      if Saved? then summary else meta.summary
    }

    /** Read as metadata: a saved session has no offset and no count. */
    function Metadata(): Meta
      requires IsObject()
    {
      if Saved? then Meta(summary, 0, 0) else meta
    }
  }

  type Fs = map<Path, Content>

  /** The two directories, the order in which names are listed, and the names whose rename fails. */
  datatype Config = Config(storeDir: string, sessionsDir: string, order: seq<string>, stuck: set<string>,
                           fits: Message -> bool)
  {
    predicate Shared() { storeDir == sessionsDir }

    function Legacy(name: string): Path { Path(sessionsDir, name) }

    function LogPath(key: string): Path { Path(storeDir, SanitizeKey(key) + ".jsonl") }

    function MetaPath(key: string): Path { Path(storeDir, MetaName(key)) }
  }

  function MetaName(key: string): string { SanitizeKey(key) + ".meta.json" }

  predicate HasSuffix(s: string, suffix: string) {
    |suffix| <= |s| && s[|s| - |suffix|..] == suffix
  }

  // ------------------------------------------------------------ the store in this namespace

  /** A metadata file that is there but no JSON object is an error. */
  predicate MetaReadable(c: Config, fs: Fs, key: string) {
    c.MetaPath(key) in fs ==> fs[c.MetaPath(key)].IsObject()
  }

  function ReadMeta(c: Config, fs: Fs, key: string): Meta
    requires MetaReadable(c, fs, key)
  {
    if c.MetaPath(key) in fs then fs[c.MetaPath(key)].Metadata() else Meta("", 0, 0)
  }

  /** The key written back: the one of the file read, or the caller's for a new file. */
  function StoredKey(c: Config, fs: Fs, key: string): string
    requires MetaReadable(c, fs, key)
  {
    if c.MetaPath(key) in fs then fs[c.MetaPath(key)].key else key
  }

  function WithMeta(c: Config, fs: Fs, key: string, meta: Meta): Fs
    requires MetaReadable(c, fs, key)
  {
    fs[c.MetaPath(key) := MetaFile(StoredKey(c, fs, key), meta)]
  }

  function HistorySteps(c: Config, fs: Fs, key: string, history: seq<Message>): seq<Fs>
    requires MetaReadable(c, fs, key)
  {
    var reset := WithMeta(c, fs, key, ReadMeta(c, fs, key).(skip := 0, count := |history|));
    [reset, reset[c.LogPath(key) := Log(MarshalAll(history, c.fits))]]
  }

  /** The files of a session, as module SessionLog has them. */
  function FilesAt(c: Config, fs: Fs, key: string): Files {
    Files(if c.LogPath(key) in fs && fs[c.LogPath(key)].Log? then fs[c.LogPath(key)].lines else [],
          if c.MetaPath(key) in fs && fs[c.MetaPath(key)].IsObject()
          then Some(fs[c.MetaPath(key)].Metadata()) else None)
  }

  lemma StorePathsDiffer(c: Config, a: string, b: string)
    ensures c.LogPath(a) != c.MetaPath(b)
    ensures c.LogPath(a) == c.LogPath(b) <==> SanitizeKey(a) == SanitizeKey(b)
    ensures c.MetaPath(a) == c.MetaPath(b) <==> SanitizeKey(a) == SanitizeKey(b)
  {
    var log, meta := c.LogPath(a).name, c.MetaPath(b).name;
    assert log[|log| - 1] == 'l' && meta[|meta| - 1] == 'n';
    assert log[..|SanitizeKey(a)|] == SanitizeKey(a) && MetaName(a)[..|SanitizeKey(a)|] == SanitizeKey(a);
    assert c.LogPath(b).name[..|SanitizeKey(b)|] == SanitizeKey(b) && meta[..|SanitizeKey(b)|] == SanitizeKey(b);
  }

  /** These steps are those of the session's own model: replacing a history ... */
  lemma HistoryStepsAgree(c: Config, fs: Fs, key: string, history: seq<Message>, i: nat)
    requires MetaReadable(c, fs, key) && i < 2
    ensures FilesAt(c, HistorySteps(c, fs, key, history)[i], key)
            == Steps(FilesAt(c, fs, key), SetHistory(history), c.fits)[i]
  {
    StorePathsDiffer(c, key, key);
  }

  /** ... and setting a summary. */
  lemma SummaryStepAgrees(c: Config, fs: Fs, key: string, summary: string)
    requires MetaReadable(c, fs, key)
    ensures [FilesAt(c, WithMeta(c, fs, key, ReadMeta(c, fs, key).(summary := summary)), key)]
            == Steps(FilesAt(c, fs, key), SetSummary(summary), c.fits)
  {
    StorePathsDiffer(c, key, key);
  }

  // ------------------------------------------------------------ one file

  /** A session file that a run would migrate. */
  predicate Waiting(c: Config, fs: Fs, name: string) {
    && c.Legacy(name) in fs && fs[c.Legacy(name)].IsObject()
    && HasSuffix(name, ".json") && !HasSuffix(name, ".migrated")
  }

  /** The key in the file, or else the file's name. */
  function KeyOf(c: Config, fs: Fs, name: string): string
    requires Waiting(c, fs, name)
  {
    var key := fs[c.Legacy(name)].key;
    if key == "" then name[..|name| - |".json"|] else key
  }

  /** The run ends with an error here. */
  predicate Fails(c: Config, fs: Fs, name: string) {
    Waiting(c, fs, name) && !MetaReadable(c, fs, KeyOf(c, fs, name))
  }

  predicate Migrates(c: Config, fs: Fs, name: string) {
    Waiting(c, fs, name) && MetaReadable(c, fs, KeyOf(c, fs, name))
  }

  function Renamed(c: Config, fs: Fs, name: string): Fs
    requires c.Legacy(name) in fs
  {
    (fs - {c.Legacy(name)})[c.Legacy(name + ".migrated") := fs[c.Legacy(name)]]
  }

  /** The session written in full: the summary stays when the file has none. */
  function Written(c: Config, fs: Fs, name: string): Fs
    requires Migrates(c, fs, name)
  {
    var e, key := fs[c.Legacy(name)], KeyOf(c, fs, name);
    var summary := if e.Summary() == "" then ReadMeta(c, fs, key).summary else e.Summary();
    WithMeta(c, fs, key, Meta(summary, 0, |e.Messages()|))[c.LogPath(key) := Log(MarshalAll(e.Messages(), c.fits))]
  }

  /** The states the migration of one file goes through. */
  function FileSteps(c: Config, fs: Fs, name: string): seq<Fs> {
    if !Migrates(c, fs, name) then [] else
    var e, key := fs[c.Legacy(name)], KeyOf(c, fs, name);
    var history := HistorySteps(c, fs, key, e.Messages());
    WrittenKeepsFile(c, fs, name);
    history
    + (if e.Summary() == "" then [] else [Written(c, fs, name)])
    + (if name in c.stuck then [] else [Renamed(c, Written(c, fs, name), name)])
  }

  function FileDone(c: Config, fs: Fs, name: string): Fs {
    if !Migrates(c, fs, name) then fs else
    WrittenKeepsFile(c, fs, name);
    if name in c.stuck then Written(c, fs, name) else Renamed(c, Written(c, fs, name), name)
  }

  lemma JsonIsNoOther(name: string, key: string, other: string)
    requires HasSuffix(name, ".json")
    ensures name != SanitizeKey(key) + ".jsonl" && name != other + ".migrated" && !HasSuffix(name, ".migrated")
  {
    var log, migrated := SanitizeKey(key) + ".jsonl", other + ".migrated";
    assert name[|name| - 1] == name[|name| - |".json"|..][4] == 'n';
    assert log[|log| - 1] == 'l' && migrated[|migrated| - 1] == 'd';
    if |name| >= |".migrated"| {
      assert name[|name| - 1] == name[|name| - |".migrated"|..][8];
    }
  }

  lemma MetaNameIsJson(key: string)
    ensures HasSuffix(MetaName(key), ".json") && !HasSuffix(MetaName(key), ".migrated")
  {
    var name := MetaName(key);
    assert name[|name| - |".json"|..] == ".json";
    JsonIsNoOther(name, key, "");
  }

  /** Writing the session leaves the legacy file there, itself written to only as its own metadata. */
  lemma WrittenKeepsFile(c: Config, fs: Fs, name: string)
    requires Migrates(c, fs, name)
    ensures c.Legacy(name) in Written(c, fs, name)
  {
  }

  lemma MigratedNames(x: string, y: string)
    ensures HasSuffix(x + ".migrated", ".migrated")
    ensures x + ".migrated" == y + ".migrated" <==> x == y
  {
    var m, n := x + ".migrated", y + ".migrated";
    assert m[|m| - |".migrated"|..] == ".migrated";
    assert m[..|m| - |".migrated"|] == x && n[..|n| - |".migrated"|] == y;
  }

  function LastOr(fs: Fs, steps: seq<Fs>): Fs {
    if steps == [] then fs else steps[|steps| - 1]
  }

  lemma StepsEndDone(c: Config, fs: Fs, name: string)
    ensures LastOr(fs, FileSteps(c, fs, name)) == FileDone(c, fs, name)
  {
    hide Waiting;
    hide MetaReadable;
    hide KeyOf;
  }

  /** What is where once a file has been migrated. */
  lemma DoneAt(c: Config, fs: Fs, name: string, p: Path)
    requires Migrates(c, fs, name)
    ensures var done, key := FileDone(c, fs, name), KeyOf(c, fs, name);
            var written := Written(c, fs, name);
            if name !in c.stuck && p == c.Legacy(name) then p !in done
            else if name !in c.stuck && p == c.Legacy(name + ".migrated")
            then p in done && done[p] == written[c.Legacy(name)]
            else if p == c.MetaPath(key) || p == c.LogPath(key) then p in done && done[p] == written[p]
            else (p in done <==> p in fs) && (p in fs ==> done[p] == fs[p])
  {
    MetaNameIsJson(KeyOf(c, fs, name));
    JsonIsNoOther(name, KeyOf(c, fs, name), name);
    JsonIsNoOther(MetaName(KeyOf(c, fs, name)), KeyOf(c, fs, name), name);
    MigratedNames(name, name);
  }

  // ------------------------------------------------------------ who waits

  /** A name waits exactly if it is some stem and ".json", with a JSON object behind it. */
  lemma WaitingIff(c: Config, fs: Fs, name: string)
    ensures Waiting(c, fs, name) <==>
              && c.Legacy(name) in fs && fs[c.Legacy(name)].IsObject()
              && exists stem :: name == stem + ".json"
  {
    if HasSuffix(name, ".json") {
      JsonIsNoOther(name, "", "");
      assert name == name[..|name| - |".json"|] + ".json";
    }
    forall stem | name == stem + ".json" ensures HasSuffix(name, ".json") {
      assert name[|name| - |".json"|..] == ".json";
    }
  }

  /** The session's key, told from the stem of the file's name and the content. */
  function KeyFor(stem: string, key: string): string {
    if key == "" then stem else key
  }

  lemma KeyOfStem(c: Config, fs: Fs, stem: string)
    requires c.Legacy(stem + ".json") in fs && fs[c.Legacy(stem + ".json")].IsObject()
    ensures Waiting(c, fs, stem + ".json")
    ensures KeyOf(c, fs, stem + ".json") == KeyFor(stem, fs[c.Legacy(stem + ".json")].key)
  {
    WaitingIff(c, fs, stem + ".json");
    assert (stem + ".json")[..|stem|] == stem;
  }

  /** The key a name is migrated under does not change while it waits, and only the store's own
      writing makes a name wait that did not. */
  lemma WaitsAfterFile(c: Config, fs: Fs, name: string, x: string)
    requires Migrates(c, fs, name) && name !in c.stuck
    ensures var done := FileDone(c, fs, name);
            && (Waiting(c, done, x) <==>
                  x != name && (Waiting(c, fs, x) || (c.Shared() && x == MetaName(KeyOf(c, fs, name)))))
            && (x != name && Waiting(c, fs, x) ==> KeyOf(c, done, x) == KeyOf(c, fs, x))
  {
    DoneAt(c, fs, name, c.Legacy(x));
    var key := KeyOf(c, fs, name);
    MetaNameIsJson(key);
    MigratedNames(name, name);
    if HasSuffix(x, ".json") {
      JsonIsNoOther(x, key, name);
    }
    hide FileDone;
    hide HasSuffix;
    hide MetaName;
  }

  lemma NothingToDo(c: Config, fs: Fs, name: string)
    requires !Waiting(c, fs, name)
    ensures !Migrates(c, fs, name) && !Fails(c, fs, name) && FileSteps(c, fs, name) == [] && FileDone(c, fs, name) == fs
  {
  }

  // ------------------------------------------------------------ runs

  /** All states of a run over the given names, which stops at the first error. */
  function RunSteps(c: Config, fs: Fs, names: seq<string>): seq<Fs>
    decreases |names|
  {
    if names == [] || Fails(c, fs, names[0]) then [] else
    FileSteps(c, fs, names[0]) + RunSteps(c, FileDone(c, fs, names[0]), names[1..])
  }

  function RunDone(c: Config, fs: Fs, names: seq<string>): Fs
    decreases |names|
  {
    if names == [] || Fails(c, fs, names[0]) then fs else
    RunDone(c, FileDone(c, fs, names[0]), names[1..])
  }

  /** The run gets through all its names. */
  predicate Completes(c: Config, fs: Fs, names: seq<string>)
    decreases |names|
  {
    names == [] || (!Fails(c, fs, names[0]) && Completes(c, FileDone(c, fs, names[0]), names[1..]))
  }

  /** The number of files it migrates. */
  function Migrated(c: Config, fs: Fs, names: seq<string>): nat
    decreases |names|
  {
    if names == [] || Fails(c, fs, names[0]) then 0 else
    (if Migrates(c, fs, names[0]) then 1 else 0) + Migrated(c, FileDone(c, fs, names[0]), names[1..])
  }

  /** ReadDir: the names present, in the order of all names. */
  function Listing(c: Config, fs: Fs, order: seq<string>): seq<string> {
    if order == [] then [] else
    (if c.Legacy(order[0]) in fs then [order[0]] else []) + Listing(c, fs, order[1..])
  }

  function Listed(c: Config, fs: Fs): seq<string> { Listing(c, fs, c.order) }

  predicate NoRepeats(names: seq<string>) {
    forall i, j :: 0 <= i < j < |names| ==> names[i] != names[j]
  }

  /** The order of listing knows every name of the directory once. */
  ghost predicate Ordered(c: Config, fs: Fs) {
    NoRepeats(c.order) && forall name :: c.Legacy(name) in fs ==> name in c.order
  }

  predicate AllPresent(c: Config, fs: Fs, names: seq<string>) {
    forall i :: 0 <= i < |names| ==> c.Legacy(names[i]) in fs
  }

  lemma {:induction false} ListingIs(c: Config, fs: Fs, order: seq<string>)
    requires NoRepeats(order)
    ensures var names := Listing(c, fs, order);
            && NoRepeats(names) && AllPresent(c, fs, names)
            && forall x :: x in names <==> x in order && c.Legacy(x) in fs
  {
    if order != [] {
      assert NoRepeats(order[1..]);
      assert order == [order[0]] + order[1..];
      ListingIs(c, fs, order[1..]);
      hide Listing;
      var rest := Listing(c, fs, order[1..]);
      assert order[0] !in order[1..];
      if c.Legacy(order[0]) in fs {
        ListingFirst(c, fs, order);
        assert ([order[0]] + rest)[1..] == rest;
      } else {
        ListingFirst(c, fs, order);
      }
    }
  }

  lemma ListingFirst(c: Config, fs: Fs, order: seq<string>)
    requires order != []
    ensures Listing(c, fs, order)
            == if c.Legacy(order[0]) in fs then [order[0]] + Listing(c, fs, order[1..]) else Listing(c, fs, order[1..])
  {
  }

  // ------------------------------------------------------------ crashes

  /** The state a crash after k steps leaves. */
  function CrashedAt(c: Config, fs: Fs, names: seq<string>, k: nat): Fs
    requires k <= |RunSteps(c, fs, names)|
  {
    if k == 0 then fs else RunSteps(c, fs, names)[k - 1]
  }

  /** Short of the rename, a crashed migration has written the session's own two files only, and
      its metadata has the old summary or the new one. */
  lemma HalfMigrated(c: Config, fs: Fs, name: string, j: nat)
    requires !c.Shared() && name !in c.stuck && 0 < j < |FileSteps(c, fs, name)|
    ensures Migrates(c, fs, name)
    ensures var half, key := FileSteps(c, fs, name)[j - 1], KeyOf(c, fs, name);
            && (forall p :: p != c.MetaPath(key) && p != c.LogPath(key) ==>
                  (p in half <==> p in fs) && (p in fs ==> half[p] == fs[p]))
            && c.MetaPath(key) in half && half[c.MetaPath(key)].MetaFile?
            && half[c.MetaPath(key)].key == StoredKey(c, fs, key)
            && var summary := half[c.MetaPath(key)].meta.summary;
               var new' := fs[c.Legacy(name)].Summary();
               summary == ReadMeta(c, fs, key).summary || (new' != "" && summary == new')
  {
    hide Waiting;
    hide MetaReadable;
    hide KeyOf;
    StorePathsDiffer(c, KeyOf(c, fs, name), KeyOf(c, fs, name));
  }

  lemma SameWritten(c: Config, fs: Fs, half: Fs, name: string)
    requires Migrates(c, fs, name) && Migrates(c, half, name)
    requires half[c.Legacy(name)] == fs[c.Legacy(name)]
    requires var key := KeyOf(c, fs, name);
             && (forall p :: p != c.MetaPath(key) && p != c.LogPath(key) ==>
                   (p in half <==> p in fs) && (p in fs ==> half[p] == fs[p]))
             && StoredKey(c, half, key) == StoredKey(c, fs, key)
             && var new' := fs[c.Legacy(name)].Summary();
                new' == "" ==> ReadMeta(c, half, key).summary == ReadMeta(c, fs, key).summary
    ensures Written(c, half, name) == Written(c, fs, name)
  {
    var key := KeyOf(c, fs, name);
    var a, b := Written(c, half, name), Written(c, fs, name);
    assert a[c.MetaPath(key)] == b[c.MetaPath(key)] && a[c.LogPath(key)] == b[c.LogPath(key)];
    forall p ensures p in a <==> p in b {}
    forall p | p in a ensures a[p] == b[p] {}
  }

  /** Starting a file over from any state short of its rename ends where it would have ended. */
  lemma RedoFile(c: Config, fs: Fs, name: string, j: nat)
    requires !c.Shared() && name !in c.stuck && j < |FileSteps(c, fs, name)|
    ensures var half := if j == 0 then fs else FileSteps(c, fs, name)[j - 1];
            && Migrates(c, half, name) && FileDone(c, half, name) == FileDone(c, fs, name)
  {
    if j > 0 {
      HalfMigrated(c, fs, name, j);
      hide FileSteps;
      var half, key := FileSteps(c, fs, name)[j - 1], KeyOf(c, fs, name);
      assert half[c.Legacy(name)] == fs[c.Legacy(name)];
      SameWritten(c, fs, half, name);
      hide Written;
    }
  }

  lemma CrashedIn(c: Config, fs: Fs, names: seq<string>, k: nat)
    requires names != [] && 0 < k <= |RunSteps(c, fs, names)|
    ensures !Fails(c, fs, names[0])
    ensures var steps := FileSteps(c, fs, names[0]);
            && (k <= |steps| ==> CrashedAt(c, fs, names, k) == steps[k - 1])
            && (k > |steps| ==>
                  && k - |steps| <= |RunSteps(c, FileDone(c, fs, names[0]), names[1..])|
                  && CrashedAt(c, fs, names, k) == CrashedAt(c, FileDone(c, fs, names[0]), names[1..], k - |steps|))
  {
    hide Fails;
    hide FileSteps;
    hide FileDone;
  }

  /** A run gives no name back: in another directory than the store's, what does not wait now never
      waits again. */
  lemma {:induction false} NoneReturns(c: Config, fs: Fs, names: seq<string>, k: nat, x: string)
    requires !c.Shared() && c.stuck == {} && k <= |RunSteps(c, fs, names)| && !Waiting(c, fs, x)
    ensures !Waiting(c, CrashedAt(c, fs, names, k), x)
    decreases |names|
  {
    hide FileSteps;
    hide FileDone;
    hide Waiting;
    hide Fails;
    if k > 0 {
      var n := |FileSteps(c, fs, names[0])|;
      CrashedIn(c, fs, names, k);
      NotMigrated(c, fs, names[0]);
      if n > 0 {
        NoneReturnsInFile(c, fs, names[0], if k <= n then k else n, x);
        StepsEndDone(c, fs, names[0]);
      }
      hide CrashedAt;
      hide RunSteps;
      if k > n {
        NoneReturns(c, FileDone(c, fs, names[0]), names[1..], k - n, x);
      }
    }
  }

  lemma NotMigrated(c: Config, fs: Fs, name: string)
    ensures FileSteps(c, fs, name) == [] <==> !Migrates(c, fs, name)
    ensures FileSteps(c, fs, name) == [] ==> FileDone(c, fs, name) == fs
  {
    hide Migrates;
  }

  lemma NoneReturnsInFile(c: Config, fs: Fs, name: string, k: nat, x: string)
    requires !c.Shared() && c.stuck == {} && 0 < k <= |FileSteps(c, fs, name)| && !Waiting(c, fs, x)
    ensures !Waiting(c, FileSteps(c, fs, name)[k - 1], x)
  {
    NotMigrated(c, fs, name);
    if k < |FileSteps(c, fs, name)| {
      HalfMigrated(c, fs, name, k);
      hide FileSteps;
      assert c.Legacy(x) != c.MetaPath(KeyOf(c, fs, name)) && c.Legacy(x) != c.LogPath(KeyOf(c, fs, name));
    } else {
      StepsEndDone(c, fs, name);
      WaitsAfterFile(c, fs, name, x);
    }
  }

  lemma SkipsDone(c: Config, fs: Fs, names: seq<string>)
    requires names != [] && !Waiting(c, fs, names[0])
    ensures RunDone(c, fs, names) == RunDone(c, fs, names[1..])
    ensures Completes(c, fs, names) == Completes(c, fs, names[1..])
  {
    NothingToDo(c, fs, names[0]);
    hide Waiting;
    hide FileDone;
  }

  /** A crash anywhere, then a run over the same names: the end and the outcome of one run. */
  lemma {:induction false} RestartSameNames(c: Config, fs: Fs, names: seq<string>, k: nat)
    requires !c.Shared() && c.stuck == {} && k <= |RunSteps(c, fs, names)|
    ensures RunDone(c, CrashedAt(c, fs, names, k), names) == RunDone(c, fs, names)
    ensures Completes(c, CrashedAt(c, fs, names, k), names) == Completes(c, fs, names)
    decreases |names|
  {
    hide FileSteps;
    hide FileDone;
    hide Waiting;
    if names != [] && k > 0 {
      var n := |FileSteps(c, fs, names[0])|;
      CrashedIn(c, fs, names, k);
      NotMigrated(c, fs, names[0]);
      StepsEndDone(c, fs, names[0]);
      if k < n {
        RedoFile(c, fs, names[0], k);
      } else {
        var done, crashed := FileDone(c, fs, names[0]), CrashedAt(c, fs, names, k);
        assert k == n ==> crashed == done;
        assert crashed == CrashedAt(c, done, names[1..], k - n);
        DoneWaitsNoMore(c, fs, names[0]);
        NoneReturns(c, done, names[1..], k - n, names[0]);
        SkipsDone(c, crashed, names);
        hide CrashedAt;
        RestartSameNames(c, done, names[1..], k - n);
      }
    }
  }

  lemma DoneWaitsNoMore(c: Config, fs: Fs, name: string)
    requires c.stuck == {} && !Fails(c, fs, name)
    ensures !Waiting(c, FileDone(c, fs, name), name)
  {
    if Migrates(c, fs, name) { WaitsAfterFile(c, fs, name, name); }
  }

  /** Names that were absent when the directory was listed change nothing later in the run. */
  lemma {:induction false} ListingSuffices(c: Config, fs: Fs, order: seq<string>, listed: Fs)
    requires !c.Shared() && c.stuck == {}
    requires forall x :: x in order && Waiting(c, fs, x) ==> c.Legacy(x) in listed
    ensures RunSteps(c, fs, Listing(c, listed, order)) == RunSteps(c, fs, order)
    ensures RunDone(c, fs, Listing(c, listed, order)) == RunDone(c, fs, order)
    ensures Completes(c, fs, Listing(c, listed, order)) == Completes(c, fs, order)
    decreases |order|
  {
    if order != [] {
      var names, rest := Listing(c, listed, order), Listing(c, listed, order[1..]);
      var done := FileDone(c, fs, order[0]);
      ListingFirst(c, listed, order);
      if c.Legacy(order[0]) in listed {
        assert names[1..] == rest;
      } else {
        NothingToDo(c, fs, order[0]);
      }
      if !Fails(c, fs, order[0]) {
        forall x | x in order[1..] && Waiting(c, done, x) ensures c.Legacy(x) in listed {
          if Migrates(c, fs, order[0]) { WaitsAfterFile(c, fs, order[0], x); }
        }
        hide Waiting;
        hide FileDone;
        hide FileSteps;
        hide Fails;
        hide Listing;
        ListingSuffices(c, done, order[1..], listed);
      }
    }
  }

  lemma ListedSuffices(c: Config, fs: Fs)
    requires !c.Shared() && c.stuck == {}
    ensures RunSteps(c, fs, Listed(c, fs)) == RunSteps(c, fs, c.order)
    ensures RunDone(c, fs, Listed(c, fs)) == RunDone(c, fs, c.order)
    ensures Completes(c, fs, Listed(c, fs)) == Completes(c, fs, c.order)
  {
    ListingSuffices(c, fs, c.order, fs);
  }

  /** With the legacy directory apart from the store's and renames that succeed, a crash after any
      disk step and then a new run gives the store, the renamed files and the outcome of one run. */
  lemma RestartGivesSameEnd(c: Config, fs: Fs, k: nat)
    requires !c.Shared() && c.stuck == {} && k <= |RunSteps(c, fs, Listed(c, fs))|
    ensures var crashed := CrashedAt(c, fs, Listed(c, fs), k);
            && RunDone(c, crashed, Listed(c, crashed)) == RunDone(c, fs, Listed(c, fs))
            && Completes(c, crashed, Listed(c, crashed)) == Completes(c, fs, Listed(c, fs))
  {
    ListedSuffices(c, fs);
    var crashed := CrashedAt(c, fs, c.order, k);
    ListedSuffices(c, crashed);
    RestartSameNames(c, fs, c.order, k);
    hide *;
    assert RunSteps(c, fs, Listed(c, fs)) == RunSteps(c, fs, c.order);
    CrashedSame(c, fs, Listed(c, fs), c.order, k);
  }

  lemma CrashedSame(c: Config, fs: Fs, a: seq<string>, b: seq<string>, k: nat)
    requires RunSteps(c, fs, a) == RunSteps(c, fs, b) && k <= |RunSteps(c, fs, a)|
    ensures CrashedAt(c, fs, a, k) == CrashedAt(c, fs, b, k)
  {
  }

  /** What is left after some runs, each stopped by a crash after the given number of steps. */
  function AfterCrashes(c: Config, fs: Fs, crashes: seq<nat>): Fs
    decreases |crashes|
  {
    if crashes == [] then fs else
    var n := |RunSteps(c, fs, Listed(c, fs))|;
    AfterCrashes(c, CrashedAt(c, fs, Listed(c, fs), if crashes[0] <= n then crashes[0] else n), crashes[1..])
  }

  /** The same for any number of crashes. */
  lemma {:induction false} CrashIdempotent(c: Config, fs: Fs, crashes: seq<nat>)
    requires !c.Shared() && c.stuck == {}
    ensures var crashed := AfterCrashes(c, fs, crashes);
            && RunDone(c, crashed, Listed(c, crashed)) == RunDone(c, fs, Listed(c, fs))
            && Completes(c, crashed, Listed(c, crashed)) == Completes(c, fs, Listed(c, fs))
    decreases |crashes|
  {
    if crashes != [] {
      var n := |RunSteps(c, fs, Listed(c, fs))|;
      var k := if crashes[0] <= n then crashes[0] else n;
      RestartGivesSameEnd(c, fs, k);
      CrashIdempotent(c, CrashedAt(c, fs, Listed(c, fs), k), crashes[1..]);
    }
  }

  // ------------------------------------------------------------ a second run

  /** The file at index i leaves a metadata file behind that this run does not come to any more. */
  predicate LeavesMeta(c: Config, fs: Fs, names: seq<string>, i: nat)
    requires i < |names|
  {
    c.Shared() && Waiting(c, fs, names[i]) && MetaName(KeyOf(c, fs, names[i])) !in names[i..]
  }

  ghost predicate LeftBehind(c: Config, fs: Fs, names: seq<string>, x: string) {
    exists i: nat :: i < |names| && LeavesMeta(c, fs, names, i) && MetaName(KeyOf(c, fs, names[i])) == x
  }

  lemma AfterFile(c: Config, fs: Fs, name: string, x: string)
    requires c.stuck == {} && !Fails(c, fs, name)
    ensures var done := FileDone(c, fs, name);
            && (Waiting(c, done, x) <==>
                  || (Waiting(c, fs, x) && x != name)
                  || (Waiting(c, fs, name) && x != name && c.Shared() && x == MetaName(KeyOf(c, fs, name))))
            && (x != name && Waiting(c, fs, x) ==> KeyOf(c, done, x) == KeyOf(c, fs, x))
            && (x != name && c.Legacy(x) in fs ==> c.Legacy(x) in done && (Waiting(c, done, x) <==> Waiting(c, fs, x)))
  {
    if Waiting(c, fs, name) {
      WaitsAfterFile(c, fs, name, x);
      DoneAt(c, fs, name, c.Legacy(x));
      MetaNameIsJson(KeyOf(c, fs, name));
    } else {
      NothingToDo(c, fs, name);
    }
    hide FileDone;
    hide MetaName;
    hide HasSuffix;
  }

  lemma LeavesMetaLater(c: Config, fs: Fs, names: seq<string>, i: nat)
    requires c.stuck == {} && names != [] && !Fails(c, fs, names[0])
    requires NoRepeats(names) && AllPresent(c, fs, names) && 0 < i < |names|
    ensures LeavesMeta(c, fs, names, i) <==> LeavesMeta(c, FileDone(c, fs, names[0]), names[1..], i - 1)
    ensures Waiting(c, fs, names[i]) ==>
              && Waiting(c, FileDone(c, fs, names[0]), names[i])
              && KeyOf(c, FileDone(c, fs, names[0]), names[i]) == KeyOf(c, fs, names[i])
  {
    AfterFile(c, fs, names[0], names[i]);
    assert names[1..][i - 1] == names[i] && names[1..][i - 1..] == names[i..];
    hide Waiting;
    hide KeyOf;
    hide FileDone;
    hide MetaName;
  }

  lemma LeftBehindNow(c: Config, fs: Fs, names: seq<string>, x: string)
    requires c.stuck == {} && names != [] && !Fails(c, fs, names[0]) && NoRepeats(names) && AllPresent(c, fs, names)
    ensures LeftBehind(c, fs, names, x) <==>
              || LeftBehind(c, FileDone(c, fs, names[0]), names[1..], x)
              || (LeavesMeta(c, fs, names, 0) && MetaName(KeyOf(c, fs, names[0])) == x)
  {
    var done := FileDone(c, fs, names[0]);
    hide MetaName;
    hide FileDone;
    hide Waiting;
    if LeftBehind(c, fs, names, x) {
      var i: nat :| i < |names| && LeavesMeta(c, fs, names, i) && MetaName(KeyOf(c, fs, names[i])) == x;
      if i > 0 {
        LeavesMetaLater(c, fs, names, i);
        assert LeavesMeta(c, done, names[1..], i - 1) && names[1..][i - 1] == names[i];
      }
    }
    if LeftBehind(c, done, names[1..], x) {
      var i: nat :| && i < |names[1..]| && LeavesMeta(c, done, names[1..], i)
                    && MetaName(KeyOf(c, done, names[1..][i])) == x;
      LeavesMetaLater(c, fs, names, i + 1);
      assert LeavesMeta(c, fs, names, i + 1);
    }
  }

  /** Who waits after a complete run: the names it did not list, and the metadata files it wrote too
      late to come to them. */
  lemma {:induction false} WaitsAfterRun(c: Config, fs: Fs, names: seq<string>, x: string)
    requires c.stuck == {} && NoRepeats(names) && AllPresent(c, fs, names) && Completes(c, fs, names)
    ensures Waiting(c, RunDone(c, fs, names), x) <==> (Waiting(c, fs, x) && x !in names) || LeftBehind(c, fs, names, x)
    decreases |names|
  {
    if names != [] {
      var done, rest := FileDone(c, fs, names[0]), names[1..];
      assert NoRepeats(rest);
      forall i | 0 <= i < |rest| ensures c.Legacy(rest[i]) in done { AfterFile(c, fs, names[0], rest[i]); }
      WaitsAfterRun(c, done, rest, x);
      LeftBehindNow(c, fs, names, x);
      AfterFile(c, fs, names[0], x);
      assert x in names <==> x == names[0] || x in rest;
      assert LeavesMeta(c, fs, names, 0) <==>
               c.Shared() && Waiting(c, fs, names[0]) && MetaName(KeyOf(c, fs, names[0])) !in names by {
        assert names[0..] == names;
      }
      hide MetaName;
      hide FileDone;
      hide Waiting;
      hide LeftBehind;
    }
  }

  lemma {:induction false} NobodyWaits(c: Config, fs: Fs, names: seq<string>)
    requires forall x :: x in names ==> !Waiting(c, fs, x)
    ensures RunSteps(c, fs, names) == [] && RunDone(c, fs, names) == fs
    decreases |names|
  {
    if names != [] {
      NothingToDo(c, fs, names[0]);
      NobodyWaits(c, fs, names[1..]);
    }
  }

  /** A metadata file under the name of the key in it. */
  predicate SelfNamed(c: Config, fs: Fs, x: string) {
    c.Legacy(x) in fs && fs[c.Legacy(x)].IsObject() && MetaName(fs[c.Legacy(x)].key) == x
  }

  lemma SelfNamedKept(c: Config, fs: Fs, name: string, x: string)
    requires c.stuck == {} && !Fails(c, fs, name)
    requires Waiting(c, fs, x) ==> x == name || SelfNamed(c, fs, x)
    ensures Waiting(c, FileDone(c, fs, name), x) ==> SelfNamed(c, FileDone(c, fs, name), x)
  {
    AfterFile(c, fs, name, x);
    if Waiting(c, fs, name) {
      DoneAt(c, fs, name, c.Legacy(x));
      MetaNameIsJson(KeyOf(c, fs, name));
      MigratedNames(name, name);
      if HasSuffix(x, ".json") { JsonIsNoOther(x, KeyOf(c, fs, name), name); }
    } else {
      NothingToDo(c, fs, name);
    }
    hide FileDone;
    hide HasSuffix;
    hide MetaName;
  }

  /** What waits after a run that listed everything is a metadata file the run has made. */
  lemma {:induction false} WaitingIsSelfNamed(c: Config, fs: Fs, names: seq<string>, x: string)
    requires c.stuck == {} && Completes(c, fs, names)
    requires Waiting(c, fs, x) ==> x in names || SelfNamed(c, fs, x)
    requires Waiting(c, RunDone(c, fs, names), x)
    ensures SelfNamed(c, RunDone(c, fs, names), x)
    decreases |names|
  {
    if names != [] {
      var done := FileDone(c, fs, names[0]);
      if !(Waiting(c, fs, x) && x != names[0] && x in names[1..]) {
        SelfNamedKept(c, fs, names[0], x);
      }
      hide FileDone;
      hide Waiting;
      hide SelfNamed;
      WaitingIsSelfNamed(c, done, names[1..], x);
    }
  }

  /** Everything that waits is listed. */
  lemma WaitingListed(c: Config, fs: Fs, x: string)
    requires Ordered(c, fs) && Waiting(c, fs, x)
    ensures x in Listed(c, fs)
  {
    ListingIs(c, fs, c.order);
  }

  /** A run over a waiting name that leaves everything as it was has met a file that makes the name
      anew, and only the metadata of a session named ".meta" is made by another file. */
  lemma UnchangedWaiting(c: Config, fs: Fs, x: string) returns (y: string)
    requires c.stuck == {} && Ordered(c, fs) && Completes(c, fs, Listed(c, fs))
    requires RunDone(c, fs, Listed(c, fs)) == fs && Waiting(c, fs, x)
    requires forall z :: Waiting(c, fs, z) ==> SelfNamed(c, fs, z)
    ensures Waiting(c, fs, y) && y != x && fs[c.Legacy(y)].key == "" && MetaName(KeyOf(c, fs, y)) == x
  {
    var names := Listed(c, fs);
    ListingIs(c, fs, c.order);
    WaitingListed(c, fs, x);
    WaitsAfterRun(c, fs, names, x);
    var i: nat :| i < |names| && LeavesMeta(c, fs, names, i) && MetaName(KeyOf(c, fs, names[i])) == x;
    y := names[i];
    assert names[i..][0] == y;
  }

  /** While anything waits, a complete run leaves something different. */
  lemma WaitingMeansChange(c: Config, fs: Fs, x: string)
    requires c.stuck == {} && Ordered(c, fs) && Completes(c, fs, Listed(c, fs)) && Waiting(c, fs, x)
    requires forall z :: Waiting(c, fs, z) ==> SelfNamed(c, fs, z)
    ensures RunDone(c, fs, Listed(c, fs)) != fs
  {
    if RunDone(c, fs, Listed(c, fs)) == fs {
      var y := UnchangedWaiting(c, fs, x);
      assert y == MetaName("");
      var _ := UnchangedWaiting(c, fs, y);
    }
  }

  /** Exactly when migrating is idempotent: a second complete run changes nothing if and only if no
      file of the first one has its session's metadata in the same directory under a name that the
      first run did not come to at or after that file. */
  lemma SecondRunChangesNothingIff(c: Config, fs: Fs)
    requires c.stuck == {} && Ordered(c, fs) && Completes(c, fs, Listed(c, fs))
    requires var end := RunDone(c, fs, Listed(c, fs)); Ordered(c, end) && Completes(c, end, Listed(c, end))
    ensures var names, end := Listed(c, fs), RunDone(c, fs, Listed(c, fs));
            && (RunDone(c, end, Listed(c, end)) == end
                <==> forall i: nat :: i < |names| ==> !LeavesMeta(c, fs, names, i))
            && (RunDone(c, end, Listed(c, end)) == end <==> RunSteps(c, end, Listed(c, end)) == [])
  {
    var names, end := Listed(c, fs), RunDone(c, fs, Listed(c, fs));
    ListingIs(c, fs, c.order);
    forall z | Waiting(c, end, z) ensures SelfNamed(c, end, z) && LeftBehind(c, fs, names, z) {
      if Waiting(c, fs, z) { WaitingListed(c, fs, z); }
      WaitsAfterRun(c, fs, names, z);
      WaitingIsSelfNamed(c, fs, names, z);
    }
    if x :| Waiting(c, end, x) {
      WaitingMeansChange(c, end, x);
      StepsChange(c, end, Listed(c, end));
    } else {
      NobodyWaits(c, end, Listed(c, end));
      forall i: nat | i < |names| ensures !LeavesMeta(c, fs, names, i) {
        if LeavesMeta(c, fs, names, i) {
          WaitsAfterRun(c, fs, names, MetaName(KeyOf(c, fs, names[i])));
        }
      }
    }
  }

  lemma {:induction false} StepsChange(c: Config, fs: Fs, names: seq<string>)
    requires RunDone(c, fs, names) != fs
    ensures RunSteps(c, fs, names) != []
    decreases |names|
  {
    NotMigrated(c, fs, names[0]);
    hide FileSteps;
    hide FileDone;
    if FileSteps(c, fs, names[0]) == [] {
      StepsChange(c, fs, names[1..]);
    }
  }

  /** In a directory of its own the legacy files are gone after one run. */
  lemma ApartIsIdempotent(c: Config, fs: Fs)
    requires !c.Shared() && c.stuck == {} && Ordered(c, fs) && Completes(c, fs, Listed(c, fs))
    ensures var end := RunDone(c, fs, Listed(c, fs));
            RunDone(c, end, Listed(c, end)) == end && forall x :: !Waiting(c, end, x)
  {
    var names, end := Listed(c, fs), RunDone(c, fs, Listed(c, fs));
    ListingIs(c, fs, c.order);
    forall x ensures !Waiting(c, end, x) {
      if Waiting(c, fs, x) { WaitingListed(c, fs, x); }
      WaitsAfterRun(c, fs, names, x);
    }
    NobodyWaits(c, end, Listed(c, end));
  }

  // ------------------------------------------------------------ what a run does to the sessions

  /** Migrating a file touches no session but its own. */
  lemma SessionKeptByFile(c: Config, fs: Fs, name: string, key: string)
    requires Migrates(c, fs, name) && SanitizeKey(KeyOf(c, fs, name)) != SanitizeKey(key)
    requires c.Shared() ==> name != MetaName(key)
    ensures FilesAt(c, FileDone(c, fs, name), key) == FilesAt(c, fs, key)
  {
    MetaNameIsJson(key);
    MigratedNames(name, name);
    JsonIsNoOther(MetaName(key), key, name);
    JsonIsNoOther(name, key, name);
    LogIsNoOther(key, name);
    StorePathsDiffer(c, KeyOf(c, fs, name), key);
    StorePathsDiffer(c, key, KeyOf(c, fs, name));
    DoneAt(c, fs, name, c.MetaPath(key));
    DoneAt(c, fs, name, c.LogPath(key));
    hide FileDone;
    hide HasSuffix;
    hide MetaName;
    hide SanitizeKey;
  }

  lemma LogIsNoOther(key: string, other: string)
    ensures SanitizeKey(key) + ".jsonl" != other + ".migrated"
  {
    var log, migrated := SanitizeKey(key) + ".jsonl", other + ".migrated";
    assert log[|log| - 1] == 'l' && migrated[|migrated| - 1] == 'd';
  }

  /** The file is no business of the session's. */
  predicate Elsewhere(c: Config, fs: Fs, name: string, key: string) {
    Waiting(c, fs, name) ==>
      SanitizeKey(KeyOf(c, fs, name)) != SanitizeKey(key) && (c.Shared() ==> name != MetaName(key))
  }

  lemma ElsewhereKept(c: Config, fs: Fs, name: string, y: string, key: string)
    requires c.stuck == {} && !Fails(c, fs, name) && y != name && c.Legacy(y) in fs && Elsewhere(c, fs, y, key)
    ensures c.Legacy(y) in FileDone(c, fs, name) && Elsewhere(c, FileDone(c, fs, name), y, key)
  {
    AfterFile(c, fs, name, y);
    hide FileDone;
    hide MetaName;
    hide SanitizeKey;
  }

  /** Sessions of no listed file are untouched. */
  lemma {:induction false} Untouched(c: Config, fs: Fs, names: seq<string>, key: string)
    requires c.stuck == {} && NoRepeats(names) && AllPresent(c, fs, names)
    requires forall i :: 0 <= i < |names| ==> Elsewhere(c, fs, names[i], key)
    ensures FilesAt(c, RunDone(c, fs, names), key) == FilesAt(c, fs, key)
    decreases |names|
  {
    if names != [] && !Fails(c, fs, names[0]) {
      var done, rest := FileDone(c, fs, names[0]), names[1..];
      if Migrates(c, fs, names[0]) {
        SessionKeptByFile(c, fs, names[0], key);
      }
      forall i | 0 <= i < |rest| ensures c.Legacy(rest[i]) in done && Elsewhere(c, done, rest[i], key) {
        ElsewhereKept(c, fs, names[0], rest[i], key);
      }
      hide FileDone;
      hide Elsewhere;
      hide FilesAt;
      hide Fails;
      hide Migrates;
      Untouched(c, done, rest, key);
    }
  }

  /** A migrated file stays under its new name. */
  lemma {:induction false} Settled(c: Config, fs: Fs, names: seq<string>, x: string)
    requires c.stuck == {} && x !in names && c.Legacy(x + ".migrated") in fs
    ensures var end := RunDone(c, fs, names);
            c.Legacy(x + ".migrated") in end && end[c.Legacy(x + ".migrated")] == fs[c.Legacy(x + ".migrated")]
    decreases |names|
  {
    if names != [] && !Fails(c, fs, names[0]) {
      if Migrates(c, fs, names[0]) {
        MigratedIsNoStoreFile(c, fs, names[0], x);
        DoneAt(c, fs, names[0], c.Legacy(x + ".migrated"));
      }
      hide FileDone;
      hide Fails;
      hide Migrates;
      Settled(c, FileDone(c, fs, names[0]), names[1..], x);
    }
  }

  lemma MigratedIsNoStoreFile(c: Config, fs: Fs, name: string, x: string)
    requires Migrates(c, fs, name) && x != name
    ensures var p, key := c.Legacy(x + ".migrated"), KeyOf(c, fs, name);
            p != c.Legacy(name) && p != c.Legacy(name + ".migrated") && p != c.MetaPath(key) && p != c.LogPath(key)
  {
    var key := KeyOf(c, fs, name);
    MetaNameIsJson(key);
    MigratedNames(x, name);
    JsonIsNoOther(MetaName(key), key, x);
    JsonIsNoOther(name, key, x);
    LogIsNoOther(key, x);
  }

  /** What the two files of a session hold once a file has been migrated into it. */
  lemma SessionWritten(c: Config, fs: Fs, name: string)
    requires Migrates(c, fs, name) && c.stuck == {}
    ensures var e, key := fs[c.Legacy(name)], KeyOf(c, fs, name);
            var log, meta := MarshalAll(e.Messages(), c.fits), FilesAt(c, fs, key).Metadata();
            var summary := if e.Summary() == "" then meta.summary else e.Summary();
            FilesAt(c, FileDone(c, fs, name), key)
            == Files(log, if c.Legacy(name) == c.MetaPath(key) then None else Some(Meta(summary, 0, |e.Messages()|)))
  {
    var key := KeyOf(c, fs, name);
    MetaNameIsJson(key);
    MigratedNames(name, name);
    JsonIsNoOther(MetaName(key), key, name);
    JsonIsNoOther(name, key, name);
    LogIsNoOther(key, name);
    StorePathsDiffer(c, key, key);
    DoneAt(c, fs, name, c.MetaPath(key));
    DoneAt(c, fs, name, c.LogPath(key));
    hide FileDone;
    hide HasSuffix;
    hide MetaName;
    hide SanitizeKey;
  }

  /** The file of another session, which does not write to the file x either. */
  predicate Apart(c: Config, fs: Fs, name: string, x: string, key: string) {
    && Elsewhere(c, fs, name, key)
    && (c.Shared() && Waiting(c, fs, name) ==> MetaName(KeyOf(c, fs, name)) != x)
  }

  lemma ApartKept(c: Config, fs: Fs, name: string, y: string, x: string, key: string)
    requires c.stuck == {} && !Fails(c, fs, name) && y != name && c.Legacy(y) in fs && Apart(c, fs, y, x, key)
    ensures c.Legacy(y) in FileDone(c, fs, name) && Apart(c, FileDone(c, fs, name), y, x, key)
  {
    AfterFile(c, fs, name, y);
    hide FileDone;
    hide MetaName;
    hide SanitizeKey;
  }

  lemma FileKeptByFile(c: Config, fs: Fs, name: string, x: string)
    requires c.stuck == {} && !Fails(c, fs, name) && x != name && Waiting(c, fs, x)
    requires c.Shared() && Waiting(c, fs, name) ==> MetaName(KeyOf(c, fs, name)) != x
    ensures var done := FileDone(c, fs, name);
            Waiting(c, done, x) && KeyOf(c, done, x) == KeyOf(c, fs, x) && done[c.Legacy(x)] == fs[c.Legacy(x)]
  {
    AfterFile(c, fs, name, x);
    if Waiting(c, fs, name) {
      JsonIsNoOther(x, KeyOf(c, fs, name), name);
      DoneAt(c, fs, name, c.Legacy(x));
    } else {
      NothingToDo(c, fs, name);
    }
    hide FileDone;
    hide MetaName;
    hide HasSuffix;
  }

  /** A complete run writes the session of every waiting file that no other file interferes with, and
      renames the file. */
  lemma {:induction false} RunMigrates(c: Config, fs: Fs, names: seq<string>, x: string)
    requires c.stuck == {} && NoRepeats(names) && AllPresent(c, fs, names) && Completes(c, fs, names)
    requires x in names && Waiting(c, fs, x)
    requires forall i :: 0 <= i < |names| && names[i] != x ==> Apart(c, fs, names[i], x, KeyOf(c, fs, x))
    ensures var e, key, end := fs[c.Legacy(x)], KeyOf(c, fs, x), RunDone(c, fs, names);
            var summary := if e.Summary() == "" then FilesAt(c, fs, key).Metadata().summary else e.Summary();
            && FilesAt(c, end, key)
               == Files(MarshalAll(e.Messages(), c.fits),
                        if c.Legacy(x) == c.MetaPath(key) then None else Some(Meta(summary, 0, |e.Messages()|)))
            && c.Legacy(x + ".migrated") in end
            && (c.Legacy(x) != c.MetaPath(key) ==> end[c.Legacy(x + ".migrated")] == e)
    decreases |names|
  {
    var done, rest, key := FileDone(c, fs, names[0]), names[1..], KeyOf(c, fs, x);
    assert NoRepeats(rest);
    if names[0] == x {
      SessionWritten(c, fs, x);
      DoneAt(c, fs, x, c.Legacy(x + ".migrated"));
      JsonIsNoOther(x, key, x);
      forall i | 0 <= i < |rest| ensures c.Legacy(rest[i]) in done && Elsewhere(c, done, rest[i], key) {
        ApartKept(c, fs, x, rest[i], x, key);
      }
      hide FileDone;
      hide Elsewhere;
      hide FilesAt;
      Untouched(c, done, rest, key);
      Settled(c, done, rest, x);
    } else {
      SessionKept(c, fs, names[0], key);
      FileKeptByFile(c, fs, names[0], x);
      forall i | 0 <= i < |rest| && rest[i] != x ensures Apart(c, done, rest[i], x, key) {
        ApartKept(c, fs, names[0], rest[i], x, key);
      }
      forall i | 0 <= i < |rest| ensures c.Legacy(rest[i]) in done { AfterFile(c, fs, names[0], rest[i]); }
      hide FileDone;
      hide Elsewhere;
      hide FilesAt;
      hide Waiting;
      RunMigrates(c, done, rest, x);
    }
  }

  lemma SessionKept(c: Config, fs: Fs, name: string, key: string)
    requires !Fails(c, fs, name) && Elsewhere(c, fs, name, key)
    ensures FilesAt(c, FileDone(c, fs, name), key) == FilesAt(c, fs, key)
  {
    if Migrates(c, fs, name) { SessionKeptByFile(c, fs, name, key); }
  }

  /** In a directory of its own, such a file reads back from the store as the legacy session. */
  lemma MigratedReads(c: Config, fs: Fs, x: string)
    requires !c.Shared() && c.stuck == {} && Ordered(c, fs) && Completes(c, fs, Listed(c, fs)) && Waiting(c, fs, x)
    requires forall y :: Waiting(c, fs, y) && y != x ==> SanitizeKey(KeyOf(c, fs, y)) != SanitizeKey(KeyOf(c, fs, x))
    requires var msgs := fs[c.Legacy(x)].Messages(); forall i :: 0 <= i < |msgs| ==> c.fits(msgs[i])
    ensures var e, key, end := fs[c.Legacy(x)], KeyOf(c, fs, x), RunDone(c, fs, Listed(c, fs));
            && Abs(FilesAt(c, end, key))
               == Session(e.Messages(), if e.Summary() == "" then Abs(FilesAt(c, fs, key)).summary else e.Summary())
            && SessionLog.GetHistory(FilesAt(c, end, key)) == Ok(e.Messages())
            && c.Legacy(x + ".migrated") in end && end[c.Legacy(x + ".migrated")] == e
  {
    var e, names := fs[c.Legacy(x)], Listed(c, fs);
    ListingIs(c, fs, c.order);
    WaitingListed(c, fs, x);
    RunMigrates(c, fs, names, x);
    MessagesOfMarshalled(e.Messages(), c.fits);
    hide RunDone;
    hide FilesAt;
    hide Listed;
    assert MarshalAll(e.Messages(), c.fits)[0..] == MarshalAll(e.Messages(), c.fits);
  }

  lemma StemOf(c: Config, fs: Fs, name: string) returns (stem: string)
    requires Waiting(c, fs, name)
    ensures name == stem + ".json" && KeyOf(c, fs, name) == KeyFor(stem, fs[c.Legacy(name)].key)
  {
    WaitingIff(c, fs, name);
    stem :| name == stem + ".json";
    KeyOfStem(c, fs, stem);
  }

  lemma OthersElsewhere(c: Config, fs: Fs, stem: string)
    requires Waiting(c, fs, stem + ".json")
    requires forall other :: other != stem && c.Legacy(other + ".json") in fs
                             && fs[c.Legacy(other + ".json")].IsObject() ==>
               SanitizeKey(KeyFor(other, fs[c.Legacy(other + ".json")].key))
               != SanitizeKey(KeyFor(stem, fs[c.Legacy(stem + ".json")].key))
    ensures forall y :: Waiting(c, fs, y) && y != stem + ".json" ==>
              SanitizeKey(KeyOf(c, fs, y)) != SanitizeKey(KeyOf(c, fs, stem + ".json"))
  {
    KeyOfStem(c, fs, stem);
    forall y | Waiting(c, fs, y) && y != stem + ".json"
      ensures SanitizeKey(KeyOf(c, fs, y)) != SanitizeKey(KeyOf(c, fs, stem + ".json"))
    {
      var other := StemOf(c, fs, y);
      hide KeyOf;
      hide KeyFor;
      hide SanitizeKey;
    }
  }

  /** Every session saved in the legacy directory as stem and ".json" arrives: after a complete run the store
      reads it back under its own key, or its stem if it has none, and the file stays as a backup. */
  lemma SavedSessionArrives(c: Config, fs: Fs, stem: string, saved: string, messages: seq<Message>, summary: string)
    requires !c.Shared() && c.stuck == {} && Ordered(c, fs) && Completes(c, fs, Listed(c, fs))
    requires var p := c.Legacy(stem + ".json"); p in fs && fs[p] == Saved(saved, messages, summary)
    requires forall other :: other != stem && c.Legacy(other + ".json") in fs
                             && fs[c.Legacy(other + ".json")].IsObject() ==>
               SanitizeKey(KeyFor(other, fs[c.Legacy(other + ".json")].key)) != SanitizeKey(KeyFor(stem, saved))
    requires forall i :: 0 <= i < |messages| ==> c.fits(messages[i])
    ensures var end, key := RunDone(c, fs, Listed(c, fs)), KeyFor(stem, saved);
            && SessionLog.GetHistory(FilesAt(c, end, key)) == Ok(messages)
            && Abs(FilesAt(c, end, key)).summary
               == (if summary == "" then Abs(FilesAt(c, fs, key)).summary else summary)
            && c.Legacy(stem + ".json.migrated") in end
            && end[c.Legacy(stem + ".json.migrated")] == Saved(saved, messages, summary)
  {
    var x := stem + ".json";
    KeyOfStem(c, fs, stem);
    OthersElsewhere(c, fs, stem);
    assert x + ".migrated" == stem + ".json.migrated";
    assert fs[c.Legacy(x)].Messages() == messages && fs[c.Legacy(x)].Summary() == summary;
    hide *;
    MigratedReads(c, fs, x);
  }

  /** A metadata file of the store that is in the legacy directory is taken for a session without
      messages, written over the session and then moved away: messages and summary are both lost. */
  lemma MetadataFileLosesSession(c: Config, fs: Fs, x: string)
    requires c.Shared() && c.stuck == {} && Ordered(c, fs) && Completes(c, fs, Listed(c, fs))
    requires Waiting(c, fs, x) && fs[c.Legacy(x)].MetaFile? && x == MetaName(KeyOf(c, fs, x))
    requires forall y :: Waiting(c, fs, y) && y != x ==> SanitizeKey(KeyOf(c, fs, y)) != SanitizeKey(KeyOf(c, fs, x))
    ensures var end, key := RunDone(c, fs, Listed(c, fs)), KeyOf(c, fs, x);
            && FilesAt(c, end, key) == Files([], None) && Abs(FilesAt(c, end, key)) == Session([], "")
            && c.Legacy(x + ".migrated") in end
  {
    var key, names := KeyOf(c, fs, x), Listed(c, fs);
    ListingIs(c, fs, c.order);
    WaitingListed(c, fs, x);
    forall i | 0 <= i < |names| && names[i] != x ensures Apart(c, fs, names[i], x, key) {
      if Waiting(c, fs, names[i]) { StorePathsDiffer(c, KeyOf(c, fs, names[i]), key); }
    }
    RunMigrates(c, fs, names, x);
    assert MarshalAll([], c.fits) == [];
    hide RunDone;
    hide FilesAt;
    hide Listed;
  }

  function WaitingIn(c: Config, fs: Fs, names: seq<string>): seq<string> {
    if names == [] then [] else
    (if Waiting(c, fs, names[0]) then [names[0]] else []) + WaitingIn(c, fs, names[1..])
  }

  lemma {:induction false} WaitingInKept(c: Config, fs: Fs, done: Fs, names: seq<string>)
    requires forall x :: x in names ==> (Waiting(c, done, x) <==> Waiting(c, fs, x))
    ensures WaitingIn(c, done, names) == WaitingIn(c, fs, names)
  {
    if names != [] { WaitingInKept(c, fs, done, names[1..]); }
  }

  /** The number a complete run returns is that of the files that waited. */
  lemma {:induction false} CountsWaiting(c: Config, fs: Fs, names: seq<string>)
    requires c.stuck == {} && NoRepeats(names) && AllPresent(c, fs, names) && Completes(c, fs, names)
    ensures Migrated(c, fs, names) == |WaitingIn(c, fs, names)|
    decreases |names|
  {
    if names != [] {
      var done, rest := FileDone(c, fs, names[0]), names[1..];
      assert NoRepeats(rest);
      forall i | 0 <= i < |rest|
        ensures c.Legacy(rest[i]) in done && (Waiting(c, done, rest[i]) <==> Waiting(c, fs, rest[i]))
      {
        AfterFile(c, fs, names[0], rest[i]);
      }
      hide FileDone;
      WaitingInKept(c, fs, done, rest);
      CountsWaiting(c, done, rest);
      hide Waiting;
    }
  }

  // ------------------------------------------------------------ the migration loop

  lemma WrittenBySteps(c: Config, fs: Fs, withHistory: Fs, name: string)
    requires Migrates(c, fs, name)
    requires withHistory == HistorySteps(c, fs, KeyOf(c, fs, name), fs[c.Legacy(name)].Messages())[1]
    ensures var e, key := fs[c.Legacy(name)], KeyOf(c, fs, name);
            && MetaReadable(c, withHistory, key)
            && (e.Summary() == "" ==> withHistory == Written(c, fs, name))
            && WithMeta(c, withHistory, key, ReadMeta(c, withHistory, key).(summary := e.Summary()))
               == WithMeta(c, fs, key, Meta(e.Summary(), 0, |e.Messages()|))
                  [c.LogPath(key) := Log(MarshalAll(e.Messages(), c.fits))]
  {
    StorePathsDiffer(c, KeyOf(c, fs, name), KeyOf(c, fs, name));
    hide MetaName;
    hide SanitizeKey;
  }

  /** A whole run over `names` from `start`, with `past` behind it, and what it returns. */
  predicate Ran(c: Config, start: Fs, past: seq<Fs>, names: seq<string>,
                now: Fs, trace: seq<Fs>, migrated: nat, ok: bool) {
    && now == RunDone(c, start, names) && trace == past + RunSteps(c, start, names)
    && migrated == Migrated(c, start, names) && ok == Completes(c, start, names)
  }

  /** Where a run over `names` that began at `start`, with `past` behind it, is after the first i. */
  predicate Progress(c: Config, start: Fs, past: seq<Fs>, names: seq<string>,
                     i: nat, now: Fs, trace: seq<Fs>, migrated: nat) {
    && i <= |names|
    && RunDone(c, start, names) == RunDone(c, now, names[i..])
    && past + RunSteps(c, start, names) == trace + RunSteps(c, now, names[i..])
    && Migrated(c, start, names) == migrated + Migrated(c, now, names[i..])
    && Completes(c, start, names) == Completes(c, now, names[i..])
  }

  lemma ProgressStarts(c: Config, start: Fs, past: seq<Fs>, names: seq<string>)
    ensures Progress(c, start, past, names, 0, start, past, 0)
  {
    assert names[0..] == names;
  }

  lemma ProgressMade(c: Config, start: Fs, past: seq<Fs>, names: seq<string>,
                     i: nat, now: Fs, trace: seq<Fs>, migrated: nat)
    requires Progress(c, start, past, names, i, now, trace, migrated) && i < |names|
    ensures Fails(c, now, names[i]) ==>
              && Ran(c, start, past, names, now, trace, migrated, false)
              && FileDone(c, now, names[i]) == now && FileSteps(c, now, names[i]) == []
    ensures !Fails(c, now, names[i]) ==>
              Progress(c, start, past, names, i + 1, FileDone(c, now, names[i]), trace + FileSteps(c, now, names[i]),
                       if Migrates(c, now, names[i]) then migrated + 1 else migrated)
  {
    assert names[i..][1..] == names[i + 1..];
    if Fails(c, now, names[i]) { NotMigrated(c, now, names[i]); }
    hide FileSteps;
    hide FileDone;
    hide Migrates;
    hide Fails;
  }

  lemma ProgressEnds(c: Config, start: Fs, past: seq<Fs>, names: seq<string>, now: Fs, trace: seq<Fs>, migrated: nat)
    requires Progress(c, start, past, names, |names|, now, trace, migrated)
    ensures Ran(c, start, past, names, now, trace, migrated, true)
  {
  }

  class Migrator {
    const c: Config
    var fs: Fs
    ghost var trace: seq<Fs>   // every state so far: a crash leaves the last one

    constructor (c: Config, fs: Fs)
      ensures this.c == c && this.fs == fs && trace == []
    {
      this.c, this.fs, trace := c, fs, [];
    }

    /** Atomic replacement of a file. */
    method WriteFile(p: Path, content: Content)
      modifies this
      ensures fs == old(fs)[p := content] && trace == old(trace) + [fs]
    {
      fs := fs[p := content];
      trace := trace + [fs];
    }

    method Rename(name: string)
      requires c.Legacy(name) in fs
      modifies this
      ensures fs == if name in c.stuck then old(fs) else Renamed(c, old(fs), name)
      ensures trace == old(trace) + if name in c.stuck then [] else [fs]
    {
      if name in c.stuck {
        return;
      }
      fs := (fs - {c.Legacy(name)})[c.Legacy(name + ".migrated") := fs[c.Legacy(name)]];
      trace := trace + [fs];
    }

    method ReadDir() returns (names: seq<string>)
      ensures names == Listed(c, fs)
    {
      names := [];
      var i := |c.order|;
      while i > 0
        invariant 0 <= i <= |c.order| && names == Listing(c, fs, c.order[i..])
      {
        i := i - 1;
        assert c.order[i..][1..] == c.order[i + 1..];
        if c.Legacy(c.order[i]) in fs {
          names := [c.order[i]] + names;
        }
      }
      assert c.order[0..] == c.order;
    }

    /** The store's SetHistory on this directory. */
    method SetHistory(key: string, history: seq<Message>) returns (ok: bool)
      modifies this
      ensures ok == MetaReadable(c, old(fs), key)
      ensures !ok ==> fs == old(fs) && trace == old(trace)
      ensures ok ==> fs == HistorySteps(c, old(fs), key, history)[1]
      ensures ok ==> trace == old(trace) + HistorySteps(c, old(fs), key, history)
    {
      if c.MetaPath(key) in fs && !fs[c.MetaPath(key)].IsObject() {
        return false;
      }
      var meta, stored := ReadMeta(c, fs, key), StoredKey(c, fs, key);
      WriteFile(c.MetaPath(key), MetaFile(stored, meta.(skip := 0, count := |history|)));
      WriteFile(c.LogPath(key), Log(MarshalAll(history, c.fits)));
      return true;
    }

    method SetSummary(key: string, summary: string)
      requires MetaReadable(c, fs, key)
      modifies this
      ensures fs == WithMeta(c, old(fs), key, ReadMeta(c, old(fs), key).(summary := summary))
      ensures trace == old(trace) + [fs]
    {
      var meta, stored := ReadMeta(c, fs, key), StoredKey(c, fs, key);
      WriteFile(c.MetaPath(key), MetaFile(stored, meta.(summary := summary)));
    }

    method MigrateFile(name: string) returns (done: bool, failed: bool)
      modifies this
      ensures done == Migrates(c, old(fs), name) && failed == Fails(c, old(fs), name)
      ensures fs == FileDone(c, old(fs), name)
      ensures trace == old(trace) + FileSteps(c, old(fs), name)
    {
      if !HasSuffix(name, ".json") || HasSuffix(name, ".migrated") {
        return false, false;
      }
      if c.Legacy(name) !in fs || !fs[c.Legacy(name)].IsObject() {
        return false, false;
      }
      var e := fs[c.Legacy(name)];
      var key := e.key;
      if key == "" {
        key := name[..|name| - |".json"|];
      }
      var ok := SetHistory(key, e.Messages());
      if !ok {
        return false, true;
      }
      ghost var withHistory := fs;
      if e.Summary() != "" {
        SetSummary(key, e.Summary());
      }
      WrittenBySteps(c, old(fs), withHistory, name);
      assert fs == Written(c, old(fs), name);
      Rename(name);
      return true, false;
    }

    /** Migrates the listed files up to the first error. */
    method MigrateFromJSON() returns (migrated: nat, ok: bool)
      modifies this
      ensures Ran(c, old(fs), old(trace), Listed(c, old(fs)), fs, trace, migrated, ok)
    {
      var entries := ReadDir();
      migrated := 0;
      ghost var start, past := fs, trace;
      ProgressStarts(c, start, past, entries);
      hide FileSteps;
      hide FileDone;
      hide Migrates;
      hide Fails;
      hide Progress;
      hide Ran;
      var i := 0;
      while i < |entries|
        invariant 0 <= i <= |entries|
        invariant Progress(c, start, past, entries, i, fs, trace, migrated)
      {
        ProgressMade(c, start, past, entries, i, fs, trace, migrated);
        var done, failed := MigrateFile(entries[i]);
        if failed {
          return migrated, false;
        }
        if done {
          migrated := migrated + 1;
        }
        i := i + 1;
      }
      ProgressEnds(c, start, past, entries, fs, trace, migrated);
      return migrated, true;
    }
  }
}
