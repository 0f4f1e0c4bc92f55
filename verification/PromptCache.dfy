/** The cached system prompt: tracked files may change between any two file system calls, and a
    cache the change check accepts still agrees with a build from scratch. */
module PromptCache {
  import opened Options

  datatype File = File(content: string, mtime: nat)

  type Files = map<string, File>

  /** The file system at a moment; nothing on it is newer than the clock. */
  datatype Moment = Moment(files: Files, clock: nat)

  /** Modification times are nanoseconds since the zero time. */
  const ZERO_TIME: nat := 0
  const OLD_TIME: nat := 62135596801000000000   // one second into 1970

  /** Files may be deleted; a file that is created or written gets a modification time above
      all earlier ones. */
  ghost predicate Next(a: Moment, b: Moment) {
    && a.clock <= b.clock
    && forall p :: p in b.files ==>
         && (a.clock < b.files[p].mtime || (p in a.files && a.files[p] == b.files[p]))
         && b.files[p].mtime <= b.clock
  }

  ghost predicate Evolves(trace: seq<Moment>) {
    && trace != [] && OLD_TIME <= trace[0].clock
    && (forall p :: p in trace[0].files ==> trace[0].files[p].mtime <= trace[0].clock)
    && (forall i :: 0 <= i < |trace| - 1 ==> Next(trace[i], trace[i + 1]))
  }

  function MtimeAt(trace: seq<Moment>, i: nat, p: string): Option<nat>
    requires i < |trace|
  {
    if p in trace[i].files then Some(trace[i].files[p].mtime) else None
  }

  function ContentAt(trace: seq<Moment>, i: nat, p: string): Option<string>
    requires i < |trace|
  {
    if p in trace[i].files then Some(trace[i].files[p].content) else None
  }

  lemma {:induction false} ClockRuns(trace: seq<Moment>, i: nat, j: nat, p: string)
    requires Evolves(trace) && i <= j < |trace|
    ensures trace[i].clock <= trace[j].clock && OLD_TIME <= trace[i].clock
    ensures p in trace[i].files ==> trace[i].files[p].mtime <= trace[i].clock
    decreases j
  {
    if i < j {
      ClockRuns(trace, i, j - 1, p);
      assert Next(trace[j - 1], trace[j]);
    } else if i > 0 {
      ClockRuns(trace, i - 1, i - 1, p);
      assert Next(trace[i - 1], trace[i]);
    }
  }

  /** A file no newer than an earlier moment has been the same ever since that moment. */
  lemma {:induction false} OldMeansUntouched(trace: seq<Moment>, i: nat, k: nat, j: nat, p: string)
    requires Evolves(trace) && i <= k <= j < |trace|
    requires p in trace[j].files && trace[j].files[p].mtime <= trace[i].clock
    ensures p in trace[k].files && trace[k].files[p] == trace[j].files[p]
    decreases j
  {
    if k < j {
      assert Next(trace[j - 1], trace[j]);
      ClockRuns(trace, i, j - 1, p);
      OldMeansUntouched(trace, i, k, j - 1, p);
    }
  }

  // ------------------------------------------------------------ the prompt

  const BOOTSTRAP := ["AGENTS.md", "SOUL.md", "USER.md", "IDENTITY.md"]
  const SEPARATOR := "\n\n---\n\n"
  const SKILLS_INTRO :=
    "# Skills\n\nThe following skills extend your capabilities. "
    + "To use a skill, read its SKILL.md file using the read_file tool.\n\n"

  /** One of the files the prompt is built from: a tracked source file, or a file below a skill root. */
  datatype Slot = Source(path: string) | Skill(path: string)

  type Sightings = map<Slot, Option<string>>

  /** What of the agent does not change: `skills` summarises the skill files, `memory` the long-term
      memory with the daily notes; `skillPaths` are all files there may be below the skill roots. */
  datatype Config = Config(workspace: string, identity: string, roots: seq<string>, skillPaths: seq<string>,
                           skills: map<string, string> -> string, memory: Option<string> -> string)
  {
    function SourcePaths(): seq<string> {
      [BootstrapPath(0), BootstrapPath(1), BootstrapPath(2), BootstrapPath(3), MemoryPath()]
    }

    function BootstrapPath(i: nat): string
      requires i < |BOOTSTRAP|
    {
      workspace + "/" + BOOTSTRAP[i]
    }

    function MemoryPath(): string { workspace + "/memory/MEMORY.md" }

    /** The files the prompt is built from. */
    function Slots(): set<Slot> {
      (set p | p in SourcePaths() :: Source(p)) + (set p | p in skillPaths :: Skill(p))
    }

    /** What the change check looks at: these files and the skill roots. */
    function Tracked(): set<Slot> {
      (set p | p in SourcePaths() + roots :: Source(p)) + (set p | p in skillPaths :: Skill(p))
    }
  }

  function Seen(seen: Sightings, s: Slot): Option<string> {
    if s in seen then seen[s] else None
  }

  function BootstrapFrom(c: Config, seen: Sightings, i: nat): string
    requires i <= |BOOTSTRAP|
    decreases |BOOTSTRAP| - i
  {
    if i == |BOOTSTRAP| then "" else
    var data := Seen(seen, Source(c.BootstrapPath(i)));
    (if data.Some? then "## " + BOOTSTRAP[i] + "\n\n" + data.value + "\n\n" else "") + BootstrapFrom(c, seen, i + 1)
  }

  function SkillsOf(c: Config, seen: Sightings): map<string, string> {
    map p | p in c.skillPaths && Seen(seen, Skill(p)).Some? :: seen[Skill(p)].value
  }

  function Part(title: string, text: string): string {
    if text == "" then "" else SEPARATOR + title + text
  }

  /** The prompt that a set of sightings gives. */
  function Prompt(c: Config, seen: Sightings): string {
    c.identity
    + Part("", BootstrapFrom(c, seen, 0))
    + Part(SKILLS_INTRO, c.skills(SkillsOf(c, seen)))
    + Part("# Memory\n\n", c.memory(Seen(seen, Source(c.MemoryPath()))))
  }

  /** A build that sees all files at one moment. */
  function FreshBuild(c: Config, trace: seq<Moment>, i: nat): string
    requires i < |trace|
  {
    Prompt(c, map s | s in c.Slots() :: ContentAt(trace, i, s.path))
  }

  // ------------------------------------------------------------ the cache

  datatype Baseline = Baseline(existed: map<string, bool>, skillFiles: map<string, nat>, maxMtime: nat)

  /** When each file was looked at while the cache was made, and when the baseline began and was complete. */
  datatype Times = Times(began: nat, statAt: map<Slot, nat>, complete: nat, readAt: map<Slot, nat>)

  /** What the change check compares for one file. */
  predicate Unchanged(b: Baseline, s: Slot, mtime: Option<nat>) {
    match s
    case Source(p) =>
      && (p in b.existed && b.existed[p]) == mtime.Some?
      && (mtime.Some? ==> mtime.value <= b.maxMtime)
    case Skill(p) =>
      mtime == if p in b.skillFiles then Some(b.skillFiles[p]) else None
  }

  /** The baseline is what the file system showed, each file at its own moment. */
  ghost predicate Recorded(c: Config, trace: seq<Moment>, b: Baseline, t: Times) {
    && t.complete < |trace|
    && b.maxMtime <= trace[t.complete].clock
    && (forall s :: s in c.Tracked() ==>
          && s in t.statAt && t.began <= t.statAt[s] <= t.complete
          && Unchanged(b, s, MtimeAt(trace, t.statAt[s], s.path)))
    && (forall p :: p in b.skillFiles ==> p in c.skillPaths)
  }

  /** The prompt is what the reads after the baseline gave, each at its own moment. */
  ghost predicate Built(c: Config, trace: seq<Moment>, prompt: string, t: Times, seen: Sightings) {
    && prompt == Prompt(c, seen)
    && seen.Keys == c.Slots()
    && (forall s :: s in c.Slots() ==>
          && s in t.readAt && t.complete <= t.readAt[s] < |trace|
          && seen[s] == ContentAt(trace, t.readAt[s], s.path))
  }

  /** A check between `start` and `end` that noticed nothing, looking at each file at its own moment. */
  ghost predicate NothingNoticed(c: Config, trace: seq<Moment>, b: Baseline, start: nat, end: nat,
                                 checkAt: map<Slot, nat>) {
    && end < |trace|
    && (forall s :: s in c.Tracked() ==>
          && s in checkAt && start <= checkAt[s] <= end
          && Unchanged(b, s, MtimeAt(trace, checkAt[s], s.path)))
  }

  /** The file is not created and deleted again between two moments. */
  ghost predicate NoFlicker(trace: seq<Moment>, p: string, from: nat, to: nat)
    requires to < |trace|
  {
    forall i, j, k :: from <= i <= j <= k <= to && p !in trace[i].files && p !in trace[k].files ==> p !in trace[j].files
  }

  /** One file that shows no change has, at the start of the check, the content the build read. */
  lemma UnnoticedMeansSame(trace: seq<Moment>, p: string, stat: nat, complete: nat, read: nat, start: nat, check: nat)
    requires Evolves(trace) && stat <= complete <= read <= start <= check < |trace|
    requires MtimeAt(trace, stat, p).Some? <==> MtimeAt(trace, check, p).Some?
    requires p in trace[check].files ==> trace[check].files[p].mtime <= trace[complete].clock
    requires p !in trace[check].files ==> NoFlicker(trace, p, stat, check)
    ensures ContentAt(trace, read, p) == ContentAt(trace, start, p)
  {
    if p in trace[check].files {
      OldMeansUntouched(trace, complete, read, check, p);
      OldMeansUntouched(trace, complete, start, check, p);
    }
  }

  lemma FileAgrees(c: Config, trace: seq<Moment>, b: Baseline, t: Times, read: nat, start: nat, end: nat,
                   checkAt: map<Slot, nat>, s: Slot)
    requires Evolves(trace) && s in c.Slots()
    requires Recorded(c, trace, b, t) && t.complete <= read <= start
    requires NothingNoticed(c, trace, b, start, end, checkAt)
    requires NoFlicker(trace, s.path, t.began, end)
    ensures ContentAt(trace, read, s.path) == ContentAt(trace, start, s.path)
  {
    assert s in c.Tracked();
    ClockRuns(trace, t.statAt[s], t.complete, s.path);
    assert Unchanged(b, s, MtimeAt(trace, checkAt[s], s.path));
    hide Evolves;
    UnnoticedMeansSame(trace, s.path, t.statAt[s], t.complete, read, start, checkAt[s]);
  }

  lemma SameContents(c: Config, trace: seq<Moment>, t: Times, prompt: string, seen: Sightings, start: nat)
    requires Built(c, trace, prompt, t, seen) && start < |trace|
    requires forall s :: s in c.Slots() ==> ContentAt(trace, t.readAt[s], s.path) == ContentAt(trace, start, s.path)
    ensures prompt == FreshBuild(c, trace, start)
  {
    assert seen == map s | s in c.Slots() :: ContentAt(trace, start, s.path);
  }

  /** If the change check notices nothing, the cached prompt is the one a build from scratch
      would give at the start of the check. */
  lemma CacheAgrees(c: Config, trace: seq<Moment>, b: Baseline, t: Times, prompt: string, seen: Sightings,
                    start: nat, end: nat, checkAt: map<Slot, nat>)
    requires Evolves(trace) && start <= end
    requires Recorded(c, trace, b, t) && Built(c, trace, prompt, t, seen)
    requires forall s :: s in c.Slots() ==> t.readAt[s] <= start
    requires NothingNoticed(c, trace, b, start, end, checkAt)
    requires forall s :: s in c.Slots() ==> NoFlicker(trace, s.path, t.began, end)
    ensures prompt == FreshBuild(c, trace, start)
  {
    hide Config.Slots;
    hide Prompt;
    hide Evolves;
    hide NoFlicker;
    forall s | s in c.Slots() ensures ContentAt(trace, t.readAt[s], s.path) == ContentAt(trace, start, s.path) {
      FileAgrees(c, trace, b, t, t.readAt[s], start, end, checkAt, s);
    }
    hide ContentAt;
    hide Recorded;
    hide NothingNoticed;
    SameContents(c, trace, t, prompt, seen, start);
  }

  /** A look between two moments at which something tracked differs from the baseline. */
  ghost predicate Noticed(c: Config, trace: seq<Moment>, b: Baseline, from: nat, to: nat)
    requires to < |trace|
  {
    exists s, j :: s in c.Tracked() && from <= j <= to && !Unchanged(b, s, MtimeAt(trace, j, s.path))
  }

  /** No tracked path is touched between two moments. */
  ghost predicate Still(c: Config, trace: seq<Moment>, from: nat, to: nat)
    requires to < |trace|
  {
    forall s, i, j :: s in c.Tracked() && from <= i <= to && from <= j <= to ==>
      MtimeAt(trace, i, s.path) == MtimeAt(trace, j, s.path)
  }

  /** Files left alone since the baseline give the change check nothing to notice. */
  lemma StillUnnoticed(c: Config, trace: seq<Moment>, b: Baseline, t: Times, from: nat, to: nat)
    requires Recorded(c, trace, b, t) && t.complete <= from <= to < |trace| && Still(c, trace, t.began, to)
    ensures !Noticed(c, trace, b, from, to)
  {
    hide Config.Tracked;
    hide Unchanged;
    forall s, j | s in c.Tracked() && from <= j <= to ensures Unchanged(b, s, MtimeAt(trace, j, s.path)) {
      assert MtimeAt(trace, t.statAt[s], s.path) == MtimeAt(trace, j, s.path);
    }
  }

  /** Without that hypothesis it fails: a file created after it was looked at, read by the build
      and deleted before the check is in the cached prompt and in no other. */
  lemma FlickerGoesUnnoticed(c: Config)
    returns (trace: seq<Moment>, b: Baseline, t: Times, prompt: string, seen: Sightings,
             start: nat, checkAt: map<Slot, nat>)
    requires c.skillPaths == []
    ensures Evolves(trace) && Recorded(c, trace, b, t) && Built(c, trace, prompt, t, seen)
    ensures NothingNoticed(c, trace, b, start, start, checkAt)
    ensures forall s :: s in c.Slots() ==> t.readAt[s] <= start
    ensures prompt != FreshBuild(c, trace, start)
  {
    trace := FlickeringFile(c.BootstrapPath(0));
    b, t, start := Baseline(map[], map[], OLD_TIME), FlickerTimes(c), 2;
    seen, checkAt := FlickerSeen(c), FlickerChecks(c);
    prompt := Prompt(c, seen);
    FlickerRecorded(c, trace);
    FlickerBuilt(c, trace);
    FlickerDiffers(c, trace);
    FlickerReadEarly(c);
    hide *;
  }

  function FlickerTimes(c: Config): Times {
    Times(0, map s | s in c.Tracked() :: 0, 0,
          map s | s in c.Slots() :: if s == Source(c.BootstrapPath(0)) then 1 else 2)
  }

  function FlickerSeen(c: Config): Sightings {
    map s | s in c.Slots() :: if s == Source(c.BootstrapPath(0)) then Some("") else None
  }

  function FlickerChecks(c: Config): map<Slot, nat> {
    map s | s in c.Tracked() :: 2
  }

  lemma FlickerBuilt(c: Config, trace: seq<Moment>)
    requires |trace| == 3 && trace[2].files == map[]
    requires trace[1].files == map[c.BootstrapPath(0) := File("", OLD_TIME + 1)]
    requires forall s :: s in c.Slots() ==> s.Source?
    ensures Built(c, trace, Prompt(c, FlickerSeen(c)), FlickerTimes(c), FlickerSeen(c))
  {
    hide Config.Slots;
    hide Prompt;
    hide Config.BootstrapPath;
  }

  lemma FlickerDiffers(c: Config, trace: seq<Moment>)
    requires c.skillPaths == [] && |trace| == 3 && trace[2].files == map[] && Source(c.BootstrapPath(0)) in c.Slots()
    ensures Prompt(c, FlickerSeen(c)) != FreshBuild(c, trace, 2)
  {
    var now := map s | s in c.Slots() :: ContentAt(trace, 2, s.path);
    FlickerShows(c, FlickerSeen(c), now);
    hide Config.Slots;
    hide Prompt;
  }

  lemma FlickerReadEarly(c: Config)
    ensures forall s :: s in c.Slots() ==> s in FlickerTimes(c).readAt && FlickerTimes(c).readAt[s] <= 2
  {
    hide Config.Slots;
  }

  lemma FlickerRecorded(c: Config, trace: seq<Moment>)
    requires c.skillPaths == [] && |trace| == 3
    requires trace[0].clock == OLD_TIME && trace[0].files == trace[2].files == map[]
    ensures Recorded(c, trace, Baseline(map[], map[], OLD_TIME), FlickerTimes(c))
    ensures NothingNoticed(c, trace, Baseline(map[], map[], OLD_TIME), 2, 2, FlickerChecks(c))
    ensures Source(c.BootstrapPath(0)) in c.Slots() && forall s :: s in c.Slots() ==> s.Source?
  {
    assert c.SourcePaths()[0] == c.BootstrapPath(0);
    AbsentUnnoticed(c, trace, 0);
    AbsentUnnoticed(c, trace, 2);
    hide Config.Tracked;
    hide Config.SourcePaths;
    hide Config.BootstrapPath;
    hide Unchanged;
  }

  lemma AbsentUnnoticed(c: Config, trace: seq<Moment>, i: nat)
    requires c.skillPaths == [] && i < |trace| && trace[i].files == map[]
    ensures forall s :: s in c.Tracked() ==> Unchanged(Baseline(map[], map[], OLD_TIME), s, MtimeAt(trace, i, s.path))
  {
    hide Config.SourcePaths;
  }

  lemma FlickeringFile(p: string) returns (trace: seq<Moment>)
    ensures Evolves(trace) && |trace| == 3 && trace[0].clock == OLD_TIME
    ensures trace[0].files == trace[2].files == map[] && trace[1].files == map[p := File("", OLD_TIME + 1)]
  {
    trace := [Moment(map[], OLD_TIME), Moment(map[p := File("", OLD_TIME + 1)], OLD_TIME + 1),
              Moment(map[], OLD_TIME + 1)];
    assert Next(trace[0], trace[1]) && Next(trace[1], trace[2]);
  }

  lemma FlickerShows(c: Config, seen: Sightings, now: Sightings)
    requires c.skillPaths == [] && Source(c.BootstrapPath(0)) in seen
    requires forall s :: s in now ==> now[s] == None
    requires forall s :: s in seen ==> seen[s] == if s == Source(c.BootstrapPath(0)) then Some("") else None
    ensures Prompt(c, seen) != Prompt(c, now)
  {
    assert SkillsOf(c, seen) == SkillsOf(c, now) == map[];
    assert |c.MemoryPath()| != |c.BootstrapPath(0)|;
    assert Seen(seen, Source(c.MemoryPath())) == Seen(now, Source(c.MemoryPath())) == None;
    assert |BootstrapFrom(c, seen, 0)| > 0;
    assert |Part("", BootstrapFrom(c, seen, 0))| > 0;
    hide SkillsOf;
    assert BootstrapFrom(c, now, 0) == "";
    hide BootstrapFrom;
  }
}
