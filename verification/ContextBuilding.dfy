/** The context builder's cache: baseline, build and change check run file by file while the
    file system moves on, and what the lock protects may change hands between two sections. */
module ContextBuilding {
  import opened Options
  import opened PromptCache
  import opened PromptContents

  /** Parts, each behind a separator. */
  function Sections(parts: seq<string>): string
    decreases |parts|
  {
    if parts == [] then "" else Sections(parts[..|parts| - 1]) + (SEPARATOR + parts[|parts| - 1])
  }

  lemma NoSections()
    ensures Sections([]) == ""
  {
  }

  lemma Join(a: string, b: string, c: string, d: string)
    ensures a + (b + c + d) == a + b + c + d
  {
  }

  /** A part is added unless its text is empty. */
  lemma SectionsAdd(parts: seq<string>, title: string, text: string)
    requires parts != []
    ensures Sections((parts + [title + text])[1..]) == Sections(parts[1..]) + (SEPARATOR + (title + text))
    ensures text != "" ==> Part(title, text) == SEPARATOR + (title + text)
  {
    assert (parts + [title + text])[1..] == parts[1..] + [title + text];
    assert (parts[1..] + [title + text])[..|parts| - 1] == parts[1..];
  }

  /** Each sighting is of a moment in the window. */
  ghost predicate SeenAt(trace: seq<Moment>, seen: Sightings, readAt: map<Slot, nat>, from: nat, to: nat) {
    && to < |trace| && seen.Keys == readAt.Keys
    && forall s :: s in seen ==> from <= readAt[s] <= to && seen[s] == ContentAt(trace, readAt[s], s.path)
  }

  /** Each check is of a moment in the window and saw no change. */
  ghost predicate Quiet(trace: seq<Moment>, b: Baseline, checkAt: map<Slot, nat>, from: nat, to: nat) {
    && to < |trace|
    && forall s :: s in checkAt ==> from <= checkAt[s] <= to && Unchanged(b, s, MtimeAt(trace, checkAt[s], s.path))
  }

  lemma SeenMore(trace: seq<Moment>, seen: Sightings, readAt: map<Slot, nat>, from: nat, before: nat, now: nat,
                 slot: Slot)
    requires SeenAt(trace, seen, readAt, from, before) && from <= before <= now < |trace|
    ensures SeenAt(trace, seen[slot := ContentAt(trace, now, slot.path)], readAt[slot := now], from, now)
  {
  }

  lemma QuietMore(trace: seq<Moment>, b: Baseline, checkAt: map<Slot, nat>, from: nat, before: nat, now: nat,
                  slot: Slot)
    requires Quiet(trace, b, checkAt, from, before) && from <= before <= now < |trace|
    ensures Quiet(trace, b, checkAt, from, now)
    ensures Unchanged(b, slot, MtimeAt(trace, now, slot.path)) ==> Quiet(trace, b, checkAt[slot := now], from, now)
  {
  }

  /** The cache was made up to now: the baseline first, then the reads the prompt was built from. */
  ghost predicate Caches(c: Config, trace: seq<Moment>, b: Baseline, t: Times, prompt: string, seen: Sightings,
                         now: nat) {
    && Recorded(c, trace, b, t) && Built(c, trace, prompt, t, seen)
    && (forall s :: s in c.Slots() ==> t.readAt[s] <= now)
  }

  lemma CachesLater(c: Config, trace: seq<Moment>, b: Baseline, t: Times, prompt: string, seen: Sightings, now: nat,
                    later: nat)
    requires Caches(c, trace, b, t, prompt, seen, now) && now <= later
    ensures Caches(c, trace, b, t, prompt, seen, later)
  {
    hide Recorded;
    hide Config.Slots;
    hide Prompt;
  }

  lemma SnapshotFits(c: Config, trace: seq<Moment>, b: Baseline, t: Times, prompt: string, seen: Sightings, now: nat)
    requires Caches(c, trace, b, t, prompt, seen, now)
    ensures forall p :: p in b.skillFiles ==> p in c.skillPaths
  {
  }

  lemma StillGoes(c: Config, trace: seq<Moment>, b: Baseline, t: Times, prompt: string, seen: Sightings, from: nat,
                  to: nat)
    requires Caches(c, trace, b, t, prompt, seen, from) && c.SourcePaths() != [] && from <= to < |trace|
    ensures Still(c, trace, t.began, to) ==> !Noticed(c, trace, b, from, to)
  {
    if Still(c, trace, t.began, to) {
      assert Source(c.SourcePaths()[0]) in c.Slots();
      StillUnnoticed(c, trace, b, t, from, to);
    }
  }

  lemma CheckAgrees(c: Config, trace: seq<Moment>, b: Baseline, t: Times, prompt: string, seen: Sightings,
                    start: nat, now: nat, checkAt: map<Slot, nat>)
    requires Evolves(trace) && start <= now && Caches(c, trace, b, t, prompt, seen, start)
    requires NothingNoticed(c, trace, b, start, now, checkAt)
    ensures Steady(c, trace, t.began, now) ==> prompt == FreshBuild(c, trace, start)
  {
    if Steady(c, trace, t.began, now) {
      CacheAgrees(c, trace, b, t, prompt, seen, start, now, checkAt);
    }
  }

  /** No file of the prompt is created and deleted again in the window. */
  ghost predicate Steady(c: Config, trace: seq<Moment>, from: nat, to: nat)
    requires to < |trace|
  {
    forall s :: s in c.Slots() ==> NoFlicker(trace, s.path, from, to)
  }

  lemma SourcesAreTracked(c: Config)
    ensures forall p :: p in c.SourcePaths() ==> Source(p) in c.Tracked()
    ensures forall p :: p in c.roots ==> Source(p) in c.Tracked()
  {
    hide Config.SourcePaths;
  }

  /** What was noticed from some moment on was noticed from any earlier one on. */
  lemma NoticedLater(c: Config, trace: seq<Moment>, b: Baseline, from: nat, middle: nat, to: nat)
    requires from <= middle <= to < |trace|
    ensures Noticed(c, trace, b, middle, to) ==> Noticed(c, trace, b, from, to)
  {
    hide Config.Tracked;
    hide Unchanged;
  }

  lemma StillShorter(c: Config, trace: seq<Moment>, from: nat, to: nat, later: nat)
    requires to <= later < |trace|
    ensures Still(c, trace, from, later) ==> Still(c, trace, from, to)
  {
    hide Config.Tracked;
    hide MtimeAt;
  }

  lemma AllQuiet(c: Config, trace: seq<Moment>, b: Baseline, sources: map<Slot, nat>, roots: map<Slot, nat>,
                 skills: map<Slot, nat>,
                 from: nat, first: nat, second: nat, to: nat)
    requires from <= first <= second <= to
    requires Quiet(trace, b, sources, from, first) && Quiet(trace, b, roots, first, second)
    requires Quiet(trace, b, skills, second, to)
    requires sources.Keys == set p | p in c.SourcePaths() :: Source(p)
    requires roots.Keys == set p | p in c.roots :: Source(p)
    requires (forall s :: s in skills ==> s.Skill?) && forall p :: p in c.skillPaths ==> Skill(p) in skills
    ensures NothingNoticed(c, trace, b, from, to, sources + roots + skills)
  {
    hide Config.SourcePaths;
    hide Unchanged;
  }

  lemma RecordedAndBuilt(c: Config, trace: seq<Moment>, b: Baseline, t: Times, seen: Sightings,
                         readAt: map<Slot, nat>, now: nat)
    requires Recorded(c, trace, b, t) && seen.Keys == c.Slots() && SeenAt(trace, seen, readAt, t.complete, now)
    ensures Caches(c, trace, b, t.(readAt := readAt), Prompt(c, seen), seen, now)
  {
    hide Config.Slots;
    hide Prompt;
    hide Unchanged;
  }

  class ContextBuilder {
    const c: Config
    const trace: seq<Moment>                           // the file system over time
    var now: nat
    var cachedSystemPrompt: string
    var cachedAt: nat
    var existedAtCache: Option<map<string, bool>>
    var skillFilesAtCache: Option<map<string, nat>>
    ghost var times: Times
    ghost var seen: Sightings

    ghost predicate Running()
      reads this
    {
      Evolves(trace) && now < |trace| && c.identity != ""
    }

    function CachedBaseline(): Baseline
      reads this
    {
      Baseline(if existedAtCache.Some? then existedAtCache.value else map[],
               if skillFilesAtCache.Some? then skillFilesAtCache.value else map[], cachedAt)
    }

    /** A cached prompt was built from what the files held after its baseline was taken. */
    ghost predicate Valid()
      reads this
    {
      && Running()
      && (cachedSystemPrompt != "" ==>
            && existedAtCache.Some? && skillFilesAtCache.Some? && cachedAt != ZERO_TIME
            && Caches(c, trace, CachedBaseline(), times, cachedSystemPrompt, seen, now))
    }

    constructor (c: Config, trace: seq<Moment>)
      requires Evolves(trace) && c.identity != ""
      ensures Valid() && this.c == c && this.trace == trace
    {
      this.c, this.trace, now := c, trace, 0;
      cachedSystemPrompt, cachedAt, existedAtCache, skillFilesAtCache := "", ZERO_TIME, None, None;
      times, seen := Times(0, map[], 0, map[]), map[];
    }

    /** Time passes, and files change. */
    method Tick()
      requires now < |trace|
      modifies this`now
      ensures old(now) <= now < |trace|
    {
      var next: int := *;
      if now <= next < |trace| {
        now := next;
      }
    }

    method Stat(path: string) returns (mtime: Option<nat>)
      requires now < |trace|
      modifies this`now
      ensures old(now) <= now < |trace| && mtime == MtimeAt(trace, now, path)
    {
      Tick();
      mtime := if path in trace[now].files then Some(trace[now].files[path].mtime) else None;
    }

    method ReadFile(path: string) returns (data: Option<string>)
      requires now < |trace|
      modifies this`now
      ensures old(now) <= now < |trace| && data == ContentAt(trace, now, path)
    {
      Tick();
      data := if path in trace[now].files then Some(trace[now].files[path].content) else None;
    }

    /** Existence of the tracked paths and the newest modification time among them. */
    method StatPaths(paths: seq<string>)
      returns (existed: map<string, bool>, maxMtime: nat, ghost statAt: map<Slot, nat>)
      requires Running()
      modifies this`now
      ensures Running() && old(now) <= now && maxMtime <= trace[now].clock
      ensures forall s :: s in statAt ==> s.Source?
      ensures forall p :: p in paths ==>
                && Source(p) in statAt && old(now) <= statAt[Source(p)] <= now
                && p in existed && existed[p] == MtimeAt(trace, statAt[Source(p)], p).Some?
                && (existed[p] ==> MtimeAt(trace, statAt[Source(p)], p).value <= maxMtime)
    {
      existed, maxMtime, statAt := map[], ZERO_TIME, map[];
      for i := 0 to |paths|
        invariant Running() && old(now) <= now && maxMtime <= trace[now].clock
        invariant forall s :: s in statAt ==> s.Source?
        invariant forall p :: p in paths[..i] ==>
                    && Source(p) in statAt && old(now) <= statAt[Source(p)] <= now
                    && p in existed && existed[p] == MtimeAt(trace, statAt[Source(p)], p).Some?
                    && (existed[p] ==> MtimeAt(trace, statAt[Source(p)], p).value <= maxMtime)
      {
        var p := paths[i];
        ghost var before := now;
        var mtime := Stat(p);
        ClockRuns(trace, before, now, p);
        ClockRuns(trace, now, now, p);
        existed := existed[p := mtime.Some?];
        if mtime.Some? && mtime.value > maxMtime {
          maxMtime := mtime.value;
        }
        statAt := statAt[Source(p) := now];
        assert forall q :: q in paths[..i + 1] ==> q in paths[..i] || q == p;
      }
      assert paths[..|paths|] == paths;
    }

    /** The files below the skill roots with their modification times. */
    method WalkSkills(newest: nat) returns (skillFiles: map<string, nat>, maxMtime: nat, ghost statAt: map<Slot, nat>)
      requires Running() && newest <= trace[now].clock
      modifies this`now
      ensures Running() && old(now) <= now && newest <= maxMtime <= trace[now].clock
      ensures forall s :: s in statAt ==> s.Skill?
      ensures forall p :: p in skillFiles ==> p in c.skillPaths
      ensures forall p :: p in c.skillPaths ==>
                && Skill(p) in statAt && old(now) <= statAt[Skill(p)] <= now
                && MtimeAt(trace, statAt[Skill(p)], p) == if p in skillFiles then Some(skillFiles[p]) else None
    {
      skillFiles, maxMtime, statAt := map[], newest, map[];
      for i := 0 to |c.skillPaths|
        invariant Running() && old(now) <= now && newest <= maxMtime <= trace[now].clock
        invariant forall s :: s in statAt ==> s.Skill?
        invariant forall p :: p in skillFiles ==> p in c.skillPaths[..i]
        invariant forall p :: p in c.skillPaths[..i] ==>
                    && Skill(p) in statAt && old(now) <= statAt[Skill(p)] <= now
                    && MtimeAt(trace, statAt[Skill(p)], p) == if p in skillFiles then Some(skillFiles[p]) else None
      {
        var p := c.skillPaths[i];
        ghost var before := now;
        var mtime := Stat(p);
        ClockRuns(trace, before, now, p);
        ClockRuns(trace, now, now, p);
        if mtime.Some? {
          skillFiles := skillFiles[p := mtime.value];
          if mtime.value > maxMtime {
            maxMtime := mtime.value;
          }
          statAt := statAt[Skill(p) := now];
        } else if p !in skillFiles {
          statAt := statAt[Skill(p) := now];
        }
        assert forall q :: q in c.skillPaths[..i + 1] ==> q in c.skillPaths[..i] || q == p;
      }
      assert c.skillPaths[..|c.skillPaths|] == c.skillPaths;
    }

    method BuildCacheBaseline() returns (b: Baseline, ghost t: Times)
      requires Running()
      modifies this`now
      ensures Running() && old(now) == t.began && t.complete == now && t.began <= now
      ensures Recorded(c, trace, b, t) && b.maxMtime != ZERO_TIME
    {
      ghost var began := now;
      ghost var statAt: map<Slot, nat>;
      ghost var skillAt: map<Slot, nat>;
      var existed, maxMtime;
      existed, maxMtime, statAt := StatPaths(c.SourcePaths() + c.roots);
      var skillFiles;
      skillFiles, maxMtime, skillAt := WalkSkills(maxMtime);
      if maxMtime == ZERO_TIME {
        maxMtime := OLD_TIME;
      }
      ClockRuns(trace, now, now, "");
      b := Baseline(existed, skillFiles, maxMtime);
      t := Times(began, statAt + skillAt, now, map[]);
    }

    /** Reads some files, each at its own moment. */
    method ReadAll(slots: seq<Slot>, soFar: Sightings, ghost readSoFar: map<Slot, nat>, ghost from: nat)
      returns (seen: Sightings, ghost readAt: map<Slot, nat>)
      requires Running() && from <= now && SeenAt(trace, soFar, readSoFar, from, now)
      modifies this`now
      ensures Running() && old(now) <= now && SeenAt(trace, seen, readAt, from, now)
      ensures seen.Keys == soFar.Keys + (set s | s in slots)
    {
      seen, readAt := soFar, readSoFar;
      hide SeenAt;
      hide ContentAt;
      hide Evolves;
      for i := 0 to |slots|
        invariant Running() && old(now) <= now && SeenAt(trace, seen, readAt, from, now)
        invariant seen.Keys == soFar.Keys + set s | s in slots[..i]
      {
        ghost var before := now;
        var data := ReadFile(slots[i].path);
        SeenMore(trace, seen, readAt, from, before, now, slots[i]);
        seen := seen[slots[i] := data];
        readAt := readAt[slots[i] := now];
        assert slots[..i + 1] == slots[..i] + [slots[i]];
      }
      assert slots[..|slots|] == slots;
    }

    lemma LoadNext(content: string, seen: Sightings, i: nat)
      requires i < |BOOTSTRAP|
      ensures content + BootstrapFrom(c, seen, i)
              == (var data := Seen(seen, Source(c.BootstrapPath(i)));
                  if data.Some? then content + ("## " + BOOTSTRAP[i] + "\n\n" + data.value + "\n\n") else content)
                 + BootstrapFrom(c, seen, i + 1)
    {
      BootstrapStep(c, seen, i);
      hide BootstrapFrom;
      assert content + (FileAt(c, seen, i) + BootstrapFrom(c, seen, i + 1))
          == content + FileAt(c, seen, i) + BootstrapFrom(c, seen, i + 1);
      assert content + "" == content;
    }

    /** The bootstrap files that were seen, each behind its heading. */
    method LoadBootstrapFiles(seen: Sightings) returns (content: string)
      ensures content == BootstrapFrom(c, seen, 0)
    {
      content := "";
      for i := 0 to |BOOTSTRAP|
        invariant content + BootstrapFrom(c, seen, i) == BootstrapFrom(c, seen, 0)
      {
        var data := Seen(seen, Source(c.BootstrapPath(i)));
        LoadNext(content, seen, i);
        if data.Some? {
          content := content + ("## " + BOOTSTRAP[i] + "\n\n" + data.value + "\n\n");
        }
        hide BootstrapFrom;
      }
    }

    /** The parts, joined. */
    method JoinParts(parts: seq<string>) returns (joined: string)
      requires parts != []
      ensures joined == parts[0] + Sections(parts[1..])
    {
      joined := parts[0];
      for i := 1 to |parts|
        invariant joined == parts[0] + Sections(parts[1..i])
      {
        assert parts[1..i + 1][..i - 1] == parts[1..i];
        joined := joined + (SEPARATOR + parts[i]);
      }
      assert parts[1..|parts|] == parts[1..];
    }

    /** One more part, unless its text is empty. */
    method AddPart(parts: seq<string>, title: string, text: string) returns (more: seq<string>)
      requires parts != []
      ensures more != [] && more[0] == parts[0]
      ensures Sections(more[1..]) == Sections(parts[1..]) + Part(title, text)
    {
      more := parts;
      if text != "" {
        SectionsAdd(parts, title, text);
        more := more + [title + text];
      } else {
        assert Sections(parts[1..]) + "" == Sections(parts[1..]);
      }
    }

    method AssemblePrompt(seen: Sightings) returns (prompt: string)
      ensures prompt == Prompt(c, seen)
    {
      var bootstrapContent := LoadBootstrapFiles(seen);
      var parts := AddPart([c.identity], "", bootstrapContent);
      var skillsSummary := c.skills(SkillsOf(c, seen));
      parts := AddPart(parts, SKILLS_INTRO, skillsSummary);
      var memoryContext := c.memory(Seen(seen, Source(c.MemoryPath())));
      parts := AddPart(parts, "# Memory\n\n", memoryContext);
      prompt := JoinParts(parts);
      hide Part;
      hide Sections;
      hide SkillsOf;
      hide Seen;
      hide BootstrapFrom;
      assert [c.identity][1..] == [] && Sections([]) == "" by { NoSections(); }
      assert "" + Part("", bootstrapContent) == Part("", bootstrapContent);
      Join(c.identity, Part("", bootstrapContent), Part(SKILLS_INTRO, skillsSummary),
           Part("# Memory\n\n", memoryContext));
    }

    /** Bootstrap files, skills and memory are read in this order. */
    method ReadSources() returns (seen: Sightings, ghost readAt: map<Slot, nat>)
      requires Running()
      modifies this`now
      ensures Running() && old(now) <= now
      ensures seen.Keys == c.Slots() && SeenAt(trace, seen, readAt, old(now), now)
    {
      ghost var from := now;
      var sources := c.SourcePaths();
      var bootstrap := seq(|BOOTSTRAP|, i requires 0 <= i < |BOOTSTRAP| => Source(sources[i]));
      var skills := seq(|c.skillPaths|, i requires 0 <= i < |c.skillPaths| => Skill(c.skillPaths[i]));
      EverySlot(bootstrap, skills);
      hide Config.Slots;
      hide Config.SourcePaths;
      hide SeenAt;
      seen, readAt := ReadAll(bootstrap, map[], map[], from);
      seen, readAt := ReadAll(skills, seen, readAt, from);
      seen, readAt := ReadAll([Source(c.MemoryPath())], seen, readAt, from);
    }

    /** The prompt that what was read gives. */
    method BuildSystemPrompt() returns (prompt: string, ghost seen: Sightings, ghost readAt: map<Slot, nat>)
      requires Running()
      modifies this`now
      ensures Running() && old(now) <= now && prompt == Prompt(c, seen) && prompt != ""
      ensures Describes(c, seen, prompt)
      ensures seen.Keys == c.Slots() && SeenAt(trace, seen, readAt, old(now), now)
    {
      hide *;
      var all: Sightings;
      all, readAt := ReadSources();
      prompt := AssemblePrompt(all);
      seen := all;
      PromptDescribes(c, all);
      NotEmpty(all);
    }

    lemma NotEmpty(seen: Sightings)
      requires Running()
      ensures Prompt(c, seen) != ""
    {
      PromptContains(c, seen);
      hide Prompt;
    }

    lemma EverySlot(bootstrap: seq<Slot>, skills: seq<Slot>)
      requires bootstrap == seq(|BOOTSTRAP|, i requires 0 <= i < |BOOTSTRAP| => Source(c.SourcePaths()[i]))
      requires skills == seq(|c.skillPaths|, i requires 0 <= i < |c.skillPaths| => Skill(c.skillPaths[i]))
      ensures c.Slots() == (set s | s in bootstrap) + (set s | s in skills) + (set s | s in [Source(c.MemoryPath())])
    {
      forall p | p in c.skillPaths ensures Skill(p) in skills {
        var i :| 0 <= i < |c.skillPaths| && c.skillPaths[i] == p;
        assert skills[i] == Skill(p);
      }
      forall p | p in c.SourcePaths() ensures Source(p) in bootstrap || p == c.MemoryPath() {
        var i :| 0 <= i < |c.SourcePaths()| && c.SourcePaths()[i] == p;
        if i < |BOOTSTRAP| { assert bootstrap[i] == Source(p); }
      }
    }

    method FileChangedSince(path: string) returns (changed: bool)
      requires Running()
      modifies this`now
      ensures Running() && old(now) <= now
      ensures changed <==> existedAtCache.None? || !Unchanged(CachedBaseline(), Source(path), MtimeAt(trace, now, path))
    {
      if existedAtCache.None? {
        return true;
      }
      var existedBefore := path in existedAtCache.value && existedAtCache.value[path];
      var mtime := Stat(path);
      if existedBefore != mtime.Some? {
        return true;
      }
      if mtime.None? {
        return false;
      }
      return mtime.value > cachedAt;
    }

    /** Whether any of some tracked paths shows a change. */
    method AnyChanged(paths: seq<string>) returns (changed: bool, ghost checkAt: map<Slot, nat>)
      requires Running() && forall p :: p in paths ==> Source(p) in c.Tracked()
      modifies this`now
      ensures Running() && old(now) <= now
      ensures !changed ==> Quiet(trace, CachedBaseline(), checkAt, old(now), now)
      ensures !changed ==> checkAt.Keys == set p | p in paths :: Source(p)
      ensures changed ==> existedAtCache.None? || Noticed(c, trace, CachedBaseline(), old(now), now)
    {
      checkAt := map[];
      hide Evolves;
      hide Config.Tracked;
      for i := 0 to |paths|
        invariant Running() && old(now) <= now && Quiet(trace, CachedBaseline(), checkAt, old(now), now)
        invariant checkAt.Keys == set p | p in paths[..i] :: Source(p)
      {
        ghost var before := now;
        changed := FileChangedSince(paths[i]);
        if changed {
          return;
        }
        QuietMore(trace, CachedBaseline(), checkAt, old(now), before, now, Source(paths[i]));
        checkAt := checkAt[Source(paths[i]) := now];
        assert paths[..i + 1] == paths[..i] + [paths[i]];
      }
      assert paths[..|paths|] == paths;
      changed := false;
    }

    /** Whether a file of the snapshot is gone or has another modification time. */
    method SnapshotChanged(files: map<string, nat>) returns (changed: bool, ghost checkAt: map<Slot, nat>)
      requires Running() && skillFilesAtCache == Some(files)
      modifies this`now
      ensures Running() && old(now) <= now
      ensures !changed ==> Quiet(trace, CachedBaseline(), checkAt, old(now), now)
      ensures !changed ==> (forall s :: s in checkAt ==> s.Skill?) && forall p :: p in files ==> Skill(p) in checkAt
      ensures changed && SnapshotBelowRoots() ==> Noticed(c, trace, CachedBaseline(), old(now), now)
    {
      checkAt := map[];
      assert Quiet(trace, CachedBaseline(), checkAt, now, now);
      hide Quiet;
      hide Evolves;
      var rest := files.Keys;
      while rest != {}
        invariant Running() && old(now) <= now && Quiet(trace, CachedBaseline(), checkAt, old(now), now)
        invariant forall s :: s in checkAt ==> s.Skill?
        invariant rest <= files.Keys && forall p :: p in files && p !in rest ==> Skill(p) in checkAt
        decreases |rest|
      {
        var p :| p in rest;
        ghost var before := now;
        var mtime := Stat(p);
        if mtime.None? || mtime.value != files[p] {
          assert p in c.skillPaths ==> Skill(p) in c.Tracked();
          return true, checkAt;
        }
        QuietMore(trace, CachedBaseline(), checkAt, old(now), before, now, Skill(p));
        checkAt := checkAt[Skill(p) := now];
        rest := rest - {p};
      }
      changed := false;
    }

    /** Whether a file below the roots is not in the snapshot. */
    method UnknownFiles(files: map<string, nat>, ghost soFar: map<Slot, nat>, ghost from: nat)
      returns (found: bool, ghost checkAt: map<Slot, nat>)
      requires Running() && skillFilesAtCache == Some(files) && from <= now
      requires Quiet(trace, CachedBaseline(), soFar, from, now) && forall s :: s in soFar ==> s.Skill?
      modifies this`now
      ensures Running() && old(now) <= now
      ensures !found ==> Quiet(trace, CachedBaseline(), checkAt, from, now) && forall s :: s in checkAt ==> s.Skill?
      ensures !found ==> soFar.Keys <= checkAt.Keys
      ensures !found ==> forall p :: p in c.skillPaths && p !in files ==> Skill(p) in checkAt
      ensures found ==> Noticed(c, trace, CachedBaseline(), from, now)
    {
      hide Quiet;
      hide Evolves;
      checkAt := soFar;
      for i := 0 to |c.skillPaths|
        invariant Running() && old(now) <= now && Quiet(trace, CachedBaseline(), checkAt, from, now)
        invariant forall s :: s in checkAt ==> s.Skill?
        invariant soFar.Keys <= checkAt.Keys
        invariant forall k :: 0 <= k < i && c.skillPaths[k] !in files ==> Skill(c.skillPaths[k]) in checkAt
      {
        var p := c.skillPaths[i];
        ghost var before := now;
        var mtime := Stat(p);
        QuietMore(trace, CachedBaseline(), checkAt, from, before, now, Skill(p));
        if p !in files {
          if mtime.Some? {
            assert Skill(p) in c.Tracked();
            return true, checkAt;
          }
          checkAt := checkAt[Skill(p) := now];
        }
      }
      found := false;
    }

    /** The files of the cached snapshot lie below the skill roots. */
    predicate SnapshotBelowRoots()
      reads this
    {
      skillFilesAtCache.Some? && forall p :: p in skillFilesAtCache.value ==> p in c.skillPaths
    }

    /** Compares the skill files with their snapshot: first the files of the snapshot, then all
        files below the roots. */
    method SkillFilesChangedSince() returns (changed: bool, ghost checkAt: map<Slot, nat>)
      requires Running()
      modifies this`now
      ensures Running() && old(now) <= now
      ensures !changed ==> Quiet(trace, CachedBaseline(), checkAt, old(now), now)
      ensures !changed ==> forall s :: s in checkAt ==> s.Skill?
      ensures !changed ==> forall p :: p in c.skillPaths ==> Skill(p) in checkAt
      ensures changed ==> !SnapshotBelowRoots() || Noticed(c, trace, CachedBaseline(), old(now), now)
    {
      checkAt := map[];
      if skillFilesAtCache.None? {
        return true, checkAt;
      }
      var files := skillFilesAtCache.value;
      changed, checkAt := SnapshotChanged(files);
      if changed {
        return;
      }
      hide Quiet;
      hide Noticed;
      changed, checkAt := UnknownFiles(files, checkAt, old(now));
    }

    /** Whether any tracked file or skill root shows a change since the baseline: never "unchanged"
        unless each was seen unchanged, never "changed" without a cache or a difference seen. */
    method SourceFilesChanged() returns (changed: bool, ghost checkAt: map<Slot, nat>)
      requires Running()
      modifies this`now
      ensures Running() && old(now) <= now
      ensures !changed ==> NothingNoticed(c, trace, CachedBaseline(), old(now), now, checkAt)
      ensures changed ==> cachedAt == ZERO_TIME || existedAtCache.None? || !SnapshotBelowRoots()
                          || Noticed(c, trace, CachedBaseline(), old(now), now)
    {
      checkAt := map[];
      if cachedAt == ZERO_TIME {
        return true, checkAt;
      }
      SourcesAreTracked(c);
      hide Config.SourcePaths;
      hide Config.Tracked;
      hide Evolves;
      hide Quiet;
      ghost var b := CachedBaseline();
      changed, checkAt := AnyChanged(c.SourcePaths());
      if changed {
        return;
      }
      ghost var afterSources := now;
      ghost var rootAt: map<Slot, nat>;
      changed, rootAt := AnyChanged(c.roots);
      NoticedLater(c, trace, b, old(now), afterSources, now);
      if changed {
        return;
      }
      ghost var afterRoots := now;
      ghost var skillAt: map<Slot, nat>;
      changed, skillAt := SkillFilesChangedSince();
      NoticedLater(c, trace, b, old(now), afterRoots, now);
      if !changed {
        AllQuiet(c, trace, b, checkAt, rootAt, skillAt, old(now), afterSources, afterRoots, now);
      }
      checkAt := checkAt + rootAt + skillAt;
    }

    /** Takes the baseline first, then builds, then caches: under the write lock. */
    method Rebuild() returns (prompt: string)
      requires Valid()
      modifies this
      ensures Valid() && old(now) <= times.began <= now
      ensures prompt == cachedSystemPrompt && prompt != "" && Describes(c, seen, prompt)
    {
      var baseline;
      ghost var t: Times;
      ghost var readAt: map<Slot, nat>;
      ghost var sightings: Sightings;
      hide Caches;
      hide Prompt;
      hide Describes;
      hide Recorded;
      hide SeenAt;
      hide Config.Slots;
      hide Evolves;
      baseline, t := BuildCacheBaseline();
      prompt, sightings, readAt := BuildSystemPrompt();
      RecordedAndBuilt(c, trace, baseline, t, sightings, readAt, now);
      cachedSystemPrompt, cachedAt := prompt, baseline.maxMtime;
      existedAtCache, skillFilesAtCache := Some(baseline.existed), Some(baseline.skillFiles);
      times, seen := t.(readAt := readAt), sightings;
      assert CachedBaseline() == baseline;
    }

    method InvalidateCache()
      requires Valid()
      modifies this
      ensures Valid() && cachedSystemPrompt == "" && now == old(now)
    {
      cachedSystemPrompt, cachedAt, existedAtCache, skillFilesAtCache := "", ZERO_TIME, None, None;
    }

    /** Returns the cached prompt if the check notices nothing: the prompt of a fresh build at the
        moment the check began, unless a file was created and deleted again in between; and surely
        returns it when no tracked path has been touched since the baseline. */
    method CheckCache() returns (prompt: Option<string>)
      requires Valid()
      modifies this`now
      ensures Valid() && old(now) <= now
      ensures prompt.Some? ==> cachedSystemPrompt != "" && prompt.value == cachedSystemPrompt
      ensures prompt.Some? && Steady(c, trace, times.began, now) ==> prompt.value == FreshBuild(c, trace, old(now))
      ensures cachedSystemPrompt != "" && Still(c, trace, times.began, now) ==> prompt.Some?
    {
      if cachedSystemPrompt == "" {
        return None;
      }
      SnapshotFits(c, trace, CachedBaseline(), times, cachedSystemPrompt, seen, now);
      hide Evolves;
      hide FreshBuild;
      hide Still;
      var changed;
      ghost var checkAt: map<Slot, nat>;
      changed, checkAt := SourceFilesChanged();
      CachesLater(c, trace, CachedBaseline(), times, cachedSystemPrompt, seen, old(now), now);
      hide Noticed;
      hide NothingNoticed;
      if changed {
        StillGoes(c, trace, CachedBaseline(), times, cachedSystemPrompt, seen, old(now), now);
        hide Caches;
        return None;
      }
      CheckAgrees(c, trace, CachedBaseline(), times, cachedSystemPrompt, seen, old(now), now, checkAt);
      hide Caches;
      return Some(cachedSystemPrompt);
    }

    /** Between the two locks others may have rebuilt or dropped the cache. */
    method Others()
      requires Valid()
      modifies this
      ensures Valid() && old(now) <= now
    {
      var rebuild: bool := *;
      if rebuild {
        var _ := Rebuild();
      }
      var invalidate: bool := *;
      if invalidate {
        InvalidateCache();
      }
    }

    /** The prompt returned is the one just built, or a cached one that agrees with a fresh build
        at some moment of the call; with a cache and no tracked path touched since its baseline
        nothing is built. */
    method BuildSystemPromptWithCache() returns (prompt: string, ghost built: bool, ghost moment: nat)
      requires Valid()
      modifies this
      ensures Valid() && old(now) <= moment <= now
      ensures built ==> prompt == cachedSystemPrompt && moment <= times.began && Describes(c, seen, prompt)
      ensures !built && Steady(c, trace, times.began, now) ==>
                prompt == FreshBuild(c, trace, moment) && ShowsFiles(c, trace[moment].files, prompt)
      ensures old(cachedSystemPrompt) != "" && Still(c, trace, old(times.began), now) ==>
                !built && prompt == old(cachedSystemPrompt)
    {
      hide Evolves;
      hide FreshBuild;
      hide Caches;
      hide Describes;
      hide ShowsFiles;
      moment := now;
      FreshBuildShowsFiles(c, trace, moment);
      var cached := CheckCache();
      if cached.Some? {
        return cached.value, false, moment;
      }
      ghost var checked := now;
      Others();
      moment := now;
      FreshBuildShowsFiles(c, trace, moment);
      cached := CheckCache();
      StillShorter(c, trace, old(times.began), checked, now);
      if cached.Some? {
        return cached.value, false, moment;
      }
      moment := now;
      prompt := Rebuild();
      built := true;
      StillShorter(c, trace, old(times.began), checked, now);
    }
  }
}
