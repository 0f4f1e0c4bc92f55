/** What a system prompt contains, and where. */
module PromptContents {
  import opened Options
  import opened PromptCache

  predicate OccursAt(text: string, s: string, k: nat) {
    k + |text| <= |s| && s[k..k + |text|] == text
  }

  /** The texts lie behind one another in s, the i-th at position at[i], and nothing else does. */
  predicate Tiled(texts: seq<string>, s: string, at: seq<nat>) {
    && |at| == |texts| + 1 && at[0] == 0 && at[|texts|] == |s|
    && forall i :: 0 <= i < |texts| ==> OccursAt(texts[i], s, at[i]) && at[i + 1] == at[i] + |texts[i]|
  }

  lemma {:induction false} TiledMore(texts: seq<string>, s: string, at: seq<nat>, t: string)
    requires Tiled(texts, s, at)
    ensures Tiled(texts + [t], s + t, at + [|s| + |t|])
  {
    var texts', at' := texts + [t], at + [|s| + |t|];
    forall i | 0 <= i < |texts'|
      ensures OccursAt(texts'[i], s + t, at'[i]) && at'[i + 1] == at'[i] + |texts'[i]|
    {
      if i < |texts| { assert OccursAt(texts[i], s, at[i]); }
    }
  }

  /** The texts determine the whole. */
  lemma {:induction false} TiledDetermines(texts: seq<string>, s: string, at: seq<nat>, s': string, at': seq<nat>)
    requires Tiled(texts, s, at) && Tiled(texts, s', at')
    ensures s == s' && at == at'
    decreases |texts|
  {
    if texts != [] {
      var n := |texts| - 1;
      TiledFront(texts, s, at);
      TiledFront(texts, s', at');
      TiledDetermines(texts[..n], s[..at[n]], at[..n + 1], s'[..at'[n]], at'[..n + 1]);
      hide Tiled;
    }
  }

  lemma TiledFront(texts: seq<string>, s: string, at: seq<nat>)
    requires Tiled(texts, s, at) && texts != []
    ensures var n := |texts| - 1;
            && |at| == n + 2 && at == at[..n + 1] + [|s|] && at[n] <= |s|
            && Tiled(texts[..n], s[..at[n]], at[..n + 1]) && s == s[..at[n]] + texts[n]
  {
    var n := |texts| - 1;
    assert OccursAt(texts[n], s, at[n]);
    forall i: nat | i < n ensures OccursAt(texts[i], s[..at[n]], at[i]) {
      assert OccursAt(texts[i], s, at[i]);
      Ascending(texts, s, at, i + 1, n);
    }
  }

  lemma {:induction false} Ascending(texts: seq<string>, s: string, at: seq<nat>, i: nat, k: nat)
    requires Tiled(texts, s, at) && i <= k <= |texts|
    ensures at[i] <= at[k] <= |s|
    decreases k - i
  {
    if i < k {
      assert OccursAt(texts[i], s, at[i]);
      Ascending(texts, s, at, i + 1, k);
    } else if k < |texts| {
      assert OccursAt(texts[k], s, at[k]);
    }
  }

  // ------------------------------------------------------------ the texts of a prompt

  /** A bootstrap file: its heading and its content, or nothing if it was not seen. */
  function FileText(name: string, data: Option<string>): string {
    if data.None? then "" else "## " + name + "\n\n" + data.value + "\n\n"
  }

  function FileAt(c: Config, seen: Sightings, i: nat): string
    requires i < |BOOTSTRAP|
  {
    FileText(BOOTSTRAP[i], Seen(seen, Source(c.BootstrapPath(i))))
  }

  predicate NoBootstrap(c: Config, seen: Sightings) {
    forall i :: 0 <= i < |BOOTSTRAP| ==> Seen(seen, Source(c.BootstrapPath(i))) == None
  }

  function SkillsText(summary: string): string {
    if summary == "" then "" else SEPARATOR + SKILLS_INTRO + summary
  }

  function MemoryText(memory: string): string {
    if memory == "" then "" else SEPARATOR + "# Memory\n\n" + memory
  }

  /** The identity, the bootstrap files behind a separator, and the sections of the skills and of the memory. */
  function Texts(c: Config, seen: Sightings): seq<string> {
    [c.identity, if NoBootstrap(c, seen) then "" else SEPARATOR]
    + [FileAt(c, seen, 0), FileAt(c, seen, 1), FileAt(c, seen, 2), FileAt(c, seen, 3)]
    + [SkillsText(c.skills(SkillsOf(c, seen))), MemoryText(c.memory(Seen(seen, Source(c.MemoryPath()))))]
  }

  lemma BootstrapIs(c: Config, seen: Sightings)
    ensures BootstrapFrom(c, seen, 0)
            == FileAt(c, seen, 0) + (FileAt(c, seen, 1) + (FileAt(c, seen, 2) + FileAt(c, seen, 3)))
  {
    BootstrapStep(c, seen, 0);
    BootstrapStep(c, seen, 1);
    BootstrapStep(c, seen, 2);
    BootstrapStep(c, seen, 3);
    hide FileAt;
    assert FileAt(c, seen, 3) + "" == FileAt(c, seen, 3);
  }

  lemma BootstrapStep(c: Config, seen: Sightings, i: nat)
    requires i < |BOOTSTRAP|
    ensures BootstrapFrom(c, seen, i) == FileAt(c, seen, i) + BootstrapFrom(c, seen, i + 1)
    ensures FileAt(c, seen, i) == "" <==> Seen(seen, Source(c.BootstrapPath(i))) == None
    ensures BootstrapFrom(c, seen, 4) == ""
  {
  }

  lemma BootstrapEmptyIff(c: Config, seen: Sightings)
    ensures BootstrapFrom(c, seen, 0) == "" <==> NoBootstrap(c, seen)
  {
    BootstrapStep(c, seen, 0);
    BootstrapStep(c, seen, 1);
    BootstrapStep(c, seen, 2);
    BootstrapStep(c, seen, 3);
    hide FileAt;
    hide BootstrapFrom;
    hide Config.BootstrapPath;
    hide Seen;
  }

  lemma PartsAre(b: string, skills: string, memory: string)
    ensures Part("", b) == if b == "" then "" else SEPARATOR + b
    ensures Part(SKILLS_INTRO, skills) == SkillsText(skills)
    ensures Part("# Memory\n\n", memory) == MemoryText(memory)
  {
  }

  lemma TextsAre(c: Config, seen: Sightings)
    ensures var t := Texts(c, seen);
            && |t| == 8 && t[0] == c.identity && t[1] == (if NoBootstrap(c, seen) then "" else SEPARATOR)
            && (forall i :: 0 <= i < |BOOTSTRAP| ==> t[i + 2] == FileAt(c, seen, i))
            && t[6] == SkillsText(c.skills(SkillsOf(c, seen)))
            && t[7] == MemoryText(c.memory(Seen(seen, Source(c.MemoryPath()))))
  {
    hide FileAt;
    hide SkillsText;
    hide MemoryText;
    hide NoBootstrap;
    hide SkillsOf;
    hide Seen;
  }

  lemma PromptIs(c: Config, seen: Sightings)
    ensures var t := Texts(c, seen);
            |t| == 8 && Prompt(c, seen) == t[0] + (t[1] + (t[2] + (t[3] + (t[4] + t[5])))) + t[6] + t[7]
  {
    var b, skills, memory := BootstrapFrom(c, seen, 0), c.skills(SkillsOf(c, seen)),
                             c.memory(Seen(seen, Source(c.MemoryPath())));
    PartsAre(b, skills, memory);
    assert Prompt(c, seen) == c.identity + Part("", b) + Part(SKILLS_INTRO, skills) + Part("# Memory\n\n", memory);
    hide Prompt;
    hide Part;
    BootstrapIs(c, seen);
    BootstrapEmptyIff(c, seen);
    TextsAre(c, seen);
    hide Texts;
    hide FileAt;
    hide BootstrapFrom;
    hide NoBootstrap;
    hide SkillsOf;
    hide Seen;
    hide SkillsText;
    hide MemoryText;
    hide Config.MemoryPath;
    var t := Texts(c, seen);
    assert b == t[2] + (t[3] + (t[4] + t[5]));
    if NoBootstrap(c, seen) {
      assert Part("", b) == t[1] + b;
    }
  }

  lemma Regroup(a: string, b: string, c: string, d: string, e: string, f: string, g: string, h: string)
    ensures a + (b + (c + (d + (e + f)))) + g + h == "" + a + b + c + d + e + f + g + h
  {
  }

  /** Every prompt is these texts, one behind the other, and nothing else. */
  lemma PromptIsTiled(c: Config, seen: Sightings) returns (at: seq<nat>)
    ensures Tiled(Texts(c, seen), Prompt(c, seen), at)
  {
    var t := Texts(c, seen);
    PromptIs(c, seen);
    Regroup(t[0], t[1], t[2], t[3], t[4], t[5], t[6], t[7]);
    hide *;
    at := TiledEight(t);
  }

  lemma TiledEight(t: seq<string>) returns (at: seq<nat>)
    requires |t| == 8
    ensures Tiled(t, "" + t[0] + t[1] + t[2] + t[3] + t[4] + t[5] + t[6] + t[7], at)
  {
    var s;
    assert t[..0] == [] && Tiled([], "", [0]);
    hide Tiled;
    s, at := TiledFour(t, 0, "", [0]);
    s, at := TiledFour(t, 4, s, at);
    assert t[..8] == t;
  }

  lemma TiledFour(texts: seq<string>, n: nat, s: string, at: seq<nat>) returns (s': string, at': seq<nat>)
    requires n + 4 <= |texts| && Tiled(texts[..n], s, at)
    ensures s' == s + texts[n] + texts[n + 1] + texts[n + 2] + texts[n + 3] && Tiled(texts[..n + 4], s', at')
  {
    s', at' := TiledNext(texts, n, s, at);
    s', at' := TiledNext(texts, n + 1, s', at');
    s', at' := TiledNext(texts, n + 2, s', at');
    s', at' := TiledNext(texts, n + 3, s', at');
    hide Tiled;
  }

  lemma TiledNext(texts: seq<string>, n: nat, s: string, at: seq<nat>) returns (s': string, at': seq<nat>)
    requires n < |texts| && Tiled(texts[..n], s, at)
    ensures s' == s + texts[n] && Tiled(texts[..n + 1], s', at')
  {
    TiledMore(texts[..n], s, at, texts[n]);
    assert texts[..n + 1] == texts[..n] + [texts[n]];
    s', at' := s + texts[n], at + [|s| + |texts[n]|];
  }

  // ------------------------------------------------------------ what this means

  /** The prompt begins with the identity; each bootstrap file that was seen is in it, with its heading and
      whole, and they come in their order; a summary of skills stands behind its introduction; and the
      memory, if there is any, is its end. */
  ghost predicate Contents(c: Config, seen: Sightings, prompt: string) {
    && c.identity <= prompt
    && (exists at: seq<nat> :: InOrder(c, seen, prompt, at))
    && ShowsSkills(c.identity, c.skills(SkillsOf(c, seen)), prompt)
    && EndsInMemory(c.identity, c.memory(Seen(seen, Source(c.MemoryPath()))), prompt)
  }

  ghost predicate ShowsSkills(identity: string, skills: string, prompt: string) {
    skills != "" ==> exists k: nat :: |identity| <= k && OccursAt(SEPARATOR + SKILLS_INTRO + skills, prompt, k)
  }

  ghost predicate EndsInMemory(identity: string, memory: string, prompt: string) {
    memory != "" ==>
      exists k: nat :: |identity| <= k <= |prompt| && prompt[k..] == SEPARATOR + "# Memory\n\n" + memory
  }

  ghost predicate InOrder(c: Config, seen: Sightings, prompt: string, at: seq<nat>) {
    && |at| == |BOOTSTRAP|
    && (forall i :: 0 <= i < |BOOTSTRAP| ==>
          && |c.identity| <= at[i]
          && OccursAt(FileText(BOOTSTRAP[i], Seen(seen, Source(c.BootstrapPath(i)))), prompt, at[i]))
    && (forall i, j :: 0 <= i < j < |BOOTSTRAP| ==>
          at[i] + |FileText(BOOTSTRAP[i], Seen(seen, Source(c.BootstrapPath(i))))| <= at[j])
  }

  lemma FilesInOrder(c: Config, seen: Sightings, prompt: string, at: seq<nat>)
    requires Tiled(Texts(c, seen), prompt, at)
    ensures |at| == 9 && exists files: seq<nat> :: InOrder(c, seen, prompt, files)
  {
    var texts := Texts(c, seen);
    TextsAre(c, seen);
    hide Texts;
    hide FileText;
    hide NoBootstrap;
    hide SkillsOf;
    hide Seen;
    hide SkillsText;
    hide MemoryText;
    hide Config.BootstrapPath;
    hide Config.MemoryPath;
    FollowOneAnother(texts, prompt, at);
    var files := at[2..6];
    forall i: nat | i < |BOOTSTRAP|
      ensures |c.identity| <= files[i] && OccursAt(FileAt(c, seen, i), prompt, files[i])
    {
      assert OccursAt(texts[i + 2], prompt, at[i + 2]) && at[0] + |texts[0]| <= at[i + 2];
    }
    forall i: nat, j: nat | i < j < |BOOTSTRAP| ensures files[i] + |FileAt(c, seen, i)| <= files[j] {
      assert at[i + 2] + |texts[i + 2]| <= at[j + 2];
    }
    assert InOrder(c, seen, prompt, files);
    hide Tiled;
    hide OccursAt;
  }

  /** Each text ends before any later one begins. */
  lemma FollowOneAnother(texts: seq<string>, s: string, at: seq<nat>)
    requires Tiled(texts, s, at)
    ensures forall i :: 0 <= i < |texts| ==> OccursAt(texts[i], s, at[i])
    ensures forall i, j :: 0 <= i < j <= |texts| ==> at[i] + |texts[i]| <= at[j]
  {
    forall i: nat, j: nat | i < j <= |texts| ensures at[i] + |texts[i]| <= at[j] {
      Ascending(texts, s, at, i + 1, j);
    }
  }

  lemma SkillsSection(identity: string, skills: string, prompt: string, k: nat)
    requires |identity| <= k && OccursAt(SkillsText(skills), prompt, k)
    ensures ShowsSkills(identity, skills, prompt)
  {
  }

  lemma MemorySection(identity: string, memory: string, prompt: string, k: nat)
    requires |identity| <= k && OccursAt(MemoryText(memory), prompt, k) && k + |MemoryText(memory)| == |prompt|
    ensures EndsInMemory(identity, memory, prompt)
  {
    assert prompt[k..] == prompt[k..k + |MemoryText(memory)|];
  }

  lemma Ends(texts: seq<string>, s: string, at: seq<nat>)
    requires Tiled(texts, s, at) && |texts| == 8
    ensures texts[0] <= s && |texts[0]| <= at[6] && OccursAt(texts[6], s, at[6])
    ensures |texts[0]| <= at[7] && OccursAt(texts[7], s, at[7]) && at[7] + |texts[7]| == |s|
  {
    FollowOneAnother(texts, s, at);
    assert OccursAt(texts[0], s, at[0]) && at[0] + |texts[0]| <= at[6];
  }

  lemma TiledContains(c: Config, seen: Sightings, prompt: string, at: seq<nat>)
    requires Tiled(Texts(c, seen), prompt, at)
    ensures Contents(c, seen, prompt)
  {
    TextsAre(c, seen);
    FilesInOrder(c, seen, prompt, at);
    Ends(Texts(c, seen), prompt, at);
    hide Tiled;
    hide Texts;
    hide InOrder;
    hide OccursAt;
    hide ShowsSkills;
    hide EndsInMemory;
    hide SkillsText;
    hide MemoryText;
    hide FileAt;
    hide NoBootstrap;
    hide SkillsOf;
    hide Seen;
    SkillsSection(c.identity, c.skills(SkillsOf(c, seen)), prompt, at[6]);
    MemorySection(c.identity, c.memory(Seen(seen, Source(c.MemoryPath()))), prompt, at[7]);
  }

  /** Every prompt has these contents. */
  lemma PromptContains(c: Config, seen: Sightings)
    ensures Contents(c, seen, Prompt(c, seen))
  {
    var at := PromptIsTiled(c, seen);
    hide *;
    TiledContains(c, seen, Prompt(c, seen), at);
  }

  /** The prompt is these texts and nothing else, and has these contents. */
  ghost predicate Describes(c: Config, seen: Sightings, prompt: string) {
    Contents(c, seen, prompt) && exists at: seq<nat> :: Tiled(Texts(c, seen), prompt, at)
  }

  lemma PromptDescribes(c: Config, seen: Sightings)
    ensures Describes(c, seen, Prompt(c, seen))
  {
    PromptContains(c, seen);
    var at := PromptIsTiled(c, seen);
    hide Tiled;
    hide Contents;
  }

  // ------------------------------------------------------------ a build from the files at one moment

  /** The prompt a build from scratch gives shows the files that are there at that moment. */
  ghost predicate ShowsFiles(c: Config, now: Files, prompt: string) {
    var skills := c.skills(map p | p in c.skillPaths && p in now :: now[p].content);
    var memory := c.memory(if c.MemoryPath() in now then Some(now[c.MemoryPath()].content) else None);
    && c.identity <= prompt
    && (forall i :: 0 <= i < |BOOTSTRAP| && c.BootstrapPath(i) in now ==> ShowsFile(c, now, prompt, i))
    && ShowsSkills(c.identity, skills, prompt)
    && EndsInMemory(c.identity, memory, prompt)
  }

  ghost predicate ShowsFile(c: Config, now: Files, prompt: string, i: nat)
    requires i < |BOOTSTRAP| && c.BootstrapPath(i) in now
  {
    exists k: nat ::
      |c.identity| <= k
      && OccursAt("## " + BOOTSTRAP[i] + "\n\n" + now[c.BootstrapPath(i)].content + "\n\n", prompt, k)
  }

  function SightingsAt(c: Config, trace: seq<Moment>, i: nat): Sightings
    requires i < |trace|
  {
    map s | s in c.Slots() :: ContentAt(trace, i, s.path)
  }

  lemma SourceShows(c: Config, trace: seq<Moment>, i: nat, p: string)
    requires i < |trace| && p in c.SourcePaths()
    ensures Seen(SightingsAt(c, trace, i), Source(p)) == ContentAt(trace, i, p)
  {
    hide Config.SourcePaths;
  }

  lemma SkillsShow(c: Config, trace: seq<Moment>, i: nat)
    requires i < |trace|
    ensures SkillsOf(c, SightingsAt(c, trace, i))
            == map p | p in c.skillPaths && p in trace[i].files :: trace[i].files[p].content
  {
    hide Config.SourcePaths;
  }

  lemma FileShown(c: Config, trace: seq<Moment>, m: nat, prompt: string, files: seq<nat>, i: nat)
    requires m < |trace| && i < |BOOTSTRAP| && c.BootstrapPath(i) in trace[m].files
    requires InOrder(c, SightingsAt(c, trace, m), prompt, files)
    ensures ShowsFile(c, trace[m].files, prompt, i)
  {
    assert c.BootstrapPath(i) == c.SourcePaths()[i];
    SourceShows(c, trace, m, c.BootstrapPath(i));
    hide OccursAt;
    hide SightingsAt;
    hide Config.SourcePaths;
    hide Config.BootstrapPath;
  }

  /** So does a cached prompt that agrees with such a build. */
  lemma FreshBuildShowsFiles(c: Config, trace: seq<Moment>, i: nat)
    requires i < |trace|
    ensures ShowsFiles(c, trace[i].files, FreshBuild(c, trace, i))
  {
    var seen, prompt, now := SightingsAt(c, trace, i), FreshBuild(c, trace, i), trace[i].files;
    PromptContains(c, seen);
    assert c.MemoryPath() == c.SourcePaths()[4];
    SourceShows(c, trace, i, c.MemoryPath());
    SkillsShow(c, trace, i);
    assert prompt == Prompt(c, seen);
    hide FreshBuild;
    hide Prompt;
    hide SkillsOf;
    hide Seen;
    hide SightingsAt;
    hide ShowsSkills;
    hide EndsInMemory;
    hide InOrder;
    hide ShowsFile;
    hide Config.SourcePaths;
    hide Config.BootstrapPath;
    hide Config.MemoryPath;
    FilesShown(c, trace, i, prompt);
  }

  lemma FilesShown(c: Config, trace: seq<Moment>, m: nat, prompt: string)
    requires m < |trace| && exists files: seq<nat> :: InOrder(c, SightingsAt(c, trace, m), prompt, files)
    ensures forall i :: 0 <= i < |BOOTSTRAP| && c.BootstrapPath(i) in trace[m].files ==>
              ShowsFile(c, trace[m].files, prompt, i)
  {
    hide InOrder;
    hide ShowsFile;
    hide Config.BootstrapPath;
    var files: seq<nat> :| InOrder(c, SightingsAt(c, trace, m), prompt, files);
    forall i | 0 <= i < |BOOTSTRAP| && c.BootstrapPath(i) in trace[m].files
      ensures ShowsFile(c, trace[m].files, prompt, i)
    {
      FileShown(c, trace, m, prompt, files, i);
    }
  }
}
