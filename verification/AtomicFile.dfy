/** Atomic file replacement as steps of a file system that can lose power: what has not been
    synced may be anything afterwards, what has been synced is still there. */
module AtomicFile {
  import opened Options

  type Bytes = seq<bv8>
  type Directory = map<string, nat>

  /** `versions` are the directory since it was last synced, the visible one last: a power loss
      leaves any of them. `content` is what the files hold, durably for those in `synced`; files
      are numbered below `next`. */
  datatype Fs = Fs(versions: seq<Directory>, content: map<nat, Bytes>, synced: set<nat>, next: nat) {
    ghost predicate Valid() {
      && versions != []
      && (forall i :: i in content ==> i < next)
      && (forall d, name :: d in versions && name in d ==> d[name] in content)
    }

    function Visible(): Directory
      requires versions != []
    {
      versions[|versions| - 1]
    }
  }

  function Read(d: Directory, content: map<nat, Bytes>, path: string): Option<Bytes> {
    if path in d && d[path] in content then Some(content[d[path]]) else None
  }

  /** What a power loss can leave. */
  ghost predicate CanSurvive(fs: Fs, d: Directory, content: map<nat, Bytes>) {
    && d in fs.versions
    && (forall i :: i in fs.synced && i in fs.content ==> i in content && content[i] == fs.content[i])
  }

  // ------------------------------------------------------------ system calls

  function WithVisible(fs: Fs, d: Directory): Fs { fs.(versions := fs.versions + [d]) }

  function Create(fs: Fs, name: string): Fs
    requires fs.versions != []
  {
    WithVisible(fs, fs.Visible()[name := fs.next]).(content := fs.content[fs.next := []], next := fs.next + 1)
  }

  function Write(fs: Fs, file: nat, data: Bytes): Fs {
    fs.(content := fs.content[file := data], synced := fs.synced - {file})
  }

  function Sync(fs: Fs, file: nat): Fs { fs.(synced := fs.synced + {file}) }

  function Rename(fs: Fs, from: string, to: string): Fs
    requires fs.versions != [] && from in fs.Visible()
  {
    WithVisible(fs, (fs.Visible() - {from})[to := fs.Visible()[from]])
  }

  function Remove(fs: Fs, name: string): Fs
    requires fs.versions != []
  {
    WithVisible(fs, fs.Visible() - {name})
  }

  function SyncDir(fs: Fs): Fs
    requires fs.versions != []
  {
    fs.(versions := [fs.Visible()])
  }

  // ------------------------------------------------------------ WriteFileAtomic

  /** Which system calls fail; a failing write leaves its first `written` bytes. */
  datatype Faults = Faults(mkdir: bool, create: bool, write: bool, written: nat, sync: bool, chmod: bool, close: bool,
                           rename: bool, remove: bool, syncDir: bool)

  predicate Opens(fs: Fs, tmp: string, f: Faults)
    requires fs.versions != []
  {
    !f.mkdir && !f.create && tmp !in fs.Visible()
  }

  predicate Succeeds(fs: Fs, tmp: string, f: Faults)
    requires fs.versions != []
  {
    Opens(fs, tmp, f) && !f.write && !f.sync && !f.chmod && !f.close && !f.rename
  }

  function Cleanup(fs: Fs, tmp: string, f: Faults): seq<Fs>
    requires fs.versions != []
  {
    if f.remove then [] else [Remove(fs, tmp)]
  }

  function Written(data: Bytes, f: Faults): Bytes {
    if f.write && f.written <= |data| then data[..f.written] else data
  }

  /** The states after each system call that changes the file system. */
  function Steps(fs: Fs, path: string, tmp: string, data: Bytes, f: Faults): seq<Fs>
    requires fs.versions != []
  {
    if !Opens(fs, tmp, f) then [] else
    var file := fs.next;
    var created := Create(fs, tmp);
    var written := Write(created, file, Written(data, f));
    if f.write || f.sync then [created, written] + Cleanup(written, tmp, f) else
    var synced := Sync(written, file);
    if f.chmod || f.close || f.rename then [created, written, synced] + Cleanup(synced, tmp, f) else
    var renamed := Rename(synced, tmp, path);
    [created, written, synced, renamed] + if f.syncDir then [] else [SyncDir(renamed)]
  }

  function Done(fs: Fs, path: string, tmp: string, data: Bytes, f: Faults): Fs
    requires fs.versions != []
  {
    var steps := Steps(fs, path, tmp, data, f);
    if steps == [] then fs else steps[|steps| - 1]
  }

  /** Whatever a power loss leaves now, the file reads as one of `allowed`, durably. */
  ghost predicate Within(fs: Fs, path: string, allowed: set<Option<Bytes>>) {
    forall d :: d in fs.versions ==>
      && Read(d, fs.content, path) in allowed
      && (path in d ==> d[path] in fs.synced)
  }

  lemma WithinSurvives(fs: Fs, path: string, allowed: set<Option<Bytes>>, d: Directory, content: map<nat, Bytes>)
    requires fs.Valid() && Within(fs, path, allowed) && CanSurvive(fs, d, content)
    ensures Read(d, content, path) in allowed
  {
  }

  /** Creating, filling and syncing the temporary file says nothing about any other name. */
  lemma TemporaryOnly(fs: Fs, tmp: string, data: Bytes, name: string, allowed: set<Option<Bytes>>)
    requires fs.Valid() && name != tmp && Within(fs, name, allowed)
    ensures var created := Create(fs, tmp);
            var written := Write(created, fs.next, data);
            var synced := Sync(written, fs.next);
            && created.Valid() && written.Valid() && synced.Valid()
            && Within(created, name, allowed) && Within(written, name, allowed) && Within(synced, name, allowed)
            && Within(Remove(written, tmp), name, allowed) && Within(Remove(synced, tmp), name, allowed)
  {
  }

  lemma Renaming(fs: Fs, tmp: string, path: string, allowed: set<Option<Bytes>>)
    requires fs.Valid() && tmp in fs.Visible() && path != tmp && Within(fs, path, allowed)
    requires fs.Visible()[tmp] in fs.synced
    ensures var now := Rename(fs, tmp, path);
            var data := Some(fs.content[fs.Visible()[tmp]]);
            && now.Valid() && Within(now, path, allowed + {data})
            && SyncDir(now).Valid() && Within(SyncDir(now), path, {data})
  {
  }

  /** A power loss during the call, whichever calls fail, leaves the file with its old content
      in full or its new content in full; and if the call fails, with its old content. */
  lemma AtomicReplace(fs: Fs, path: string, tmp: string, data: Bytes, f: Faults, allowed: set<Option<Bytes>>, k: nat)
    requires fs.Valid() && path != tmp && Within(fs, path, allowed) && k < |Steps(fs, path, tmp, data, f)|
    ensures var s := Steps(fs, path, tmp, data, f)[k];
            s.Valid() && Within(s, path, if Succeeds(fs, tmp, f) && k >= 3 then allowed + {Some(data)} else allowed)
  {
    TemporaryOnly(fs, tmp, Written(data, f), path, allowed);
    var synced := Sync(Write(Create(fs, tmp), fs.next, Written(data, f)), fs.next);
    if Succeeds(fs, tmp, f) {
      Renaming(synced, tmp, path, allowed);
    }
    hide Within;
    hide Create;
    hide Write;
    hide Sync;
    hide Rename;
    hide Remove;
    hide SyncDir;
  }

  ghost predicate SameBut(fs: Fs, now: Fs, names: set<string>)
    requires fs.Valid() && now.Valid()
  {
    forall name :: name !in names ==> Read(now.Visible(), now.content, name) == Read(fs.Visible(), fs.content, name)
  }

  lemma VisibleWithTemporary(fs: Fs, tmp: string, data: Bytes)
    requires fs.Valid()
    ensures var created := Create(fs, tmp);
            var written := Write(created, fs.next, data);
            var synced := Sync(written, fs.next);
            && created.Valid() && written.Valid() && synced.Valid()
            && Remove(written, tmp).Valid() && Remove(synced, tmp).Valid()
            && SameBut(fs, written, {tmp}) && SameBut(fs, synced, {tmp})
            && SameBut(fs, Remove(written, tmp), {tmp}) && SameBut(fs, Remove(synced, tmp), {tmp})
            && Read(synced.Visible(), synced.content, tmp) == Some(data)
            && tmp in written.Visible() && tmp in synced.Visible()
            && tmp !in Remove(written, tmp).Visible() && tmp !in Remove(synced, tmp).Visible()
  {
  }

  lemma VisibleAfterRename(fs: Fs, tmp: string, path: string)
    requires fs.Valid() && tmp in fs.Visible() && path != tmp
    ensures var now := Rename(fs, tmp, path);
            && now.Valid() && SameBut(fs, now, {tmp, path}) && tmp !in now.Visible()
            && Read(now.Visible(), now.content, path) == Read(fs.Visible(), fs.content, tmp)
            && SyncDir(now).Valid() && SyncDir(now).Visible() == now.Visible()
  {
  }

  /** What is visible afterwards: the new content and no temporary file, or an error and
      everything as before; in either case no other file changes. */
  lemma ReplaceResult(fs: Fs, path: string, tmp: string, data: Bytes, f: Faults)
    requires fs.Valid() && path != tmp
    ensures var done := Done(fs, path, tmp, data, f);
            && done.Valid() && SameBut(fs, done, {path, tmp})
            && (Succeeds(fs, tmp, f) ==>
                  Read(done.Visible(), done.content, path) == Some(data) && tmp !in done.Visible())
            && (!Succeeds(fs, tmp, f) ==>
                  && SameBut(fs, done, {tmp})
                  && (Opens(fs, tmp, f) && !f.remove ==> tmp !in done.Visible()))
            && (Opens(fs, tmp, f) ==> (tmp in done.Visible() <==> !Succeeds(fs, tmp, f) && f.remove))
  {
    VisibleWithTemporary(fs, tmp, Written(data, f));
    var synced := Sync(Write(Create(fs, tmp), fs.next, Written(data, f)), fs.next);
    if Succeeds(fs, tmp, f) {
      VisibleAfterRename(synced, tmp, path);
    }
    hide Create;
    hide Write;
    hide Sync;
    hide Rename;
    hide SyncDir;
  }

  /** A call replaces the content exactly when the temporary name is free and every system call up to the
      rename succeeds; then also the directory's own sync may fail, and the file is durable if it does not. */
  lemma ReplacesIff(fs: Fs, path: string, tmp: string, data: Bytes, f: Faults)
    requires fs.Valid() && path != tmp && Read(fs.Visible(), fs.content, path) != Some(data)
    ensures var done := Done(fs, path, tmp, data, f);
            var replaced := Read(done.Visible(), done.content, path) == Some(data);
            && (replaced <==> tmp !in fs.Visible() && !f.mkdir && !f.create && !f.write && !f.sync && !f.chmod
                              && !f.close && !f.rename)
            && (replaced && !f.syncDir ==>
                  forall d, content :: CanSurvive(done, d, content) ==> Read(d, content, path) == Some(data))
  {
    ReplaceResult(fs, path, tmp, data, f);
    if Succeeds(fs, tmp, f) && !f.syncDir {
      SyncedReplacement(fs, path, tmp, data, f);
    }
    hide Done;
    hide CanSurvive;
  }

  lemma SyncedReplacement(fs: Fs, path: string, tmp: string, data: Bytes, f: Faults)
    requires fs.Valid() && path != tmp && Succeeds(fs, tmp, f) && !f.syncDir
    ensures var done := Done(fs, path, tmp, data, f);
            forall d, content :: CanSurvive(done, d, content) ==> Read(d, content, path) == Some(data)
  {
    VisibleWithTemporary(fs, tmp, data);
    var synced := Sync(Write(Create(fs, tmp), fs.next, data), fs.next);
    VisibleAfterRename(synced, tmp, path);
    assert fs.next in synced.synced && synced.Visible()[tmp] == fs.next;
    hide Create;
    hide Write;
    hide Sync;
  }

  /** No other file is put at risk. */
  lemma OtherFilesSafe(fs: Fs, path: string, tmp: string, data: Bytes, f: Faults, name: string,
                       allowed: set<Option<Bytes>>, k: nat)
    requires fs.Valid() && name != path && name != tmp && Within(fs, name, allowed)
    requires k < |Steps(fs, path, tmp, data, f)|
    ensures Within(Steps(fs, path, tmp, data, f)[k], name, allowed)
  {
    TemporaryOnly(fs, tmp, Written(data, f), name, allowed);
    var synced := Sync(Write(Create(fs, tmp), fs.next, Written(data, f)), fs.next);
    if Opens(fs, tmp, f) {
      assert Within(Rename(synced, tmp, path), name, allowed);
      assert Within(SyncDir(Rename(synced, tmp, path)), name, allowed);
    }
    hide Within;
    hide Create;
    hide Write;
    hide Sync;
    hide Rename;
    hide Remove;
    hide SyncDir;
  }

  // ------------------------------------------------------------ runs

  datatype Call = Call(tmp: string, data: Bytes, faults: Faults)

  function AfterCalls(fs: Fs, path: string, calls: seq<Call>): Fs
    requires fs.Valid() && forall i :: 0 <= i < |calls| ==> calls[i].tmp != path
    ensures AfterCalls(fs, path, calls).Valid()
    decreases |calls|
  {
    if calls == [] then fs else
    var c := calls[0];
    DoneValid(fs, path, c);
    AfterCalls(Done(fs, path, c.tmp, c.data, c.faults), path, calls[1..])
  }

  lemma DoneValid(fs: Fs, path: string, c: Call)
    requires fs.Valid() && c.tmp != path
    ensures Done(fs, path, c.tmp, c.data, c.faults).Valid()
  {
    ReplaceResult(fs, path, c.tmp, c.data, c.faults);
  }

  /** The contents a power loss may leave after a call. */
  function NowPossible(fs: Fs, c: Call, before: set<Option<Bytes>>): set<Option<Bytes>>
    requires fs.versions != []
  {
    if !Succeeds(fs, c.tmp, c.faults) then before
    else if c.faults.syncDir then before + {Some(c.data)}
    else {Some(c.data)}
  }

  /** The contents a power loss may leave: those of the successful calls since the directory was
      last synced, or what was there before them. */
  function Candidates(fs: Fs, path: string, before: set<Option<Bytes>>, calls: seq<Call>): set<Option<Bytes>>
    requires fs.Valid() && forall i :: 0 <= i < |calls| ==> calls[i].tmp != path
    decreases |calls|
  {
    if calls == [] then before else
    var c := calls[0];
    var now := NowPossible(fs, c, before);
    DoneValid(fs, path, c);
    Candidates(Done(fs, path, c.tmp, c.data, c.faults), path, now, calls[1..])
  }

  lemma DoneWithin(fs: Fs, path: string, c: Call, before: set<Option<Bytes>>)
    requires fs.Valid() && c.tmp != path && Within(fs, path, before)
    ensures var now := NowPossible(fs, c, before);
            Within(Done(fs, path, c.tmp, c.data, c.faults), path, now)
  {
    var n := |Steps(fs, path, c.tmp, c.data, c.faults)|;
    if n > 0 {
      AtomicReplace(fs, path, c.tmp, c.data, c.faults, before, n - 1);
    }
    if Succeeds(fs, c.tmp, c.faults) && !c.faults.syncDir {
      TemporaryOnly(fs, c.tmp, c.data, path, before);
      Renaming(Sync(Write(Create(fs, c.tmp), fs.next, c.data), fs.next), c.tmp, path, before);
    }
    hide Within;
    hide Create;
    hide Write;
    hide Sync;
    hide Rename;
    hide Remove;
    hide SyncDir;
  }

  /** After any run of calls with any faults, a power loss leaves the file whole, with one of those contents. */
  lemma {:induction false} RunSurvives(fs: Fs, path: string, before: set<Option<Bytes>>, calls: seq<Call>,
                                       d: Directory, content: map<nat, Bytes>)
    requires fs.Valid() && forall i :: 0 <= i < |calls| ==> calls[i].tmp != path
    requires Within(fs, path, before) && CanSurvive(AfterCalls(fs, path, calls), d, content)
    ensures Read(d, content, path) in Candidates(fs, path, before, calls)
    decreases |calls|
  {
    hide Within;
    hide CanSurvive;
    hide Done;
    if calls == [] {
      WithinSurvives(fs, path, before, d, content);
    } else {
      var c := calls[0];
      var now := NowPossible(fs, c, before);
      DoneValid(fs, path, c);
      DoneWithin(fs, path, c, before);
      RunSurvives(Done(fs, path, c.tmp, c.data, c.faults), path, now, calls[1..], d, content);
    }
  }

  // ------------------------------------------------------------ what exactly can survive

  /** The contents the versions of the directory give a file. */
  ghost function Possible(fs: Fs, path: string): set<Option<Bytes>> {
    set d | d in fs.versions :: Read(d, fs.content, path)
  }

  /** Whichever version survives, the file it gives has been synced. */
  ghost predicate Durable(fs: Fs, path: string) {
    forall d :: d in fs.versions && path in d ==> d[path] in fs.synced
  }

  /** A power loss can leave the file with this content. */
  ghost predicate CanLeave(fs: Fs, path: string, v: Option<Bytes>) {
    exists d, content :: CanSurvive(fs, d, content) && Read(d, content, path) == v
  }

  lemma DurableIsWithin(fs: Fs, path: string)
    ensures Durable(fs, path) <==> Within(fs, path, Possible(fs, path))
    ensures forall allowed :: Within(fs, path, allowed) ==> Durable(fs, path)
  {
  }

  lemma LeavesPossible(fs: Fs, path: string, v: Option<Bytes>)
    requires fs.Valid() && Durable(fs, path)
    ensures CanLeave(fs, path, v) <==> v in Possible(fs, path)
  {
    if CanLeave(fs, path, v) {
      var d, content :| CanSurvive(fs, d, content) && Read(d, content, path) == v;
      DurableIsWithin(fs, path);
      WithinSurvives(fs, path, Possible(fs, path), d, content);
    }
    if v in Possible(fs, path) {
      var d :| d in fs.versions && Read(d, fs.content, path) == v;
      assert CanSurvive(fs, d, fs.content);
    }
  }

  lemma PossibleWithTemporary(fs: Fs, tmp: string, data: Bytes, path: string)
    requires fs.Valid() && path != tmp
    ensures var created := Create(fs, tmp);
            var written := Write(created, fs.next, data);
            var synced := Sync(written, fs.next);
            && Possible(created, path) == Possible(written, path) == Possible(synced, path) == Possible(fs, path)
            && Possible(Remove(written, tmp), path) == Possible(Remove(synced, tmp), path) == Possible(fs, path)
  {
    var written := Write(Create(fs, tmp), fs.next, data);
    SameVersions(fs, Create(fs, tmp), path);
    SameVersions(fs, written, path);
    SameVersions(fs, Sync(written, fs.next), path);
    SameVersions(fs, Remove(written, tmp), path);
    SameVersions(fs, Remove(Sync(written, fs.next), tmp), path);
  }

  /** New versions that give a file what the visible one gives, over unchanged old files. */
  lemma SameVersions(fs: Fs, now: Fs, path: string)
    requires fs.Valid() && fs.versions <= now.versions
    requires forall i :: i in fs.content ==> i in now.content && now.content[i] == fs.content[i]
    requires forall d :: d in now.versions[|fs.versions|..] ==>
               (path in d <==> path in fs.Visible()) && (path in d ==> d[path] == fs.Visible()[path])
    ensures Possible(now, path) == Possible(fs, path)
  {
    forall d | d in fs.versions ensures Read(d, now.content, path) == Read(d, fs.content, path) {}
    forall v | v in Possible(fs, path) ensures v in Possible(now, path) {
      var d :| d in fs.versions && Read(d, fs.content, path) == v;
      assert d in now.versions;
    }
    forall v | v in Possible(now, path) ensures v in Possible(fs, path) {
      var d :| d in now.versions && Read(d, now.content, path) == v;
      if d !in fs.versions {
        assert now.versions == fs.versions + now.versions[|fs.versions|..];
        assert Read(d, now.content, path) == Read(fs.Visible(), fs.content, path);
      }
    }
  }

  lemma PossibleAfterRename(fs: Fs, tmp: string, path: string)
    requires fs.Valid() && path != tmp && tmp in fs.Visible()
    ensures var now, data := Rename(fs, tmp, path), Some(fs.content[fs.Visible()[tmp]]);
            && Possible(now, path) == Possible(fs, path) + {data}
            && Possible(SyncDir(now), path) == {data}
  {
    var now, data := Rename(fs, tmp, path), Some(fs.content[fs.Visible()[tmp]]);
    assert Read(now.Visible(), now.content, path) == data;
    assert now.versions == fs.versions + [now.Visible()];
    forall v | v in Possible(fs, path) ensures v in Possible(now, path) {
      var d :| d in fs.versions && Read(d, fs.content, path) == v;
      assert d in now.versions;
    }
  }

  /** What one call leaves possible: no less than its candidates and no more. */
  lemma DonePossible(fs: Fs, path: string, c: Call)
    requires fs.Valid() && c.tmp != path
    ensures Possible(Done(fs, path, c.tmp, c.data, c.faults), path)
            == NowPossible(fs, c, Possible(fs, path))
  {
    PossibleWithTemporary(fs, c.tmp, Written(c.data, c.faults), path);
    if Succeeds(fs, c.tmp, c.faults) {
      var synced := Sync(Write(Create(fs, c.tmp), fs.next, c.data), fs.next);
      VisibleWithTemporary(fs, c.tmp, c.data);
      PossibleAfterRename(synced, c.tmp, path);
    }
    hide Possible;
    hide Create;
    hide Write;
    hide Sync;
    hide Rename;
    hide Remove;
    hide SyncDir;
  }

  lemma DoneDurable(fs: Fs, path: string, c: Call)
    requires fs.Valid() && c.tmp != path && Durable(fs, path)
    ensures Durable(Done(fs, path, c.tmp, c.data, c.faults), path)
  {
    DurableIsWithin(fs, path);
    DoneWithin(fs, path, c, Possible(fs, path));
    DurableIsWithin(Done(fs, path, c.tmp, c.data, c.faults), path);
  }

  /** A successful call is durable exactly when its directory sync succeeds: otherwise, where the old
      content differs, a power loss can bring it back. */
  lemma DurableIffDirectorySynced(fs: Fs, path: string, c: Call)
    requires fs.Valid() && c.tmp != path && Durable(fs, path) && Succeeds(fs, c.tmp, c.faults)
    requires Read(fs.Visible(), fs.content, path) != Some(c.data)
    ensures var done := Done(fs, path, c.tmp, c.data, c.faults);
            && ((forall v :: CanLeave(done, path, v) ==> v == Some(c.data)) <==> !c.faults.syncDir)
            && (c.faults.syncDir ==> CanLeave(done, path, Read(fs.Visible(), fs.content, path)))
  {
    var done, old' := Done(fs, path, c.tmp, c.data, c.faults), Read(fs.Visible(), fs.content, path);
    DoneValid(fs, path, c);
    DoneDurable(fs, path, c);
    DonePossible(fs, path, c);
    assert old' in Possible(fs, path);
    hide Done;
    hide Possible;
    hide CanLeave;
    hide Durable;
    LeavesPossible(done, path, old');
    forall v ensures CanLeave(done, path, v) <==> v in Possible(done, path) {
      LeavesPossible(done, path, v);
    }
  }

  /** After any run of calls with any faults: the contents a power loss can leave are exactly the
      candidates. */
  lemma {:induction false} RunLeavesExactly(fs: Fs, path: string, calls: seq<Call>, v: Option<Bytes>)
    requires fs.Valid() && Durable(fs, path) && forall i :: 0 <= i < |calls| ==> calls[i].tmp != path
    ensures CanLeave(AfterCalls(fs, path, calls), path, v) <==> v in Candidates(fs, path, Possible(fs, path), calls)
    decreases |calls|
  {
    hide Possible;
    hide CanLeave;
    hide Durable;
    hide Done;
    if calls == [] {
      LeavesPossible(fs, path, v);
    } else {
      var c := calls[0];
      DoneValid(fs, path, c);
      DoneDurable(fs, path, c);
      DonePossible(fs, path, c);
      RunLeavesExactly(Done(fs, path, c.tmp, c.data, c.faults), path, calls[1..], v);
    }
  }

  // ------------------------------------------------------------ the function itself

  class FileSystem {
    var fs: Fs
    ghost var trace: seq<Fs>

    constructor (fs: Fs)
      ensures this.fs == fs && trace == []
    {
      this.fs, trace := fs, [];
    }

    method Set(fs: Fs)
      modifies this
      ensures this.fs == fs && trace == old(trace) + [fs]
    {
      this.fs, trace := fs, trace + [fs];
    }

    /** Closing the temporary file again and removing it, when it was left behind. */
    method CleanUp(tmp: string, f: Faults)
      requires fs.versions != []
      modifies this
      ensures trace == old(trace) + Cleanup(old(fs), tmp, f)
      ensures fs == if f.remove then old(fs) else Remove(old(fs), tmp)
    {
      if !f.remove {
        Set(Remove(fs, tmp));
      }
    }

    method WriteFileAtomic(path: string, tmp: string, data: Bytes, f: Faults) returns (ok: bool)
      requires fs.Valid()
      modifies this
      ensures ok == Succeeds(old(fs), tmp, f)
      ensures trace == old(trace) + Steps(old(fs), path, tmp, data, f)
      ensures fs == Done(old(fs), path, tmp, data, f)
    {
      if f.mkdir || f.create || tmp in fs.Visible() {
        return false;
      }
      var file := fs.next;
      Set(Create(fs, tmp));
      Set(Write(fs, file, Written(data, f)));
      if f.write {
        CleanUp(tmp, f);
        return false;
      }
      if f.sync {
        CleanUp(tmp, f);
        return false;
      }
      Set(Sync(fs, file));
      if f.chmod || f.close {
        CleanUp(tmp, f);
        return false;
      }
      if f.rename {
        CleanUp(tmp, f);
        return false;
      }
      Set(Rename(fs, tmp, path));
      if !f.syncDir {
        Set(SyncDir(fs));
      }
      return true;
    }
  }
}
