/** The JSONL store: a directory of sessions, its operations as sequences of disk writes, and
    its refinement of a map from session key to message list and summary. */
module JsonlStore {
  import opened Options
  import opened Messages
  import opened SessionLog

  /** File names lose the colons of their keys. */
  function SanitizeKey(key: string): string {
    seq(|key|, i requires 0 <= i < |key| => if key[i] == ':' then '_' else key[i])
  }

  /** Two keys share their files exactly when they differ only in colons against underscores. */
  lemma SharedFiles(a: string, b: string)
    ensures SanitizeKey(a) == SanitizeKey(b) <==>
              |a| == |b| && forall i :: 0 <= i < |a| && a[i] != b[i] ==> {a[i], b[i]} == {':', '_'}
  {
    var x, y := SanitizeKey(a), SanitizeKey(b);
    if x == y {
      forall i | 0 <= i < |a| && a[i] != b[i] ensures {a[i], b[i]} == {':', '_'} {
        assert x[i] == y[i];
      }
    } else if |a| == |b| {
      var i :| 0 <= i < |a| && x[i] != y[i];
    }
  }

  /** The session files of a directory, by sanitized key. */
  type Disk = map<string, Files>

  function FilesOf(disk: Disk, key: string): Files {
    var name := SanitizeKey(key);
    if name in disk then disk[name] else Files([], None)
  }

  function DiskWith(disk: Disk, key: string, f: Files): Disk {
    disk[SanitizeKey(key) := f]
  }

  /** The disks an operation goes through, one per disk step. */
  function DiskSteps(disk: Disk, key: string, op: Op, fits: Message -> bool): seq<Disk> {
    var steps := Steps(FilesOf(disk, key), op, fits);
    seq(|steps|, i requires 0 <= i < |steps| => DiskWith(disk, key, steps[i]))
  }

  function DiskAfter(disk: Disk, key: string, op: Op, fits: Message -> bool): Disk {
    var steps := DiskSteps(disk, key, op, fits);
    if steps == [] then disk else steps[|steps| - 1]
  }

  /** At most two disk steps, each a write to the key's own files. */
  lemma StepsAre(disk: Disk, key: string, op: Op, fits: Message -> bool)
    ensures var steps := Steps(FilesOf(disk, key), op, fits);
            && |steps| <= 2
            && (|steps| == 0 ==> DiskSteps(disk, key, op, fits) == [])
            && (|steps| == 1 ==> DiskSteps(disk, key, op, fits) == [DiskWith(disk, key, steps[0])])
            && (|steps| == 2 ==>
                  DiskSteps(disk, key, op, fits) == [DiskWith(disk, key, steps[0]), DiskWith(disk, key, steps[1])])
  {
  }

  lemma SecondWrite(disk: Disk, key: string, f: Files, g: Files)
    ensures FilesOf(DiskWith(disk, key, f), key) == f
    ensures DiskWith(DiskWith(disk, key, f), key, g) == DiskWith(disk, key, g)
  {
  }

  class JSONLStore {
    const fits: Message -> bool
    var disk: Disk
    ghost var trace: seq<Disk>   // every disk state so far: a crash leaves the last one

    constructor (disk: Disk, fits: Message -> bool)
      ensures this.disk == disk && this.fits == fits && trace == [disk]
    {
      this.disk, this.fits, trace := disk, fits, [disk];
    }

    /** Atomic replacement of the metadata file. */
    method WriteMeta(key: string, meta: Meta)
      modifies this
      ensures disk == DiskWith(old(disk), key, FilesOf(old(disk), key).(meta := Some(meta)))
      ensures trace == old(trace) + [disk]
    {
      disk := DiskWith(disk, key, FilesOf(disk, key).(meta := Some(meta)));
      trace := trace + [disk];
    }

    /** Append and sync of one line. */
    method AppendLine(key: string, line: Line)
      modifies this
      ensures disk == DiskWith(old(disk), key, FilesOf(old(disk), key).(log := FilesOf(old(disk), key).log + [line]))
      ensures trace == old(trace) + [disk]
    {
      var f := FilesOf(disk, key);
      disk := DiskWith(disk, key, f.(log := f.log + [line]));
      trace := trace + [disk];
    }

    /** Atomic replacement of the log. */
    method RewriteLog(key: string, msgs: seq<Message>)
      modifies this
      ensures disk == DiskWith(old(disk), key, FilesOf(old(disk), key).(log := MarshalAll(msgs, fits)))
      ensures trace == old(trace) + [disk]
    {
      var lines := [];
      for i := 0 to |msgs|
        invariant lines == MarshalAll(msgs[..i], fits)
      {
        lines := lines + [Marshal(msgs[i], fits)];
      }
      assert msgs[..|msgs|] == msgs;
      disk := DiskWith(disk, key, FilesOf(disk, key).(log := lines));
      trace := trace + [disk];
    }

    /** Scans a log, skipping lines without parsing them; unreadable lines are passed over. */
    method ReadMessages(log: seq<Line>, skip: nat) returns (r: Result<seq<Message>>)
      ensures r == ReadLog(log, skip)
    {
      var msgs := [];
      var lineNum := 0;
      while lineNum < |log|
        invariant 0 <= lineNum <= |log|
        invariant Oversized !in log[..lineNum]
        invariant msgs == Parsed(if lineNum <= skip then [] else log[skip..lineNum])
      {
        var line := log[lineNum];
        if line.Oversized? {
          return ScanError;
        }
        assert log[..lineNum + 1] == log[..lineNum] + [line];
        lineNum := lineNum + 1;
        if lineNum <= skip {
          continue;
        }
        assert log[skip..lineNum] == log[skip..lineNum - 1] + [line];
        MessagesConcat(log[skip..lineNum - 1], [line]);
        assert Parsed([line]) == Decoded(line);
        if line.Corrupt? {
          continue;
        }
        msgs := msgs + [line.msg];
      }
      assert log[..|log|] == log;
      return Ok(msgs);
    }

    method CountLines(log: seq<Line>) returns (r: Result<nat>)
      ensures r == if Oversized in log then ScanError else Ok(|log|)
    {
      var n := 0;
      while n < |log|
        invariant 0 <= n <= |log| && Oversized !in log[..n]
      {
        if log[n].Oversized? {
          return ScanError;
        }
        assert log[..n + 1] == log[..n] + [log[n]];
        n := n + 1;
      }
      assert log[..|log|] == log;
      return Ok(n);
    }

    method AddMsg(key: string, msg: Message)
      modifies this
      ensures trace == old(trace) + DiskSteps(old(disk), key, Add(msg), fits)
      ensures disk == DiskAfter(old(disk), key, Add(msg), fits)
    {
      AppendLine(key, Marshal(msg, fits));
      var meta := FilesOf(disk, key).Metadata();
      WriteMeta(key, meta.(count := meta.count + 1));
      ghost var steps := Steps(FilesOf(old(disk), key), Add(msg), fits);
      SecondWrite(old(disk), key, steps[0], steps[1]);
      StepsAre(old(disk), key, Add(msg), fits);
    }

    method GetHistory(key: string) returns (r: Result<seq<Message>>)
      ensures r == SessionLog.GetHistory(FilesOf(disk, key))
    {
      var f := FilesOf(disk, key);
      r := ReadMessages(f.log, f.Metadata().skip);
    }

    method GetSummary(key: string) returns (summary: string)
      ensures summary == Abs(FilesOf(disk, key)).summary
    {
      summary := FilesOf(disk, key).Metadata().summary;
    }

    method SetSummary(key: string, summary: string)
      modifies this
      ensures trace == old(trace) + DiskSteps(old(disk), key, Op.SetSummary(summary), fits)
      ensures disk == DiskAfter(old(disk), key, Op.SetSummary(summary), fits)
    {
      var meta := FilesOf(disk, key).Metadata();
      WriteMeta(key, meta.(summary := summary));
      StepsAre(old(disk), key, Op.SetSummary(summary), fits);
    }

    method TruncateHistory(key: string, keepLast: int) returns (ok: bool)
      modifies this
      ensures ok <==> Oversized !in FilesOf(old(disk), key).log
      ensures trace == old(trace) + DiskSteps(old(disk), key, Truncate(keepLast), fits)
      ensures disk == DiskAfter(old(disk), key, Truncate(keepLast), fits)
    {
      StepsAre(disk, key, Truncate(keepLast), fits);
      var f := FilesOf(disk, key);
      var meta := f.Metadata();
      var counted := CountLines(f.log);
      if counted.ScanError? {
        return false;
      }
      meta := meta.(count := counted.value);
      if keepLast <= 0 {
        meta := meta.(skip := meta.count);
      } else {
        var effective := meta.count - meta.skip;
        if keepLast < effective {
          meta := meta.(skip := meta.count - keepLast);
        }
      }
      WriteMeta(key, meta);
      return true;
    }

    method SetHistory(key: string, history: seq<Message>)
      modifies this
      ensures trace == old(trace) + DiskSteps(old(disk), key, Op.SetHistory(history), fits)
      ensures disk == DiskAfter(old(disk), key, Op.SetHistory(history), fits)
    {
      StepsAre(disk, key, Op.SetHistory(history), fits);
      ghost var steps := Steps(FilesOf(disk, key), Op.SetHistory(history), fits);
      SecondWrite(disk, key, steps[0], steps[1]);
      var meta := FilesOf(disk, key).Metadata();
      WriteMeta(key, meta.(skip := 0, count := |history|));
      RewriteLog(key, history);
    }

    method Compact(key: string) returns (ok: bool)
      modifies this
      ensures !ok <==> FilesOf(old(disk), key).Metadata().skip != 0 && Oversized in FilesOf(old(disk), key).log
      ensures trace == old(trace) + DiskSteps(old(disk), key, Op.Compact, fits)
      ensures disk == DiskAfter(old(disk), key, Op.Compact, fits)
    {
      StepsAre(disk, key, Op.Compact, fits);
      var f := FilesOf(disk, key);
      var meta := f.Metadata();
      if meta.skip == 0 {
        return true;
      }
      var active := ReadMessages(f.log, meta.skip);
      if active.ScanError? {
        return false;
      }
      ghost var steps := Steps(f, Op.Compact, fits);
      SecondWrite(disk, key, steps[0], steps[1]);
      WriteMeta(key, meta.(skip := 0, count := |active.value|));
      RewriteLog(key, active.value);
      return true;
    }
  }

  // ------------------------------------------------------------ refinement

  /** The interface's view of the whole store; a key without a session reads as an empty one. */
  type SpecStore = map<string, Session>

  function SessionOf(s: SpecStore, key: string): Session {
    if key in s then s[key] else Session([], "")
  }

  datatype Call = Call(key: string, op: Op)

  function SpecRun(s: SpecStore, calls: seq<Call>): SpecStore
    decreases |calls|
  {
    if calls == [] then s else
    var c := calls[0];
    SpecRun(s[c.key := Spec(SessionOf(s, c.key), c.op)], calls[1..])
  }

  function DiskRun(disk: Disk, calls: seq<Call>, fits: Message -> bool): Disk
    decreases |calls|
  {
    if calls == [] then disk else
    DiskRun(DiskAfter(disk, calls[0].key, calls[0].op, fits), calls[1..], fits)
  }

  /** No two of the keys share their files. */
  predicate Distinct(keys: set<string>) {
    forall a, b :: a in keys && b in keys && SanitizeKey(a) == SanitizeKey(b) ==> a == b
  }

  predicate Represents(disk: Disk, s: SpecStore, keys: set<string>, fits: Message -> bool) {
    forall k :: k in keys ==>
      var f := FilesOf(disk, k);
      Valid(f, fits) && Clean(f) && Abs(f) == SessionOf(s, k)
  }

  lemma CallFiles(disk: Disk, key: string, op: Op, fits: Message -> bool, other: string)
    ensures FilesOf(DiskAfter(disk, key, op, fits), other)
            == if SanitizeKey(other) == SanitizeKey(key) then Complete(FilesOf(disk, key), op, fits)
               else FilesOf(disk, other)
  {
  }

  lemma CallRefines(disk: Disk, s: SpecStore, keys: set<string>, c: Call, fits: Message -> bool)
    requires Represents(disk, s, keys, fits) && Distinct(keys) && c.key in keys && FitsAll(c.op, fits)
    ensures Represents(DiskAfter(disk, c.key, c.op, fits), s[c.key := Spec(SessionOf(s, c.key), c.op)], keys, fits)
  {
    hide Steps;
    hide Spec;
    hide Abs;
    hide Complete;
    var s' := s[c.key := Spec(SessionOf(s, c.key), c.op)];
    OpRefines(FilesOf(disk, c.key), c.op, fits);
    OpKeepsClean(FilesOf(disk, c.key), c.op, fits);
    forall k | k in keys
      ensures var f := FilesOf(DiskAfter(disk, c.key, c.op, fits), k);
              Valid(f, fits) && Clean(f) && Abs(f) == SessionOf(s', k)
    {
      CallFiles(disk, c.key, c.op, fits, k);
    }
  }

  /** Without crashes the store refines the map of sessions: after any run of calls on keys that
      share no files, every session's history and summary are what the interface promises, and
      the history of every key reads without an error. */
  lemma {:induction false} StoreRefines(disk: Disk, s: SpecStore, keys: set<string>, calls: seq<Call>,
                                        fits: Message -> bool)
    requires Represents(disk, s, keys, fits) && Distinct(keys)
    requires forall i :: 0 <= i < |calls| ==> calls[i].key in keys && FitsAll(calls[i].op, fits)
    ensures Represents(DiskRun(disk, calls, fits), SpecRun(s, calls), keys, fits)
    decreases |calls|
  {
    hide Represents;
    hide DiskAfter;
    hide Spec;
    if calls != [] {
      var c := calls[0];
      CallRefines(disk, s, keys, c, fits);
      var s' := s[c.key := Spec(SessionOf(s, c.key), c.op)];
      StoreRefines(DiskAfter(disk, c.key, c.op, fits), s', keys, calls[1..], fits);
    }
  }

  lemma EmptyStoreRepresents(keys: set<string>, fits: Message -> bool)
    ensures Represents(map[], map[], keys, fits)
  {
    assert Parsed([]) == [];
  }

  /** In particular a store that starts empty is the map of sessions that starts empty. */
  lemma NewStoreRefines(keys: set<string>, calls: seq<Call>, fits: Message -> bool)
    requires Distinct(keys) && forall i :: 0 <= i < |calls| ==> calls[i].key in keys && FitsAll(calls[i].op, fits)
    ensures Represents(DiskRun(map[], calls, fits), SpecRun(map[], calls), keys, fits)
  {
    EmptyStoreRepresents(keys, fits);
    StoreRefines(map[], map[], keys, calls, fits);
  }
}
