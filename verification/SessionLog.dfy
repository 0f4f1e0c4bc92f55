/** One session of the JSONL store: an append-only log and a metadata file, the disk steps of
    each operation, and what is readable after a crash between any two of them. */
module SessionLog {
  import opened Options
  import opened Messages
  import opened Sequences

  /** A non-empty line of the log: a message, an unreadable line, or one the scanner refuses
      because it is longer than the line limit. */
  datatype Line = Readable(msg: Message) | Corrupt | Oversized

  datatype Meta = Meta(summary: string, skip: nat, count: nat)

  /** The two files of a session; a log that does not exist reads like an empty one. */
  datatype Files = Files(log: seq<Line>, meta: Option<Meta>) {
    /** readMeta: a missing metadata file reads as the zero value. */
    function Metadata(): Meta {
      if meta.None? then Meta("", 0, 0) else meta.value
    }
  }

  datatype Result<+T> = Ok(value: T) | ScanError

  datatype Op =
    | Add(msg: Message)
    | SetSummary(summary: string)
    | Truncate(keepLast: int)
    | SetHistory(history: seq<Message>)
    | Compact

  /** Marshalling: whether a message's line stays below the limit is left open. */
  function Marshal(msg: Message, fits: Message -> bool): Line {
    if fits(msg) then Readable(msg) else Oversized
  }

  function MarshalAll(msgs: seq<Message>, fits: Message -> bool): seq<Line> {
    seq(|msgs|, i requires 0 <= i < |msgs| => Marshal(msgs[i], fits))
  }

  /** The readable messages of some lines, in order. */
  function Parsed(lines: seq<Line>): seq<Message> {
    if lines == [] then [] else Decoded(lines[0]) + Parsed(lines[1..])
  }

  function Decoded(line: Line): seq<Message> {
    if line.Readable? then [line.msg] else []
  }

  function Live(f: Files): seq<Line> {
    var skip := f.Metadata().skip;
    if skip <= |f.log| then f.log[skip..] else []
  }

  /** What a scan of the whole log from the skip offset yields. */
  function ReadLog(log: seq<Line>, skip: nat): Result<seq<Message>> {
    if Oversized in log then ScanError
    else Ok(Parsed(if skip <= |log| then log[skip..] else []))
  }

  function GetHistory(f: Files): Result<seq<Message>> {
    ReadLog(f.log, f.Metadata().skip)
  }

  function TruncatedSkip(m: Meta, count: nat, keepLast: int): nat {
    if keepLast <= 0 then count
    else if keepLast < count - m.skip then count - keepLast
    else m.skip
  }

  /** The states the two files go through while an operation runs, one per disk step; an
      operation that fails or has nothing to do takes none. */
  function Steps(f: Files, op: Op, fits: Message -> bool): seq<Files> {
    var m := f.Metadata();
    match op
    case Add(msg) =>
      var appended := f.(log := f.log + [Marshal(msg, fits)]);
      [appended, appended.(meta := Some(m.(count := m.count + 1)))]
    case SetSummary(summary) => [f.(meta := Some(m.(summary := summary)))]
    case Truncate(keepLast) =>
      if Oversized in f.log then [] else
      [f.(meta := Some(m.(count := |f.log|, skip := TruncatedSkip(m, |f.log|, keepLast))))]
    case SetHistory(history) =>
      var reset := f.(meta := Some(m.(skip := 0, count := |history|)));
      [reset, reset.(log := MarshalAll(history, fits))]
    case Compact =>
      if m.skip == 0 || Oversized in f.log then [] else
      var active := GetHistory(f).value;
      var reset := f.(meta := Some(m.(skip := 0, count := |active|)));
      [reset, reset.(log := MarshalAll(active, fits))]
  }

  /** The files after the first i disk steps of an operation: a crash there leaves exactly these. */
  function Reached(f: Files, op: Op, fits: Message -> bool, i: nat): Files
    requires i <= |Steps(f, op, fits)|
  {
    if i == 0 then f else Steps(f, op, fits)[i - 1]
  }

  function Complete(f: Files, op: Op, fits: Message -> bool): Files {
    Reached(f, op, fits, |Steps(f, op, fits)|)
  }

  // ------------------------------------------------------------ reading

  lemma {:induction false} MessagesConcat(a: seq<Line>, b: seq<Line>)
    ensures Parsed(a + b) == Parsed(a) + Parsed(b)
  {
    hide Decoded;
    if a == [] {
      assert a + b == b;
    } else {
      assert (a + b)[1..] == a[1..] + b;
      MessagesConcat(a[1..], b);
    }
  }

  lemma {:induction false} MessagesOfMarshalled(msgs: seq<Message>, fits: Message -> bool)
    requires forall i :: 0 <= i < |msgs| ==> fits(msgs[i])
    ensures Parsed(MarshalAll(msgs, fits)) == msgs && Oversized !in MarshalAll(msgs, fits)
  {
    if msgs != [] {
      MessagesOfMarshalled(msgs[1..], fits);
      assert MarshalAll(msgs, fits)[1..] == MarshalAll(msgs[1..], fits);
    }
  }

  lemma {:induction false} MessagesShorter(lines: seq<Line>)
    ensures |Parsed(lines)| <= |lines|
    ensures Corrupt !in lines && Oversized !in lines ==> |Parsed(lines)| == |lines|
  {
    if lines != [] {
      MessagesShorter(lines[1..]);
      assert lines[0] in lines;
    }
  }

  /** Every message read came from a readable line. */
  lemma {:induction false} MessagesFit(lines: seq<Line>, fits: Message -> bool)
    requires forall i :: 0 <= i < |lines| && lines[i].Readable? ==> fits(lines[i].msg)
    ensures forall i :: 0 <= i < |Parsed(lines)| ==> fits(Parsed(lines)[i])
  {
    if lines != [] {
      assert forall i :: 0 <= i < |lines[1..]| ==> lines[1..][i] == lines[i + 1];
      MessagesFit(lines[1..], fits);
    }
  }

  // ------------------------------------------------------------ what every state keeps

  /** The skip offset never passes the end of the log, and readable lines are below the limit. */
  predicate Valid(f: Files, fits: Message -> bool) {
    && f.Metadata().skip <= |f.log|
    && (forall i :: 0 <= i < |f.log| && f.log[i].Readable? ==> fits(f.log[i].msg))
  }

  /** Kept by every disk step of every operation, so also by a crash after it. */
  lemma ValidKept(f: Files, op: Op, fits: Message -> bool, i: nat)
    requires Valid(f, fits) && i <= |Steps(f, op, fits)|
    ensures Valid(Reached(f, op, fits, i), fits)
  {
    if op.Compact? && i == 2 {
      MessagesFit(Live(f), fits);
    }
  }

  // ------------------------------------------------------------ refinement without crashes

  /** What the store's interface promises of one session. */
  datatype Session = Session(history: seq<Message>, summary: string)

  function LastK<T>(s: seq<T>, k: int): seq<T> {
    if k <= 0 then [] else if k < |s| then s[|s| - k..] else s
  }

  function Spec(s: Session, op: Op): Session {
    match op
    case Add(msg) => s.(history := s.history + [msg])
    case SetSummary(summary) => s.(summary := summary)
    case Truncate(keepLast) => s.(history := LastK(s.history, keepLast))
    case SetHistory(history) => s.(history := history)
    case Compact => s
  }

  function Abs(f: Files): Session {
    Session(Parsed(Live(f)), f.Metadata().summary)
  }

  /** Every line holds a message. */
  predicate Clean(f: Files) {
    forall i :: 0 <= i < |f.log| ==> f.log[i].Readable?
  }

  predicate FitsAll(op: Op, fits: Message -> bool) {
    && (op.Add? ==> fits(op.msg))
    && (op.SetHistory? ==> forall i :: 0 <= i < |op.history| ==> fits(op.history[i]))
  }

  lemma {:induction false} MessagesOfSuffix(lines: seq<Line>, k: nat)
    requires k <= |lines| && forall i :: 0 <= i < |lines| ==> lines[i].Readable?
    ensures |Parsed(lines)| == |lines| && Parsed(lines[k..]) == Parsed(lines)[k..]
  {
    MessagesShorter(lines);
    MessagesShorter(lines[..k]);
    assert lines == lines[..k] + lines[k..];
    MessagesConcat(lines[..k], lines[k..]);
  }

  lemma TruncateDrops(f: Files, k: int, fits: Message -> bool)
    requires f.Metadata().skip <= |f.log| && Oversized !in f.log
    ensures var f' := Complete(f, Truncate(k), fits);
            && Live(f') == LastK(Live(f), k)
            && f'.log == f.log && f'.Metadata().summary == f.Metadata().summary
  {
  }

  /** A completed truncation keeps exactly the last k messages. */
  lemma TruncateRefines(f: Files, k: int, fits: Message -> bool)
    requires Valid(f, fits) && Clean(f)
    ensures Abs(Complete(f, Truncate(k), fits)) == Spec(Abs(f), Truncate(k))
  {
    TruncateDrops(f, k, fits);
    ParsedLastK(Live(f), k);
    hide Complete;
    hide Parsed;
    hide Live;
    hide LastK;
  }

  lemma ParsedLastK(lines: seq<Line>, k: int)
    requires forall i :: 0 <= i < |lines| ==> lines[i].Readable?
    ensures Parsed(LastK(lines, k)) == LastK(Parsed(lines), k)
  {
    MessagesOfSuffix(lines, 0);
    MessagesOfSuffix(lines, if k <= 0 then |lines| else if k < |lines| then |lines| - k else 0);
    hide Parsed;
  }

  lemma AddRefines(f: Files, msg: Message, fits: Message -> bool)
    requires Valid(f, fits) && fits(msg)
    ensures Abs(Complete(f, Add(msg), fits)) == Spec(Abs(f), Add(msg))
  {
    var skip := f.Metadata().skip;
    assert (f.log + [Readable(msg)])[skip..] == f.log[skip..] + [Readable(msg)];
    MessagesConcat(f.log[skip..], [Readable(msg)]);
    assert Parsed([Readable(msg)]) == [msg];
  }

  lemma SetHistoryRefines(f: Files, history: seq<Message>, fits: Message -> bool)
    requires FitsAll(SetHistory(history), fits)
    ensures Abs(Complete(f, SetHistory(history), fits)) == Spec(Abs(f), SetHistory(history))
  {
    MessagesOfMarshalled(history, fits);
    assert MarshalAll(history, fits)[0..] == MarshalAll(history, fits);
  }

  lemma CompactRefines(f: Files, fits: Message -> bool)
    requires Valid(f, fits) && Oversized !in f.log
    ensures var f' := Complete(f, Compact, fits);
            && Abs(f') == Abs(f) && GetHistory(f') == GetHistory(f)
            && Complete(f', Compact, fits) == f'
  {
    var active := Parsed(Live(f));
    MessagesFit(Live(f), fits);
    MessagesOfMarshalled(active, fits);
    assert MarshalAll(active, fits)[0..] == MarshalAll(active, fits);
  }

  /** A completed compaction reclaims the space: the log holds the history and nothing else. */
  lemma CompactReclaims(f: Files, fits: Message -> bool)
    requires Valid(f, fits) && Oversized !in f.log && f.Metadata().skip != 0
    ensures var f' := Complete(f, Compact, fits);
            && f'.log == MarshalAll(Abs(f).history, fits) && f'.Metadata().skip == 0
            && |f'.log| == |Abs(f).history| <= |f.log| - f.Metadata().skip
  {
    MessagesShorter(Live(f));
  }

  /** The count in the metadata is that of the log's lines: truncation, replacement and compaction make it
      so, whatever it was after a crash, and the other operations keep it so. */
  lemma CountIsLines(f: Files, op: Op, fits: Message -> bool)
    requires Oversized !in f.log
    requires f.Metadata().count == |f.log| || op.Truncate? || op.SetHistory? || (op.Compact? && f.Metadata().skip != 0)
    ensures Complete(f, op, fits).Metadata().count == |Complete(f, op, fits).log|
  {
  }

  /** Each completed operation does to the session what the interface promises. */
  lemma OpRefines(f: Files, op: Op, fits: Message -> bool)
    requires Valid(f, fits) && FitsAll(op, fits) && (op.Truncate? ==> Clean(f))
    ensures Abs(Complete(f, op, fits)) == Spec(Abs(f), op)
  {
    match op
    case Add(msg) => AddRefines(f, msg, fits);
    case SetSummary(_) =>
    case Truncate(k) => TruncateRefines(f, k, fits);
    case SetHistory(history) => SetHistoryRefines(f, history, fits);
    case Compact => if Oversized !in f.log { CompactRefines(f, fits); }
  }

  /** ... and leaves a valid log of readable lines, whose history is read without an error. */
  lemma OpKeepsClean(f: Files, op: Op, fits: Message -> bool)
    requires Valid(f, fits) && Clean(f) && FitsAll(op, fits)
    ensures var f' := Complete(f, op, fits);
            Valid(f', fits) && Clean(f') && GetHistory(f') == Ok(Abs(f').history)
  {
    ValidKept(f, op, fits, |Steps(f, op, fits)|);
    if op.Compact? { MessagesFit(Live(f), fits); }
    hide Parsed;
  }

  /** With unreadable lines in the log, truncation still yields a suffix of at most k messages. */
  lemma TruncateWithCorruption(f: Files, k: int, fits: Message -> bool)
    requires Valid(f, fits) && Oversized !in f.log
    ensures var h, h' := Parsed(Live(f)), Parsed(Live(Complete(f, Truncate(k), fits)));
            && (exists n :: 0 <= n <= |h| && h' == h[n..])
            && (k <= 0 ==> h' == []) && (k > 0 ==> |h'| <= k)
  {
    var f' := Complete(f, Truncate(k), fits);
    var skip, skip' := f.Metadata().skip, f'.Metadata().skip;
    var dropped := f.log[skip..skip'];
    assert Live(f) == dropped + Live(f');
    MessagesConcat(dropped, Live(f'));
    assert Parsed(Live(f')) == Parsed(Live(f))[|Parsed(dropped)|..];
    MessagesShorter(Live(f'));
  }

  // ------------------------------------------------------------ crash recovery

  /** All readable lines of the log, also the truncated ones. */
  function AllMessages(f: Files): seq<Message> { Parsed(f.log) }

  /** After a crash between any two disk steps the recovered history is the old one, the intended
      new one, or, for the two rewriting operations, all readable old lines, which end in the old
      history. */
  lemma CrashRecovery(f: Files, op: Op, fits: Message -> bool, i: nat)
    requires Valid(f, fits) && i <= |Steps(f, op, fits)|
    ensures var old', new' := Parsed(Live(f)), Parsed(Live(Complete(f, op, fits)));
            var now := Parsed(Live(Reached(f, op, fits, i)));
            || now == old' || now == new'
            || ((op.SetHistory? || op.Compact?) && i == 1 && now == AllMessages(f) && IsSuffix(old', now))
  {
    if 0 < i < |Steps(f, op, fits)| {
      HalfWay(f, op, fits);
      OldHistoryIsSuffix(f);
    }
    hide Steps;
    hide Parsed;
  }

  /** Only appends and rewrites have a state half way: the line without its count, or the reset
      metadata over the old log. */
  lemma HalfWay(f: Files, op: Op, fits: Message -> bool)
    requires Valid(f, fits) && |Steps(f, op, fits)| > 1
    ensures |Steps(f, op, fits)| == 2
    ensures op.Add? ==> Live(Reached(f, op, fits, 1)) == Live(Complete(f, op, fits))
    ensures !op.Add? ==> (op.SetHistory? || op.Compact?) && Live(Reached(f, op, fits, 1)) == f.log
  {
  }

  lemma OldHistoryIsSuffix(f: Files)
    requires f.Metadata().skip <= |f.log|
    ensures IsSuffix(Parsed(Live(f)), AllMessages(f))
  {
    var skip := f.Metadata().skip;
    assert f.log == f.log[..skip] + f.log[skip..];
    MessagesConcat(f.log[..skip], f.log[skip..]);
  }

  /** ... and it can be read, unless a line passes the scanner's limit. */
  lemma RecoveredReads(f: Files, op: Op, fits: Message -> bool, i: nat)
    requires Valid(f, fits) && i <= |Steps(f, op, fits)| && Oversized !in f.log && FitsAll(op, fits)
    ensures GetHistory(Reached(f, op, fits, i)) == Ok(Parsed(Live(Reached(f, op, fits, i))))
  {
    if op.SetHistory? { MessagesOfMarshalled(op.history, fits); }
    if op.Compact? {
      MessagesFit(Live(f), fits);
      MessagesOfMarshalled(Parsed(Live(f)), fits);
    }
  }

  // ------------------------------------------------------------ runs with crashes

  /** One operation of a run, stopped by a crash after `steps` disk steps (all of them when it
      completes). */
  datatype Attempt = Attempt(op: Op, steps: nat)

  function AfterAttempt(f: Files, a: Attempt, fits: Message -> bool): Files {
    var n := |Steps(f, a.op, fits)|;
    Reached(f, a.op, fits, if a.steps <= n then a.steps else n)
  }

  function AfterRun(f: Files, run: seq<Attempt>, fits: Message -> bool): Files
    decreases |run|
  {
    if run == [] then f else AfterRun(AfterAttempt(f, run[0], fits), run[1..], fits)
  }

  /** In every run with any number of crashes the skip offset stays within the log. */
  lemma {:induction false} RunKeepsValid(f: Files, run: seq<Attempt>, fits: Message -> bool)
    requires Valid(f, fits)
    ensures Valid(AfterRun(f, run, fits), fits)
    decreases |run|
  {
    hide Steps;
    hide Reached;
    if run != [] {
      var a := run[0];
      var n := |Steps(f, a.op, fits)|;
      ValidKept(f, a.op, fits, if a.steps <= n then a.steps else n);
      RunKeepsValid(AfterAttempt(f, a, fits), run[1..], fits);
    }
  }

  /** The attempt cannot have replaced or truncated the history: it is an append, a summary, a
      compaction, or a replacement that crashed before its last step. */
  predicate Harmless(a: Attempt) {
    !a.op.Truncate? && (a.op.SetHistory? ==> a.steps < 2)
  }

  lemma AppendKeepsHistory(f: Files, f': Files, line: Line)
    requires f.Metadata().skip <= |f.log| && Live(f') == Live(f) + [line]
    ensures Inside(Parsed(Live(f)), Parsed(Live(f')))
  {
    MessagesConcat(Live(f), [line]);
    hide Parsed;
    assert Parsed(Live(f)) == Parsed(Live(f'))[0..|Parsed(Live(f))|];
  }

  lemma WholeLogKeepsHistory(f: Files, f': Files)
    requires f.Metadata().skip <= |f.log| && Live(f') == f.log
    ensures Inside(Parsed(Live(f)), Parsed(Live(f')))
  {
    OldHistoryIsSuffix(f);
    hide Parsed;
    var h, h' := Parsed(Live(f)), Parsed(Live(f'));
    assert h == h'[|h'| - |h|..|h'|];
  }

  /** Where a harmless attempt can stop. */
  lemma HarmlessStops(f: Files, a: Attempt, fits: Message -> bool)
    requires Valid(f, fits) && Harmless(a) && Oversized !in f.log
    ensures var f' := AfterAttempt(f, a, fits);
            || Live(f') == Live(f) || Live(f') == f.log
            || (a.op.Add? && Live(f') == Live(f) + [Marshal(a.op.msg, fits)])
            || (a.op.Compact? && f' == Complete(f, Compact, fits))
  {
    match a.op
    case Add(msg) =>
      var f' := AfterAttempt(f, a, fits);
      if a.steps > 0 {
        assert Live(f') == Live(f) + [Marshal(msg, fits)];
      }
    case SetSummary(_) =>
    case SetHistory(_) =>
    case Compact =>
  }

  lemma HarmlessKeepsHistory(f: Files, a: Attempt, fits: Message -> bool)
    requires Valid(f, fits) && Harmless(a) && Oversized !in f.log
    ensures Inside(Parsed(Live(f)), Parsed(Live(AfterAttempt(f, a, fits))))
  {
    HarmlessStops(f, a, fits);
    hide Complete;
    hide Reached;
    hide Steps;
    var f' := AfterAttempt(f, a, fits);
    if Live(f') == Live(f) {
      InsideSelf(Parsed(Live(f)));
    } else if Live(f') == f.log {
      WholeLogKeepsHistory(f, f');
    } else if a.op.Add? {
      AppendKeepsHistory(f, f', Marshal(a.op.msg, fits));
    } else {
      CompactRefines(f, fits);
      InsideSelf(Parsed(Live(f)));
    }
  }

  predicate FitsRun(run: seq<Attempt>, fits: Message -> bool) {
    forall i :: 0 <= i < |run| ==> FitsAll(run[i].op, fits)
  }

  lemma ScannableKept(f: Files, a: Attempt, fits: Message -> bool)
    requires Valid(f, fits) && Oversized !in f.log && FitsAll(a.op, fits)
    ensures Oversized !in AfterAttempt(f, a, fits).log
  {
    if a.op.SetHistory? { MessagesOfMarshalled(a.op.history, fits); }
    if a.op.Compact? {
      MessagesFit(Live(f), fits);
      MessagesOfMarshalled(Parsed(Live(f)), fits);
    }
  }

  /** No live message is ever lost unless a truncation ran or a replacement completed: through
      any run of other operations and any number of crashes, the history stays, in one piece,
      inside the history read later. */
  lemma {:induction false} RunKeepsHistory(f: Files, run: seq<Attempt>, fits: Message -> bool)
    requires Valid(f, fits) && Oversized !in f.log && FitsRun(run, fits)
    requires forall i :: 0 <= i < |run| ==> Harmless(run[i])
    ensures Inside(Parsed(Live(f)), Parsed(Live(AfterRun(f, run, fits))))
    decreases |run|
  {
    hide AfterAttempt;
    hide Inside;
    if run == [] {
      InsideSelf(Parsed(Live(f)));
    } else {
      var a := run[0];
      var f1 := AfterAttempt(f, a, fits);
      HarmlessKeepsHistory(f, a, fits);
      ScannableKept(f, a, fits);
      RunKeepsValid(f, [a], fits);
      assert AfterRun(f, [a], fits) == AfterRun(f1, [], fits) == f1;
      RunKeepsHistory(f1, run[1..], fits);
      InsideTrans(Parsed(Live(f)), Parsed(Live(f1)), Parsed(Live(AfterRun(f1, run[1..], fits))));
    }
  }
}
