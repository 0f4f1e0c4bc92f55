/** Appends torn by crashes: the log as complete lines and possibly an unterminated tail, and
    exactly which acknowledged messages are missing from it later. */
module TornLog {

  /** A complete line: the message of the append at index `id`, or bytes that do not parse. */
  datatype Line = Entry(id: nat) | Garbage

  /** What follows the last newline: nothing, a fragment that does not parse, or the complete
      message of the append at index `id` that lacks only its newline. */
  datatype Tail = NoTail | Fragment | Unterminated(id: nat)

  datatype File = File(lines: seq<Line>, tail: Tail)

  /** How much of an append reached the disk when it was torn. */
  datatype Written = Nothing | Part | AllButNewline | Everything

  /** `Append` is acknowledged; `Tear` fails or crashes before its acknowledgement. */
  datatype Event = Append | Tear(written: Written) | Read

  /** A write behind a tail merges with it into one line, which does not parse. */
  function Line0(tail: Tail, id: nat): Line {
    if tail.NoTail? then Entry(id) else Garbage
  }

  function Apply(f: File, e: Event, id: nat): File {
    match e
    case Append => File(f.lines + [Line0(f.tail, id)], NoTail)
    case Tear(Nothing) => f
    case Tear(Part) => f.(tail := Fragment)
    case Tear(AllButNewline) => f.(tail := if f.tail.NoTail? then Unterminated(id) else Fragment)
    case Tear(Everything) => File(f.lines + [Line0(f.tail, id)], NoTail)
    case Read => f
  }

  function After(es: seq<Event>): File {
    if es == [] then File([], NoTail) else
    var n := |es| - 1;
    Apply(After(es[..n]), es[n], n)
  }

  function Ids(lines: seq<Line>): seq<nat> {
    if lines == [] then [] else
    var n := |lines| - 1;
    Ids(lines[..n]) + if lines[n].Entry? then [lines[n].id] else []
  }

  /** What a read returns: the parsed lines, and an unterminated but complete last message. */
  function History(f: File): seq<nat> {
    Ids(f.lines) + if f.tail.Unterminated? then [f.tail.id] else []
  }

  predicate Acknowledged(es: seq<Event>, i: nat) {
    i < |es| && es[i].Append?
  }

  /** The event leaves an unterminated tail. */
  predicate Tears(e: Event) {
    e.Tear? && (e.written.Part? || e.written.AllButNewline?)
  }

  /** The event writes nothing. */
  predicate Quiet(e: Event) {
    e.Read? || e == Tear(Nothing)
  }

  lemma IdsAppend(lines: seq<Line>, x: Line)
    ensures Ids(lines + [x]) == Ids(lines) + if x.Entry? then [x.id] else []
  {
    assert (lines + [x])[..|lines|] == lines;
  }

  /** An event adds its own message to the lines when it ends a line behind no tail. */
  lemma ApplyIds(f: File, e: Event, id: nat)
    ensures Ids(Apply(f, e, id).lines)
            == Ids(f.lines) + if (e.Append? || e == Tear(Everything)) && f.tail.NoTail? then [id] else []
  {
    IdsAppend(f.lines, Line0(f.tail, id));
  }

  /** A complete but unterminated last message is never an acknowledged one. */
  lemma {:induction false} TailIsTorn(es: seq<Event>)
    ensures var t := After(es).tail; t.Unterminated? ==> t.id < |es| && es[t.id].Tear?
    decreases |es|
  {
    if es != [] {
      TailIsTorn(es[..|es| - 1]);
    }
  }

  lemma {:induction false} LinesAre(es: seq<Event>, i: nat)
    ensures i in Ids(After(es).lines) ==> i < |es|
    ensures Acknowledged(es, i) ==> (i in Ids(After(es).lines) <==> After(es[..i]).tail.NoTail?)
    decreases |es|
  {
    if es != [] {
      var n := |es| - 1;
      var front := es[..n];
      LinesAre(front, i);
      if i < n { assert front[..i] == es[..i]; }
      ApplyIds(After(front), es[n], n);
      hide Apply;
      hide Ids;
    }
  }

  lemma HistoryIs(es: seq<Event>, i: nat)
    ensures i in History(After(es)) ==> i < |es|
    ensures Acknowledged(es, i) ==> (i in History(After(es)) <==> After(es[..i]).tail.NoTail?)
  {
    TailIsTorn(es);
    LinesAre(es, i);
  }

  /** An unterminated tail is there exactly when the last event that wrote anything tore. */
  lemma {:induction false} TailMeansTear(es: seq<Event>)
    ensures !After(es).tail.NoTail? <==>
              exists j :: 0 <= j < |es| && Tears(es[j]) && forall k :: j < k < |es| ==> Quiet(es[k])
    decreases |es|
  {
    if es != [] {
      var n := |es| - 1;
      var front := es[..n];
      TailMeansTear(front);
      if Tears(es[n]) {
        assert !After(es).tail.NoTail?;
      } else if Quiet(es[n]) {
        if !After(front).tail.NoTail? {
          var j :| 0 <= j < n && Tears(front[j]) && forall k :: j < k < n ==> Quiet(front[k]);
          assert Tears(es[j]) && forall k :: j < k < |es| ==> Quiet(es[k]);
        } else {
          forall j | 0 <= j < |es| && Tears(es[j]) ensures exists k :: j < k < |es| && !Quiet(es[k]) {
            assert Tears(front[j]);
            var k :| j < k < n && !Quiet(front[k]);
            assert !Quiet(es[k]);
          }
        }
      } else {
        assert !Quiet(es[n]) && After(es).tail.NoTail?;
      }
    }
  }

  /** An acknowledged message is missing from every later read exactly when its append came
      directly after a tear, with nothing written between the two. */
  lemma MissingIffAfterTear(es: seq<Event>, i: nat)
    requires Acknowledged(es, i)
    ensures i !in History(After(es)) <==>
              exists j :: 0 <= j < i && Tears(es[j]) && forall k :: j < k < i ==> Quiet(es[k])
  {
    HistoryIs(es, i);
    TailMeansTear(es[..i]);
    assert forall j :: 0 <= j < i ==> es[..i][j] == es[j];
    if exists j :: 0 <= j < i && Tears(es[j]) && forall k :: j < k < i ==> Quiet(es[k]) {
      var j :| 0 <= j < i && Tears(es[j]) && forall k :: j < k < i ==> Quiet(es[k]);
      assert Tears(es[..i][j]) && forall k :: j < k < i ==> Quiet(es[..i][k]);
    }
  }

  /** The acknowledged messages missing from the log. */
  ghost function Missing(es: seq<Event>): set<nat> {
    set i | 0 <= i < |es| && Acknowledged(es, i) && i !in History(After(es))
  }

  function TearCount(es: seq<Event>): nat {
    if es == [] then 0 else
    TearCount(es[..|es| - 1]) + if Tears(es[|es| - 1]) then 1 else 0
  }

  lemma MissingMember(es: seq<Event>, i: nat)
    ensures i in Missing(es) <==> Acknowledged(es, i) && !After(es[..i]).tail.NoTail?
  {
    HistoryIs(es, i);
  }

  lemma MissingGrows(es: seq<Event>, e: Event)
    ensures Missing(es + [e])
            == Missing(es) + if e.Append? && !After(es).tail.NoTail? then {|es|} else {}
  {
    var es' := es + [e];
    var more: set<nat> := if e.Append? && !After(es).tail.NoTail? then {|es|} else {};
    forall i: nat ensures i in Missing(es') <==> i in Missing(es) + more {
      MissingMember(es', i);
      MissingMember(es, i);
      if i < |es| { assert es'[..i] == es[..i]; }
      if i == |es| { assert es'[..i] == es; }
    }
  }

  /** At most one acknowledged message is lost per torn write. */
  lemma {:induction false} MissingAtMostTears(es: seq<Event>)
    ensures |Missing(es)| + (if After(es).tail.NoTail? then 0 else 1) <= TearCount(es)
    decreases |es|
  {
    if es == [] {
      assert Missing(es) == {};
    } else {
      var n := |es| - 1;
      var front := es[..n];
      assert es == front + [es[n]];
      MissingAtMostTears(front);
      MissingGrows(front, es[n]);
    }
  }

  predicate Increasing(s: seq<nat>) {
    forall i, j :: 0 <= i < j < |s| ==> s[i] < s[j]
  }

  /** One event keeps the ids increasing, and below its own. */
  lemma ApplyInOrder(f: File, e: Event, id: nat)
    requires Increasing(History(f)) && forall i: nat :: i in History(f) ==> i < id
    ensures Increasing(History(Apply(f, e, id)))
  {
    ApplyIds(f, e, id);
    var h, old' := History(Apply(f, e, id)), Ids(f.lines);
    hide Ids;
    assert forall i :: 0 <= i < |old'| ==> old'[i] == History(f)[i] && History(f)[i] in History(f);
    assert h == old' || (|h| == |old'| + 1 && old' <= h && h[|old'|] == id) || h == History(f);
  }

  /** Messages are read in the order they were written, none twice. */
  lemma {:induction false} HistoryInOrder(es: seq<Event>)
    ensures Increasing(History(After(es)))
    decreases |es|
  {
    if es == [] {
      assert History(After(es)) == [];
    } else {
      hide History;
      hide Apply;
      var n := |es| - 1;
      HistoryInOrder(es[..n]);
      forall i | i in History(After(es[..n])) ensures i < n {
        HistoryIs(es[..n], i);
      }
      ApplyInOrder(After(es[..n]), es[n], n);
    }
  }
}
