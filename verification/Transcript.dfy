/** Conversation histories as the agent loop builds, compresses and truncates them, and the
    sanitizer that must give every tool call its results back before the provider sees them. */
module Transcript {
  import opened Messages
  import opened Sequences

  predicate Calling(m: Message) {
    m.role.Assistant? && m.calls != []
  }

  /** The last message that is not a tool result is an assistant with tool calls. */
  predicate ReachesCalls(s: seq<Message>)
    decreases |s|
  {
    s != [] &&
    var last := s[|s| - 1];
    if last.role.Tool? then ReachesCalls(s[..|s| - 1]) else Calling(last)
  }

  /** Whether the sanitizer keeps a message after what it has kept so far. */
  predicate Keeps(kept: seq<Message>, m: Message) {
    match m.role
    case System => false
    case Tool => ReachesCalls(kept)
    case Assistant => m.calls == [] || (kept != [] && (kept[|kept| - 1].role.User? || kept[|kept| - 1].role.Tool?))
    case _ => true
  }

  function Step(kept: seq<Message>, m: Message): seq<Message> {
    if Keeps(kept, m) then kept + [m] else kept
  }

  function SanitizeAfter(kept: seq<Message>, history: seq<Message>): seq<Message>
    decreases |history|
  {
    if history == [] then kept else SanitizeAfter(Step(kept, history[0]), history[1..])
  }

  function Sanitize(history: seq<Message>): seq<Message> {
    SanitizeAfter([], history)
  }

  // ------------------------------------------------------------ laws for every history

  lemma {:induction false} SanitizeConcat(kept: seq<Message>, a: seq<Message>, b: seq<Message>)
    ensures SanitizeAfter(kept, a + b) == SanitizeAfter(SanitizeAfter(kept, a), b)
    decreases |a|
  {
    hide Step;
    if a == [] {
      assert a + b == b;
    } else {
      assert (a + b)[1..] == a[1..] + b;
      SanitizeConcat(Step(kept, a[0]), a[1..], b);
    }
  }

  lemma SanitizeOne(kept: seq<Message>, h: seq<Message>, m: Message)
    ensures SanitizeAfter(kept, h + [m]) == Step(SanitizeAfter(kept, h), m)
  {
    SanitizeConcat(kept, h, [m]);
  }

  /** What providers accept: no system message, every tool result reaches a tool-calling
      assistant by walking back over tool results, and every tool-calling assistant directly
      follows a user message or a tool result. */
  predicate Placed(s: seq<Message>, i: nat)
    requires i < |s|
  {
    && !s[i].role.System?
    && (s[i].role.Tool? ==> ReachesCalls(s[..i]))
    && (Calling(s[i]) ==> i > 0 && (s[i - 1].role.User? || s[i - 1].role.Tool?))
  }

  ghost predicate WellFormed(s: seq<Message>) {
    forall i: nat :: i < |s| ==> Placed(s, i)
  }

  lemma KeepsWellFormed(s: seq<Message>, m: Message)
    requires WellFormed(s)
    ensures WellFormed(s + [m]) <==> Keeps(s, m)
  {
    var t := s + [m];
    assert t[..|s|] == s;
    assert Placed(t, |s|) <==> Keeps(s, m);
    forall i: nat | i < |s| ensures Placed(t, i) {
      assert t[i] == s[i] && t[..i] == s[..i];
      assert Placed(s, i);
    }
  }

  /** For every history the result is a well-formed subsequence of it. */
  lemma {:induction false} SanitizerLaws(h: seq<Message>)
    ensures WellFormed(Sanitize(h)) && Subsequence(Sanitize(h), h)
    decreases |h|
  {
    if h != [] {
      var n := |h| - 1;
      assert h == h[..n] + [h[n]];
      SanitizerLaws(h[..n]);
      SanitizeOne([], h[..n], h[n]);
      KeepsWellFormed(Sanitize(h[..n]), h[n]);
      SubsequenceAppend(Sanitize(h[..n]), h[..n], h[n]);
    }
  }

  /** Nothing is dropped from a history exactly when it is well formed already. */
  lemma {:induction false} SanitizeFixes(h: seq<Message>)
    ensures Sanitize(h) == h <==> WellFormed(h)
    decreases |h|
  {
    if h != [] {
      var n := |h| - 1;
      assert h == h[..n] + [h[n]];
      SanitizeFixes(h[..n]);
      SanitizeOne([], h[..n], h[n]);
      SanitizeShorter(h[..n]);
      if WellFormed(h) {
        WellFormedPrefix(h, n);
      }
      KeepsWellFormedIf(h[..n], h[n]);
    }
  }

  lemma {:induction false} SanitizeShorter(h: seq<Message>)
    ensures |Sanitize(h)| <= |h|
    decreases |h|
  {
    if h != [] {
      var n := |h| - 1;
      assert h == h[..n] + [h[n]];
      SanitizeShorter(h[..n]);
      SanitizeOne([], h[..n], h[n]);
    }
  }

  lemma WellFormedPrefix(s: seq<Message>, n: nat)
    requires WellFormed(s) && n <= |s|
    ensures WellFormed(s[..n])
  {
    forall i: nat | i < n ensures Placed(s[..n], i) {
      assert s[..n][..i] == s[..i];
      assert Placed(s, i);
    }
  }

  lemma KeepsWellFormedIf(s: seq<Message>, m: Message)
    ensures WellFormed(s) ==> (WellFormed(s + [m]) <==> Keeps(s, m))
  {
    if WellFormed(s) { KeepsWellFormed(s, m); }
  }

  lemma SanitizeIdempotent(h: seq<Message>)
    ensures Sanitize(Sanitize(h)) == Sanitize(h)
  {
    SanitizerLaws(h);
    SanitizeFixes(Sanitize(h));
  }

  lemma {:induction false} KeptStays(kept: seq<Message>, h: seq<Message>)
    ensures kept <= SanitizeAfter(kept, h)
    decreases |h|
  {
    if h != [] { KeptStays(Step(kept, h[0]), h[1..]); }
  }

  /** The result of a prefix is a prefix of the result. */
  lemma SanitizePrefix(h: seq<Message>, k: nat)
    requires k <= |h|
    ensures Sanitize(h[..k]) <= Sanitize(h)
  {
    assert h == h[..k] + h[k..];
    SanitizeConcat([], h[..k], h[k..]);
    KeptStays(Sanitize(h[..k]), h[k..]);
  }

  // ------------------------------------------------------------ pairing

  /** The results of the calls, one tool message per call and in the order of the calls. */
  predicate Results(calls: seq<string>, s: seq<Message>) {
    && |s| == |calls|
    && forall i :: 0 <= i < |s| ==> s[i].role.Tool? && s[i].callId == calls[i]
  }

  /** Every tool-calling assistant is followed by exactly its own results, and no tool message is
      anywhere else. */
  predicate Paired(s: seq<Message>)
    decreases |s|
  {
    if s == [] then true else
    if s[0].role.Tool? then false else
    if !Calling(s[0]) then Paired(s[1..]) else
    var n := |s[0].calls|;
    n < |s| && Results(s[0].calls, s[1..n + 1]) && Paired(s[n + 1..])
  }

  lemma {:induction false} PairedConcat(a: seq<Message>, b: seq<Message>)
    requires Paired(a)
    ensures Paired(a + b) <==> Paired(b)
    decreases |a|
  {
    if a == [] {
      assert a + b == b;
    } else {
      var n := if Calling(a[0]) then |a[0].calls| else 0;
      assert (a + b)[1..n + 1] == a[1..n + 1];
      assert (a + b)[n + 1..] == a[n + 1..] + b;
      PairedConcat(a[n + 1..], b);
    }
  }

  predicate AllTools(s: seq<Message>) {
    forall i :: 0 <= i < |s| ==> s[i].role.Tool?
  }

  lemma ReachesOverTools(s: seq<Message>, t: seq<Message>)
    requires AllTools(t)
    ensures ReachesCalls(s + t) <==> ReachesCalls(s)
    decreases |t|
  {
    if t == [] {
      assert s + t == s;
    } else {
      assert (s + t)[..|s + t| - 1] == s + t[..|t| - 1];
      ReachesOverTools(s, t[..|t| - 1]);
    }
  }

  /** Tool messages behind what reaches no tool-calling assistant are dropped, behind what does
      they are kept. */
  lemma {:induction false} ToolsKeptOrDropped(kept: seq<Message>, tools: seq<Message>)
    requires AllTools(tools)
    ensures SanitizeAfter(kept, tools) == if ReachesCalls(kept) then kept + tools else kept
    decreases |tools|
  {
    if tools != [] {
      var next := Step(kept, tools[0]);
      ReachesOverTools(kept, [tools[0]]);
      ToolsKeptOrDropped(next, tools[1..]);
      assert kept + tools == kept + [tools[0]] + tools[1..];
    }
  }

  /** The number of results behind the first message. */
  function UnitResults(s: seq<Message>): (n: nat)
    requires Paired(s) && s != []
    ensures n < |s| && AllTools(s[1..n + 1]) && Paired(s[n + 1..])
  {
    if Calling(s[0]) then |s[0].calls| else 0
  }

  lemma {:induction false} PairedEnd(s: seq<Message>)
    requires Paired(s) && s != []
    ensures !Calling(s[|s| - 1])
    decreases |s|
  {
    var n := if Calling(s[0]) then |s[0].calls| else 0;
    if n + 1 < |s| {
      PairedEnd(s[n + 1..]);
    } else if n > 0 {
      assert s[|s| - 1] == s[1..n + 1][n - 1];
    }
  }

  /** A tool-calling assistant and its results are kept or dropped together. */
  lemma GroupTogether(kept: seq<Message>, a: Message, results: seq<Message>)
    requires Paired(kept) && Calling(a) && Results(a.calls, results)
    ensures SanitizeAfter(kept, [a] + results) == if Keeps(kept, a) then kept + ([a] + results) else kept
  {
    if kept != [] { PairedEnd(kept); }
    hide Paired;
    assert ([a] + results)[1..] == results;
    ToolsKeptOrDropped(Step(kept, a), results);
    if Keeps(kept, a) {
      assert kept + [a] + results == kept + ([a] + results);
    }
  }

  lemma UnitKeptOrDropped(kept: seq<Message>, s: seq<Message>)
    requires Paired(kept) && Paired(s) && s != []
    ensures Paired(SanitizeAfter(kept, s[..UnitResults(s) + 1]))
  {
    var n := UnitResults(s);
    var unit := s[..n + 1];
    assert unit[n + 1..] == [] && unit[1..n + 1] == s[1..n + 1];
    PairedConcat(kept, unit);
    if n > 0 {
      assert unit == [s[0]] + s[1..n + 1];
      GroupTogether(kept, s[0], s[1..n + 1]);
    } else {
      assert unit == [s[0]];
      assert SanitizeAfter(kept, unit) == Step(kept, s[0]);
    }
  }

  lemma {:induction false} PairedStaysPaired(kept: seq<Message>, s: seq<Message>)
    requires Paired(kept) && Paired(s)
    ensures Paired(SanitizeAfter(kept, s))
    decreases |s|
  {
    if s != [] {
      var n := UnitResults(s);
      var unit, rest := s[..n + 1], s[n + 1..];
      assert s == unit + rest;
      SanitizeConcat(kept, unit, rest);
      UnitKeptOrDropped(kept, s);
      PairedStaysPaired(SanitizeAfter(kept, unit), rest);
    }
  }

  /** What a cut leaves of a paired transcript: results without their call, then a paired rest. */
  predicate Cut(s: seq<Message>)
    decreases |s|
  {
    if s != [] && s[0].role.Tool? then Cut(s[1..]) else Paired(s)
  }

  /** A session's history: a cut transcript, possibly with one message of any kind in front. */
  predicate Chat(h: seq<Message>) {
    Cut(h) || (h != [] && Cut(h[1..]))
  }

  lemma {:induction false} CutSanitized(kept: seq<Message>, s: seq<Message>)
    requires Paired(kept) && !ReachesCalls(kept) && Cut(s)
    ensures Paired(SanitizeAfter(kept, s))
    decreases |s|
  {
    if s != [] && s[0].role.Tool? {
      CutSanitized(kept, s[1..]);
    } else {
      PairedStaysPaired(kept, s);
    }
  }

  /** Sanitizing a session's history restores the pairing of calls and results. */
  lemma ChatIsPaired(h: seq<Message>)
    requires Chat(h)
    ensures Paired(Sanitize(h))
  {
    if Cut(h) {
      CutSanitized([], h);
    } else {
      var kept := Step([], h[0]);
      assert kept == [] || kept == [h[0]];
      if kept == [h[0]] {
        assert kept[1..] == [];
        assert !Calling(h[0]) && !h[0].role.Tool?;
      }
      CutSanitized(kept, h[1..]);
    }
  }

  // ------------------------------------------------------------ what keeps a history in the class

  lemma {:induction false} CutAfterTools(tools: seq<Message>, s: seq<Message>)
    requires AllTools(tools) && Paired(s)
    ensures Cut(tools + s)
    decreases |tools|
  {
    if tools == [] {
      assert tools + s == s;
    } else {
      assert (tools + s)[1..] == tools[1..] + s;
      CutAfterTools(tools[1..], s);
    }
  }

  lemma {:induction false} PairedSuffix(s: seq<Message>, k: nat)
    requires Paired(s) && k <= |s|
    ensures Cut(s[k..])
    decreases |s|
  {
    if k == 0 {
      assert s[0..] == s;
    } else {
      var n := UnitResults(s);
      hide Paired;
      hide Cut;
      if k <= n {
        assert s[k..] == s[1..n + 1][k - 1..] + s[n + 1..];
        CutAfterTools(s[1..n + 1][k - 1..], s[n + 1..]);
      } else {
        assert s[n + 1..][k - n - 1..] == s[k..];
        PairedSuffix(s[n + 1..], k - n - 1);
      }
    }
  }

  lemma {:induction false} CutSuffix(s: seq<Message>, k: nat)
    requires Cut(s) && k <= |s|
    ensures Cut(s[k..])
    decreases |s|
  {
    if k == 0 {
      assert s[0..] == s;
    } else if s[0].role.Tool? {
      assert s[1..][k - 1..] == s[k..];
      CutSuffix(s[1..], k - 1);
    } else {
      PairedSuffix(s, k);
    }
  }

  /** Truncation: any suffix of a history is a history. */
  lemma ChatSuffix(h: seq<Message>, k: nat)
    requires Chat(h) && k <= |h|
    ensures Chat(h[k..])
    ensures k > 0 ==> Cut(h[k..])
  {
    if k > 0 {
      if Cut(h) {
        CutSuffix(h, k);
      } else {
        assert h[1..][k - 1..] == h[k..];
        CutSuffix(h[1..], k - 1);
      }
    } else {
      assert h[0..] == h;
    }
  }

  /** What the loop appends between two calls of the model keeps the class. */
  lemma ChatExtends(h: seq<Message>, more: seq<Message>)
    requires Chat(h) && Paired(more)
    ensures Chat(h + more)
  {
    hide Cut;
    hide Paired;
    if Cut(h) {
      CutExtends(h, more);
    } else {
      assert (h + more)[1..] == h[1..] + more;
      CutExtends(h[1..], more);
    }
  }

  lemma {:induction false} CutExtends(s: seq<Message>, more: seq<Message>)
    requires Cut(s) && Paired(more)
    ensures Cut(s + more)
    decreases |s|
  {
    if s != [] && s[0].role.Tool? {
      assert (s + more)[1..] == s[1..] + more;
      CutExtends(s[1..], more);
    } else {
      PairedConcat(s, more);
      assert s == [] ==> s + more == more;
    }
  }

  /** forceCompression: drops the older half of what lies between the first and last message, and
      leaves a note in the first. */
  function Compress(h: seq<Message>, note: string): seq<Message> {
    if |h| <= 4 then h else
    var conversation := h[1..|h| - 1];
    var mid := |conversation| / 2;
    [h[0].(content := h[0].content + note)] + conversation[mid..] + [h[|h| - 1]]
  }

  /** Compression strictly shortens any history longer than four messages, keeps the last
      message and the newer half before it, notes it in the first, and keeps the class closed. */
  lemma CompressKeepsChat(h: seq<Message>, note: string)
    requires |h| > 4
    ensures var c := Compress(h, note);
            && |c| < |h| && |c| == |h| - (|h| - 2) / 2
            && c[0] == h[0].(content := h[0].content + note)
            && c[1..] == h[1 + (|h| - 2) / 2..]
            && (Chat(h) ==> Chat(c))
  {
    var c := Compress(h, note);
    assert c[1..] == h[1 + (|h| - 2) / 2..];
    if Chat(h) { ChatSuffix(h, 1 + (|h| - 2) / 2); }
  }

  // ------------------------------------------------------------ interrupted groups

  lemma OpenCallKept(h: seq<Message>, a: Message, some: seq<Message>)
    requires Chat(h) && Calling(a) && AllTools(some)
    ensures Paired(Sanitize(h))
    ensures Sanitize(h + [a] + some) == if Keeps(Sanitize(h), a) then Sanitize(h) + ([a] + some) else Sanitize(h)
  {
    var kept := Sanitize(h);
    ChatIsPaired(h);
    assert h + [a] + some == h + ([a] + some);
    SanitizeConcat([], h, [a] + some);
    assert ([a] + some)[1..] == some;
    ToolsKeptOrDropped(Step(kept, a), some);
    if Keeps(kept, a) {
      assert kept + [a] + some == kept + ([a] + some);
    } else if kept != [] {
      PairedEnd(kept);
    }
  }

  lemma NotAllResults(s: seq<Message>, i: nat)
    requires s != [] && Calling(s[0]) && i < |s[0].calls| && (i + 1 < |s| ==> !s[i + 1].role.Tool?)
    ensures !Paired(s)
  {
    var n := |s[0].calls|;
    if n < |s| {
      assert s[1..n + 1][i] == s[i + 1];
    }
  }

  /** A call short of results is not paired, whatever that is no result follows it. */
  lemma OpenCallUnpaired(a: Message, some: seq<Message>, rest: seq<Message>)
    requires Calling(a) && |some| < |a.calls| && (rest != [] ==> !rest[0].role.Tool?)
    ensures !Paired([a] + some + rest)
  {
    hide Paired;
    var s := [a] + some + rest;
    assert s[0] == a && (|some| + 1 < |s| ==> s[|some| + 1] == rest[0]);
    NotAllResults(s, |some|);
  }

  /** A crash or a failure while results are being saved leaves a call without all its results, and
      the session goes on with the next user message. Sanitizing such a history restores the pairing
      if and only if it drops the call, at once and ever after. */
  lemma InterruptedGroup(h: seq<Message>, a: Message, some: seq<Message>, more: seq<Message>)
    requires Chat(h) && Calling(a) && AllTools(some) && |some| < |a.calls|
    requires Paired(more) && (more != [] ==> more[0].role.User?)
    ensures Paired(Sanitize(h + [a] + some + more)) <==> !Keeps(Sanitize(h), a)
  {
    var kept, open := Sanitize(h), Sanitize(h + [a] + some);
    OpenCallKept(h, a, some);
    SanitizeConcat([], h + [a] + some, more);
    hide Chat;
    hide Paired;
    if Keeps(kept, a) {
      KeptStays(open, more);
      var rest := SanitizeAfter(open, more)[|open|..];
      if more != [] {
        KeptStays(Step(open, more[0]), more[1..]);
        assert Step(open, more[0]) == open + [more[0]];
        assert rest != [] ==> rest[0] == more[0];
      }
      OpenCallUnpaired(a, some, rest);
      assert SanitizeAfter(open, more) == kept + ([a] + some + rest);
      PairedConcat(kept, [a] + some + rest);
    } else {
      PairedStaysPaired(kept, more);
    }
  }
}
