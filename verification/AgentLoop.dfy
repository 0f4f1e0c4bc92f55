/** The agent loop: it builds requests from the session's history, calls the model, saves calls
    and results one message at a time, and compresses the history when the model refuses it. */
module AgentLoop {
  import opened Messages
  import opened Sequences
  import opened Transcript
  import opened AgentTurn

  const MAX_RETRIES := 2

  /** A request the provider accepts: one system message in front, and behind it every tool call
      with exactly its results. */
  predicate Request(ms: seq<Message>) {
    && ms != [] && ms[0].role.System?
    && Paired(ms[1..]) && NoSystem(ms[1..])
  }

  predicate NoSystem(ms: seq<Message>) {
    forall i :: 0 <= i < |ms| ==> !ms[i].role.System?
  }

  /** The sanitizer, with its backward scan over the messages kept so far. */
  method SanitizeHistoryForProvider(history: seq<Message>) returns (sanitized: seq<Message>)
    ensures sanitized == Sanitize(history)
  {
    if |history| == 0 {
      return history;
    }
    sanitized := [];
    for n := 0 to |history|
      invariant Sanitize(history) == SanitizeAfter(sanitized, history[n..])
    {
      var msg := history[n];
      ghost var kept := sanitized;
      assert history[n..][0] == msg && history[n..][1..] == history[n + 1..];
      match msg.role {
        case System =>
          continue;
        case Tool =>
          var found := FindsCalls(sanitized);
          if !found {
            continue;
          }
          sanitized := sanitized + [msg];
        case Assistant =>
          if |msg.calls| > 0 {
            if |sanitized| == 0 {
              continue;
            }
            var prev := sanitized[|sanitized| - 1];
            if !prev.role.User? && !prev.role.Tool? {
              continue;
            }
          }
          sanitized := sanitized + [msg];
        case _ =>
          sanitized := sanitized + [msg];
      }
    }
  }

  /** Walks back over tool results. */
  method FindsCalls(sanitized: seq<Message>) returns (found: bool)
    ensures found == ReachesCalls(sanitized)
  {
    assert sanitized[..|sanitized|] == sanitized;
    var i := |sanitized| - 1;
    found := false;
    while i >= 0
      invariant -1 <= i < |sanitized|
      invariant ReachesCalls(sanitized) == ReachesCalls(sanitized[..i + 1])
      invariant !found
    {
      assert sanitized[..i + 1][..i] == sanitized[..i];
      if sanitized[i].role.Tool? {
        i := i - 1;
        continue;
      }
      if sanitized[i].role.Assistant? && |sanitized[i].calls| > 0 {
        found := true;
      }
      break;
    }
  }

  lemma OnceMore(i: nat, n: nat, per: nat)
    requires i < n
    ensures (i + 1) * per == i * per + per <= n * per
  {
  }

  /** The most requests one iteration takes. */
  function PerIteration(candidates: nat): nat {
    (MAX_RETRIES + 1) * PerCall(candidates)
  }

  /** The most requests one call of the model takes. */
  function PerCall(candidates: nat): nat {
    if candidates <= 1 then 1 else candidates
  }

  lemma GroupIsPaired(a: Message, tools: seq<Message>)
    requires Calling(a) && Results(a.calls, tools)
    ensures Paired([a] + tools) && AllTools(tools)
  {
    assert ([a] + tools)[1..|a.calls| + 1] == tools;
    assert ([a] + tools)[|a.calls| + 1..] == [];
  }

  lemma NoSystemConcat(a: seq<Message>, b: seq<Message>)
    requires NoSystem(a) && NoSystem(b)
    ensures NoSystem(a + b)
  {
  }

  lemma SameBody(ms: seq<Message>, more: seq<Message>)
    requires ms != [] && ms[0].role.System? && Paired(ms[1..] + more) && NoSystem(ms[1..] + more)
    ensures Request(ms + more)
  {
    assert (ms + more)[1..] == ms[1..] + more;
  }

  lemma RequestExtends(ms: seq<Message>, more: seq<Message>)
    requires Request(ms) && Paired(more) && NoSystem(more)
    ensures Request(ms + more)
  {
    var body := ms[1..];
    assert Paired(body + more) by { PairedConcat(body, more); }
    assert NoSystem(body + more) by { NoSystemConcat(body, more); }
    hide Paired;
    hide NoSystem;
    hide Request;
    SameBody(ms, more);
  }

  /** What was saved since: paired messages. */
  predicate Grew(was: seq<Message>, now: seq<Message>) {
    was <= now && Paired(now[|was|..])
  }

  lemma GrewIsPrefix(was: seq<Message>, now: seq<Message>)
    requires Grew(was, now)
    ensures was <= now
  {
  }

  lemma GrewTwice(a: seq<Message>, b: seq<Message>, c: seq<Message>)
    requires Grew(a, b) && Grew(b, c)
    ensures Grew(a, c)
  {
    PairedConcat(b[|a|..], c[|b|..]);
    assert c[|a|..] == b[|a|..] + c[|b|..];
  }

  lemma GrewBy(a: seq<Message>, more: seq<Message>)
    requires Paired(more)
    ensures Grew(a, a + more)
  {
    assert (a + more)[|a|..] == more;
  }

  lemma SanitizedRequest(system: Message, h: seq<Message>)
    requires system.role.System? && Chat(h)
    ensures Request([system] + Sanitize(h))
  {
    ChatIsPaired(h);
    SanitizerLaws(h);
    assert ([system] + Sanitize(h))[1..] == Sanitize(h);
    forall i: nat | i < |Sanitize(h)| ensures !Sanitize(h)[i].role.System? {
      assert Placed(Sanitize(h), i);
    }
  }

  /** A request, system message included, is itself a history the sanitizer can pair. */
  lemma CheckpointIsHistory(ms: seq<Message>)
    requires Request(ms)
    ensures Paired(ms) && Chat(ms)
  {
  }

  /** The first n messages of a group have been saved and added to the request. */
  predicate PartSaved(was: seq<Message>, saved: seq<Message>, request: seq<Message>, extended: seq<Message>,
                      group: seq<Message>, n: nat) {
    n <= |group| && saved == was + group[..n] && extended == request + group[..n]
  }

  lemma ConcatGroup(was: seq<Message>, a: Message, tools: seq<Message>)
    ensures was + [a] + tools == was + ([a] + tools)
    ensures (was + ([a] + tools))[|was|..] == [a] + tools
  {
  }

  lemma NothingSaved(was: seq<Message>, request: seq<Message>, group: seq<Message>)
    ensures PartSaved(was, was, request, request, group, 0)
  {
  }

  lemma PartGrows(was: seq<Message>, saved: seq<Message>, request: seq<Message>, extended: seq<Message>,
                  group: seq<Message>, n: nat)
    requires PartSaved(was, saved, request, extended, group, n) && n < |group|
    ensures PartSaved(was, saved + [group[n]], request, extended + [group[n]], group, n + 1)
  {
    assert group[..n + 1] == group[..n] + [group[n]];
  }

  lemma AllSaved(was: seq<Message>, saved: seq<Message>, request: seq<Message>, extended: seq<Message>,
                 group: seq<Message>)
    requires PartSaved(was, saved, request, extended, group, |group|)
    ensures saved == was + group && extended == request + group && was <= saved && saved[|was|..] == group
  {
    assert group[..|group|] == group;
  }

  /** The tool calls in some messages, call by call of the model. */
  function CallsIn(ms: seq<Message>): seq<seq<string>>
    decreases |ms|
  {
    if ms == [] then [] else
    var last := ms[|ms| - 1];
    CallsIn(ms[..|ms| - 1]) + if Calling(last) then [last.calls] else []
  }

  lemma {:induction false} CallsInConcat(a: seq<Message>, b: seq<Message>)
    ensures CallsIn(a + b) == CallsIn(a) + CallsIn(b)
    decreases |b|
  {
    if b == [] {
      assert a + b == a;
    } else {
      assert (a + b)[..|a + b| - 1] == a + b[..|b| - 1];
      CallsInConcat(a, b[..|b| - 1]);
    }
  }

  lemma {:induction false} NoCallsInTools(ms: seq<Message>)
    requires AllTools(ms)
    ensures CallsIn(ms) == []
    decreases |ms|
  {
    if ms != [] { NoCallsInTools(ms[..|ms| - 1]); }
  }

  /** The tool calls saved meanwhile are those the model asked for meanwhile. */
  predicate Answered(was: seq<Message>, now: seq<Message>, askedWas: seq<seq<string>>, asked: seq<seq<string>>) {
    was <= now && askedWas <= asked && CallsIn(now[|was|..]) == asked[|askedWas|..]
  }

  lemma AnsweredTwice(a: seq<Message>, b: seq<Message>, c: seq<Message>,
                      x: seq<seq<string>>, y: seq<seq<string>>, z: seq<seq<string>>)
    requires Answered(a, b, x, y) && Answered(b, c, y, z)
    ensures Answered(a, c, x, z)
  {
    CallsInConcat(b[|a|..], c[|b|..]);
    assert c[|a|..] == b[|a|..] + c[|b|..];
    assert z[|x|..] == y[|x|..] + z[|y|..];
  }

  /** A group, or messages without calls, saved as asked. */
  lemma AnsweredBy(was: seq<Message>, more: seq<Message>, askedWas: seq<seq<string>>, calls: seq<seq<string>>)
    requires CallsIn(more) == calls
    ensures Answered(was, was + more, askedWas, askedWas + calls)
  {
    assert (was + more)[|was|..] == more && (askedWas + calls)[|askedWas|..] == calls;
  }

  lemma NothingYet(saved: seq<Message>, asked: seq<seq<string>>)
    ensures Grew(saved, saved) && Answered(saved, saved, asked, asked)
  {
    assert saved[|saved|..] == [] && asked[|asked|..] == [];
  }

  lemma AnsweredByGroup(was: seq<Message>, now: seq<Message>, askedWas: seq<seq<string>>, calls: seq<string>)
    requires Grew(was, now) && CallsIn(now[|was|..]) == [calls]
    ensures Answered(was, now, askedWas, askedWas + [calls])
  {
    assert was + now[|was|..] == now;
    AnsweredBy(was, now[|was|..], askedWas, [calls]);
  }

  lemma CallsInGroup(a: Message, tools: seq<Message>)
    requires Calling(a) && AllTools(tools)
    ensures CallsIn([a] + tools) == [a.calls] && CallsIn([a]) == [a.calls]
  {
    NoCallsInTools(tools);
    CallsInConcat([a], tools);
  }

  /** A group extends a request and what was saved by paired messages with just its calls. */
  lemma GroupReady(messages: seq<Message>, saved: seq<Message>, content: string, calls: seq<string>,
                   contents: seq<string>)
    requires Request(messages) && calls != [] && |contents| == |calls|
    ensures var group := [AssistantMessage(content, calls)] + ToolMessages(contents, calls);
            && Request(messages + group) && Grew(saved, saved + group)
            && (saved + group)[|saved|..] == group && CallsIn(group) == [calls]
  {
    var a, tools := AssistantMessage(content, calls), ToolMessages(contents, calls);
    GroupIsPaired(a, tools);
    CallsInGroup(a, tools);
    ConcatGroup(saved, a, tools);
    assert NoSystem([a] + tools);
    hide Results;
    hide AllTools;
    hide CallsIn;
    RequestExtends(messages, [a] + tools);
    GrewBy(saved, [a] + tools);
    hide Request;
    hide Paired;
    hide Grew;
  }

  /** The history is what was saved last, in order and without gaps, except perhaps for its first
      message. */
  predicate Newest(h: seq<Message>, saved: seq<Message>) {
    IsSuffix(h, saved) || (h != [] && IsSuffix(h[1..], saved))
  }

  lemma SuffixExtends(h: seq<Message>, saved: seq<Message>, m: Message)
    requires IsSuffix(h, saved)
    ensures IsSuffix(h + [m], saved + [m])
  {
    var k := |saved| - |h|;
    assert (saved + [m])[k..] == saved[k..] + [m];
  }

  lemma NewestExtends(h: seq<Message>, saved: seq<Message>, m: Message)
    requires Newest(h, saved)
    ensures Newest(h + [m], saved + [m])
  {
    if IsSuffix(h, saved) {
      SuffixExtends(h, saved, m);
    } else {
      assert (h + [m])[1..] == h[1..] + [m];
      SuffixExtends(h[1..], saved, m);
    }
  }

  lemma NewestDropped(h: seq<Message>, saved: seq<Message>, k: nat)
    requires Newest(h, saved) && k <= |h|
    ensures Newest(h[k..], saved)
    ensures k > 0 ==> IsSuffix(h[k..], saved)
  {
    if k == 0 {
      assert h[0..] == h;
    } else if IsSuffix(h, saved) {
      assert saved[|saved| - |h|..][k..] == saved[|saved| - (|h| - k)..];
    } else {
      assert h[1..][k - 1..] == h[k..];
      assert saved[|saved| - (|h| - 1)..][k - 1..] == saved[|saved| - (|h| - k)..];
    }
  }

  lemma NewestCompressed(h: seq<Message>, saved: seq<Message>, note: string)
    requires Newest(h, saved)
    ensures Newest(Compress(h, note), saved)
  {
    if |h| > 4 {
      CompressKeepsChat(h, note);
      NewestDropped(h, saved, 1 + (|h| - 2) / 2);
    }
  }

  /** The request a turn begins with. */
  function FirstRequest(system: Message, history: seq<Message>, user: string, blank: bool): seq<Message> {
    [system] + Sanitize(history) + if blank then [] else [UserMessage(user)]
  }

  /** The turn's events so far are possible, and `messages` is the request that stands after them. */
  predicate Tracks(system: Message, first: seq<Message>, turn: seq<Event>, messages: seq<Message>) {
    Follows(system, first, turn) && Current(system, first, turn) == messages
  }

  lemma TracksMore(system: Message, first: seq<Message>, turn: seq<Event>, messages: seq<Message>, e: Event)
    requires Tracks(system, first, turn, messages) && Fits(system, first, turn, e)
    ensures Tracks(system, first, turn + [e], Changed(system, messages, e))
  {
    FollowsMore(system, first, turn, e);
    CurrentMore(system, first, turn, e);
    hide Follows;
    hide Current;
    hide Fits;
  }

  /** The last event of a turn is this one. */
  predicate EndsWith(turn: seq<Event>, e: Event) {
    turn != [] && turn[|turn| - 1] == e
  }

  /** One more event: what it does to the request that stands, to the requests sent and to the groups. */
  lemma OneMoreEvent(system: Message, first: seq<Message>, turn: seq<Event>, messages: seq<Message>,
                     earlier: seq<seq<Message>>, e: Event)
    requires Tracks(system, first, turn, messages) && Fits(system, first, turn, e)
    ensures Tracks(system, first, turn + [e], Changed(system, messages, e))
    ensures earlier + SentIn(turn + [e]) == earlier + SentIn(turn) + if e.Sent? then [e.messages] else []
    ensures GroupsIn(turn + [e]) == GroupsIn(turn) + if e.Saved? then e.group else []
  {
    TracksMore(system, first, turn, messages, e);
    GroupsInMore(turn, e);
    hide *;
    SentMore(earlier, turn, e);
  }

  lemma SentMore(earlier: seq<seq<Message>>, turn: seq<Event>, e: Event)
    ensures earlier + SentIn(turn + [e]) == earlier + SentIn(turn) + if e.Sent? then [e.messages] else []
  {
    var more := if e.Sent? then [e.messages] else [];
    assert SentIn(turn + [e]) == SentIn(turn) + more by { assert (turn + [e])[..|turn|] == turn; }
    hide SentIn;
    AppendTwice(earlier, SentIn(turn), more);
  }

  lemma AppendTwice(a: seq<seq<Message>>, b: seq<seq<Message>>, c: seq<seq<Message>>)
    ensures a + (b + c) == a + b + c
  {
  }

  lemma RequestFits(system: Message, first: seq<Message>, turn: seq<Event>, messages: seq<Message>)
    requires Tracks(system, first, turn, messages)
    ensures Fits(system, first, turn, Sent(messages))
  {
  }

  lemma ReplyFits(system: Message, first: seq<Message>, turn: seq<Event>, messages: seq<Message>, reply: Reply)
    requires reply.Succeeded() ==> EndsWith(turn, Sent(messages))
    ensures Fits(system, first, turn, Replied(reply))
  {
  }

  lemma GroupFits(system: Message, first: seq<Message>, turn: seq<Event>, content: string, calls: seq<string>,
                  outputs: seq<string>, group: seq<Message>)
    requires EndsWith(turn, Replied(ToolCalls(content, calls))) && |outputs| == |calls|
    requires group == [AssistantMessage(content, calls)] + ToolMessages(outputs, calls)
    ensures Fits(system, first, turn, Saved(outputs, group))
  {
  }

  lemma RebuildFits(system: Message, first: seq<Message>, turn: seq<Event>, history: seq<Message>)
    requires EndsWith(turn, Replied(ContextError))
    ensures Fits(system, first, turn, Rebuilt(history))
  {
  }

  /** What has been saved since the turn's user message: the groups, paired, with the calls asked for. */
  predicate SoFar(was: seq<Message>, saved: seq<Message>, askedWas: seq<seq<string>>, asked: seq<seq<string>>,
                  groups: seq<Message>) {
    Grew(was, saved) && Answered(was, saved, askedWas, asked) && saved == was + groups
  }

  lemma SoFarMeans(was: seq<Message>, saved: seq<Message>, askedWas: seq<seq<string>>, asked: seq<seq<string>>,
                   groups: seq<Message>)
    requires SoFar(was, saved, askedWas, asked, groups)
    ensures Grew(was, saved) && Answered(was, saved, askedWas, asked) && saved == was + groups
  {
  }

  lemma TracksFollows(system: Message, first: seq<Message>, turn: seq<Event>, messages: seq<Message>)
    requires Tracks(system, first, turn, messages)
    ensures Follows(system, first, turn)
  {
  }

  lemma NothingSoFar(saved: seq<Message>, asked: seq<seq<string>>)
    ensures SoFar(saved, saved, asked, asked, [])
  {
    NothingYet(saved, asked);
  }

  lemma OneMoreGroup(was: seq<Message>, mid: seq<Message>, now: seq<Message>, askedWas: seq<seq<string>>,
                     asked: seq<seq<string>>, groups: seq<Message>, calls: seq<string>)
    requires SoFar(was, mid, askedWas, asked, groups)
    requires Grew(mid, now) && CallsIn(now[|mid|..]) == [calls]
    ensures SoFar(was, now, askedWas, asked + [calls], groups + now[|mid|..])
  {
    GrewTwice(was, mid, now);
    AnsweredByGroup(mid, now, asked, calls);
    AnsweredTwice(was, mid, now, askedWas, asked, asked + [calls]);
    GrewIsPrefix(mid, now);
    hide Grew;
    hide Answered;
    assert now == mid + now[|mid|..];
  }

  class Session {
    var history: seq<Message>
    ghost var saved: seq<Message>            // every message ever saved, in order
    ghost var pending: seq<Message>          // results still to be saved
    ghost var requests: seq<seq<Message>>    // everything sent to the provider
    ghost var earlier: seq<seq<Message>>     // what of it was sent before this turn
    ghost var turn: seq<Event>               // the events of this turn
    ghost var asked: seq<seq<string>>        // the tool calls of every answer that has some
    ghost var last: Reply                    // the model's last answer
    ghost var modelCalls: nat                // calls of the model, each of one or more requests
    ghost var refusals: nat                  // context errors received
    ghost var compressions: nat              // and compressions made

    /** Once the results under way are saved, the history is one the sanitizer can pair; and it is
        the newest part of what was saved. */
    ghost predicate Valid()
      reads this
    {
      && AllTools(pending) && Chat(history + pending) && Newest(history, saved)
      && Logged()
    }

    ghost predicate Logged()
      reads this
    {
      requests == earlier + SentIn(turn)
    }

    constructor ()
      ensures Valid() && history == [] && saved == [] && pending == [] && requests == [] && asked == []
    {
      history, saved, pending, requests, asked, last := [], [], [], [], [], FatalError;
      modelCalls, refusals, compressions := 0, 0, 0;
      earlier, turn := [], [];
    }

    method AddFullMessage(m: Message)
      modifies this`history, this`saved
      ensures history == old(history) + [m] && saved == old(saved) + [m]
      ensures Newest(old(history), old(saved)) ==> Newest(history, saved)
    {
      if Newest(history, saved) { NewestExtends(history, saved, m); }
      history := history + [m];
      saved := saved + [m];
    }

    /** The summarizer, which runs beside the loop, may truncate the history at any moment. */
    method Interfere()
      requires Valid()
      modifies this`history
      ensures Valid() && exists k :: 0 <= k <= |old(history)| && history == old(history)[k..]
    {
      var keepLast: int := *;
      if keepLast <= 0 {
        assert history[|history|..] == [];
        ChatSuffix(history + pending, |history|);
        assert (history + pending)[|history|..] == [] + pending;
        NewestDropped(history, saved, |history|);
        history := [];
      } else if keepLast < |history| {
        var k := |history| - keepLast;
        ChatSuffix(history + pending, k);
        assert (history + pending)[k..] == history[k..] + pending;
        NewestDropped(history, saved, k);
        history := history[k..];
      } else {
        assert history == history[0..];
      }
    }

    /** Reads the history, compresses it and writes it back; a truncation by the summarizer in between
        is undone. */
    method ForceCompression(note: string)
      requires Valid() && pending == []
      modifies this`history, this`compressions
      ensures Valid() && history == Compress(old(history), note) && compressions == old(compressions) + 1
      ensures |history| <= |old(history)| && (|old(history)| > 4 ==> |history| < |old(history)|)
    {
      compressions := compressions + 1;
      var read := history;
      assert read + [] == read;
      if |read| <= 4 {
        return;
      }
      CompressKeepsChat(read, note);
      NewestCompressed(read, saved, note);
      var conversation := read[1..|read| - 1];
      var mid := |conversation| / 2;
      var enhanced := read[0];
      enhanced := enhanced.(content := enhanced.content + note);
      Interfere();
      history := [enhanced] + conversation[mid..] + [read[|read| - 1]];
      assert history == Compress(read, note) && history + [] == history;
    }

    /** A request from the current history; a blank message adds nothing. */
    method BuildMessages(system: Message, current: string, blank: bool) returns (messages: seq<Message>)
      requires Valid() && pending == [] && system.role.System?
      ensures messages == [system] + Sanitize(history) + if blank then [] else [UserMessage(current)]
      ensures Request(messages)
    {
      assert history + [] == history;
      var sanitized := SanitizeHistoryForProvider(history);
      SanitizedRequest(system, history);
      messages := [system] + sanitized;
      if !blank {
        RequestExtends(messages, [UserMessage(current)]);
        messages := messages + [UserMessage(current)];
      }
    }

    /** One request to a provider, which may answer, ask for tools or fail in any way. */
    method SendRequest(messages: seq<Message>, ghost system: Message, ghost first: seq<Message>)
      returns (reply: Reply)
      requires Tracks(system, first, turn, messages) && Logged()
      modifies this`requests, this`turn
      ensures requests == old(requests) + [messages] && Logged()
      ensures Tracks(system, first, turn, messages) && turn == old(turn) + [Sent(messages)]
      ensures GroupsIn(turn) == old(GroupsIn(turn))
      ensures reply.ToolCalls? ==> reply.calls != []
    {
      RequestFits(system, first, turn, messages);
      OneMoreEvent(system, first, turn, messages, earlier, Sent(messages));
      hide Tracks;
      hide Fits;
      hide SentIn;
      turn := turn + [Sent(messages)];
      requests := requests + [messages];
      reply := *;
      if reply.ToolCalls? && reply.calls == [] {
        reply := Answer(reply.content);
      }
    }

    /** The fallback chain: one request per candidate until one succeeds or an error ends the chain.
        Candidates in their cooldown are passed over; how the chain's error reads is left open. */
    method SendToCandidates(messages: seq<Message>, candidates: nat, ghost system: Message, ghost first: seq<Message>)
      returns (reply: Reply)
      requires Request(messages) && Tracks(system, first, turn, messages) && Logged()
      modifies this`requests, this`turn
      ensures old(requests) <= requests && AllRequests(|old(requests)|) && Logged()
      ensures Tracks(system, first, turn, messages) && old(turn) <= turn
      ensures GroupsIn(turn) == old(GroupsIn(turn))
      ensures |requests| <= |old(requests)| + candidates
      ensures reply.Succeeded() ==> |requests| > |old(requests)| && EndsWith(turn, Sent(messages))
      ensures reply.ToolCalls? ==> reply.calls != []
    {
      hide Request;
      hide Tracks;
      hide Logged;
      hide GroupsIn;
      reply := FatalError;
      for i := 0 to candidates
        invariant old(requests) <= requests && AllRequests(|old(requests)|) && Logged()
        invariant Tracks(system, first, turn, messages) && old(turn) <= turn
        invariant GroupsIn(turn) == old(GroupsIn(turn))
        invariant |requests| <= |old(requests)| + i
        invariant !reply.Succeeded()
      {
        var coolingDown: bool := *;
        if !coolingDown {
          reply := SendRequest(messages, system, first);
          if reply.Succeeded() {
            return;
          }
          var endsChain: bool := *;
          if endsChain {
            break;
          }
        }
      }
      var error: Reply := *;
      reply := if error.Succeeded() then FatalError else error;
    }

    /** One call of the model: a single request, or the fallback chain over several candidates. */
    method CallModel(messages: seq<Message>, candidates: nat, ghost system: Message, ghost first: seq<Message>)
      returns (reply: Reply)
      requires Request(messages) && Tracks(system, first, turn, messages) && Logged()
      modifies this`requests, this`turn, this`asked, this`last, this`refusals, this`modelCalls
      ensures old(requests) <= requests && AllRequests(|old(requests)|) && Logged()
      ensures Tracks(system, first, turn, messages) && EndsWith(turn, Replied(reply))
      ensures GroupsIn(turn) == old(GroupsIn(turn))
      ensures |requests| <= |old(requests)| + PerCall(candidates)
      ensures modelCalls == old(modelCalls) + 1
      ensures reply.Succeeded() ==> |requests| > |old(requests)|
      ensures last == reply
      ensures refusals == old(refusals) + if reply.ContextError? then 1 else 0
      ensures asked == if reply.ToolCalls? then old(asked) + [reply.calls] else old(asked)
      ensures reply.ToolCalls? ==> reply.calls != []
    {
      hide Request;
      hide Tracks;
      hide GroupsIn;
      hide SentIn;
      hide Fits;
      modelCalls := modelCalls + 1;
      if candidates <= 1 {
        reply := SendRequest(messages, system, first);
      } else {
        reply := SendToCandidates(messages, candidates, system, first);
      }
      ReplyFits(system, first, turn, messages, reply);
      OneMoreEvent(system, first, turn, messages, earlier, Replied(reply));
      turn := turn + [Replied(reply)];
      asked, last := if reply.ToolCalls? then asked + [reply.calls] else asked, reply;
      refusals := refusals + if reply.ContextError? then 1 else 0;
    }

    /** Any tools: each call gets some result. */
    method ExecuteTools(calls: seq<string>) returns (contents: seq<string>)
      ensures |contents| == |calls|
    {
      contents := [];
      while |contents| < |calls|
        invariant |contents| <= |calls|
      {
        var content: string := *;
        contents := contents + [content];
      }
    }

    ghost predicate AllRequests(from: nat)
      reads this
    {
      from <= |requests| && forall i :: from <= i < |requests| ==> Request(requests[i])
    }

    /** One call with its retries: every refused context but the last is compressed and the request
        rebuilt; an error other than a fatal one is given up only after the last retry. */
    method CallWithRetries(system: Message, request: seq<Message>, note: string, candidates: nat,
                           ghost first: seq<Message>)
      returns (reply: Reply, messages: seq<Message>)
      requires Valid() && pending == [] && system.role.System? && Request(request)
      requires Tracks(system, first, turn, request)
      modifies this`history, this`requests, this`turn, this`asked, this`last
      modifies this`refusals, this`compressions, this`modelCalls
      ensures Valid() && Request(messages) && last == reply
      ensures Tracks(system, first, turn, messages) && EndsWith(turn, Replied(reply))
      ensures GroupsIn(turn) == old(GroupsIn(turn))
      ensures refusals - old(refusals) == compressions - old(compressions) + if reply.ContextError? then 1 else 0
      ensures modelCalls <= old(modelCalls) + MAX_RETRIES + 1
      ensures reply.ContextError? || reply.RetriableError? ==> modelCalls == old(modelCalls) + MAX_RETRIES + 1
      ensures AllRequests(|old(requests)|) && old(requests) <= requests
      ensures reply.Succeeded() ==> old(requests) < requests
      ensures asked == if reply.ToolCalls? then old(asked) + [reply.calls] else old(asked)
      ensures |requests| <= |old(requests)| + PerIteration(candidates)
      ensures reply.ToolCalls? ==> reply.calls != []
    {
      hide Request;
      hide Chat;
      hide Compress;
      hide Sanitize;
      hide PerCall;
      hide Tracks;
      hide GroupsIn;
      hide SentIn;
      hide Fits;
      messages := request;
      reply := FatalError;
      var retry := 0;
      while retry <= MAX_RETRIES
        invariant 0 <= retry <= MAX_RETRIES
        invariant Valid() && Request(messages)
        invariant Tracks(system, first, turn, messages) && GroupsIn(turn) == old(GroupsIn(turn))
        invariant AllRequests(|old(requests)|) && old(requests) <= requests
        invariant |requests| <= |old(requests)| + retry * PerCall(candidates)
        invariant modelCalls == old(modelCalls) + retry && asked == old(asked)
        invariant !reply.ToolCalls? && (retry > 0 ==> last == reply)
        invariant refusals - old(refusals) == compressions - old(compressions)
      {
        reply := CallModel(messages, candidates, system, first);
        Interfere();
        if reply.Answer? || reply.ToolCalls? {
          break;
        }
        if reply.RetriableError? && retry < MAX_RETRIES {
          retry := retry + 1;
          continue;
        }
        if reply.ContextError? && retry < MAX_RETRIES {
          ForceCompression(note);
          RebuildFits(system, first, turn, history);
          OneMoreEvent(system, first, turn, messages, earlier, Rebuilt(history));
          messages := BuildMessages(system, "", true);
          turn := turn + [Rebuilt(history)];
          assert messages == [system] + Sanitize(history);
          retry := retry + 1;
          continue;
        }
        break;
      }
    }

    /** Saves a message with tool calls; their results are now awaited. */
    method SaveCalls(a: Message, ghost tools: seq<Message>)
      requires Valid() && pending == [] && Calling(a) && Results(a.calls, tools)
      modifies this`history, this`saved, this`pending
      ensures Valid() && pending == tools && saved == old(saved) + [a]
    {
      GroupIsPaired(a, tools);
      assert history + [] == history;
      ChatExtends(history, [a] + tools);
      assert history + [a] + tools == history + ([a] + tools);
      hide Chat;
      hide AllTools;
      AddFullMessage(a);
      pending := tools;
      Interfere();
    }

    method SaveResult(result: Message)
      requires Valid() && pending != [] && pending[0] == result
      modifies this`history, this`saved, this`pending
      ensures Valid() && pending == old(pending)[1..] && saved == old(saved) + [result]
    {
      hide Chat;
      assert history + [result] + pending[1..] == history + pending;
      AddFullMessage(result);
      pending := pending[1..];
      Interfere();
    }

    /** Saves the results in the order of their calls, one message at a time. */
    method SaveResults(messages: seq<Message>, contents: seq<string>, calls: seq<string>)
      returns (extended: seq<Message>)
      requires Valid() && |contents| == |calls| && pending == ToolMessages(contents, calls)
      modifies this`history, this`saved, this`pending
      ensures Valid() && pending == [] && saved == old(saved) + old(pending) && extended == messages + old(pending)
    {
      ghost var was, tools := saved, pending;
      NothingSaved(was, messages, tools);
      hide PartSaved;
      extended := messages;
      for i := 0 to |calls|
        invariant pending == tools[i..] && Valid()
        invariant PartSaved(was, saved, messages, extended, tools, i)
      {
        var result := ToolMessage(contents[i], calls[i]);
        PartGrows(was, saved, messages, extended, tools, i);
        extended := extended + [result];
        SaveResult(result);
      }
      AllSaved(was, saved, messages, extended, tools);
    }

    /** The saved group as an event of the turn. */
    ghost method RecordGroup(messages: seq<Message>, content: string, calls: seq<string>, outputs: seq<string>,
                             group: seq<Message>, system: Message, first: seq<Message>)
      requires Valid() && |outputs| == |calls|
      requires group == [AssistantMessage(content, calls)] + ToolMessages(outputs, calls)
      requires Tracks(system, first, turn, messages) && EndsWith(turn, Replied(ToolCalls(content, calls)))
      modifies this`turn
      ensures Valid() && Tracks(system, first, turn, messages + group)
      ensures GroupsIn(turn) == old(GroupsIn(turn)) + group
    {
      hide Tracks;
      hide GroupsIn;
      hide SentIn;
      hide Fits;
      hide Chat;
      hide Newest;
      hide AllTools;
      GroupFits(system, first, turn, content, calls, outputs, group);
      OneMoreEvent(system, first, turn, messages, earlier, Saved(outputs, group));
      turn := turn + [Saved(outputs, group)];
    }

    /** Saves an assistant's calls and then their results. */
    method SaveGroup(messages: seq<Message>, content: string, calls: seq<string>,
                     ghost system: Message, ghost first: seq<Message>)
      returns (extended: seq<Message>)
      requires Valid() && pending == [] && Request(messages) && calls != []
      requires Tracks(system, first, turn, messages) && EndsWith(turn, Replied(ToolCalls(content, calls)))
      modifies this`history, this`saved, this`pending, this`turn
      ensures Valid() && pending == [] && Request(extended) && Grew(old(saved), saved)
      ensures extended == messages + saved[|old(saved)|..] && CallsIn(saved[|old(saved)|..]) == [calls]
      ensures Tracks(system, first, turn, extended)
      ensures GroupsIn(turn) == old(GroupsIn(turn)) + saved[|old(saved)|..]
    {
      var contents := ExecuteTools(calls);
      ghost var group := [AssistantMessage(content, calls)] + ToolMessages(contents, calls);
      GroupReady(messages, saved, content, calls, contents);
      hide CallsIn;
      hide Request;
      hide Paired;
      hide Grew;
      hide Chat;
      hide Newest;
      hide Tracks;
      hide GroupsIn;
      hide SentIn;
      hide Fits;
      extended := SaveMessages(messages, content, calls, contents);
      RecordGroup(messages, content, calls, contents, group, system, first);
    }

    /** The calls and then their results are saved, and added to the request. */
    method SaveMessages(messages: seq<Message>, content: string, calls: seq<string>, contents: seq<string>)
      returns (extended: seq<Message>)
      requires Valid() && pending == [] && calls != [] && |contents| == |calls|
      modifies this`history, this`saved, this`pending
      ensures Valid() && pending == []
      ensures var group := [AssistantMessage(content, calls)] + ToolMessages(contents, calls);
              saved == old(saved) + group && extended == messages + group
    {
      var a := AssistantMessage(content, calls);
      ghost var tools := ToolMessages(contents, calls);
      GroupIsPaired(a, tools);
      hide AllTools;
      hide Chat;
      hide Newest;
      hide Results;
      hide Paired;
      SaveCalls(a, tools);
      extended := SaveResults(messages + [a], contents, calls);
      ConcatGroup(old(saved), a, tools);
      ConcatGroup(messages, a, tools);
    }

    /** One iteration: the call of the model and, if it asks for tools, the saving of the group. */
    method RunOnce(system: Message, request: seq<Message>, note: string, candidates: nat, ghost first: seq<Message>,
                   ghost was: seq<Message>, ghost askedWas: seq<seq<string>>)
      returns (reply: Reply, messages: seq<Message>)
      requires Valid() && pending == [] && system.role.System? && Request(request)
      requires Tracks(system, first, turn, request)
      requires SoFar(was, saved, askedWas, asked, GroupsIn(turn))
      modifies this
      ensures Valid() && pending == [] && Request(messages) && earlier == old(earlier) && last == reply
      ensures Tracks(system, first, turn, messages)
      ensures SoFar(was, saved, askedWas, asked, GroupsIn(turn))
      ensures AllRequests(|old(requests)|) && old(requests) <= requests
      ensures |requests| <= |old(requests)| + PerIteration(candidates)
      ensures reply.Succeeded() ==> old(requests) < requests
    {
      hide Request;
      hide SoFar;
      hide Tracks;
      hide PerIteration;
      ghost var before, wasAsked, groups := saved, asked, GroupsIn(turn);
      reply, messages := CallWithRetries(system, request, note, candidates, first);
      if reply.ToolCalls? {
        messages := SaveGroup(messages, reply.content, reply.calls, system, first);
        OneMoreGroup(was, before, saved, askedWas, wasAsked, groups, reply.calls);
      }
    }

    /** The iterations of one turn. Whatever the model, the tools and the summarizer do, every
        request sent is one the provider accepts, what is saved is paired and holds exactly the
        calls the model asked for, and the history stays one the sanitizer can pair. */
    method RunLLMIteration(system: Message, request: seq<Message>, note: string, candidates: nat, maxIterations: nat)
      returns (ok: bool, final: string)
      requires Valid() && pending == [] && system.role.System? && Request(request) && turn == []
      modifies this
      ensures Valid() && pending == [] && Grew(old(saved), saved) && earlier == old(earlier)
      ensures Follows(system, request, turn) && saved == old(saved) + GroupsIn(turn)
      ensures Answered(old(saved), saved, old(asked), asked)
      ensures AllRequests(|old(requests)|) && old(requests) <= requests
      ensures |requests| <= |old(requests)| + maxIterations * PerIteration(candidates)
      ensures ok && maxIterations > 0 ==> old(requests) < requests
      ensures ok ==> final == if maxIterations > 0 && last.Answer? then last.content else ""
      ensures old(requests) < requests && last.Answer? ==> ok
    {
      var messages := request;
      assert Tracks(system, request, turn, messages) && GroupsIn(turn) == [];
      NothingSoFar(saved, asked);
      hide Request;
      hide SoFar;
      hide PerIteration;
      hide GroupsIn;
      hide Tracks;
      ghost var most := 0;
      final := "";
      ok := true;
      for iteration := 0 to maxIterations
        invariant Valid() && pending == [] && Request(messages) && earlier == old(earlier)
        invariant Tracks(system, request, turn, messages)
        invariant SoFar(old(saved), saved, old(asked), asked, GroupsIn(turn))
        invariant AllRequests(|old(requests)|) && old(requests) <= requests
        invariant |old(requests)| + iteration <= |requests| <= |old(requests)| + most
        invariant most == iteration * PerIteration(candidates)
        invariant ok && final == "" && (iteration > 0 ==> last.ToolCalls?)
      {
        OnceMore(iteration, maxIterations, PerIteration(candidates));
        var overLimit: bool := *;
        if overLimit {
          ok := false;
          break;
        }
        var reply;
        most := most + PerIteration(candidates);
        reply, messages := RunOnce(system, messages, note, candidates, request, old(saved), old(asked));
        match reply {
          case Answer(content) =>
            final := content;
            break;
          case ToolCalls(_, _) =>
          case _ =>
            ok := false;
            break;
        }
      }
      TracksFollows(system, request, turn, messages);
      SoFarMeans(old(saved), saved, old(asked), asked, GroupsIn(turn));
    }

    /** Seeds an empty session with the messages of a checkpoint, whatever they are: the history stays
        in the class exactly if they are in it, as a recorded request is. */
    method Resume(checkpoint: seq<Message>)
      requires Valid() && pending == []
      modifies this`history, this`saved
      ensures history == if old(history) == [] then checkpoint else old(history)
      ensures saved == if old(history) == [] then old(saved) + checkpoint else old(saved)
      ensures Valid() <==> old(history) != [] || Chat(checkpoint)
    {
      if |history| != 0 {
        return;
      }
      for i := 0 to |checkpoint|
        invariant history == checkpoint[..i] && saved == old(saved) + checkpoint[..i] && Newest(history, saved)
      {
        AddFullMessage(checkpoint[i]);
      }
      assert checkpoint[..|checkpoint|] == checkpoint;
      assert history + [] == history;
    }

    ghost method BeginTurn()
      requires Valid()
      modifies this`earlier, this`turn
      ensures Valid() && earlier == requests && turn == []
    {
      earlier, turn := requests, [];
      assert requests + [] == requests;
    }

    method AddTurnMessage(m: Message)
      requires Valid() && pending == [] && !m.role.Tool? && !Calling(m)
      modifies this`history, this`saved
      ensures Valid() && Grew(old(saved), saved) && saved == old(saved) + [m]
      ensures Answered(old(saved), saved, asked, asked)
    {
      assert history + [] == history;
      ChatExtends(history, [m]);
      GrewBy(saved, [m]);
      AnsweredBy(saved, [m], asked, []);
      AddFullMessage(m);
      assert history + [] == history;
      assert asked + [] == asked;
      Interfere();
    }

    /** One turn of the conversation: the user message first, then the groups of the calls the
        model asked for, then the final answer or its default. */
    method RunAgentLoop(system: Message, user: string, blank: bool, fallback: string, note: string,
                        candidates: nat, maxIterations: nat)
      returns (ok: bool)
      requires Valid() && pending == [] && system.role.System?
      modifies this
      ensures Valid() && pending == [] && Grew(old(saved), saved)
      ensures Answered(old(saved), saved, old(asked), asked)
      ensures AllRequests(|old(requests)|) && old(requests) <= requests
      ensures requests == old(requests) + SentIn(turn)
      ensures Follows(system, FirstRequest(system, old(history), user, blank), turn)
      ensures old(requests) < requests && last.Answer? ==> ok
      ensures !ok ==> saved == old(saved) + [UserMessage(user)] + GroupsIn(turn)
      ensures ok ==>
                var answer := if maxIterations > 0 && last.Answer? then last.content else "";
                saved == old(saved) + [UserMessage(user)] + GroupsIn(turn)
                         + [AssistantMessage(if answer == "" then fallback else answer, [])]
    {
      hide Request;
      hide Grew;
      hide Answered;
      hide Paired;
      hide Chat;
      hide GroupsIn;
      hide SentIn;
      BeginTurn();
      var messages := BuildMessages(system, user, blank);
      AddTurnMessage(UserMessage(user));
      ghost var first := saved;
      var final;
      ok, final := RunLLMIteration(system, messages, note, candidates, maxIterations);
      GrewTwice(old(saved), first, saved);
      AnsweredTwice(old(saved), first, saved, old(asked), old(asked), asked);
      GrewIsPrefix(first, saved);
      if !ok {
        return;
      }
      if final == "" {
        final := fallback;
      }
      ghost var turn := saved;
      AddTurnMessage(AssistantMessage(final, []));
      GrewTwice(old(saved), turn, saved);
      AnsweredTwice(old(saved), turn, saved, old(asked), asked, asked);
    }
  }
}
