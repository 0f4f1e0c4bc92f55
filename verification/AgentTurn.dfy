/** What happens in one turn of the agent, event by event, and what every request of it must contain. */
module AgentTurn {
  import opened Messages
  import opened Transcript

  /** What one call of the model comes back with. */
  datatype Reply =
    | ContextError
    | RetriableError
    | FatalError
    | Answer(content: string)
    | ToolCalls(content: string, calls: seq<string>)
  {
    predicate Succeeded() { Answer? || ToolCalls? }
  }

  function UserMessage(content: string): Message { Message(User, content, [], "") }
  function AssistantMessage(content: string, calls: seq<string>): Message { Message(Assistant, content, calls, "") }
  function ToolMessage(content: string, callId: string): Message { Message(Tool, content, [], callId) }

  function ToolMessages(contents: seq<string>, calls: seq<string>): seq<Message>
    requires |contents| == |calls|
  {
    seq(|calls|, i requires 0 <= i < |calls| => ToolMessage(contents[i], calls[i]))
  }

  /** A request sent to a provider; what a call of the model came back with; the calls and results
      saved, with the tools' outputs; and a request rebuilt from a compressed history. */
  datatype Event =
    | Sent(messages: seq<Message>)
    | Replied(reply: Reply)
    | Saved(outputs: seq<string>, group: seq<Message>)
    | Rebuilt(history: seq<Message>)

  /** The request as it stands after some events of a turn that began with the request `first`. */
  function Current(system: Message, first: seq<Message>, events: seq<Event>): seq<Message>
    decreases |events|
  {
    if events == [] then first else
    var n := |events| - 1;
    Changed(system, Current(system, first, events[..n]), events[n])
  }

  function Changed(system: Message, request: seq<Message>, e: Event): seq<Message> {
    if e.Saved? then request + e.group
    else if e.Rebuilt? then [system] + Sanitize(e.history)
    else request
  }

  /** The event is one the turn can have here: a request is the one that stands, a success answers the
      request before it, a group holds the calls just asked for with one result each, and a request is
      rebuilt only when the model has refused the context. */
  predicate Fits(system: Message, first: seq<Message>, before: seq<Event>, e: Event) {
    var last := if before == [] then Replied(FatalError) else before[|before| - 1];
    match e
    case Sent(messages) => messages == Current(system, first, before)
    case Replied(reply) => reply.Succeeded() ==> last.Sent?
    case Saved(outputs, group) =>
      && last.Replied? && last.reply.ToolCalls? && |outputs| == |last.reply.calls|
      && group == [AssistantMessage(last.reply.content, last.reply.calls)] + ToolMessages(outputs, last.reply.calls)
    case Rebuilt(_) => last == Replied(ContextError)
  }

  predicate Follows(system: Message, first: seq<Message>, events: seq<Event>) {
    forall i: nat :: i < |events| ==> Fits(system, first, events[..i], events[i])
  }

  lemma FollowsMore(system: Message, first: seq<Message>, events: seq<Event>, e: Event)
    requires Follows(system, first, events) && Fits(system, first, events, e)
    ensures Follows(system, first, events + [e])
  {
    var all := events + [e];
    forall i: nat | i < |all| ensures Fits(system, first, all[..i], all[i]) {
      if i < |events| {
        assert all[..i] == events[..i] && all[i] == events[i];
        assert Fits(system, first, events[..i], events[i]);
      } else {
        assert all[..i] == events;
      }
      hide Fits;
    }
  }

  lemma CurrentMore(system: Message, first: seq<Message>, events: seq<Event>, e: Event)
    ensures Current(system, first, events + [e]) == Changed(system, Current(system, first, events), e)
  {
    assert (events + [e])[..|events|] == events;
  }

  /** The requests among the events. */
  function SentIn(events: seq<Event>): seq<seq<Message>>
    decreases |events|
  {
    if events == [] then [] else
    var n := |events| - 1;
    SentIn(events[..n]) + if events[n].Sent? then [events[n].messages] else []
  }

  lemma {:induction false} SentInConcat(a: seq<Event>, b: seq<Event>)
    ensures SentIn(a + b) == SentIn(a) + SentIn(b)
    decreases |b|
  {
    if b == [] {
      assert a + b == a;
    } else {
      assert (a + b)[..|a + b| - 1] == a + b[..|b| - 1];
      SentInConcat(a, b[..|b| - 1]);
    }
  }

  /** The messages the groups among the events hold. */
  function GroupsIn(events: seq<Event>): seq<Message>
    decreases |events|
  {
    if events == [] then [] else
    var n := |events| - 1;
    GroupsIn(events[..n]) + if events[n].Saved? then events[n].group else []
  }

  lemma GroupsInMore(events: seq<Event>, e: Event)
    ensures GroupsIn(events + [e]) == GroupsIn(events) + if e.Saved? then e.group else []
  {
    assert (events + [e])[..|events|] == events;
  }

  // ------------------------------------------------------------ what the requests of a turn contain

  predicate NoRebuild(events: seq<Event>) {
    forall i :: 0 <= i < |events| ==> !events[i].Rebuilt?
  }

  lemma {:induction false} CurrentGrows(system: Message, first: seq<Message>, a: seq<Event>, b: seq<Event>)
    requires NoRebuild(b)
    ensures Current(system, first, a + b) == Current(system, first, a) + GroupsIn(b)
    decreases |b|
  {
    if b == [] {
      assert a + b == a;
    } else {
      var n := |b| - 1;
      assert a + b == a + b[..n] + [b[n]] && b == b[..n] + [b[n]];
      CurrentMore(system, first, a + b[..n], b[n]);
      GroupsInMore(b[..n], b[n]);
      CurrentGrows(system, first, a, b[..n]);
    }
  }

  lemma SentIsCurrent(system: Message, first: seq<Message>, events: seq<Event>, i: nat)
    requires Follows(system, first, events) && i < |events| && events[i].Sent?
    ensures events[i].messages == Current(system, first, events[..i])
  {
    assert Fits(system, first, events[..i], events[i]);
  }

  /** Every request before the first compression is the turn's first request and the groups saved since. */
  lemma BeforeCompression(system: Message, first: seq<Message>, events: seq<Event>, i: nat)
    requires Follows(system, first, events) && i < |events| && events[i].Sent? && NoRebuild(events[..i])
    ensures events[i].messages == first + GroupsIn(events[..i]) && first <= events[i].messages
  {
    CurrentGrows(system, first, [], events[..i]);
    assert [] + events[..i] == events[..i];
    assert Fits(system, first, events[..i], events[i]);
  }

  /** A later request, without a compression in between, is the earlier one followed by exactly the
      groups saved in between. */
  lemma NextRequest(system: Message, first: seq<Message>, events: seq<Event>, i: nat, k: nat)
    requires Follows(system, first, events) && i < k < |events| && events[i].Sent? && events[k].Sent?
    requires NoRebuild(events[i..k])
    ensures events[k].messages == events[i].messages + GroupsIn(events[i..k])
  {
    SentIsCurrent(system, first, events, i);
    SentIsCurrent(system, first, events, k);
    hide Follows;
    hide Current;
    assert events[..k] == events[..i] + events[i..k];
    CurrentGrows(system, first, events[..i], events[i..k]);
  }

  /** A request behind a compression is the system message, the sanitized compressed history, and the
      groups saved since. */
  lemma AfterCompression(system: Message, first: seq<Message>, events: seq<Event>, i: nat, k: nat)
    requires Follows(system, first, events) && i < k < |events| && events[i].Rebuilt? && events[k].Sent?
    requires NoRebuild(events[i + 1..k])
    ensures events[k].messages == [system] + Sanitize(events[i].history) + GroupsIn(events[i + 1..k])
  {
    CurrentGrows(system, first, events[..i + 1], events[i + 1..k]);
    assert events[..k] == events[..i + 1] + events[i + 1..k];
    assert events[..i + 1] == events[..i] + [events[i]];
    CurrentMore(system, first, events[..i], events[i]);
    assert Fits(system, first, events[..k], events[k]);
  }

  /** In particular a request behind one saved group is the request before it and that group. */
  lemma RequestAfterGroup(system: Message, first: seq<Message>, events: seq<Event>, i: nat, j: nat, k: nat)
    requires Follows(system, first, events) && i < j < k < |events|
    requires events[i].Sent? && events[j].Saved? && events[k].Sent?
    requires forall l :: i < l < k && l != j ==> !events[l].Saved? && !events[l].Rebuilt?
    ensures NoRebuild(events[i..k])
    ensures events[k].messages == events[i].messages + events[j].group
  {
    NextRequest(system, first, events, i, k);
    hide *;
    OneGroupIn(events, i, j, k);
  }

  lemma OneGroupIn(events: seq<Event>, i: nat, j: nat, k: nat)
    requires i < j < k < |events| && events[i].Sent? && events[j].Saved?
    requires forall l :: i < l < k && l != j ==> !events[l].Saved?
    ensures GroupsIn(events[i..k]) == events[j].group
  {
    assert events[i..k] == events[i..j] + [events[j]] + events[j + 1..k];
    OneGroup(events[i..j], events[j], events[j + 1..k]);
    hide GroupsIn;
  }

  lemma OneGroup(a: seq<Event>, e: Event, b: seq<Event>)
    requires e.Saved? && forall l :: 0 <= l < |a| ==> !a[l].Saved?
    requires forall l :: 0 <= l < |b| ==> !b[l].Saved?
    ensures GroupsIn(a + [e] + b) == e.group
  {
    NoGroups(a);
    GroupsInMore(a, e);
    GroupsAfter(a + [e], b);
    hide GroupsIn;
  }

  lemma {:induction false} NoGroups(events: seq<Event>)
    requires forall i :: 0 <= i < |events| ==> !events[i].Saved?
    ensures GroupsIn(events) == []
    decreases |events|
  {
    if events != [] { NoGroups(events[..|events| - 1]); }
  }

  lemma {:induction false} GroupsAfter(a: seq<Event>, b: seq<Event>)
    requires forall i :: 0 <= i < |b| ==> !b[i].Saved?
    ensures GroupsIn(a + b) == GroupsIn(a)
    decreases |b|
  {
    if b == [] {
      assert a + b == a;
    } else {
      assert (a + b)[..|a + b| - 1] == a + b[..|b| - 1];
      GroupsAfter(a, b[..|b| - 1]);
    }
  }
}
