/** The outbound worker of one channel: splitting, the placeholder edit tried before a send,
    and the bounded retry loop, with every Send result and cancellation left open. */
module OutboundWorker {
  import opened FenceText
  import opened Options
  import opened Sequences
  import opened Splitter
  import opened SplitMessageLoop
  import opened Preservation

  const MAX_RETRIES := 3

  datatype OutboundMessage = OutboundMessage(chatId: string, content: string)

  /** What the channel's Send reports; `Temporary` stands for every unclassified error. */
  datatype SendResult = Sent | NotRunning | SendFailed | RateLimited | Temporary {
    predicate Permanent() { NotRunning? || SendFailed? }
    predicate Transient() { !Sent? && !Permanent() }
  }

  datatype Outcome = Delivered | Failed | Cancelled

  /** What other goroutines have recorded, by chat: the functions that stop the typing indicator and
      undo the reaction, and the placeholder to be edited. */
  datatype Records = Records(typingStops: map<string, nat>, reactionUndos: map<string, nat>,
                             placeholders: map<string, string>)
  {
    function Without(chatId: string): Records {
      Records(typingStops - {chatId}, reactionUndos - {chatId}, placeholders - {chatId})
    }

    predicate HasPlaceholder(chatId: string) {
      chatId in placeholders && placeholders[chatId] != ""
    }
  }

  /** One call of Send: what it reported, and what was recorded when it was made. */
  datatype Call = Call(result: SendResult, recorded: Records)

  /** What the worker does to the outside, one call after the other. */
  datatype Action =
    | Stop(f: nat)
    | Undo(f: nat)
    | Edit(id: string, msg: OutboundMessage, ok: bool)
    | Send(msg: OutboundMessage, call: Call)

  /** What became of one piece: the records found after the wait for the limiter, unless it was
      cancelled there; its calls of Send, in order; and how it ended. */
  datatype Visit = Visit(found: Option<Records>, calls: seq<Call>, outcome: Outcome)

  /** The calls of Send of one piece: transient errors are retried, the first success or permanent
      error ends it, and so does the last retry. */
  ghost predicate RetryTrace(calls: seq<Call>, outcome: Outcome) {
    && |calls| <= MAX_RETRIES + 1
    && (forall i :: 0 <= i < |calls| - 1 ==> calls[i].result.Transient())
    && (outcome.Delivered? ==> calls == [] || calls[|calls| - 1].result.Sent?)
    && (outcome.Failed? ==>
          && calls != []
          && (var last := calls[|calls| - 1].result;
              last.Permanent() || (last.Transient() && |calls| == MAX_RETRIES + 1)))
    && (outcome.Cancelled? ==> calls == [] || (calls[|calls| - 1].result.Transient() && |calls| <= MAX_RETRIES))
  }

  /** A piece cancelled at the limiter is not sent. Any other is sent, with the records of its chat
      consumed before the first call, unless it was edited into the placeholder that was recorded. */
  ghost predicate Possible(chatId: string, canEdit: bool, v: Visit) {
    && RetryTrace(v.calls, v.outcome)
    && (v.found.None? ==> v.calls == [] && v.outcome.Cancelled?)
    && (v.found.Some? && v.calls == [] ==>
          v.outcome.Delivered? && canEdit && v.found.value.HasPlaceholder(chatId))
    && (v.found.Some? && v.calls != [] ==> v.calls[0].recorded == v.found.value.Without(chatId))
  }

  /** The recorded functions called, and the edit tried, before the first call of Send. */
  function Stops(chatId: string, found: Records): seq<Action> {
    (if chatId in found.typingStops then [Stop(found.typingStops[chatId])] else [])
    + (if chatId in found.reactionUndos then [Undo(found.reactionUndos[chatId])] else [])
  }

  function Edits(msg: OutboundMessage, canEdit: bool, found: Records, edited: bool): seq<Action> {
    if canEdit && found.HasPlaceholder(msg.chatId) then [Edit(found.placeholders[msg.chatId], msg, edited)] else []
  }

  function Preparation(msg: OutboundMessage, canEdit: bool, found: Records, edited: bool): seq<Action> {
    Stops(msg.chatId, found) + Edits(msg, canEdit, found, edited)
  }

  function SendsOf(msg: OutboundMessage, calls: seq<Call>): seq<Action> {
    seq(|calls|, i requires 0 <= i < |calls| => Send(msg, calls[i]))
  }

  function ActionsOf(msg: OutboundMessage, canEdit: bool, v: Visit): seq<Action> {
    if v.found.None? then [] else
    Preparation(msg, canEdit, v.found.value, v.calls == []) + SendsOf(msg, v.calls)
  }

  function AllActions(pieces: seq<OutboundMessage>, canEdit: bool, visits: seq<Visit>): seq<Action>
    requires |visits| <= |pieces|
  {
    if visits == [] then [] else
    ActionsOf(pieces[0], canEdit, visits[0]) + AllActions(pieces[1..], canEdit, visits[1..])
  }

  ghost predicate AllPossible(pieces: seq<OutboundMessage>, canEdit: bool, visits: seq<Visit>) {
    |visits| <= |pieces| && forall i :: 0 <= i < |visits| ==> Possible(pieces[i].chatId, canEdit, visits[i])
  }

  /** The delivered ones among the pieces processed. */
  function Picked(pieces: seq<OutboundMessage>, visits: seq<Visit>): seq<OutboundMessage>
    requires |visits| <= |pieces|
  {
    if visits == [] then [] else
    (if visits[0].outcome.Delivered? then [pieces[0]] else []) + Picked(pieces[1..], visits[1..])
  }

  // ------------------------------------------------------------ what is to be sent

  /** Splitting the content, if it is split at all, comes to an end. */
  ghost predicate CanSplit(content: string, maxLen: int) {
    maxLen > 0 && |content| > maxLen ==> Ends(content, maxLen)
  }

  ghost predicate CanSplitAll(queue: seq<OutboundMessage>, maxLen: int) {
    forall i :: 0 <= i < |queue| ==> CanSplit(queue[i].content, maxLen)
  }

  /** What the worker sends for one message. */
  ghost function Pieces(content: string, maxLen: int): seq<string>
    requires CanSplit(content, maxLen)
  {
    if maxLen > 0 && |content| > maxLen then Split(content, maxLen) else [content]
  }

  /** The same pieces, each addressed to the message's chat. */
  function Addressed(chatId: string, pieces: seq<string>): seq<OutboundMessage> {
    seq(|pieces|, i requires 0 <= i < |pieces| => OutboundMessage(chatId, pieces[i]))
  }

  ghost function AllPieces(queue: seq<OutboundMessage>, maxLen: int): seq<OutboundMessage>
    requires CanSplitAll(queue, maxLen)
  {
    if queue == [] then [] else
    Addressed(queue[0].chatId, Pieces(queue[0].content, maxLen)) + AllPieces(queue[1..], maxLen)
  }

  /** The pieces of a message are its SplitMessage chunks, except for the empty message, which
      is sent although SplitMessage has no chunk for it. */
  lemma PiecesAreChunks(content: string, maxLen: int)
    requires maxLen > 0 && CanSplit(content, maxLen)
    ensures Ends(content, maxLen)
    ensures Pieces(content, maxLen) == Split(content, maxLen) <==> content != ""
    ensures content == "" ==> Pieces(content, maxLen) == [""] && Split(content, maxLen) == []
  {
    if content == "" {
      SplitEmpty(maxLen);
    } else if |content| <= maxLen {
      assert Iterate(content, maxLen) == Next(content, "");
      assert Pending("", maxLen, 0) == "" && Emitted("", maxLen, 0) == [];
      assert Pending(content, maxLen, 1) == "" && Emitted(content, maxLen, 1) == [content];
      SplitIs(content, maxLen, 1);
    }
  }

  /** Every piece sent to a limited channel fits, and is not empty unless the message was. */
  lemma PieceBounds(content: string, maxLen: int)
    requires maxLen > 0 && CanSplit(content, maxLen)
    ensures forall p :: p in Pieces(content, maxLen) ==> |p| <= maxLen && (content != "" ==> p != "")
  {
    hide Iterate;
    if |content| > maxLen {
      var n: nat :| Pending(content, maxLen, n) == "";
      SplitIs(content, maxLen, n);
      ChunkBounds(content, maxLen, n);
    }
  }

  /** What the worker sends for a message spells its content, and keeps the fences of a balanced
      one balanced in every piece. */
  lemma PiecesKeepContent(content: string, maxLen: int)
    requires maxLen > 0 && CanSplit(content, maxLen)
    ensures Splittable(content, maxLen) ==> Spelled(content, maxLen - 7, Pieces(content, maxLen))
    ensures maxLen >= 10 && Balanced(content) ==>
              forall p :: p in Pieces(content, maxLen) ==> FenceCount(p) % 2 == 0
  {
    PiecesAreChunks(content, maxLen);
    if content == "" {
      var whole := Piece("", 0, 0, false);
      assert whole.Text(content) == "";
      assert Spells(content, 0, maxLen - 7, [""], [whole]);
    } else {
      if Splittable(content, maxLen) {
        ContentPreserved(content, maxLen);
        SplitOfSplittable(content, maxLen);
      }
      hide Spelled;
      hide Iterate;
      if maxLen >= 10 && Balanced(content) {
        var n: nat :| Pending(content, maxLen, n) == "";
        SplitIs(content, maxLen, n);
        ChunksBalanced(content, maxLen, n);
      }
    }
  }

  lemma {:induction false} AllPiecesAppend(queue: seq<OutboundMessage>, maxLen: int, k: nat)
    requires CanSplitAll(queue, maxLen) && k < |queue|
    ensures CanSplitAll(queue[..k + 1], maxLen) && CanSplitAll(queue[..k], maxLen)
    ensures CanSplit(queue[k].content, maxLen)
    ensures AllPieces(queue[..k + 1], maxLen)
            == AllPieces(queue[..k], maxLen) + Addressed(queue[k].chatId, Pieces(queue[k].content, maxLen))
  {
    hide Pieces;
    if k == 0 {
      assert queue[..1][1..] == [];
    } else {
      assert queue[..k + 1][1..] == queue[1..][..k] && queue[..k][1..] == queue[1..][..k - 1];
      AllPiecesAppend(queue[1..], maxLen, k - 1);
    }
  }

  lemma {:induction false} AllPiecesPrefix(queue: seq<OutboundMessage>, maxLen: int, k: nat)
    requires CanSplitAll(queue, maxLen) && k <= |queue|
    ensures CanSplitAll(queue[..k], maxLen)
    ensures AllPieces(queue[..k], maxLen) <= AllPieces(queue, maxLen)
    decreases |queue| - k
  {
    hide Pieces;
    if k < |queue| {
      AllPiecesAppend(queue, maxLen, k);
      AllPiecesPrefix(queue, maxLen, k + 1);
    } else {
      assert queue[..k] == queue;
    }
  }

  // ------------------------------------------------------------ delivery

  /** Whatever fails, what is delivered is in order a subsequence of what was to be sent. */
  lemma {:induction false} DeliveredInOrder(pieces: seq<OutboundMessage>, visits: seq<Visit>)
    requires |visits| <= |pieces|
    ensures Subsequence(Picked(pieces, visits), pieces)
  {
    if visits != [] {
      DeliveredInOrder(pieces[1..], visits[1..]);
      if visits[0].outcome.Delivered? {
        assert Picked(pieces, visits)[1..] == Picked(pieces[1..], visits[1..]);
      } else {
        SubsequenceSkip(Picked(pieces[1..], visits[1..]), pieces);
        assert Picked(pieces, visits) == Picked(pieces[1..], visits[1..]);
      }
    }
  }

  /** If nothing fails, everything is delivered. */
  lemma {:induction false} AllDelivered(pieces: seq<OutboundMessage>, visits: seq<Visit>)
    requires |visits| == |pieces| && forall i :: 0 <= i < |visits| ==> visits[i].outcome.Delivered?
    ensures Picked(pieces, visits) == pieces
  {
    if visits != [] {
      AllDelivered(pieces[1..], visits[1..]);
    }
  }

  lemma PreparationIs(msg: OutboundMessage, canEdit: bool, found: Records, edited: bool)
    ensures var before, chat := Preparation(msg, canEdit, found, edited), msg.chatId;
            && (forall f :: Stop(f) in before <==> chat in found.typingStops && f == found.typingStops[chat])
            && (forall f :: Undo(f) in before <==> chat in found.reactionUndos && f == found.reactionUndos[chat])
            && (forall id, m, ok :: Edit(id, m, ok) in before <==>
                  canEdit && chat in found.placeholders && id == found.placeholders[chat] && id != ""
                  && m == msg && ok == edited)
            && (forall m, c :: Send(m, c) !in before)
  {
  }

  lemma PreparationOnce(msg: OutboundMessage, canEdit: bool, found: Records, edited: bool)
    ensures var before := Preparation(msg, canEdit, found, edited);
            forall i, j :: 0 <= i < j < |before| ==> before[i] != before[j]
  {
  }

  /** Before a piece is sent, and once each, the functions found for its chat are called and the
      placeholder found is tried, if the channel can edit; nothing else is. */
  lemma PreparedFirst(msg: OutboundMessage, canEdit: bool, v: Visit, n: int)
    requires Possible(msg.chatId, canEdit, v) && v.found.Some? && n == |ActionsOf(msg, canEdit, v)| - |v.calls|
    ensures 0 <= n && ActionsOf(msg, canEdit, v)[n..] == SendsOf(msg, v.calls)
    ensures var before, chat, found := ActionsOf(msg, canEdit, v)[..n], msg.chatId, v.found.value;
            && (forall i, j :: 0 <= i < j < n ==> before[i] != before[j])
            && (forall f :: Stop(f) in before <==> chat in found.typingStops && f == found.typingStops[chat])
            && (forall f :: Undo(f) in before <==> chat in found.reactionUndos && f == found.reactionUndos[chat])
            && (forall id, m, ok :: Edit(id, m, ok) in before <==>
                  canEdit && chat in found.placeholders && id == found.placeholders[chat] && id != ""
                  && m == msg && ok == (v.calls == []))
            && (forall m, c :: Send(m, c) !in before)
  {
    var found, chat := v.found.value, msg.chatId;
    assert ActionsOf(msg, canEdit, v)[..n] == Preparation(msg, canEdit, found, v.calls == []);
    PreparationIs(msg, canEdit, found, v.calls == []);
    PreparationOnce(msg, canEdit, found, v.calls == []);
    hide Preparation;
    hide Possible;
  }

  /** The messages that have arrived, by a successful Send or edit. */
  function Arrived(log: seq<Action>): seq<OutboundMessage> {
    if log == [] then [] else
    var last := log[|log| - 1];
    Arrived(log[..|log| - 1])
    + if (last.Send? && last.call.result.Sent?) || (last.Edit? && last.ok) then [last.msg] else []
  }

  lemma {:induction false} ArrivedConcat(a: seq<Action>, b: seq<Action>)
    ensures Arrived(a + b) == Arrived(a) + Arrived(b)
    decreases |b|
  {
    if b == [] {
      assert a + b == a;
    } else {
      assert (a + b)[..|a + b| - 1] == a + b[..|b| - 1];
      ArrivedConcat(a, b[..|b| - 1]);
    }
  }

  lemma {:induction false} TransientSendsNothing(msg: OutboundMessage, calls: seq<Call>)
    requires forall i :: 0 <= i < |calls| ==> calls[i].result.Transient()
    ensures Arrived(SendsOf(msg, calls)) == []
    decreases |calls|
  {
    if calls != [] {
      assert SendsOf(msg, calls)[..|calls| - 1] == SendsOf(msg, calls[..|calls| - 1]);
      TransientSendsNothing(msg, calls[..|calls| - 1]);
    }
  }

  lemma SendsArriveOnce(msg: OutboundMessage, calls: seq<Call>, outcome: Outcome)
    requires RetryTrace(calls, outcome) && calls != []
    ensures Arrived(SendsOf(msg, calls)) == if outcome.Delivered? then [msg] else []
  {
    var n := |calls| - 1;
    TransientSendsNothing(msg, calls[..n]);
    assert SendsOf(msg, calls)[..n] == SendsOf(msg, calls[..n]);
  }

  lemma PreparationArrives(msg: OutboundMessage, canEdit: bool, found: Records, edited: bool)
    ensures Arrived(Preparation(msg, canEdit, found, edited))
            == if edited && canEdit && found.HasPlaceholder(msg.chatId) then [msg] else []
  {
    var calls, edits := Stops(msg.chatId, found), Edits(msg, canEdit, found, edited);
    assert forall i :: 0 <= i < |calls| ==> calls[i].Stop? || calls[i].Undo?;
    CallsArriveNot(calls);
    if edits != [] { assert edits[..0] == [] && Arrived([]) == []; }
    assert [] + Arrived(edits) == Arrived(edits);
    ArrivedConcat(calls, edits);
    hide Arrived;
    hide Stops;
    hide Edits;
  }

  lemma {:induction false} CallsArriveNot(log: seq<Action>)
    requires forall i :: 0 <= i < |log| ==> log[i].Stop? || log[i].Undo?
    ensures Arrived(log) == []
    decreases |log|
  {
    if log != [] { CallsArriveNot(log[..|log| - 1]); }
  }

  /** A piece arrives once if it counts as delivered, and not at all otherwise. */
  lemma PieceArrives(msg: OutboundMessage, canEdit: bool, v: Visit)
    requires Possible(msg.chatId, canEdit, v)
    ensures Arrived(ActionsOf(msg, canEdit, v)) == if v.outcome.Delivered? then [msg] else []
  {
    if v.found.Some? {
      ArrivedConcat(Preparation(msg, canEdit, v.found.value, v.calls == []), SendsOf(msg, v.calls));
      PreparationArrives(msg, canEdit, v.found.value, v.calls == []);
      if v.calls != [] { SendsArriveOnce(msg, v.calls, v.outcome); }
    }
  }

  /** How often Send was called. */
  function SendCount(log: seq<Action>): nat {
    if log == [] then 0 else
    SendCount(log[..|log| - 1]) + if log[|log| - 1].Send? then 1 else 0
  }

  lemma {:induction false} SendCountConcat(a: seq<Action>, b: seq<Action>)
    ensures SendCount(a + b) == SendCount(a) + SendCount(b)
    decreases |b|
  {
    if b == [] {
      assert a + b == a;
    } else {
      assert (a + b)[..|a + b| - 1] == a + b[..|b| - 1];
      SendCountConcat(a, b[..|b| - 1]);
    }
  }

  lemma {:induction false} SendCountBound(log: seq<Action>)
    ensures SendCount(log) <= |log|
    ensures (forall i :: 0 <= i < |log| ==> !log[i].Send?) ==> SendCount(log) == 0
    decreases |log|
  {
    if log != [] { SendCountBound(log[..|log| - 1]); }
  }

  lemma PieceSends(msg: OutboundMessage, canEdit: bool, v: Visit)
    requires Possible(msg.chatId, canEdit, v)
    ensures SendCount(ActionsOf(msg, canEdit, v)) <= MAX_RETRIES + 1
  {
    if v.found.Some? {
      var before := Preparation(msg, canEdit, v.found.value, v.calls == []);
      SendCountConcat(before, SendsOf(msg, v.calls));
      SendCountBound(before);
      SendCountBound(SendsOf(msg, v.calls));
    }
  }

  /** Over a whole queue: Send is called at most MAX_RETRIES + 1 times per piece, and what has arrived,
      by a Send or an edit, is exactly what counts as delivered, in order. */
  lemma {:induction false} LogBounds(pieces: seq<OutboundMessage>, canEdit: bool, visits: seq<Visit>)
    requires AllPossible(pieces, canEdit, visits)
    ensures SendCount(AllActions(pieces, canEdit, visits)) <= (MAX_RETRIES + 1) * |visits|
    ensures Arrived(AllActions(pieces, canEdit, visits)) == Picked(pieces, visits)
  {
    if visits != [] {
      assert Possible(pieces[0].chatId, canEdit, visits[0]);
      var first, rest := ActionsOf(pieces[0], canEdit, visits[0]), AllActions(pieces[1..], canEdit, visits[1..]);
      LogBounds(pieces[1..], canEdit, visits[1..]);
      ArrivedConcat(first, rest);
      SendCountConcat(first, rest);
      PieceArrives(pieces[0], canEdit, visits[0]);
      PieceSends(pieces[0], canEdit, visits[0]);
      hide Arrived;
      hide SendCount;
      hide ActionsOf;
      hide Possible;
    }
  }

  /** The actions of a run hold those of each piece, in one stretch and in the order of the pieces. */
  lemma {:induction false} ActionsOfPiece(pieces: seq<OutboundMessage>, canEdit: bool, visits: seq<Visit>, k: nat)
    requires k < |visits| <= |pieces|
    ensures AllActions(pieces, canEdit, visits)
            == AllActions(pieces, canEdit, visits[..k]) + ActionsOf(pieces[k], canEdit, visits[k])
               + AllActions(pieces[k + 1..], canEdit, visits[k + 1..])
  {
    hide ActionsOf;
    if k > 0 {
      assert visits[..k][1..] == visits[1..][..k - 1];
      ActionsOfPiece(pieces[1..], canEdit, visits[1..], k - 1);
    }
  }

  lemma {:induction false} PickedAppend(pieces: seq<OutboundMessage>, visits: seq<Visit>, v: Visit)
    requires |visits| < |pieces|
    ensures Picked(pieces, visits + [v])
            == Picked(pieces, visits) + if v.outcome.Delivered? then [pieces[|visits|]] else []
  {
    if visits != [] {
      assert (visits + [v])[1..] == visits[1..] + [v];
      PickedAppend(pieces[1..], visits[1..], v);
    }
  }

  lemma {:induction false} ActionsAppend(pieces: seq<OutboundMessage>, canEdit: bool, visits: seq<Visit>, v: Visit)
    requires |visits| < |pieces|
    ensures AllActions(pieces, canEdit, visits + [v])
            == AllActions(pieces, canEdit, visits) + ActionsOf(pieces[|visits|], canEdit, v)
  {
    hide ActionsOf;
    if visits != [] {
      assert (visits + [v])[1..] == visits[1..] + [v];
      ActionsAppend(pieces[1..], canEdit, visits[1..], v);
    }
  }

  // ------------------------------------------------------------ the worker

  /** The first n pieces are those of the messages taken. */
  ghost predicate Covers(queue: seq<OutboundMessage>, maxLen: int, taken: nat, n: nat) {
    taken <= |queue| && CanSplitAll(queue[..taken], maxLen) && n == |AllPieces(queue[..taken], maxLen)|
  }

  /** These pieces stand at n. */
  predicate ComeNext(all: seq<OutboundMessage>, n: nat, chatId: string, pieces: seq<string>) {
    n + |pieces| <= |all| && forall i :: 0 <= i < |pieces| ==> all[n + i] == OutboundMessage(chatId, pieces[i])
  }

  lemma NoneCovered(queue: seq<OutboundMessage>, maxLen: int)
    ensures Covers(queue, maxLen, 0, 0)
  {
  }

  lemma OneMoreCovered(queue: seq<OutboundMessage>, maxLen: int, taken: nat, n: nat)
    requires CanSplitAll(queue, maxLen) && Covers(queue, maxLen, taken, n) && taken < |queue|
    ensures CanSplit(queue[taken].content, maxLen)
    ensures var pieces := Pieces(queue[taken].content, maxLen);
            && ComeNext(AllPieces(queue, maxLen), n, queue[taken].chatId, pieces)
            && Covers(queue, maxLen, taken + 1, n + |pieces|)
  {
    AllPiecesAppend(queue, maxLen, taken);
    AllPiecesPrefix(queue, maxLen, taken + 1);
    hide Pieces;
    hide AllPieces;
    hide CanSplit;
  }

  lemma CoversIs(queue: seq<OutboundMessage>, maxLen: int, taken: nat, n: nat)
    requires CanSplitAll(queue, maxLen) && Covers(queue, maxLen, taken, n)
    ensures CanSplitAll(queue[..taken], maxLen) && n == |AllPieces(queue[..taken], maxLen)|
  {
  }

  /** Between the calls of Send: only transient errors so far, and the first call came with the
      records as the preparation left them. */
  ghost predicate Retrying(calls: seq<Call>, left: Records, now: Records) {
    && |calls| <= MAX_RETRIES
    && (forall i :: 0 <= i < |calls| ==> calls[i].result.Transient())
    && (if calls == [] then now else calls[0].recorded) == left
  }

  lemma OneMoreCall(chatId: string, canEdit: bool, found: Records, calls: seq<Call>, call: Call)
    requires Retrying(calls, found.Without(chatId), call.recorded)
    ensures var more, result := calls + [call], call.result;
            && (result.Sent? ==> Possible(chatId, canEdit, Visit(Some(found), more, Delivered)))
            && (result.Permanent() || (result.Transient() && |calls| == MAX_RETRIES) ==>
                  Possible(chatId, canEdit, Visit(Some(found), more, Failed)))
            && (result.Transient() && |calls| < MAX_RETRIES ==>
                  && Possible(chatId, canEdit, Visit(Some(found), more, Cancelled))
                  && forall now :: Retrying(more, found.Without(chatId), now))
  {
  }

  lemma OneMoreSend(msg: OutboundMessage, calls: seq<Call>, call: Call)
    ensures SendsOf(msg, calls + [call]) == SendsOf(msg, calls) + [Send(msg, call)]
  {
  }

  /** The visits to the first pieces of `all` are possible, and the log grew by their actions. */
  ghost predicate Logged(all: seq<OutboundMessage>, canEdit: bool, visits: seq<Visit>,
                         log0: seq<Action>, log: seq<Action>) {
    AllPossible(all, canEdit, visits) && log == log0 + AllActions(all, canEdit, visits)
  }

  lemma OneMoreOutcome(visits: seq<Visit>, v: Visit)
    ensures SomeCancelled(visits + [v]) <==> SomeCancelled(visits) || v.outcome.Cancelled?
  {
    var more := visits + [v];
    assert more[|visits|] == v && forall i :: 0 <= i < |visits| ==> more[i] == visits[i];
  }

  lemma NothingLogged(all: seq<OutboundMessage>, canEdit: bool, log: seq<Action>)
    ensures Logged(all, canEdit, [], log, log) && !SomeCancelled([])
  {
    assert log + [] == log;
  }

  lemma OneMoreVisit(all: seq<OutboundMessage>, canEdit: bool, visits: seq<Visit>, log0: seq<Action>,
                     log: seq<Action>, v: Visit)
    requires Logged(all, canEdit, visits, log0, log) && |visits| < |all|
    requires Possible(all[|visits|].chatId, canEdit, v)
    ensures Logged(all, canEdit, visits + [v], log0, log + ActionsOf(all[|visits|], canEdit, v))
  {
    ActionsAppend(all, canEdit, visits, v);
    PossibleAppend(all, canEdit, visits, v);
    AppendTwice(log0, AllActions(all, canEdit, visits), ActionsOf(all[|visits|], canEdit, v));
    hide AllPossible;
    hide ActionsOf;
    hide AllActions;
  }

  lemma AppendTwice(a: seq<Action>, b: seq<Action>, c: seq<Action>)
    ensures a + (b + c) == a + b + c
  {
  }

  lemma PossibleAppend(all: seq<OutboundMessage>, canEdit: bool, visits: seq<Visit>, v: Visit)
    requires AllPossible(all, canEdit, visits) && |visits| < |all| && Possible(all[|visits|].chatId, canEdit, v)
    ensures AllPossible(all, canEdit, visits + [v])
  {
    hide Possible;
  }

  predicate SomeCancelled(visits: seq<Visit>) {
    exists i :: 0 <= i < |visits| && visits[i].outcome.Cancelled?
  }

  class ChannelWorker {
    const maxLen: int            // 0 when the channel reports no limit
    const canEdit: bool          // the channel is a MessageEditor
    var typingStops: map<string, nat>     // by chat: the function that stops the indicator
    var reactionUndos: map<string, nat>
    var placeholders: map<string, string>
    var cancelled: bool
    ghost var log: seq<Action>   // everything done to the outside, in order

    constructor (maxLen: int, canEdit: bool)
      ensures this.maxLen == maxLen && this.canEdit == canEdit
      ensures !cancelled && log == [] && Recorded() == Records(map[], map[], map[])
    {
      this.maxLen, this.canEdit := maxLen, canEdit;
      cancelled, log := false, [];
      typingStops, reactionUndos, placeholders := map[], map[], map[];
    }

    ghost function Recorded(): Records
      reads this
    {
      Records(typingStops, reactionUndos, placeholders)
    }

    /** Other goroutines may record indicators and placeholders and cancel the context at any time. */
    method Interfere()
      modifies this`typingStops, this`reactionUndos, this`placeholders, this`cancelled
      ensures old(cancelled) ==> cancelled
    {
      typingStops, reactionUndos, placeholders := *, *, *;
      var c: bool := *;
      cancelled := cancelled || c;
    }

    /** Stops the chat's typing indicator, undoes its reaction, and removes its placeholder, trying to
        edit the content into it. */
    method PreSend(msg: OutboundMessage) returns (edited: bool)
      modifies this`typingStops, this`reactionUndos, this`placeholders, this`log
      ensures Recorded() == old(Recorded()).Without(msg.chatId)
      ensures log == old(log) + Preparation(msg, canEdit, old(Recorded()), edited)
      ensures edited ==> canEdit && old(Recorded()).HasPlaceholder(msg.chatId)
    {
      if msg.chatId in typingStops {
        log := log + [Stop(typingStops[msg.chatId])];
      }
      typingStops := typingStops - {msg.chatId};
      if msg.chatId in reactionUndos {
        log := log + [Undo(reactionUndos[msg.chatId])];
      }
      reactionUndos := reactionUndos - {msg.chatId};
      edited := false;
      if msg.chatId in placeholders {
        var id := placeholders[msg.chatId];
        placeholders := placeholders - {msg.chatId};
        if id != "" && canEdit {
          edited := *;
          log := log + [Edit(id, msg, edited)];
        }
      }
    }

    /** One piece: the wait for the limiter, the preparation, and the calls of Send. */
    method SendWithRetry(msg: OutboundMessage) returns (ghost visit: Visit)
      modifies this
      ensures old(cancelled) ==> cancelled
      ensures Possible(msg.chatId, canEdit, visit)
      ensures visit.outcome.Cancelled? ==> cancelled
      ensures log == old(log) + ActionsOf(msg, canEdit, visit)
    {
      Interfere();
      if cancelled {
        return Visit(None, [], Cancelled);
      }
      ghost var found := Recorded();
      var edited := PreSend(msg);
      if edited {
        return Visit(Some(found), [], Delivered);
      }
      hide Preparation;
      hide Possible;
      ghost var prepared: seq<Action>, calls: seq<Call> := log, [];
      var attempt := 0;
      while attempt <= MAX_RETRIES
        invariant 0 <= attempt <= MAX_RETRIES && |calls| == attempt
        invariant Retrying(calls, found.Without(msg.chatId), Recorded())
        invariant old(cancelled) ==> cancelled
        invariant log == prepared + SendsOf(msg, calls)
      {
        var result: SendResult := *;
        ghost var call := Call(result, Recorded());
        log := log + [Send(msg, call)];
        OneMoreCall(msg.chatId, canEdit, found, calls, call);
        OneMoreSend(msg, calls, call);
        hide Retrying;
        hide SendsOf;
        calls := calls + [call];
        if result.Sent? {
          return Visit(Some(found), calls, Delivered);
        }
        if result.Permanent() {
          return Visit(Some(found), calls, Failed);
        }
        if attempt == MAX_RETRIES {
          return Visit(Some(found), calls, Failed);
        }
        // The backoff, during which the context may be cancelled; when the timer has also fired the
        // select may still choose it.
        Interfere();
        if cancelled {
          var timer: bool := *;
          if !timer {
            return Visit(Some(found), calls, Cancelled);
          }
        }
        attempt := attempt + 1;
      }
    }

    /** Sends the pieces of one message, all of them, whatever happens to each: the visits of the
        pieces `all` processed so far grow by theirs. */
    method SendPieces(msg: OutboundMessage, pieces: seq<string>, ghost before: seq<Visit>,
                      ghost all: seq<OutboundMessage>, ghost log0: seq<Action>)
      returns (ghost visits: seq<Visit>)
      requires ComeNext(all, |before|, msg.chatId, pieces)
      requires Progress(all, before, log0)
      modifies this
      ensures old(cancelled) ==> cancelled
      ensures |visits| == |before| + |pieces| && before <= visits
      ensures Progress(all, visits, log0)
    {
      visits := before;
      for i := 0 to |pieces|
        invariant |visits| == |before| + i && before <= visits
        invariant old(cancelled) ==> cancelled
        invariant Progress(all, visits, log0)
      {
        hide Possible;
        hide ActionsOf;
        hide Logged;
        hide SomeCancelled;
        assert all[|before| + i] == msg.(content := pieces[i]);
        ghost var was := log;
        ghost var visit := SendWithRetry(msg.(content := pieces[i]));
        OneMoreVisit(all, canEdit, visits, log0, was, visit);
        OneMoreOutcome(visits, visit);
        visits := visits + [visit];
      }
    }

    /** The next message taken from the queue. */
    method SendMessage(queue: seq<OutboundMessage>, taken: nat, ghost before: seq<Visit>, ghost log0: seq<Action>)
      returns (ghost visits: seq<Visit>)
      requires CanSplitAll(queue, maxLen) && taken < |queue| && Covers(queue, maxLen, taken, |before|)
      requires Progress(AllPieces(queue, maxLen), before, log0)
      modifies this
      ensures old(cancelled) ==> cancelled
      ensures Covers(queue, maxLen, taken + 1, |visits|) && Progress(AllPieces(queue, maxLen), visits, log0)
    {
      ghost var all := AllPieces(queue, maxLen);
      OneMoreCovered(queue, maxLen, taken, |before|);
      hide *;
      var pieces := PiecesOf(queue[taken].content);
      visits := SendPieces(queue[taken], pieces, before, all, log0);
    }

    /** After the visits to the first pieces of `all`: they are possible, and the log holds their actions. */
    ghost predicate Progress(all: seq<OutboundMessage>, visits: seq<Visit>, log0: seq<Action>)
      reads this
    {
      Logged(all, canEdit, visits, log0, log) && (SomeCancelled(visits) ==> cancelled)
    }

    /** Processes the queue until it is closed or the context is cancelled. The visits cover the pieces of
        the messages taken from the queue: all of them unless cancelled. */
    method RunWorker(queue: seq<OutboundMessage>) returns (ghost visits: seq<Visit>, taken: nat)
      requires CanSplitAll(queue, maxLen)
      modifies this
      ensures Progress(AllPieces(queue, maxLen), visits, old(log))
      ensures taken <= |queue| && CanSplitAll(queue[..taken], maxLen)
      ensures |visits| == |AllPieces(queue[..taken], maxLen)|
      ensures !cancelled ==> taken == |queue|
    {
      ghost var all := AllPieces(queue, maxLen);
      visits, taken := [], 0;
      NothingLogged(all, canEdit, log);
      hide Logged;
      hide SomeCancelled;
      assert Progress(all, visits, log);
      NoneCovered(queue, maxLen);
      hide Pieces;
      hide Progress;
      hide AllPieces;
      hide Covers;
      hide CanSplit;
      while taken < |queue|
        invariant 0 <= taken <= |queue| && Covers(queue, maxLen, taken, |visits|)
        invariant old(cancelled) ==> cancelled
        invariant Progress(all, visits, old(log))
      {
        // When the context is cancelled the select may choose to stop.
        Interfere();
        if cancelled {
          var stop: bool := *;
          if stop {
            break;
          }
        }
        visits := SendMessage(queue, taken, visits, old(log));
        taken := taken + 1;
      }
      CoversIs(queue, maxLen, taken, |visits|);
    }

    /** The pieces of a message: split when it is longer than the channel's limit. */
    method PiecesOf(content: string) returns (pieces: seq<string>)
      requires CanSplit(content, maxLen)
      ensures pieces == Pieces(content, maxLen)
    {
      if maxLen > 0 && |content| > maxLen {
        pieces := SplitMessage(content, maxLen);
      } else {
        pieces := [content];
      }
    }
  }
}
