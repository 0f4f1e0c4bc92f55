/** The per-session lock of message processing, a map from session key to the holder's own
    timestamp, under every interleaving of calls and of the clock. */
module SessionLock {
  import opened Options

  const SESSION_LOCK_TTL: nat := 600   // ten minutes in seconds

  /** Where a call is: with its timestamp taken, having found a stale lock to overwrite, between
      taking the lock and its deferred deletion, or returned. */
  datatype Stage = Stamped | Evicting | Holding | Blocked | Returned

  datatype Call = Call(key: string, stamp: nat, stage: Stage)

  datatype State = State(clock: nat, busy: map<string, nat>, calls: map<nat, Call>)

  datatype Step = Advance(seconds: nat) | Enter(id: nat, key: string) | Act(id: nat)

  function Empty(): State { State(0, map[], map[]) }

  function Moved(s: State, id: nat, stage: Stage): State
    requires id in s.calls
  {
    s.(calls := s.calls[id := s.calls[id].(stage := stage)])
  }

  /** LoadOrStore, the overwriting store of a takeover, and the deferred deletion. */
  function CallStep(s: State, id: nat): Option<State>
    requires id in s.calls
  {
    var c := s.calls[id];
    match c.stage
    case Stamped =>
      if c.key !in s.busy then Some(Moved(s, id, Holding).(busy := s.busy[c.key := c.stamp]))
      else if c.stamp - s.busy[c.key] > SESSION_LOCK_TTL then Some(Moved(s, id, Evicting))
      else Some(Moved(s, id, Blocked))
    case Evicting => Some(Moved(s, id, Holding).(busy := s.busy[c.key := c.stamp]))
    case Holding => Some(Moved(s, id, Returned).(busy := s.busy - {c.key}))
    case _ => None
  }

  function Next(s: State, step: Step): Option<State> {
    match step
    case Advance(seconds) => Some(s.(clock := s.clock + seconds))
    case Enter(id, key) =>
      if id in s.calls then None else Some(s.(calls := s.calls[id := Call(key, s.clock, Stamped)]))
    case Act(id) => if id in s.calls then CallStep(s, id) else None
  }

  predicate Holds(s: State, id: nat, key: string) {
    id in s.calls && s.calls[id].key == key && s.calls[id].stage.Holding?
  }

  /** No holder has kept its lock longer than the TTL, measured from its own timestamp. */
  ghost predicate NoOverstay(s: State) {
    forall id :: id in s.calls && s.calls[id].stage.Holding? ==> s.clock - s.calls[id].stamp <= SESSION_LOCK_TTL
  }

  /** At most one call per key is between taking the lock and its deferred deletion. */
  ghost predicate Exclusive(s: State) {
    forall a, b, key :: Holds(s, a, key) && Holds(s, b, key) ==> a == b
  }

  ghost predicate NoTakeover(s: State) {
    forall id :: id in s.calls ==> !s.calls[id].stage.Evicting?
  }

  /** The map holds exactly the locks of the calls that hold one, with their timestamps. */
  ghost predicate Valid(s: State) {
    && Exclusive(s) && NoTakeover(s)
    && (forall id :: id in s.calls ==> s.calls[id].stamp <= s.clock)
    && (forall id :: id in s.calls && s.calls[id].stage.Holding? ==>
          s.calls[id].key in s.busy && s.busy[s.calls[id].key] == s.calls[id].stamp)
    && (forall key :: key in s.busy ==> exists id :: Holds(s, id, key))
  }

  lemma NextKeepsValid(s: State, step: Step)
    requires Valid(s) && NoOverstay(s) && Next(s, step).Some?
    ensures Valid(Next(s, step).value)
  {
    var n := Next(s, step).value;
    match step
    case Advance(_) =>
      assert forall a, key :: Holds(n, a, key) ==> Holds(s, a, key);
      forall key | key in n.busy ensures exists id :: Holds(n, id, key) {
        var id :| Holds(s, id, key);
        assert Holds(n, id, key);
      }
    case Enter(e, _) =>
      forall key | key in n.busy ensures exists id :: Holds(n, id, key) {
        var id :| Holds(s, id, key);
        assert Holds(n, id, key);
      }
      assert forall a, key :: Holds(n, a, key) ==> Holds(s, a, key);
    case Act(id) => CallKeepsValid(s, id);
  }

  lemma CallKeepsValid(s: State, id: nat)
    requires Valid(s) && NoOverstay(s) && id in s.calls && CallStep(s, id).Some?
    ensures Valid(CallStep(s, id).value)
  {
    var n := CallStep(s, id).value;
    var c := s.calls[id];
    match c.stage
    case Stamped =>
      if c.key in s.busy {
        var holder :| Holds(s, holder, c.key);
        assert n == Moved(s, id, Blocked);
      }
      forall key | key in n.busy ensures exists h :: Holds(n, h, key) {
        if key in s.busy {
          var h :| Holds(s, h, key);
          assert Holds(n, h, key);
        } else {
          assert Holds(n, id, key);
        }
      }
      forall a, key | Holds(n, a, key) ensures a == id || Holds(s, a, key) {}
    case Holding =>
      assert Holds(s, id, c.key);
      forall key | key in n.busy ensures exists h :: Holds(n, h, key) {
        var h :| Holds(s, h, key);
        assert Holds(n, h, key);
      }
      forall a, key | Holds(n, a, key) ensures Holds(s, a, key) && key != c.key {
        assert a != id && Holds(s, a, key);
      }
      forall a | a in n.calls && n.calls[a].stage.Holding?
        ensures n.calls[a].key in n.busy && n.busy[n.calls[a].key] == n.calls[a].stamp
      {
        assert Holds(n, a, n.calls[a].key);
      }
  }

  function Run(s: State, steps: seq<Step>): Option<State>
    decreases |steps|
  {
    if steps == [] then Some(s) else
    var n := Next(s, steps[0]);
    if n.None? then None else Run(n.value, steps[1..])
  }

  /** No state of the run, the last one included, has a holder past its TTL. */
  ghost predicate NeverOverstayed(s: State, steps: seq<Step>)
    decreases |steps|
  {
    NoOverstay(s) && (steps != [] && Next(s, steps[0]).Some? ==> NeverOverstayed(Next(s, steps[0]).value, steps[1..]))
  }

  lemma {:induction false} RunKeepsValid(s: State, steps: seq<Step>)
    requires Valid(s) && Run(s, steps).Some? && NeverOverstayed(s, steps)
    ensures Valid(Run(s, steps).value)
    decreases |steps|
  {
    hide Valid;
    hide Next;
    hide NoOverstay;
    if steps != [] {
      NextKeepsValid(s, steps[0]);
      RunKeepsValid(Next(s, steps[0]).value, steps[1..]);
    }
  }

  /** If no holder keeps its lock longer than the TTL, at most one call per session is ever inside,
      and no lock is ever taken over. */
  lemma MutualExclusion(steps: seq<Step>)
    requires Run(Empty(), steps).Some? && NeverOverstayed(Empty(), steps)
    ensures var s := Run(Empty(), steps).value; Exclusive(s) && NoTakeover(s)
  {
    RunKeepsValid(Empty(), steps);
  }

  /** A call takes a lock over exactly when the holder's timestamp is more than the TTL behind its own. */
  lemma TakeoverIff(s: State, id: nat, holder: nat)
    requires Valid(s) && id in s.calls && s.calls[id].stage.Stamped? && Holds(s, holder, s.calls[id].key)
    ensures CallStep(s, id).Some?
    ensures CallStep(s, id).value.calls[id].stage.Evicting?
            <==> s.calls[id].stamp - s.calls[holder].stamp > SESSION_LOCK_TTL
  {
  }

  /** All steps are those of one call. */
  predicate OwnSteps(steps: seq<Step>, id: nat) {
    forall i :: 0 <= i < |steps| ==> steps[i] == Act(id)
  }

  /** A call that begins now gets inside by its own steps, beside a holder. */
  ghost predicate GetsBeside(s: State, key: string, id: nat, holder: nat) {
    && id !in s.calls && Holds(s, holder, key)
    && exists steps :: && OwnSteps(steps, id) && Run(Next(s, Enter(id, key)).value, steps).Some?
                       && var n := Run(Next(s, Enter(id, key)).value, steps).value;
                          Holds(n, id, key) && Holds(n, holder, key)
  }

  lemma BlockedStaysOut(s: State, steps: seq<Step>, id: nat)
    requires id in s.calls && s.calls[id].stage.Blocked? && OwnSteps(steps, id) && Run(s, steps).Some?
    ensures steps == []
  {
    assert Next(s, Act(id)).None?;
  }

  /** From any state a second call gets inside beside a holder exactly when that holder is past its
      TTL. */
  lemma GetsBesideIff(s: State, key: string, id: nat, holder: nat)
    requires Valid(s) && Holds(s, holder, key) && id !in s.calls
    ensures GetsBeside(s, key, id, holder) <==> s.clock - s.calls[holder].stamp > SESSION_LOCK_TTL
  {
    var entered := Next(s, Enter(id, key)).value;
    var next := Next(entered, Act(id)).value;
    if s.clock - s.calls[holder].stamp > SESSION_LOCK_TTL {
      var steps := [Act(id), Act(id)];
      assert steps[1..] == [Act(id)] && steps[1..][1..] == [];
      var inside := Next(next, Act(id)).value;
      assert Run(entered, steps) == Run(next, [Act(id)]) == Some(inside);
      assert Holds(inside, id, key) && Holds(inside, holder, key);
    } else if GetsBeside(s, key, id, holder) {
      var steps :| && OwnSteps(steps, id) && Run(entered, steps).Some?
                   && Holds(Run(entered, steps).value, id, key) && Holds(Run(entered, steps).value, holder, key);
      if steps != [] {
        assert steps[0] == Act(id);
        assert next.calls[id].stage.Blocked?;
        BlockedStaysOut(next, steps[1..], id);
      }
    }
  }

  /** A call that begins now gets inside by its own steps exactly when no call is inside, or only one past
      its TTL. */
  lemma EntersIff(s: State, key: string, id: nat)
    requires Valid(s) && id !in s.calls
    ensures (exists steps :: OwnSteps(steps, id) && GetsIn(s, key, id, steps))
            <==> forall holder: nat :: Holds(s, holder, key) ==> s.clock - s.calls[holder].stamp > SESSION_LOCK_TTL
  {
    var entered := Next(s, Enter(id, key)).value;
    var next := Next(entered, Act(id)).value;
    if key !in s.busy {
      var steps := [Act(id)];
      assert steps[1..] == [] && Run(entered, steps) == Run(next, []) == Some(next);
      assert OwnSteps(steps, id) && GetsIn(s, key, id, steps);
    } else {
      var holder :| Holds(s, holder, key);
      assert forall other: nat :: Holds(s, other, key) ==> other == holder;
      GetsBesideIff(s, key, id, holder);
      if s.clock - s.calls[holder].stamp > SESSION_LOCK_TTL {
        var steps :| OwnSteps(steps, id) && Run(entered, steps).Some? && Holds(Run(entered, steps).value, id, key);
        assert GetsIn(s, key, id, steps);
      } else {
        forall steps | OwnSteps(steps, id) ensures !GetsIn(s, key, id, steps) {
          if Run(entered, steps).Some? && steps != [] {
            assert steps[0] == Act(id) && next.calls[id].stage.Blocked?;
            BlockedStaysOut(next, steps[1..], id);
          }
        }
      }
    }
  }

  predicate GetsIn(s: State, key: string, id: nat, steps: seq<Step>)
    requires id !in s.calls
  {
    var n := Run(Next(s, Enter(id, key)).value, steps);
    n.Some? && Holds(n.value, id, key)
  }

  /** A holder that returns leaves the session free, and every other session's lock alone. */
  lemma ReturningFrees(s: State, id: nat, key: string)
    requires Valid(s) && Holds(s, id, key)
    ensures Next(s, Act(id)).Some?
    ensures var n := Next(s, Act(id)).value;
            && n.calls[id].stage.Returned? && n.busy.Keys == s.busy.Keys - {key}
            && (forall other: nat :: !Holds(n, other, key))
            && (forall other: nat, k :: k != key ==> (Holds(n, other, k) <==> Holds(s, other, k)))
  {
    var n := Next(s, Act(id)).value;
    forall other: nat ensures !Holds(n, other, key) {
      assert Holds(n, other, key) ==> Holds(s, other, key);
    }
  }

  /** The state after the first i steps. */
  function StateAt(steps: seq<Step>, i: nat): State
    requires i <= |steps| && Run(Empty(), steps[..i]).Some?
  {
    Run(Empty(), steps[..i]).value
  }

  lemma {:induction false} PrefixRuns(s: State, steps: seq<Step>, i: nat)
    requires Run(s, steps).Some? && i <= |steps|
    ensures Run(s, steps[..i]).Some?
    decreases |steps|
  {
    if i > 0 {
      assert steps[..i][1..] == steps[1..][..i - 1];
      PrefixRuns(Next(s, steps[0]).value, steps[1..], i - 1);
    }
  }

  lemma {:induction false} ValidUntilOverstay(s: State, steps: seq<Step>, i: nat)
    requires Valid(s) && Run(s, steps).Some? && i <= |steps|
    requires forall j :: 0 <= j < i ==> Run(s, steps[..j]).Some? && NoOverstay(Run(s, steps[..j]).value)
    ensures Run(s, steps[..i]).Some? && Valid(Run(s, steps[..i]).value)
    decreases |steps|
  {
    hide Valid;
    hide NoOverstay;
    if i > 0 {
      var n := Next(s, steps[0]).value;
      assert steps[..0] == [] && NoOverstay(Run(s, steps[..0]).value);
      assert steps[..i][1..] == steps[1..][..i - 1];
      forall j | 0 <= j < i - 1
        ensures Run(n, steps[1..][..j]).Some? && NoOverstay(Run(n, steps[1..][..j]).value)
      {
        assert steps[..j + 1][1..] == steps[1..][..j];
        assert Run(s, steps[..j + 1]).Some? && NoOverstay(Run(s, steps[..j + 1]).value);
        hide Next;
      }
      NextKeepsValid(s, steps[0]);
      hide Next;
      ValidUntilOverstay(n, steps[1..], i - 1);
    }
  }

  lemma FreshCall(s: State) returns (id: nat)
    ensures id !in s.calls
  {
    id := FreshId(s.calls.Keys);
  }

  lemma {:induction false} FreshId(ids: set<nat>) returns (id: nat)
    ensures forall i :: i in ids ==> i < id
  {
    if ids == {} {
      id := 0;
    } else {
      var i :| i in ids;
      var rest := FreshId(ids - {i});
      id := if i < rest then rest else i + 1;
      forall j | j in ids ensures j < id {
        assert j == i || j in ids - {i};
      }
    }
  }

  /** At some moment of the run a call that begins then gets inside a session beside a holder. */
  ghost predicate SecondCanEnter(steps: seq<Step>) {
    exists i, key, id, holder :: 0 <= i <= |steps| && Run(Empty(), steps[..i]).Some?
                                 && GetsBeside(StateAt(steps, i), key, id, holder)
  }

  ghost predicate SomeoneOverstays(steps: seq<Step>) {
    exists i :: 0 <= i <= |steps| && Run(Empty(), steps[..i]).Some? && !NoOverstay(StateAt(steps, i))
  }

  /** The exact condition, over every run: a second call can get inside a session beside a holder at
      some moment of the run exactly when at some moment of it some holder is past its TTL. */
  lemma ExclusionFailsIff(steps: seq<Step>)
    requires Run(Empty(), steps).Some?
    ensures SecondCanEnter(steps) <==> SomeoneOverstays(steps)
  {
    if SomeoneOverstays(steps) {
      var i := FirstOverstay(steps);
      var s := StateAt(steps, i);
      var holder :| holder in s.calls && s.calls[holder].stage.Holding?
                    && s.clock - s.calls[holder].stamp > SESSION_LOCK_TTL;
      var id := FreshCall(s);
      GetsBesideIff(s, s.calls[holder].key, id, holder);
      assert GetsBeside(StateAt(steps, i), s.calls[holder].key, id, holder);
    } else if SecondCanEnter(steps) {
      var i, key, id, holder :| 0 <= i <= |steps| && Run(Empty(), steps[..i]).Some?
                                && GetsBeside(StateAt(steps, i), key, id, holder);
      var s := StateAt(steps, i);
      forall j | 0 <= j <= |steps|
        ensures Run(Empty(), steps[..j]).Some? && NoOverstay(Run(Empty(), steps[..j]).value)
      {
        PrefixRuns(Empty(), steps, j);
        assert NoOverstay(StateAt(steps, j));
      }
      ValidUntilOverstay(Empty(), steps, i);
      assert Holds(s, holder, key) && NoOverstay(s);
      GetsBesideIff(s, key, id, holder);
    }
  }

  /** Before the first overstay every state is valid. */
  lemma FirstOverstay(steps: seq<Step>) returns (i: nat)
    requires Run(Empty(), steps).Some? && SomeoneOverstays(steps)
    ensures i <= |steps| && Run(Empty(), steps[..i]).Some?
    ensures !NoOverstay(StateAt(steps, i)) && Valid(StateAt(steps, i))
  {
    i := 0;
    PrefixRuns(Empty(), steps, 0);
    while NoOverstay(StateAt(steps, i))
      invariant i <= |steps| && Run(Empty(), steps[..i]).Some?
      invariant forall j :: 0 <= j < i ==> Run(Empty(), steps[..j]).Some? && NoOverstay(StateAt(steps, j))
      decreases |steps| - i
    {
      if i == |steps| {
        assert false;
      }
      i := i + 1;
      PrefixRuns(Empty(), steps, i);
    }
    ValidUntilOverstay(Empty(), steps, i);
  }

  /** A holder that returns deletes the lock whoever has it: beside a second call inside, a third
      then enters. */
  lemma ReturnLetsThirdIn(s: State, key: string, first: nat, second: nat, third: nat, steps: seq<Step>)
    requires Holds(s, first, key) && Holds(s, second, key) && first != second && third !in s.calls
    requires steps == [Act(first), Enter(third, key), Act(third)]
    ensures Run(s, steps).Some?
    ensures Holds(Run(s, steps).value, second, key) && Holds(Run(s, steps).value, third, key)
  {
    var s1 := Next(s, steps[0]).value;
    assert key !in s1.busy && Holds(s1, second, key);
    var s2 := Next(s1, steps[1]).value;
    assert Holds(Next(s2, steps[2]).value, second, key) && Holds(Next(s2, steps[2]).value, third, key);
    hide Run;
    RunOne(s2, steps, 2);
    RunOne(s1, steps, 1);
    RunOne(s, steps, 0);
    assert steps[0..] == steps;
  }

  /** From every state with a holder past its TTL: a second call gets inside beside it, and when the
      first returns it deletes the second's lock, so that a third enters as well. */
  lemma OverstayBreaksExclusion(s: State, key: string, first: nat, second: nat, third: nat)
    returns (steps: seq<Step>, middle: State)
    requires Valid(s) && Holds(s, first, key) && s.clock - s.calls[first].stamp > SESSION_LOCK_TTL
    requires second !in s.calls && third !in s.calls && second != third
    ensures |steps| >= 3 && Run(s, steps[..3]) == Some(middle)
    ensures Holds(middle, first, key) && Holds(middle, second, key)
    ensures Run(s, steps).Some?
    ensures Holds(Run(s, steps).value, second, key) && Holds(Run(s, steps).value, third, key)
  {
    var enter, leave := [Enter(second, key), Act(second), Act(second)], [Act(first), Enter(third, key), Act(third)];
    var s1 := Next(s, enter[0]).value;
    var s2 := Next(s1, enter[1]).value;
    assert s2.calls[second].stage.Evicting?;
    middle := Next(s2, enter[2]).value;
    assert Holds(middle, first, key) && Holds(middle, second, key) && third !in middle.calls;
    steps := enter + leave;
    ReturnLetsThirdIn(middle, key, first, second, third, leave);
    hide Run;
    RunOne(s2, enter, 2);
    RunOne(s1, enter, 1);
    RunOne(s, enter, 0);
    assert enter[0..] == enter && steps[..3] == enter && steps[3..] == leave;
    RunOne(s2, steps, 2);
    RunOne(s1, steps, 1);
    RunOne(s, steps, 0);
    assert steps[0..] == steps;
  }

  lemma RunOne(s: State, steps: seq<Step>, i: nat)
    requires i < |steps| && Next(s, steps[i]).Some?
    ensures Run(s, steps[i..]) == Run(Next(s, steps[i]).value, steps[i + 1..])
    ensures i + 1 == |steps| ==> Run(s, steps[i..]) == Next(s, steps[i])
  {
    assert steps[i..][1..] == steps[i + 1..];
  }

  // ------------------------------------------------------------ the calls

  lemma OthersLeaveMe(s: State, step: Step, me: nat)
    requires me in s.calls && Next(s, step).Some? && step != Act(me)
    ensures me in Next(s, step).value.calls && Next(s, step).value.calls[me] == s.calls[me]
  {
  }

  class Sessions {
    var s: State
    ghost var overstayed: bool   // some holder has been past its TTL
    ghost var worked: seq<nat>   // the calls whose work was done here, in order

    ghost predicate Inv()
      reads this
    {
      !overstayed ==> Valid(s) && NoOverstay(s)
    }

    constructor ()
      ensures Inv() && s == Empty() && !overstayed && worked == []
    {
      s, overstayed, worked := Empty(), false, [];
    }

    method Do(step: Step)
      requires Inv() && Next(s, step).Some?
      modifies this`s, this`overstayed
      ensures Inv() && s == Next(old(s), step).value
      ensures overstayed <==> old(overstayed) || !NoOverstay(s)
    {
      if !overstayed { NextKeepsValid(s, step); }
      s := Next(s, step).value;
      overstayed := overstayed || !NoOverstay(s);
    }

    /** Any number of steps of the clock and of other calls. */
    method Yield(me: nat)
      requires Inv() && me in s.calls
      modifies this`s, this`overstayed
      ensures Inv() && me in s.calls && s.calls[me] == old(s.calls[me])
      ensures old(overstayed) ==> overstayed
    {
      var n: nat := *;
      while n > 0
        invariant Inv() && me in s.calls && s.calls[me] == old(s.calls[me])
        invariant old(overstayed) ==> overstayed
      {
        var step: Step := *;
        if step != Act(me) && Next(s, step).Some? {
          OthersLeaveMe(s, step, me);
          Do(step);
        }
        n := n - 1;
      }
    }

    /** The work on the session: meanwhile no other call is inside, unless some holder overstayed. */
    method RunAgentLoop(me: nat, key: string)
      requires Inv() && Holds(s, me, key)
      modifies this
      ensures Inv() && Holds(s, me, key) && worked == old(worked) + [me]
      ensures !overstayed ==> forall other: nat :: Holds(s, other, key) ==> other == me
    {
      Yield(me);
      worked := worked + [me];
      if !overstayed {
        assert Holds(s, me, key);
        forall other: nat | Holds(s, other, key) ensures other == me {
          assert Exclusive(s);
        }
      }
    }

    /** Runs the message or refuses it because another call is inside. */
    method ProcessMessage(me: nat, key: string) returns (ran: bool)
      requires Inv() && me !in s.calls
      modifies this
      ensures Inv() && me in s.calls && s.calls[me].key == key
      ensures s.calls[me].stage == if ran then Returned else Blocked
      ensures worked == if ran then old(worked) + [me] else old(worked)
    {
      Do(Enter(me, key));
      Yield(me);
      Do(Act(me));
      if s.calls[me].stage.Blocked? {
        return false;
      }
      if s.calls[me].stage.Evicting? {
        Yield(me);
        Do(Act(me));
      }
      RunAgentLoop(me, key);
      Do(Act(me));
      return true;
    }
  }
}
