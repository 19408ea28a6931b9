/** What the email manager's calls achieve: each step of the protocol is what the manager's
    locked regions do, and a call that is answered in a given way has a given effect. */
module EmailCalls {
  import opened EmailManager
  import opened EmailProtocol

  // ----- The protocol's steps, run on the manager -----

  /** The next step of call i on the manager, and what the call does after it. */
  method RunStep(m: Manager, s: State, i: nat, a: Answers) returns (next: Call)
    requires m.Contents() == s.tables && i < |s.calls|
    modifies m
    ensures m.Contents() == Step(s, i, a).tables && next == Step(s, i, a).calls[i]
  {
    next := Done;
    match s.calls[i] {
      case Starting(todo) =>
        if todo != [] {
          if a.readable {
            var _, _ := m.StartProvider(todo[0], if a.starts then Running(s.total) else NotRunning);
          }
          next := Starting(todo[1..]);
        }
      case Refreshing(provider) =>
        assert provider !in s.tables.conns ==> s.tables.conns - {provider} == s.tables.conns;
        var taken := m.TakeProvider(provider);
        if taken == {} {
          next := Restarting;
        } else {
          var r :| r in taken;
          next := StopOld(r);
        }
      case StopOld(r) =>
        next := Restarting;
      case Restarting =>
        if a.readable {
          var _, _ := m.StartProvider(a.provider, if a.starts then Running(s.total) else NotRunning);
        }
      case ShuttingDown =>
        var taken := m.TakeAll();
        next := StopAll(taken.Values);
      case StopAll(rs) =>
        next := StopAll(rs - {a.pick});
      case Done =>
    }
  }

  // ----- Start -----

  /** The next steps of call i, answered in this way, with no other step in between. */
  function Steps(s: State, i: nat, answers: seq<Answers>): (s': State)
    requires i < |s.calls|
    ensures |s'.calls| == |s.calls|
    decreases |answers|
  {
    if answers == [] then s else Steps(Step(s, i, answers[0]), i, answers[1..])
  }

  /** Some attempt to start a receiver for the provider succeeds. */
  predicate Attempted(providers: seq<string>, answers: seq<Answers>, id: string)
    requires |providers| <= |answers|
  {
    exists k :: 0 <= k < |providers| && providers[k] == id && answers[k].readable && answers[k].starts
  }

  lemma AttemptedHead(providers: seq<string>, answers: seq<Answers>, id: string)
    requires 0 < |providers| <= |answers|
    ensures Attempted(providers, answers, id) <==>
              (providers[0] == id && answers[0].readable && answers[0].starts)
              || Attempted(providers[1..], answers[1..], id)
  {
    if k :| 0 <= k < |providers| && providers[k] == id && answers[k].readable && answers[k].starts {
      if k > 0 {
        assert providers[1..][k - 1] == id && answers[1..][k - 1] == answers[k];
      }
    }
  }

  /** More receivers run, for the providers whose attempts succeed, and nothing else changes. */
  ghost predicate Adds(s: State, s': State, providers: seq<string>, answers: seq<Answers>)
    requires |providers| <= |answers|
  {
    && s'.stops == s.stops && s'.tables.stopped == s.tables.stopped && s.total <= s'.total
    && (forall id :: id in s'.tables.conns <==>
          id in s.tables.conns || (!s.tables.stopped && Attempted(providers, answers, id)))
    && (forall id :: id in s.tables.conns ==> s'.tables.conns[id] == s.tables.conns[id])
    && (forall id :: id in s'.tables.conns && id !in s.tables.conns ==> s.total <= s'.tables.conns[id] < s'.total)
    && (forall r: nat :: r in s'.live <==> r in s.live || s.total <= r < s'.total)
  }

  lemma {:induction false} StartSteps(s: State, i: nat, todo: seq<string>, answers: seq<Answers>)
    requires i < |s.calls| && s.calls[i] == Starting(todo) && |answers| == |todo| + 1
    ensures Adds(s, Steps(s, i, answers), todo, answers) && Steps(s, i, answers).calls == s.calls[i := Done]
    decreases |todo|
  {
    if todo == [] {
      assert answers[1..] == [];
    } else {
      var world := if answers[0].readable then StartProvider(s, todo[0], answers[0].starts) else s;
      var next := Goto(world, i, Starting(todo[1..]));
      assert Step(s, i, answers[0]) == next;
      StartSteps(next, i, todo[1..], answers[1..]);
      AddsMore(s, next, Steps(s, i, answers), todo, answers);
    }
  }

  lemma AddsMore(s: State, next: State, s': State, todo: seq<string>, answers: seq<Answers>)
    requires 0 < |todo| <= |answers| && Adds(next, s', todo[1..], answers[1..])
    requires var world := if answers[0].readable then StartProvider(s, todo[0], answers[0].starts) else s;
             next.tables == world.tables && next.live == world.live && next.stops == world.stops
             && next.total == world.total
    ensures Adds(s, s', todo, answers)
  {
    hide Attempted;
    forall id
      ensures Attempted(todo, answers, id) <==>
                (todo[0] == id && answers[0].readable && answers[0].starts) || Attempted(todo[1..], answers[1..], id)
    {
      AttemptedHead(todo, answers, id);
    }
  }

  /** Start, uninterrupted: a manager that is not stopped tracks a new receiver for exactly
      those providers without one that have a readable binding and whose receiver starts. */
  lemma StartAchieves(s: State, providers: seq<string>, answers: seq<Answers>)
    requires |answers| == |providers| + 1
    ensures var s' := Steps(Apply(s, Start(providers)), |s.calls|, answers);
            Adds(s, s', providers, answers) && s'.calls == s.calls + [Done]
  {
    hide Adds, Steps;
    var b := Apply(s, Start(providers));
    StartSteps(b, |s.calls|, providers, answers);
    SameAdds(s, b, Steps(b, |s.calls|, answers), providers, answers);
  }

  lemma SameAdds(s: State, b: State, s': State, providers: seq<string>, answers: seq<Answers>)
    requires |providers| <= |answers| && b == s.(calls := b.calls) && Adds(b, s', providers, answers)
    ensures Adds(s, s', providers, answers)
  {
    hide Attempted;
  }

  // ----- RefreshProvider -----

  /** RefreshProvider, uninterrupted: the receiver of the provider has stopped, a new one runs
      in its place iff the manager is not stopped, the provider is readable and the receiver
      starts, and no other provider is touched. */
  lemma RefreshAchieves(s: State, id: string, a: Answers)
    requires Inv(s) && a.provider == id
    ensures var s' := Steps(Apply(s, Refresh(id)), |s.calls|, [a, a, a]);
            var had := if id in s.tables.conns then {s.tables.conns[id]} else {};
            var runs := !s.tables.stopped && a.readable && a.starts;
            && s'.calls == s.calls + [Done]
            && s'.tables == s.tables.(conns := if runs then s.tables.conns[id := s.total] else s.tables.conns - {id})
            && s'.live == s.live - had + (if runs then {s.total} else {})
            && s'.stops == s.stops + (if id in s.tables.conns then [s.tables.conns[id]] else [])
            && s'.total == (if runs then s.total + 1 else s.total) && s.total !in s.live
  {
    hide OneOwnerEach, Inv, Steps;
    var i, b := |s.calls|, Apply(s, Refresh(id));
    ThreeSteps(b, i, a);
    assert s.total !in s.live && (s.tables.stopped ==> s.tables.conns == map[]) by { InvMeans(s); }
    assert id !in s.tables.conns ==> s.tables.conns - {id} == s.tables.conns;
    var s1 := Step(b, i, a);
    if id in s.tables.conns {
      var s2 := StopReceiver(s.(tables := Without(s.tables, id)), s.tables.conns[id]);
      assert s1 == s.(tables := Without(s.tables, id), calls := s.calls + [StopOld(s.tables.conns[id])]);
      assert Step(s1, i, a) == s2.(calls := s.calls + [Restarting]);
      Restarts(s2, i, s.calls, id, a);
      assert s.tables.conns[id := s.total] == (s.tables.conns - {id})[id := s.total];
    } else {
      assert s1 == s.(calls := s.calls + [Restarting]);
      Restarts(s, i, s.calls, id, a);
    }
  }

  /** The last step of a refresh, in any world w. */
  lemma Restarts(w: State, i: nat, calls: seq<Call>, id: string, a: Answers)
    requires i == |calls| && a.provider == id
    ensures var before := w.(calls := calls + [Restarting]);
            var after := (if a.readable then StartProvider(w, id, a.starts) else w).(calls := calls + [Done]);
            Step(before, i, a) == after && Step(after, i, a) == after
  {
    assert (calls + [Restarting])[i := Done] == calls + [Done];
  }

  lemma InvMeans(s: State)
    requires Inv(s)
    ensures s.total !in s.live && (s.tables.stopped ==> s.tables.conns == map[])
  {
    hide OneOwnerEach;
  }

  lemma ThreeSteps(s: State, i: nat, a: Answers)
    requires i < |s.calls|
    ensures Steps(s, i, [a, a, a]) == Step(Step(Step(s, i, a), i, a), i, a)
  {
    assert [a, a, a][1..] == [a, a] && [a, a][1..] == [a] && [a][1..] == [];
    var s1 := Step(s, i, a);
    assert Steps(s, i, [a, a, a]) == Steps(s1, i, [a, a]);
    assert Steps(s1, i, [a, a]) == Steps(Step(s1, i, a), i, [a]);
  }

  // ----- Stop -----

  /** Stop visits the receivers it has taken, in some order. */
  function Picks(receivers: seq<nat>): seq<Answers> {
    seq(|receivers|, k requires 0 <= k < |receivers| => Answers(true, "", true, receivers[k]))
  }

  function SetOf(receivers: seq<nat>): set<nat> {
    set r | r in receivers
  }

  lemma {:induction false} StopSteps(s: State, i: nat, receivers: seq<nat>)
    requires i < |s.calls| && s.calls[i] == StopAll(SetOf(receivers))
    requires forall j, k :: 0 <= j < k < |receivers| ==> receivers[j] != receivers[k]
    ensures Steps(s, i, Picks(receivers))
            == s.(live := s.live - SetOf(receivers), stops := s.stops + receivers, calls := s.calls[i := StopAll({})])
    decreases |receivers|
  {
    if receivers == [] {
      assert SetOf(receivers) == {} && s.live - {} == s.live && s.stops + [] == s.stops;
    } else {
      var first, rest := receivers[0], receivers[1..];
      SetOfRest(receivers);
      assert Picks(receivers)[1..] == Picks(rest);
      var next := Goto(StopReceiver(s, first), i, StopAll(SetOf(rest)));
      assert Step(s, i, Picks(receivers)[0]) == next;
      StopSteps(next, i, rest);
      assert s.live - {first} - SetOf(rest) == s.live - SetOf(receivers);
      assert s.stops + [first] + rest == s.stops + receivers;
    }
  }

  lemma SetOfRest(receivers: seq<nat>)
    requires receivers != [] && forall j, k :: 0 <= j < k < |receivers| ==> receivers[j] != receivers[k]
    ensures SetOf(receivers[1..]) == SetOf(receivers) - {receivers[0]} && receivers[0] in SetOf(receivers)
    ensures receivers == [receivers[0]] + receivers[1..]
  {
    assert receivers == [receivers[0]] + receivers[1..];
  }

  /** Stop, uninterrupted: the manager is stopped and tracks nothing, and every receiver it
      tracked has been asked to stop, once. */
  lemma StopAchieves(s: State, receivers: seq<nat>, a: Answers)
    requires SetOf(receivers) == s.tables.conns.Values
    requires forall j, k :: 0 <= j < k < |receivers| ==> receivers[j] != receivers[k]
    ensures var s' := Steps(Apply(s, Stop), |s.calls|, [a] + Picks(receivers));
            && s'.tables == CLOSED && s'.total == s.total && s'.calls == s.calls + [StopAll({})]
            && s'.live == s.live - s.tables.conns.Values && s'.stops == s.stops + receivers
  {
    hide Picks;
    var i, b := |s.calls|, Apply(s, Stop);
    assert ([a] + Picks(receivers))[1..] == Picks(receivers);
    var next := Step(b, i, a);
    StopSteps(next, i, receivers);
  }
}
