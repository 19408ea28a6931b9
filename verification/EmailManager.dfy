/** The email receivers: providers are started, refreshed and stopped by calls that run at
    once. The table of receivers is changed only by the locked regions of this class. */
module EmailManager {
  /** Receivers are numbered in the order in which they are started. */
  datatype Tables = Tables(conns: map<string, nat>, stopped: bool)

  /** What comes of asking for a receiver: none is registered or it does not start. */
  datatype StartOutcome = Running(receiver: nat) | NotRunning

  datatype Result = Ok | ManagerStopped | StartFailed

  /** Only then is a receiver asked to start. */
  predicate Wanted(t: Tables, provider: string) {
    !t.stopped && provider !in t.conns
  }

  /** The tables after startProvider. */
  function Started(t: Tables, provider: string, outcome: StartOutcome): Tables {
    if Wanted(t, provider) && outcome.Running? then t.(conns := t.conns[provider := outcome.receiver]) else t
  }

  function Without(t: Tables, provider: string): Tables {
    t.(conns := t.conns - {provider})
  }

  const CLOSED := Tables(map[], true)

  class Manager {
    var conns: map<string, nat>
    var stopped: bool

    constructor ()
      ensures Contents() == Tables(map[], false)
    {
      conns, stopped := map[], false;
    }

    ghost function Contents(): Tables
      reads this
    {
      Tables(conns, stopped)
    }

    /** startProvider: the lock is held while the receiver starts. */
    method StartProvider(provider: string, outcome: StartOutcome) returns (r: Result, asked: bool)
      modifies this`conns
      ensures asked <==> Wanted(old(Contents()), provider)
      ensures Contents() == Started(old(Contents()), provider, outcome)
      ensures r == if old(stopped) then ManagerStopped else if asked && outcome.NotRunning? then StartFailed else Ok
    {
      if stopped {
        return ManagerStopped, false;
      }
      if provider in conns {
        return Ok, false;
      }
      match outcome
      case NotRunning =>
        return StartFailed, true;
      case Running(receiver) =>
        conns := conns[provider := receiver];
        return Ok, true;
    }

    /** The locked region of stopProvider: the receiver to stop, if there is one. */
    method TakeProvider(provider: string) returns (taken: set<nat>)
      modifies this`conns
      ensures Contents() == Without(old(Contents()), provider)
      ensures taken == if provider in old(conns) then {old(conns)[provider]} else {}
    {
      taken := {};
      if provider in conns {
        taken := {conns[provider]};
        conns := conns - {provider};
      }
    }

    /** The locked region of Stop: all receivers are copied out, one by one. */
    method TakeAll() returns (taken: map<string, nat>)
      modifies this
      ensures Contents() == CLOSED && taken == old(conns)
    {
      stopped := true;
      taken := map[];
      var rest := conns.Keys;
      while rest != {}
        invariant rest <= conns.Keys && conns == old(conns) && stopped
        invariant taken == map k | k in conns && k !in rest :: conns[k]
        decreases |rest|
      {
        var k :| k in rest;
        taken, rest := taken[k := conns[k]], rest - {k};
      }
      conns := map[];
    }
  }
}

/** All interleavings of the email manager's calls. */
module EmailProtocol {
  import opened EmailManager

  /** Calls in progress, by what they do next. */
  datatype Call =
    | Starting(todo: seq<string>)     // Start, with the providers it has still to visit
    | Refreshing(provider: string)    // RefreshProvider, before it takes the receiver out
    | StopOld(receiver: nat)          // RefreshProvider, about to stop the receiver it took
    | Restarting                      // RefreshProvider, about to start the provider again
    | ShuttingDown                    // Stop, before it takes all receivers out
    | StopAll(receivers: set<nat>)    // Stop, with the receivers it has still to stop
    | Done

  function Held(call: Call): set<nat> {
    match call
    case StopOld(r) => {r}
    case StopAll(rs) => rs
    case _ => {}
  }

  /** `live` are the receivers that were started and not stopped yet; `stops` logs, in order,
      every receiver that was asked to stop. */
  datatype State = State(tables: Tables, live: set<nat>, stops: seq<nat>, total: nat, calls: seq<Call>)

  /** What the environment answers during a step: whether the provider still exists and has a
      readable binding, under which id it was found, whether its receiver starts, and which
      receiver a range over a map visits next. */
  datatype Answers = Answers(readable: bool, provider: string, starts: bool, pick: nat)

  datatype Action =
    | Start(providers: seq<string>)
    | Refresh(provider: string)
    | Stop
    | Advance(i: nat, answers: Answers)

  function Goto(s: State, i: nat, call: Call): State
    requires i < |s.calls|
  {
    s.(calls := s.calls[i := call])
  }

  /** startProvider, run as one step because the lock is held throughout. */
  function StartProvider(s: State, provider: string, starts: bool): State {
    if !Wanted(s.tables, provider) || !starts then s
    else s.(tables := Started(s.tables, provider, Running(s.total)), live := s.live + {s.total}, total := s.total + 1)
  }

  /** A receiver is asked to stop. An error it returns is only logged. */
  function StopReceiver(s: State, r: nat): State {
    s.(live := s.live - {r}, stops := s.stops + [r])
  }

  function Step(s: State, i: nat, a: Answers): State
    requires i < |s.calls|
  {
    match s.calls[i]
    case Starting(todo) =>
      if todo == [] then Goto(s, i, Done)
      else Goto(if a.readable then StartProvider(s, todo[0], a.starts) else s, i, Starting(todo[1..]))
    case Refreshing(provider) =>
      if provider !in s.tables.conns then Goto(s, i, Restarting)
      else Goto(s.(tables := Without(s.tables, provider)), i, StopOld(s.tables.conns[provider]))
    case StopOld(r) => Goto(StopReceiver(s, r), i, Restarting)
    case Restarting => Goto(if a.readable then StartProvider(s, a.provider, a.starts) else s, i, Done)
    case ShuttingDown => Goto(s.(tables := CLOSED), i, StopAll(s.tables.conns.Values))
    case StopAll(rs) => if a.pick in rs then Goto(StopReceiver(s, a.pick), i, StopAll(rs - {a.pick})) else s
    case Done => s
  }

  function Begin(s: State, call: Call): State {
    s.(calls := s.calls + [call])
  }

  function Apply(s: State, a: Action): State {
    match a
    case Start(providers) => Begin(s, Starting(providers))
    case Refresh(provider) => Begin(s, Refreshing(provider))
    case Stop => Begin(s, ShuttingDown)
    case Advance(i, answers) => if i < |s.calls| then Step(s, i, answers) else s
  }

  const START := State(Tables(map[], false), {}, [], 0, [])

  /** The world after a whole run. */
  function Run(actions: seq<Action>): State {
    if actions == [] then START else Apply(Run(actions[..|actions| - 1]), actions[|actions| - 1])
  }

  // ----- Ownership -----

  datatype Owner = Provider(id: string) | InCall(i: nat)

  predicate Owns(s: State, p: Owner, r: nat) {
    match p
    case Provider(id) => id in s.tables.conns && s.tables.conns[id] == r
    case InCall(i) => r in HeldBy(s, i)
  }

  function HeldBy(s: State, i: nat): set<nat> {
    if i < |s.calls| then Held(s.calls[i]) else {}
  }

  /** Every running receiver has exactly one owner, and only running receivers have one. */
  ghost predicate OneOwnerEach(s: State) {
    && (forall r :: r in s.live ==> exists p :: Owns(s, p, r))
    && (forall p, r :: Owns(s, p, r) ==> r in s.live)
    && (forall p, q, r :: Owns(s, p, r) && Owns(s, q, r) ==> p == q)
  }

  /** What was started is running or was stopped, exactly once. */
  ghost predicate Accounted(s: State) {
    && (forall r: nat :: r < s.total <==> r in s.live || r in s.stops)
    && (forall r :: r in s.live ==> r !in s.stops)
    && (forall j, k :: 0 <= j < k < |s.stops| ==> s.stops[j] != s.stops[k])
  }

  predicate EmptyOnceStopped(s: State) {
    s.tables.stopped ==> s.tables.conns == map[]
  }

  ghost predicate Inv(s: State) {
    OneOwnerEach(s) && Accounted(s) && EmptyOnceStopped(s)
  }

  // ----- The ways in which a receiver changes hands -----

  /** Between two worlds only the receivers in `moved` change owners; each of these that still
      runs then belongs to `dest` alone. */
  lemma Relocate(s: State, s': State, moved: set<nat>, dest: Owner)
    requires OneOwnerEach(s)
    requires forall r :: r !in moved ==> (r in s'.live <==> r in s.live)
    requires forall p, r :: r !in moved ==> (Owns(s', p, r) <==> Owns(s, p, r))
    requires forall r :: r in moved && r in s'.live ==> Owns(s', dest, r)
    requires forall p, r :: r in moved && Owns(s', p, r) ==> r in s'.live && p == dest
    ensures OneOwnerEach(s')
  {
    hide Owns;
    forall r | r in s'.live
      ensures exists p :: Owns(s', p, r)
    {
      if r in moved {
        assert Owns(s', dest, r);
      } else {
        var p :| Owns(s, p, r);
        assert Owns(s', p, r);
      }
    }
  }

  /** The hands of the calls other than i are left alone; call i now holds `now`. */
  ghost predicate OnlyCall(s: State, s': State, i: nat, now: set<nat>) {
    HeldBy(s', i) == now && forall k: nat :: k != i ==> HeldBy(s', k) == HeldBy(s, k)
  }

  lemma Goes(s: State, world: State, i: nat, call: Call)
    requires i < |s.calls| && world.calls == s.calls
    ensures OnlyCall(s, Goto(world, i, call), i, Held(call)) && HeldBy(s, i) == Held(s.calls[i])
  {
  }

  lemma Begins(s: State, call: Call)
    requires Held(call) == {}
    ensures OnlyCall(s, Begin(s, call), |s.calls|, {}) && HeldBy(s, |s.calls|) == {}
  {
  }

  lemma Quiet(s: State, s': State, i: nat)
    requires OneOwnerEach(s) && s'.tables.conns == s.tables.conns && s'.live == s.live
    requires OnlyCall(s, s', i, HeldBy(s, i))
    ensures OneOwnerEach(s')
  {
    hide HeldBy;
    Relocate(s, s', {}, InCall(i));
  }

  /** Receivers move from the table into the hands of a call. */
  lemma TakenOut(s: State, s': State, i: nat, ids: set<string>)
    requires OneOwnerEach(s) && s'.tables.conns == s.tables.conns - ids && s'.live == s.live
    requires HeldBy(s, i) == {}
    requires OnlyCall(s, s', i, set id | id in ids && id in s.tables.conns :: s.tables.conns[id])
    ensures OneOwnerEach(s')
  {
    hide HeldBy;
    var moved := set id | id in ids && id in s.tables.conns :: s.tables.conns[id];
    forall r | r in moved
      ensures exists id :: id in ids && Owns(s, Provider(id), r)
    {
      var id :| id in ids && id in s.tables.conns && s.tables.conns[id] == r;
      assert Owns(s, Provider(id), r);
    }
    forall p, r | r !in moved
      ensures Owns(s', p, r) <==> Owns(s, p, r)
    {
      assert p.Provider? && p.id in ids && Owns(s, p, r) ==> r in moved;
    }
    forall p, r | r in moved && Owns(s', p, r)
      ensures r in s'.live && p == InCall(i)
    {
      var id :| id in ids && Owns(s, Provider(id), r);
      assert p != InCall(i) ==> Owns(s, p, r);
    }
    Relocate(s, s', moved, InCall(i));
  }

  /** A receiver that starts goes straight into the table. */
  lemma Starts(s: State, s': State, i: nat, id: string, r: nat)
    requires OneOwnerEach(s) && r !in s.live && id !in s.tables.conns
    requires s'.tables.conns == s.tables.conns[id := r] && s'.live == s.live + {r}
    requires HeldBy(s, i) == {} && OnlyCall(s, s', i, {})
    ensures OneOwnerEach(s')
  {
    hide HeldBy;
    forall p | Owns(s', p, r)
      ensures p == Provider(id)
    {
      assert p != Provider(id) ==> Owns(s, p, r);
    }
    Relocate(s, s', {r}, Provider(id));
  }

  lemma LetGo(s: State, s': State, i: nat, r: nat)
    requires OneOwnerEach(s) && r in HeldBy(s, i)
    requires s'.tables.conns == s.tables.conns && s'.live == s.live - {r}
    requires OnlyCall(s, s', i, HeldBy(s, i) - {r})
    ensures OneOwnerEach(s')
  {
    hide HeldBy;
    assert Owns(s, InCall(i), r);
    forall p
      ensures !Owns(s', p, r)
    {
      assert p != InCall(i) && Owns(s', p, r) ==> Owns(s, p, r);
    }
    Relocate(s, s', {r}, InCall(i));
  }

  // ----- Every step keeps the invariant -----

  lemma StartKeepsOwners(s: State, i: nat, provider: string, starts: bool, call: Call)
    requires OneOwnerEach(s) && Accounted(s) && i < |s.calls| && Held(s.calls[i]) == Held(call) == {}
    ensures OneOwnerEach(Goto(StartProvider(s, provider, starts), i, call))
  {
    hide OneOwnerEach, HeldBy, OnlyCall, Goto, Held;
    var world := StartProvider(s, provider, starts);
    Goes(s, world, i, call);
    GotoKeeps(world, i, call);
    if Wanted(s.tables, provider) && starts {
      Starts(s, Goto(world, i, call), i, provider, s.total);
    } else {
      Quiet(s, Goto(world, i, call), i);
    }
  }

  lemma GotoKeeps(s: State, i: nat, call: Call)
    requires i < |s.calls|
    ensures var s' := Goto(s, i, call);
            s'.tables == s.tables && s'.live == s.live && s'.stops == s.stops && s'.total == s.total
  {
  }

  lemma StepKeepsOwners(s: State, i: nat, a: Answers)
    requires OneOwnerEach(s) && Accounted(s) && i < |s.calls|
    ensures OneOwnerEach(Step(s, i, a))
  {
    hide OneOwnerEach, HeldBy, OnlyCall, Accounted;
    match s.calls[i]
    case Starting(todo) =>
      if todo == [] {
        Goes(s, s, i, Done);
        Quiet(s, Goto(s, i, Done), i);
      } else {
        Goes(s, s, i, Starting(todo[1..]));
        Quiet(s, Goto(s, i, Starting(todo[1..])), i);
        StartKeepsOwners(s, i, todo[0], a.starts, Starting(todo[1..]));
      }
    case Refreshing(provider) =>
      TakeKeepsOwners(s, i, provider);
    case StopOld(r) =>
      Goes(s, StopReceiver(s, r), i, Restarting);
      assert {r} - {r} == {};
      LetGo(s, Goto(StopReceiver(s, r), i, Restarting), i, r);
    case Restarting =>
      Goes(s, s, i, Done);
      Quiet(s, Goto(s, i, Done), i);
      StartKeepsOwners(s, i, a.provider, a.starts, Done);
    case ShuttingDown =>
      ShutdownKeepsOwners(s, i);
    case StopAll(rs) =>
      if a.pick in rs {
        Goes(s, StopReceiver(s, a.pick), i, StopAll(rs - {a.pick}));
        LetGo(s, Goto(StopReceiver(s, a.pick), i, StopAll(rs - {a.pick})), i, a.pick);
      }
    case Done =>
  }

  lemma TakeKeepsOwners(s: State, i: nat, provider: string)
    requires OneOwnerEach(s) && i < |s.calls| && s.calls[i] == Refreshing(provider)
    ensures forall a :: OneOwnerEach(Step(s, i, a))
  {
    hide OneOwnerEach, HeldBy, OnlyCall;
    if provider in s.tables.conns {
      var world := s.(tables := Without(s.tables, provider));
      var call := StopOld(s.tables.conns[provider]);
      Goes(s, world, i, call);
      var ids := {provider};
      assert (set id | id in ids && id in s.tables.conns :: s.tables.conns[id]) == Held(call);
      TakenOut(s, Goto(world, i, call), i, ids);
    } else {
      Goes(s, s, i, Restarting);
      Quiet(s, Goto(s, i, Restarting), i);
    }
  }

  lemma ShutdownKeepsOwners(s: State, i: nat)
    requires OneOwnerEach(s) && i < |s.calls| && s.calls[i] == ShuttingDown
    ensures forall a :: OneOwnerEach(Step(s, i, a))
  {
    hide OneOwnerEach, HeldBy, OnlyCall;
    var world := s.(tables := CLOSED);
    var call := StopAll(s.tables.conns.Values);
    var ids := s.tables.conns.Keys;
    Goes(s, world, i, call);
    assert (set id | id in ids && id in s.tables.conns :: s.tables.conns[id]) == Held(call);
    assert s.tables.conns - ids == map[];
    TakenOut(s, Goto(world, i, call), i, ids);
  }

  lemma HeldIsRunning(s: State, i: nat, r: nat)
    requires OneOwnerEach(s) && i < |s.calls| && r in Held(s.calls[i])
    ensures r in s.live
  {
    assert Owns(s, InCall(i), r);
  }

  lemma StopKeepsAccounts(s: State, r: nat)
    requires Accounted(s) && r in s.live
    ensures Accounted(StopReceiver(s, r))
  {
  }

  lemma StartKeepsAccounts(s: State, provider: string, starts: bool)
    requires Accounted(s)
    ensures Accounted(StartProvider(s, provider, starts))
  {
  }

  lemma AccountsIgnoreCalls(s: State, s': State)
    requires Accounted(s) && s'.live == s.live && s'.stops == s.stops && s'.total == s.total
    ensures Accounted(s')
  {
  }

  lemma StepKeepsAccounts(s: State, i: nat, a: Answers)
    requires OneOwnerEach(s) && Accounted(s) && i < |s.calls|
    ensures Accounted(Step(s, i, a))
  {
    hide OneOwnerEach, Accounted, StartProvider, StopReceiver;
    var s' := Step(s, i, a);
    match s.calls[i]
    case Starting(todo) =>
      if todo != [] && a.readable {
        StartKeepsAccounts(s, todo[0], a.starts);
        AccountsIgnoreCalls(StartProvider(s, todo[0], a.starts), s');
      } else {
        AccountsIgnoreCalls(s, s');
      }
    case Restarting =>
      if a.readable {
        StartKeepsAccounts(s, a.provider, a.starts);
        AccountsIgnoreCalls(StartProvider(s, a.provider, a.starts), s');
      } else {
        AccountsIgnoreCalls(s, s');
      }
    case StopOld(r) =>
      HeldIsRunning(s, i, r);
      StopKeepsAccounts(s, r);
      AccountsIgnoreCalls(StopReceiver(s, r), s');
    case StopAll(rs) =>
      if a.pick in rs {
        HeldIsRunning(s, i, a.pick);
        StopKeepsAccounts(s, a.pick);
        AccountsIgnoreCalls(StopReceiver(s, a.pick), s');
      }
    case _ =>
      AccountsIgnoreCalls(s, s');
  }

  lemma StepKeepsEmptiness(s: State, i: nat, a: Answers)
    requires EmptyOnceStopped(s) && i < |s.calls|
    ensures EmptyOnceStopped(Step(s, i, a))
  {
  }

  /** Every step of every interleaving keeps the invariant. */
  lemma ActionKeepsInv(s: State, a: Action)
    requires Inv(s)
    ensures Inv(Apply(s, a))
  {
    hide OneOwnerEach, Accounted, EmptyOnceStopped, HeldBy, OnlyCall, Step;
    match a
    case Advance(i, answers) =>
      if i < |s.calls| {
        StepKeepsOwners(s, i, answers);
        StepKeepsAccounts(s, i, answers);
        StepKeepsEmptiness(s, i, answers);
      }
    case Start(providers) =>
      BeginKeepsInv(s, Starting(providers));
    case Refresh(provider) =>
      BeginKeepsInv(s, Refreshing(provider));
    case Stop =>
      BeginKeepsInv(s, ShuttingDown);
  }

  lemma BeginKeepsInv(s: State, call: Call)
    requires Inv(s) && Held(call) == {}
    ensures Inv(Begin(s, call))
  {
    hide OneOwnerEach, Accounted, HeldBy, OnlyCall;
    Begins(s, call);
    Quiet(s, Begin(s, call), |s.calls|);
    AccountsIgnoreCalls(s, Begin(s, call));
  }

  lemma StartInv()
    ensures Inv(START)
  {
    assert START.calls == [];
    assert forall p, r :: !Owns(START, p, r);
  }

  lemma {:induction false} RunsKeepInv(actions: seq<Action>)
    ensures Inv(Run(actions))
  {
    hide Inv, Apply;
    if actions == [] {
      StartInv();
    } else {
      RunsKeepInv(actions[..|actions| - 1]);
      ActionKeepsInv(Run(actions[..|actions| - 1]), actions[|actions| - 1]);
    }
  }

  // ----- What follows for every run -----

  /** At every moment of every interleaving a running receiver is either tracked under exactly
      one provider or about to be stopped by exactly one call, and no receiver is ever asked to
      stop twice. */
  lemma EveryReceiverHasOneOwner(actions: seq<Action>, r: nat)
    ensures var s := Run(actions);
            && (r in s.live ==> exists p :: Owns(s, p, r) && forall q :: Owns(s, q, r) ==> q == p)
            && (r in s.stops ==> forall p :: !Owns(s, p, r))
            && (r < s.total <==> r in s.live || r in s.stops)
            && (forall j, k :: 0 <= j < k < |s.stops| ==> s.stops[j] != s.stops[k])
  {
    hide Owns, Run, EmptyOnceStopped;
    RunsKeepInv(actions);
  }

  lemma ActionAfterStop(s: State, a: Action)
    requires Inv(s) && s.tables.stopped
    ensures Apply(s, a).tables == s.tables && Apply(s, a).total == s.total
  {
    hide OneOwnerEach, Accounted;
  }

  /** Once Stop has been through its locked section the table stays empty and no receiver is
      ever started again, whatever calls are still under way or come later. */
  lemma {:induction false} NothingStartsAfterStop(before: seq<Action>, after: seq<Action>)
    requires Run(before).tables.stopped
    ensures Run(before + after).tables == CLOSED
    ensures Run(before + after).total == Run(before).total
  {
    hide Inv, Apply;
    if after == [] {
      assert before + after == before;
      RunsKeepInv(before);
      StoppedIsEmpty(Run(before));
    } else {
      var init, last := after[..|after| - 1], after[|after| - 1];
      NothingStartsAfterStop(before, init);
      RunsKeepInv(before + init);
      assert (before + after)[..|before + after| - 1] == before + init;
      ActionAfterStop(Run(before + init), last);
    }
  }

  lemma StoppedIsEmpty(s: State)
    requires Inv(s) && s.tables.stopped
    ensures s.tables == CLOSED
  {
    hide OneOwnerEach, Accounted;
  }

  /** A shutdown leaves nothing behind: once Stop has taken the receivers and no call holds one
      any more, every receiver ever started has been stopped exactly once. */
  lemma ShutdownIsComplete(actions: seq<Action>)
    requires var s := Run(actions); s.tables.stopped && forall i :: 0 <= i < |s.calls| ==> Held(s.calls[i]) == {}
    ensures var s := Run(actions);
            && s.live == {} && forall r: nat :: multiset(s.stops)[r] == if r < s.total then 1 else 0
  {
    hide Run;
    var s := Run(actions);
    RunsKeepInv(actions);
    StoppedIsEmpty(s);
    NobodyHolds(s);
    AllStoppedOnce(s);
  }

  lemma NobodyHolds(s: State)
    requires OneOwnerEach(s) && s.tables.conns == map[] && forall i :: 0 <= i < |s.calls| ==> Held(s.calls[i]) == {}
    ensures s.live == {}
  {
    assert forall p, r :: !Owns(s, p, r);
  }

  lemma {:induction false} NoRepeatsCount(stops: seq<nat>, r: nat)
    requires forall j, k :: 0 <= j < k < |stops| ==> stops[j] != stops[k]
    ensures multiset(stops)[r] == if r in stops then 1 else 0
  {
    if stops != [] {
      NoRepeatsCount(stops[1..], r);
      assert stops == [stops[0]] + stops[1..];
    }
  }

  lemma AllStoppedOnce(s: State)
    requires Accounted(s) && s.live == {}
    ensures forall r: nat :: multiset(s.stops)[r] == if r < s.total then 1 else 0
  {
    forall r: nat
      ensures multiset(s.stops)[r] == if r < s.total then 1 else 0
    {
      NoRepeatsCount(s.stops, r);
    }
  }
}
