/** What the connection manager's calls achieve: each step of the protocol is what the
    manager's locked regions do, and a call that is answered in a given way has a given effect. */
module ConnectionCalls {
  import opened Text
  import opened Connections
  import opened ConnectionProtocol

  // ----- The protocol's steps, run on the manager -----

  /** The next step of call i on the manager, and what the call does after it. */
  method RunStep(m: Manager, s: State, i: nat, a: Answers) returns (next: Call)
    requires m.Contents() == s.tables && i < |s.calls|
    modifies m
    ensures m.Contents() == Step(s, i, a).tables && next == Step(s, i, a).calls[i]
  {
    hide SetStatus;
    next := Done;
    match s.calls[i] {
      case Begun(cfg) =>
        if !a.hasReceiver {
          m.SetConnectionStatusLocked(cfg, false);
        } else {
          next := RunLookup(m, cfg, a.running);
        }
      case StopOld(cfg, entry) =>
        next := match a.stop case Ok => Recheck(cfg) case NotSupported => PutBack(cfg, entry) case Error => Failed(cfg);
      case PutBack(cfg, entry) =>
        var _ := m.Restore(cfg, entry, a.running);
      case Recheck(cfg) =>
        if !a.hasReceiver {
          m.SetConnectionStatusLocked(cfg, false);
        } else {
          var found := m.Recheck(cfg, a.running);
          next := if found then Done else Connecting(cfg);
        }
      case Connecting(cfg) =>
        next := if a.connected then Inserting(cfg, s.total) else Failed(cfg);
      case Inserting(cfg, c) =>
        var kept := m.Insert(cfg, c, a.running);
        next := if kept then Done else Stopping({c});
      case Stopping(cs) =>
        next := Stopping(cs - {a.pick});
      case Failed(cfg) =>
        m.SetConnectionStatusLocked(cfg, false);
      case Done =>
    }
  }

  method RunLookup(m: Manager, cfg: Config, running: bool) returns (next: Call)
    modifies m
    ensures var t := old(m.Contents());
            if cfg.id !in t.connections then m.Contents() == t && next == Recheck(cfg)
            else if t.connections[cfg.id].config.updatedAt >= cfg.updatedAt
            then m.Contents() == Refreshed(t, cfg.id, running) && next == Done
            else m.Contents() == Without(t, cfg.id) && next == StopOld(cfg, t.connections[cfg.id])
  {
    hide SetStatus;
    ghost var t := m.Contents();
    var upToDate, removed := m.Lookup(cfg, running);
    assert cfg.id !in t.connections ==> t.connections - {cfg.id} == t.connections;
    if upToDate {
      next := Done;
    } else if removed == {} {
      next := Recheck(cfg);
    } else {
      var entry :| entry in removed;
      next := StopOld(cfg, entry);
    }
  }

  /** A new call on the manager, and the connections it takes out of the table to stop. */
  method RunRequest(m: Manager, s: State, a: Action) returns (taken: set<nat>)
    requires m.Contents() == s.tables && !a.Advance?
    modifies m
    ensures m.Contents() == Apply(s, a).tables
    ensures if a.SweepAndStop? then
              && Apply(s, a).stopped == s.stopped + (taken - a.unstoppable)
              && Apply(s, a).abandoned == s.abandoned + taken * a.unstoppable
            else forall k :: |s.calls| <= k < |Apply(s, a).calls| ==> Held(Apply(s, a).calls[k]) == taken
  {
    hide SetStatus, TrimSpace, Swept, Removed;
    taken := {};
    match a {
      case Ensure(cfg) =>
      case RemoveByID(id) =>
        RemovedNothing(s.tables, id);
        taken := m.Take(id, true);
      case StopByID(id) =>
        RemovedNothing(s.tables, TrimSpace(id));
        if TrimSpace(id) != "" {
          taken := m.Take(TrimSpace(id), false);
        }
      case StopByBot(botID) =>
        if TrimSpace(botID) != "" {
          taken := m.Sweep(OfBot(TrimSpace(botID)));
        }
      case SweepAndStop(sel, unstoppable) =>
        taken := m.Sweep(sel);
      case MarkStatus(cfg, running) =>
        m.SetConnectionStatusLocked(cfg, running);
    }
  }

  lemma RemovedNothing(t: Tables, id: string)
    ensures Conns(t, {id}) == if id in t.connections then {t.connections[id].conn} else {}
  {
  }

  // ----- An ensureConnection call that nothing interrupts -----

  /** How the environment answers one call: whether there is a receiver, at first and later on,
      what comes of stopping the old connection and of connecting, and whether an entry runs. */
  datatype Replies = Replies(
    hasReceiver: bool, running: bool, stop: StopOutcome, stillReceiver: bool, connected: bool)
  {
    predicate Good() {
      hasReceiver && stop == Ok && stillReceiver && connected
    }

    function To(call: Call): Answers {
      Answers(if call.Recheck? then stillReceiver else hasReceiver, running, stop, connected, 0)
    }
  }

  /** The next n steps of call i, with no other step in between. */
  function Alone(s: State, i: nat, r: Replies, n: nat): (s': State)
    requires i < |s.calls|
    ensures |s'.calls| == |s.calls|
    decreases n
  {
    if n == 0 then s else Alone(Step(s, i, r.To(s.calls[i])), i, r, n - 1)
  }

  /** A whole call; it has no more than five steps. */
  function EnsureAlone(s: State, cfg: Config, r: Replies): State {
    if cfg.id == "" then s else Alone(Apply(s, Ensure(cfg)), |s.calls|, r, 5)
  }

  lemma {:induction false} DoneStays(s: State, i: nat, r: Replies, n: nat)
    requires i < |s.calls| && s.calls[i] == Done
    ensures Alone(s, i, r, n) == s
    decreases n
  {
    if n > 0 {
      DoneStays(s, i, r, n - 1);
    }
  }

  /** The last step of a call. */
  lemma LastStep(s: State, i: nat, r: Replies, n: nat, world: State)
    requires i < |s.calls| == |world.calls| && n >= 1 && Step(s, i, r.To(s.calls[i])) == Goto(world, i, Done)
    ensures Alone(s, i, r, n) == Goto(world, i, Done)
  {
    hide Step;
    DoneStays(Goto(world, i, Done), i, r, n - 1);
  }

  /** What is left after a call that finds the place of its config free. */
  function Started(s: State, cfg: Config, r: Replies): State {
    if r.stillReceiver && r.connected then
      s.(tables := Entered(s.tables, cfg.id, Entry(cfg, s.total), true), live := s.live + {s.total},
         total := s.total + 1)
    else s.(tables := SetStatus(s.tables, cfg, false))
  }

  lemma FromConnecting(s: State, i: nat, cfg: Config, r: Replies, n: nat)
    requires i < |s.calls| && s.calls[i] == Connecting(cfg) && cfg.id !in s.tables.connections && n >= 2
    requires r.stillReceiver
    ensures Alone(s, i, r, n) == Goto(Started(s, cfg, r), i, Done)
  {
    hide SetStatus, Entered;
    var next := Step(s, i, r.To(s.calls[i]));
    LastStep(next, i, r, n - 1, Started(s, cfg, r));
  }

  lemma FromRecheck(s: State, i: nat, cfg: Config, r: Replies, n: nat)
    requires i < |s.calls| && s.calls[i] == ConnectionProtocol.Recheck(cfg) && n >= 3
    requires cfg.id !in s.tables.connections
    ensures Alone(s, i, r, n) == Goto(Started(s, cfg, r), i, Done)
  {
    hide SetStatus, Entered, Alone;
    if r.stillReceiver {
      OneStep(s, i, r, n);
      FromConnecting(Goto(s, i, Connecting(cfg)), i, cfg, r, n - 1);
      assert Goto(Started(Goto(s, i, Connecting(cfg)), cfg, r), i, Done) == Goto(Started(s, cfg, r), i, Done);
    } else {
      LastStep(s, i, r, n, Started(s, cfg, r));
    }
  }

  lemma OneStep(s: State, i: nat, r: Replies, n: nat)
    requires i < |s.calls| && n >= 1
    ensures Alone(s, i, r, n) == Alone(Step(s, i, r.To(s.calls[i])), i, r, n - 1)
  {
    hide Step;
  }

  /** What is left after a call that restarts an older entry. */
  function Restarted(s: State, cfg: Config, r: Replies): State
    requires cfg.id in s.tables.connections
  {
    var entry := s.tables.connections[cfg.id];
    var world := s.(tables := Without(s.tables, cfg.id));
    match r.stop
    case Ok => Started(Stopped(world, entry.conn, true), cfg, r)
    case NotSupported => world.(tables := Entered(world.tables, cfg.id, entry, r.running))
    case Error =>
      Stopped(world, entry.conn, false).(tables := SetStatus(world.tables, cfg, false))
  }

  lemma FromStopOld(s: State, t: Tables, i: nat, cfg: Config, r: Replies, n: nat)
    requires i < |s.calls| && cfg.id in t.connections && n >= 4
    requires s.calls[i] == StopOld(cfg, t.connections[cfg.id]) && s.tables == Without(t, cfg.id)
    ensures Alone(s, i, r, n) == Goto(Restarted(s.(tables := t), cfg, r), i, Done)
  {
    hide SetStatus, Entered, Alone;
    OneStep(s, i, r, n);
    var next := Step(s, i, r.To(s.calls[i]));
    match r.stop
    case Ok =>
      FromRecheck(next, i, cfg, r, n - 1);
    case NotSupported =>
      LastStep(next, i, r, n - 1, Restarted(s.(tables := t), cfg, r));
    case Error =>
      LastStep(next, i, r, n - 1, Restarted(s.(tables := t), cfg, r));
  }

  /** What a whole call leaves. */
  function Ensured(s: State, cfg: Config, r: Replies): State {
    if !r.hasReceiver then s.(tables := SetStatus(s.tables, cfg, false))
    else if cfg.id !in s.tables.connections then Started(s, cfg, r)
    else if s.tables.connections[cfg.id].config.updatedAt >= cfg.updatedAt then
      s.(tables := Refreshed(s.tables, cfg.id, r.running))
    else Restarted(s, cfg, r)
  }

  lemma EnsureAloneIs(s: State, cfg: Config, r: Replies)
    requires cfg.id != ""
    ensures EnsureAlone(s, cfg, r) == Ensured(s, cfg, r).(calls := s.calls + [Done])
  {
    hide SetStatus, Entered, Alone;
    var i, b := |s.calls|, Apply(s, Ensure(cfg));
    OneStep(b, i, r, 5);
    var next := Step(b, i, r.To(b.calls[i]));
    if r.hasReceiver && cfg.id !in s.tables.connections {
      FromRecheck(next, i, cfg, r, 4);
    } else if r.hasReceiver && s.tables.connections[cfg.id].config.updatedAt < cfg.updatedAt {
      FromStopOld(next, s.tables, i, cfg, r, 4);
    } else {
      LastStep(b, i, r, 5, Ensured(b, cfg, r));
    }
  }

  /** The table has an entry for the config that is not older. */
  predicate Serves(t: Tables, cfg: Config) {
    cfg.id in t.connections && t.connections[cfg.id].config.updatedAt >= cfg.updatedAt
  }

  /** Whether a call must replace the entry that is there. */
  predicate Outdated(t: Tables, cfg: Config) {
    cfg.id in t.connections && t.connections[cfg.id].config.updatedAt < cfg.updatedAt
  }

  /** Whether a call that is answered in this way opens a connection. */
  predicate Connects(t: Tables, cfg: Config, r: Replies) {
    r.hasReceiver && !Serves(t, cfg) && (Outdated(t, cfg) ==> r.stop == Ok) && r.stillReceiver && r.connected
  }

  function ConnOf(t: Tables, id: string): set<nat> {
    if id in t.connections then {t.connections[id].conn} else {}
  }

  /** The status a call leaves for its config. */
  function StatusLeft(t: Tables, cfg: Config, r: Replies): Status {
    if Connects(t, cfg, r) then Status(cfg, true)
    else if r.hasReceiver && (Serves(t, cfg) || (Outdated(t, cfg) && r.stop == NotSupported))
    then Status(t.connections[cfg.id].config, r.running)
    else Status(cfg, false)
  }

  /** What an ensureConnection call achieves that nothing interrupts, however it is answered.
      Its config is served afterwards iff it was before or the call could connect; a connection
      is opened only in the latter case, and one that was outdated is then stopped; an outdated
      one that cannot be stopped stays; nothing of any other config changes. */
  lemma EnsureAchieves(s: State, cfg: Config, r: Replies)
    requires Inv(s) && cfg.id != ""
    ensures var s', t, t' := EnsureAlone(s, cfg, r), s.tables, EnsureAlone(s, cfg, r).tables;
            var restarts := r.hasReceiver && Outdated(t, cfg);
            && s'.calls == s.calls + [Done]
            && (Serves(t', cfg) <==> Serves(t, cfg) || Connects(t, cfg, r))
            && (if Connects(t, cfg, r) then
                  && t'.connections == t.connections[cfg.id := Entry(cfg, s.total)]
                  && s'.total == s.total + 1 && s.total !in s.live
                  && s'.live == s.live - ConnOf(t, cfg.id) + {s.total}
                else
                  && t'.connections == (if restarts && r.stop != NotSupported then t.connections - {cfg.id}
                                          else t.connections)
                  && s'.total == s.total
                  && s'.live == s.live - if restarts && r.stop == Ok then ConnOf(t, cfg.id) else {})
            && s'.stopped == s.stopped + (if restarts && r.stop == Ok then ConnOf(t, cfg.id) else {})
            && s'.abandoned == s.abandoned + (if restarts && r.stop == Error then ConnOf(t, cfg.id) else {})
            && t'.meta == if Blank(cfg.id) then t.meta else t.meta[cfg.id := StatusLeft(t, cfg, r)]
  {
    hide Alone, EnsureAlone, Blank, OnePlaceEach;
    EnsureAloneIs(s, cfg, r);
    if cfg.id in s.tables.connections {
      EntryKeyed(s.tables, cfg.id);
      assert s.tables.connections == (s.tables.connections - {cfg.id})[cfg.id := s.tables.connections[cfg.id]];
    }
    assert s.total !in s.live;
  }

  // ----- Calls that stop connections -----

  /** A call that stops connections, run to its end: it visits them in some order, and those in
      `failing` do not stop. */
  function StopEach(s: State, i: nat, picks: seq<nat>, failing: set<nat>): (s': State)
    requires i < |s.calls|
    ensures |s'.calls| == |s.calls|
  {
    if picks == [] then s
    else
      var c := picks[|picks| - 1];
      Step(StopEach(s, i, picks[..|picks| - 1], failing), i,
           Answers(true, true, if c in failing then Error else Ok, true, c))
  }

  lemma {:induction false} StopEachIs(s: State, i: nat, cs: set<nat>, picks: seq<nat>, failing: set<nat>)
    requires i < |s.calls| && s.calls[i] == Stopping(cs)
    ensures var reached := set c | c in cs && c in picks;
            StopEach(s, i, picks, failing)
            == s.(live := s.live - (reached - failing), stopped := s.stopped + (reached - failing),
                  abandoned := s.abandoned + reached * failing, calls := s.calls[i := Stopping(cs - reached)])
  {
    var reached := set c | c in cs && c in picks;
    if picks == [] {
      assert reached == {} && cs - {} == cs;
    } else {
      var init, c := picks[..|picks| - 1], picks[|picks| - 1];
      StopEachIs(s, i, cs, init, failing);
      assert picks == init + [c];
      var before := set d | d in cs && d in init;
      if c !in before && c in cs {
        assert reached == before + {c};
        assert cs - reached == cs - before - {c};
        assert c !in failing ==> (before + {c}) * failing == before * failing;
      } else {
        assert reached == before;
      }
    }
  }

  /** The entries that a request of a user takes out. */
  function Asked(t: Tables, a: Action): set<string> {
    match a
    case RemoveByID(id) => {id}
    case StopByID(id) => if TrimSpace(id) != "" && TrimSpace(id) in t.connections then {TrimSpace(id)} else {}
    case StopByBot(botID) =>
      if Blank(botID) then {} else set id | id in t.connections && t.connections[id].config.botID == TrimSpace(botID)
    case _ => {}
  }

  /** A request that takes entries out, with the call that stops their connections. */
  function RemoveAlone(s: State, a: Action, picks: seq<nat>, failing: set<nat>): State {
    var b := Apply(s, a);
    if |b.calls| <= |s.calls| then b else StopEach(b, |s.calls|, picks, failing)
  }

  /** The entries asked for are gone with their status, every connection they had has stopped or
      failed to, and nothing else has changed. */
  lemma RemovalStops(s: State, a: Action, picks: seq<nat>, failing: set<nat>)
    requires a.RemoveByID? || a.StopByID? || a.StopByBot?
    requires forall c :: c in Conns(s.tables, Asked(s.tables, a)) ==> c in picks
    ensures var s', ids := RemoveAlone(s, a, picks, failing), Asked(s.tables, a);
            var conns := Conns(s.tables, ids);
            && s'.tables == Tables(s.tables.connections - ids, s.tables.meta - ids)
            && s'.live == s.live - (conns - failing) && s'.stopped == s.stopped + (conns - failing)
            && s'.abandoned == s.abandoned + conns * failing && s'.total == s.total
            && s.calls <= s'.calls && forall k :: |s.calls| <= k < |s'.calls| ==> s'.calls[k] == Stopping({})
  {
    hide TrimSpace, StopEach, Step;
    var ids, b := Asked(s.tables, a), Apply(s, a);
    var conns := Conns(s.tables, ids);
    RemovalBegins(s, a);
    if |b.calls| > |s.calls| {
      StopEachIs(b, |s.calls|, conns, picks, failing);
      assert (set c | c in conns && c in picks) == conns;
      assert conns - conns == {};
    }
  }

  lemma RemovalBegins(s: State, a: Action)
    requires a.RemoveByID? || a.StopByID? || a.StopByBot?
    ensures var b, ids := Apply(s, a), Asked(s.tables, a);
            && b.tables == Tables(s.tables.connections - ids, s.tables.meta - ids)
            && b == s.(tables := b.tables, calls := b.calls)
            && (b.calls == s.calls + [Stopping(Conns(s.tables, ids))]
                || (b.calls == s.calls && Conns(s.tables, ids) == {}))
  {
    hide TrimSpace;
    var t, ids := s.tables, Asked(s.tables, a);
    assert ids == {} ==> t.connections - ids == t.connections && t.meta - ids == t.meta;
    match a
    case RemoveByID(id) =>
      RemovedNothing(t, id);
      assert id !in t.connections ==> t.connections - {id} == t.connections;
    case StopByID(id) =>
      RemovedNothing(t, TrimSpace(id));
    case StopByBot(botID) =>
      assert !Blank(botID) ==> ids == Selected(t, OfBot(TrimSpace(botID)));
  }

  /** Which entries a sweep is about. */
  predicate Concerns(sel: Selector, id: string, e: Entry) {
    || sel.All?
    || (sel.OfBot? && e.config.botID == sel.botID)
    || (sel.OfBotAndType? && e.config.botID == sel.botID && e.config.channelType == sel.channelType)
    || (sel.OfType? && e.config.channelType == sel.channelType)
    || (sel.NotActive? && id !in sel.active)
  }

  /** RemoveConnection, RemoveAdapter, stopAll and the end of reconcile: exactly the entries the
      sweep is about are gone with their status, each of their connections has stopped or failed
      to, and nothing else has changed; a reconcile leaves the status of active ids only. */
  lemma SweepStops(s: State, sel: Selector, unstoppable: set<nat>)
    ensures var s', t, t' := Apply(s, SweepAndStop(sel, unstoppable)), s.tables,
                             Apply(s, SweepAndStop(sel, unstoppable)).tables;
            var taken := set id | id in t.connections && Concerns(sel, id, t.connections[id]) :: t.connections[id].conn;
            && (forall id :: id in t'.connections <==> id in t.connections && !Concerns(sel, id, t.connections[id]))
            && (forall id :: id in t'.connections ==> t'.connections[id] == t.connections[id])
            && (forall id :: id in t'.meta <==>
                  && id in t.meta && (id in t.connections ==> !Concerns(sel, id, t.connections[id]))
                  && (sel.NotActive? ==> id in sel.active))
            && (forall id :: id in t'.meta ==> t'.meta[id] == t.meta[id])
            && s'.live == s.live - (taken - unstoppable) && s'.stopped == s.stopped + (taken - unstoppable)
            && s'.abandoned == s.abandoned + taken * unstoppable && s'.total == s.total && s'.calls == s.calls
  {
    var t := s.tables;
    assert Conns(t, Selected(t, sel)) ==
      set id | id in t.connections && Concerns(sel, id, t.connections[id]) :: t.connections[id].conn;
  }
}
