/** All interleavings of the connection manager's calls. A call advances by one atomic step
    at a time: a locked region, or an external Stop or Connect with the lock dropped. */
module ConnectionProtocol {
  import opened Text
  import opened Connections

  /** Calls in progress, by what they do next. */
  datatype Call =
    | Begun(cfg: Config)                      // ensureConnection
    | StopOld(cfg: Config, entry: Entry)      // about to stop the entry it has taken out
    | PutBack(cfg: Config, entry: Entry)      // the old connection cannot be stopped
    | Recheck(cfg: Config)                    // about to look again before connecting
    | Connecting(cfg: Config)                 // about to connect
    | Inserting(cfg: Config, conn: nat)       // connected, about to insert
    | Stopping(conns: set<nat>)               // about to stop connections it has taken out
    | Failed(cfg: Config)                     // about to record a failure
    | Done

  /** The connections a call holds. */
  function Held(call: Call): set<nat> {
    match call
    case StopOld(_, e) => {e.conn}
    case PutBack(_, e) => {e.conn}
    case Inserting(_, c) => {c}
    case Stopping(cs) => cs
    case _ => {}
  }

  /** The shared world: the tables, and what has become of the connections opened so far.
      `abandoned` are those dropped although their Stop did not succeed. */
  datatype State = State(
    tables: Tables, live: set<nat>, stopped: set<nat>, abandoned: set<nat>, total: nat, calls: seq<Call>)

  datatype StopOutcome = Ok | NotSupported | Error

  /** What the environment answers during a step. */
  datatype Answers = Answers(hasReceiver: bool, running: bool, stop: StopOutcome, connected: bool, pick: nat)

  /** The steps. */
  datatype Action =
    | Ensure(cfg: Config)                               // a new ensureConnection call
    | RemoveByID(id: string)                            // removeConnection
    | StopByID(id: string)                              // Stop
    | StopByBot(botID: string)
    | SweepAndStop(sel: Selector, unstoppable: set<nat>)  // sweeps that stop under the lock
    | MarkStatus(cfg: Config, running: bool)            // markConnectionStatus
    | Advance(i: nat, answers: Answers)                 // the next step of call i

  function Begin(s: State, call: Call): State {
    s.(calls := s.calls + [call])
  }

  /** Removing one entry and handing its connection to a new call that stops it. */
  function TakeOut(s: State, id: string): State
    requires id in s.tables.connections
  {
    Begin(s.(tables := Removed(s.tables, id)), Stopping({s.tables.connections[id].conn}))
  }

  /** Stop has returned for connection c. */
  function Stopped(s: State, c: nat, ok: bool): State {
    if ok then s.(live := s.live - {c}, stopped := s.stopped + {c}) else s.(abandoned := s.abandoned + {c})
  }

  function Goto(s: State, i: nat, call: Call): State
    requires i < |s.calls|
  {
    s.(calls := s.calls[i := call])
  }

  /** One step of a call. */
  function Step(s: State, i: nat, a: Answers): State
    requires i < |s.calls|
  {
    var t := s.tables;
    match s.calls[i]
    case Begun(cfg) =>
      if !a.hasReceiver then Goto(s.(tables := SetStatus(t, cfg, false)), i, Done)
      else if cfg.id !in t.connections then Goto(s, i, Recheck(cfg))
      else
        var entry := t.connections[cfg.id];
        if entry.config.updatedAt >= cfg.updatedAt then Goto(s.(tables := Refreshed(t, cfg.id, a.running)), i, Done)
        else Goto(s.(tables := Without(t, cfg.id)), i, StopOld(cfg, entry))
    case StopOld(cfg, entry) =>
      (match a.stop
       case Ok => Goto(Stopped(s, entry.conn, true), i, Recheck(cfg))
       case NotSupported => Goto(s, i, PutBack(cfg, entry))
       case Error => Goto(Stopped(s, entry.conn, false), i, Failed(cfg)))
    case PutBack(cfg, entry) =>
      if cfg.id in t.connections then Goto(Stopped(s, entry.conn, false), i, Done)
      else Goto(s.(tables := Entered(t, cfg.id, entry, a.running)), i, Done)
    case Recheck(cfg) =>
      if !a.hasReceiver then Goto(s.(tables := SetStatus(t, cfg, false)), i, Done)
      else if cfg.id in t.connections then Goto(s.(tables := Refreshed(t, cfg.id, a.running)), i, Done)
      else Goto(s, i, Connecting(cfg))
    case Connecting(cfg) =>
      if a.connected then
        Goto(s.(live := s.live + {s.total}, total := s.total + 1), i, Inserting(cfg, s.total))
      else Goto(s, i, Failed(cfg))
    case Inserting(cfg, c) =>
      if cfg.id in t.connections then Goto(s.(tables := Refreshed(t, cfg.id, a.running)), i, Stopping({c}))
      else Goto(s.(tables := Entered(t, cfg.id, Entry(cfg, c), true)), i, Done)
    case Stopping(cs) =>
      if a.pick in cs then Goto(Stopped(s, a.pick, a.stop == Ok), i, Stopping(cs - {a.pick})) else s
    case Failed(cfg) => Goto(s.(tables := SetStatus(t, cfg, false)), i, Done)
    case Done => s
  }

  /** The world after an action. */
  function Apply(s: State, a: Action): State {
    match a
    case Ensure(cfg) => if cfg.id == "" then s else Begin(s, Begun(cfg))
    case RemoveByID(id) =>
      if id in s.tables.connections then TakeOut(s, id) else s.(tables := Removed(s.tables, id))
    case StopByID(id) =>
      if TrimSpace(id) in s.tables.connections && TrimSpace(id) != "" then TakeOut(s, TrimSpace(id)) else s
    case StopByBot(botID) =>
      var sel := OfBot(TrimSpace(botID));
      if TrimSpace(botID) == "" then s
      else Begin(s.(tables := Swept(s.tables, sel)), Stopping(Conns(s.tables, Selected(s.tables, sel))))
    case SweepAndStop(sel, unstoppable) =>
      var taken := Conns(s.tables, Selected(s.tables, sel));
      s.(tables := Swept(s.tables, sel),
         live := s.live - (taken - unstoppable),
         stopped := s.stopped + (taken - unstoppable),
         abandoned := s.abandoned + taken * unstoppable)
    case MarkStatus(cfg, running) => s.(tables := SetStatus(s.tables, cfg, running))
    case Advance(i, answers) => if i < |s.calls| then Step(s, i, answers) else s
  }

  const START := State(Tables(map[], map[]), {}, {}, {}, 0, [])

  /** The world after a whole run. */
  function Run(actions: seq<Action>): State {
    if actions == [] then START else Apply(Run(actions[..|actions| - 1]), actions[|actions| - 1])
  }

  // ----- Ownership -----

  /** Where a connection can be. */
  datatype Place = InTable(id: string) | InCall(i: nat) | Abandoned

  predicate At(s: State, c: nat, p: Place) {
    match p
    case InTable(id) => id in s.tables.connections && s.tables.connections[id].conn == c
    case InCall(i) => c in HeldBy(s, i)
    case Abandoned => c in s.abandoned
  }

  function HeldBy(s: State, i: nat): set<nat> {
    if i < |s.calls| then Held(s.calls[i]) else {}
  }

  /** Every connection that is open has exactly one place, and nothing else has one. */
  ghost predicate OnePlaceEach(s: State) {
    && (forall c :: c in s.live ==> exists p :: At(s, c, p))
    && (forall c, p :: At(s, c, p) ==> c in s.live)
    && (forall c, p, q :: At(s, c, p) && At(s, c, q) ==> p == q)
  }

  /** What has been opened is open or was stopped, once. */
  ghost predicate Accounted(s: State) {
    && s.live !! s.stopped
    && (forall c: nat :: c < s.total <==> c in s.live || c in s.stopped)
  }

  ghost predicate Inv(s: State) {
    OnePlaceEach(s) && Accounted(s) && Keyed(s)
  }

  /** Between two worlds, only the connections in `moved` change places; each of these that
      is still open is then at `dest` and nowhere else. */
  lemma Relocate(s: State, s': State, moved: set<nat>, dest: Place)
    requires OnePlaceEach(s)
    requires forall c :: c !in moved ==> (c in s'.live <==> c in s.live)
    requires forall c, p :: c !in moved ==> (At(s', c, p) <==> At(s, c, p))
    requires forall c :: c in moved && c in s'.live ==> At(s', c, dest)
    requires forall c, p :: c in moved && At(s', c, p) ==> c in s'.live && p == dest
    ensures OnePlaceEach(s')
  {
    hide At;
    forall c | c in s'.live
      ensures exists p :: At(s', c, p)
    {
      if c in moved {
        assert At(s', c, dest);
      } else {
        var p :| At(s, c, p);
        assert At(s', c, p);
      }
    }
  }

  /** Nothing moves. */
  lemma Quiet(s: State, s': State)
    requires OnePlaceEach(s)
    requires s'.tables.connections == s.tables.connections && s'.live == s.live && s'.abandoned == s.abandoned
    requires forall k: nat :: HeldBy(s', k) == HeldBy(s, k)
    ensures OnePlaceEach(s')
  {
    hide HeldBy;
    Relocate(s, s', {}, Abandoned);
  }

  /** Entries are taken out of the table into the hands of a call. */
  lemma TableToCall(s: State, s': State, ids: set<string>, i: nat)
    requires OnePlaceEach(s)
    requires s'.tables.connections == s.tables.connections - ids && s'.live == s.live && s'.abandoned == s.abandoned
    requires HeldBy(s, i) == {} && HeldBy(s', i) == Conns(s.tables, ids)
    requires forall k: nat :: k != i ==> HeldBy(s', k) == HeldBy(s, k)
    ensures OnePlaceEach(s')
  {
    hide HeldBy;
    var moved := Conns(s.tables, ids);
    forall c | c in moved
      ensures exists id :: id in ids && At(s, c, InTable(id))
    {
      var id :| id in ids && id in s.tables.connections && s.tables.connections[id].conn == c;
      assert At(s, c, InTable(id));
    }
    forall c, p | c !in moved
      ensures At(s', c, p) <==> At(s, c, p)
    {
      assert p.InTable? && p.id in ids && At(s, c, p) ==> c in moved;
    }
    forall c, p | c in moved && At(s', c, p)
      ensures c in s'.live && p == InCall(i)
    {
      var id :| id in ids && At(s, c, InTable(id));
      assert p != InCall(i) ==> At(s, c, p);
    }
    Relocate(s, s', moved, InCall(i));
  }

  /** A call puts the connection it holds into the table, under a key that is free. */
  lemma CallToTable(s: State, s': State, i: nat, id: string, e: Entry)
    requires OnePlaceEach(s)
    requires id !in s.tables.connections && s'.tables.connections == s.tables.connections[id := e]
    requires s'.live == s.live && s'.abandoned == s.abandoned
    requires HeldBy(s, i) == {e.conn} && HeldBy(s', i) == {}
    requires forall k: nat :: k != i ==> HeldBy(s', k) == HeldBy(s, k)
    ensures OnePlaceEach(s')
  {
    hide HeldBy;
    assert At(s, e.conn, InCall(i));
    forall p | At(s', e.conn, p)
      ensures p == InTable(id)
    {
      assert p != InTable(id) ==> p != InCall(i) && At(s, e.conn, p);
    }
    Relocate(s, s', {e.conn}, InTable(id));
  }

  /** A call is through with one of the connections it holds. */
  lemma CallLetsGo(s: State, s': State, i: nat, c: nat, ok: bool)
    requires OnePlaceEach(s) && c in HeldBy(s, i)
    requires s'.tables.connections == s.tables.connections
    requires s'.live == (if ok then s.live - {c} else s.live)
    requires s'.abandoned == (if ok then s.abandoned else s.abandoned + {c})
    requires HeldBy(s', i) == HeldBy(s, i) - {c}
    requires forall k: nat :: k != i ==> HeldBy(s', k) == HeldBy(s, k)
    ensures OnePlaceEach(s')
  {
    hide HeldBy;
    assert At(s, c, InCall(i));
    forall p | At(s', c, p)
      ensures c in s'.live && p == Abandoned
    {
      assert p != Abandoned || ok ==> p != InCall(i) && At(s, c, p);
    }
    Relocate(s, s', {c}, Abandoned);
  }

  /** A new connection is opened. */
  lemma CallOpens(s: State, s': State, i: nat, c: nat)
    requires OnePlaceEach(s) && c !in s.live
    requires s'.tables.connections == s.tables.connections
    requires s'.live == s.live + {c} && s'.abandoned == s.abandoned
    requires HeldBy(s, i) == {} && HeldBy(s', i) == {c}
    requires forall k: nat :: k != i ==> HeldBy(s', k) == HeldBy(s, k)
    ensures OnePlaceEach(s')
  {
    hide HeldBy;
    forall p | At(s', c, p)
      ensures p == InCall(i)
    {
      assert p != InCall(i) ==> At(s, c, p);
    }
    Relocate(s, s', {c}, InCall(i));
  }

  /** Entries are taken out of the table and stopped under the lock. */
  lemma TableLetsGo(s: State, s': State, ids: set<string>, failed: set<nat>)
    requires OnePlaceEach(s)
    requires s'.tables.connections == s.tables.connections - ids
    requires s'.live == s.live - (Conns(s.tables, ids) - failed)
    requires s'.abandoned == s.abandoned + Conns(s.tables, ids) * failed
    requires forall k: nat :: HeldBy(s', k) == HeldBy(s, k)
    ensures OnePlaceEach(s')
  {
    hide HeldBy;
    var moved := Conns(s.tables, ids);
    forall c | c in moved
      ensures exists id :: id in ids && At(s, c, InTable(id))
    {
      var id :| id in ids && id in s.tables.connections && s.tables.connections[id].conn == c;
      assert At(s, c, InTable(id));
    }
    forall c, p | c !in moved
      ensures At(s', c, p) <==> At(s, c, p)
    {
      assert p.InTable? && p.id in ids && At(s, c, p) ==> c in moved;
    }
    forall c, p | c in moved && At(s', c, p)
      ensures c in s'.live && p == Abandoned
    {
      var id :| id in ids && At(s, c, InTable(id));
      assert p != Abandoned || c !in failed ==> At(s, c, p);
    }
    Relocate(s, s', moved, Abandoned);
  }

  // ----- Every step keeps the invariant -----

  lemma GotoHolds(s: State, i: nat, call: Call)
    requires i < |s.calls|
    ensures HeldBy(Goto(s, i, call), i) == Held(call)
    ensures forall k: nat :: k != i ==> HeldBy(Goto(s, i, call), k) == HeldBy(s, k)
  {
  }

  lemma BeginHolds(s: State, call: Call)
    ensures HeldBy(Begin(s, call), |s.calls|) == Held(call) && HeldBy(s, |s.calls|) == {}
    ensures forall k: nat :: k != |s.calls| ==> HeldBy(Begin(s, call), k) == HeldBy(s, k)
  {
  }

  /** A step that only moves a call on, and perhaps records a status. */
  lemma QuietGoto(s: State, i: nat, call: Call, t: Tables)
    requires OnePlaceEach(s) && i < |s.calls| && Held(call) == Held(s.calls[i])
    requires t.connections == s.tables.connections
    ensures OnePlaceEach(Goto(s.(tables := t), i, call))
  {
    GotoHolds(s.(tables := t), i, call);
    hide OnePlaceEach, At;
    forall k: nat
      ensures HeldBy(Goto(s.(tables := t), i, call), k) == HeldBy(s, k)
    {
    }
    Quiet(s, Goto(s.(tables := t), i, call));
  }

  lemma SameConnections(t: Tables, cfg: Config, running: bool)
    ensures SetStatus(t, cfg, running).connections == t.connections
  {
  }

  lemma SameCalls(s: State, s': State)
    requires s'.calls == s.calls
    ensures forall k: nat :: HeldBy(s', k) == HeldBy(s, k)
  {
  }

  lemma HoldsCall(s: State, i: nat)
    requires i < |s.calls|
    ensures HeldBy(s, i) == Held(s.calls[i])
  {
  }

  /** The step of a call that takes an entry out of the table. */
  lemma TakesOut(s: State, i: nat, call: Call, id: string)
    requires OnePlaceEach(s) && i < |s.calls| && Held(s.calls[i]) == {}
    requires id in s.tables.connections && Held(call) == {s.tables.connections[id].conn}
    ensures OnePlaceEach(Goto(s.(tables := s.tables.(connections := s.tables.connections - {id})), i, call))
  {
    hide OnePlaceEach, At, HeldBy;
    var world := s.(tables := s.tables.(connections := s.tables.connections - {id}));
    HoldsCall(s, i);
    SameCalls(s, world);
    GotoHolds(world, i, call);
    assert Conns(s.tables, {id}) == {s.tables.connections[id].conn};
    TableToCall(s, Goto(world, i, call), {id}, i);
  }

  /** The step of a call that puts the connection it holds into the table. */
  lemma PutsIn(s: State, i: nat, id: string, e: Entry, cfg: Config, running: bool)
    requires OnePlaceEach(s) && i < |s.calls| && Held(s.calls[i]) == {e.conn} && id !in s.tables.connections
    ensures OnePlaceEach(
              Goto(s.(tables := SetStatus(s.tables.(connections := s.tables.connections[id := e]), cfg, running)),
                   i, Done))
  {
    hide OnePlaceEach, At, HeldBy, SetStatus;
    var t := s.tables.(connections := s.tables.connections[id := e]);
    SameConnections(t, cfg, running);
    var world := s.(tables := SetStatus(t, cfg, running));
    HoldsCall(s, i);
    SameCalls(s, world);
    GotoHolds(world, i, Done);
    CallToTable(s, Goto(world, i, Done), i, id, e);
  }

  /** The step of a call for which a Stop has returned. */
  lemma LetsGo(s: State, i: nat, c: nat, ok: bool, call: Call)
    requires OnePlaceEach(s) && i < |s.calls| && c in Held(s.calls[i]) && Held(call) == Held(s.calls[i]) - {c}
    ensures OnePlaceEach(Goto(Stopped(s, c, ok), i, call))
  {
    hide OnePlaceEach, At, HeldBy;
    HoldsCall(s, i);
    SameCalls(s, Stopped(s, c, ok));
    GotoHolds(Stopped(s, c, ok), i, call);
    CallLetsGo(s, Goto(Stopped(s, c, ok), i, call), i, c, ok);
  }

  /** The step of a call that opens a connection. */
  lemma Opens(s: State, i: nat, call: Call)
    requires OnePlaceEach(s) && i < |s.calls| && Held(s.calls[i]) == {} && Held(call) == {s.total} && s.total !in s.live
    ensures OnePlaceEach(Goto(s.(live := s.live + {s.total}, total := s.total + 1), i, call))
  {
    hide OnePlaceEach, At, HeldBy;
    var world := s.(live := s.live + {s.total}, total := s.total + 1);
    HoldsCall(s, i);
    SameCalls(s, world);
    GotoHolds(world, i, call);
    CallOpens(s, Goto(world, i, call), i, s.total);
  }

  lemma StepKeepsPlaces(s: State, i: nat, a: Answers)
    requires OnePlaceEach(s) && Accounted(s) && i < |s.calls|
    ensures OnePlaceEach(Step(s, i, a))
  {
    hide OnePlaceEach, SetStatus, Goto, Stopped;
    var t := s.tables;
    match s.calls[i]
    case Begun(cfg) =>
      SameConnections(t, cfg, false);
      QuietGoto(s, i, Done, SetStatus(t, cfg, false));
      if cfg.id in t.connections {
        var entry := t.connections[cfg.id];
        SameConnections(t, entry.config, a.running);
        QuietGoto(s, i, Done, SetStatus(t, entry.config, a.running));
        TakesOut(s, i, StopOld(cfg, entry), cfg.id);
      }
      QuietGoto(s, i, Recheck(cfg), t);
    case StopOld(cfg, entry) =>
      QuietGoto(s, i, PutBack(cfg, entry), t);
      LetsGo(s, i, entry.conn, true, Recheck(cfg));
      LetsGo(s, i, entry.conn, false, Failed(cfg));
    case PutBack(cfg, entry) =>
      LetsGo(s, i, entry.conn, false, Done);
      if cfg.id !in t.connections {
        PutsIn(s, i, cfg.id, entry, entry.config, a.running);
      }
    case Recheck(cfg) =>
      SameConnections(t, cfg, false);
      QuietGoto(s, i, Done, SetStatus(t, cfg, false));
      if cfg.id in t.connections {
        SameConnections(t, t.connections[cfg.id].config, a.running);
        QuietGoto(s, i, Done, SetStatus(t, t.connections[cfg.id].config, a.running));
      }
      QuietGoto(s, i, Connecting(cfg), t);
    case Connecting(cfg) =>
      Opens(s, i, Inserting(cfg, s.total));
      QuietGoto(s, i, Failed(cfg), t);
    case Inserting(cfg, c) =>
      if cfg.id in t.connections {
        SameConnections(t, t.connections[cfg.id].config, a.running);
        QuietGoto(s, i, Stopping({c}), SetStatus(t, t.connections[cfg.id].config, a.running));
      } else {
        PutsIn(s, i, cfg.id, Entry(cfg, c), cfg, true);
      }
    case Stopping(cs) =>
      if a.pick in cs {
        LetsGo(s, i, a.pick, a.stop == Ok, Stopping(cs - {a.pick}));
      }
    case Failed(cfg) =>
      SameConnections(t, cfg, false);
      QuietGoto(s, i, Done, SetStatus(t, cfg, false));
    case Done =>
  }

  // ----- Actions -----

  lemma HandsOver(s: State, t: Tables, ids: set<string>)
    requires OnePlaceEach(s) && t.connections == s.tables.connections - ids
    ensures OnePlaceEach(Begin(s.(tables := t), Stopping(Conns(s.tables, ids))))
  {
    hide OnePlaceEach, At, HeldBy;
    var call := Stopping(Conns(s.tables, ids));
    SameCalls(s, s.(tables := t));
    BeginHolds(s, call);
    BeginHolds(s.(tables := t), call);
    TableToCall(s, Begin(s.(tables := t), call), ids, |s.calls|);
  }

  lemma ActionKeepsPlaces(s: State, a: Action)
    requires OnePlaceEach(s) && Accounted(s)
    ensures OnePlaceEach(Apply(s, a))
  {
    hide OnePlaceEach, At, HeldBy, SetStatus, TrimSpace, Conns;
    match a
    case Ensure(cfg) =>
      BeginHolds(s, Begun(cfg));
      forall k: nat
        ensures HeldBy(Begin(s, Begun(cfg)), k) == HeldBy(s, k)
      {
      }
      Quiet(s, Begin(s, Begun(cfg)));
    case RemoveByID(id) =>
      RemovalKeepsPlaces(s, id);
    case StopByID(id) =>
      RemovalKeepsPlaces(s, TrimSpace(id));
    case StopByBot(botID) =>
      HandsOver(s, Swept(s.tables, OfBot(TrimSpace(botID))), Selected(s.tables, OfBot(TrimSpace(botID))));
    case SweepAndStop(sel, unstoppable) =>
      SameCalls(s, Apply(s, a));
      TableLetsGo(s, Apply(s, a), Selected(s.tables, sel), unstoppable);
    case MarkStatus(cfg, running) =>
      SameConnections(s.tables, cfg, running);
      SameCalls(s, Apply(s, a));
      Quiet(s, Apply(s, a));
    case Advance(i, answers) =>
      if i < |s.calls| {
        StepKeepsPlaces(s, i, answers);
      }
  }

  lemma RemovalKeepsPlaces(s: State, id: string)
    requires OnePlaceEach(s)
    ensures id in s.tables.connections ==> OnePlaceEach(TakeOut(s, id))
    ensures OnePlaceEach(s.(tables := s.tables.(meta := s.tables.meta - {id})))
  {
    hide OnePlaceEach, At, HeldBy;
    var forgot := s.(tables := s.tables.(meta := s.tables.meta - {id}));
    SameCalls(s, forgot);
    Quiet(s, forgot);
    if id in s.tables.connections {
      assert Conns(s.tables, {id}) == {s.tables.connections[id].conn};
      HandsOver(s, Drop(s.tables, {id}), {id});
    }
  }

  lemma ActionKeepsAccounts(s: State, a: Action)
    requires OnePlaceEach(s) && Accounted(s)
    ensures Accounted(Apply(s, a))
  {
    hide SetStatus, TrimSpace, OnePlaceEach, At;
    match a
    case SweepAndStop(sel, unstoppable) =>
      forall c | c in Conns(s.tables, Selected(s.tables, sel))
        ensures c in s.live
      {
        var id :| id in s.tables.connections && s.tables.connections[id].conn == c;
        TabledIsLive(s, id);
      }
    case Advance(i, answers) =>
      if i < |s.calls| {
        forall c | c in Held(s.calls[i])
          ensures c in s.live
        {
          HeldIsLive(s, i, c);
        }
      }
    case _ =>
  }

  lemma TabledIsLive(s: State, id: string)
    requires OnePlaceEach(s) && id in s.tables.connections
    ensures s.tables.connections[id].conn in s.live
  {
    assert At(s, s.tables.connections[id].conn, InTable(id));
  }

  /** No connection is ever stopped again: whatever a call is about to stop is still open. */
  lemma HeldIsLive(s: State, i: nat, c: nat)
    requires OnePlaceEach(s) && i < |s.calls| && c in Held(s.calls[i])
    ensures c in s.live
  {
    assert At(s, c, InCall(i));
  }

  /** The table is keyed by config id, and what it holds has a status unless the id is blank. */
  ghost predicate TableKeyed(t: Tables) {
    && (forall id :: id in t.connections ==> t.connections[id].config.id == id)
    && (forall id :: id in t.connections && !Blank(id) ==> id in t.meta)
  }

  predicate CallKeyed(call: Call) {
    call.StopOld? || call.PutBack? ==> call.entry.config.id == call.cfg.id
  }

  ghost predicate Keyed(s: State) {
    TableKeyed(s.tables) && forall i :: 0 <= i < |s.calls| ==> CallKeyed(s.calls[i])
  }

  lemma StatusKeeps(t: Tables, cfg: Config, running: bool)
    requires TableKeyed(t)
    ensures TableKeyed(SetStatus(t, cfg, running))
  {
    hide Blank;
  }

  lemma InsertKeeps(t: Tables, e: Entry, running: bool)
    requires TableKeyed(t)
    ensures TableKeyed(SetStatus(t.(connections := t.connections[e.config.id := e]), e.config, running))
  {
    hide Blank;
  }

  lemma RemovalKeeps(t: Tables, ids: set<string>, sel: Selector)
    requires TableKeyed(t)
    ensures TableKeyed(t.(connections := t.connections - ids)) && TableKeyed(Drop(t, ids)) && TableKeyed(Swept(t, sel))
    ensures ids !! t.connections.Keys ==> TableKeyed(t.(meta := t.meta - ids))
  {
    hide Blank;
  }

  lemma StepKeepsKeys(s: State, i: nat, a: Answers)
    requires Keyed(s) && i < |s.calls|
    ensures Keyed(Step(s, i, a))
  {
    hide TableKeyed, SetStatus;
    var t := s.tables;
    match s.calls[i]
    case Begun(cfg) =>
      StatusKeeps(t, cfg, false);
      if cfg.id in t.connections {
        StatusKeeps(t, t.connections[cfg.id].config, a.running);
        EntryKeyed(t, cfg.id);
        RemovalKeeps(t, {cfg.id}, All);
      }
    case StopOld(cfg, entry) =>
    case PutBack(cfg, entry) =>
      InsertKeeps(t, entry, a.running);
    case Recheck(cfg) =>
      StatusKeeps(t, cfg, false);
      if cfg.id in t.connections {
        StatusKeeps(t, t.connections[cfg.id].config, a.running);
      }
    case Connecting(cfg) =>
    case Inserting(cfg, c) =>
      InsertKeeps(t, Entry(cfg, c), true);
      if cfg.id in t.connections {
        StatusKeeps(t, t.connections[cfg.id].config, a.running);
      }
    case Stopping(cs) =>
    case Failed(cfg) =>
      StatusKeeps(t, cfg, false);
    case Done =>
  }

  lemma EntryKeyed(t: Tables, id: string)
    requires TableKeyed(t) && id in t.connections
    ensures t.connections[id].config.id == id
  {
  }

  lemma ActionKeepsKeys(s: State, a: Action)
    requires Keyed(s)
    ensures Keyed(Apply(s, a))
  {
    hide TableKeyed, SetStatus, TrimSpace, Conns, Drop, Swept, Step;
    match a
    case Ensure(cfg) =>
    case RemoveByID(id) =>
      RemovalKeeps(s.tables, {id}, All);
    case StopByID(id) =>
      RemovalKeeps(s.tables, {TrimSpace(id)}, All);
    case StopByBot(botID) =>
      RemovalKeeps(s.tables, {}, OfBot(TrimSpace(botID)));
    case SweepAndStop(sel, unstoppable) =>
      RemovalKeeps(s.tables, {}, sel);
    case MarkStatus(cfg, running) =>
      StatusKeeps(s.tables, cfg, running);
    case Advance(i, answers) =>
      if i < |s.calls| {
        StepKeepsKeys(s, i, answers);
      }
  }

  /** Every step of every interleaving keeps the invariant. */
  lemma ActionKeepsInv(s: State, a: Action)
    requires Inv(s)
    ensures Inv(Apply(s, a))
  {
    hide OnePlaceEach, Accounted, Keyed;
    ActionKeepsPlaces(s, a);
    ActionKeepsAccounts(s, a);
    ActionKeepsKeys(s, a);
  }

  lemma StartInv()
    ensures Inv(START)
  {
    forall c, p
      ensures !At(START, c, p)
    {
    }
    assert START.calls == [] && START.tables.connections == map[];
    assert TableKeyed(START.tables);
  }

  lemma {:induction false} RunsKeepInv(actions: seq<Action>)
    ensures Inv(Run(actions))
  {
    hide Inv, Apply;
    if actions == [] {
      StartInv();
    } else {
      RunsKeepInv(actions[..|actions| - 1]);
      ActionKeepsInv(Run(actions[..|actions| - 1]), actions[|actions| - 1]);
    }
  }

  // ----- What follows for every run -----

  predicate StopSucceeds(a: Action) {
    match a
    case Advance(_, answers) => answers.stop == Ok
    case SweepAndStop(_, unstoppable) => unstoppable == {}
    case _ => true
  }

  ghost predicate NoFailedStop(s: State) {
    s.abandoned == {} && forall i :: 0 <= i < |s.calls| ==> !s.calls[i].PutBack?
  }

  lemma StepAbandonsNothing(s: State, i: nat, a: Answers)
    requires NoFailedStop(s) && i < |s.calls| && a.stop == Ok
    ensures NoFailedStop(Step(s, i, a))
  {
    hide SetStatus;
    assert !s.calls[i].PutBack?;
  }

  lemma ActionAbandonsNothing(s: State, a: Action)
    requires NoFailedStop(s) && StopSucceeds(a)
    ensures NoFailedStop(Apply(s, a))
  {
    hide SetStatus, TrimSpace, Conns, Swept, Drop, Step;
    if a.Advance? && a.i < |s.calls| {
      StepAbandonsNothing(s, a.i, a.answers);
    }
  }

  /** Connections are only ever abandoned by a Stop that does not succeed. */
  lemma {:induction false} NothingAbandoned(actions: seq<Action>)
    requires forall i :: 0 <= i < |actions| ==> StopSucceeds(actions[i])
    ensures NoFailedStop(Run(actions))
  {
    hide Apply, StopSucceeds;
    if actions != [] {
      NothingAbandoned(actions[..|actions| - 1]);
      ActionAbandonsNothing(Run(actions[..|actions| - 1]), actions[|actions| - 1]);
    }
  }

  /** At every moment of every interleaving an open connection is either in the table, under
      exactly one id, or held by exactly one call in progress, or was abandoned by a failed
      Stop; what is not open has been stopped and is nowhere. The table is keyed by config id,
      and every id in it that is not blank has a status. */
  lemma EveryConnectionHasOneOwner(actions: seq<Action>, c: nat)
    ensures var s := Run(actions);
            && (c in s.live ==> exists p :: At(s, c, p) && forall q :: At(s, c, q) ==> q == p)
            && (c in s.stopped ==> c !in s.live && forall p :: !At(s, c, p))
            && (c < s.total <==> c in s.live || c in s.stopped)
            && (forall id :: id in s.tables.connections ==> s.tables.connections[id].config.id == id)
            && (forall id :: id in s.tables.connections && !Blank(id) ==> id in s.tables.meta)
  {
    hide At, Run, Blank;
    RunsKeepInv(actions);
  }

  /** When no call is in progress and every Stop has succeeded, the open connections are
      exactly those of the table, at most one for each config id, and every id that is not
      blank has a status. */
  lemma AtRestTheTableIsAll(actions: seq<Action>)
    requires forall i :: 0 <= i < |actions| ==> StopSucceeds(actions[i])
    requires var s := Run(actions); forall i :: 0 <= i < |s.calls| ==> Held(s.calls[i]) == {}
    ensures var s := Run(actions);
            && s.live == Conns(s.tables, s.tables.connections.Keys)
            && (forall id, id' :: id in s.tables.connections && id' in s.tables.connections && id != id' ==>
                  s.tables.connections[id].conn != s.tables.connections[id'].conn)
            && (forall id :: id in s.tables.connections ==> s.tables.connections[id].config.id == id)
            && (forall id :: id in s.tables.connections && !Blank(id) ==> id in s.tables.meta)
  {
    hide Run, StopSucceeds, Blank;
    var s := Run(actions);
    RunsKeepInv(actions);
    NothingAbandoned(actions);
    forall c | c in s.live
      ensures c in Conns(s.tables, s.tables.connections.Keys)
    {
      var p :| At(s, c, p);
      assert p.InTable?;
    }
    forall id | id in s.tables.connections
      ensures At(s, s.tables.connections[id].conn, InTable(id))
    {
    }
  }
}
