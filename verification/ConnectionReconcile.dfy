/** What reconciling the connections with a list of configs achieves, and what other calls can
    do to a call that they interleave with. */
module ConnectionReconcile {
  import opened Text
  import opened Connections
  import opened ConnectionProtocol
  import opened ConnectionCalls

  // ----- A reconcile that nothing interrupts -----

  predicate Wanted(cfg: Config) {
    cfg.id != "" && !cfg.disabled
  }

  /** The ids that are to have a connection. */
  function Active(configs: seq<Config>): set<string> {
    set cfg | cfg in configs && Wanted(cfg) :: cfg.id
  }

  /** The loop of reconcile: one ensureConnection call after the other. */
  function EnsureEach(s: State, configs: seq<Config>, replies: seq<Replies>): State
    requires |configs| == |replies|
  {
    if configs == [] then s
    else
      var n := |configs| - 1;
      var before := EnsureEach(s, configs[..n], replies[..n]);
      if Wanted(configs[n]) then EnsureAlone(before, configs[n], replies[n]) else before
  }

  function Reconcile(s: State, configs: seq<Config>, replies: seq<Replies>): State
    requires |configs| == |replies|
  {
    Apply(EnsureEach(s, configs, replies), SweepAndStop(NotActive(Active(configs)), {}))
  }

  lemma {:induction false} AloneKeepsInv(s: State, i: nat, r: Replies, n: nat)
    requires Inv(s) && i < |s.calls|
    ensures Inv(Alone(s, i, r, n))
    decreases n
  {
    hide Inv, SetStatus;
    if n > 0 {
      ActionKeepsInv(s, Advance(i, r.To(s.calls[i])));
      AloneKeepsInv(Step(s, i, r.To(s.calls[i])), i, r, n - 1);
    }
  }

  lemma EnsureKeepsInv(s: State, cfg: Config, r: Replies)
    requires Inv(s)
    ensures Inv(EnsureAlone(s, cfg, r))
  {
    hide Inv, Alone;
    if cfg.id != "" {
      ActionKeepsInv(s, Ensure(cfg));
      AloneKeepsInv(Apply(s, Ensure(cfg)), |s.calls|, r, 5);
    }
  }

  /** The calls of s are where they were, and none that came later holds anything. */
  predicate Continues(s: State, s': State) {
    && s.calls <= s'.calls && s'.abandoned == s.abandoned && s.total <= s'.total
    && forall k :: |s.calls| <= k < |s'.calls| ==> s'.calls[k] == Done
  }

  /** An enabled config of the list is newer than the entry. */
  predicate Outdates(configs: seq<Config>, id: string, e: Entry) {
    exists cfg :: cfg in configs && Wanted(cfg) && cfg.id == id && e.config.updatedAt < cfg.updatedAt
  }

  /** The entry of an id: as before, or newly opened for one of the configs (numbered `from` or
      more), and the former iff none of them is newer. */
  predicate RightEntry(t: Tables, t': Tables, configs: seq<Config>, id: string, from: nat)
    requires id in t'.connections
  {
    var e := t'.connections[id];
    && !Outdates(configs, id, e)
    && (if id in t.connections && !Outdates(configs, id, t.connections[id]) then e == t.connections[id]
        else e.conn >= from && e.config in configs && Wanted(e.config) && e.config.id == id)
  }

  predicate RightStatus(t: Tables, id: string)
    requires id in t.connections
  {
    Blank(id) || (id in t.meta && t.meta[id].config == t.connections[id].config)
  }

  /** The table after the calls for some configs. */
  ghost predicate Agrees(t: Tables, t': Tables, configs: seq<Config>, from: nat) {
    && t'.connections.Keys == t.connections.Keys + Active(configs)
    && (forall id :: id in t'.connections ==> RightEntry(t, t', configs, id, from))
    && (forall id :: id in Active(configs) ==> RightStatus(t', id))
  }

  lemma OutdatesSnoc(configs: seq<Config>, cfg: Config, id: string, e: Entry)
    ensures Outdates(configs + [cfg], id, e)
            <==> Outdates(configs, id, e) || (Wanted(cfg) && cfg.id == id && e.config.updatedAt < cfg.updatedAt)
  {
    assert forall c :: c in configs + [cfg] <==> c in configs || c == cfg;
  }

  lemma ActiveSnoc(configs: seq<Config>, cfg: Config)
    ensures Active(configs + [cfg]) == Active(configs) + if Wanted(cfg) then {cfg.id} else {}
  {
    var more := configs + [cfg];
    assert forall c :: c in more <==> c in configs || c == cfg;
  }

  /** One more call, for one id. */
  lemma RightEntrySnoc(t: Tables, t1: Tables, t2: Tables, configs: seq<Config>, cfg: Config, id: string,
                       from: nat)
    requires id in t2.connections
    requires if id in t1.connections then RightEntry(t, t1, configs, id, from)
             else id !in t.connections && id !in Active(configs)
    requires if id == cfg.id && !Serves(t1, cfg) then
               t2.connections[id].config == cfg && t2.connections[id].conn >= from
             else id in t1.connections && t2.connections[id] == t1.connections[id]
    requires Wanted(cfg)
    ensures RightEntry(t, t2, configs + [cfg], id, from)
  {
    hide Outdates, Wanted, Active;
    OutdatesSnoc(configs, cfg, id, t2.connections[id]);
    if id in t.connections {
      OutdatesSnoc(configs, cfg, id, t.connections[id]);
    }
    if id in t1.connections {
      OutdatesLess(configs, id, t1.connections[id], t2.connections[id]);
    } else {
      NoneActive(configs, id, t2.connections[id]);
    }
  }

  lemma AgreesSnoc(t: Tables, t1: Tables, t2: Tables, configs: seq<Config>, cfg: Config, c: nat, running: bool,
                   from: nat)
    requires Agrees(t, t1, configs, from) && c >= from && Wanted(cfg)
    requires t2.connections == if Serves(t1, cfg) then t1.connections else t1.connections[cfg.id := Entry(cfg, c)]
    requires t2.meta == if Blank(cfg.id) then t1.meta
                        else t1.meta[cfg.id := Status(t2.connections[cfg.id].config, running)]
    ensures Agrees(t, t2, configs + [cfg], from)
  {
    hide RightEntry, Blank, Wanted, Active;
    ActiveSnoc(configs, cfg);
    assert t2.connections.Keys == t1.connections.Keys + {cfg.id};
    forall id | id in t2.connections
      ensures RightEntry(t, t2, configs + [cfg], id, from)
    {
      RightEntrySnoc(t, t1, t2, configs, cfg, id, from);
    }
  }

  lemma OutdatesLess(configs: seq<Config>, id: string, e: Entry, e': Entry)
    requires e.config.updatedAt <= e'.config.updatedAt && !Outdates(configs, id, e)
    ensures !Outdates(configs, id, e')
  {
  }

  lemma NoneActive(configs: seq<Config>, id: string, e: Entry)
    requires id !in Active(configs)
    ensures !Outdates(configs, id, e)
  {
  }

  lemma NothingYet(t: Tables, from: nat)
    ensures Agrees(t, t, [], from)
  {
    assert Active([]) == {};
    assert forall id, e :: !Outdates([], id, e);
  }

  /** A call that is answered well, in a world that meets the invariant. */
  lemma OneEnsured(s: State, s1: State, configs: seq<Config>, cfg: Config, r: Replies)
    requires Inv(s1) && Continues(s, s1) && Agrees(s.tables, s1.tables, configs, s.total) && Wanted(cfg) && r.Good()
    ensures var s2 := EnsureAlone(s1, cfg, r);
            Inv(s2) && Continues(s, s2) && Agrees(s.tables, s2.tables, configs + [cfg], s.total)
  {
    hide Agrees, Inv, EnsureAlone, Blank;
    var s2 := EnsureAlone(s1, cfg, r);
    EnsureKeepsInv(s1, cfg, r);
    EnsureAchieves(s1, cfg, r);
    AgreesSnoc(s.tables, s1.tables, s2.tables, configs, cfg, s1.total, Serves(s1.tables, cfg) ==> r.running,
               s.total);
  }

  lemma {:induction false} EachAgrees(s: State, configs: seq<Config>, replies: seq<Replies>)
    requires Inv(s) && |configs| == |replies| && forall k :: 0 <= k < |replies| ==> replies[k].Good()
    ensures var s1 := EnsureEach(s, configs, replies);
            Inv(s1) && Continues(s, s1) && Agrees(s.tables, s1.tables, configs, s.total)
  {
    hide Agrees, Inv, EnsureAlone, Wanted, Continues;
    if configs == [] {
      NothingYet(s.tables, s.total);
      Continued(s);
    } else {
      var n := |configs| - 1;
      EachAgrees(s, configs[..n], replies[..n]);
      var s1 := EnsureEach(s, configs[..n], replies[..n]);
      assert configs == configs[..n] + [configs[n]];
      if Wanted(configs[n]) {
        OneEnsured(s, s1, configs[..n], configs[n], replies[n]);
      } else {
        AgreesSkip(s.tables, s1.tables, configs[..n], configs[n], s.total);
      }
    }
  }

  lemma Continued(s: State)
    ensures Continues(s, s)
  {
  }

  lemma AgreesSkip(t: Tables, t1: Tables, configs: seq<Config>, cfg: Config, from: nat)
    requires Agrees(t, t1, configs, from) && !Wanted(cfg)
    ensures Agrees(t, t1, configs + [cfg], from)
  {
    hide Outdates, Wanted, Active;
    ActiveSnoc(configs, cfg);
    forall id | id in t1.connections
      ensures RightEntry(t, t1, configs + [cfg], id, from)
    {
      assert RightEntry(t, t1, configs, id, from);
      OutdatesSnoc(configs, cfg, id, t1.connections[id]);
      if id in t.connections {
        OutdatesSnoc(configs, cfg, id, t.connections[id]);
      }
    }
  }

  /** Every connection of the table. */
  function AllConns(t: Tables): set<nat> {
    Conns(t, t.connections.Keys)
  }

  /** Between two worlds that differ in the table and in nobody's hands, what becomes of the
      open connections shows in the table. */
  lemma TableTells(s: State, s': State, c: nat)
    requires Inv(s) && Inv(s') && Continues(s, s') && c in s.live
    ensures c in s'.live <==> (c in AllConns(s.tables) ==> c in AllConns(s'.tables))
  {
    hide Accounted, Keyed, AllConns;
    TableHas(s, c);
    TableHas(s', c);
    var p :| At(s, c, p);
    if p.InTable? {
      if c in s'.live {
        var q :| At(s', c, q);
        assert !q.InTable? ==> At(s, c, q);
      }
    } else {
      assert At(s', c, p);
    }
  }

  lemma TableHas(s: State, c: nat)
    ensures c in AllConns(s.tables) <==> exists id :: At(s, c, InTable(id))
  {
    forall id | At(s, c, InTable(id))
      ensures c in AllConns(s.tables)
    {
    }
    if c in AllConns(s.tables) {
      var id :| id in s.tables.connections && s.tables.connections[id].conn == c;
      assert At(s, c, InTable(id));
    }
  }

  /** After a reconcile that is answered well the table has an entry for exactly the enabled
      configs. An entry that no config of the list is newer than is kept as it is, any other
      was opened for a config of the list, and none is outdated. Of the connections that were
      open before, those of the table that have no entry any more have been stopped and all
      others are open; and every entry has a status of its own config. */
  lemma ReconcileAchieves(s: State, configs: seq<Config>, replies: seq<Replies>)
    requires Inv(s) && |configs| == |replies| && forall k :: 0 <= k < |replies| ==> replies[k].Good()
    ensures var s', t, t' := Reconcile(s, configs, replies), s.tables, Reconcile(s, configs, replies).tables;
            && Inv(s') && Continues(s, s')
            && t'.connections.Keys == Active(configs)
            && (forall id :: id in t'.connections ==> RightEntry(t, t', configs, id, s.total) && RightStatus(t', id))
            && (forall id :: id in t'.meta ==> id in t'.connections)
            && (forall c :: c in s.live ==> (c in s'.live <==> (c in AllConns(t) ==> c in AllConns(t'))))
            && (forall c :: c in s.live && c !in s'.live ==> c in s'.stopped)
  {
    hide Inv, Agrees, Wanted, RightEntry, RightStatus, Active, Outdates, Blank, AllConns, Swept, Selected;
    var s1 := EnsureEach(s, configs, replies);
    var s' := Reconcile(s, configs, replies);
    EachAgrees(s, configs, replies);
    ActionKeepsInv(s1, SweepAndStop(NotActive(Active(configs)), {}));
    SweepAgrees(s.tables, s1.tables, configs, s.total);
    SweepContinues(s, s1, NotActive(Active(configs)));
    forall c | c in s.live
      ensures c in s'.live <==> (c in AllConns(s.tables) ==> c in AllConns(s'.tables))
      ensures c !in s'.live ==> c in s'.stopped
    {
      TableTells(s, s', c);
      LiveOrStopped(s, s', c);
    }
  }

  lemma SweepContinues(s: State, s1: State, sel: Selector)
    requires Continues(s, s1)
    ensures Continues(s, Apply(s1, SweepAndStop(sel, {})))
  {
    hide Swept;
    var taken := Conns(s1.tables, Selected(s1.tables, sel));
    assert taken * {} == {};
  }

  lemma LiveOrStopped(s: State, s': State, c: nat)
    requires Inv(s) && Inv(s') && s.total <= s'.total && c in s.live
    ensures c in s'.live || c in s'.stopped
  {
    hide OnePlaceEach, Keyed;
  }

  lemma SweepAgrees(t: Tables, t1: Tables, configs: seq<Config>, from: nat)
    requires Agrees(t, t1, configs, from)
    ensures var t' := Swept(t1, NotActive(Active(configs)));
            && t'.connections.Keys == Active(configs)
            && (forall id :: id in t'.connections ==> RightEntry(t, t', configs, id, from) && RightStatus(t', id))
            && (forall id :: id in t'.meta ==> id in t'.connections)
  {
    hide Outdates, Active, Blank, Wanted;
    var t' := Swept(t1, NotActive(Active(configs)));
    forall id | id in t'.connections
      ensures RightEntry(t, t', configs, id, from) && RightStatus(t', id)
    {
      assert id in t1.connections && RightEntry(t, t1, configs, id, from);
      assert RightStatus(t1, id);
    }
  }

  /** A call for a config that is served opens and stops nothing, however it is answered. */
  lemma ServedStays(s: State, cfg: Config, r: Replies)
    requires Inv(s) && Wanted(cfg) && Serves(s.tables, cfg)
    ensures SameWorld(s, EnsureAlone(s, cfg, r))
  {
    hide Inv, EnsureAlone;
    EnsureAchieves(s, cfg, r);
  }

  /** The same connections, all of them open or not as before. */
  predicate SameWorld(s: State, s': State) {
    && s'.tables.connections == s.tables.connections && s'.total == s.total
    && s'.live == s.live && s'.stopped == s.stopped && s'.abandoned == s.abandoned
  }

  lemma {:induction false} EachServedStays(s: State, configs: seq<Config>, replies: seq<Replies>)
    requires Inv(s) && |configs| == |replies|
    requires forall cfg :: cfg in configs && Wanted(cfg) ==> Serves(s.tables, cfg)
    ensures SameWorld(s, EnsureEach(s, configs, replies)) && Inv(EnsureEach(s, configs, replies))
  {
    hide Inv, EnsureAlone, Wanted;
    if configs != [] {
      var n := |configs| - 1;
      assert configs == configs[..n] + [configs[n]];
      EachServedStays(s, configs[..n], replies[..n]);
      var s1 := EnsureEach(s, configs[..n], replies[..n]);
      if Wanted(configs[n]) {
        EnsureKeepsInv(s1, configs[n], replies[n]);
        ServedStays(s1, configs[n], replies[n]);
      }
    }
  }

  /** Reconciling again with the same configs opens and stops nothing, however the calls are
      answered: unchanged configs are never restarted. */
  lemma ReconcileTwice(s: State, configs: seq<Config>, replies: seq<Replies>, again: seq<Replies>)
    requires Inv(s) && |configs| == |replies| == |again| && forall k :: 0 <= k < |replies| ==> replies[k].Good()
    ensures var s' := Reconcile(s, configs, replies); SameWorld(s', Reconcile(s', configs, again))
  {
    hide Inv, EnsureEach, Outdates, Continues, AllConns, RightStatus, Blank;
    var s' := Reconcile(s, configs, replies);
    ReconcileAchieves(s, configs, replies);
    forall cfg | cfg in configs && Wanted(cfg)
      ensures Serves(s'.tables, cfg)
    {
      ActiveServed(s.tables, s'.tables, configs, cfg, s.total);
    }
    EachServedStays(s', configs, again);
    SweepNothing(EnsureEach(s', configs, again), Active(configs));
  }

  lemma ActiveServed(t: Tables, t': Tables, configs: seq<Config>, cfg: Config, from: nat)
    requires t'.connections.Keys == Active(configs) && cfg in configs && Wanted(cfg)
    requires forall id :: id in t'.connections ==> RightEntry(t, t', configs, id, from)
    ensures Serves(t', cfg)
  {
    assert cfg.id in Active(configs);
    assert RightEntry(t, t', configs, cfg.id, from);
  }

  lemma SweepNothing(s: State, active: set<string>)
    requires s.tables.connections.Keys == active
    ensures SameWorld(s, Apply(s, SweepAndStop(NotActive(active), {})))
  {
    assert Selected(s.tables, NotActive(active)) == {};
    assert Conns(s.tables, {}) == {};
    assert s.tables.connections - {} == s.tables.connections;
  }

  // ----- Calls that interleave -----

  /** The only step that takes an entry out of the table is the first of a call for a newer
      config of the same id; and no step changes an entry in place. */
  lemma TakenOutIffOlder(s: State, i: nat, a: Answers, id: string)
    requires i < |s.calls| && id in s.tables.connections
    ensures var t' := Step(s, i, a).tables;
            id !in t'.connections <==>
              s.calls[i].Begun? && s.calls[i].cfg.id == id && a.hasReceiver && Outdated(s.tables, s.calls[i].cfg)
    ensures var t' := Step(s, i, a).tables;
            id in t'.connections ==> t'.connections[id] == s.tables.connections[id]
  {
    hide Blank;
  }

  /** What a call is about to stop or put back for a restart is older than its config. */
  predicate HoldsOlder(call: Call) {
    call.StopOld? || call.PutBack? ==> call.entry.config.updatedAt < call.cfg.updatedAt
  }

  lemma {:induction false} OnlyOlderAreStopped(actions: seq<Action>, i: nat)
    requires i < |Run(actions).calls|
    ensures HoldsOlder(Run(actions).calls[i])
  {
    hide Step, HoldsOlder, TrimSpace, Blank, SetStatus, Swept;
    if actions != [] {
      var s, a := Run(actions[..|actions| - 1]), actions[|actions| - 1];
      forall k | 0 <= k < |s.calls|
        ensures HoldsOlder(s.calls[k])
      {
        OnlyOlderAreStopped(actions[..|actions| - 1], k);
      }
      ActionHoldsOlder(s, a, i);
    }
  }

  lemma ActionHoldsOlder(s: State, a: Action, i: nat)
    requires i < |Apply(s, a).calls| && forall k :: 0 <= k < |s.calls| ==> HoldsOlder(s.calls[k])
    ensures HoldsOlder(Apply(s, a).calls[i])
  {
    hide TrimSpace, Blank, SetStatus, Swept, Conns;
    if a.Advance? && a.i < |s.calls| {
      assert HoldsOlder(s.calls[a.i]);
    }
  }

  /** Whether another call has come first: the step finds an older entry in the place that the
      call saw free. */
  predicate Overtaken(s: State, i: nat)
    requires i < |s.calls|
  {
    match s.calls[i]
    case Recheck(cfg) => Outdated(s.tables, cfg)
    case Inserting(cfg, _) => Outdated(s.tables, cfg)
    case _ => false
  }

  /** Among other calls, the step with which a well answered call comes to its end leaves its
      config served exactly unless another call has put an older entry in its place meanwhile. */
  lemma ServedUnlessOvertaken(s: State, i: nat, a: Answers)
    requires i < |s.calls| && a.hasReceiver && a.stop == Ok && a.connected
    requires s.calls[i].Begun? || s.calls[i].Recheck? || s.calls[i].Connecting? || s.calls[i].Inserting?
    requires var next := Step(s, i, a).calls[i]; next.Done? || next.Stopping?
    ensures Serves(Step(s, i, a).tables, s.calls[i].cfg) <==> !Overtaken(s, i)
  {
    hide Blank;
  }

  lemma RunSnoc(actions: seq<Action>, a: Action)
    ensures Run(actions + [a]) == Apply(Run(actions), a)
  {
    assert (actions + [a])[..|actions|] == actions;
  }

  /** Answered well throughout, a call for a newer config can come to nothing: a call for the
      older one that runs between its looks at the table has the place. */
  lemma NewerCanLose(older: Config, newer: Config, a: Answers) returns (actions: seq<Action>)
    requires older.id == newer.id != "" && older.updatedAt < newer.updatedAt
    requires a.hasReceiver && a.stop == Ok && a.connected
    ensures forall k :: 0 <= k < |actions| ==>
              actions[k] in {Ensure(newer), Ensure(older), Advance(0, a), Advance(1, a)}
    ensures var s := Run(actions);
            && s.calls == [Done, Done] && s.tables.connections == map[newer.id := Entry(older, 0)]
            && !Serves(s.tables, newer)
  {
    hide SetStatus, Step, Apply, Run;
    var look, theirs := Advance(0, a), Advance(1, a);
    actions := [Ensure(newer), Ensure(older), look];
    LosesStart(older, newer, a);
    var s := Run(actions);
    actions := actions + [theirs] + [theirs] + [theirs] + [theirs] + [look];
    RunSnoc([Ensure(newer), Ensure(older), look] + [theirs] + [theirs] + [theirs] + [theirs], look);
    RunSnoc([Ensure(newer), Ensure(older), look] + [theirs] + [theirs] + [theirs], theirs);
    RunSnoc([Ensure(newer), Ensure(older), look] + [theirs] + [theirs], theirs);
    RunSnoc([Ensure(newer), Ensure(older), look] + [theirs], theirs);
    RunSnoc([Ensure(newer), Ensure(older), look], theirs);
    LosesBetween(s, older, newer, a);
  }

  lemma LosesStart(older: Config, newer: Config, a: Answers)
    requires older.id == newer.id != "" && a.hasReceiver
    ensures Run([Ensure(newer), Ensure(older), Advance(0, a)])
            == START.(calls := [ConnectionProtocol.Recheck(newer), Begun(older)])
  {
    hide Step, Apply, Run;
    RunSnoc([Ensure(newer), Ensure(older)], Advance(0, a));
    RunSnoc([Ensure(newer)], Ensure(older));
    RunSnoc([], Ensure(newer));
    assert [Ensure(newer)] + [Ensure(older)] == [Ensure(newer), Ensure(older)];
    assert [Ensure(newer), Ensure(older)] + [Advance(0, a)] == [Ensure(newer), Ensure(older), Advance(0, a)];
    LooksFree(older, newer, a);
  }

  lemma LooksFree(older: Config, newer: Config, a: Answers)
    requires older.id == newer.id != "" && a.hasReceiver
    ensures Run([]) == START && [] + [Ensure(newer)] == [Ensure(newer)]
    ensures Apply(Apply(Apply(START, Ensure(newer)), Ensure(older)), Advance(0, a))
            == START.(calls := [ConnectionProtocol.Recheck(newer), Begun(older)])
  {
    var s := Apply(Apply(START, Ensure(newer)), Ensure(older));
    assert s == START.(calls := [Begun(newer), Begun(older)]);
  }

  lemma LosesBetween(s: State, older: Config, newer: Config, a: Answers)
    requires older.id == newer.id && older.updatedAt < newer.updatedAt && a.hasReceiver && a.connected
    requires s == START.(calls := [ConnectionProtocol.Recheck(newer), Begun(older)])
    ensures var theirs := Advance(1, a);
            var s' := Apply(Apply(Apply(Apply(Apply(s, theirs), theirs), theirs), theirs), Advance(0, a));
            s'.calls == [Done, Done] && s'.tables.connections == map[newer.id := Entry(older, 0)]
  {
    hide SetStatus;
    var theirs, first := Advance(1, a), ConnectionProtocol.Recheck(newer);
    var s1 := Apply(s, theirs);
    assert s1 == START.(calls := [first, ConnectionProtocol.Recheck(older)]);
    var s2 := Apply(s1, theirs);
    assert s2 == START.(calls := [first, Connecting(older)]);
    var s3 := Apply(s2, theirs);
    assert s3 == START.(calls := [first, Inserting(older, 0)], live := {0}, total := 1);
    var s4 := Apply(s3, theirs);
    assert s4 == s3.(calls := [first, Done], tables := Entered(START.tables, older.id, Entry(older, 0), true));
    SameConnections(START.tables.(connections := START.tables.connections[older.id := Entry(older, 0)]), older, true);
    assert s4.tables.connections == map[newer.id := Entry(older, 0)];
    SameConnections(s4.tables, older, a.running);
    assert Apply(s4, Advance(0, a)).calls == [Done, Done];
  }
}
