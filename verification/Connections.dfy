/** The connection manager: several calls run at once and drop the lock between their
    steps. The tables they share are changed by locked regions, given here as functions. */
module Connections {
  import opened Text

  datatype Config = Config(id: string, botID: string, channelType: string, updatedAt: int, disabled: bool)

  /** Connections are numbered in the order in which they are opened. */
  datatype Entry = Entry(config: Config, conn: nat)

  datatype Status = Status(config: Config, running: bool)

  datatype Tables = Tables(connections: map<string, Entry>, meta: map<string, Status>)

  /** setConnectionStatusLocked: a blank id has no status. */
  function SetStatus(t: Tables, cfg: Config, running: bool): Tables {
    if Blank(cfg.id) then t else t.(meta := t.meta[cfg.id := Status(cfg, running)])
  }

  /** The status of an entry is brought up to date. */
  function Refreshed(t: Tables, id: string, running: bool): Tables
    requires id in t.connections
  {
    SetStatus(t, t.connections[id].config, running)
  }

  /** An entry goes into the table. */
  function Entered(t: Tables, id: string, e: Entry, running: bool): Tables {
    SetStatus(t.(connections := t.connections[id := e]), e.config, running)
  }

  /** An entry is taken out for a restart; its status stays. */
  function Without(t: Tables, id: string): Tables {
    t.(connections := t.connections - {id})
  }

  /** What removeConnection leaves: an entry goes with its status, and without an entry the
      status goes all the same. */
  function Removed(t: Tables, id: string): Tables {
    if id in t.connections then Drop(t, {id}) else t.(meta := t.meta - {id})
  }

  /** Entries and their status go together. */
  function Drop(t: Tables, ids: set<string>): Tables {
    Tables(t.connections - ids, t.meta - ids)
  }

  /** Which entries a sweep under the lock selects. */
  datatype Selector = All | OfBot(botID: string) | OfBotAndType(botID: string, channelType: string)
                    | OfType(channelType: string) | NotActive(active: set<string>)
  {
    predicate Selects(id: string, e: Entry) {
      match this
      case All => true
      case OfBot(b) => e.config.botID == b
      case OfBotAndType(b, t) => e.config.botID == b && e.config.channelType == t
      case OfType(t) => e.config.channelType == t
      case NotActive(active) => id !in active
    }
  }

  function Selected(t: Tables, sel: Selector): set<string> {
    set id | id in t.connections && sel.Selects(id, t.connections[id])
  }

  /** The tables after a sweep: the selected entries are gone, and a reconcile also forgets
      the status of every other inactive id. */
  function Swept(t: Tables, sel: Selector): Tables {
    var dropped := Drop(t, Selected(t, sel));
    if sel.NotActive? then dropped.(meta := map id | id in dropped.meta && id in sel.active :: dropped.meta[id])
    else dropped
  }

  /** The connections of some entries. */
  function Conns(t: Tables, ids: set<string>): set<nat> {
    set id | id in ids && id in t.connections :: t.connections[id].conn
  }

  // ----- The locked regions, as they run -----

  class Manager {
    var connections: map<string, Entry>
    var connectionMeta: map<string, Status>

    constructor ()
      ensures Contents() == Tables(map[], map[])
    {
      connections, connectionMeta := map[], map[];
    }

    ghost function Contents(): Tables
      reads this
    {
      Tables(connections, connectionMeta)
    }

    method SetConnectionStatusLocked(cfg: Config, running: bool)
      modifies this`connectionMeta
      ensures Contents() == SetStatus(old(Contents()), cfg, running)
    {
      hide TrimSpace;
      if TrimSpace(cfg.id) == "" {
        return;
      }
      connectionMeta := connectionMeta[cfg.id := Status(cfg, running)];
    }

    /** The first locked region of ensureConnection: an entry that is up to date is kept and
        its status refreshed; an older one is taken out of the table. */
    method Lookup(cfg: Config, running: bool) returns (upToDate: bool, removed: set<Entry>)
      modifies this
      ensures var t := old(Contents());
              && (upToDate <==> cfg.id in t.connections && t.connections[cfg.id].config.updatedAt >= cfg.updatedAt)
              && removed == (if cfg.id in t.connections && !upToDate then {t.connections[cfg.id]} else {})
              && Contents() == if upToDate then Refreshed(t, cfg.id, running) else Without(t, cfg.id)
    {
      removed := {};
      if cfg.id in connections && !(connections[cfg.id].config.updatedAt < cfg.updatedAt) {
        SetConnectionStatusLocked(connections[cfg.id].config, running);
        return true, removed;
      }
      if cfg.id in connections {
        removed := {connections[cfg.id]};
        connections := connections - {cfg.id};
      } else {
        assert connections - {cfg.id} == connections;
      }
      upToDate := false;
    }

    /** An entry whose connection cannot be stopped goes back, unless its place is taken. */
    method Restore(cfg: Config, entry: Entry, running: bool) returns (restored: bool)
      modifies this
      ensures restored <==> cfg.id !in old(connections)
      ensures Contents() == if restored then Entered(old(Contents()), cfg.id, entry, running) else old(Contents())
    {
      restored := cfg.id !in connections;
      if restored {
        connections := connections[cfg.id := entry];
        SetConnectionStatusLocked(entry.config, running);
      }
    }

    /** The locked regions of removeConnection and Stop; only the former forgets the status of
        an id without an entry. */
    method Take(id: string, forget: bool) returns (taken: set<nat>)
      modifies this
      ensures taken == Conns(old(Contents()), {id})
      ensures Contents() == if forget || id in old(connections) then Removed(old(Contents()), id) else old(Contents())
    {
      taken := {};
      if id !in connections {
        if forget {
          connectionMeta := connectionMeta - {id};
        }
        return;
      }
      taken := {connections[id].conn};
      connections := connections - {id};
      connectionMeta := connectionMeta - {id};
    }

    /** The double check before connecting. */
    method Recheck(cfg: Config, running: bool) returns (exists': bool)
      modifies this
      ensures exists' <==> cfg.id in old(connections)
      ensures Contents() == if exists' then Refreshed(old(Contents()), cfg.id, running) else old(Contents())
    {
      exists' := cfg.id in connections;
      if exists' {
        SetConnectionStatusLocked(connections[cfg.id].config, running);
      }
    }

    /** The last locked region: the new connection goes in unless another call was faster. */
    method Insert(cfg: Config, conn: nat, running: bool) returns (kept: bool)
      modifies this
      ensures kept <==> cfg.id !in old(connections)
      ensures Contents() == if kept then Entered(old(Contents()), cfg.id, Entry(cfg, conn), true)
                            else Refreshed(old(Contents()), cfg.id, running)
    {
      if cfg.id in connections {
        SetConnectionStatusLocked(connections[cfg.id].config, running);
        return false;
      }
      connections := connections[cfg.id := Entry(cfg, conn)];
      SetConnectionStatusLocked(cfg, true);
      kept := true;
    }

    /** The loop of reconcile, RemoveConnection, RemoveAdapter, stopAll and StopByBot over the
        table. It yields the connections taken out, which are stopped there and then or, by
        StopByBot, after the lock is dropped. */
    method Sweep(sel: Selector) returns (taken: set<nat>)
      modifies this
      ensures Contents() == Swept(old(Contents()), sel)
      ensures taken == Conns(old(Contents()), Selected(old(Contents()), sel))
    {
      ghost var t := Contents();
      taken := {};
      var rest := connections.Keys;
      while rest != {}
        invariant rest <= t.connections.Keys
        invariant Contents() == Drop(t, Selected(t, sel) - rest)
        invariant taken == Conns(t, Selected(t, sel) - rest)
        decreases rest
      {
        var id :| id in rest;
        SweepOne(t, sel, rest, id);
        assert id in connections && connections[id] == t.connections[id];
        if sel.Selects(id, connections[id]) {
          taken := taken + {connections[id].conn};
          connections := connections - {id};
          connectionMeta := connectionMeta - {id};
        }
        rest := rest - {id};
      }
      assert Selected(t, sel) - {} == Selected(t, sel);
      if sel.NotActive? {
        connectionMeta := map id | id in connectionMeta && id in sel.active :: connectionMeta[id];
      }
    }
  }

  lemma SweepOne(t: Tables, sel: Selector, rest: set<string>, id: string)
    requires id in rest && id in t.connections
    ensures var before, after := Selected(t, sel) - rest, Selected(t, sel) - (rest - {id});
            if sel.Selects(id, t.connections[id]) then
              && Drop(t, after) == Drop(Drop(t, before), {id})
              && Conns(t, after) == Conns(t, before) + {t.connections[id].conn}
            else after == before
  {
    var before, after := Selected(t, sel) - rest, Selected(t, sel) - (rest - {id});
    if sel.Selects(id, t.connections[id]) {
      assert after == before + {id};
    }
  }
}
