/** The connection object: the tables live in its fields, every statement of
    `q` is a method that updates them as the statement function of `Db`
    prescribes, and `transaction` saves the tables at `BEGIN` and restores them
    at `ROLLBACK`. */
module Database {
  import opened Wrappers
  import Db

  /** How a statement that can be refused ends: applied, or refused with no effect. */
  ghost predicate Outcome(r: Result<Db.Tables>, before: Db.Tables, after: Db.Tables, s: Result<()>)
  {
    if r.Ok? then after == r.value && s == Ok(()) else after == before && s == Err(r.msg)
  }

  class Store {
    var memories: seq<Db.Memory>
    var vectors: seq<Db.VectorRow>
    var waypoints: seq<Db.Waypoint>
    var logs: seq<Db.EmbedLog>
    /** The tables as they were at `BEGIN`, while a transaction is open. */
    var saved: Option<Db.Tables>

    function State(): Db.Tables
      reads this
    {
      Db.Tables(memories, vectors, waypoints, logs)
    }

    /** Every table, and the state saved at `BEGIN`, keeps its primary keys unique. */
    ghost predicate Valid()
      reads this
    {
      Db.Keyed(State()) && (saved.Some? ==> Db.Keyed(saved.value))
    }

    constructor()
      ensures State() == Db.Empty && saved.None? && Valid()
    {
      memories, vectors, waypoints, logs := [], [], [], [];
      saved := None;
    }

    method Set(t: Db.Tables)
      modifies this
      ensures State() == t && saved == old(saved)
    {
      memories, vectors, waypoints, logs := t.memories, t.vectors, t.waypoints, t.logs;
    }

    method Apply(r: Result<Db.Tables>) returns (s: Result<()>)
      modifies this
      ensures Outcome(r, old(State()), State(), s) && saved == old(saved)
    {
      if r.Ok? {
        Set(r.value);
        s := Ok(());
      } else {
        s := Err(r.msg);
      }
    }

    /** `transaction.begin`: refused inside an open transaction. */
    method Begin() returns (s: Result<()>)
      requires Valid()
      modifies this
      ensures Valid() && State() == old(State())
      ensures old(saved).Some? ==> s.Err? && saved == old(saved)
      ensures old(saved).None? ==> s == Ok(()) && saved == Some(State())
    {
      if saved.Some? {
        s := Err("cannot start a transaction within a transaction");
      } else {
        saved := Some(State());
        s := Ok(());
      }
    }

    /** `transaction.commit`: keeps the tables and closes the transaction. */
    method Commit() returns (s: Result<()>)
      requires Valid()
      modifies this
      ensures Valid() && State() == old(State()) && saved.None?
      ensures s.Ok? <==> old(saved).Some?
    {
      if saved.None? {
        s := Err("cannot commit - no transaction is active");
      } else {
        saved := None;
        s := Ok(());
      }
    }

    /** `transaction.rollback`: restores the tables saved at `BEGIN`. */
    method Rollback() returns (s: Result<()>)
      requires Valid()
      modifies this
      ensures Valid() && saved.None?
      ensures old(saved).Some? ==> State() == old(saved.value) && s == Ok(())
      ensures old(saved).None? ==> State() == old(State()) && s.Err?
    {
      if saved.None? {
        s := Err("cannot rollback - no transaction is active");
      } else {
        Set(saved.value);
        saved := None;
        s := Ok(());
      }
    }

    /** `q.ins_mem`. */
    method InsMem(m: Db.Memory) returns (s: Result<()>)
      requires Valid()
      modifies this
      ensures Valid() && saved == old(saved)
      ensures Outcome(Db.InsMem(old(State()), m), old(State()), State(), s)
    {
      Db.StatementsKeyed(State());
      s := Apply(Db.InsMem(State(), m));
    }

    /** `q.ins_vec`. */
    method InsVec(row: Db.VectorRow) returns (s: Result<()>)
      requires Valid()
      modifies this
      ensures Valid() && saved == old(saved)
      ensures Outcome(Db.InsVec(old(State()), row), old(State()), State(), s)
    {
      Db.StatementsKeyed(State());
      s := Apply(Db.InsVec(State(), row));
    }

    /** `q.ins_log`. */
    method InsLog(l: Db.EmbedLog) returns (s: Result<()>)
      requires Valid()
      modifies this
      ensures Valid() && saved == old(saved)
      ensures Outcome(Db.InsLog(old(State()), l), old(State()), State(), s)
    {
      Db.StatementsKeyed(State());
      s := Apply(Db.InsLog(State(), l));
    }

    /** `q.upd_log`. */
    method UpdLog(status: string, err: Option<string>, id: string)
      requires Valid()
      modifies this
      ensures Valid() && saved == old(saved)
      ensures State() == Db.UpdLog(old(State()), status, err, id)
    {
      Db.StatementsKeyed(State());
      Set(Db.UpdLog(State(), status, err, id));
    }

    /** `q.upd_mean_vec`. */
    method UpdMeanVec(dim: nat, vec: Db.Bytes, id: string)
      requires Valid()
      modifies this
      ensures Valid() && saved == old(saved)
      ensures State() == Db.UpdMeanVec(old(State()), dim, vec, id)
    {
      Db.MapMemKeyed(State(), id, Db.SetMean(dim, vec));
      Set(Db.UpdMeanVec(State(), dim, vec, id));
    }

    /** `q.upd_seen`. */
    method UpdSeen(lastSeen: int, salience: real, updated: int, id: string)
      requires Valid()
      modifies this
      ensures Valid() && saved == old(saved)
      ensures State() == Db.UpdSeen(old(State()), lastSeen, salience, updated, id)
    {
      Db.MapMemKeyed(State(), id, Db.SetSeen(lastSeen, salience, updated));
      Set(Db.UpdSeen(State(), lastSeen, salience, updated, id));
    }

    /** `update memories set salience=?, updated_at=? where id=?`. */
    method UpdSalience(salience: real, updated: int, id: string)
      requires Valid()
      modifies this
      ensures Valid() && saved == old(saved)
      ensures State() == Db.UpdSalience(old(State()), salience, updated, id)
    {
      Db.MapMemKeyed(State(), id, Db.SetSalience(salience, updated));
      Set(Db.UpdSalience(State(), salience, updated, id));
    }

    /** `q.ins_waypoint`. */
    method InsWaypoint(w: Db.Waypoint)
      requires Valid()
      modifies this
      ensures Valid() && saved == old(saved)
      ensures State() == Db.InsWaypoint(old(State()), w)
    {
      Db.InsWaypointReplaces(State(), w);
      Set(Db.InsWaypoint(State(), w));
    }

    /** `q.upd_waypoint`. */
    method UpdWaypoint(weight: real, updated: int, src: string, dst: string)
      requires Valid()
      modifies this
      ensures Valid() && saved == old(saved)
      ensures State() == Db.UpdWaypoint(old(State()), weight, updated, src, dst)
    {
      Db.UpdWaypointEffect(State(), weight, updated, src, dst);
      Set(Db.UpdWaypoint(State(), weight, updated, src, dst));
    }

    /** `q.del_mem`. */
    method DelMem(id: string)
      requires Valid()
      modifies this
      ensures Valid() && saved == old(saved)
      ensures State() == Db.DelMem(old(State()), id)
    {
      Db.DeletesKeyed(State(), id, "", 0.0);
      Set(Db.DelMem(State(), id));
    }

    /** `q.del_vec`. */
    method DelVec(id: string)
      requires Valid()
      modifies this
      ensures Valid() && saved == old(saved)
      ensures State() == Db.DelVec(old(State()), id)
    {
      Db.DeletesKeyed(State(), id, "", 0.0);
      Set(Db.DelVec(State(), id));
    }

    /** `q.del_vec_sector`. */
    method DelVecSector(id: string, sector: string)
      requires Valid()
      modifies this
      ensures Valid() && saved == old(saved)
      ensures State() == Db.DelVecSector(old(State()), id, sector)
    {
      Db.DeletesKeyed(State(), id, sector, 0.0);
      Set(Db.DelVecSector(State(), id, sector));
    }

    /** `q.del_waypoints`. */
    method DelWaypoints(id: string)
      requires Valid()
      modifies this
      ensures Valid() && saved == old(saved)
      ensures State() == Db.DelWaypoints(old(State()), id)
    {
      Db.DeletesKeyed(State(), id, "", 0.0);
      Set(Db.DelWaypoints(State(), id));
    }

    /** `q.prune_waypoints`. */
    method PruneWaypoints(threshold: real)
      requires Valid()
      modifies this
      ensures Valid() && saved == old(saved)
      ensures State() == Db.PruneWaypoints(old(State()), threshold)
    {
      Db.DeletesKeyed(State(), "", "", threshold);
      Set(Db.PruneWaypoints(State(), threshold));
    }
  }
}
