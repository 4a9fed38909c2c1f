/** The worker table: registering capabilities, and the revision that counts registrations. */
module Capabilities {
  import opened Basics
  import opened JsonText
  import opened Matching

  datatype Envelope = Envelope(schemaVersion: string, workerClass: string, required: RequiredBlock,
                               classExtension: JSON)

  datatype Upsert = Upsert(workerId: string, envelope: Envelope, principal: string, ttl: int)

  datatype WorkerRow = WorkerRow(envelope: Envelope, principal: string, ttl: int, revision: nat)

  datatype CapabilityError = DidNotResolved | InvalidParams

  predicate KnownClass(workerClass: string) {
    || workerClass == "human" || workerClass == "autonomous_robot" || workerClass == "teleoperated_robot"
    || workerClass == "semi_autonomous" || workerClass == "hybrid"
  }

  predicate Acceptable(resolves: string -> bool, u: Upsert) {
    && resolves(u.workerId)
    && (u.envelope.schemaVersion == "wcp/0.1" || u.envelope.schemaVersion == "wcp/0.2")
    && KnownClass(u.envelope.workerClass)
  }

  class CapabilitiesService {
    var rows: map<string, WorkerRow>
    const resolves: string -> bool
    /** The registrations asked for so far. */
    ghost var asked: seq<Upsert>

    /** Every worker's row is that of its last accepted registration, with their number. */
    ghost predicate Valid()
      reads this
    {
      forall id: string :: RowTells(rows, resolves, asked, id)
    }

    constructor (resolves: string -> bool)
      ensures Valid() && rows == map[] && asked == [] && this.resolves == resolves
    {
      this.resolves := resolves;
      rows, asked := map[], [];
    }

    method UpsertCapabilities(u: Upsert) returns (r: Result<nat, CapabilityError>)
      requires Valid()
      modifies this
      ensures Valid() && asked == old(asked) + [u]
      ensures r.Ok? <==> Acceptable(resolves, u)
      ensures r.Err? ==> rows == old(rows)
      ensures r.Err? ==> r.error == if resolves(u.workerId) then InvalidParams else DidNotResolved
      ensures r.Ok? ==> r.value == |Accepted(resolves, asked, u.workerId)|
      ensures r.Ok? ==> rows == old(rows)[u.workerId := WorkerRow(u.envelope, u.principal, u.ttl, r.value)]
    {
      hide RowTells;
      ghost var before := rows;
      asked := asked + [u];
      if !resolves(u.workerId) {
        SameRows(rows, resolves, old(asked), u);
        return Err(DidNotResolved);
      }
      if u.envelope.schemaVersion != "wcp/0.1" && u.envelope.schemaVersion != "wcp/0.2" {
        SameRows(rows, resolves, old(asked), u);
        return Err(InvalidParams);
      }
      if !KnownClass(u.envelope.workerClass) {
        SameRows(rows, resolves, old(asked), u);
        return Err(InvalidParams);
      }
      var revision := 1;
      if u.workerId in rows {
        revision := rows[u.workerId].revision + 1;
      }
      rows := rows[u.workerId := WorkerRow(u.envelope, u.principal, u.ttl, revision)];
      NewRow(before, resolves, old(asked), u);
      r := Ok(revision);
    }
  }

  /** The accepted registrations of a worker, by position. */
  ghost function Accepted(resolves: string -> bool, asked: seq<Upsert>, id: string): set<nat> {
    set i: nat | i < |asked| && asked[i].workerId == id && Acceptable(resolves, asked[i])
  }

  ghost predicate RowTells(rows: map<string, WorkerRow>, resolves: string -> bool, asked: seq<Upsert>, id: string) {
    && (id in rows <==> Accepted(resolves, asked, id) != {})
    && (id in rows ==>
        && rows[id].revision == |Accepted(resolves, asked, id)|
        && exists n | n in Accepted(resolves, asked, id) ::
             && rows[id] == WorkerRow(asked[n].envelope, asked[n].principal, asked[n].ttl, rows[id].revision)
             && forall i | i in Accepted(resolves, asked, id) :: i <= n)
  }

  lemma AcceptedNext(resolves: string -> bool, asked: seq<Upsert>, u: Upsert, id: string)
    ensures Accepted(resolves, asked + [u], id)
         == Accepted(resolves, asked, id) + (if u.workerId == id && Acceptable(resolves, u) then {|asked|} else {})
    ensures |asked| !in Accepted(resolves, asked, id)
  {
    hide Acceptable;
  }

  lemma SameRow(rows: map<string, WorkerRow>, resolves: string -> bool, asked: seq<Upsert>, u: Upsert, id: string)
    requires RowTells(rows, resolves, asked, id) && (u.workerId != id || !Acceptable(resolves, u))
    ensures RowTells(rows, resolves, asked + [u], id)
  {
    AcceptedNext(resolves, asked, u, id);
    var more := asked + [u];
    assert Accepted(resolves, more, id) == Accepted(resolves, asked, id);
    assert forall n | n in Accepted(resolves, asked, id) :: more[n] == asked[n];
    if id in rows {
      var n :| n in Accepted(resolves, asked, id)
        && rows[id] == WorkerRow(asked[n].envelope, asked[n].principal, asked[n].ttl, rows[id].revision)
        && forall i | i in Accepted(resolves, asked, id) :: i <= n;
      assert n in Accepted(resolves, more, id);
    }
  }

  lemma SameRows(rows: map<string, WorkerRow>, resolves: string -> bool, asked: seq<Upsert>, u: Upsert)
    requires !Acceptable(resolves, u) && forall id: string :: RowTells(rows, resolves, asked, id)
    ensures forall id: string :: RowTells(rows, resolves, asked + [u], id)
  {
    hide RowTells, Acceptable;
    forall id: string ensures RowTells(rows, resolves, asked + [u], id) {
      SameRow(rows, resolves, asked, u, id);
    }
  }

  lemma NewRow(rows: map<string, WorkerRow>, resolves: string -> bool, asked: seq<Upsert>, u: Upsert)
    requires Acceptable(resolves, u) && forall id: string :: RowTells(rows, resolves, asked, id)
    ensures var revision := if u.workerId in rows then rows[u.workerId].revision + 1 else 1;
      var rows' := rows[u.workerId := WorkerRow(u.envelope, u.principal, u.ttl, revision)];
      revision == |Accepted(resolves, asked + [u], u.workerId)|
      && forall id: string :: RowTells(rows', resolves, asked + [u], id)
  {
    hide RowTells, Acceptable;
    var revision := if u.workerId in rows then rows[u.workerId].revision + 1 else 1;
    var rows' := rows[u.workerId := WorkerRow(u.envelope, u.principal, u.ttl, revision)];
    OwnRow(rows, resolves, asked, u);
    forall id: string ensures RowTells(rows', resolves, asked + [u], id) {
      if id != u.workerId {
        OtherRow(rows, rows', resolves, asked, id);
        SameRow(rows', resolves, asked, u, id);
      }
    }
  }

  lemma OtherRow(rows: map<string, WorkerRow>, rows': map<string, WorkerRow>, resolves: string -> bool,
                 asked: seq<Upsert>, id: string)
    requires RowTells(rows, resolves, asked, id)
    requires (id in rows <==> id in rows') && (id in rows ==> rows[id] == rows'[id])
    ensures RowTells(rows', resolves, asked, id)
  {
    hide Accepted;
  }

  lemma OwnRow(rows: map<string, WorkerRow>, resolves: string -> bool, asked: seq<Upsert>, u: Upsert)
    requires Acceptable(resolves, u) && RowTells(rows, resolves, asked, u.workerId)
    ensures var revision := if u.workerId in rows then rows[u.workerId].revision + 1 else 1;
      revision == |Accepted(resolves, asked + [u], u.workerId)|
      && RowTells(rows[u.workerId := WorkerRow(u.envelope, u.principal, u.ttl, revision)], resolves, asked + [u],
                  u.workerId)
  {
    var id, more := u.workerId, asked + [u];
    AcceptedNext(resolves, asked, u, id);
    var before, after := Accepted(resolves, asked, id), Accepted(resolves, more, id);
    assert after == before + {|asked|};
    assert forall i | i in before :: i < |asked|;
    hide Accepted, Acceptable;
    assert |asked| in after && more[|asked|] == u && forall i | i in after :: i <= |asked|;
    if id !in rows {
      assert before == {};
    }
  }
}
