/** The durable tables of the publish state machine. A statement or transaction that fails has no effect. */
module Store {

  import opened Text

  datatype VersionState = Reserved | Publishing | Failed | Confirming | TimedOut | Effective | Superseded

  datatype Version = Version(ir: string, state: VersionState, parent: nat, rollbackOf: nat)

  datatype RunState =
    | RunValidating | RunValidated | RunPublishing | RunConfirming
    | RunEffective | RunTimeout | RunValidateFailed | RunPublishFailed
  {
    /** The states covered by the one_active_publish index. */
    predicate Active() { RunValidating? || RunValidated? || RunPublishing? || RunConfirming? }
  }

  /** version is 0 while the run is not linked to a version. */
  datatype Run = Run(version: nat, state: RunState)

  datatype Database = Database(versions: map<nat, Version>, runs: map<nat, Run>, lastRun: nat)

  ghost predicate OneActive(db: Database) {
    forall i, j :: i in db.runs && j in db.runs && db.runs[i].state.Active() && db.runs[j].state.Active() ==> i == j
  }

  ghost predicate NumberedRuns(db: Database) {
    forall i :: i in db.runs ==> 1 <= i <= db.lastRun
  }

  predicate Matches(v: Version, want: Option<VersionState>) {
    !v.state.Reserved? && (want.Some? ==> v.state == want.value)
  }

  /** r is the newest matching version. */
  ghost predicate IsLatest(db: Database, want: Option<VersionState>, r: Option<nat>) {
    match r
    case None => forall s :: s in db.versions ==> !Matches(db.versions[s], want)
    case Some(t) => t in db.versions && Matches(db.versions[t], want)
                    && forall s :: s in db.versions && Matches(db.versions[s], want) ==> s <= t
  }

  /** n is one above every number in use. */
  ghost predicate IsNext(db: Database, n: nat) {
    && n > 0 && n !in db.versions && (forall s :: s in db.versions ==> s < n) && (n > 1 ==> n - 1 in db.versions)
  }

  const RESERVED := Version("", Reserved, 0, 0)

  // What the statements do

  function Inserted(db: Database, run: Run): Database {
    db.(runs := db.runs[db.lastRun + 1 := run], lastRun := db.lastRun + 1)
  }

  function Updated(db: Database, id: nat, run: Run): Database {
    db.(runs := db.runs[id := run])
  }

  function WithVersion(db: Database, n: nat, v: Version): Database {
    db.(versions := db.versions[n := v])
  }

  /** Every other effective version is superseded. */
  function SupersedeOthers(versions: map<nat, Version>, n: nat): map<nat, Version> {
    map s | s in versions ::
      if versions[s].state.Effective? && s != n then versions[s].(state := Superseded) else versions[s]
  }

  function Transitioned(db: Database, id: nat, n: nat, rs: RunState, vs: VersionState, supersede: bool): Database
    requires id in db.runs && n in db.versions
  {
    var versions := if supersede then SupersedeOthers(db.versions, n) else db.versions;
    db.(versions := versions[n := versions[n].(state := vs)], runs := db.runs[id := db.runs[id].(state := rs)])
  }

  /** The transition's own checks, and the index. */
  ghost predicate Transitions(db: Database, id: nat, n: nat, rs: RunState) {
    && id > 0 && n > 0 && id in db.runs && db.runs[id].version == n
    && n in db.versions && !db.versions[n].state.Reserved?
    && (rs.Active() ==> OnlyActive(db, id))
  }

  /** No run but id is active. */
  ghost predicate OnlyActive(db: Database, id: nat) {
    forall i :: i in db.runs && db.runs[i].state.Active() ==> i == id
  }

  lemma OthersAre(db: Database, id: nat, others: set<nat>)
    requires others == set i | i in db.runs && db.runs[i].state.Active() && i != id
    ensures OnlyActive(db, id) <==> others == {}
  {
    assert forall i :: i in db.runs && db.runs[i].state.Active() && i != id ==> i in others;
    assert others != {} ==> exists i :: i in others;
  }

  lemma SupersedeKeeps(versions: map<nat, Version>, n: nat)
    ensures SupersedeOthers(versions, n).Keys == versions.Keys
    ensures n in versions ==> SupersedeOthers(versions, n)[n] == versions[n]
  {
  }

  class Tables {
    var db: Database

    constructor ()
      ensures db == Database(map[], map[], 0)
    {
      db := Database(map[], map[], 0);
    }

    method NextVersionSeq(fault: bool) returns (r: Option<nat>)
      requires 0 !in db.versions
      modifies this
      ensures r.None? ==> db == old(db)
      ensures r.None? <==> fault
      ensures r.Some? ==>
        r.value > 0 && r.value !in old(db).versions && db == WithVersion(old(db), r.value, RESERVED)
      ensures r.Some? ==> IsNext(old(db), r.value)
    {
      if fault {
        return None;
      }
      var top := 0;
      var todo := db.versions.Keys;
      while todo != {}
        invariant todo <= db.versions.Keys && db == old(db)
        invariant forall s :: s in db.versions && s !in todo ==> s <= top
        invariant top == 0 || top in db.versions
      {
        var s :| s in todo;
        top, todo := if s > top then s else top, todo - {s};
      }
      db := WithVersion(db, top + 1, RESERVED);
      r := Some(top + 1);
    }

    method InsertVersion(n: nat, v: Version, fault: bool) returns (ok: bool)
      modifies this
      ensures ok <==> !fault && n > 0
      ensures db == if ok then WithVersion(old(db), n, v) else old(db)
    {
      ok := n > 0 && !fault;
      if ok {
        db := WithVersion(db, n, v);
      }
    }

    method GetVersion(n: nat, fault: bool) returns (v: Option<Version>)
      ensures v == if fault || n !in db.versions then None else Some(db.versions[n])
    {
      v := if !fault && n in db.versions then Some(db.versions[n]) else None;
    }

    method LatestVersion(want: Option<VersionState>) returns (r: Option<nat>)
      ensures IsLatest(db, want, r)
    {
      r := None;
      var todo := db.versions.Keys;
      while todo != {}
        invariant todo <= db.versions.Keys
        invariant r.Some? ==> r.value in db.versions && r.value !in todo && Matches(db.versions[r.value], want)
        invariant forall s :: s in db.versions && s !in todo && Matches(db.versions[s], want) ==>
          r.Some? && s <= r.value
      {
        var s :| s in todo;
        todo := todo - {s};
        if Matches(db.versions[s], want) && (r.None? || r.value < s) {
          r := Some(s);
        }
      }
    }

    /** The index turns a second active run into a constraint error. */
    method CreatePublishRun(run: Run, fault: bool) returns (id: nat)
      requires NumberedRuns(db)
      modifies this
      ensures id == 0 ==> db == old(db)
      ensures id != 0 ==> id == db.lastRun && id !in old(db).runs && db == Inserted(old(db), run)
      ensures id != 0
              <==> !fault && (run.state.Active() ==> forall i :: i in old(db).runs ==> !old(db).runs[i].state.Active())
    {
      var others := set i | i in db.runs && db.runs[i].state.Active();
      if fault || (run.state.Active() && others != {}) {
        assert others != {} ==> exists i :: i in others;
        return 0;
      }
      assert run.state.Active() ==> forall i :: i in db.runs && db.runs[i].state.Active() ==> i in others;
      db := Inserted(db, run);
      id := db.lastRun;
    }

    method UpdatePublishRun(id: nat, run: Run, fault: bool) returns (ok: bool)
      modifies this
      ensures ok <==> !fault && id > 0 && (id in old(db).runs && run.state.Active() ==> OnlyActive(old(db), id))
      ensures db == if ok && id in old(db).runs then Updated(old(db), id, run) else old(db)
    {
      var conflict := OtherActive(id);
      ok := id > 0 && !fault && !(id in db.runs && run.state.Active() && conflict);
      if ok && id in db.runs {
        db := Updated(db, id, run);
      }
    }

    /** One transaction: link check, superseding, the version, the run. Any failure rolls all of it back. */
    method TransitionPublish(id: nat, n: nat, rs: RunState, vs: VersionState, supersede: bool,
        fault: bool) returns (ok: bool)
      modifies this
      ensures ok <==> !fault && Transitions(old(db), id, n, rs)
      ensures ok ==> db == Transitioned(old(db), id, n, rs, vs, supersede)
      ensures !ok ==> db == old(db)
    {
      hide SupersedeOthers, OnlyActive;
      ok := false;
      if id == 0 || n == 0 || fault || id !in db.runs || db.runs[id].version != n {
        return;
      }
      SupersedeKeeps(db.versions, n);
      var versions := db.versions;
      if supersede {
        versions := SupersedeOthers(versions, n);
      }
      if n !in versions || versions[n].state.Reserved? {
        return;
      }
      versions := versions[n := versions[n].(state := vs)];
      var conflict := OtherActive(id);
      if rs.Active() && conflict {
        return;
      }
      db := db.(versions := versions, runs := db.runs[id := db.runs[id].(state := rs)]);
      ok := true;
    }

    /** Would the index refuse a second active row? */
    method OtherActive(id: nat) returns (conflict: bool)
      ensures conflict <==> !OnlyActive(db, id)
    {
      var others := set i | i in db.runs && db.runs[i].state.Active() && i != id;
      OthersAre(db, id, others);
      conflict := others != {};
    }

    method GetPublishRun(id: nat, fault: bool) returns (r: Option<Run>)
      ensures r == if fault || id !in db.runs then None else Some(db.runs[id])
    {
      r := if !fault && id in db.runs then Some(db.runs[id]) else None;
    }

    /** The active runs in order of their numbers. */
    method ActivePublishRuns() returns (ids: seq<nat>)
      requires NumberedRuns(db)
      ensures forall i :: i in ids <==> i in db.runs && db.runs[i].state.Active()
      ensures forall j, k :: 0 <= j < k < |ids| ==> ids[j] < ids[k]
    {
      ids := [];
      for i := 1 to db.lastRun + 1
        invariant forall j :: j in ids <==> j < i && j in db.runs && db.runs[j].state.Active()
        invariant forall j, k :: 0 <= j < k < |ids| ==> ids[j] < ids[k]
      {
        if i in db.runs && db.runs[i].state.Active() {
          assert forall j :: 0 <= j < |ids| ==> ids[j] in ids;
          ids := ids + [i];
        }
      }
    }
  }
}
