/** The publish state machine as a transition system over database statements, snapshots and draft edits,
    and what holds in every state of every run. */
module PublishRuns {
  import opened Text
  import opened Store
  import opened Drafts

  datatype System = System(db: Database, snapshots: map<nat, Files>, draft: Files)

  datatype Event =
    | Edit
    | Create
    | Update(id: nat, run: Run)
    | Reserve(n: nat)
    | Capture(n: nat)
    | Record(id: nat, n: nat, v: Version)
    | Confirm(id: nat, n: nat)
    | Expire(id: nat, n: nat)
    | Reconfirm(id: nat, n: nat)

  // Invariant

  predicate InProgress(s: VersionState) {
    s.Reserved? || s.Publishing? || s.Failed? || s.Confirming?
  }

  /** The version states a run's state allows. */
  ghost predicate Fits(db: Database, run: Run) {
    match run.state
    case RunValidating => run.version == 0
    case RunValidated => run.version == 0
    case RunValidateFailed => run.version == 0
    case RunPublishing => run.version in db.versions && InProgress(db.versions[run.version].state)
    case RunPublishFailed =>
      run.version == 0 || (run.version in db.versions && InProgress(db.versions[run.version].state))
    case RunConfirming => run.version in db.versions && db.versions[run.version].state.Confirming?
    case RunTimeout => run.version in db.versions && db.versions[run.version].state.TimedOut?
    case RunEffective => run.version in db.versions
                         && (db.versions[run.version].state.Effective? || db.versions[run.version].state.Superseded?)
  }

  ghost predicate LinkedBy(db: Database, n: nat, id: nat) {
    id in db.runs && db.runs[id].version == n
  }

  ghost predicate LinksOk(db: Database) {
    && (forall id :: id in db.runs ==> Fits(db, db.runs[id]))
    && (forall i, j :: i in db.runs && j in db.runs && db.runs[i].version == db.runs[j].version != 0 ==> i == j)
    && (forall n :: n in db.versions && !db.versions[n].state.Reserved? ==> exists id :: LinkedBy(db, n, id))
  }

  ghost predicate OneEffective(db: Database) {
    forall m, n ::
      m in db.versions && n in db.versions && db.versions[m].state.Effective? && db.versions[n].state.Effective? ==>
        m == n
  }

  /** Parent and rollback links point strictly backwards, to versions and snapshots that exist. */
  ghost predicate BackLinks(s: System, n: nat, v: Version) {
    && v.parent < n && (v.parent == 0 || v.parent in s.db.versions)
    && v.rollbackOf < n && (v.rollbackOf == 0 || v.rollbackOf in s.snapshots)
  }

  ghost predicate HistoryOk(s: System) {
    && 0 !in s.db.versions && s.snapshots.Keys <= s.db.versions.Keys
    && (forall n :: n in s.db.versions ==> BackLinks(s, n, s.db.versions[n]))
    && (forall n :: n in s.db.versions && !s.db.versions[n].state.Reserved? ==> n in s.snapshots)
    && SourceForm(s.draft) && (forall n :: n in s.snapshots ==> Restorable(s.snapshots[n]))
  }

  /** A captured source set is one that loads. */
  ghost predicate Restorable(fs: Files) {
    SourceForm(fs) && !Mixed(fs)
  }

  ghost predicate Inv(s: System) {
    OneActive(s.db) && NumberedRuns(s.db) && LinksOk(s.db) && OneEffective(s.db) && HistoryOk(s)
  }

  // Steps

  ghost predicate NoActive(db: Database) {
    forall i :: i in db.runs ==> !db.runs[i].state.Active()
  }

  ghost predicate MayUpdate(db: Database, id: nat, run: Run) {
    && id in db.runs && db.runs[id].state.Active() && !run.state.RunEffective?
    && Fits(db, run)
    && (db.runs[id].version == run.version
        || (db.runs[id].version == 0 && forall i :: i in db.runs ==> db.runs[i].version != run.version))
  }

  ghost predicate MayRecord(s: System, id: nat, n: nat, v: Version) {
    && id in s.db.runs && s.db.runs[id] == Run(n, RunPublishing) && n in s.db.versions && n in s.snapshots
    && (v.state.Publishing? || v.state.Failed? || v.state.Confirming?) && BackLinks(s, n, v)
    && (s.db.versions[n].state.Reserved? || SameRecord(s.db.versions[n], v))
  }

  /** Two rows of a version that differ in its state at most. */
  predicate SameRecord(v: Version, w: Version) {
    v.ir == w.ir && v.parent == w.parent && v.rollbackOf == w.rollbackOf
  }

  ghost predicate Step(a: System, e: Event, b: System) {
    match e
    case Edit => SourceForm(b.draft) && b == a.(draft := b.draft)
    case Create => NoActive(a.db) && b == a.(db := Inserted(a.db, Run(0, RunValidating)))
    case Update(id, run) => MayUpdate(a.db, id, run) && b == a.(db := Updated(a.db, id, run))
    case Reserve(n) => (forall m :: m in a.db.versions ==> m < n) && n > 0
                       && b == a.(db := WithVersion(a.db, n, Version("", Reserved, 0, 0)))
    case Capture(n) =>
      n !in a.snapshots && n in a.db.versions && !Mixed(a.draft) && b == a.(snapshots := a.snapshots[n := a.draft])
    case Record(id, n, v) => MayRecord(a, id, n, v) && b == a.(db := WithVersion(a.db, n, v))
    case Confirm(id, n) => Transitions(a.db, id, n, RunEffective) && a.db.runs[id].state.Active()
                           && b == a.(db := Transitioned(a.db, id, n, RunEffective, Effective, true))
    case Expire(id, n) => Transitions(a.db, id, n, RunTimeout) && a.db.runs[id].state.Active()
                          && b == a.(db := Transitioned(a.db, id, n, RunTimeout, TimedOut, false))
    case Reconfirm(id, n) => Transitions(a.db, id, n, RunConfirming) && a.db.runs[id].state.RunTimeout?
                             && b == a.(db := Transitioned(a.db, id, n, RunConfirming, Confirming, false))
  }

  lemma CreateKeeps(a: System, b: System)
    requires Inv(a) && Step(a, Create, b)
    ensures Inv(b)
  {
    hide LinksOk;
    CreateLinks(a.db);
    HistoryKept(a, b);
  }

  lemma CreateLinks(a: Database)
    requires LinksOk(a) && NumberedRuns(a)
    ensures LinksOk(Inserted(a, Run(0, RunValidating)))
  {
    var b := Inserted(a, Run(0, RunValidating));
    forall i | i in b.runs ensures Fits(b, b.runs[i]) {
      assert i in a.runs ==> Fits(a, a.runs[i]);
    }
    forall n | n in b.versions && !b.versions[n].state.Reserved? ensures exists id :: LinkedBy(b, n, id) {
      var id :| LinkedBy(a, n, id);
      assert LinkedBy(b, n, id);
    }
  }

  lemma UpdateLinks(a: Database, id: nat, run: Run)
    requires LinksOk(a) && MayUpdate(a, id, run) && 0 !in a.versions
    ensures LinksOk(Updated(a, id, run))
  {
    var b := Updated(a, id, run);
    forall i | i in b.runs ensures Fits(b, b.runs[i]) {
      assert i != id ==> Fits(a, a.runs[i]);
      assert Fits(b, b.runs[i]) == Fits(a, b.runs[i]);
    }
    forall n | n in b.versions && !b.versions[n].state.Reserved? ensures exists i :: LinkedBy(b, n, i) {
      var i :| LinkedBy(a, n, i);
      assert Fits(a, a.runs[i]);
      assert LinkedBy(b, n, i);
    }
  }

  lemma UpdateKeeps(a: System, id: nat, run: Run, b: System)
    requires Inv(a) && Step(a, Update(id, run), b)
    ensures Inv(b)
  {
    hide LinksOk, Fits;
    UpdateLinks(a.db, id, run);
    assert b.db.versions == a.db.versions;
    HistoryKept(a, b);
  }

  lemma ReserveLinks(a: Database, n: nat, b: Database)
    requires LinksOk(a) && n !in a.versions && b == WithVersion(a, n, Version("", Reserved, 0, 0))
    ensures LinksOk(b)
  {
    forall i | i in b.runs ensures Fits(b, b.runs[i]) {
      assert Fits(a, a.runs[i]);
    }
    forall m | m in b.versions && !b.versions[m].state.Reserved? ensures exists i :: LinkedBy(b, m, i) {
      var i :| LinkedBy(a, m, i);
      assert LinkedBy(b, m, i);
    }
  }

  lemma ReserveKeeps(a: System, n: nat, b: System)
    requires Inv(a) && Step(a, Reserve(n), b)
    ensures Inv(b)
  {
    hide LinksOk, HistoryOk;
    assert n !in a.db.versions;
    ReserveLinks(a.db, n, b.db);
    ReserveHistory(a, n, b);
  }

  lemma ReserveHistory(a: System, n: nat, b: System)
    requires HistoryOk(a) && Step(a, Reserve(n), b)
    ensures HistoryOk(b)
  {
    forall m | m in b.db.versions ensures BackLinks(b, m, b.db.versions[m]) {
      assert m != n ==> BackLinks(a, m, a.db.versions[m]);
    }
  }

  lemma RecordKeeps(a: System, id: nat, n: nat, v: Version, b: System)
    requires Inv(a) && Step(a, Record(id, n, v), b)
    ensures Inv(b)
  {
    hide LinksOk, HistoryOk;
    NotYetEffective(a, id, n);
    Positive(a);
    TransitionLinks(a.db, b.db, id, n, RunPublishing);
    RecordHistory(a, id, n, v, b);
  }

  lemma Positive(s: System)
    requires Inv(s)
    ensures 0 !in s.db.versions
  {
  }

  lemma RecordHistory(a: System, id: nat, n: nat, v: Version, b: System)
    requires HistoryOk(a) && Step(a, Record(id, n, v), b)
    ensures HistoryOk(b)
  {
    forall m | m in b.db.versions ensures BackLinks(b, m, b.db.versions[m]) {
      assert m != n ==> BackLinks(a, m, a.db.versions[m]);
    }
  }

  lemma CaptureKeeps(a: System, n: nat, b: System)
    requires Inv(a) && Step(a, Capture(n), b)
    ensures Inv(b)
  {
    forall m | m in b.db.versions ensures BackLinks(b, m, b.db.versions[m]) {
      assert BackLinks(a, m, a.db.versions[m]);
    }
  }

  /** A run that is active or timed out is linked to a version that is neither effective nor superseded. */
  lemma NotYetEffective(s: System, id: nat, n: nat)
    requires Inv(s) && LinkedBy(s.db, n, id) && n in s.db.versions && !s.db.runs[id].state.RunEffective?
    ensures !s.db.versions[n].state.Effective? && !s.db.versions[n].state.Superseded?
  {
    assert Fits(s.db, s.db.runs[id]);
  }

  function Overtaken(s: VersionState, supersede: bool): VersionState {
    if supersede && s.Effective? then Superseded else s
  }

  /** What a transition does to the version table. */
  lemma TransitionVersions(db: Database, id: nat, n: nat, rs: RunState, vs: VersionState, supersede: bool)
    requires Transitions(db, id, n, rs)
    ensures var after := Transitioned(db, id, n, rs, vs, supersede);
            && after.versions.Keys == db.versions.Keys && after.versions[n].state == vs
            && after.runs == db.runs[id := Run(n, rs)] && after.lastRun == db.lastRun
            && (forall m :: m in db.versions ==> SameRecord(after.versions[m], db.versions[m]))
            && (forall m :: m in db.versions && m != n ==>
                   after.versions[m].state == Overtaken(db.versions[m].state, supersede))
  {
  }

  ghost predicate SameOthers(a: Database, b: Database, n: nat) {
    && b.versions.Keys == a.versions.Keys
    && forall m :: m in a.versions && m != n ==>
         || b.versions[m].state == a.versions[m].state
         || (a.versions[m].state.Effective? && b.versions[m].state.Superseded?)
  }

  lemma OtherRunsFit(a: Database, b: Database, n: nat, run: Run)
    requires Fits(a, run) && SameOthers(a, b, n) && run.version != n
    ensures Fits(b, run)
  {
  }

  lemma TransitionLinks(a: Database, b: Database, id: nat, n: nat, rs: RunState)
    requires LinksOk(a) && id in a.runs && a.runs[id].version == n && n > 0 && n in a.versions
    requires SameOthers(a, b, n) && b.runs == a.runs[id := Run(n, rs)] && Fits(b, Run(n, rs))
    ensures LinksOk(b)
  {
    hide Fits;
    forall i | i in b.runs ensures Fits(b, b.runs[i]) {
      if i != id {
        OtherRunsFit(a, b, n, a.runs[i]);
      }
    }
    forall m | m in b.versions && !b.versions[m].state.Reserved? ensures exists i :: LinkedBy(b, m, i) {
      if m == n {
        assert LinkedBy(b, m, id);
      } else {
        var i :| LinkedBy(a, m, i);
        assert LinkedBy(b, m, i);
      }
    }
  }

  lemma HistoryKept(a: System, b: System)
    requires HistoryOk(a) && b.snapshots == a.snapshots && b.draft == a.draft
    requires b.db.versions.Keys == a.db.versions.Keys
    requires forall m :: m in a.db.versions ==> SameRecord(b.db.versions[m], a.db.versions[m])
    requires forall m :: m in a.db.versions && a.db.versions[m].state.Reserved? ==> b.db.versions[m].state.Reserved?
    ensures HistoryOk(b)
  {
    forall m | m in b.db.versions ensures BackLinks(b, m, b.db.versions[m]) {
      assert BackLinks(a, m, a.db.versions[m]);
    }
  }

  lemma TransitionKeepsAll(a: System, id: nat, n: nat, rs: RunState, vs: VersionState, supersede: bool, b: System)
    requires Inv(a) && Transitions(a.db, id, n, rs) && !a.db.runs[id].state.RunEffective?
    requires b == a.(db := Transitioned(a.db, id, n, rs, vs, supersede))
    requires (rs, vs) in {(RunEffective, Effective), (RunTimeout, TimedOut), (RunConfirming, Confirming)}
    requires supersede <==> vs.Effective?
    ensures Inv(b)
  {
    hide Transitioned, LinksOk, HistoryOk;
    NotYetEffective(a, id, n);
    TransitionVersions(a.db, id, n, rs, vs, supersede);
    TransitionLinks(a.db, b.db, id, n, rs);
    HistoryKept(a, b);
    assert OneEffective(b.db);
    assert OneActive(b.db);
  }

  lemma StepKeepsInv(a: System, e: Event, b: System)
    requires Inv(a) && Step(a, e, b)
    ensures Inv(b)
  {
    match e {
      case Edit => assert b.db == a.db;
      case Create => CreateKeeps(a, b);
      case Update(id, run) => UpdateKeeps(a, id, run, b);
      case Reserve(n) => ReserveKeeps(a, n, b);
      case Capture(n) => CaptureKeeps(a, n, b);
      case Record(id, n, v) => RecordKeeps(a, id, n, v, b);
      case Confirm(id, n) => TransitionKeepsAll(a, id, n, RunEffective, Effective, true, b);
      case Expire(id, n) => TransitionKeepsAll(a, id, n, RunTimeout, TimedOut, false, b);
      case Reconfirm(id, n) => TransitionKeepsAll(a, id, n, RunConfirming, Confirming, false, b);
    }
  }

  // Whole runs

  ghost predicate Linked(a: System, b: System) {
    exists e :: Step(a, e, b)
  }

  /** A run from any state that satisfies the invariant; the empty tables do. */
  ghost predicate IsRun(log: seq<System>) {
    log != [] && Inv(log[0]) && forall i :: 0 <= i < |log| - 1 ==> Linked(log[i], log[i + 1])
  }

  lemma EmptyTables(draft: Files)
    requires SourceForm(draft)
    ensures Inv(System(Database(map[], map[], 0), map[], draft))
  {
  }

  /** In every state of every run at most one publish is active and at most one version is effective. */
  lemma {:induction false} RunsAreSafe(log: seq<System>, i: nat)
    requires IsRun(log) && i < |log|
    ensures Inv(log[i]) && OneActive(log[i].db) && OneEffective(log[i].db)
  {
    if i > 0 {
      RunsAreSafe(log, i - 1);
      assert Linked(log[i - 1], log[i - 1 + 1]);
      var e :| Step(log[i - 1], e, log[i]);
      StepKeepsInv(log[i - 1], e, log[i]);
    }
  }

  ghost predicate IsEffective(s: System, n: nat) {
    n in s.db.versions && s.db.versions[n].state.Effective?
  }

  /** An effective version stays effective, unless the step makes another one effective. */
  lemma EffectiveStays(a: System, e: Event, b: System, n: nat)
    requires Inv(a) && Step(a, e, b) && IsEffective(a, n)
    ensures IsEffective(b, n) || (e.Confirm? && IsEffective(b, e.n))
  {
    hide Inv, Fits, MayUpdate, BackLinks;
    if e.Confirm? || e.Expire? || e.Reconfirm? || e.Record? {
      NotYetEffective(a, e.id, e.n);
    }
  }

  lemma {:induction false} StaysCovered(log: seq<System>, i: nat, j: nat, n: nat) returns (m: nat)
    requires IsRun(log) && i <= j < |log| && IsEffective(log[i], n)
    ensures IsEffective(log[j], m)
  {
    hide Inv, Step, IsEffective;
    if i == j {
      m := n;
    } else {
      var k := StaysCovered(log, i, j - 1, n);
      RunsAreSafe(log, j - 1);
      assert Linked(log[j - 1], log[j - 1 + 1]);
      var e :| Step(log[j - 1], e, log[j]);
      EffectiveStays(log[j - 1], e, log[j], k);
      m := if IsEffective(log[j], k) then k else e.n;
    }
  }

  /** Once some version is effective, every later state of the run has exactly one effective version, and
      that is the one the store reports as the latest effective. */
  lemma ExactlyOneForever(log: seq<System>, i: nat, j: nat, n: nat) returns (m: nat)
    requires IsRun(log) && i <= j < |log| && IsEffective(log[i], n)
    ensures forall k :: IsEffective(log[j], k) <==> k == m
    ensures forall r :: IsLatest(log[j].db, Some(Effective), r) <==> r == Some(m)
  {
    hide Inv, IsRun;
    m := StaysCovered(log, i, j, n);
    RunsAreSafe(log, j);
    forall k ensures IsEffective(log[j], k) <==> k == m {
    }
  }

  /** A version becomes effective only by confirming the active run it is linked to. */
  lemma OnlyConfirmed(a: System, e: Event, b: System, n: nat)
    requires Inv(a) && Step(a, e, b) && IsEffective(b, n) && !IsEffective(a, n)
    ensures e.Confirm? && e.n == n && LinkedBy(a.db, n, e.id) && a.db.runs[e.id].state.Active()
  {
  }

  /** History only grows: numbers are never reused, snapshots never change, and of a recorded version nothing
      but its state changes. */
  ghost predicate Extends(a: System, b: System) {
    && a.db.versions.Keys <= b.db.versions.Keys
    && (forall n :: n in a.snapshots ==> n in b.snapshots && b.snapshots[n] == a.snapshots[n])
    && (forall n :: n in a.db.versions && !a.db.versions[n].state.Reserved? ==>
          n in b.db.versions && SameRecord(b.db.versions[n], a.db.versions[n]) && !b.db.versions[n].state.Reserved?)
    && (forall m, n :: n in b.db.versions && n !in a.db.versions && m in a.db.versions ==> m < n)
  }

  lemma StepExtends(a: System, e: Event, b: System)
    requires Inv(a) && Step(a, e, b)
    ensures Extends(a, b)
  {
    hide Inv, Transitioned, MayUpdate, BackLinks;
    match e {
      case Confirm(id, n) => TransitionExtends(a, id, n, RunEffective, Effective, true, b);
      case Expire(id, n) => TransitionExtends(a, id, n, RunTimeout, TimedOut, false, b);
      case Reconfirm(id, n) => TransitionExtends(a, id, n, RunConfirming, Confirming, false, b);
      case _ =>
    }
  }

  lemma TransitionExtends(a: System, id: nat, n: nat, rs: RunState, vs: VersionState, supersede: bool, b: System)
    requires Transitions(a.db, id, n, rs) && b == a.(db := Transitioned(a.db, id, n, rs, vs, supersede))
    requires !vs.Reserved?
    ensures Extends(a, b)
  {
    hide Transitioned;
    TransitionVersions(a.db, id, n, rs, vs, supersede);
  }

  lemma ExtendsTransitive(a: System, b: System, c: System)
    requires Extends(a, b) && Extends(b, c)
    ensures Extends(a, c)
  {
    forall m, n | n in c.db.versions && n !in a.db.versions && m in a.db.versions ensures m < n {
      assert m in b.db.versions;
    }
  }

  lemma {:induction false} HistoryGrows(log: seq<System>, i: nat, j: nat)
    requires IsRun(log) && i <= j < |log|
    ensures Extends(log[i], log[j])
  {
    if i < j {
      HistoryGrows(log, i, j - 1);
      RunsAreSafe(log, j - 1);
      assert Linked(log[j - 1], log[j - 1 + 1]);
      var e :| Step(log[j - 1], e, log[j]);
      StepExtends(log[j - 1], e, log[j]);
      ExtendsTransitive(log[i], log[j - 1], log[j]);
    }
  }

  lemma Backwards(s: System, n: nat)
    requires Inv(s) && n in s.db.versions
    ensures var p := s.db.versions[n].parent; p < n && (p == 0 || p in s.db.versions)
  {
    assert BackLinks(s, n, s.db.versions[n]);
  }

  /** The history of a version: itself and its ancestors. The walk ends because parents point backwards. */
  ghost function Ancestry(s: System, n: nat): (walk: seq<nat>)
    requires Inv(s) && (n == 0 || n in s.db.versions)
    ensures |walk| <= n && (n > 0 ==> walk != [] && walk[0] == n)
    ensures forall i :: 0 <= i < |walk| ==> walk[i] in s.db.versions
    ensures forall i, j :: 0 <= i < j < |walk| ==> walk[i] > walk[j]
    decreases n
  {
    if n == 0 then []
    else
      Backwards(s, n);
      [n] + Ancestry(s, s.db.versions[n].parent)
  }
}
