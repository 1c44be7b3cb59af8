/** GitHub failure incidents, derived from the deployments table. */
module Incidents {
  import opened Prelude
  import opened Jobs
  import opened Upserts
  import opened Deployments

  datatype Source = Github | OtherSource(name: string)

  datatype Incident = Incident(
    repository: Uuid, source: Source, title: string, resolved: bool,
    failed: Option<Uuid>, recovery: Option<Uuid>,
    detectedAt: Option<Instant>, resolvedAt: Option<Instant>, version: nat)

  type Incidents = map<Uuid, Incident>

  /** The partial unique index on `failed_deployment_id`. */
  ghost predicate UniqueFailures(incidents: Incidents) {
    forall a, b | a in incidents && b in incidents && incidents[a].failed.Some?
                  && incidents[a].failed == incidents[b].failed :: a == b
  }

  function Failures(deployments: Deployments, repository: Uuid): (ids: set<Uuid>)
    ensures forall id | id in ids :: id in deployments && deployments[id].reading.at.Some?
  {
    set id | id in deployments && Production(deployments[id], repository, Conclusion.Failed)
  }

  /** Successful production deployments that finished strictly after an instant. */
  function SuccessesAfter(deployments: Deployments, repository: Uuid, at: Instant): (ids: set<Uuid>)
    ensures forall id | id in ids :: id in deployments && deployments[id].reading.at.Some?
  {
    set id | id in deployments && Production(deployments[id], repository, Success)
             && at < deployments[id].reading.at.value
  }

  /** The success that resolves a failure: the earliest strictly later one of its repository. */
  function Recovery(deployments: Deployments, failed: Uuid): Option<Uuid>
    requires failed in deployments && deployments[failed].reading.at.Some?
  {
    var d := deployments[failed];
    EndOf(deployments, SuccessesAfter(deployments, d.key.repository, d.reading.at.value), false)
  }

  function Derived(deployments: Deployments, failed: Uuid, version: nat): Incident
    requires failed in deployments && deployments[failed].reading.at.Some?
  {
    var d := deployments[failed];
    var recovery := Recovery(deployments, failed);
    Incident(d.key.repository, Github, "Failed production deployment to " + d.reading.data.environment,
             recovery.Some?, Some(failed), recovery, d.reading.at,
             if recovery.Some? then deployments[recovery.value].reading.at else None, version)
  }

  predicate Orphan(deployments: Deployments, incident: Incident, repository: Uuid) {
    incident.repository == repository && incident.source == Github
    && (incident.failed.None? || incident.failed.value !in Failures(deployments, repository))
  }

  /** The DELETE statement. */
  function Kept(deployments: Deployments, incidents: Incidents, repository: Uuid): Incidents {
    map id | id in incidents && !Orphan(deployments, incidents[id], repository) :: incidents[id]
  }

  predicate Recorded(incidents: Incidents, failed: Uuid) {
    exists id | id in incidents :: incidents[id].failed == Some(failed)
  }

  /** New ids, as the database hands them out: one for each failure without an incident. */
  ghost predicate Mints(incidents: Incidents, failures: set<Uuid>, minted: map<Uuid, Uuid>) {
    && (forall id | id in minted :: id !in incidents && minted[id] in failures && !Recorded(incidents, minted[id]))
    && (forall a, b | a in minted && b in minted && minted[a] == minted[b] :: a == b)
    && (forall f | f in failures :: Recorded(incidents, f) || exists id | id in minted :: minted[id] == f)
  }

  /** DO UPDATE: the incidents that conflict with a failure's. */
  function Refreshed(deployments: Deployments, incidents: Incidents, repository: Uuid): Incidents {
    map id | id in incidents ::
      if incidents[id].failed.Some? && incidents[id].failed.value in Failures(deployments, repository)
      then Derived(deployments, incidents[id].failed.value, incidents[id].version + 1)
      else incidents[id]
  }

  /** INSERT: the incidents of the failures that have none. */
  function Inserted(deployments: Deployments, minted: map<Uuid, Uuid>): Incidents
    requires forall id | id in minted :: minted[id] in deployments && deployments[minted[id]].reading.at.Some?
  {
    map id | id in minted :: Derived(deployments, minted[id], 0)
  }

  /** The INSERT ... ON CONFLICT (failed_deployment_id) DO UPDATE statement. */
  function Upserted(deployments: Deployments, incidents: Incidents, repository: Uuid, minted: map<Uuid, Uuid>)
    : Incidents
    requires Mints(incidents, Failures(deployments, repository), minted)
  {
    Refreshed(deployments, incidents, repository) + Inserted(deployments, minted)
  }

  function ReconcileTx(deployments: Deployments, incidents: Incidents, repository: Uuid, minted: map<Uuid, Uuid>)
    : Incidents
    requires Mints(Kept(deployments, incidents, repository), Failures(deployments, repository), minted)
  {
    Upserted(deployments, Kept(deployments, incidents, repository), repository, minted)
  }

  class IncidentTable {
    var rows: Incidents

    ghost predicate Valid()
      reads this
    {
      UniqueFailures(rows)
    }

    constructor ()
      ensures Valid() && rows == map[]
    {
      rows := map[];
    }

    /** The DELETE: incidents whose failure is gone. */
    method DeleteOrphans(deployments: Deployments, repository: Uuid)
      requires Valid()
      modifies this
      ensures Valid() && rows == Kept(deployments, old(rows), repository)
    {
      rows := rows - (set id | id in rows && Orphan(deployments, rows[id], repository));
    }

    /** The INSERT ... SELECT: refresh the incident of every failure that has one, insert the others. */
    method UpsertFailures(deployments: Deployments, repository: Uuid, minted: map<Uuid, Uuid>)
      requires Valid() && Mints(rows, Failures(deployments, repository), minted)
      modifies this
      ensures Valid() && rows == Upserted(deployments, old(rows), repository, minted)
    {
      UpsertKeepsIndex(deployments, rows, repository, minted);
      rows := Refreshed(deployments, rows, repository);
      rows := rows + Inserted(deployments, minted);
    }

    method ReconcileGithubIncidents(table: DeploymentTable, repository: Uuid, minted: map<Uuid, Uuid>)
      requires Valid()
      requires Mints(Kept(table.rows, rows, repository), Failures(table.rows, repository), minted)
      modifies this
      ensures Valid() && rows == ReconcileTx(table.rows, old(rows), repository, minted)
    {
      DeleteOrphans(table.rows, repository);
      UpsertFailures(table.rows, repository, minted);
    }
  }

  lemma UpsertKeepsIndex(deployments: Deployments, kept: Incidents, repository: Uuid, minted: map<Uuid, Uuid>)
    requires UniqueFailures(kept) && Mints(kept, Failures(deployments, repository), minted)
    ensures UniqueFailures(Upserted(deployments, kept, repository, minted))
  {
  }

  // ----- what an incident says -----------------------------------------------------------------

  /**
    An incident's story: it was detected when the deployment failed, and resolved by the earliest
    strictly later success, if there is one; of several at that instant, by the one with the least id.
  */
  ghost predicate Tells(deployments: Deployments, failed: Reading<Signal>, repository: Uuid, incident: Incident) {
    && incident.repository == repository && incident.source == Github
    && incident.title == "Failed production deployment to " + failed.data.environment
    && incident.detectedAt == failed.at && failed.at.Some?
    && (incident.resolved <==> incident.resolvedAt.Some?) && (incident.resolved <==> incident.recovery.Some?)
    && (incident.resolved <==> exists at :: failed.at.value < at && SucceededAt(deployments, repository, at))
    && (incident.resolved ==>
          && failed.at.value < incident.resolvedAt.value
          && SucceededAt(deployments, repository, incident.resolvedAt.value)
          && (forall at | SucceededAt(deployments, repository, at) && failed.at.value < at ::
                incident.resolvedAt.value <= at)
          && Resolves(deployments, repository, incident.recovery.value, incident.resolvedAt.value))
  }

  /** The success of least id among those that finished at an instant. */
  ghost predicate Resolves(deployments: Deployments, repository: Uuid, recovery: Uuid, at: Instant) {
    && recovery in deployments && Production(deployments[recovery], repository, Success)
    && deployments[recovery].reading.at == Some(at)
    && forall id | id in deployments && Production(deployments[id], repository, Success)
                   && deployments[id].reading.at == Some(at) :: recovery <= id
  }

  lemma EarliestResolves(deployments: Deployments, repository: Uuid, at: Instant)
    requires SuccessesAfter(deployments, repository, at) != {}
    ensures var end := EndOf(deployments, SuccessesAfter(deployments, repository, at), false).value;
            Resolves(deployments, repository, end, deployments[end].reading.at.value)
  {
    var ids := SuccessesAfter(deployments, repository, at);
    var end := EndOf(deployments, ids, false).value;
    assert IsEnd(deployments, ids, end, false);
    forall id | id in deployments && Production(deployments[id], repository, Success)
                && deployments[id].reading.at == deployments[end].reading.at
      ensures end <= id
    {
      assert id in ids;
    }
  }

  lemma DerivedTells(deployments: Deployments, failed: Uuid, version: nat)
    requires failed in deployments && deployments[failed].reading.at.Some?
    ensures Tells(deployments, deployments[failed].reading, deployments[failed].key.repository,
                  Derived(deployments, failed, version))
  {
    var (d, incident) := (deployments[failed], Derived(deployments, failed, version));
    var later := SuccessesAfter(deployments, d.key.repository, d.reading.at.value);
    forall at | SucceededAt(deployments, d.key.repository, at) && d.reading.at.value < at
      ensures incident.resolved && incident.resolvedAt.value <= at
    {
      var id :| id in deployments && Production(deployments[id], d.key.repository, Success)
                && deployments[id].reading.at == Some(at);
      assert id in later;
    }
    if incident.resolved {
      assert SucceededAt(deployments, d.key.repository, incident.resolvedAt.value);
      EarliestResolves(deployments, d.key.repository, d.reading.at.value);
    }
  }

  /** The incident of a failure: refreshed if there was one, else new. */
  lemma IncidentOf(deployments: Deployments, incidents: Incidents, repository: Uuid, minted: map<Uuid, Uuid>, f: Uuid)
    returns (id: Uuid)
    requires Mints(Kept(deployments, incidents, repository), Failures(deployments, repository), minted)
    requires f in Failures(deployments, repository)
    ensures var after := ReconcileTx(deployments, incidents, repository, minted);
            id in after && after[id] == Derived(deployments, f, after[id].version)
  {
    var kept := Kept(deployments, incidents, repository);
    if Recorded(kept, f) {
      id :| id in kept && kept[id].failed == Some(f);
    } else {
      id :| id in minted && minted[id] == f;
    }
  }

  /** After a reconcile every incident of a failure is the derived one. */
  lemma AfterIsDerived(deployments: Deployments, incidents: Incidents, repository: Uuid, minted: map<Uuid, Uuid>,
                       id: Uuid)
    requires Mints(Kept(deployments, incidents, repository), Failures(deployments, repository), minted)
    requires id in ReconcileTx(deployments, incidents, repository, minted)
    ensures var incident := ReconcileTx(deployments, incidents, repository, minted)[id];
            && !Orphan(deployments, incident, repository)
            && (incident.failed.Some? && incident.failed.value in Failures(deployments, repository) ==>
                  incident == Derived(deployments, incident.failed.value, incident.version))
  {
  }

  /** What a reconcile leaves: no orphan, an incident for every failure, each as derived. */
  ghost predicate Reconciled(deployments: Deployments, after: Incidents, repository: Uuid) {
    && (forall f | f in Failures(deployments, repository) :: Recorded(after, f))
    && (forall id | id in after :: !Orphan(deployments, after[id], repository))
    && (forall id | id in after && after[id].failed.Some?
                    && after[id].failed.value in Failures(deployments, repository) ::
          after[id] == Derived(deployments, after[id].failed.value, after[id].version))
  }

  lemma ReconcileReconciles(deployments: Deployments, incidents: Incidents, repository: Uuid, minted: map<Uuid, Uuid>)
    requires Mints(Kept(deployments, incidents, repository), Failures(deployments, repository), minted)
    ensures Reconciled(deployments, ReconcileTx(deployments, incidents, repository, minted), repository)
  {
    var after := ReconcileTx(deployments, incidents, repository, minted);
    forall id | id in after
      ensures !Orphan(deployments, after[id], repository)
      ensures after[id].failed.Some? && after[id].failed.value in Failures(deployments, repository) ==>
                after[id] == Derived(deployments, after[id].failed.value, after[id].version)
    {
      AfterIsDerived(deployments, incidents, repository, minted, id);
    }
    forall f | f in Failures(deployments, repository) ensures Recorded(after, f) {
      var id := IncidentOf(deployments, incidents, repository, minted, f);
    }
  }

  /**
    One reconcile leaves exactly one incident for every finished production failure of the
    repository, and no other GITHUB incident of the repository.
  */
  lemma OneIncidentPerFailure(deployments: Deployments, incidents: Incidents, repository: Uuid, minted: map<Uuid, Uuid>)
    requires UniqueFailures(incidents)
    requires Mints(Kept(deployments, incidents, repository), Failures(deployments, repository), minted)
    ensures var after := ReconcileTx(deployments, incidents, repository, minted);
            && UniqueFailures(after)
            && (forall f | f in Failures(deployments, repository) ::
                  exists id | id in after ::
                    after[id].failed == Some(f) && Tells(deployments, deployments[f].reading, repository, after[id]))
            && (forall id | id in after && after[id].repository == repository && after[id].source == Github ::
                  after[id].failed.Some? && after[id].failed.value in Failures(deployments, repository))
  {
    var after := ReconcileTx(deployments, incidents, repository, minted);
    UpsertKeepsIndex(deployments, Kept(deployments, incidents, repository), repository, minted);
    ReconcileReconciles(deployments, incidents, repository, minted);
    forall f | f in Failures(deployments, repository)
      ensures exists id | id in after ::
                after[id].failed == Some(f) && Tells(deployments, deployments[f].reading, repository, after[id])
    {
      var id := IncidentOf(deployments, incidents, repository, minted, f);
      DerivedTells(deployments, f, after[id].version);
    }
  }

  /** The incident's failed deployment is a finished production failure of the repository. */
  predicate StillFails(deployments: Deployments, incident: Incident, repository: Uuid) {
    && incident.failed.Some? && incident.failed.value in deployments
    && var d := deployments[incident.failed.value];
       d.key.repository == repository && d.reading.data.isProduction && d.reading.data.status == Conclusion.Failed
       && d.reading.at.Some?
  }

  /**
    What a reconcile does to an incident that was there: it is dropped exactly if it is a GITHUB
    incident of the repository whose failure is gone, and rewritten only if its failure still is one.
  */
  lemma ReconcileDropsIff(deployments: Deployments, incidents: Incidents, repository: Uuid, minted: map<Uuid, Uuid>,
                          id: Uuid)
    requires Mints(Kept(deployments, incidents, repository), Failures(deployments, repository), minted)
    requires id in incidents && id !in minted
    ensures var (after, incident) := (ReconcileTx(deployments, incidents, repository, minted), incidents[id]);
            && (id !in after <==> incident.repository == repository && incident.source == Github
                                  && !StillFails(deployments, incident, repository))
            && (id in after && !StillFails(deployments, incident, repository) ==> after[id] == incident)
            && (id in after && StillFails(deployments, incident, repository) ==>
                  after[id].failed == incident.failed && after[id].version == incident.version + 1)
  {
    var kept := Kept(deployments, incidents, repository);
    assert id in kept <==> !Orphan(deployments, incidents[id], repository);
  }

  /** The incidents that a reconcile adds: of version 0, for failures that no remaining incident records. */
  lemma ReconcileAdds(deployments: Deployments, incidents: Incidents, repository: Uuid, minted: map<Uuid, Uuid>,
                      id: Uuid)
    requires Mints(Kept(deployments, incidents, repository), Failures(deployments, repository), minted)
    ensures var after := ReconcileTx(deployments, incidents, repository, minted);
            && (id in minted ==> id in after && after[id].failed == Some(minted[id]) && after[id].version == 0)
            && (id in after && id !in incidents ==> id in minted)
  {
  }

  ghost predicate SameButVersions(incidents: Incidents, other: Incidents) {
    other.Keys == incidents.Keys
    && forall id | id in incidents :: other[id] == incidents[id].(version := other[id].version)
  }

  /** A reconcile of a reconciled table mints nothing and changes nothing but versions. */
  lemma ReconcileIsIdempotent(deployments: Deployments, after: Incidents, repository: Uuid)
    requires Reconciled(deployments, after, repository)
    ensures Mints(Kept(deployments, after, repository), Failures(deployments, repository), map[])
    ensures SameButVersions(after, ReconcileTx(deployments, after, repository, map[]))
  {
    assert Kept(deployments, after, repository) == after;
  }

  // ----- order of arrival ----------------------------------------------------------------------

  lemma SameSuccesses(s: Deployments, t: Deployments, repository: Uuid, at: Instant)
    requires UniqueKeys(s) && UniqueKeys(t) && SameReadings(s, t) && SucceededAt(s, repository, at)
    ensures SucceededAt(t, repository, at)
  {
    var id :| id in s && Production(s[id], repository, Success) && s[id].reading.at == Some(at);
    RowForIs(s, id);
    assert ReadingOf(t, s[id].key) == Some(s[id].reading);
  }

  /** Two accounts of one failed deployment that agree in everything but ids and versions. */
  ghost predicate SameStory(i: Incident, j: Incident) {
    && i.repository == j.repository && i.source == j.source && i.title == j.title
    && i.detectedAt == j.detectedAt && i.resolved == j.resolved && i.resolvedAt == j.resolvedAt
  }

  lemma TellingTheSame(s: Deployments, t: Deployments, failed: Reading<Signal>, repository: Uuid,
                       i: Incident, j: Incident)
    requires UniqueKeys(s) && UniqueKeys(t) && SameReadings(s, t)
    requires Tells(s, failed, repository, i) && Tells(t, failed, repository, j)
    ensures SameStory(i, j)
  {
    forall at ensures SucceededAt(s, repository, at) <==> SucceededAt(t, repository, at) {
      if SucceededAt(s, repository, at) {
        SameSuccesses(s, t, repository, at);
      }
      if SucceededAt(t, repository, at) {
        SameSuccesses(t, s, repository, at);
      }
    }
  }

  /**
    Reconciled tables over the same readings tell the same story of the same failed deployment,
    whatever their deployments' ids and whatever they held before.
  */
  lemma ReconciledTellTheSame(s: Deployments, t: Deployments, after: Incidents, after': Incidents, repository: Uuid,
                              a: Uuid, b: Uuid)
    requires UniqueKeys(s) && UniqueKeys(t) && SameReadings(s, t)
    requires Reconciled(s, after, repository) && Reconciled(t, after', repository)
    requires a in after && after[a].failed.Some? && after[a].failed.value in Failures(s, repository)
    requires b in after' && after'[b].failed.Some? && after'[b].failed.value in t
    requires s[after[a].failed.value].key == t[after'[b].failed.value].key
    ensures SameStory(after[a], after'[b])
  {
    var (f, g) := (after[a].failed.value, after'[b].failed.value);
    RowForIs(s, f);
    RowForIs(t, g);
    assert ReadingOf(s, s[f].key) == ReadingOf(t, s[f].key);
    DerivedTells(s, f, after[a].version);
    DerivedTells(t, g, after'[b].version);
    TellingTheSame(s, t, s[f].reading, repository, after[a], after'[b]);
  }

  /** Incidents of two tables whose failed deployments have the same key. */
  ghost predicate SameFailure(s: Deployments, t: Deployments, i: Incident, j: Incident) {
    && i.failed.Some? && i.failed.value in s && j.failed.Some? && j.failed.value in t
    && s[i.failed.value].key == t[j.failed.value].key
  }

  /** Exactly one incident of the table is about the same failure, and it tells the same story. */
  ghost predicate RetoldOnce(s: Deployments, t: Deployments, i: Incident, other: Incidents) {
    exists b | b in other ::
      && SameFailure(s, t, i, other[b]) && SameStory(i, other[b])
      && forall c | c in other && SameFailure(s, t, i, other[c]) :: c == b
  }

  /** A failure of one deployments table is a failure of any other with the same readings. */
  lemma SameFailures(s: Deployments, t: Deployments, repository: Uuid, f: Uuid) returns (g: Uuid)
    requires UniqueKeys(s) && UniqueKeys(t) && SameReadings(s, t) && f in Failures(s, repository)
    ensures g in Failures(t, repository) && t[g].key == s[f].key
  {
    RowForIs(s, f);
    assert ReadingOf(t, s[f].key) == Some(s[f].reading);
    g := RowFor(t, s[f].key).value;
  }

  lemma ReconciledRetell(s: Deployments, t: Deployments, after: Incidents, after': Incidents, repository: Uuid, a: Uuid)
    requires UniqueKeys(s) && UniqueKeys(t) && SameReadings(s, t)
    requires Reconciled(s, after, repository) && Reconciled(t, after', repository) && UniqueFailures(after')
    requires a in after && after[a].failed.Some? && after[a].failed.value in Failures(s, repository)
    ensures RetoldOnce(s, t, after[a], after')
  {
    var f := after[a].failed.value;
    var g := SameFailures(s, t, repository, f);
    assert Recorded(after', g);
    var b :| b in after' && after'[b].failed == Some(g);
    ReconciledTellTheSame(s, t, after, after', repository, a, b);
    forall c | c in after' && SameFailure(s, t, after[a], after'[c]) ensures c == b {
      assert after'[c].failed.value == g;
    }
  }

  /**
    Incident history forgets the order of delivery: after the same deliveries in any order, with any
    repetitions, a reconcile of either table leaves exactly one incident about each failure that the
    other has one about, and it tells the same story.
  */
  lemma IncidentsForgetOrder(s: History, t: History, after: Incidents, after': Incidents, repository: Uuid, a: Uuid)
    requires FreshIds(s) && FreshIds(t) && SameFeed(Feed(s), Feed(t))
    requires forall key :: Settled(ForKey(Feed(s), key))
    requires Reconciled(Applied(s), after, repository) && Reconciled(Applied(t), after', repository)
    requires UniqueFailures(after')
    requires a in after && after[a].failed.Some? && after[a].failed.value in Failures(Applied(s), repository)
    ensures RetoldOnce(Applied(s), Applied(t), after[a], after')
  {
    HistoryForgetsOrder(s, t);
    ReconciledRetell(Applied(s), Applied(t), after, after', repository, a);
  }
}
