/** Links from deployments to the pull requests they shipped, rebuilt from the tables. */
module Links {
  import opened Prelude
  import opened Jobs
  import opened Upserts
  import opened Deployments

  datatype Method = Manual | MergeSha | CommitGraph | MergeWindow

  datatype PullRequest = PullRequest(
    repository: Uuid, merged: bool, baseRef: string, mergedAt: Option<Instant>,
    mergeSha: Option<string>, headSha: Option<string>)

  /** The tables a rebuild reads: `commits` pairs pull requests with the commits they contain. */
  datatype Tables = Tables(
    deployments: Deployments, pullRequests: map<Uuid, PullRequest>, commits: set<(Uuid, string)>,
    defaultBranch: map<Uuid, string>)

  /** A link's key: deployment, then pull request. */
  type Pair = (Uuid, Uuid)

  type Links = map<Pair, Method>

  function Pairs(tables: Tables, repository: Uuid): set<Pair> {
    set d, p | d in tables.deployments && tables.deployments[d].key.repository == repository
               && p in tables.pullRequests && tables.pullRequests[p].repository == repository :: (d, p)
  }

  /** The DELETE statement: manual links and other repositories' links stay. */
  function Kept(tables: Tables, links: Links, repository: Uuid): Links {
    map pair | pair in links
               && !(pair.0 in tables.deployments && tables.deployments[pair.0].key.repository == repository
                    && links[pair] != Manual)
      :: links[pair]
  }

  /** A commit that can identify a pull request. */
  predicate HasCommit(d: Deployment) {
    d.reading.data.commitSha.Some? && d.reading.data.commitSha.value != ""
  }

  predicate ShaMatches(d: Deployment, pr: PullRequest) {
    HasCommit(d) && (d.reading.data.commitSha == pr.mergeSha || d.reading.data.commitSha == pr.headSha)
  }

  predicate CommitMatches(tables: Tables, d: Deployment, p: Uuid) {
    HasCommit(d) && (p, d.reading.data.commitSha.value) in tables.commits
  }

  /** The first INSERT: deployments whose commit is the pull request's own, or one of its commits. */
  function Exact(tables: Tables, repository: Uuid): Links {
    map pair | pair in Pairs(tables, repository)
               && (ShaMatches(tables.deployments[pair.0], tables.pullRequests[pair.1])
                   || CommitMatches(tables, tables.deployments[pair.0], pair.1))
      :: if ShaMatches(tables.deployments[pair.0], tables.pullRequests[pair.1]) then MergeSha else CommitGraph
  }

  /** The repository's successful production deployments that finished before an instant. */
  function SuccessesBefore(deployments: Deployments, repository: Uuid, at: Instant): (ids: set<Uuid>)
    ensures Finished(deployments, ids)
  {
    set id | id in deployments && Production(deployments[id], repository, Success)
             && deployments[id].reading.at.value < at
  }

  /** The lateral subquery: when the latest successful production deployment before finished. */
  function Boundary(deployments: Deployments, repository: Uuid, at: Instant): Option<Instant> {
    var previous := EndOf(deployments, SuccessesBefore(deployments, repository, at), true);
    if previous.None? then None else deployments[previous.value].reading.at
  }

  /** The branch a deployment shipped: from its workflow run, its ref, or the repository's default. */
  function BaseRef(tables: Tables, d: Deployment): Option<string> {
    var raw := d.reading.data.raw;
    if raw.headBranch.Some? && raw.headBranch.value != "" then raw.headBranch
    else if raw.deploymentRef.Some? && raw.deploymentRef.value != "" then raw.deploymentRef
    else if d.key.repository in tables.defaultBranch then Some(tables.defaultBranch[d.key.repository])
    else None
  }

  /** The second INSERT's join: merged into the shipped branch since the previous deployment. */
  predicate InWindow(tables: Tables, d: Deployment, pr: PullRequest, repository: Uuid) {
    && Production(d, repository, Success) && pr.merged && BaseRef(tables, d) == Some(pr.baseRef) && pr.mergedAt.Some?
    && var boundary := Boundary(tables.deployments, repository, d.reading.at.value);
       boundary.Some? && boundary.value < pr.mergedAt.value <= d.reading.at.value
  }

  function Windowed(tables: Tables, repository: Uuid): Links {
    map pair | pair in Pairs(tables, repository)
               && InWindow(tables, tables.deployments[pair.0], tables.pullRequests[pair.1], repository)
      :: MergeWindow
  }

  /** ON CONFLICT DO NOTHING: what is there stays. */
  function InsertNew(links: Links, added: Links): Links {
    added + links
  }

  function Rebuilt(tables: Tables, links: Links, repository: Uuid): Links {
    InsertNew(InsertNew(Kept(tables, links, repository), Exact(tables, repository)), Windowed(tables, repository))
  }

  class LinkTable {
    var links: Links

    constructor ()
      ensures links == map[]
    {
      links := map[];
    }

    method Insert(added: Links) returns (count: nat)
      modifies this
      ensures links == InsertNew(old(links), added)
      ensures count == |added.Keys - old(links).Keys|
    {
      count := |added.Keys - links.Keys|;
      links := added + links;
    }

    /** The DELETE: every automatic link of the repository. */
    method DeleteAutomatic(tables: Tables, repository: Uuid)
      modifies this
      ensures links == Kept(tables, old(links), repository)
    {
      links := links - (set pair | pair in links && pair.0 in tables.deployments
                                   && tables.deployments[pair.0].key.repository == repository
                                   && links[pair] != Manual);
    }

    /** The whole rebuild, one transaction; the result is the number of links inserted. */
    method LinkDeployments(tables: Tables, repository: Uuid) returns (count: nat)
      modifies this
      ensures links == Rebuilt(tables, old(links), repository)
      ensures count == |links.Keys - Kept(tables, old(links), repository).Keys|
    {
      DeleteAutomatic(tables, repository);
      var exact := Insert(Exact(tables, repository));
      var fallback := Insert(Windowed(tables, repository));
      count := exact + fallback;
      NewLinksAdd(Kept(tables, old(links), repository), Exact(tables, repository), Windowed(tables, repository));
    }
  }

  lemma InsertNewKeys(links: Links, added: Links)
    ensures InsertNew(links, added).Keys == links.Keys + added.Keys
  {
  }

  lemma NewLinksAdd(kept: Links, first: Links, second: Links)
    ensures |first.Keys - kept.Keys| + |second.Keys - InsertNew(kept, first).Keys|
         == |InsertNew(InsertNew(kept, first), second).Keys - kept.Keys|
  {
    NewKeysAdd(kept.Keys, first.Keys, second.Keys);
    InsertNewKeys(kept, first);
    InsertNewKeys(InsertNew(kept, first), second);
  }

  lemma NewKeysAdd(kept: set<Pair>, first: set<Pair>, second: set<Pair>)
    ensures |first - kept| + |second - (kept + first)| == |(kept + first + second) - kept|
  {
    var (a, b) := (first - kept, second - (kept + first));
    assert (kept + first + second) - kept == a + b && a * b == {};
  }

  // ----- laws ----------------------------------------------------------------------------------

  /** The boundary is the latest shipment before an instant. */
  lemma BoundaryIsLatest(deployments: Deployments, repository: Uuid, at: Instant)
    ensures var boundary := Boundary(deployments, repository, at);
            && (boundary.Some? ==> boundary.value < at && SucceededAt(deployments, repository, boundary.value))
            && (forall t | t < at && SucceededAt(deployments, repository, t) :: boundary.Some? && t <= boundary.value)
  {
    var ids := SuccessesBefore(deployments, repository, at);
    forall t | t < at && SucceededAt(deployments, repository, t)
      ensures Boundary(deployments, repository, at).Some? && t <= Boundary(deployments, repository, at).value
    {
      var id :| id in deployments && Production(deployments[id], repository, Success)
                && deployments[id].reading.at == Some(t);
      assert id in ids;
    }
  }

  /**
    The window condition says exactly: this deployment finished when the repository first shipped
    at or after the merge, and the repository had shipped before the merge.
  */
  lemma WindowIsFirstShipment(tables: Tables, d: Uuid, pr: PullRequest, repository: Uuid)
    requires d in tables.deployments && Production(tables.deployments[d], repository, Success) && pr.mergedAt.Some?
    requires pr.merged && BaseRef(tables, tables.deployments[d]) == Some(pr.baseRef)
    ensures var at := tables.deployments[d].reading.at.value;
            var mergedAt := pr.mergedAt.value;
            InWindow(tables, tables.deployments[d], pr, repository) <==>
              && mergedAt <= at
              && (forall t | SucceededAt(tables.deployments, repository, t) && mergedAt <= t :: at <= t)
              && exists t :: t < mergedAt && SucceededAt(tables.deployments, repository, t)
  {
    BoundaryIsLatest(tables.deployments, repository, tables.deployments[d].reading.at.value);
  }

  function At(links: Links, pair: Pair): Option<Method> {
    if pair in links then Some(links[pair]) else None
  }

  /** The three sources of links, seen at one pair of the repository. */
  lemma SourcesAt(tables: Tables, links: Links, repository: Uuid, pair: Pair)
    requires pair in Pairs(tables, repository)
    ensures var (d, pr) := (tables.deployments[pair.0], tables.pullRequests[pair.1]);
            && At(Kept(tables, links, repository), pair)
               == (if At(links, pair) == Some(Manual) then Some(Manual) else None)
            && At(Exact(tables, repository), pair)
               == (if ShaMatches(d, pr) then Some(MergeSha)
                   else if CommitMatches(tables, d, pair.1) then Some(CommitGraph) else None)
            && At(Windowed(tables, repository), pair)
               == (if InWindow(tables, d, pr, repository) then Some(MergeWindow) else None)
  {
  }

  lemma InsertedAt(links: Links, added: Links, pair: Pair)
    ensures At(InsertNew(links, added), pair) == OrElse(At(links, pair), At(added, pair))
  {
  }

  /** The deployment shipped the pull request's merge commit or its head. */
  predicate ShippedItself(d: Deployment, pr: PullRequest) {
    match d.reading.data.commitSha
    case None => false
    case Some(sha) => sha != "" && (pr.mergeSha == Some(sha) || pr.headSha == Some(sha))
  }

  /** The deployment shipped one of the pull request's commits. */
  predicate ShippedCommit(tables: Tables, d: Deployment, p: Uuid) {
    match d.reading.data.commitSha
    case None => false
    case Some(sha) => sha != "" && (p, sha) in tables.commits
  }

  /** The branch that the deployment's event names: a workflow run's head branch, or else a ref. */
  function NamedBranch(raw: RawEvent): string {
    match (raw.headBranch, raw.deploymentRef)
    case (Some(branch), Some(ref)) => if branch != "" then branch else ref
    case (Some(branch), None) => branch
    case (None, Some(ref)) => ref
    case (None, None) => ""
  }

  /** The deployment shipped this branch: the one its event names, or else the repository's default. */
  predicate Shipped(tables: Tables, d: Deployment, branch: string) {
    if NamedBranch(d.reading.data.raw) != "" then NamedBranch(d.reading.data.raw) == branch
    else d.key.repository in tables.defaultBranch && tables.defaultBranch[d.key.repository] == branch
  }

  /** It was the repository's first shipment since the merge into its branch, and not its first ever. */
  ghost predicate FirstShipment(tables: Tables, d: Deployment, pr: PullRequest, repository: Uuid) {
    && d.reading.data.isProduction && d.reading.data.status == Success && d.reading.at.Some?
    && pr.merged && pr.mergedAt.Some? && Shipped(tables, d, pr.baseRef) && pr.mergedAt.value <= d.reading.at.value
    && (forall t | SucceededAt(tables.deployments, repository, t) && pr.mergedAt.value <= t :: d.reading.at.value <= t)
    && exists t :: t < pr.mergedAt.value && SucceededAt(tables.deployments, repository, t)
  }

  lemma ReasonsAreMeant(tables: Tables, repository: Uuid, pair: Pair)
    requires pair in Pairs(tables, repository)
    ensures var (d, pr) := (tables.deployments[pair.0], tables.pullRequests[pair.1]);
            && (ShaMatches(d, pr) <==> ShippedItself(d, pr))
            && (CommitMatches(tables, d, pair.1) <==> ShippedCommit(tables, d, pair.1))
            && (InWindow(tables, d, pr, repository) <==> FirstShipment(tables, d, pr, repository))
  {
    var (d, pr) := (tables.deployments[pair.0], tables.pullRequests[pair.1]);
    assert BaseRef(tables, d) == Some(pr.baseRef) <==> Shipped(tables, d, pr.baseRef);
    if Production(d, repository, Success) && pr.merged && BaseRef(tables, d) == Some(pr.baseRef) && pr.mergedAt.Some? {
      WindowIsFirstShipment(tables, pair.0, pr, repository);
    }
  }

  /** The method of every link after a rebuild, by precedence. */
  lemma MethodByPrecedence(tables: Tables, links: Links, repository: Uuid, pair: Pair)
    requires pair in Pairs(tables, repository)
    ensures var (d, pr) := (tables.deployments[pair.0], tables.pullRequests[pair.1]);
            At(Rebuilt(tables, links, repository), pair)
              == if At(links, pair) == Some(Manual) then Some(Manual)
                 else if ShippedItself(d, pr) then Some(MergeSha)
                 else if ShippedCommit(tables, d, pair.1) then Some(CommitGraph)
                 else if FirstShipment(tables, d, pr, repository) then Some(MergeWindow)
                 else None
  {
    var (kept, exact) := (Kept(tables, links, repository), Exact(tables, repository));
    ReasonsAreMeant(tables, repository, pair);
    SourcesAt(tables, links, repository, pair);
    InsertedAt(kept, exact, pair);
    InsertedAt(InsertNew(kept, exact), Windowed(tables, repository), pair);
  }

  /**
    A rebuild of one repository leaves every link of the others alone, and every manual link; in the
    repository a pair without a pull request of it keeps its link only if that is manual.
  */
  lemma RebuildIsLocal(tables: Tables, links: Links, repository: Uuid, pair: Pair)
    ensures var found := At(Rebuilt(tables, links, repository), pair);
            && (pair.0 !in tables.deployments || tables.deployments[pair.0].key.repository != repository ==>
                  found == At(links, pair))
            && (At(links, pair) == Some(Manual) ==> found == Some(Manual))
            && (pair.0 in tables.deployments && tables.deployments[pair.0].key.repository == repository
                && (pair.1 !in tables.pullRequests || tables.pullRequests[pair.1].repository != repository) ==>
                  found == if At(links, pair) == Some(Manual) then Some(Manual) else None)
  {
    var (kept, exact) := (Kept(tables, links, repository), Exact(tables, repository));
    InsertedAt(kept, exact, pair);
    InsertedAt(InsertNew(kept, exact), Windowed(tables, repository), pair);
  }

  /** A merge-window link after a rebuild comes from the window condition. */
  lemma WindowLinkIsInWindow(tables: Tables, links: Links, repository: Uuid, pair: Pair)
    requires pair in Rebuilt(tables, links, repository) && Rebuilt(tables, links, repository)[pair] == MergeWindow
    requires pair.0 in tables.deployments && tables.deployments[pair.0].key.repository == repository
    ensures pair in Pairs(tables, repository)
    ensures InWindow(tables, tables.deployments[pair.0], tables.pullRequests[pair.1], repository)
  {
  }

  /** A merge-window link to a deployment of the repository after a rebuild. */
  ghost predicate HasWindowLink(tables: Tables, links: Links, repository: Uuid, d: Uuid, p: Uuid) {
    && d in tables.deployments && tables.deployments[d].key.repository == repository
    && (d, p) in Rebuilt(tables, links, repository) && Rebuilt(tables, links, repository)[(d, p)] == MergeWindow
  }

  /**
    The merge-window law: a MERGE_WINDOW link means that the repository shipped before the merge,
    and not between the merge and the linked deployment's finish. So the repository's earliest
    shipment has no such link.
  */
  lemma MergeWindowLaw(tables: Tables, links: Links, repository: Uuid, d: Uuid, p: Uuid)
    requires HasWindowLink(tables, links, repository, d, p)
    ensures Production(tables.deployments[d], repository, Success)
    ensures p in tables.pullRequests && tables.pullRequests[p].mergedAt.Some?
    ensures var (at, mergedAt) := (tables.deployments[d].reading.at.value, tables.pullRequests[p].mergedAt.value);
            && mergedAt <= at
            && (forall t | mergedAt <= t < at :: !SucceededAt(tables.deployments, repository, t))
            && (exists t :: t < mergedAt && SucceededAt(tables.deployments, repository, t))
  {
    WindowLinkIsInWindow(tables, links, repository, (d, p));
    WindowIsFirstShipment(tables, d, tables.pullRequests[p], repository);
  }

  lemma WindowsMeet(tables: Tables, d: Uuid, e: Uuid, pr: PullRequest, repository: Uuid)
    requires d in tables.deployments && InWindow(tables, tables.deployments[d], pr, repository)
    requires e in tables.deployments && InWindow(tables, tables.deployments[e], pr, repository)
    ensures tables.deployments[d].reading.at == tables.deployments[e].reading.at
  {
    WindowIsFirstShipment(tables, d, pr, repository);
    WindowIsFirstShipment(tables, e, pr, repository);
    assert SucceededAt(tables.deployments, repository, tables.deployments[d].reading.at.value);
    assert SucceededAt(tables.deployments, repository, tables.deployments[e].reading.at.value);
  }

  /** Windows of deployments that finished at different instants are disjoint. */
  lemma WindowsAreDisjoint(tables: Tables, links: Links, repository: Uuid, d: Uuid, e: Uuid, p: Uuid)
    requires HasWindowLink(tables, links, repository, d, p) && HasWindowLink(tables, links, repository, e, p)
    ensures tables.deployments[d].reading.at == tables.deployments[e].reading.at
  {
    WindowLinkIsInWindow(tables, links, repository, (d, p));
    WindowLinkIsInWindow(tables, links, repository, (e, p));
    WindowsMeet(tables, d, e, tables.pullRequests[p], repository);
  }

  lemma KeptPair(tables: Tables, links: Links, repository: Uuid, pair: Pair)
    ensures var (kept, again) := (Kept(tables, links, repository),
                                  Kept(tables, Rebuilt(tables, links, repository), repository));
            (pair in again <==> pair in kept) && (pair in kept ==> again[pair] == kept[pair])
  {
  }

  /** A rebuild looks at no automatic link of the repository. */
  lemma RebuiltFromKept(tables: Tables, links: Links, other: Links, repository: Uuid)
    requires Kept(tables, links, repository) == Kept(tables, other, repository)
    ensures Rebuilt(tables, links, repository) == Rebuilt(tables, other, repository)
  {
  }

  lemma SameMaps(m: Links, n: Links)
    requires forall pair :: (pair in m <==> pair in n) && (pair in m ==> m[pair] == n[pair])
    ensures m == n
  {
  }

  /** A rebuild is idempotent, and never drops or changes a manual link or another repository's. */
  lemma RebuildIsIdempotent(tables: Tables, links: Links, repository: Uuid)
    ensures Kept(tables, Rebuilt(tables, links, repository), repository) == Kept(tables, links, repository)
    ensures Rebuilt(tables, Rebuilt(tables, links, repository), repository) == Rebuilt(tables, links, repository)
  {
    var (kept, after) := (Kept(tables, links, repository), Rebuilt(tables, links, repository));
    var again := Kept(tables, after, repository);
    forall pair ensures (pair in again <==> pair in kept) && (pair in again ==> again[pair] == kept[pair]) {
      KeptPair(tables, links, repository, pair);
    }
    SameMaps(again, kept);
    RebuiltFromKept(tables, after, links, repository);
  }
}
