/** The canonical revision: the project follows its primary repository. */
module Canonical {
  import opened Wrappers
  import opened Tables
  import opened Commands
  import opened Server
  import opened Frames
  import opened Work
  import RepositorySync
  import ProjectRepositories
  import Slugs

  /** If the primary repository's provider state is synced, the project shows that state's revision. */
  ghost predicate FollowsPrimary(t: Tables)
  {
    t.project.root.Some? && t.project.root.value in t.providers && t.providers[t.project.root.value].status.Synced? ==>
      t.project.revision == t.providers[t.project.root.value].revision
  }

  /** No two repositories share a slug, and no two that are in use share a GitHub number. */
  ghost predicate RepositoriesDistinct(repositories: map<Id, Repository>)
  {
    && (forall a: Id, b: Id :: a in repositories && b in repositories && repositories[a].slug == repositories[b].slug ==> a == b)
    && (forall a: Id, b: Id :: InUse(repositories, a) && InUse(repositories, b) && repositories[a].github == repositories[b].github ==> a == b)
  }

  predicate InUse(repositories: map<Id, Repository>, id: Id)
  {
    id in repositories && !repositories[id].status.RepositoryArchived? && repositories[id].github.Some?
  }

  ghost predicate CanonSound(t: Tables)
  {
    && RepositoriesDistinct(t.repositories)
    && (t.project.root.Some? ==> t.project.root.value in t.repositories)
    && (forall id: Id :: id in t.providers ==> id in t.repositories)
    && FollowsPrimary(t)
  }

  lemma CanonKept(t: Tables, tt: Time, c: Command, e: Effect)
    requires Fresh(t, tt, c, e) && Numbered(t) && CanonSound(t)
    ensures CanonSound(e.tables)
  {
    FreshIsFramed(t, tt, c, e);
    hide Fresh, CanonSound;
    if MovesCanon(c) { ByCanon(t, tt, c, e); } else { ByOthers(t, c, e.tables); }
  }

  lemma ByCanon(t: Tables, tt: Time, c: Command, e: Effect)
    requires Fresh(t, tt, c, e) && Numbered(t) && CanonSound(t) && MovesCanon(c)
    ensures CanonSound(e.tables)
  {
    hide CanonSound, RepositorySync.Applied, RepositorySync.FailureStored, ProjectRepositories.RepositoryLinked;
    match c
    case ApplySnapshot(repository, syncKey, snapshot) => BySnapshot(t, tt, repository, syncKey, snapshot, e);
    case RecordFailure(repository, fullName, errorCode) => ByFailure(t, tt, repository, fullName, errorCode, e.tables);
    case AttachRepository(attach, provider) => ByLinking(t, attach, provider.value, e);
  }

  lemma ByOthers(t: Tables, c: Command, r: Tables)
    requires Framed(t, c, r) && !MovesCanon(c) && CanonSound(t)
    ensures CanonSound(r)
  {
  }

  lemma BySnapshot(t: Tables, tt: Time, repository: Id, key: RepositorySync.SyncKey, snapshot: RepositorySync.Snapshot, e: Effect)
    requires RepositorySync.Applied(t, tt, repository, key, snapshot, e) && CanonSound(t)
    ensures CanonSound(e.tables)
  {
    hide RepositorySync.SnapshotChanges, RepositoriesDistinct;
    BranchKeepsDistinct(t.repositories, repository, snapshot.branch);
  }

  lemma BranchKeepsDistinct(repositories: map<Id, Repository>, id: Id, branch: string)
    requires id in repositories && RepositoriesDistinct(repositories)
    ensures RepositoriesDistinct(repositories[id := RepositorySync.SetBranch(repositories[id], branch)])
  {
  }

  lemma ByFailure(t: Tables, tt: Time, repository: Id, fullName: string, errorCode: string, r: Tables)
    requires RepositorySync.FailureStored(t, tt, repository, fullName, errorCode, r) && CanonSound(t)
    ensures CanonSound(r)
  {
    hide RepositorySync.FailureChanges;
  }

  /** Switching the primary repository brings a revision along from a synced state only, and linking or
      inserting a repository keeps slugs and GitHub numbers apart. */
  lemma ByLinking(t: Tables, input: ProjectRepositories.AttachInput, provider: ProjectRepositories.Provider, e: Effect)
    requires ProjectRepositories.RepositoryLinked(t, input, provider, e) && Numbered(t) && CanonSound(t)
    ensures CanonSound(e.tables)
  {
    hide ProjectRepositories.LinkOrInsert, ProjectRepositories.LinkRefused, RepositoriesDistinct;
    var (repository, linked) := ProjectRepositories.LinkOrInsert(t, input, provider);
    LinkedStayDistinct(t, input, provider, repository, linked);
    hide ProjectRepositories.FindExisting, ProjectRepositories.NewRow, ProjectRepositories.LinkRow, ProjectRepositories.Matches;
  }

  lemma LinkedStayDistinct(
    t: Tables, input: ProjectRepositories.AttachInput, provider: ProjectRepositories.Provider, repository: Id, r: Tables)
    requires ProjectRepositories.Linked(t, input, provider, repository, r) && !ProjectRepositories.LinkRefused(t, input, provider)
    requires repository == ProjectRepositories.LinkOrInsert(t, input, provider).0
    requires Numbered(t) && RepositoriesDistinct(t.repositories)
    ensures RepositoriesDistinct(r.repositories)
  {
    hide ProjectRepositories.FindExisting, ProjectRepositories.NewRow;
    if ProjectRepositories.FindExisting(t, input.github, provider, t.nextId).None? {
      NewRowIsDistinct(t, input, provider);
    }
  }

  lemma NewRowIsDistinct(t: Tables, input: ProjectRepositories.AttachInput, provider: ProjectRepositories.Provider)
    ensures forall id: Id :: id in t.repositories ==> t.repositories[id].slug != ProjectRepositories.NewRow(t, input, provider).slug
    ensures ProjectRepositories.NewRow(t, input, provider).github == Some(input.github)
  {
    Slugs.SlugAllocation(provider.name, ProjectRepositories.TakenSlugs(t));
    hide Slugs.FreshSlug;
    assert forall id: Id :: id in t.repositories ==> t.repositories[id].slug in ProjectRepositories.TakenSlugs(t);
  }

  /** A failure never moves the project's revision, and the state keeps its last success and revision. */
  lemma FailureKeepsCanonical(t: Tables, tt: Time, repository: Id, fullName: string, errorCode: string)
    requires RepositorySync.RecordFailureEffect(t, tt, repository, fullName, errorCode).Ok?
    ensures var r := RepositorySync.RecordFailureEffect(t, tt, repository, fullName, errorCode).value.tables;
      && r.project.revision == t.project.revision
      && r.project.root == t.project.root
      && r.project.version == t.project.version
      && r.repositories == t.repositories
      && (forall id: Id :: id in t.providers ==>
            id in r.providers && r.providers[id].successAt == t.providers[id].successAt && r.providers[id].revision == t.providers[id].revision)
  {
    RepositorySync.FailureDelta(t, tt, repository, fullName, errorCode);
    hide RepositorySync.RecordFailureEffect, RepositorySync.FailureChanges;
  }

  /** Applying a snapshot again, under any key and at any time, appends no event and bumps no version. */
  lemma ReapplyingIsSilent(
    t: Tables, tt: Time, repository: Id, key: RepositorySync.SyncKey, snapshot: RepositorySync.Snapshot,
    later: Time, again: RepositorySync.SyncKey)
    requires RepositorySync.ApplyEffect(t, tt, repository, key, snapshot).Ok?
    requires !RepositorySync.ApplyEffect(t, tt, repository, key, snapshot).value.replayed
    requires var r := RepositorySync.ApplyEffect(t, tt, repository, key, snapshot).value.tables;
      RepositorySync.ApplyEffect(r, later, repository, again, snapshot).Ok?
    ensures var r := RepositorySync.ApplyEffect(t, tt, repository, key, snapshot).value.tables;
      var s := RepositorySync.ApplyEffect(r, later, repository, again, snapshot).value.tables;
      && s.events == r.events
      && s.project == r.project
      && s.repositories == r.repositories
      && repository in s.providers && repository in r.providers
      && s.providers[repository].version == r.providers[repository].version
  {
    RepositorySync.ApplyDelta(t, tt, repository, key, snapshot);
    var r := RepositorySync.ApplyEffect(t, tt, repository, key, snapshot).value.tables;
    RepositorySync.ApplyDelta(r, later, repository, again, snapshot);
    hide RepositorySync.ApplyEffect;
    SettledSnapshot(t, tt, repository, key, snapshot);
  }

  /** What a snapshot leaves behind no longer differs from it. */
  lemma SettledSnapshot(t: Tables, tt: Time, repository: Id, key: RepositorySync.SyncKey, snapshot: RepositorySync.Snapshot)
    requires RepositorySync.ApplyEffect(t, tt, repository, key, snapshot).Ok?
    requires !RepositorySync.ApplyEffect(t, tt, repository, key, snapshot).value.replayed
    ensures var r := RepositorySync.ApplyEffect(t, tt, repository, key, snapshot).value.tables;
      && repository in r.repositories && repository in r.providers
      && !RepositorySync.SnapshotChanges(r, repository, snapshot)
      && r.repositories[repository].branch == snapshot.branch
      && (RepositorySync.IsRoot(r, repository) ==> r.project.revision == Some(snapshot.revision))
  {
    RepositorySync.ApplyDelta(t, tt, repository, key, snapshot);
    hide RepositorySync.ApplyEffect;
  }
}
