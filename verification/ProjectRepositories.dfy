/** Attaching a provider repository to the project, possibly as its primary repository. */
module ProjectRepositories {
  import opened Wrappers
  import opened Text
  import opened Tables
  import opened Commands
  import Slugs

  datatype AttachInput = AttachInput(github: int, purpose: string, required: Option<bool>, primary: bool)

  /** The authorised provider repository behind the requested number. */
  datatype Provider = Provider(name: string, fullName: string, branch: string)

  predicate Matches(row: Repository, github: int, provider: Provider)
  {
    && !row.status.RepositoryArchived?
    && (row.github == Some(github) || row.remoteName == ToLower(provider.fullName))
  }

  /** The row that ORDER BY github_repository_id IS NOT NULL DESC LIMIT 1 picks among the first n
      identifiers; the query leaves ties open and the model takes the oldest. */
  function FindExisting(t: Tables, github: int, provider: Provider, n: nat): (r: Option<Id>)
    ensures r.Some? ==> r.value < n && r.value in t.repositories && Matches(t.repositories[r.value], github, provider)
    ensures r.None? ==> forall id: Id :: id < n && id in t.repositories ==> !Matches(t.repositories[id], github, provider)
  {
    if n == 0 then None
    else
      var before := FindExisting(t, github, provider, n - 1);
      if n - 1 !in t.repositories || !Matches(t.repositories[n - 1], github, provider) then before
      else if before.None? || (t.repositories[before.value].github.None? && t.repositories[n - 1].github.Some?) then Some(n - 1)
      else before
  }

  function TakenSlugs(t: Tables): set<string>
  {
    set id | id in t.repositories :: t.repositories[id].slug
  }

  function Required(input: AttachInput): bool
  {
    if input.required.Some? then input.required.value else true
  }

  function LinkRow(row: Repository, input: AttachInput, provider: Provider): Repository
  {
    row.(github := Some(input.github), purpose := input.purpose, required := Required(input), branch := provider.branch,
         status := RepositoryActive, version := row.version + 1)
  }

  function NewRow(t: Tables, input: AttachInput, provider: Provider): Repository
  {
    Repository(Slugs.FreshSlug(provider.name, TakenSlugs(t)), Some(input.github), ToLower(provider.fullName), input.purpose,
               Required(input), provider.branch, RepositoryActive, 1)
  }

  lemma NewRowIsFirst(t: Tables, input: AttachInput, provider: Provider)
    ensures NewRow(t, input, provider).version == 1
  {
    hide Slugs.FreshSlug, ToLower;
  }

  /** The revision a repository brings along when it becomes primary: that of a synced state, else null. */
  function SyncedRevision(t: Tables, repository: Id): Option<string>
  {
    if repository in t.providers && t.providers[repository].status.Synced? then t.providers[repository].revision else None
  }

  function MakePrimary(t: Tables, repository: Id): Tables
  {
    t.(project := PrimaryProject(t, repository))
  }

  function PrimaryProject(t: Tables, repository: Id): Project
  {
    if t.project.root == Some(repository) then t.project.(version := t.project.version + 1)
    else t.project.(root := Some(repository), revision := SyncedRevision(t, repository), version := t.project.version + 1)
  }

  /** The linked or inserted row, and the tables that hold it. */
  function LinkOrInsert(t: Tables, input: AttachInput, provider: Provider): (r: (Id, Tables))
    ensures r.0 in r.1.repositories && r.1.project == t.project
  {
    var existing := FindExisting(t, input.github, provider, t.nextId);
    if existing.Some? then
      (existing.value, t.(repositories := t.repositories[existing.value := LinkRow(t.repositories[existing.value], input, provider)]))
    else
      (t.nextId, t.(repositories := t.repositories[t.nextId := NewRow(t, input, provider)], nextId := t.nextId + 1))
  }

  /** The unique index over GitHub numbers: the row to link may find its number on another row. */
  predicate LinkRefused(t: Tables, input: AttachInput, provider: Provider)
  {
    var existing := FindExisting(t, input.github, provider, t.nextId);
    existing.Some? && GithubTaken(t, input.github, existing.value)
  }

  predicate GithubTaken(t: Tables, github: int, except: Id)
  {
    exists id :: id in t.repositories && id != except && !t.repositories[id].status.RepositoryArchived? && t.repositories[id].github == Some(github)
  }

  function AttachEffect(t: Tables, tt: Time, input: AttachInput, provider: Option<Provider>): Result<Effect, Error>
  {
    if t.project.archived then Err(NotFound)
    else if provider.None? then Err(ProviderNotFound)
    else if LinkRefused(t, input, provider.value) then Err(ConstraintViolation)
    else
      var (repository, linked) := LinkOrInsert(t, input, provider.value);
      Ok(PlaceRepository(linked, repository, input.primary || t.project.root.None?))
  }

  /** The rest of the command, once the row is there. */
  function PlaceRepository(t: Tables, repository: Id, primary: bool): Effect
    requires repository in t.repositories
  {
    var placed := if primary then MakePrimary(t, repository) else t;
    var row := t.repositories[repository];
    var logged := AppendEvent(placed.(nextId := t.nextId + 1), RepositoryAggregate(repository), row.version, t.nextId,
                              RepositoryAttached(placed.project.root == Some(repository)));
    Effect(logged, RepositoryRow(repository, row), false)
  }

  /** Linking or inserting, table by table. */
  ghost predicate Linked(t: Tables, input: AttachInput, provider: Provider, repository: Id, r: Tables)
  {
    && repository in r.repositories
    && r.project == t.project && r.providers == t.providers
    && SameWork(t, r) && SameSessions(t, r) && SameHandoffs(t, r) && SamePacks(t, r)
    && r.commands == t.commands && Quiet(t, r)
    && if FindExisting(t, input.github, provider, t.nextId).Some?
       then
         && repository in t.repositories && r.nextId == t.nextId && Matches(t.repositories[repository], input.github, provider)
         && r.repositories == t.repositories[repository := LinkRow(t.repositories[repository], input, provider)]
       else
         && repository == t.nextId && r.nextId == t.nextId + 1
         && r.repositories == t.repositories[repository := NewRow(t, input, provider)]
  }

  lemma LinkDelta(t: Tables, input: AttachInput, provider: Provider)
    ensures Linked(t, input, provider, LinkOrInsert(t, input, provider).0, LinkOrInsert(t, input, provider).1)
  {
    hide FindExisting, NewRow, LinkRow, Matches;
    var existing := FindExisting(t, input.github, provider, t.nextId);
    if existing.Some? {
      assert LinkOrInsert(t, input, provider) ==
        (existing.value, t.(repositories := t.repositories[existing.value := LinkRow(t.repositories[existing.value], input, provider)]));
    } else {
      assert LinkOrInsert(t, input, provider) ==
        (t.nextId, t.(repositories := t.repositories[t.nextId := NewRow(t, input, provider)], nextId := t.nextId + 1));
    }
  }

  /** The rest of the command, table by table. */
  ghost predicate Placed(t: Tables, repository: Id, primary: bool, e: Effect)
    requires repository in t.repositories
  {
    var r := e.tables;
    var switched := primary && t.project.root != Some(repository);
    && r.project.root == (if primary then Some(repository) else t.project.root)
    && r.project.revision == (if switched then SyncedRevision(t, repository) else t.project.revision)
    && r.project.archived == t.project.archived
    && r.project.version == (if primary then t.project.version + 1 else t.project.version)
    && e.response == RepositoryRow(repository, t.repositories[repository])
    && r.repositories == t.repositories && r.providers == t.providers
    && SameWork(t, r) && SameSessions(t, r) && SameHandoffs(t, r) && SamePacks(t, r)
    && r.commands == t.commands
    && r.nextId == t.nextId + 1
    && Logs(t, r, RepositoryAggregate(repository), t.repositories[repository].version, t.nextId,
            RepositoryAttached(primary || t.project.root == Some(repository)))
  }

  lemma MakePrimaryFrame(t: Tables, repository: Id)
    ensures var r := MakePrimary(t, repository);
      && r.project.root == Some(repository)
      && r.project.revision == (if t.project.root == Some(repository) then t.project.revision else SyncedRevision(t, repository))
      && r.project.archived == t.project.archived
      && r.project.version == t.project.version + 1
      && r.repositories == t.repositories && r.providers == t.providers
      && SameWork(t, r) && SameSessions(t, r) && SameHandoffs(t, r) && SamePacks(t, r)
      && r.commands == t.commands && Quiet(t, r)
  {
    hide SyncedRevision;
  }

  lemma PlaceDelta(t: Tables, repository: Id, primary: bool)
    requires repository in t.repositories
    ensures !PlaceRepository(t, repository, primary).replayed
    ensures Placed(t, repository, primary, PlaceRepository(t, repository, primary))
  {
    hide MakePrimary, AppendEvent;
    MakePrimaryFrame(t, repository);
    var placed := if primary then MakePrimary(t, repository) else t;
    AppendFrame(placed.(nextId := t.nextId + 1), RepositoryAggregate(repository), t.repositories[repository].version, t.nextId,
                RepositoryAttached(placed.project.root == Some(repository)));
  }

  ghost predicate RepositoryLinked(t: Tables, input: AttachInput, provider: Provider, e: Effect)
  {
    var (repository, linked) := LinkOrInsert(t, input, provider);
    && !LinkRefused(t, input, provider)
    && Linked(t, input, provider, repository, linked) && Placed(linked, repository, input.primary || t.project.root.None?, e)
  }

  lemma AttachDelta(t: Tables, tt: Time, input: AttachInput, provider: Option<Provider>)
    requires AttachEffect(t, tt, input, provider).Ok?
    ensures var e := AttachEffect(t, tt, input, provider).value;
      provider.Some? && !e.replayed && RepositoryLinked(t, input, provider.value, e)
  {
    hide LinkOrInsert, LinkRefused, PlaceRepository, Linked, Placed;
    LinkDelta(t, input, provider.value);
    var (repository, linked) := LinkOrInsert(t, input, provider.value);
    PlaceDelta(linked, repository, input.primary || t.project.root.None?);
  }

  class PostgresRepository {
    const pool: Pool

    constructor (pool: Pool)
      ensures this.pool == pool
    {
      this.pool := pool;
    }

    /** Links the row that is already there, or probes for a free slug and inserts one. */
    method StoreRow(t: Tables, input: AttachInput, provider: Provider) returns (repository: Id, r: Tables)
      ensures (repository, r) == LinkOrInsert(t, input, provider)
    {
      hide FindExisting, Slugs.FreshSlug, Slugs.Probes, Slugs.RepositorySlug, ToLower, TakenSlugs;
      r := t;
      var existing := FindExisting(r, input.github, provider, r.nextId);
      if existing.Some? {
        repository := existing.value;
        r := r.(repositories := r.repositories[repository := LinkRow(r.repositories[repository], input, provider)]);
      } else {
        var slug, probes := Slugs.Allocate(provider.name, TakenSlugs(r));
        repository := r.nextId;
        var row := Repository(slug, Some(input.github), ToLower(provider.fullName), input.purpose,
                              Required(input), provider.branch, RepositoryActive, 1);
        r := r.(repositories := r.repositories[repository := row], nextId := repository + 1);
      }
    }

    method Attach(tt: Time, input: AttachInput, provider: Option<Provider>) returns (outcome: Outcome)
      modifies pool
      ensures Settled(old(pool.tables), pool.tables, outcome, AttachEffect(old(pool.tables), tt, input, provider))
    {
      hide LinkOrInsert, LinkRefused;
      var tx := pool.tables;
      if tx.project.archived {
        return Failed(NotFound);
      }
      var rootRepository := tx.project.root;
      if provider.None? {
        return Failed(ProviderNotFound);
      }
      if LinkRefused(tx, input, provider.value) {
        return Failed(ConstraintViolation);
      }
      var repository: Id;
      repository, tx := StoreRow(tx, input, provider.value);
      if input.primary || rootRepository.None? {
        if rootRepository == Some(repository) {
          tx := tx.(project := tx.project.(version := tx.project.version + 1));
        } else {
          tx := tx.(project := tx.project.(root := Some(repository), revision := SyncedRevision(tx, repository), version := tx.project.version + 1));
        }
      }
      var row := tx.repositories[repository];
      var commandId := tx.nextId;
      tx := tx.(nextId := commandId + 1);
      tx := AppendEvent(tx, RepositoryAggregate(repository), row.version, commandId, RepositoryAttached(tx.project.root == Some(repository)));
      pool.tables := tx;
      return Done(RepositoryRow(repository, row), false);
    }
  }
}
