/** project.create: the tables of a new project, with its event counter and first event. */
module Projects {
  import opened Wrappers
  import opened Tables
  import opened Commands

  /** The optional root repository of a project.create request. */
  datatype RootInput = RootInput(slug: string, remoteName: string, branch: string)

  const NO_PROJECT := Project(false, None, None, 0, 1)

  function EmptyTables(): Tables
  {
    Tables(NO_PROJECT, map[], map[], map[], map[], map[], map[], map[], map[], map[], map[], 0, [], [], 0)
  }

  function RootRow(root: RootInput): Repository
  {
    Repository(root.slug, None, root.remoteName, "primary", true, root.branch, RepositoryActive, 1)
  }

  /** What project.create commits: everything later happens to these tables. */
  function Created(revision: Option<string>, root: Option<RootInput>): Tables
  {
    var empty := EmptyTables();
    var rooted := if root.None? then empty.(project := NO_PROJECT.(revision := revision))
                  else empty.(project := NO_PROJECT.(root := Some(0), revision := revision),
                              repositories := map[0 := RootRow(root.value)], nextId := 1);
    AppendEvent(rooted.(nextId := rooted.nextId + 1), ProjectAggregate, 1, rooted.nextId, ProjectCreated(rooted.project.root, revision))
  }

  /** project.create, statement by statement. */
  method Create(revision: Option<string>, root: Option<RootInput>) returns (pool: Pool)
    ensures fresh(pool) && pool.tables == Created(revision, root)
    ensures pool.tables.counter == pool.tables.project.sequence == |pool.tables.events| == |pool.tables.outbox| == 1
    ensures pool.tables.events[0].sequence == pool.tables.outbox[0] == 1
    ensures pool.tables.events[0].payload == ProjectCreated(pool.tables.project.root, pool.tables.project.revision)
    ensures !pool.tables.project.archived && pool.tables.project.version == pool.tables.events[0].version == 1
    ensures root.None? ==> pool.tables.repositories == map[]
    ensures root.Some? ==>
      && pool.tables.project.root == Some(0)
      && pool.tables.repositories ==
         map[0 := Repository(root.value.slug, None, root.value.remoteName, "primary", true, root.value.branch, RepositoryActive, 1)]
    ensures pool.tables.project.revision == revision && (pool.tables.project.root.Some? <==> root.Some?)
  {
    var tx := EmptyTables();
    tx := tx.(project := tx.project.(revision := revision));
    if root.Some? {
      tx := tx.(repositories := tx.repositories[tx.nextId := RootRow(root.value)]);
      tx := tx.(project := tx.project.(root := Some(tx.nextId)), nextId := tx.nextId + 1);
    }
    var commandId := tx.nextId;
    tx := tx.(nextId := commandId + 1);
    tx := AppendEvent(tx, ProjectAggregate, 1, commandId, ProjectCreated(tx.project.root, revision));
    pool := new Pool(tx);
  }
}
