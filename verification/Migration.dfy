/**
 * The migration runner against crashes. A run may be cut off before any statement, by a
 * crash or by an error; the next run starts from whatever was committed. Statements are
 * arbitrary changes of an arbitrary schema.
 */
module Migration {
  /** A bundle of statements recorded under one version. */
  datatype Group<T> = Group(version: int, transactional: bool, statements: seq<T>)

  /** What is committed: the schema, and the rows of the version table (none when it does not exist yet). */
  datatype Db<S> = Db(schema: S, versions: seq<int>)

  datatype Ending = Completed | CutOff | VersionAhead

  const HEAD_SCHEMA_VERSION: int := 3
  const ACCEPTABLE_SKEW_VERSIONS: int := 5

  function MigrationGroups<T>(v1: seq<T>, v2: seq<T>, v3: seq<T>): seq<Group<T>> {
    [Group(1, true, v1), Group(2, true, v2), Group(3, true, v3)]
  }

  /** COALESCE(MAX(version), 0). */
  function Current(versions: seq<int>): int {
    if versions == [] then 0
    else
      var rest, last := Current(versions[..|versions| - 1]), versions[|versions| - 1];
      if |versions| == 1 || last > rest then last else rest
  }

  lemma {:induction false} CurrentIsLargest(versions: seq<int>)
    ensures versions == [] ==> Current(versions) == 0
    ensures versions != [] ==> Current(versions) in versions
    ensures forall v :: v in versions ==> v <= Current(versions)
  {
    if versions != [] {
      var rest := versions[..|versions| - 1];
      CurrentIsLargest(rest);
      assert forall v :: v in versions <==> v in rest || v == versions[|versions| - 1];
    }
  }

  /** INSERT ... ON CONFLICT DO NOTHING. */
  function RecordVersion(versions: seq<int>, v: int): seq<int> {
    if v in versions then versions else versions + [v]
  }

  function RunAll<S, T>(exec: (S, T) -> S, schema: S, statements: seq<T>): S {
    if statements == [] then schema
    else exec(RunAll(exec, schema, statements[..|statements| - 1]), statements[|statements| - 1])
  }

  // ------------------------------------------------------------- what a run does

  /** A run under way: what it has committed, and how many more statements its connection executes. */
  datatype Progress<S> = Progress(db: Db<S>, left: nat, alive: bool)

  /** The statements of a group, its version row, and the commit of a transactional one. */
  function Cost<T>(g: Group<T>): nat {
    |g.statements| + if g.transactional then 2 else 1
  }

  function RunGroup<S, T>(exec: (S, T) -> S, p: Progress<S>, g: Group<T>): Progress<S> {
    if !p.alive then p
    else if p.left >= Cost(g) then
      Progress(Db(RunAll(exec, p.db.schema, g.statements), RecordVersion(p.db.versions, g.version)), p.left - Cost(g), true)
    else if g.transactional then Progress(p.db, 0, false)
    else Progress(p.db.(schema := RunAll(exec, p.db.schema, g.statements[..p.left])), 0, false)
  }

  /** The groups newer than `current`, in list order. */
  function RunGroups<S, T>(exec: (S, T) -> S, p: Progress<S>, groups: seq<Group<T>>, current: int): Progress<S> {
    if groups == [] then p
    else
      var g, q := groups[|groups| - 1], RunGroups(exec, p, groups[..|groups| - 1], current);
      if g.version <= current then q else RunGroup(exec, q, g)
  }

  datatype Outcome<S> = Outcome(db: Db<S>, ending: Ending)

  /** One Migrate call of code at version `head`, on a connection that executes `budget` statements before it is lost. */
  function MigrateOnce<S, T>(exec: (S, T) -> S, db: Db<S>, groups: seq<Group<T>>, head: int, budget: nat): Outcome<S> {
    if budget == 0 then Outcome(db, CutOff)
    else if Current(db.versions) > head + ACCEPTABLE_SKEW_VERSIONS then Outcome(db, VersionAhead)
    else
      var p := RunGroups(exec, Progress(db, budget - 1, true), groups, Current(db.versions));
      Outcome(p.db, if p.alive then Completed else CutOff)
  }

  /** Runs one after another, each on a connection of its own; how they end does not matter. */
  function MigrateAgain<S, T>(exec: (S, T) -> S, db: Db<S>, groups: seq<Group<T>>, head: int, budgets: seq<nat>): Db<S> {
    if budgets == [] then db
    else MigrateOnce(exec, MigrateAgain(exec, db, groups, head, budgets[..|budgets| - 1]), groups, head, budgets[|budgets| - 1]).db
  }

  // -------------------------------------------------------------------- runner

  /** A database connection that executes `budget` more statements before it is lost. */
  class Connection<S, T> {
    const exec: (S, T) -> S
    var schema: S
    var versions: seq<int>
    var budget: nat

    constructor (exec: (S, T) -> S, db: Db<S>, budget: nat)
      ensures this.exec == exec && Committed() == db && this.budget == budget
    {
      this.exec, this.schema, this.versions, this.budget := exec, db.schema, db.versions, budget;
    }

    function Committed(): Db<S>
      reads this
    {
      Db(schema, versions)
    }

    /** Sends one statement; false when the connection is lost first. */
    method Send() returns (ok: bool)
      modifies this`budget
      ensures ok == (old(budget) > 0)
      ensures budget == if ok then old(budget) - 1 else 0
    {
      ok := budget > 0;
      if ok {
        budget := budget - 1;
      }
    }

    method CurrentSchemaVersion() returns (ok: bool, current: int)
      modifies this`budget
      ensures ok == (old(budget) > 0)
      ensures budget == if ok then old(budget) - 1 else 0
      ensures current == Current(versions)
      ensures versions == [] ==> current == 0
      ensures versions != [] ==> current in versions && forall v :: v in versions ==> v <= current
    {
      CurrentIsLargest(versions);
      current := 0;
      ok := Send();
      for i := 0 to |versions|
        invariant current == Current(versions[..i])
      {
        assert versions[..i + 1][..i] == versions[..i];
        if i == 0 || versions[i] > current {
          current := versions[i];
        }
      }
      assert versions[..|versions|] == versions;
    }

    function State(alive: bool): Progress<S>
      reads this
    {
      Progress(Committed(), budget, alive)
    }

    /** All statements, the version row and the commit, or nothing. */
    method RunGroupInTx(group: Group<T>) returns (ok: bool)
      requires group.transactional
      modifies this`schema, this`versions, this`budget
      ensures State(ok) == RunGroup(exec, old(State(true)), group)
      ensures ok <==> old(budget) >= |group.statements| + 2
      ensures ok ==> group.version in versions && schema == RunAll(exec, old(schema), group.statements)
      ensures !ok ==> Committed() == old(Committed())
    {
      var pending := schema;
      for i := 0 to |group.statements|
        invariant pending == RunAll(exec, schema, group.statements[..i])
        invariant Committed() == old(Committed())
        invariant old(budget) >= i && budget == old(budget) - i
      {
        ok := Send();
        if !ok {
          return;
        }
        assert group.statements[..i + 1][..i] == group.statements[..i];
        pending := exec(pending, group.statements[i]);
      }
      assert group.statements[..|group.statements|] == group.statements;
      var recorded := RecordVersion(versions, group.version);
      ok := Send();
      if !ok {
        return;
      }
      ok := Send();
      if ok {
        schema, versions := pending, recorded;
      }
    }

    /** Each statement takes effect on its own; the version row comes last. */
    method RunGroupDirect(group: Group<T>) returns (ok: bool)
      requires !group.transactional
      modifies this`schema, this`versions, this`budget
      ensures State(ok) == RunGroup(exec, old(State(true)), group)
      ensures ok <==> old(budget) >= |group.statements| + 1
      ensures ok ==> group.version in versions && schema == RunAll(exec, old(schema), group.statements)
      ensures !ok ==> versions == old(versions) && schema == RunAll(exec, old(schema), group.statements[..old(budget)])
    {
      for i := 0 to |group.statements|
        invariant schema == RunAll(exec, old(schema), group.statements[..i])
        invariant versions == old(versions)
        invariant old(budget) >= i && budget == old(budget) - i
      {
        ok := Send();
        if !ok {
          return;
        }
        assert group.statements[..i + 1][..i] == group.statements[..i];
        schema := exec(schema, group.statements[i]);
      }
      assert group.statements[..|group.statements|] == group.statements;
      ok := Send();
      if ok {
        versions := RecordVersion(versions, group.version);
      }
    }

    /** Applies every group newer than the recorded version, and stops where the connection is lost. */
    method Migrate(groups: seq<Group<T>>, head: int) returns (ending: Ending)
      modifies this`schema, this`versions, this`budget
      ensures Outcome(Committed(), ending) == MigrateOnce(exec, old(Committed()), groups, head, old(budget))
      ensures head >= 0 ==> (ending == VersionAhead <==> old(budget) > 0 && exists v :: v in old(versions) && v > head + 5)
      ensures ending == VersionAhead ==> Committed() == old(Committed())
    {
      CurrentIsLargest(versions);
      var ok, current := CurrentSchemaVersion();
      if !ok {
        return CutOff;
      }
      if current > head + ACCEPTABLE_SKEW_VERSIONS {
        return VersionAhead;
      }
      ghost var p := State(true);
      for i := 0 to |groups|
        invariant State(true) == RunGroups(exec, p, groups[..i], current)
      {
        assert groups[..i + 1][..i] == groups[..i];
        if groups[i].version > current {
          if groups[i].transactional {
            ok := RunGroupInTx(groups[i]);
          } else {
            ok := RunGroupDirect(groups[i]);
          }
          if !ok {
            DeadStaysDead(exec, p, groups, current, i + 1);
            return CutOff;
          }
        }
      }
      assert groups[..|groups|] == groups;
      ending := Completed;
    }
  }

  lemma {:induction false} DeadStaysDead<S, T>(exec: (S, T) -> S, p: Progress<S>, groups: seq<Group<T>>, current: int, i: nat)
    requires i <= |groups| && !RunGroups(exec, p, groups[..i], current).alive
    ensures RunGroups(exec, p, groups, current) == RunGroups(exec, p, groups[..i], current)
  {
    if i == |groups| {
      assert groups[..i] == groups;
    } else {
      var rest := groups[..|groups| - 1];
      assert rest[..i] == groups[..i];
      DeadStaysDead(exec, p, rest, current, i);
    }
  }

  // --------------------------------------------------------------- crash safety

  /** Versions ascend from above zero. */
  predicate Ascending<T>(groups: seq<Group<T>>) {
    && (forall i, j :: 0 <= i < j < |groups| ==> groups[i].version < groups[j].version)
    && (forall i :: 0 <= i < |groups| ==> 0 < groups[i].version)
  }

  /** Running the whole group again after any prefix of it is running it once. */
  ghost predicate Rerunnable<S(!new), T>(exec: (S, T) -> S, g: Group<T>) {
    forall schema: S, k :: 0 <= k <= |g.statements| ==>
      RunAll(exec, RunAll(exec, schema, g.statements[..k]), g.statements) == RunAll(exec, schema, g.statements)
  }

  ghost predicate DirectGroupsRerun<S(!new), T>(exec: (S, T) -> S, groups: seq<Group<T>>) {
    forall i :: 0 <= i < |groups| && !groups[i].transactional ==> Rerunnable(exec, groups[i])
  }

  function VersionsOf<T>(groups: seq<Group<T>>): (versions: seq<int>)
    ensures |versions| == |groups|
    ensures forall i :: 0 <= i < |groups| ==> versions[i] == groups[i].version
  {
    seq(|groups|, i requires 0 <= i < |groups| => groups[i].version)
  }

  /** The schema with all these groups applied. */
  function SchemaAfter<S, T>(exec: (S, T) -> S, start: S, groups: seq<Group<T>>): S {
    if groups == [] then start
    else RunAll(exec, SchemaAfter(exec, start, groups[..|groups| - 1]), groups[|groups| - 1].statements)
  }

  /**
   * What any runs may leave: a prefix of the list is recorded and applied; of the next
   * group, if it is direct, some statements may have run, but running it completes it.
   */
  ghost predicate Recoverable<S, T>(exec: (S, T) -> S, start: S, groups: seq<Group<T>>, db: Db<S>) {
    var k := |db.versions|;
    && k <= |groups| && db.versions == VersionsOf(groups[..k])
    && (db.schema == SchemaAfter(exec, start, groups[..k])
        || (k < |groups| && !groups[k].transactional
            && RunAll(exec, db.schema, groups[k].statements) == SchemaAfter(exec, start, groups[..k + 1])))
  }

  lemma CurrentIsLast<T>(groups: seq<Group<T>>, k: nat)
    requires Ascending(groups) && k <= |groups|
    ensures Current(VersionsOf(groups[..k])) == if k == 0 then 0 else groups[k - 1].version
    decreases k
  {
    if k > 0 {
      CurrentIsLast(groups, k - 1);
      assert VersionsOf(groups[..k])[..k - 1] == VersionsOf(groups[..k - 1]);
    }
  }

  /** One group, completed or cut off, keeps the state recoverable. */
  lemma GroupKeepsRecoverable<S(!new), T>(exec: (S, T) -> S, start: S, groups: seq<Group<T>>, p: Progress<S>)
    requires Ascending(groups) && DirectGroupsRerun(exec, groups)
    requires Recoverable(exec, start, groups, p.db) && p.alive && |p.db.versions| < |groups|
    ensures var k := |p.db.versions|; var q := RunGroup(exec, p, groups[k]);
      && Recoverable(exec, start, groups, q.db)
      && |q.db.versions| == if q.alive then k + 1 else k
  {
    var k := |p.db.versions|;
    var g := groups[k];
    assert groups[..k + 1][..k] == groups[..k];
    assert RunAll(exec, p.db.schema, g.statements) == SchemaAfter(exec, start, groups[..k + 1]);
    if p.left >= Cost(g) {
      assert p.db.versions + [g.version] == VersionsOf(groups[..k + 1]);
    } else if !g.transactional {
      assert Rerunnable(exec, g);
    }
  }

  /** The i-th group, run when the groups before it are recorded; nothing happens on a lost connection. */
  lemma NewGroupKeepsRecoverable<S(!new), T>(exec: (S, T) -> S, start: S, groups: seq<Group<T>>, p: Progress<S>, i: nat)
    requires Ascending(groups) && DirectGroupsRerun(exec, groups) && 0 < i <= |groups|
    requires Recoverable(exec, start, groups, p.db) && (p.alive ==> |p.db.versions| == i - 1)
    ensures var q := RunGroup(exec, p, groups[i - 1]);
      Recoverable(exec, start, groups, q.db) && (q.alive ==> |q.db.versions| == i)
  {
    if p.alive {
      GroupKeepsRecoverable(exec, start, groups, p);
    }
  }

  lemma NextGroup<S, T>(exec: (S, T) -> S, p: Progress<S>, groups: seq<Group<T>>, current: int, i: nat)
    requires 0 < i <= |groups|
    ensures var q := RunGroups(exec, p, groups[..i - 1], current);
      RunGroups(exec, p, groups[..i], current)
      == if groups[i - 1].version <= current then q else RunGroup(exec, q, groups[i - 1])
  {
    assert groups[..i][..i - 1] == groups[..i - 1];
  }

  lemma RecordedGroupsAreOld<T>(groups: seq<Group<T>>, k: nat, i: nat)
    requires Ascending(groups) && k <= |groups| && i < |groups|
    ensures groups[i].version <= Current(VersionsOf(groups[..k])) <==> i < k
  {
    CurrentIsLast(groups, k);
  }

  /** What the groups up to the i-th leave of a recoverable state. */
  ghost predicate KeptUpTo<S, T>(exec: (S, T) -> S, start: S, groups: seq<Group<T>>, p: Progress<S>, q: Progress<S>, i: nat) {
    && Recoverable(exec, start, groups, q.db)
    && (i <= |p.db.versions| ==> q == p)
    && (i > |p.db.versions| && q.alive ==> |q.db.versions| == i)
  }

  lemma KeptByNext<S(!new), T>(exec: (S, T) -> S, start: S, groups: seq<Group<T>>, p: Progress<S>, q: Progress<S>, i: nat)
    requires Ascending(groups) && DirectGroupsRerun(exec, groups) && 0 < i <= |groups|
    requires p.alive && KeptUpTo(exec, start, groups, p, q, i - 1)
    ensures KeptUpTo(exec, start, groups, p, if i <= |p.db.versions| then q else RunGroup(exec, q, groups[i - 1]), i)
  {
    if i > |p.db.versions| {
      NewGroupKeepsRecoverable(exec, start, groups, q, i);
    }
  }

  /** Groups already recorded are skipped, and each later one keeps the state recoverable. */
  lemma {:induction false} GroupsKeepRecoverable<S(!new), T>(exec: (S, T) -> S, start: S, groups: seq<Group<T>>, p: Progress<S>, i: nat)
    requires Ascending(groups) && DirectGroupsRerun(exec, groups) && i <= |groups|
    requires Recoverable(exec, start, groups, p.db) && p.alive
    ensures KeptUpTo(exec, start, groups, p, RunGroups(exec, p, groups[..i], Current(p.db.versions)), i)
    decreases i
  {
    if i > 0 {
      GroupsKeepRecoverable(exec, start, groups, p, i - 1);
      RecordedGroupsAreOld(groups, |p.db.versions|, i - 1);
      NextGroup(exec, p, groups, Current(p.db.versions), i);
      KeptByNext(exec, start, groups, p, RunGroups(exec, p, groups[..i - 1], Current(p.db.versions)), i);
    }
  }

  /** One run, however it ends, keeps the state recoverable; a run that completes has applied everything. */
  lemma RunKeepsRecoverable<S(!new), T>(exec: (S, T) -> S, start: S, groups: seq<Group<T>>, db: Db<S>, head: int, budget: nat)
    requires Ascending(groups) && DirectGroupsRerun(exec, groups) && Recoverable(exec, start, groups, db)
    ensures var r := MigrateOnce(exec, db, groups, head, budget);
      && Recoverable(exec, start, groups, r.db)
      && (r.ending.Completed? ==> r.db == Db(SchemaAfter(exec, start, groups), VersionsOf(groups)))
  {
    CurrentIsLast(groups, |db.versions|);
    assert groups[..|groups|] == groups;
    if budget > 0 {
      GroupsKeepRecoverable(exec, start, groups, Progress(db, budget - 1, true), |groups|);
    }
  }

  /** After any number of runs from an empty database, the recorded versions are a prefix of the list. */
  lemma {:induction false} RecordedIsAlwaysAPrefix<S(!new), T>(exec: (S, T) -> S, start: S, groups: seq<Group<T>>, head: int,
                                                               budgets: seq<nat>)
    requires Ascending(groups) && DirectGroupsRerun(exec, groups)
    ensures var db := MigrateAgain(exec, Db(start, []), groups, head, budgets);
      Recoverable(exec, start, groups, db) && db.versions <= VersionsOf(groups)
  {
    if budgets == [] {
      assert groups[..0] == [];
    } else {
      var rest := budgets[..|budgets| - 1];
      RecordedIsAlwaysAPrefix(exec, start, groups, head, rest);
      RunKeepsRecoverable(exec, start, groups, MigrateAgain(exec, Db(start, []), groups, head, rest), head,
                          budgets[|budgets| - 1]);
    }
  }

  /**
   * Crash safety. Any number of runs cut off anywhere, followed by one that completes, leave
   * the schema and the versions of one uninterrupted run from the empty database.
   */
  lemma InterruptedRunsConverge<S(!new), T>(exec: (S, T) -> S, start: S, groups: seq<Group<T>>, head: int,
                                            budgets: seq<nat>, last: nat, uninterrupted: nat)
    requires Ascending(groups) && DirectGroupsRerun(exec, groups)
    requires MigrateOnce(exec, Db(start, []), groups, head, uninterrupted).ending == Completed
    requires MigrateOnce(exec, MigrateAgain(exec, Db(start, []), groups, head, budgets), groups, head, last).ending == Completed
    ensures MigrateOnce(exec, MigrateAgain(exec, Db(start, []), groups, head, budgets), groups, head, last).db
         == MigrateOnce(exec, Db(start, []), groups, head, uninterrupted).db
  {
    assert groups[..0] == [];
    RunKeepsRecoverable(exec, start, groups, Db(start, []), head, uninterrupted);
    RecordedIsAlwaysAPrefix(exec, start, groups, head, budgets);
    RunKeepsRecoverable(exec, start, groups, MigrateAgain(exec, Db(start, []), groups, head, budgets), head, last);
  }

  function TotalCost<T>(groups: seq<Group<T>>): nat {
    if groups == [] then 0 else TotalCost(groups[..|groups| - 1]) + Cost(groups[|groups| - 1])
  }

  lemma {:induction false} GroupsFitBudget<S, T>(exec: (S, T) -> S, p: Progress<S>, groups: seq<Group<T>>, current: int)
    requires p.alive && p.left >= TotalCost(groups)
    ensures var q := RunGroups(exec, p, groups, current); q.alive && q.left >= p.left - TotalCost(groups)
  {
    if groups != [] {
      GroupsFitBudget(exec, p, groups[..|groups| - 1], current);
    }
  }

  /** Whatever was left behind, a run of code that knows the list completes unless it is cut off too early. */
  lemma EnoughStatementsComplete<S(!new), T>(exec: (S, T) -> S, start: S, groups: seq<Group<T>>, head: nat,
                                             budgets: seq<nat>, last: nat)
    requires Ascending(groups) && DirectGroupsRerun(exec, groups) && last > TotalCost(groups)
    requires forall i :: 0 <= i < |groups| ==> groups[i].version <= head
    ensures MigrateOnce(exec, MigrateAgain(exec, Db(start, []), groups, head, budgets), groups, head, last).ending == Completed
  {
    var db := MigrateAgain(exec, Db(start, []), groups, head, budgets);
    RecordedIsAlwaysAPrefix(exec, start, groups, head, budgets);
    CurrentIsLast(groups, |db.versions|);
    GroupsFitBudget(exec, Progress(db, last - 1, true), groups, Current(db.versions));
  }

  /** The list the code ships needs no assumption about its statements: every group is one transaction. */
  lemma ShippedGroupsConverge<S(!new), T>(exec: (S, T) -> S, start: S, v1: seq<T>, v2: seq<T>, v3: seq<T>,
                                          budgets: seq<nat>, last: nat)
    requires var groups := MigrationGroups(v1, v2, v3);
      MigrateOnce(exec, MigrateAgain(exec, Db(start, []), groups, HEAD_SCHEMA_VERSION, budgets), groups, HEAD_SCHEMA_VERSION, last)
        .ending == Completed
    ensures var groups := MigrationGroups(v1, v2, v3);
      MigrateOnce(exec, MigrateAgain(exec, Db(start, []), groups, HEAD_SCHEMA_VERSION, budgets), groups, HEAD_SCHEMA_VERSION, last)
        .db == Db(RunAll(exec, RunAll(exec, RunAll(exec, start, v1), v2), v3), [1, 2, 3])
  {
    var groups, head := MigrationGroups(v1, v2, v3), HEAD_SCHEMA_VERSION;
    RecordedIsAlwaysAPrefix(exec, start, groups, head, budgets);
    RunKeepsRecoverable(exec, start, groups, MigrateAgain(exec, Db(start, []), groups, head, budgets), head, last);
    assert groups[..2][..1] == groups[..1] && groups[..1][..0] == [];
    assert SchemaAfter(exec, start, groups[..1]) == RunAll(exec, start, v1);
    assert SchemaAfter(exec, start, groups[..2]) == RunAll(exec, RunAll(exec, start, v1), v2);
  }

  /** For a direct group the condition is exact: a cut after k statements is harmless just when it says so for k. */
  lemma DirectGroupMustRerun<S, T>(exec: (S, T) -> S, start: S, g: Group<T>, head: int, k: nat, whole: nat)
    requires !g.transactional && 0 < g.version <= head && k <= |g.statements| < whole - 1
    ensures var cut := MigrateOnce(exec, Db(start, []), [g], head, k + 1).db;
      MigrateOnce(exec, cut, [g], head, whole).db == MigrateOnce(exec, Db(start, []), [g], head, whole).db
      <==> RunAll(exec, RunAll(exec, start, g.statements[..k]), g.statements) == RunAll(exec, start, g.statements)
  {
    var cut := MigrateOnce(exec, Db(start, []), [g], head, k + 1).db;
    assert [g][..0] == [] && [g][..1] == [g];
    NextGroup(exec, Progress(Db(start, []), k, true), [g], 0, 1);
    NextGroup(exec, Progress(Db(start, []), whole - 1, true), [g], 0, 1);
    NextGroup(exec, Progress(cut, whole - 1, true), [g], 0, 1);
  }

  /** A database up to five versions ahead is left alone; one further ahead is refused. */
  lemma NewerDatabaseIsLeftAlone<S, T>(exec: (S, T) -> S, db: Db<S>, groups: seq<Group<T>>, head: int, budget: nat)
    requires budget > 0 && exists v :: v in db.versions && v > head
    requires forall i :: 0 <= i < |groups| ==> groups[i].version <= head
    ensures var r := MigrateOnce(exec, db, groups, head, budget);
      && r.db == db
      && r.ending == if exists v :: v in db.versions && v > head + 5 then VersionAhead else Completed
  {
    CurrentIsLargest(db.versions);
    OldGroupsAreSkipped(exec, Progress(db, budget - 1, true), groups, Current(db.versions));
  }

  lemma {:induction false} OldGroupsAreSkipped<S, T>(exec: (S, T) -> S, p: Progress<S>, groups: seq<Group<T>>, current: int)
    requires forall i :: 0 <= i < |groups| ==> groups[i].version <= current
    ensures RunGroups(exec, p, groups, current) == p
  {
    if groups != [] {
      OldGroupsAreSkipped(exec, p, groups[..|groups| - 1], current);
    }
  }
}
