/** The migration runner of bin/tracker/src/store.rs, where the process may die at any step. */
module Migrations {
  import opened Base

  const MIGRATIONS: seq<string> := ["001_initial", "002_score_rank"]

  /** Steps of one migration: look it up, run its SQL, record its name, commit both. */
  datatype Stage = Lookup | Execute | Record | Commit

  /** Death at a stage of the migration at an index. */
  datatype Crash = Crash(index: nat, stage: Stage)

  ghost predicate Distinct<T>(list: seq<T>) {
    forall i, j | 0 <= i < j < |list| :: list[i] != list[j]
  }

  /** The migrations not recorded yet, in order. */
  function Pending<T(==)>(list: seq<T>, versions: set<T>): seq<T> {
    if list == [] then []
    else Pending(list[..|list| - 1], versions) + if list[|list| - 1] in versions then [] else [list[|list| - 1]]
  }

  /** What is executed is a prefix of the list, and exactly that is recorded. */
  ghost predicate Consistent<T>(list: seq<T>, executed: seq<T>, versions: set<T>) {
    executed <= list && versions == Elems(executed)
  }

  /** The pending migrations among the first `k` went in together with their records. */
  ghost predicate Advanced<T>(list: seq<T>, k: nat, executed: seq<T>, versions: set<T>,
                           executedAfter: seq<T>, versionsAfter: set<T>)
  {
    && k <= |list|
    && executedAfter == executed + Pending(list[..k], versions)
    && versionsAfter == versions + Elems(list[..k])
  }

  /** The run stopped at migration `k`: it died there, or the SQL of that migration ran before. */
  ghost predicate StopsAt<T>(list: seq<T>, k: nat, crash: Option<Crash>, executed: seq<T>, versions: set<T>,
                          executedAfter: seq<T>, versionsAfter: set<T>)
  {
    && k < |list| && Advanced(list, k, executed, versions, executedAfter, versionsAfter)
    && ((crash.Some? && crash.value.index == k) || (list[k] !in versions && list[k] in executed))
  }

  /** A migration would run although its SQL ran before. */
  ghost predicate RunsTwice<T>(list: seq<T>, executed: seq<T>, versions: set<T>) {
    exists name :: name in list && name !in versions && name in executed
  }

  class Database {
    /** The migrations whose SQL took effect, in order, and the recorded names. */
    var executed: seq<string>
    var versions: set<string>

    constructor ()
      ensures executed == [] && versions == {}
    {
      executed, versions := [], {};
    }

    /** A migration's SQL is not idempotent: it fails where it ran before. */
    method RunMigrations(list: seq<string>, crash: Option<Crash>) returns (r: Result<()>)
      requires Distinct(list)
      modifies this
      ensures r.Err? ==> exists k :: StopsAt(list, k, crash, old(executed), old(versions), executed, versions)
      ensures r.Ok? ==> Advanced(list, |list|, old(executed), old(versions), executed, versions)
      ensures crash.None? ==> (r.Ok? <==> !RunsTwice(list, old(executed), old(versions)))
    {
      assert list[..0] == [];
      for i := 0 to |list|
        invariant Advanced(list, i, old(executed), old(versions), executed, versions)
        invariant forall j | 0 <= j < i && list[j] !in old(versions) :: list[j] !in old(executed)
      {
        StepAdvances(list, i, old(executed), old(versions), executed, versions);
        if crash == Some(Crash(i, Lookup)) {
          assert StopsAt(list, i, crash, old(executed), old(versions), executed, versions);
          return Err(Storage);
        }
        if list[i] in versions { continue; }
        var schema, names := executed, versions;
        if crash == Some(Crash(i, Execute)) {
          assert StopsAt(list, i, crash, old(executed), old(versions), executed, versions);
          return Err(Storage);
        }
        if list[i] in schema {
          assert StopsAt(list, i, crash, old(executed), old(versions), executed, versions);
          return Err(Storage);
        }
        schema := schema + [list[i]];
        if crash == Some(Crash(i, Record)) {
          assert StopsAt(list, i, crash, old(executed), old(versions), executed, versions);
          return Err(Storage);
        }
        names := names + {list[i]};
        if crash == Some(Crash(i, Commit)) {
          assert StopsAt(list, i, crash, old(executed), old(versions), executed, versions);
          return Err(Storage);
        }
        executed, versions := schema, names;
      }
      return Ok(());
    }

    /** Opening a database that is consistent keeps it so, loses nothing and, when it is not
        interrupted, succeeds and completes the list. */
    method Open(list: seq<string>, crash: Option<Crash>) returns (r: Result<()>)
      requires Distinct(list) && Consistent(list, executed, versions)
      modifies this
      ensures Consistent(list, executed, versions) && Distinct(executed)
      ensures old(executed) <= executed
      ensures crash.None? ==> r.Ok?
      ensures r.Ok? ==> executed == list
    {
      ghost var e, v := executed, versions;
      NothingRunsTwice(list, e, v);
      r := RunMigrations(list, crash);
      if r.Err? {
        ghost var k: nat :| StopsAt(list, k, crash, e, v, executed, versions);
      }
      OpenKeepsConsistent(list, e, v, executed, versions);
      if r.Ok? { OpenCompletes(list, e, v, executed, versions); }
      ExecutedOnce(list, executed, versions);
    }

    /** Opening with the migrations that are shipped. */
    method OpenShipped(crash: Option<Crash>) returns (r: Result<()>)
      requires Consistent(MIGRATIONS, executed, versions)
      modifies this
      ensures Consistent(MIGRATIONS, executed, versions) && Distinct(executed)
      ensures old(executed) <= executed
      ensures crash.None? ==> r.Ok?
      ensures r.Ok? ==> executed == MIGRATIONS
    {
      ShippedAreDistinct();
      r := Open(MIGRATIONS, crash);
    }

    /** Any number of opens, each of which may die: what is in the schema is a prefix of the list
        and is what is recorded, and one open that is not interrupted completes it. */
    method OpenAll(list: seq<string>, crashes: seq<Option<Crash>>) returns (completed: bool)
      requires Distinct(list) && Consistent(list, executed, versions)
      modifies this
      ensures Consistent(list, executed, versions)
      ensures old(executed) <= executed
      ensures None in crashes ==> completed
      ensures completed ==> executed == list
    {
      hide *;
      completed := false;
      for i := 0 to |crashes|
        invariant Consistent(list, executed, versions) && old(executed) <= executed
        invariant None in crashes[..i] ==> completed
        invariant completed ==> executed == list
      {
        ghost var before := executed;
        var r := Open(list, crashes[i]);
        assert crashes[..i + 1] == crashes[..i] + [crashes[i]];
        PrefixOfList(list, executed, versions);
        completed := completed || r.Ok?;
      }
      assert crashes[..|crashes|] == crashes;
    }
  }

  lemma {:induction false} PrefixOfList<T>(list: seq<T>, executed: seq<T>, versions: set<T>)
    requires Consistent(list, executed, versions)
    ensures executed <= list
  {}

  lemma {:induction false} StepAdvances<T>(
      list: seq<T>, i: nat, e0: seq<T>, v0: set<T>, e: seq<T>, v: set<T>)
    requires Distinct(list) && i < |list| && Advanced(list, i, e0, v0, e, v)
    ensures list[i] in v <==> list[i] in v0
    ensures list[i] !in v0 ==> (list[i] in e <==> list[i] in e0)
    ensures list[i] in v0 ==> Advanced(list, i + 1, e0, v0, e, v)
    ensures list[i] !in v0 ==> Advanced(list, i + 1, e0, v0, e + [list[i]], v + {list[i]})
  {
    assert list[..i + 1] == list[..i] + [list[i]] && list[..i + 1][..i] == list[..i];
    PendingAreListed(list[..i], v0);
    assert list[i] !in list[..i];
  }

  lemma {:induction false} PendingAreListed<T>(list: seq<T>, versions: set<T>)
    ensures forall name :: name in Pending(list, versions) <==> name in list && name !in versions
  {
    if list != [] {
      PendingAreListed(list[..|list| - 1], versions);
      assert list == list[..|list| - 1] + [list[|list| - 1]];
    }
  }

  /** Where the first `n` are recorded, the pending ones are the rest. */
  lemma {:induction false} PendingAfterPrefix<T>(list: seq<T>, n: nat, k: nat)
    requires Distinct(list) && n <= |list| && k <= |list|
    ensures Pending(list[..k], Elems(list[..n])) == if k <= n then [] else list[n..k]
  {
    if k > 0 {
      var last := list[k - 1];
      RecordedInPrefix(list, n, k - 1);
      PendingAfterPrefix(list, n, k - 1);
      assert list[..k][..k - 1] == list[..k - 1] && list[..k][k - 1] == last;
      if k > n {
        assert (if k - 1 <= n then [] else list[n..k - 1]) + [last] == list[n..k];
      }
    }
  }

  lemma {:induction false} RecordedInPrefix<T>(list: seq<T>, n: nat, i: nat)
    requires Distinct(list) && n <= |list| && i < |list|
    ensures list[i] in Elems(list[..n]) <==> i < n
  {
    assert i < n ==> list[..n][i] == list[i];
  }

  lemma {:induction false} OpenKeepsConsistent<T>(
      list: seq<T>, e0: seq<T>, v0: set<T>, e: seq<T>, v: set<T>)
    requires Distinct(list) && Consistent(list, e0, v0)
    requires exists k :: Advanced(list, k, e0, v0, e, v)
    ensures Consistent(list, e, v) && e0 <= e
  {
    var k: nat :| Advanced(list, k, e0, v0, e, v);
    var n := |e0|;
    assert e0 == list[..n];
    PendingAfterPrefix(list, n, k);
    if k <= n {
      assert e == list[..n] && v == Elems(list[..n]) + Elems(list[..k]);
      assert forall i | 0 <= i < k :: list[i] == list[..n][i];
    } else {
      assert e == list[..n] + list[n..k] == list[..k];
      assert forall i | 0 <= i < n :: list[i] == list[..k][i];
    }
  }

  lemma {:induction false} OpenCompletes<T>(
      list: seq<T>, e0: seq<T>, v0: set<T>, e: seq<T>, v: set<T>)
    requires Distinct(list) && Consistent(list, e0, v0) && Advanced(list, |list|, e0, v0, e, v)
    ensures e == list
  {
    assert list[..|list|] == list && e0 == list[..|e0|];
    PendingAfterPrefix(list, |e0|, |list|);
    assert list[..|e0|] + list[|e0|..] == list;
  }

  lemma {:induction false} NothingRunsTwice<T>(list: seq<T>, executed: seq<T>, versions: set<T>)
    requires Consistent(list, executed, versions)
    ensures !RunsTwice(list, executed, versions)
  {}

  /** Executing and recording separately would not do: dying in between leaves a database that
      no uninterrupted open accepts. */
  lemma {:induction false} UnrecordedBlocksOpening<T>(list: seq<T>, k: nat)
    requires Distinct(list) && k < |list|
    ensures RunsTwice(list, list[..k + 1], Elems(list[..k]))
  {
    assert list[k] in list && list[k] in list[..k + 1];
    assert list[k] !in list[..k];
  }

  /** No migration is in the schema twice. */
  lemma {:induction false} ExecutedOnce<T>(list: seq<T>, executed: seq<T>, versions: set<T>)
    requires Distinct(list) && Consistent(list, executed, versions)
    ensures Distinct(executed)
  {}

  lemma {:induction false} ShippedAreDistinct()
    ensures Distinct(MIGRATIONS)
  {
    assert MIGRATIONS[0][2] == '1' && MIGRATIONS[1][2] == '2';
  }
}
