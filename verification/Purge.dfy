// The transactional hard delete over a list of (table, column) pairs.
module Purge {
  import opened Wrappers
  import SqlText

  // A row as its column values; a table as a set of rows.
  type Row = map<string, string>
  type Tables = map<string, set<Row>>

  datatype Target = Target(table: string, col: string)

  const FOOTPRINT: seq<Target> := [
    Target("posts", "id"),
    Target("fileinfo", "post_id"),
    Target("reactions", "post_id"),
    Target("mentions", "post_id")
  ]

  predicate Keyed(r: Row, col: string, ids: set<string>) {
    col in r && r[col] in ids
  }

  // DELETE FROM target.table WHERE target.col IN ids
  function DeleteWhere(t: Tables, target: Target, ids: set<string>): Tables
    requires target.table in t
  {
    t[target.table := set r | r in t[target.table] && !Keyed(r, target.col, ids)]
  }

  // Some pair of the footprint selects this row of this table.
  predicate Selected(fp: seq<Target>, table: string, r: Row, ids: set<string>) {
    exists i :: 0 <= i < |fp| && fp[i].table == table && Keyed(r, fp[i].col, ids)
  }

  // Every table without exactly the rows the footprint keys by one of the ids.
  function Purged(fp: seq<Target>, t: Tables, ids: set<string>): Tables {
    map n | n in t :: set r | r in t[n] && !Selected(fp, n, r, ids)
  }

  // The post still has a row in some footprint table.
  predicate HasRows(fp: seq<Target>, t: Tables, id: string) {
    exists i :: 0 <= i < |fp| && fp[i].table in t && exists r :: r in t[fp[i].table] && Keyed(r, fp[i].col, {id})
  }

  predicate TablesExist(fp: seq<Target>, t: Tables) {
    forall i | 0 <= i < |fp| :: fp[i].table in t
  }

  lemma SelectedUnion(fp: seq<Target>, table: string, r: Row, a: set<string>, b: set<string>)
    ensures Selected(fp, table, r, a + b) <==> Selected(fp, table, r, a) || Selected(fp, table, r, b)
  {
  }

  // Two purges are one purge of the union, so purging commutes and is idempotent.
  lemma PurgesCompose(fp: seq<Target>, t: Tables, a: set<string>, b: set<string>)
    ensures Purged(fp, Purged(fp, t, a), b) == Purged(fp, t, a + b)
    ensures Purged(fp, Purged(fp, t, a), b) == Purged(fp, Purged(fp, t, b), a)
    ensures Purged(fp, Purged(fp, t, a), a) == Purged(fp, t, a)
  {
    PurgesAddUp(fp, t, a, b);
    PurgesAddUp(fp, t, b, a);
    PurgesAddUp(fp, t, a, a);
    assert a + b == b + a && a + a == a;
  }

  lemma PurgesAddUp(fp: seq<Target>, t: Tables, a: set<string>, b: set<string>)
    ensures Purged(fp, Purged(fp, t, a), b) == Purged(fp, t, a + b)
  {
    forall n: string, r: Row
      ensures Selected(fp, n, r, a + b) <==> Selected(fp, n, r, a) || Selected(fp, n, r, b)
    {
      SelectedUnion(fp, n, r, a, b);
    }
    assert forall n | n in t :: Purged(fp, Purged(fp, t, a), b)[n] == Purged(fp, t, a + b)[n];
  }

  lemma PurgeNothing(fp: seq<Target>, t: Tables, ids: set<string>)
    requires fp == [] || ids == {}
    ensures Purged(fp, t, ids) == t
  {
    forall n | n in t
      ensures Purged(fp, t, ids)[n] == t[n]
    {
    }
  }

  lemma SelectedMonotone(fp: seq<Target>, table: string, r: Row, a: set<string>, b: set<string>)
    requires a <= b
    ensures Selected(fp, table, r, a) ==> Selected(fp, table, r, b)
  {
  }

  // A purged post has no row left; every row of another post, table by table, is
  // there after the purge exactly when it was before.
  lemma PurgeRemovesExactly(fp: seq<Target>, t: Tables, ids: set<string>, id: string)
    requires forall i, j | 0 <= i < |fp| && 0 <= j < |fp| && fp[i].table == fp[j].table :: fp[i].col == fp[j].col
    ensures HasRows(fp, Purged(fp, t, ids), id) <==> id !in ids && HasRows(fp, t, id)
    ensures forall n, r | n in t && Selected(fp, n, r, {id}) ::
              r in Purged(fp, t, ids)[n] <==> id !in ids && r in t[n]
  {
    forall n, r | n in t && Selected(fp, n, r, {id})
      ensures Selected(fp, n, r, ids) <==> id in ids
    {
      var i :| 0 <= i < |fp| && fp[i].table == n && Keyed(r, fp[i].col, {id});
      assert r[fp[i].col] == id;
    }
  }

  // Whatever the footprint, a purged post has no row left and nothing new appears.
  lemma PurgeLeavesNoRows(fp: seq<Target>, t: Tables, ids: set<string>, id: string)
    ensures HasRows(fp, Purged(fp, t, ids), id) ==> id !in ids && HasRows(fp, t, id)
  {
  }

  // The statements of a transaction, one pair after another, add up to Purged.
  lemma OneMoreStatement(fp: seq<Target>, t: Tables, ids: set<string>, k: nat)
    requires k < |fp| && fp[k].table in t
    ensures DeleteWhere(Purged(fp[..k], t, ids), fp[k], ids) == Purged(fp[..k + 1], t, ids)
  {
    var before, after := fp[..k], fp[..k + 1];
    forall n: string, r: Row
      ensures Selected(after, n, r, ids) <==> Selected(before, n, r, ids) || (n == fp[k].table && Keyed(r, fp[k].col, ids))
    {
      if i :| 0 <= i < |after| && after[i].table == n && Keyed(r, after[i].col, ids) {
        if i < k {
          assert before[i] == after[i];
        }
      }
      if i :| 0 <= i < |before| && before[i].table == n && Keyed(r, before[i].col, ids) {
        assert before[i] == after[i];
      }
      if n == fp[k].table && Keyed(r, fp[k].col, ids) {
        assert after[k] == fp[k];
      }
    }
    forall n | n in t
      ensures DeleteWhere(Purged(before, t, ids), fp[k], ids)[n] == Purged(after, t, ids)[n]
    {
    }
  }

  // Where a transaction is made to fail: at the start, at one statement, at commit.
  datatype TxFault = NoFault | BeginFails | StatementFails(at: nat) | CommitFails

  datatype PurgeError = BeginError | DeleteError(table: string, col: string) | CommitError | SchemaSkipped

  // A purge of a non-empty batch that reaches a successful commit.
  predicate Commits(fp: seq<Target>, t: Tables, fault: TxFault) {
    TablesExist(fp, t) && (fault.NoFault? || (fault.StatementFails? && fault.at >= |fp|))
  }

  class SqlPurger {
    const footprint: seq<Target>
    var db: Tables

    constructor (footprint: seq<Target>, db: Tables)
      ensures this.footprint == footprint && this.db == db
    {
      this.footprint := footprint;
      this.db := db;
    }

    // All or nothing, for any footprint and any failure point.
    method Purge(postIDs: seq<string>, fault: TxFault) returns (r: Result<nat, PurgeError>)
      modifies this
      ensures r.Success? <==> postIDs == [] || Commits(footprint, old(db), fault)
      ensures r.Success? ==> r.value == |postIDs|
      ensures r.Success? ==> db == Purged(footprint, old(db), set id | id in postIDs)
      ensures r.Failure? ==> db == old(db) && !r.error.SchemaSkipped?
    {
      if postIDs == [] {
        PurgeNothing(footprint, db, set id | id in postIDs);
        return Success(0);
      }
      var placeholders, args := SqlText.InClause(postIDs);
      if fault.BeginFails? {
        return Failure(BeginError);
      }
      ghost var ids := set id | id in postIDs;
      var tx := db;
      PurgeNothing(footprint[..0], db, ids);
      for k := 0 to |footprint|
        invariant db == old(db)
        invariant tx == Purged(footprint[..k], db, ids)
        invariant forall i | 0 <= i < k :: footprint[i].table in db
        invariant fault.StatementFails? ==> fault.at >= k
      {
        var f := footprint[k];
        if fault == StatementFails(k) || f.table !in tx {
          return Failure(DeleteError(f.table, f.col)); // rollback: tx is dropped
        }
        OneMoreStatement(footprint, db, ids, k);
        assert ids == set id | id in args;
        tx := DeleteWhere(tx, f, set id | id in args);
      }
      assert footprint[..|footprint|] == footprint;
      if fault.CommitFails? {
        return Failure(CommitError);
      }
      db := tx;
      return Success(|postIDs|);
    }
  }
}
