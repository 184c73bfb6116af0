// Routing of each purge by the live configuration: soft delete, skip, hard purge.
module PurgerSwitch {
  import opened Wrappers
  import opened Allowlist
  import opened Purge

  // The server's DeletePost: every call is recorded, a call that does not fail
  // deletes the post.
  class PostApi {
    var deletePostCalls: seq<string>
    var deleted: set<string>

    constructor ()
      ensures deletePostCalls == [] && deleted == {}
    {
      deletePostCalls := [];
      deleted := {};
    }

    method DeletePost(id: string, fails: bool) returns (ok: bool)
      modifies this
      ensures deletePostCalls == old(deletePostCalls) + [id]
      ensures ok == !fails
      ensures deleted == if fails then old(deleted) else old(deleted) + {id}
    {
      deletePostCalls := deletePostCalls + [id];
      if !fails {
        deleted := deleted + {id};
      }
      ok := !fails;
    }
  }

  class ConfigPurger {
    const cfg: ConfigHolder
    const hard: SqlPurger
    const soft: PostApi

    constructor (cfg: ConfigHolder, hard: SqlPurger, soft: PostApi)
      ensures this.cfg == cfg && this.hard == hard && this.soft == soft
    {
      this.cfg := cfg;
      this.hard := hard;
      this.soft := soft;
    }

    // The mode decides who is called: nobody on a skip, which is an error so that
    // the caller keeps the rows; only the database on a hard purge; only DeletePost,
    // once per id and in order, on a soft one, which always counts as done although
    // only the posts whose call did not fail are deleted.
    method Purge(postIDs: seq<string>, licensed: bool, version: string, fault: TxFault, softFailures: set<string>)
      returns (r: Result<nat, PurgeError>)
      modifies hard, soft
      ensures var mode := Decide(Environment(cfg.conf, licensed, version));
              && (r.Success? ==> r.value == |postIDs|)
              && (postIDs == [] || mode == Soft ==> r.Success?)
              && (r == Failure(SchemaSkipped) <==> postIDs != [] && mode == Skip)
              && (postIDs != [] && mode == Hard ==> (r.Success? <==> Commits(hard.footprint, old(hard.db), fault)))
              && hard.db == (if postIDs != [] && mode == Hard && r.Success?
                             then Purged(hard.footprint, old(hard.db), set id | id in postIDs) else old(hard.db))
              && soft.deletePostCalls == old(soft.deletePostCalls) + (if mode == Soft then postIDs else [])
              && soft.deleted == old(soft.deleted) + (if mode == Soft then (set id | id in postIDs) - softFailures else {})
    {
      if postIDs == [] {
        return Success(0);
      }
      var conf := cfg.Get();
      var allowlist := PurgeSchemaAllowlist(conf.allowlistRaw);
      match PurgeDecision(conf.enablePurge, licensed, version, allowlist)
      case Soft =>
        var n := SoftDelete(postIDs, softFailures);
        r := Success(n);
      case Skip =>
        r := Failure(SchemaSkipped);
      case Hard =>
        r := hard.Purge(postIDs, fault);
    }

    method SoftDelete(postIDs: seq<string>, failures: set<string>) returns (n: nat)
      modifies soft
      ensures n == |postIDs|
      ensures soft.deletePostCalls == old(soft.deletePostCalls) + postIDs
      ensures soft.deleted == old(soft.deleted) + ((set id | id in postIDs) - failures)
    {
      for i := 0 to |postIDs|
        invariant soft.deletePostCalls == old(soft.deletePostCalls) + postIDs[..i]
        invariant soft.deleted == old(soft.deleted) + ((set id | id in postIDs[..i]) - failures)
      {
        assert postIDs[..i + 1] == postIDs[..i] + [postIDs[i]];
        var ok := soft.DeletePost(postIDs[i], postIDs[i] in failures);
      }
      assert postIDs[..|postIDs|] == postIDs;
      n := |postIDs|;
    }
  }
}
