// The history of writes to the expire index, and the latest one that set a row.
module Updates {
  import opened ExpireIndex

  datatype Update = RowInserted(id: PostId, at: int) | ThreadBumped(root: PostId, at: int)

  predicate Inserts(u: Update, id: PostId) {
    u.RowInserted? && u.id == id
  }

  predicate Bumps(u: Update, root: PostId) {
    u.ThreadBumped? && u.root == root
  }

  // Where this row was last inserted, or -1.
  function LastInsert(log: seq<Update>, id: PostId): (p: int)
    ensures -1 <= p < |log| && (p >= 0 ==> Inserts(log[p], id))
    ensures forall k | p < k < |log| :: !Inserts(log[k], id)
  {
    if log == [] then -1
    else if Inserts(log[|log| - 1], id) then |log| - 1
    else LastInsert(log[..|log| - 1], id)
  }

  // Where this thread was last bumped, or -1.
  function LastBump(log: seq<Update>, root: PostId): (p: int)
    ensures -1 <= p < |log| && (p >= 0 ==> Bumps(log[p], root))
    ensures forall k | p < k < |log| :: !Bumps(log[k], root)
  {
    if log == [] then -1
    else if Bumps(log[|log| - 1], root) then |log| - 1
    else LastBump(log[..|log| - 1], root)
  }

  // Where the row of this post in this thread was last set, or -1.
  function LastWrite(log: seq<Update>, id: PostId, root: PostId): (p: int)
    ensures -1 <= p < |log| && (p >= 0 ==> Inserts(log[p], id) || Bumps(log[p], root))
    ensures forall k | p < k < |log| :: !Inserts(log[k], id) && !Bumps(log[k], root)
  {
    var insert, bump := LastInsert(log, id), LastBump(log, root);
    if insert < bump then bump else insert
  }

  // The row was not inserted after the thread's last bump, or got its value.
  predicate InTime(log: seq<Update>, id: PostId, root: PostId) {
    var insert, bump := LastInsert(log, id), LastBump(log, root);
    bump >= 0 && (insert < bump || log[insert].at == log[bump].at)
  }

  lemma InsertAppended(log: seq<Update>, u: Update, id: PostId)
    ensures LastInsert(log + [u], id) == if Inserts(u, id) then |log| else LastInsert(log, id)
  {
    assert (log + [u])[..|log|] == log;
  }

  lemma BumpAppended(log: seq<Update>, u: Update, root: PostId)
    ensures LastBump(log + [u], root) == if Bumps(u, root) then |log| else LastBump(log, root)
  {
    assert (log + [u])[..|log|] == log;
  }

  lemma WriteAppended(log: seq<Update>, u: Update, id: PostId, root: PostId)
    ensures LastWrite(log + [u], id, root) == if Inserts(u, id) || Bumps(u, root) then |log| else LastWrite(log, id, root)
  {
    InsertAppended(log, u, id);
    BumpAppended(log, u, root);
  }
}
