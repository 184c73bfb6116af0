// Runs that show which stronger claims the interleaved protocol does not support.
module Counterexamples {
  import opened TtlRules
  import opened Allowlist
  import opened ExpireIndex
  import opened Posts
  import opened Purge
  import opened Footprint
  import opened Protocol
  import opened Uninterrupted
  import opened ThreadUniformity

  const ROOT := Post("r", "c", "", 0)
  const REPLY := Post("p", "c", "r", 1000)
  const LATER := Post("q", "c", "r", 400_000)
  const POSTS: map<PostId, Post> := map["r" := ROOT, "p" := REPLY, "q" := LATER]
  const SOFT := Environment(Configuration(false, ""), false, "10.5.0")
  const TABLES: Tables := map["posts" := {map["id" := "r"]}]

  // No hook was cut off, and no DeletePost was called yet.
  predicate Fresh(s: State) {
    s.interrupted == {} && s.softDeleted == {} && s.refused == {}
  }

  // A channel with a five-minute TTL and no posts yet.
  lemma Start() returns (s: State)
    ensures Reachable(AnyOrder, s)
    ensures s.limit == 1 && s.ttl == map["c" := 300] && s.env == SOFT && s.posts == map[]
    ensures s.index == map[] && s.hooks == map[] && s.sweeps == map[] && Fresh(s)
  {
    s := State(1, map["c" := 300], map[], map[], SOFT, map[], map[], map[], {}, {}, {}, {}, [], {}, {});
    InitReachable(AnyOrder, s);
  }

  lemma CreatePosts(s: State, tables: Tables, posts: map<PostId, Post>) returns (s': State)
    requires Reachable(AnyOrder, s) && s.posts == map[]
    requires forall id | id in posts :: id != "" && posts[id].id == id
    ensures Reachable(AnyOrder, s') && s' == s.(tables := tables, posts := posts)
  {
    ReachableStep(AnyOrder, s, Outside(tables, posts));
    s' := Step(s, Outside(tables, posts));
    assert s.posts + posts == posts;
  }

  // The channel with a root post and two replies.
  lemma ThreePosts() returns (s: State)
    ensures Reachable(AnyOrder, s)
    ensures s.limit == 1 && s.ttl == map["c" := 300] && s.env == SOFT && s.posts == POSTS
    ensures s.index == map[] && s.hooks == map[] && s.sweeps == map[] && s.tables == TABLES && Fresh(s)
  {
    s := Start();
    s := CreatePosts(s, TABLES, POSTS);
  }

  // A hook running alone from a state where its TTL is on.
  lemma Deliver(s: State, post: Post, at: int) returns (s': State)
    requires Reachable(AnyOrder, s) && s.hooks == map[]
    requires post.id in s.posts && s.posts[post.id] == post && post.channelId in s.ttl
    requires InBounds(s.ttl[post.channelId]) && RealisticTime(post.createAt)
    requires at == post.createAt + 1000 * s.ttl[post.channelId]
    ensures Reachable(AnyOrder, s')
    ensures s'.index == ThreadExpiry.Delivered(s.index, post, at, 0)
    ensures s'.hooks == map[] && OnlyHookChanged(s, s')
  {
    StoredSecondsAreExact(s.ttl[post.channelId], post.createAt);
    var actions;
    s', actions := SomeRunDelivers(s, post, at);
    ReachableRun(AnyOrder, s, actions);
  }

  lemma SomeRunDelivers(s: State, post: Post, at: int) returns (s': State, actions: seq<Action>)
    requires Enabled(s, StartHook(0, post.id)) && s.posts[post.id] == post
    requires at == ExpiryOf(post.createAt, s.ttl[post.channelId])
    ensures IsRun(AnyOrder, s, actions) && Final(AnyOrder, s, actions) == s'
    ensures s'.index == ThreadExpiry.Delivered(s.index, post, at, 0)
    ensures s'.hooks == s.hooks && OnlyHookChanged(s, s')
  {
    s' := HookAloneDelivers(s, 0, post.id, 0);
    actions := [StartHook(0, post.id), Insert(0, 0)] + (if post.rootId != "" then [Bump(0)] else []);
  }

  lemma FetchOne(s: State, row: Entry, now: int) returns (s': State)
    requires Reachable(AnyOrder, s) && s.limit == 1 && s.sweeps == map[]
    requires row.postId in s.index && s.index[row.postId] == row && row.expireAt <= now
    requires forall id | id in s.index :: row.expireAt <= s.index[id].expireAt
    ensures Reachable(AnyOrder, s') && s'.index == s.index && s'.posts == s.posts && s'.env == s.env
    ensures s'.hooks == s.hooks && s'.ttl == s.ttl
    ensures s'.sweeps.Keys == {0} && s'.sweeps[0].Fetched? && s'.sweeps[0].now == now && s'.sweeps[0].batch == [row]
  {
    ReachableStep(AnyOrder, s, Fetch(0, now, [row]));
    s' := Step(s, Fetch(0, now, [row]));
  }

  // A tick that fetched the root's row when it was due.
  lemma RootFetched() returns (s: State, row: Entry)
    ensures Reachable(AnyOrder, s) && s.hooks == map[] && s.posts == POSTS
    ensures s.ttl == map["c" := 300] && s.env == SOFT
    ensures row == RowFor(ROOT, 300_000, 0) && s.index == map["r" := row]
    ensures At(s, 0) && s.sweeps[0].Fetched? && s.sweeps[0].now == 300_000 && s.sweeps[0].batch == [row]
  {
    s := ThreePosts();
    s := Deliver(s, ROOT, 300_000);
    row := RowFor(ROOT, 300_000, 0);
    assert s.index == map["r" := row];
    s := FetchOne(s, row, 300_000);
  }

  lemma RouteAndPass(s: State, row: Entry) returns (s': State)
    requires Reachable(AnyOrder, s) && s.env == SOFT
    requires At(s, 0) && s.sweeps[0].Fetched? && s.sweeps[0].batch == [row]
    ensures Reachable(AnyOrder, s') && s'.index == s.index && s'.posts == s.posts
    ensures Removal(row, s.sweeps[0].now, BySoftDelete(true)) in s'.removals
  {
    ReachableStep(AnyOrder, s, Route(0));
    var s1 := Step(s, Route(0));
    ReachableStep(AnyOrder, s1, Pass(0, true));
    s' := Step(s1, Pass(0, true));
  }

  // A reply that bumps its thread between a tick's fetch and its purge comes too
  // late: the tick deletes a post whose current row lies in the future.
  lemma BumpAfterFetchIsTooLate() returns (s: State, r: Removal)
    ensures Reachable(AnyOrder, s) && r in s.removals && r.how == BySoftDelete(true)
    ensures r.entry.postId in s.index && s.index[r.entry.postId].expireAt > r.now
  {
    var row;
    s, row := RootFetched();
    s := Deliver(s, REPLY, 301_000);
    r := Removal(row, 300_000, BySoftDelete(true));
    s := RouteAndPass(s, row);
  }

  lemma FirstReplyStarted() returns (s: State)
    ensures Reachable(AnyOrder, s) && s.env == SOFT && s.limit == 1 && s.sweeps == map[] && s.posts == POSTS
    ensures s.index == map[] && s.hooks == map[1 := Ready(REPLY, 301_000)] && s.ttl == map["c" := 300]
  {
    s := ThreePosts();
    StoredSecondsAreExact(300, 1000);
    ReachableStep(AnyOrder, s, StartHook(1, "p"));
    s := Step(s, StartHook(1, "p"));
  }

  // The first reply's hook computed its expiry, then the second reply was delivered;
  // the first one's insert and bump come last.
  lemma StaleBump() returns (s: State)
    ensures Reachable(AnyOrder, s) && s.env == SOFT && s.limit == 1 && s.sweeps == map[] && s.posts == POSTS
    ensures s.index.Keys == {"p", "q"} && s.index["q"] == RowFor(LATER, 301_000, 0) && s.index["p"].expireAt == 301_000
  {
    var s0 := FirstReplyStarted();
    StoredSecondsAreExact(300, 400_000);
    var s1 := LaterDelivered(s0);
    s := FinishHook(s1, 1, 0);
    ReachableRun(AnyOrder, s1, [Insert(1, 0)] + [Bump(1)]);
  }

  lemma LaterDelivered(s: State) returns (s': State)
    requires Reachable(AnyOrder, s) && s.index == map[] && s.hooks == map[1 := Ready(REPLY, 301_000)]
    requires s.ttl == map["c" := 300] && s.posts == POSTS && ExpiryOf(400_000, 300) == 700_000
    ensures Reachable(AnyOrder, s') && s'.index == map["q" := RowFor(LATER, 700_000, 0)]
    ensures s'.hooks == s.hooks && OnlyHookChanged(s, s')
  {
    var actions;
    s', actions := SomeRunDelivers(s, LATER, 700_000);
    ReachableRun(AnyOrder, s, actions);
  }

  // So hooks of one thread that overlap can let a tick delete a post ten seconds
  // after it was sent, with a TTL of five minutes.
  lemma StaleBumpShortensLife() returns (s: State, r: Removal)
    ensures Reachable(AnyOrder, s) && r in s.removals && r.how == BySoftDelete(true) && r.entry.postId in s.posts
    ensures r.now == s.posts[r.entry.postId].createAt + 10_000
  {
    s := StaleBump();
    var row := RowFor(LATER, 301_000, 0);
    r := Removal(row, 410_000, BySoftDelete(true));
    s := FetchOne(s, row, 410_000);
    s := RouteAndPass(s, row);
  }

  // A root whose hook runs after a reply's leaves its thread with two expiries,
  // even with nothing in flight and no failure.
  lemma LateRootSplitsThread() returns (s: State)
    ensures Reachable(AnyOrder, s) && s.hooks == map[] && s.interrupted == {}
    ensures !Uniform(s.index) && LateRoot(s, "r")
  {
    s := ThreePosts();
    s := Deliver(s, REPLY, 301_000);
    s := Deliver(s, ROOT, 300_000);
    assert s.index["r"].rootId == s.index["p"].rootId && s.index["r"].expireAt != s.index["p"].expireAt;
    UniformIffNoLateRoot(AnyOrder, s, "r");
  }

  lemma StartOne(s: State, id: PostId) returns (s': State)
    requires Reachable(AnyOrder, s) && Enabled(s, StartHook(0, id))
    ensures Reachable(AnyOrder, s') && s'.index == s.index
    ensures s'.hooks == s.hooks[0 := Ready(s.posts[id], ExpiryOf(s.posts[id].createAt, s.ttl[s.posts[id].channelId]))]
  {
    ReachableStep(AnyOrder, s, StartHook(0, id));
    s' := Step(s, StartHook(0, id));
  }

  lemma InsertAndDrop(s: State, post: Post, at: int) returns (s': State)
    requires Reachable(AnyOrder, s) && s.hooks == map[0 := Ready(post, at)] && post.rootId != ""
    ensures Reachable(AnyOrder, s') && s'.index == Upserted(s.index, RowFor(post, at, 0)) && s'.hooks == map[]
  {
    ReachableStep(AnyOrder, s, Insert(0, 0));
    var s1 := Step(s, Insert(0, 0));
    ReachableStep(AnyOrder, s1, DropHook(0));
    s' := Step(s1, DropHook(0));
  }

  // A reply whose bump fails leaves its thread with two expiries.
  lemma CutOffReplySplitsThread() returns (s: State)
    ensures Reachable(AnyOrder, s) && s.hooks == map[] && "p" in s.index && "q" in s.index
    ensures !UniformThread(s, "r")
  {
    s := ThreePosts();
    s := Deliver(s, REPLY, 301_000);
    StoredSecondsAreExact(300, 400_000);
    s := StartOne(s, "q");
    s := InsertAndDrop(s, LATER, 700_000);
    assert s.index["p"].rootId == s.index["q"].rootId && s.index["p"].expireAt != s.index["q"].expireAt;
  }

  // A post whose DeletePost fails leaves the index with its rows still in the tables.
  lemma RefusedPostIsForgotten() returns (s: State, s': State)
    ensures Reachable(AnyOrder, s) && "r" in s.index
    ensures Reachable(AnyOrder, s') && "r" !in s'.index && !NothingLeft(s'.tables, "r") && "r" !in s'.softDeleted
  {
    var now := 300_000;
    s := ThreePosts();
    s := Deliver(s, ROOT, 300_000);
    var row := RowFor(ROOT, now, 0);
    assert s.index == map["r" := row];
    var batch := [row];
    assert row in batch && Ids(batch) == {"r"};
    s' := SoftTickAlonePrunes(s, 0, now, batch, {"r"});
    ReachableRun(AnyOrder, s, [Fetch(0, now, batch), Route(0)] + Passes(0, batch, {"r"}) + [EndPassing(0), Prune(0)]);
    PostRowIsThere();
  }

  lemma PostRowIsThere()
    ensures !NothingLeft(TABLES, "r")
  {
    var row := map["id" := "r"];
    assert row in TABLES["posts"] && Has(row, "id", {"r"});
  }
}
