// What a client of the settings reads back, and what it makes of a new post.
module RoundTrips {
  import opened Int64
  import opened Wrappers
  import opened TtlRules
  import opened KvStore
  import opened TtlService
  import opened Posts
  import opened ThreadExpiry
  import opened Api

  // Whatever others do during a successful Set, a read after it returns the setting.
  method ReadBack(store: Store, channelId: string, setting: Setting, rounds: seq<Round>)
    returns (done: Result<(), StoreError>, read: Result<Option<Setting>, StoreError>)
    requires |rounds| == store.maxRetries
    modifies store
    ensures done.Success? ==> read == Success(Some(setting))
  {
    ghost var used;
    done, used := store.Set(channelId, setting, rounds);
    read := store.Get(channelId, false);
  }

  // A Set or Clear of one channel does not show on another one.
  method ReadOther(store: Store, channelId: string, other: string, setting: Setting, rounds: seq<Round>, clear: bool)
    returns (before: Result<Option<Setting>, StoreError>, after: Result<Option<Setting>, StoreError>)
    requires |rounds| == store.maxRetries && Still(rounds) && other != channelId
    modifies store
    ensures after == before
  {
    if Key(other) == Key(channelId) {
      KeyIsInjective(other, channelId);
    }
    before := store.Get(other, false);
    if clear {
      var done := store.Clear(channelId, false);
    } else {
      ghost var kv := store.kv;
      var done, used := store.Set(channelId, setting, rounds);
      StillOutcome(kv, Key(channelId), Json(setting), rounds);
    }
    after := store.Get(other, false);
  }

  lemma {:induction false} StillOutcome(kv: Contents, key: string, value: Stored, rounds: seq<Round>)
    requires Still(rounds)
    ensures SetUnder(kv, key, value, rounds).kv in {kv, kv[key := value]}
  {
    if rounds != [] {
      assert rounds[0] in rounds;
    }
  }

  method ReadCleared(store: Store, channelId: string) returns (read: Result<Option<Setting>, StoreError>)
    modifies store
    ensures read == Success(None)
  {
    var done := store.Clear(channelId, false);
    read := store.Get(channelId, false);
  }

  // A duration that was set is read in whole seconds of nanoseconds.
  method SetThenGet(svc: Service, actor: string, channelId: string, d: int, setAt: int, p: Permissions, rounds: seq<Round>)
    returns (done: Result<(), TtlError>, read: Result<Option<int>, TtlError>)
    requires |rounds| == svc.store.maxRetries
    modifies svc.store
    ensures done.Success? ==> 60_000_000_000 <= d && read == Success(Some(d - d % 1_000_000_000))
  {
    done := svc.SetTTL(actor, channelId, d, setAt, p, rounds);
    if done.Success? {
      StoredSecondsInBounds(d);
      StoredSecondsAreExact(WholeSeconds(d), 0);
    }
    read := svc.GetTTL(channelId, false);
  }

  method ClearThenGet(svc: Service, channelId: string, p: Permissions)
    returns (cleared: Result<(), TtlError>, read: Result<Option<int>, TtlError>)
    modifies svc.store
    ensures cleared.Success? ==> read == Success(None)
  {
    cleared := svc.ClearTTL(channelId, p, false);
    read := svc.GetTTL(channelId, false);
  }

  // The expiry of a post written after its channel's TTL was set.
  method SetThenPost(svc: ExpiryService, actor: string, d: int, setAt: int, p: Permissions, rounds: seq<Round>, post: Post, now: int)
    returns (done: Result<(), TtlError>, hook: Result<(), HookError>)
    requires |rounds| == svc.ttl.store.maxRetries && RealisticTime(post.createAt)
    modifies svc.ttl.store, svc.store
    ensures done.Success? ==>
      hook.Success? && RowsAfterPost(old(svc.store.rows), svc.store.rows, post, post.createAt + 1000 * (d / 1_000_000_000), now)
  {
    done := svc.ttl.SetTTL(actor, post.channelId, d, setAt, p, rounds);
    if done.Success? {
      StoredSecondsInBounds(d);
    }
    hook := svc.OnPostCreated(post, now, false, false, false);
  }

  // A channel whose TTL was cleared does not index its posts.
  method ClearThenPost(svc: ExpiryService, p: Permissions, post: Post, now: int)
    returns (cleared: Result<(), TtlError>, hook: Result<(), HookError>)
    modifies svc.ttl.store, svc.store
    ensures cleared.Success? ==> hook.Success? && svc.store.rows == old(svc.store.rows)
  {
    cleared := svc.ttl.ClearTTL(post.channelId, p, false);
    hook := svc.OnPostCreated(post, now, false, false, false);
  }

  // A POST of a minute to a year is read back to the second.
  method PostThenGet(h: Handler, actor: string, channel: string, ttlSeconds: int64, now: int, perms: Permissions, rounds: seq<Round>)
    returns (r: Result<Setting, ApiError>, read: Result<Option<Setting>, StoreError>)
    requires |rounds| == h.ttl.store.maxRetries && 60 <= ttlSeconds <= 31_536_000
    modifies h.ttl.store, h.ws
    ensures r.Success? ==> read == Success(Some(Setting(ttlSeconds, actor, now)))
    ensures r.Success? ==> h.ws.events == old(h.ws.events) + [Broadcast(channel, Some(Setting(ttlSeconds, actor, now)))]
  {
    r := h.HandleSet(actor, channel, ttlSeconds, now, perms, rounds);
    StoredSecondsAreExact(ttlSeconds, 0);
    read := h.ttl.store.Get(channel, false);
  }
}
