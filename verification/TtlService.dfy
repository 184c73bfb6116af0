// The permission-checked set, get and clear of a channel's TTL.
module TtlService {
  import opened Wrappers
  import opened TtlRules
  import opened KvStore

  datatype ChannelKind = GroupOrDirect | Open | Private

  // The answers to the permission queries about one actor and one channel.
  datatype Permissions = Permissions(systemAdmin: bool, channel: Option<ChannelKind>,
                                     publicProperties: bool, privateProperties: bool)

  datatype TtlError = InvalidTTL | Forbidden | ChannelNotFound | InStore(error: StoreError)

  // None when the actor may manage the channel.
  function CheckCanManage(p: Permissions): Option<TtlError> {
    if p.systemAdmin then None
    else match p.channel
      case None => Some(ChannelNotFound)
      case Some(GroupOrDirect) => None
      case Some(Open) => if p.publicProperties then None else Some(Forbidden)
      case Some(Private) => if p.privateProperties then None else Some(Forbidden)
  }

  // System admins always; participants of direct and group messages; otherwise the
  // holder of the property permission of the channel's own kind.
  lemma WhoMayManage(p: Permissions)
    ensures CheckCanManage(p).None? <==>
      p.systemAdmin || p.channel == Some(GroupOrDirect)
      || (p.channel == Some(Open) && p.publicProperties) || (p.channel == Some(Private) && p.privateProperties)
    ensures CheckCanManage(p) == Some(ChannelNotFound) <==> !p.systemAdmin && p.channel.None?
    ensures CheckCanManage(p) in {None, Some(Forbidden), Some(ChannelNotFound)}
  {
  }

  // Nobody else writes during the call; its own store calls may still fail.
  predicate Still(rounds: seq<Round>) {
    forall round | round in rounds :: round.before == [] && round.between == []
  }

  predicate FirstTryWorks(rounds: seq<Round>) {
    rounds != [] && !rounds[0].getFails && !rounds[0].setFails
  }

  lemma {:induction false} StillChangesNothing(kv: Contents, rounds: seq<Round>, k: nat)
    requires Still(rounds) && k <= |rounds|
    ensures Others(kv, rounds[..k]) == kv
    ensures k < |rounds| ==> AtRead(kv, rounds, k) == kv
  {
    if k > 0 {
      StillChangesNothing(kv, rounds, k - 1);
      assert rounds[..k][..k - 1] == rounds[..k - 1];
      assert rounds[k - 1] in rounds;
    }
    if k < |rounds| {
      assert rounds[k] in rounds;
    }
  }

  class Service {
    const store: Store

    constructor (store: Store)
      ensures this.store == store
    {
      this.store := store;
    }

    // Validation comes before permission, permission before the write; only an
    // accepted duration is written, in whole seconds. What an accepted call leaves in
    // the store, and how it ends, is what the store's loop makes of the rounds.
    method SetTTL(actorId: string, channelId: string, d: int, setAt: int, p: Permissions, rounds: seq<Round>)
      returns (r: Result<(), TtlError>)
      requires |rounds| == store.maxRetries
      modifies store
      ensures !ValidTTL(d) ==> r == Failure(InvalidTTL)
      ensures ValidTTL(d) && CheckCanManage(p).Some? ==> r == Failure(CheckCanManage(p).value)
      ensures r.Success? || r.error.InStore? <==> ValidTTL(d) && CheckCanManage(p).None?
      ensures r.Failure? && !r.error.InStore? ==> store.kv == old(store.kv)
      ensures ValidTTL(d) && CheckCanManage(p).None? ==>
        var out := SetUnder(old(store.kv), Key(channelId), Json(Setting(WholeSeconds(d), actorId, setAt)), rounds);
        && store.kv == out.kv
        && r == match out.result case Success(_) => Success(()) case Failure(e) => Failure(InStore(e))
      ensures r.Success? ==>
        exists k :: 0 < k <= |rounds| && store.kv ==
          Others(old(store.kv), rounds[..k])[Key(channelId) := Json(Setting(WholeSeconds(d), actorId, setAt))]
      ensures Still(rounds) ==>
        store.kv == if r.Failure? then old(store.kv)
                    else old(store.kv)[Key(channelId) := Json(Setting(WholeSeconds(d), actorId, setAt))]
      ensures Still(rounds) && ValidTTL(d) && CheckCanManage(p).None? && FirstTryWorks(rounds) ==> r.Success?
    {
      if !ValidTTL(d) {
        return Failure(InvalidTTL);
      }
      var denied := CheckCanManage(p);
      if denied.Some? {
        return Failure(denied.value);
      }
      var stored, used := store.Set(channelId, Setting(WholeSeconds(d), actorId, setAt), rounds);
      if Still(rounds) {
        forall k | 0 <= k <= |rounds|
          ensures Others(old(store.kv), rounds[..k]) == old(store.kv)
          ensures k < |rounds| ==> AtRead(old(store.kv), rounds, k) == old(store.kv)
          ensures k < |rounds| ==> !Conflict(old(store.kv), rounds, Key(channelId), k)
        {
          StillChangesNothing(old(store.kv), rounds, k);
          if k < |rounds| {
            StillChangesNothing(old(store.kv), rounds, k + 1);
          }
        }
        assert rounds[..|rounds|] == rounds;
        assert rounds != [] ==> !Conflict(old(store.kv), rounds, Key(channelId), 0);
        assert used <= 1;
      }
      match stored
      case Success(_) => return Success(());
      case Failure(e) => return Failure(InStore(e));
    }

    // The stored seconds as a duration, or None when no TTL is set.
    method GetTTL(channelId: string, fails: bool) returns (r: Result<Option<int>, TtlError>)
      ensures r == if fails then Failure(InStore(KvGetError))
                   else match Decoded(Lookup(store.kv, Key(channelId)))
                        case Failure(e) => Failure(InStore(e))
                        case Success(None) => Success(None)
                        case Success(Some(s)) => Success(Some(FromSeconds(s.durationSeconds)))
    {
      var setting := store.Get(channelId, fails);
      match setting
      case Failure(e) => return Failure(InStore(e));
      case Success(None) => return Success(None);
      case Success(Some(s)) => return Success(Some(FromSeconds(s.durationSeconds)));
    }

    method ClearTTL(channelId: string, p: Permissions, fails: bool) returns (r: Result<(), TtlError>)
      modifies store
      ensures r == if CheckCanManage(p).Some? then Failure(CheckCanManage(p).value)
                   else if fails then Failure(InStore(KvDeleteError)) else Success(())
      ensures store.kv == if r.Success? then old(store.kv) - {Key(channelId)} else old(store.kv)
    {
      var denied := CheckCanManage(p);
      if denied.Some? {
        return Failure(denied.value);
      }
      var cleared := store.Clear(channelId, fails);
      match cleared
      case Success(_) => return Success(());
      case Failure(e) => return Failure(InStore(e));
    }
  }
}
