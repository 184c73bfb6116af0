// Per-channel TTL settings over a compare-and-set key-value store.
module KvStore {
  import opened Wrappers

  datatype Setting = Setting(durationSeconds: int, setBy: string, setAt: int)

  // Stored bytes: the encoding of a setting, or anything else.
  datatype Stored = Json(setting: Setting) | Other(text: string)

  type Contents = map<string, Stored>

  const DEFAULT_MAX_RETRIES := 20

  datatype StoreError = KvGetError | KvSetError | KvDeleteError | DecodeError | TooManyRetries

  function Key(channelId: string): string {
    "ttl:" + channelId
  }

  // Channels do not share a key.
  lemma KeyIsInjective(a: string, b: string)
    requires Key(a) == Key(b)
    ensures a == b
  {
    assert Key(a)[4..] == a && Key(b)[4..] == b;
  }

  function Lookup(kv: Contents, key: string): Option<Stored> {
    if key in kv then Some(kv[key]) else None
  }

  // What a read makes of the bytes under a key: empty ones count as unset, anything
  // else has to decode.
  function Decoded(data: Option<Stored>): Result<Option<Setting>, StoreError> {
    match data
    case None => Success(None)
    case Some(Json(setting)) => Success(Some(setting))
    case Some(Other(text)) => if text == "" then Success(None) else Failure(DecodeError)
  }

  // ---- The environment of one Set ----

  // Writes and deletes by other callers.
  datatype Op = Put(key: string, value: Stored) | Del(key: string)

  // One pass of the retry loop: what others do before its read, what they do
  // between its read and its swap, and whether either call fails.
  datatype Round = Round(before: seq<Op>, between: seq<Op>, getFails: bool, setFails: bool)

  function Apply(kv: Contents, op: Op): Contents {
    match op
    case Put(key, value) => kv[key := value]
    case Del(key) => kv - {key}
  }

  function ApplyAll(kv: Contents, ops: seq<Op>): Contents
    decreases ops
  {
    if ops == [] then kv else ApplyAll(Apply(kv, ops[0]), ops[1..])
  }

  // What others alone make of the store in these rounds.
  function Others(kv: Contents, rounds: seq<Round>): Contents {
    if rounds == [] then kv
    else
      var last := rounds[|rounds| - 1];
      ApplyAll(ApplyAll(Others(kv, rounds[..|rounds| - 1]), last.before), last.between)
  }

  // What the read of round k sees of the store.
  function AtRead(kv: Contents, rounds: seq<Round>, k: nat): Contents
    requires k < |rounds|
  {
    ApplyAll(Others(kv, rounds[..k]), rounds[k].before)
  }

  // Round k ends with another value under the key than its read returned.
  predicate Conflict(kv: Contents, rounds: seq<Round>, key: string, k: nat)
    requires k < |rounds|
  {
    Lookup(AtRead(kv, rounds, k), key) != Lookup(Others(kv, rounds[..k + 1]), key)
  }

  // How a call under these rounds ends, and what it leaves.
  datatype Outcome = Outcome(kv: Contents, result: Result<(), StoreError>)

  function SetUnder(kv: Contents, key: string, value: Stored, rounds: seq<Round>): Outcome
    decreases rounds
  {
    if rounds == [] then Outcome(kv, Failure(TooManyRetries))
    else
      var atRead := ApplyAll(kv, rounds[0].before);
      var atSwap := ApplyAll(atRead, rounds[0].between);
      if rounds[0].getFails then Outcome(atRead, Failure(KvGetError))
      else if rounds[0].setFails then Outcome(atSwap, Failure(KvSetError))
      else if Lookup(atSwap, key) == Lookup(atRead, key) then Outcome(atSwap[key := value], Success(()))
      else SetUnder(atSwap, key, value, rounds[1..])
  }

  lemma OthersStep(kv: Contents, rounds: seq<Round>, k: nat)
    requires k < |rounds|
    ensures Others(kv, rounds[..k + 1]) == ApplyAll(AtRead(kv, rounds, k), rounds[k].between)
  {
    assert rounds[..k + 1][..k] == rounds[..k];
  }

  class Store {
    var kv: Contents
    const maxRetries: nat

    constructor ()
      ensures kv == map[] && maxRetries == 20
    {
      kv := map[];
      maxRetries := DEFAULT_MAX_RETRIES;
    }

    method Get(channelId: string, fails: bool) returns (r: Result<Option<Setting>, StoreError>)
      ensures r == if fails then Failure(KvGetError)
                   else Decoded(Lookup(kv, Key(channelId)))
      ensures !fails && Key(channelId) !in kv ==> r == Success(None)
      ensures !fails && Key(channelId) in kv && kv[Key(channelId)].Json? ==> r == Success(Some(kv[Key(channelId)].setting))
      ensures !fails && Key(channelId) in kv && kv[Key(channelId)].Other? ==>
                r == if kv[Key(channelId)].text == "" then Success(None) else Failure(DecodeError)
    {
      if fails {
        return Failure(KvGetError);
      }
      if Key(channelId) !in kv {
        return Success(None);
      }
      match kv[Key(channelId)]
      case Json(setting) => return Success(Some(setting));
      case Other(text) =>
        if |text| == 0 {
          return Success(None);
        }
        return Failure(DecodeError);
    }

    // The retry loop under any interference. The call ends in round used - 1, all
    // earlier rounds were conflicts; it writes its value at the successful swap of
    // that round and nothing otherwise; it gives up only after maxRetries
    // conflicts, one in every round.
    method Set(channelId: string, setting: Setting, rounds: seq<Round>)
      returns (r: Result<(), StoreError>, ghost used: nat)
      requires |rounds| == maxRetries
      modifies this
      ensures used <= maxRetries
      ensures forall k | 0 <= k < used - 1 :: Conflict(old(kv), rounds, Key(channelId), k)
      ensures r.Success? ==> used > 0 && !Conflict(old(kv), rounds, Key(channelId), used - 1)
                             && kv == Others(old(kv), rounds[..used])[Key(channelId) := Json(setting)]
      ensures r == Failure(KvGetError) ==> used > 0 && rounds[used - 1].getFails && kv == AtRead(old(kv), rounds, used - 1)
      ensures r == Failure(KvSetError) ==> used > 0 && rounds[used - 1].setFails && kv == Others(old(kv), rounds[..used])
      ensures r == Failure(TooManyRetries) ==> used == maxRetries && kv == Others(old(kv), rounds)
                                               && forall k | 0 <= k < maxRetries :: Conflict(old(kv), rounds, Key(channelId), k)
      ensures r.Success? ==> !rounds[used - 1].getFails && !rounds[used - 1].setFails
      ensures r.Success? || r.error in {KvGetError, KvSetError, TooManyRetries}
      ensures Outcome(kv, r) == SetUnder(old(kv), Key(channelId), Json(setting), rounds)
    {
      var key := Key(channelId);
      var value := Json(setting);
      used := 0;
      assert rounds[..0] == [];
      for k := 0 to maxRetries
        invariant used == k
        invariant kv == Others(old(kv), rounds[..k])
        invariant SetUnder(old(kv), key, value, rounds) == SetUnder(kv, key, value, rounds[k..])
        invariant forall j | 0 <= j < k :: Conflict(old(kv), rounds, key, j)
      {
        used := k + 1;
        OthersStep(old(kv), rounds, k);
        assert rounds[k..][0] == rounds[k] && rounds[k..][1..] == rounds[k + 1..];
        kv := ApplyAll(kv, rounds[k].before);
        if rounds[k].getFails {
          return Failure(KvGetError), used;
        }
        var current := Lookup(kv, key);
        kv := ApplyAll(kv, rounds[k].between);
        if rounds[k].setFails {
          return Failure(KvSetError), used;
        }
        if Lookup(kv, key) == current {
          kv := kv[key := value];
          return Success(()), used;
        }
      }
      assert rounds[..maxRetries] == rounds;
      return Failure(TooManyRetries), used;
    }

    method Clear(channelId: string, fails: bool) returns (r: Result<(), StoreError>)
      modifies this
      ensures r == if fails then Failure(KvDeleteError) else Success(())
      ensures kv == if fails then old(kv) else old(kv) - {Key(channelId)}
    {
      if fails {
        return Failure(KvDeleteError);
      }
      kv := kv - {Key(channelId)};
      return Success(());
    }
  }
}
