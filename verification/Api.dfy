// The HTTP and slash-command surface, and the webapp replica driven by its
// broadcasts.
module Api {
  import opened Int64
  import opened Wrappers
  import opened TtlRules
  import opened Labels
  import opened KvStore
  import opened TtlService

  // A ttl_changed event; None means off.
  datatype Broadcast = Broadcast(channelId: string, ttl: Option<Setting>)

  // The four requests that may change a TTL. storeFails is the outcome of the
  // store call, should the request get that far.
  datatype Request =
    | PostTtl(actor: string, channel: string, ttlSeconds: int64, now: int, perms: Permissions, storeFails: bool)
    | DeleteTtl(actor: string, channel: string, perms: Permissions, storeFails: bool)
    | CommandSet(actor: string, channel: string, arg: string, now: int, perms: Permissions, storeFails: bool)
    | CommandOff(actor: string, channel: string, perms: Permissions, storeFails: bool)

  predicate Accepted(req: Request) {
    CheckCanManage(req.perms).None? && !req.storeFails &&
    match req
    case PostTtl(actor, channel, ttlSeconds, _, _, _) =>
      actor != "" && channel != "" && ttlSeconds >= 0 && ValidTTL(FromSeconds(ttlSeconds))
    case DeleteTtl(actor, _, _, _) => actor != ""
    case CommandSet(_, _, arg, _, _, _) => ParseTTLArg(arg).Some? && ValidTTL(ParseTTLArg(arg).value)
    case CommandOff(_, _, _, _) => true
  }

  // The setting an accepted request leaves in the store.
  function StoredBy(req: Request): Option<Setting>
    requires Accepted(req)
  {
    match req
    case PostTtl(actor, _, ttlSeconds, now, _, _) => Some(Setting(WholeSeconds(FromSeconds(ttlSeconds)), actor, now))
    case CommandSet(actor, _, arg, now, _, _) => Some(Setting(WholeSeconds(ParseTTLArg(arg).value), actor, now))
    case DeleteTtl(_, _, _, _) => None
    case CommandOff(_, _, _, _) => None
  }

  // The setting it announces: a POST repeats the requested seconds.
  function AnnouncedBy(req: Request): Option<Setting>
    requires Accepted(req)
  {
    match req
    case PostTtl(actor, _, ttlSeconds, now, _, _) => Some(Setting(ttlSeconds, actor, now))
    case _ => StoredBy(req)
  }

  function Updated(kv: Contents, req: Request): Contents {
    if !Accepted(req) then kv
    else match StoredBy(req)
         case Some(setting) => kv[Key(req.channel) := Json(setting)]
         case None => kv - {Key(req.channel)}
  }

  function Emitted(req: Request): seq<Broadcast> {
    if Accepted(req) then [Broadcast(req.channel, AnnouncedBy(req))] else []
  }

  class Socket {
    var events: seq<Broadcast>

    constructor ()
      ensures events == []
    {
      events := [];
    }

    method Publish(channelId: string, ttl: Option<Setting>)
      modifies this
      ensures events == old(events) + [Broadcast(channelId, ttl)]
    {
      events := events + [Broadcast(channelId, ttl)];
    }
  }

  datatype ApiError = Unauthorized | BadRequest | Domain(error: TtlError)

  // The request passed every check, and the store decided how it ends.
  predicate Reached<T>(r: Result<T, ApiError>) {
    r.Success? || (r.error.Domain? && r.error.error.InStore?)
  }

  class Handler {
    const ttl: Service
    const ws: Socket

    constructor (ttl: Service, ws: Socket)
      ensures this.ttl == ttl && this.ws == ws
    {
      this.ttl := ttl;
      this.ws := ws;
    }

    // Whatever others do meanwhile, exactly the requests that pass the checks get to
    // the store, and the store's loop fixes how they end and what they leave: a
    // success writes the setting at its swap and announces it once, a failure writes
    // and announces nothing. Without interference the store and the
    // socket move exactly as specified, and a store that works on the first try
    // accepts exactly those requests.
    method HandleSet(actor: string, channel: string, ttlSeconds: int64, now: int, perms: Permissions, rounds: seq<Round>)
      returns (r: Result<Setting, ApiError>)
      requires |rounds| == ttl.store.maxRetries
      modifies ttl.store, ws
      ensures r.Failure? ==> ws.events == old(ws.events)
      ensures Still(rounds) ==>
        var req := PostTtl(actor, channel, ttlSeconds, now, perms, r.Failure?);
        && (r.Success? <==> Accepted(req))
        && ttl.store.kv == Updated(old(ttl.store.kv), req)
        && ws.events == old(ws.events) + Emitted(req)
      ensures Reached(r) <==> Accepted(PostTtl(actor, channel, ttlSeconds, now, perms, false))
      ensures Reached(r) ==>
        var req := PostTtl(actor, channel, ttlSeconds, now, perms, false);
        var out := SetUnder(old(ttl.store.kv), Key(channel), Json(StoredBy(req).value), rounds);
        && ttl.store.kv == out.kv
        && (r.Success? <==> out.result.Success?)
        && (r.Failure? ==> r.error == Domain(InStore(out.result.error)))
      ensures r.Failure? && !Reached(r) ==> ttl.store.kv == old(ttl.store.kv)
      ensures r.Success? ==>
        var req := PostTtl(actor, channel, ttlSeconds, now, perms, false);
        && ws.events == old(ws.events) + Emitted(req)
        && exists k :: 0 < k <= |rounds| && ttl.store.kv == Updated(Others(old(ttl.store.kv), rounds[..k]), req)
      ensures Still(rounds) && FirstTryWorks(rounds) ==> (r.Success? <==> Accepted(PostTtl(actor, channel, ttlSeconds, now, perms, false)))
      ensures r.Success? ==> r.value == Setting(ttlSeconds, actor, now)
      ensures actor == "" ==> r == Failure(Unauthorized)
      ensures actor != "" && (channel == "" || ttlSeconds < 0) ==> r == Failure(BadRequest)
      ensures r.Failure? && (r.error.Unauthorized? || r.error.BadRequest?) ==> actor == "" || channel == "" || ttlSeconds < 0
    {
      if actor == "" {
        return Failure(Unauthorized);
      }
      if channel == "" || ttlSeconds < 0 {
        return Failure(BadRequest);
      }
      var duration := FromSeconds(ttlSeconds);
      var done := ttl.SetTTL(actor, channel, duration, now, perms, rounds);
      if done.Failure? {
        return Failure(Domain(done.error));
      }
      var dto := Setting(ttlSeconds, actor, now);
      ws.Publish(channel, Some(dto));
      return Success(dto);
    }

    method HandleDelete(actor: string, channel: string, perms: Permissions, storeFails: bool)
      returns (r: Result<(), ApiError>)
      modifies ttl.store, ws
      ensures var req := DeleteTtl(actor, channel, perms, storeFails);
              && (r.Success? <==> Accepted(req))
              && ttl.store.kv == Updated(old(ttl.store.kv), req)
              && ws.events == old(ws.events) + Emitted(req)
      ensures actor == "" <==> r == Failure(Unauthorized)
    {
      if actor == "" {
        return Failure(Unauthorized);
      }
      var done := ttl.ClearTTL(channel, perms, storeFails);
      if done.Failure? {
        return Failure(Domain(done.error));
      }
      ws.Publish(channel, None);
      return Success(());
    }

    method CmdSet(user: string, channel: string, arg: string, now: int, perms: Permissions, rounds: seq<Round>)
      returns (r: Result<(), ApiError>)
      requires |rounds| == ttl.store.maxRetries
      modifies ttl.store, ws
      ensures r.Failure? ==> ws.events == old(ws.events)
      ensures Still(rounds) ==>
        var req := CommandSet(user, channel, arg, now, perms, r.Failure?);
        && (r.Success? <==> Accepted(req))
        && ttl.store.kv == Updated(old(ttl.store.kv), req)
        && ws.events == old(ws.events) + Emitted(req)
      ensures Reached(r) <==> Accepted(CommandSet(user, channel, arg, now, perms, false))
      ensures Reached(r) ==>
        var req := CommandSet(user, channel, arg, now, perms, false);
        var out := SetUnder(old(ttl.store.kv), Key(channel), Json(StoredBy(req).value), rounds);
        && ttl.store.kv == out.kv
        && (r.Success? <==> out.result.Success?)
        && (r.Failure? ==> r.error == Domain(InStore(out.result.error)))
      ensures r.Failure? && !Reached(r) ==> ttl.store.kv == old(ttl.store.kv)
      ensures r.Success? ==>
        var req := CommandSet(user, channel, arg, now, perms, false);
        && ws.events == old(ws.events) + Emitted(req)
        && exists k :: 0 < k <= |rounds| && ttl.store.kv == Updated(Others(old(ttl.store.kv), rounds[..k]), req)
      ensures Still(rounds) && FirstTryWorks(rounds) ==> (r.Success? <==> Accepted(CommandSet(user, channel, arg, now, perms, false)))
      ensures r == Failure(BadRequest) <==> ParseTTLArg(arg).None?
    {
      var parsed := ParseTTLArg(arg);
      if parsed.None? {
        return Failure(BadRequest);
      }
      var done := ttl.SetTTL(user, channel, parsed.value, now, perms, rounds);
      if done.Failure? {
        return Failure(Domain(done.error));
      }
      ws.Publish(channel, Some(Setting(WholeSeconds(parsed.value), user, now)));
      return Success(());
    }

    method CmdOff(user: string, channel: string, perms: Permissions, storeFails: bool)
      returns (r: Result<(), ApiError>)
      modifies ttl.store, ws
      ensures var req := CommandOff(user, channel, perms, storeFails);
              && (r.Success? <==> Accepted(req))
              && ttl.store.kv == Updated(old(ttl.store.kv), req)
              && ws.events == old(ws.events) + Emitted(req)
    {
      var done := ttl.ClearTTL(channel, perms, storeFails);
      if done.Failure? {
        return Failure(Domain(done.error));
      }
      ws.Publish(channel, None);
      return Success(());
    }
  }

  // ---- The webapp replica ----

  datatype Client = Client(byChannel: map<string, Option<Setting>>, modal: Option<string>)

  const INITIAL := Client(map[], None)

  datatype Action =
    | SetChannelTTL(channelId: string, ttl: Option<Setting>)
    | OpenModal(channelId: string)
    | CloseModal

  function Reduce(state: Client, action: Action): Client {
    match action
    case SetChannelTTL(channelId, ttl) => state.(byChannel := state.byChannel[channelId := ttl])
    case OpenModal(channelId) => state.(modal := Some(channelId))
    case CloseModal => state.(modal := None)
  }

  // The socket handler ignores events without a channel.
  function Receive(state: Client, b: Broadcast): Client {
    if b.channelId == "" then state else Reduce(state, SetChannelTTL(b.channelId, b.ttl))
  }

  function ReceiveAll(state: Client, bs: seq<Broadcast>): Client {
    if bs == [] then state else Receive(ReceiveAll(state, bs[..|bs| - 1]), bs[|bs| - 1])
  }

  // ---- Runs of the whole ----

  datatype World = World(kv: Contents, client: Client)

  // A request served and its broadcasts received, or a click in the webapp.
  datatype Event = Served(req: Request) | Opened(channelId: string) | Closed

  function Next(w: World, e: Event): World {
    match e
    case Served(req) => World(Updated(w.kv, req), ReceiveAll(w.client, Emitted(req)))
    case Opened(channelId) => w.(client := Reduce(w.client, OpenModal(channelId)))
    case Closed => w.(client := Reduce(w.client, CloseModal))
  }

  function Run(w: World, events: seq<Event>): World {
    if events == [] then w else Next(Run(w, events[..|events| - 1]), events[|events| - 1])
  }

  // Every channel the client knows about shows what the store holds.
  ghost predicate Agrees(w: World) {
    && "" !in w.client.byChannel
    && forall ch | ch in w.client.byChannel ::
      Lookup(w.kv, Key(ch)) == match w.client.byChannel[ch]
                               case None => None
                               case Some(setting) => Some(Json(setting))
  }

  // An accepted POST above a year, possible only through a wrapped product.
  predicate Wrapped(e: Event) {
    e.Served? && e.req.PostTtl? && Accepted(e.req) && e.req.ttlSeconds > MAX_SECONDS
  }

  lemma OneReceive(state: Client, b: Broadcast)
    ensures ReceiveAll(state, [b]) == Receive(state, b)
  {
  }

  lemma AnnouncedIsStored(req: Request)
    requires Accepted(req)
    ensures AnnouncedBy(req) == StoredBy(req) <==> !Wrapped(Served(req))
  {
  }

  lemma StepAgreement(w: World, e: Event)
    requires Agrees(w)
    ensures Agrees(Next(w, e)) <==> !Wrapped(e)
  {
    if e.Served? && Accepted(e.req) {
      var req, next := e.req, Next(w, e);
      AnnouncedIsStored(req);
      OneReceive(w.client, Broadcast(req.channel, AnnouncedBy(req)));
      forall ch | ch in w.client.byChannel && ch != req.channel
        ensures Lookup(next.kv, Key(ch)) == Lookup(w.kv, Key(ch))
      {
        if Key(ch) == Key(req.channel) {
          KeyIsInjective(ch, req.channel);
        }
      }
      StoredUnderKey(w.kv, req);
      if req.channel != "" {
        assert next.client.byChannel[req.channel] == AnnouncedBy(req);
        assert req.channel in next.client.byChannel;
      }
    }
  }

  lemma StoredUnderKey(kv: Contents, req: Request)
    requires Accepted(req)
    ensures Lookup(Updated(kv, req), Key(req.channel)) ==
      match StoredBy(req)
      case None => None
      case Some(setting) => Some(Json(setting))
  {
  }

  // A client that starts in agreement agrees after every prefix of a run exactly
  // when no accepted POST in it exceeded a year.
  lemma {:induction false} ReplicaAgreesIffUnwrapped(w: World, events: seq<Event>)
    requires Agrees(w)
    ensures (forall k | 0 <= k <= |events| :: Agrees(Run(w, events[..k])))
      <==> forall e | e in events :: !Wrapped(e)
  {
    assert events[..|events|] == events;
    if events != [] {
      var init, last := events[..|events| - 1], events[|events| - 1];
      assert events == init + [last];
      ReplicaAgreesIffUnwrapped(w, init);
      forall k | 0 <= k <= |init|
        ensures events[..k] == init[..k]
      {
      }
      assert init[..|init|] == init;
      if Agrees(Run(w, init)) {
        StepAgreement(Run(w, init), last);
      }
    }
  }

  // A webapp that just started agrees with any store.
  lemma InitialClientAgrees(kv: Contents, events: seq<Event>)
    ensures (forall k | 0 <= k <= |events| :: Agrees(Run(World(kv, INITIAL), events[..k])))
      <==> forall e | e in events :: !Wrapped(e)
  {
    ReplicaAgreesIffUnwrapped(World(kv, INITIAL), events);
  }

  // Every channel an accepted request touched is known to the client from then on.
  lemma {:induction false} TouchedChannelsAreKnown(w: World, events: seq<Event>, i: nat)
    requires i < |events| && events[i].Served? && Accepted(events[i].req) && events[i].req.channel != ""
    ensures events[i].req.channel in Run(w, events).client.byChannel
  {
    var init, last := events[..|events| - 1], events[|events| - 1];
    if i < |init| {
      TouchedChannelsAreKnown(w, init, i);
    }
    if last.Served? && Accepted(last.req) {
      OneReceive(Run(w, init).client, Broadcast(last.req.channel, AnnouncedBy(last.req)));
    }
  }

  // The modal is open on the channel of the last click that opened it, unless it was
  // closed since, whatever was broadcast meanwhile.
  lemma {:induction false} ModalFollowsClicks(w: World, events: seq<Event>, j: nat)
    requires j < |events| && !events[j].Served? && forall k | j < k < |events| :: events[k].Served?
    ensures Run(w, events).client.modal == if events[j].Opened? then Some(events[j].channelId) else None
  {
    var init, last := events[..|events| - 1], events[|events| - 1];
    if j < |init| {
      ModalFollowsClicks(w, init, j);
      if Accepted(last.req) {
        OneReceive(Run(w, init).client, Broadcast(last.req.channel, AnnouncedBy(last.req)));
      }
    }
  }

  // Every stored setting is within the bounds.
  ghost predicate StoreInBounds(kv: Contents) {
    forall key | key in kv && kv[key].Json? :: InBounds(kv[key].setting.durationSeconds)
  }

  lemma {:induction false} RunKeepsBounds(w: World, events: seq<Event>)
    requires StoreInBounds(w.kv)
    ensures StoreInBounds(Run(w, events).kv)
  {
    if events != [] {
      RunKeepsBounds(w, events[..|events| - 1]);
      var last := events[|events| - 1];
      if last.Served? && Accepted(last.req) && StoredBy(last.req).Some? {
        StoredSecondsInBounds(if last.req.PostTtl? then FromSeconds(last.req.ttlSeconds) else ParseTTLArg(last.req.arg).value);
      }
    }
  }
}
