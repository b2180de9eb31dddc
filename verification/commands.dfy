/** The command in-flight and retry protocol of examples/agar_mit_clone/gw_authoritative_server.js,
    as a state machine: one function per event.

    Connections are numbered; player i is the i-th connection and entity i is its entity.  Timers
    are a pool from which any may fire next, which covers every delay the program sets. */
module Commands {
  import opened Wrappers

  datatype Target = Target(x: real, y: real)

  /** COMMAND_MAX_ATTEMPTS and COMMAND_ACK_TIMEOUT_MS. */
  datatype Config = Config(maxAttempts: int, ackTimeout: int)

  const MAX_PENDING: nat := 1024

  datatype Player = Player(
    registered: bool,
    spawned: bool,
    inFlight: Option<int>,
    queued: Option<Target>,
    lastWorld: Option<Target>)

  datatype Pending = Pending(id: int, player: nat, target: Target, attempt: nat, sentAt: int)

  datatype Timer = Flush(player: nat, attempt: nat) | Send(player: nat, target: Target)

  datatype Counters = Counters(
    responses: nat, rejects: nat, transientRejects: nat, timeouts: nat, timeoutRetries: nat, ownerResends: nat)

  /** The last three components record, for the theorems, what became of each issued command. */
  datatype State = State(
    players: seq<Player>,
    pending: seq<Pending>,
    timers: seq<Timer>,
    entities: set<int>,
    requestSeq: nat,
    counters: Counters,
    answered: set<int>,
    timedOut: set<int>,
    evicted: set<int>)

  const INIT := State([], [], [], {}, 0, Counters(0, 0, 0, 0, 0, 0), {}, {}, {})

  // ---------------------------------------------------------------- the pending map

  /** The map keeps insertion order; keys are unique. */
  function Lookup(ps: seq<Pending>, id: int): (r: Option<Pending>)
    ensures r.Some? ==> r.value in ps && r.value.id == id
    ensures r.None? ==> forall p :: p in ps ==> p.id != id
  {
    if ps == [] then None else if ps[0].id == id then Some(ps[0]) else Lookup(ps[1..], id)
  }

  function Without(ps: seq<Pending>, id: int): seq<Pending> {
    if ps == [] then []
    else if ps[0].id == id then ps[1..]
    else [ps[0]] + Without(ps[1..], id)
  }

  function Ids(ps: seq<Pending>): set<int> { set p | p in ps :: p.id }

  function Overflow(ps: seq<Pending>): nat { if |ps| > MAX_PENDING then |ps| - MAX_PENDING else 0 }

  /** Oldest entries leave until at most MAX_PENDING remain. */
  function Evict(s: State): State {
    var k := Overflow(s.pending);
    s.(pending := s.pending[k..], evicted := s.evicted + Ids(s.pending[..k]))
  }

  // ---------------------------------------------------------------- sending

  predicate CanSend(s: State, i: nat)
    requires i < |s.players|
  {
    s.players[i].spawned && i in s.entities
  }

  function SendTarget(s: State, i: nat, target: Target, attempt: nat, now: int): State
    requires i < |s.players|
  {
    if !CanSend(s, i) then s
    else
      var p := s.players[i].(lastWorld := Some(target));
      if p.inFlight.Some? then s.(players := s.players[i := p.(queued := Some(target))])
      else
        var id := s.requestSeq;
        s.(players := s.players[i := p.(inFlight := Some(id))],
           pending := s.pending + [Pending(id, i, target, attempt, now)],
           requestSeq := id + 1)
  }

  function FlushQueued(s: State, i: nat, attempt: nat, now: int): State
    requires i < |s.players|
  {
    var p := s.players[i];
    if p.queued.None? || p.inFlight.Some? then s
    else SendTarget(s.(players := s.players[i := p.(queued := None)]), i, p.queued.value, attempt, now)
  }

  // ---------------------------------------------------------------- responses and timeouts

  function Release(p: Player, id: int): Player {
    if p.inFlight == Some(id) then p.(inFlight := None) else p
  }

  predicate RejectRetryable(s: State, entry: Pending, retryReason: bool)
    requires entry.player < |s.players|
  {
    retryReason && entry.attempt < 2 && s.players[entry.player].registered && CanSend(s, entry.player)
  }

  /** A response before eviction is considered. */
  function Respond(s: State, id: int, success: bool, retryReason: bool): State
    requires forall p :: p in s.pending ==> p.player < |s.players|
  {
    var c := s.counters.(responses := s.counters.responses + 1);
    match Lookup(s.pending, id)
    case None => s.(counters := if success then c else c.(rejects := c.rejects + 1))
    case Some(entry) =>
      var i := entry.player;
      var known := s.players[i].registered;
      var p := if known then Release(s.players[i], id) else s.players[i];
      var t := s.(pending := Without(s.pending, id), answered := s.answered + {id}, players := s.players[i := p]);
      if !success then
        if RejectRetryable(s, entry, retryReason) then
          t.(counters := c.(transientRejects := c.transientRejects + 1),
             players := s.players[i := p.(queued := Some(entry.target))],
             timers := s.timers + [Flush(i, entry.attempt + 1)])
        else t.(counters := c.(rejects := c.rejects + 1))
      else t.(counters := c, timers := if known && p.queued.Some? then s.timers + [Flush(i, 0)] else s.timers)
  }

  function Response(s: State, id: int, success: bool, retryReason: bool): State
    requires forall p :: p in s.pending ==> p.player < |s.players|
  {
    Evict(Respond(s, id, success, retryReason))
  }

  predicate TimeoutRetryable(cfg: Config, s: State, entry: Pending)
    requires entry.player < |s.players|
  {
    s.players[entry.player].registered && CanSend(s, entry.player) && entry.attempt + 1 < cfg.maxAttempts
  }

  /** One entry of the timeout sweep. */
  function ReapOne(cfg: Config, s: State, entry: Pending, now: int): State
    requires entry.player < |s.players|
  {
    if now - entry.sentAt < cfg.ackTimeout then s
    else
      var i := entry.player;
      var p := if s.players[i].registered then Release(s.players[i], entry.id) else s.players[i];
      var t := s.(pending := Without(s.pending, entry.id), timedOut := s.timedOut + {entry.id},
                  players := s.players[i := p]);
      var c := s.counters;
      if TimeoutRetryable(cfg, s, entry) then
        t.(counters := c.(timeoutRetries := c.timeoutRetries + 1),
           players := s.players[i := p.(queued := if p.queued.Some? then p.queued else Some(entry.target))],
           timers := s.timers + [Flush(i, entry.attempt + 1)])
      else t.(counters := c.(timeouts := c.timeouts + 1))
  }

  function ReapAll(cfg: Config, s: State, entries: seq<Pending>, now: int): State
    requires forall e :: e in entries ==> e.player < |s.players|
    decreases |entries|
  {
    if entries == [] then s
    else ReapAll(cfg, ReapOne(cfg, s, entries[0], now), entries[1..], now)
  }

  // ---------------------------------------------------------------- owner changes

  predicate OwnerMoved(oldOwner: string, newOwner: string) {
    oldOwner != "" && newOwner != "" && oldOwner != newOwner
  }

  function OwnerChange(s: State, entity: int, oldOwner: string, newOwner: string, fallback: Target): State {
    if !OwnerMoved(oldOwner, newOwner) || !(0 <= entity < |s.players|) then s
    else
      var p := s.players[entity];
      if !p.registered || !p.spawned then s
      else
        var target := if p.lastWorld.Some? then p.lastWorld.value else fallback;
        var t := s.(counters := s.counters.(ownerResends := s.counters.ownerResends + 1));
        if p.inFlight.Some? then t.(players := s.players[entity := p.(queued := Some(target))])
        else t.(timers := s.timers + [Send(entity, target)])
  }

  // ---------------------------------------------------------------- events

  datatype Event =
    | Connect
    | Spawned(player: nat)
    | Input(player: nat, target: Target, now: int)
    | Responded(id: int, success: bool, retryReason: bool)
    | Reap(now: int)
    | OwnerChanged(entity: int, oldOwner: string, newOwner: string, fallback: Target)
    | Fire(timer: nat, now: int)
    | Disconnect(player: nat)
    | EntityAdded(entity: int)
    | EntityRemoved(entity: int)

  function FireTimer(s: State, k: nat, now: int): State
    requires k < |s.timers| && s.timers[k].player < |s.players|
  {
    var t := s.(timers := s.timers[..k] + s.timers[k + 1..]);
    match s.timers[k]
    case Flush(i, attempt) => FlushQueued(t, i, attempt, now)
    case Send(i, target) => SendTarget(t, i, target, 0, now)
  }

  /** The event can happen: sockets and timers that exist. */
  predicate Enabled(s: State, e: Event) {
    match e
    case Spawned(i) => i < |s.players|
    case Input(i, _, _) => i < |s.players| && s.players[i].registered
    case Fire(k, _) => k < |s.timers|
    case Disconnect(i) => i < |s.players| && s.players[i].registered
    case _ => true
  }

  /** Every timer and pending command belongs to a connection. */
  predicate WellFormed(s: State) {
    && (forall p :: p in s.pending ==> p.player < |s.players|)
    && (forall t :: t in s.timers ==> t.player < |s.players|)
  }

  function Step(cfg: Config, s: State, e: Event): State
    requires WellFormed(s) && Enabled(s, e)
  {
    match e
    case Connect => s.(players := s.players + [Player(true, false, None, None, None)])
    case Spawned(i) => s.(players := s.players[i := s.players[i].(spawned := true)])
    case Input(i, target, now) => SendTarget(s, i, target, 0, now)
    case Responded(id, success, retryReason) => Response(s, id, success, retryReason)
    case Reap(now) => ReapAll(cfg, s, s.pending, now)
    case OwnerChanged(entity, oldOwner, newOwner, fallback) => OwnerChange(s, entity, oldOwner, newOwner, fallback)
    case Fire(k, now) => FireTimer(s, k, now)
    case Disconnect(i) => s.(players := s.players[i := s.players[i].(registered := false)])
    case EntityAdded(x) => s.(entities := s.entities + {x})
    case EntityRemoved(x) => s.(entities := s.entities - {x})
  }
}
