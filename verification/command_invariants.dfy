/** What every reachable state of the command protocol satisfies. */
module CommandInvariants {
  import opened Wrappers
  import opened Commands

  // ---------------------------------------------------------------- the invariant

  /** No retry chain goes past this attempt number. */
  function MaxAttempt(cfg: Config): nat { if cfg.maxAttempts - 1 > 2 then cfg.maxAttempts - 1 else 2 }

  ghost predicate Increasing(ps: seq<Pending>) {
    forall i, j :: 0 <= i < j < |ps| ==> ps[i].id < ps[j].id
  }

  /** A pending command is the one its player has in flight. */
  ghost predicate PendingOwned(cfg: Config, s: State) {
    forall p :: p in s.pending ==>
      && p.player < |s.players| && s.players[p.player].inFlight == Some(p.id)
      && p.attempt <= MaxAttempt(cfg) && 0 <= p.id < s.requestSeq
  }

  /** An in-flight id belongs to one player; for a connected player it is pending or was evicted. */
  ghost predicate FlightOwned(s: State) {
    forall i :: 0 <= i < |s.players| && s.players[i].inFlight.Some? ==>
      var x := s.players[i].inFlight.value;
      && 0 <= x < s.requestSeq
      && (forall p :: p in s.pending && p.id == x ==> p.player == i)
      && (s.players[i].registered ==> x in Ids(s.pending) || x in s.evicted)
  }

  ghost predicate TimersOwned(cfg: Config, s: State) {
    forall t :: t in s.timers ==> t.player < |s.players| && (t.Flush? ==> t.attempt <= MaxAttempt(cfg))
  }

  function Issued(n: nat): (r: set<int>)
    ensures forall x :: x in r <==> 0 <= x < n
  {
    if n == 0 then {} else Issued(n - 1) + {n - 1}
  }

  /** Every issued id is exactly one of pending, answered, timed out or evicted. */
  ghost predicate Accounted(s: State) {
    && s.answered + s.timedOut + s.evicted + Ids(s.pending) == Issued(s.requestSeq)
    && s.answered !! s.timedOut !! s.evicted !! Ids(s.pending)
  }

  /** The part of the invariant about the tables the program itself keeps. */
  ghost predicate Tables(cfg: Config, s: State) {
    Increasing(s.pending) && PendingOwned(cfg, s) && FlightOwned(s) && TimersOwned(cfg, s)
  }

  ghost predicate Inv(cfg: Config, s: State) {
    Tables(cfg, s) && Accounted(s)
  }

  // ---------------------------------------------------------------- the pending map

  lemma {:induction false} WithoutMembers(ps: seq<Pending>, id: int)
    requires Increasing(ps)
    ensures forall p :: p in Without(ps, id) <==> p in ps && p.id != id
  {
    if ps != [] {
      assert ps == [ps[0]] + ps[1..];
      assert forall p :: p in ps[1..] ==> p.id > ps[0].id;
      WithoutMembers(ps[1..], id);
    }
  }

  lemma {:induction false} WithoutIncreasing(ps: seq<Pending>, id: int)
    requires Increasing(ps)
    ensures Increasing(Without(ps, id))
  {
    if ps != [] && ps[0].id != id {
      WithoutIncreasing(ps[1..], id);
      WithoutMembers(ps[1..], id);
      var rest := Without(ps[1..], id);
      assert forall k :: 0 <= k < |rest| ==> rest[k] in rest && rest[k] in ps[1..];
    }
  }

  lemma {:induction false} WithoutFacts(ps: seq<Pending>, id: int)
    requires Increasing(ps)
    ensures Increasing(Without(ps, id)) && Ids(Without(ps, id)) == Ids(ps) - {id}
    ensures forall p :: p in Without(ps, id) <==> p in ps && p.id != id
  {
    WithoutMembers(ps, id);
    WithoutIncreasing(ps, id);
  }

  lemma {:induction false} IdsIn(ps: seq<Pending>, p: Pending)
    requires p in ps
    ensures p.id in Ids(ps)
  {}

  lemma {:induction false} SameId(ps: seq<Pending>, p: Pending, q: Pending)
    requires Increasing(ps) && p in ps && q in ps && p.id == q.id
    ensures p == q
  {}

  // ---------------------------------------------------------------- preservation

  lemma {:induction false} IdsAppend(ps: seq<Pending>, p: Pending)
    ensures Ids(ps + [p]) == Ids(ps) + {p.id}
  {
    assert p in ps + [p];
    assert forall q :: q in ps + [p] <==> q in ps || q == p;
  }

  lemma {:induction false} AccountedNew(s: State, t: State)
    requires Accounted(s) && t.requestSeq == s.requestSeq + 1 && Ids(t.pending) == Ids(s.pending) + {s.requestSeq}
    requires t.answered == s.answered && t.timedOut == s.timedOut && t.evicted == s.evicted
    ensures Accounted(t)
  {
    assert s.requestSeq !in Issued(s.requestSeq);
  }

  /** A new command: fresh id, in flight for its player, last in the pending map. */
  lemma {:induction false} NewCommandTables(cfg: Config, s: State, i: nat, p: Player, target: Target, attempt: nat,
                                            now: int)
    requires Tables(cfg, s) && i < |s.players| && attempt <= MaxAttempt(cfg) && s.players[i].inFlight.None?
    requires p.inFlight == Some(s.requestSeq) && p.registered == s.players[i].registered
    ensures Tables(cfg, s.(players := s.players[i := p],
                           pending := s.pending + [Pending(s.requestSeq, i, target, attempt, now)],
                           requestSeq := s.requestSeq + 1))
  {
    var q := Pending(s.requestSeq, i, target, attempt, now);
    IdsAppend(s.pending, q);
    assert forall x :: x in s.pending + [q] <==> x in s.pending || x == q;
  }

  lemma {:induction false} SendInv(cfg: Config, s: State, i: nat, target: Target, attempt: nat, now: int)
    requires Inv(cfg, s) && i < |s.players| && attempt <= MaxAttempt(cfg)
    ensures Inv(cfg, SendTarget(s, i, target, attempt, now))
  {
    var t := SendTarget(s, i, target, attempt, now);
    if CanSend(s, i) && s.players[i].inFlight.None? {
      hide Tables, Accounted, Ids, MaxAttempt;
      NewCommandTables(cfg, s, i, t.players[i], target, attempt, now);
      IdsAppend(s.pending, Pending(s.requestSeq, i, target, attempt, now));
      AccountedNew(s, t);
    } else {
      assert Ids(t.pending) == Ids(s.pending);
    }
  }

  lemma {:induction false} FlushInv(cfg: Config, s: State, i: nat, attempt: nat, now: int)
    requires Inv(cfg, s) && i < |s.players| && attempt <= MaxAttempt(cfg)
    ensures Inv(cfg, FlushQueued(s, i, attempt, now))
  {
    var p := s.players[i];
    if p.queued.Some? && p.inFlight.None? {
      var t := s.(players := s.players[i := p.(queued := None)]);
      assert Inv(cfg, t);
      SendInv(cfg, t, i, p.queued.value, attempt, now);
    }
  }

  /** Taking one command out of the pending map, with its player released when still connected. */
  function Settle(s: State, entry: Pending): State
    requires entry.player < |s.players|
  {
    var p := s.players[entry.player];
    s.(pending := Without(s.pending, entry.id),
       players := s.players[entry.player := if p.registered then Release(p, entry.id) else p])
  }

  lemma {:induction false} SettleTables(cfg: Config, s: State, entry: Pending)
    requires Tables(cfg, s) && entry in s.pending
    ensures Tables(cfg, Settle(s, entry))
    ensures Ids(Settle(s, entry).pending) == Ids(s.pending) - {entry.id} && entry.id in Ids(s.pending)
  {
    WithoutFacts(s.pending, entry.id);
    IdsIn(s.pending, entry);
    var t := Settle(s, entry);
    forall p | p in t.pending
      ensures p.player < |t.players| && t.players[p.player].inFlight == Some(p.id)
    {
      assert p in s.pending && p.id != entry.id;
    }
  }

  /** Players and timers may gain queued targets and flush timers without touching what is in flight. */
  lemma {:induction false} QueueTables(cfg: Config, s: State, i: nat, queued: Option<Target>, timers: seq<Timer>)
    requires Tables(cfg, s) && i < |s.players|
    requires forall t :: t in timers ==> t.player < |s.players| && (t.Flush? ==> t.attempt <= MaxAttempt(cfg))
    ensures Tables(cfg, s.(players := s.players[i := s.players[i].(queued := queued)], timers := timers))
  {}

  ghost predicate SameTables(s: State, t: State) {
    && s.players == t.players && s.pending == t.pending && s.timers == t.timers
    && s.requestSeq == t.requestSeq && s.evicted == t.evicted
  }

  lemma {:induction false} TablesFrame(cfg: Config, s: State, t: State)
    requires Tables(cfg, s) && SameTables(s, t)
    ensures Tables(cfg, t)
  {}

  lemma {:induction false} AccountedMove(s: State, t: State, id: int)
    requires Accounted(s) && id in Ids(s.pending) && Ids(t.pending) == Ids(s.pending) - {id}
    requires t.requestSeq == s.requestSeq && t.evicted == s.evicted
    requires || (t.answered == s.answered + {id} && t.timedOut == s.timedOut)
             || (t.answered == s.answered && t.timedOut == s.timedOut + {id})
    ensures Accounted(t)
  {}

  /** One pending command is settled as answered or timed out, and its player's queue and timers change. */
  lemma {:induction false} SettledInv(cfg: Config, s: State, entry: Pending, r: State)
    requires Inv(cfg, s) && entry in s.pending && entry.player < |s.players| == |r.players|
    requires var t := Settle(s, entry);
             && r.pending == t.pending && r.requestSeq == s.requestSeq && r.evicted == s.evicted
             && r.players
               == t.players[entry.player := t.players[entry.player].(queued := r.players[entry.player].queued)]
    requires forall x :: x in r.timers ==> x.player < |s.players| && (x.Flush? ==> x.attempt <= MaxAttempt(cfg))
    requires || (r.answered == s.answered + {entry.id} && r.timedOut == s.timedOut)
             || (r.answered == s.answered && r.timedOut == s.timedOut + {entry.id})
    ensures Inv(cfg, r)
  {
    SettleTables(cfg, s, entry);
    var t := Settle(s, entry);
    var i := entry.player;
    hide Tables, Accounted, Ids, MaxAttempt;
    QueueTables(cfg, t, i, r.players[i].queued, r.timers);
    TablesFrame(cfg, t.(players := t.players[i := t.players[i].(queued := r.players[i].queued)], timers := r.timers),
                r);
    AccountedMove(s, r, entry.id);
  }

  lemma {:induction false} PendingPlayer(cfg: Config, s: State, entry: Pending)
    requires Tables(cfg, s) && entry in s.pending
    ensures entry.player < |s.players| && s.players[entry.player].inFlight == Some(entry.id)
    ensures entry.attempt <= MaxAttempt(cfg)
    ensures forall x :: x in s.timers ==> x.player < |s.players| && (x.Flush? ==> x.attempt <= MaxAttempt(cfg))
  {}

  lemma {:induction false} RespondInv(cfg: Config, s: State, id: int, success: bool, retryReason: bool)
    requires Inv(cfg, s)
    ensures WellFormed(s) && Inv(cfg, Respond(s, id, success, retryReason))
  {
    InvWellFormed(cfg, s);
    var r := Respond(s, id, success, retryReason);
    var found := Lookup(s.pending, id);
    if found.Some? {
      PendingPlayer(cfg, s, found.value);
      hide Tables, Accounted, Ids, WellFormed;
      SettledInv(cfg, s, found.value, r);
    } else {
      hide Tables, Ids;
      TablesFrame(cfg, s, r);
    }
  }

  lemma {:induction false} EvictInv(cfg: Config, s: State)
    requires Inv(cfg, s)
    ensures Inv(cfg, Evict(s))
  {
    var t := Evict(s);
    var k := Overflow(s.pending);
    assert s.pending == s.pending[..k] + s.pending[k..];
    assert Ids(s.pending) == Ids(s.pending[..k]) + Ids(s.pending[k..]);
    assert Ids(s.pending[..k]) !! Ids(s.pending[k..]);
    assert Accounted(t);
  }

  lemma {:induction false} ReapOneInv(cfg: Config, s: State, entry: Pending, now: int)
    requires Inv(cfg, s) && entry in s.pending
    ensures entry.player < |s.players| && Inv(cfg, ReapOne(cfg, s, entry, now))
    ensures |ReapOne(cfg, s, entry, now).players| == |s.players|
  {
    PendingPlayer(cfg, s, entry);
    if now - entry.sentAt >= cfg.ackTimeout {
      hide Tables, Accounted, Ids;
      SettledInv(cfg, s, entry, ReapOne(cfg, s, entry, now));
    }
  }

  lemma {:induction false} ReapOneKeepsOthers(cfg: Config, s: State, entry: Pending, now: int, p: Pending)
    requires Inv(cfg, s) && entry in s.pending && entry.player < |s.players| && p in s.pending && p.id != entry.id
    ensures p in ReapOne(cfg, s, entry, now).pending
  {
    WithoutMembers(s.pending, entry.id);
  }

  /** The entries still to be swept stay pending. */
  lemma {:induction false} RestPending(cfg: Config, s: State, entries: seq<Pending>, now: int)
    requires Inv(cfg, s) && Increasing(entries) && entries != [] && forall e :: e in entries ==> e in s.pending
    ensures entries[0].player < |s.players| && Increasing(entries[1..])
    ensures forall e :: e in entries[1..] ==> e in ReapOne(cfg, s, entries[0], now).pending
  {
    ReapOneInv(cfg, s, entries[0], now);
    forall e | e in entries[1..]
      ensures e in ReapOne(cfg, s, entries[0], now).pending
    {
      assert e in entries && e.id > entries[0].id;
      ReapOneKeepsOthers(cfg, s, entries[0], now, e);
    }
  }

  lemma {:induction false} ReapAllInv(cfg: Config, s: State, entries: seq<Pending>, now: int)
    requires Inv(cfg, s) && Increasing(entries) && forall e :: e in entries ==> e in s.pending
    ensures WellFormed(s) && (forall e :: e in entries ==> e.player < |s.players|)
    ensures Inv(cfg, ReapAll(cfg, s, entries, now))
    decreases |entries|
  {
    InvWellFormed(cfg, s);
    if entries != [] {
      ReapOneInv(cfg, s, entries[0], now);
      RestPending(cfg, s, entries, now);
      hide Inv, ReapOne;
      ReapAllInv(cfg, ReapOne(cfg, s, entries[0], now), entries[1..], now);
    }
  }

  lemma {:induction false} FireInv(cfg: Config, s: State, k: nat, now: int)
    requires Inv(cfg, s) && k < |s.timers|
    ensures s.timers[k].player < |s.players| && Inv(cfg, FireTimer(s, k, now))
  {
    var t := s.(timers := s.timers[..k] + s.timers[k + 1..]);
    assert s.timers[k] in s.timers;
    assert forall x :: x in t.timers ==> x in s.timers;
    assert Inv(cfg, t);
    match s.timers[k]
    case Flush(i, attempt) => FlushInv(cfg, t, i, attempt, now);
    case Send(i, target) => SendInv(cfg, t, i, target, 0, now);
  }

  lemma {:induction false} OwnerInv(cfg: Config, s: State, entity: int, oldOwner: string, newOwner: string,
                                    fallback: Target)
    requires Inv(cfg, s)
    ensures Inv(cfg, OwnerChange(s, entity, oldOwner, newOwner, fallback))
  {
    var t := OwnerChange(s, entity, oldOwner, newOwner, fallback);
    assert Ids(t.pending) == Ids(s.pending);
  }

  lemma {:induction false} InvWellFormed(cfg: Config, s: State)
    requires Inv(cfg, s)
    ensures WellFormed(s)
  {}

  lemma {:induction false} StepInv(cfg: Config, s: State, e: Event)
    requires Inv(cfg, s) && Enabled(s, e)
    ensures WellFormed(s) && Inv(cfg, Step(cfg, s, e))
  {
    InvWellFormed(cfg, s);
    var t := Step(cfg, s, e);
    match e {
      case Input(i, target, now) => SendInv(cfg, s, i, target, 0, now);
      case Responded(id, success, retryReason) =>
        RespondInv(cfg, s, id, success, retryReason);
        EvictInv(cfg, Respond(s, id, success, retryReason));
      case Reap(now) => ReapAllInv(cfg, s, s.pending, now);
      case OwnerChanged(entity, oldOwner, newOwner, fallback) => OwnerInv(cfg, s, entity, oldOwner, newOwner, fallback);
      case Fire(k, now) => FireInv(cfg, s, k, now);
      case Connect => assert Ids(t.pending) == Ids(s.pending);
      case Spawned(_) => assert Ids(t.pending) == Ids(s.pending);
      case Disconnect(_) => assert Ids(t.pending) == Ids(s.pending);
      case _ =>
    }
  }

  lemma {:induction false} InitInv(cfg: Config)
    ensures Inv(cfg, INIT)
  {
  }

  // ---------------------------------------------------------------- runs

  /** Events that cannot happen in a state are passed over. */
  function Next(cfg: Config, s: State, e: Event): (t: State)
    requires Inv(cfg, s)
    ensures Inv(cfg, t)
  {
    InvWellFormed(cfg, s);
    if Enabled(s, e) then StepInv(cfg, s, e); Step(cfg, s, e) else s
  }

  function Run(cfg: Config, s: State, es: seq<Event>): (t: State)
    requires Inv(cfg, s)
    ensures Inv(cfg, t)
    decreases |es|
  {
    if es == [] then s else Run(cfg, Next(cfg, s, es[0]), es[1..])
  }

  function Reached(cfg: Config, es: seq<Event>): State {
    InitInv(cfg);
    Run(cfg, INIT, es)
  }
}
