/** Retries die out: without new input the protocol sends only boundedly many further commands. */
module CommandBound {
  import opened Wrappers
  import opened Commands
  import opened CommandInvariants

  // ---------------------------------------------------------------- the measure

  /** Sends a pending command can still cause through its own retries. */
  function PendingWeight(k: nat, p: Pending): nat { if p.attempt < k then k - p.attempt else 0 }

  function TimerWeight(k: nat, t: Timer): nat {
    match t
    case Flush(_, attempt) => 1 + if attempt < k then k - attempt else 0
    case Send(_, _) => 2 * k + 2
  }

  /** A target queued behind a command in flight starts a fresh chain when that command succeeds. */
  function PlayerWeight(k: nat, p: Player): nat { if p.inFlight.Some? && p.queued.Some? then k + 1 else 0 }

  function PendingWork(k: nat, ps: seq<Pending>): nat {
    if ps == [] then 0 else PendingWeight(k, ps[0]) + PendingWork(k, ps[1..])
  }

  function TimerWork(k: nat, ts: seq<Timer>): nat {
    if ts == [] then 0 else TimerWeight(k, ts[0]) + TimerWork(k, ts[1..])
  }

  function PlayerWork(k: nat, ps: seq<Player>): nat {
    if ps == [] then 0 else PlayerWeight(k, ps[0]) + PlayerWork(k, ps[1..])
  }

  /** How many commands may still be sent if no player moves and no entity changes owner. */
  function Potential(cfg: Config, s: State): nat {
    var k := MaxAttempt(cfg);
    PendingWork(k, s.pending) + TimerWork(k, s.timers) + PlayerWork(k, s.players)
  }

  // ---------------------------------------------------------------- sums

  lemma {:induction false} PendingAppend(k: nat, ps: seq<Pending>, p: Pending)
    ensures PendingWork(k, ps + [p]) == PendingWork(k, ps) + PendingWeight(k, p)
  {
    if ps == [] {
      assert [] + [p] == [p];
    } else {
      assert (ps + [p])[1..] == ps[1..] + [p];
      PendingAppend(k, ps[1..], p);
    }
  }

  lemma {:induction false} PendingRemove(k: nat, ps: seq<Pending>, id: int)
    ensures Lookup(ps, id).Some? ==>
              PendingWork(k, Without(ps, id)) + PendingWeight(k, Lookup(ps, id).value) == PendingWork(k, ps)
  {
    if ps != [] && ps[0].id != id {
      PendingRemove(k, ps[1..], id);
      if Lookup(ps, id).Some? {
        assert Without(ps, id)[1..] == Without(ps[1..], id);
      }
    }
  }

  lemma {:induction false} PendingDrop(k: nat, ps: seq<Pending>, n: nat)
    requires n <= |ps|
    ensures PendingWork(k, ps[n..]) <= PendingWork(k, ps)
  {
    if n > 0 {
      PendingDrop(k, ps[1..], n - 1);
      assert ps[1..][n - 1..] == ps[n..];
    } else {
      assert ps[0..] == ps;
    }
  }

  lemma {:induction false} TimerAppend(k: nat, ts: seq<Timer>, t: Timer)
    ensures TimerWork(k, ts + [t]) == TimerWork(k, ts) + TimerWeight(k, t)
  {
    if ts == [] {
      assert [] + [t] == [t];
    } else {
      assert (ts + [t])[1..] == ts[1..] + [t];
      TimerAppend(k, ts[1..], t);
    }
  }

  lemma {:induction false} TimerRemove(k: nat, ts: seq<Timer>, i: nat)
    requires i < |ts|
    ensures TimerWork(k, ts[..i] + ts[i + 1..]) + TimerWeight(k, ts[i]) == TimerWork(k, ts)
  {
    if i == 0 {
      assert ts[..0] + ts[1..] == ts[1..];
    } else {
      TimerRemove(k, ts[1..], i - 1);
      assert (ts[..i] + ts[i + 1..])[1..] == ts[1..][..i - 1] + ts[1..][i..];
    }
  }

  lemma {:induction false} PlayerUpdate(k: nat, ps: seq<Player>, i: nat, p: Player)
    requires i < |ps|
    ensures PlayerWork(k, ps[i := p]) + PlayerWeight(k, ps[i]) == PlayerWork(k, ps) + PlayerWeight(k, p)
  {
    if i == 0 {
      assert ps[0 := p][1..] == ps[1..];
    } else {
      PlayerUpdate(k, ps[1..], i - 1, p);
      assert ps[i := p][1..] == ps[1..][i - 1 := p];
    }
  }

  lemma {:induction false} PlayerAppend(k: nat, ps: seq<Player>, p: Player)
    ensures PlayerWork(k, ps + [p]) == PlayerWork(k, ps) + PlayerWeight(k, p)
  {
    if ps == [] {
      assert [] + [p] == [p];
    } else {
      assert (ps + [p])[1..] == ps[1..] + [p];
      PlayerAppend(k, ps[1..], p);
    }
  }

  // ---------------------------------------------------------------- one event

  /** Commands sent so far plus commands that may still be sent. */
  function Total(cfg: Config, s: State): nat { s.requestSeq + Potential(cfg, s) }

  lemma {:induction false} SendCost(cfg: Config, s: State, i: nat, target: Target, attempt: nat, now: int)
    requires i < |s.players| && attempt <= MaxAttempt(cfg)
    ensures var k, p := MaxAttempt(cfg), s.players[i];
            Total(cfg, SendTarget(s, i, target, attempt, now)) <= Total(cfg, s)
            + if p.inFlight.Some? then k + 1 else (k + 1 - attempt) + (if p.queued.Some? then k + 1 else 0)
  {
    var k := MaxAttempt(cfg);
    var t := SendTarget(s, i, target, attempt, now);
    hide MaxAttempt, PendingWork, TimerWork, PlayerWork;
    if CanSend(s, i) {
      PlayerUpdate(k, s.players, i, t.players[i]);
      PendingAppend(k, s.pending, Pending(s.requestSeq, i, target, attempt, now));
    }
  }

  lemma {:induction false} FireCost(cfg: Config, s: State, n: nat, now: int)
    requires Inv(cfg, s) && n < |s.timers|
    ensures s.timers[n].player < |s.players| && Total(cfg, FireTimer(s, n, now)) <= Total(cfg, s)
  {
    var k := MaxAttempt(cfg);
    assert s.timers[n] in s.timers;
    hide Inv, MaxAttempt, PendingWork, TimerWork, PlayerWork, SendTarget;
    var t := s.(timers := s.timers[..n] + s.timers[n + 1..]);
    TimerRemove(k, s.timers, n);
    match s.timers[n]
    case Flush(i, attempt) =>
      var p := t.players[i];
      if p.queued.Some? && p.inFlight.None? {
        var u := t.(players := t.players[i := p.(queued := None)]);
        PlayerUpdate(k, t.players, i, p.(queued := None));
        SendCost(cfg, u, i, p.queued.value, attempt, now);
      }
    case Send(i, target) => SendCost(cfg, t, i, target, 0, now);
  }

  /** Settling a command pays for the timer that may follow it. */
  lemma {:induction false} SettleCost(cfg: Config, s: State, entry: Pending, r: State)
    requires PendingOwned(cfg, s) && entry in s.pending && Lookup(s.pending, entry.id) == Some(entry)
    requires r.pending == Without(s.pending, entry.id) && r.requestSeq == s.requestSeq
    requires |r.players| == |s.players| && r.players == s.players[entry.player := r.players[entry.player]]
    requires var k, p, q := MaxAttempt(cfg), s.players[entry.player], r.players[entry.player];
             || (r.timers == s.timers && PlayerWeight(k, q) <= PlayerWeight(k, p))
             || (r.timers == s.timers + [Flush(entry.player, entry.attempt + 1)]
                 && entry.attempt < k && q.inFlight.None?)
             || (r.timers == s.timers + [Flush(entry.player, 0)] && q.inFlight.None? && p.queued.Some?)
    ensures Total(cfg, r) <= Total(cfg, s)
  {
    var k := MaxAttempt(cfg);
    hide MaxAttempt, PendingWork, TimerWork, PlayerWork, Without, Lookup;
    PendingRemove(k, s.pending, entry.id);
    PlayerUpdate(k, s.players, entry.player, r.players[entry.player]);
    TimerAppend(k, s.timers, Flush(entry.player, entry.attempt + 1));
    TimerAppend(k, s.timers, Flush(entry.player, 0));
  }

  lemma {:induction false} LookupFinds(ps: seq<Pending>, p: Pending)
    requires Increasing(ps) && p in ps
    ensures Lookup(ps, p.id) == Some(p)
  {
    SameId(ps, p, Lookup(ps, p.id).value);
  }

  lemma {:induction false} RespondCost(cfg: Config, s: State, id: int, success: bool, retryReason: bool)
    requires Inv(cfg, s)
    ensures WellFormed(s) && Total(cfg, Respond(s, id, success, retryReason)) <= Total(cfg, s)
  {
    InvWellFormed(cfg, s);
    var r := Respond(s, id, success, retryReason);
    var found := Lookup(s.pending, id);
    if found.Some? {
      hide WellFormed, Total, Accounted, Without, Lookup;
      SettleCost(cfg, s, found.value, r);
    } else {
      hide PendingWork, TimerWork, PlayerWork;
    }
  }

  lemma {:induction false} EvictCost(cfg: Config, s: State)
    ensures Total(cfg, Evict(s)) <= Total(cfg, s)
  {
    hide PendingWork, TimerWork, PlayerWork, MaxAttempt;
    PendingDrop(MaxAttempt(cfg), s.pending, Overflow(s.pending));
  }

  lemma {:induction false} ReapOneCost(cfg: Config, s: State, entry: Pending, now: int)
    requires Inv(cfg, s) && entry in s.pending && entry.player < |s.players|
    ensures Total(cfg, ReapOne(cfg, s, entry, now)) <= Total(cfg, s)
  {
    if now - entry.sentAt >= cfg.ackTimeout {
      LookupFinds(s.pending, entry);
      hide WellFormed, Total, Accounted, Without, Lookup;
      SettleCost(cfg, s, entry, ReapOne(cfg, s, entry, now));
    }
  }

  lemma {:induction false} ReapAllCost(cfg: Config, s: State, entries: seq<Pending>, now: int)
    requires Inv(cfg, s) && Increasing(entries) && forall e :: e in entries ==> e in s.pending
    ensures (forall e :: e in entries ==> e.player < |s.players|)
      && Total(cfg, ReapAll(cfg, s, entries, now)) <= Total(cfg, s)
    decreases |entries|
  {
    InvWellFormed(cfg, s);
    if entries != [] {
      hide Total, ReapOne, Inv;
      ReapOneInv(cfg, s, entries[0], now);
      ReapOneCost(cfg, s, entries[0], now);
      RestPending(cfg, s, entries, now);
      ReapAllCost(cfg, ReapOne(cfg, s, entries[0], now), entries[1..], now);
    }
  }

  /** No new target comes from outside. */
  predicate Quiet(e: Event) { !e.Input? && !e.OwnerChanged? }

  lemma {:induction false} StepCost(cfg: Config, s: State, e: Event)
    requires Inv(cfg, s) && Quiet(e)
    ensures Total(cfg, Next(cfg, s, e)) <= Total(cfg, s)
  {
    InvWellFormed(cfg, s);
    if Enabled(s, e) {
      var k := MaxAttempt(cfg);
      match e {
        case Responded(id, success, retryReason) =>
          hide Total, Inv, Respond, Evict;
          RespondCost(cfg, s, id, success, retryReason);
          EvictCost(cfg, Respond(s, id, success, retryReason));
        case Reap(now) =>
          hide Total, ReapAll;
          ReapAllCost(cfg, s, s.pending, now);
        case Fire(n, now) =>
          hide Total, FireTimer, Inv;
          FireCost(cfg, s, n, now);
        case Connect =>
          hide Inv, PendingWork, TimerWork, PlayerWork;
          PlayerAppend(k, s.players, Player(true, false, None, None, None));
        case Spawned(i) =>
          hide Inv, PendingWork, TimerWork, PlayerWork;
          PlayerUpdate(k, s.players, i, s.players[i].(spawned := true));
        case Disconnect(i) =>
          hide Inv, PendingWork, TimerWork, PlayerWork;
          PlayerUpdate(k, s.players, i, s.players[i].(registered := false));
        case _ => hide Inv;
      }
    }
  }

  /** Without new player input and owner changes, every interleaving of responses, sweeps, timers,
      connects and disconnects sends at most Potential further commands. */
  lemma {:induction false} RetriesAreBounded(cfg: Config, s: State, es: seq<Event>)
    requires Inv(cfg, s) && forall e :: e in es ==> Quiet(e)
    ensures Total(cfg, Run(cfg, s, es)) <= Total(cfg, s)
    ensures Run(cfg, s, es).requestSeq <= s.requestSeq + Potential(cfg, s)
    decreases |es|
  {
    hide Potential, Inv, Next;
    if es != [] {
      StepCost(cfg, s, es[0]);
      RetriesAreBounded(cfg, Next(cfg, s, es[0]), es[1..]);
    }
  }

  /** No pending command of a reachable state is past the last attempt. */
  lemma {:induction false} AttemptsBounded(cfg: Config, es: seq<Event>, p: Pending)
    requires p in Reached(cfg, es).pending
    ensures p.attempt <= MaxAttempt(cfg)
  {
    hide Run;
    assert PendingOwned(cfg, Reached(cfg, es));
  }
}
