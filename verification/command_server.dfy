/** The server object of examples/agar_mit_clone/gw_authoritative_server.js: its maps, counters and
    timers updated in place, each handler proved to take the step of the state machine. */
module CommandServer {
  import opened Wrappers
  import opened Commands
  import opened CommandInvariants
  import Text

  /** Reject reasons that are worth another attempt. */
  predicate IsRetryableCommandReject(reason: string) {
    var text := Text.Lower(reason);
    || Text.Contains(text, "stale command authority")
    || Text.Contains(text, "no authoritative worker")
    || Text.Contains(text, "entity not owned")
  }

  /** What a response to a pending command changes, apart from the books of responses. */
  ghost predicate Answered(s: State, entry: Pending, success: bool, retryReason: bool, t: State)
    requires entry.player < |s.players|
  {
    var i := entry.player;
    var p := if s.players[i].registered then Release(s.players[i], entry.id) else s.players[i];
    var retry := !success && RejectRetryable(s, entry, retryReason);
    t == s.(
      pending := Without(s.pending, entry.id),
      players := s.players[i := if retry then p.(queued := Some(entry.target)) else p],
      timers := if retry then s.timers + [Flush(i, entry.attempt + 1)]
                else if success && p.registered && p.queued.Some? then s.timers + [Flush(i, 0)]
                else s.timers,
      counters := s.counters.(
        transientRejects := s.counters.transientRejects + (if retry then 1 else 0),
        rejects := s.counters.rejects + (if !success && !retry then 1 else 0)))
  }

  class Server {
    const cfg: Config
    var players: seq<Player>
    var pendingCommands: seq<Pending>
    var timers: seq<Timer>
    var entities: set<int>
    var requestSeq: nat
    var commandResponses: nat
    var commandRejects: nat
    var commandTransientRejects: nat
    var commandTimeouts: nat
    var commandTimeoutRetries: nat
    var ownerChangeResends: nat
    ghost var answered: set<int>
    ghost var timedOut: set<int>
    ghost var evicted: set<int>

    ghost function View(): State
      reads this
    {
      State(players, pendingCommands, timers, entities, requestSeq,
            Counters(commandResponses, commandRejects, commandTransientRejects,
                     commandTimeouts, commandTimeoutRetries, ownerChangeResends),
            answered, timedOut, evicted)
    }

    ghost predicate Valid()
      reads this
    {
      Inv(cfg, View())
    }

    constructor (cfg: Config)
      ensures this.cfg == cfg && View() == INIT && Valid()
    {
      this.cfg := cfg;
      players, pendingCommands, timers, entities, requestSeq := [], [], [], {}, 0;
      commandResponses, commandRejects, commandTransientRejects := 0, 0, 0;
      commandTimeouts, commandTimeoutRetries, ownerChangeResends := 0, 0, 0;
      answered, timedOut, evicted := {}, {}, {};
      new;
      InitInv(cfg);
    }

    // ---------------------------------------------------------------- sending

    method SendTargetCommand(i: nat, worldTarget: Target, attempt: nat, now: int)
      requires i < |players|
      modifies this
      ensures View() == SendTarget(old(View()), i, worldTarget, attempt, now)
    {
      if !players[i].spawned || i !in entities {
        return;
      }
      players := players[i := players[i].(lastWorld := Some(worldTarget))];
      if players[i].inFlight.Some? {
        players := players[i := players[i].(queued := Some(worldTarget))];
        return;
      }
      var requestId := requestSeq;
      requestSeq := requestSeq + 1;
      players := players[i := players[i].(inFlight := Some(requestId))];
      pendingCommands := pendingCommands + [Pending(requestId, i, worldTarget, attempt, now)];
    }

    method FlushQueuedTarget(i: nat, attempt: nat, now: int)
      requires i < |players|
      modifies this
      ensures View() == FlushQueued(old(View()), i, attempt, now)
    {
      if players[i].queued.None? || players[i].inFlight.Some? {
        return;
      }
      var target := players[i].queued.value;
      players := players[i := players[i].(queued := None)];
      SendTargetCommand(i, target, attempt, now);
    }

    method OnPlayerInput(i: nat, worldTarget: Target, now: int)
      requires Valid() && i < |players| && players[i].registered
      modifies this
      ensures Valid() && View() == Step(cfg, old(View()), Input(i, worldTarget, now))
    {
      StepInv(cfg, View(), Input(i, worldTarget, now));
      SendTargetCommand(i, worldTarget, 0, now);
    }

    // ---------------------------------------------------------------- responses

    method ReleasePlayer(i: nat, id: int)
      requires i < |players|
      modifies this`players
      ensures players == old(players)[i := Release(old(players)[i], id)]
    {
      if players[i].inFlight == Some(id) {
        players := players[i := players[i].(inFlight := None)];
      }
    }

    /** A command that is no longer pending releases its connected player. */
    method Settle(entry: Pending)
      requires entry.player < |players|
      modifies this`pendingCommands, this`players
      ensures pendingCommands == Without(old(pendingCommands), entry.id)
      ensures var p := old(players)[entry.player];
        players == old(players)[entry.player := if p.registered then Release(p, entry.id) else p]
    {
      pendingCommands := Without(pendingCommands, entry.id);
      if players[entry.player].registered {
        ReleasePlayer(entry.player, entry.id);
      }
    }

    /** Queues the target again and starts the timer of the next attempt. */
    method ScheduleRetry(entry: Pending, target: Target)
      requires entry.player < |players|
      modifies this`players, this`timers
      ensures players == old(players)[entry.player := old(players)[entry.player].(queued := Some(target))]
      ensures timers == old(timers) + [Flush(entry.player, entry.attempt + 1)]
    {
      players := players[entry.player := players[entry.player].(queued := Some(target))];
      timers := timers + [Flush(entry.player, entry.attempt + 1)];
    }

    method HandleResponse(id: int, success: bool, reason: string)
      requires WellFormed(View())
      modifies this
      ensures View() == Respond(old(View()), id, success, IsRetryableCommandReject(reason))
    {
      commandResponses := commandResponses + 1;
      var pending := Lookup(pendingCommands, id);
      if pending.None? {
        WithoutAbsent(pendingCommands, id);
      }
      hide Lookup, Without, IsRetryableCommandReject, WellFormed, Answered, Respond;
      if pending.None? {
        if !success {
          commandRejects := commandRejects + 1;
        }
        RespondUnknown(old(View()), id, success, IsRetryableCommandReject(reason));
        return;
      }
      answered := answered + {id};
      ghost var s := View();
      HandleKnownResponse(pending.value, success, reason);
      RespondKnown(old(View()), pending.value, success, IsRetryableCommandReject(reason), s, View());
    }

    method HandleKnownResponse(entry: Pending, success: bool, reason: string)
      requires entry.player < |players|
      modifies this`pendingCommands, this`players, this`timers, this`commandRejects, this`commandTransientRejects
      ensures Answered(old(View()), entry, success, IsRetryableCommandReject(reason), View())
    {
      hide Without, IsRetryableCommandReject;
      Settle(entry);
      var i := entry.player;
      if !success {
        if IsRetryableCommandReject(reason) && entry.attempt < 2 && players[i].registered && players[i].spawned
          && i in entities {
          commandTransientRejects := commandTransientRejects + 1;
          ScheduleRetry(entry, entry.target);
        } else {
          commandRejects := commandRejects + 1;
        }
      } else if players[i].registered && players[i].queued.Some? {
        timers := timers + [Flush(i, 0)];
      }
    }

    method EvictOldest()
      modifies this`pendingCommands, this`evicted
      ensures View() == Evict(old(View()))
    {
      ghost var before := pendingCommands;
      ghost var k := 0;
      assert before[0..] == before && Ids(before[..0]) == {};
      while |pendingCommands| > MAX_PENDING
        invariant k <= Overflow(before)
        invariant pendingCommands == before[k..]
        invariant evicted == old(evicted) + Ids(before[..k])
        decreases |pendingCommands|
      {
        assert before[..k + 1] == before[..k] + [before[k]];
        IdsAppend(before[..k], before[k]);
        evicted := evicted + {pendingCommands[0].id};
        pendingCommands := pendingCommands[1..];
        k := k + 1;
      }
    }

    method HandleClientFrame(id: int, success: bool, reason: string)
      requires Valid()
      modifies this
      ensures Valid() && WellFormed(old(View()))
      ensures View() == Step(cfg, old(View()), Responded(id, success, IsRetryableCommandReject(reason)))
    {
      InvWellFormed(cfg, View());
      StepInv(cfg, View(), Responded(id, success, IsRetryableCommandReject(reason)));
      HandleResponse(id, success, reason);
      hide Inv, Respond, Evict;
      EvictOldest();
    }

    // ---------------------------------------------------------------- the timeout sweep

    method ReapCommand(entry: Pending, now: int)
      requires entry.player < |players|
      modifies this
      ensures View() == ReapOne(cfg, old(View()), entry, now)
    {
      hide Without;
      if now - entry.sentAt < cfg.ackTimeout {
        return;
      }
      Settle(entry);
      timedOut := timedOut + {entry.id};
      var i := entry.player;
      if players[i].registered && players[i].spawned && i in entities && entry.attempt + 1 < cfg.maxAttempts {
        commandTimeoutRetries := commandTimeoutRetries + 1;
        ScheduleRetry(entry, if players[i].queued.Some? then players[i].queued.value else entry.target);
      } else {
        commandTimeouts := commandTimeouts + 1;
      }
    }

    method ReapCommandTimeouts(now: int)
      requires Valid()
      modifies this
      ensures Valid() && WellFormed(old(View()))
      ensures View() == Step(cfg, old(View()), Reap(now))
    {
      StepInv(cfg, View(), Reap(now));
      hide Inv, ReapOne;
      var entries := pendingCommands;
      assert entries[0..] == entries;
      for n := 0 to |entries|
        invariant forall e :: e in entries ==> e.player < |players|
        invariant ReapAll(cfg, View(), entries[n..], now) == ReapAll(cfg, old(View()), entries, now)
      {
        assert entries[n..][1..] == entries[n + 1..];
        assert entries[n] in entries;
        ReapOnePlayers(cfg, View(), entries[n], now);
        ReapCommand(entries[n], now);
      }
      assert entries[|entries|..] == [];
    }

    // ---------------------------------------------------------------- owner changes and timers

    method MaybeResendTargetAfterOwnerChange(entity: int, oldOwner: string, newOwner: string, fallback: Target)
      requires Valid()
      modifies this
      ensures Valid() && WellFormed(old(View()))
      ensures View() == Step(cfg, old(View()), OwnerChanged(entity, oldOwner, newOwner, fallback))
    {
      StepInv(cfg, View(), OwnerChanged(entity, oldOwner, newOwner, fallback));
      hide Inv, WellFormed, OwnerChange;
      FollowOwner(entity, oldOwner, newOwner, fallback);
    }

    method FollowOwner(entity: int, oldOwner: string, newOwner: string, fallback: Target)
      modifies this
      ensures View() == OwnerChange(old(View()), entity, oldOwner, newOwner, fallback)
    {
      if oldOwner == "" || newOwner == "" || oldOwner == newOwner {
        return;
      }
      if 0 <= entity < |players| && players[entity].registered && players[entity].spawned {
        var last := players[entity].lastWorld;
        ResendTarget(entity, if last.Some? then last.value else fallback);
      }
    }

    method ResendTarget(i: nat, target: Target)
      requires i < |players|
      modifies this`players, this`timers, this`ownerChangeResends
      ensures ownerChangeResends == old(ownerChangeResends) + 1
      ensures
        var p := old(players)[i];
        if p.inFlight.Some? then timers == old(timers) && players == old(players)[i := p.(queued := Some(target))]
        else timers == old(timers) + [Send(i, target)] && players == old(players)
    {
      ownerChangeResends := ownerChangeResends + 1;
      if players[i].inFlight.Some? {
        players := players[i := players[i].(queued := Some(target))];
        return;
      }
      timers := timers + [Send(i, target)];
    }

    method RunTimer(k: nat, now: int)
      requires Valid() && k < |timers|
      modifies this
      ensures Valid() && WellFormed(old(View()))
      ensures View() == Step(cfg, old(View()), Fire(k, now))
    {
      StepInv(cfg, View(), Fire(k, now));
      hide Inv;
      var timer := timers[k];
      assert timer in timers;
      timers := timers[..k] + timers[k + 1..];
      match timer
      case Flush(i, attempt) => FlushQueuedTarget(i, attempt, now);
      case Send(i, target) => SendTargetCommand(i, target, 0, now);
    }

    // ---------------------------------------------------------------- connections and entities

    method OnConnection() returns (i: nat)
      requires Valid()
      modifies this
      ensures Valid() && WellFormed(old(View()))
      ensures View() == Step(cfg, old(View()), Connect) && i == |old(players)|
    {
      StepInv(cfg, View(), Connect);
      hide Inv;
      i := |players|;
      players := players + [Player(true, false, None, None, None)];
    }

    method OnSpawned(i: nat)
      requires Valid() && i < |players|
      modifies this
      ensures Valid() && WellFormed(old(View()))
      ensures View() == Step(cfg, old(View()), Spawned(i))
    {
      StepInv(cfg, View(), Spawned(i));
      hide Inv;
      players := players[i := players[i].(spawned := true)];
    }

    method OnDisconnect(i: nat)
      requires Valid() && i < |players| && players[i].registered
      modifies this
      ensures Valid() && WellFormed(old(View()))
      ensures View() == Step(cfg, old(View()), Disconnect(i))
    {
      StepInv(cfg, View(), Disconnect(i));
      hide Inv;
      players := players[i := players[i].(registered := false)];
    }

    method EnsureEntity(entity: int)
      requires Valid()
      modifies this
      ensures Valid() && WellFormed(old(View()))
      ensures View() == Step(cfg, old(View()), EntityAdded(entity))
    {
      StepInv(cfg, View(), EntityAdded(entity));
      hide Inv;
      entities := entities + {entity};
    }

    method RemoveEntity(entity: int)
      requires Valid()
      modifies this
      ensures Valid() && WellFormed(old(View()))
      ensures View() == Step(cfg, old(View()), EntityRemoved(entity))
    {
      StepInv(cfg, View(), EntityRemoved(entity));
      hide Inv;
      entities := entities - {entity};
    }
  }

  lemma {:induction false} RespondUnknown(s: State, id: int, success: bool, retryReason: bool)
    requires WellFormed(s) && Lookup(s.pending, id).None?
    ensures
      var c := s.counters.(responses := s.counters.responses + 1);
      Respond(s, id, success, retryReason) == s.(counters := if success then c else c.(rejects := c.rejects + 1))
  {}

  lemma {:induction false} RespondKnown(s: State, entry: Pending, success: bool, retryReason: bool, m: State, t: State)
    requires WellFormed(s) && Lookup(s.pending, entry.id) == Some(entry) && entry.player < |s.players|
    requires m
      == s.(counters := s.counters.(responses := s.counters.responses + 1), answered := s.answered + {entry.id})
    requires Answered(m, entry, success, retryReason, t)
    ensures t == Respond(s, entry.id, success, retryReason)
  {
    hide Without, Lookup;
  }

  lemma {:induction false} WithoutAbsent(ps: seq<Pending>, id: int)
    requires Lookup(ps, id).None?
    ensures Without(ps, id) == ps
  {
    if ps != [] {
      WithoutAbsent(ps[1..], id);
    }
  }

  lemma {:induction false} ReapOnePlayers(cfg: Config, s: State, entry: Pending, now: int)
    requires entry.player < |s.players|
    ensures |ReapOne(cfg, s, entry, now).players| == |s.players|
  {}
}
