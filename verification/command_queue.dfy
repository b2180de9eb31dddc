/** What becomes of the target queued behind a command: event by event, when it stays, is sent, is
    replaced, is dropped or is left with nothing to send it. */
module CommandQueue {
  import opened Wrappers
  import opened Commands
  import opened CommandInvariants
  import opened CommandTheorems

  // ---------------------------------------------------------------- responses and timeouts

  /** A response keeps a newer queued target unless it is a retryable reject of another target. */
  lemma {:induction false} ResponseKeepsQueueIff(cfg: Config, s: State, id: int, success: bool, retryReason: bool,
                                                 q: Target)
    requires Inv(cfg, s) && WellFormed(s) && Lookup(s.pending, id).Some?
    requires var i := Lookup(s.pending, id).value.player; s.players[i].registered && s.players[i].queued == Some(q)
    ensures var entry := Lookup(s.pending, id).value;
            Response(s, id, success, retryReason).players[entry.player].queued == Some(q)
            <==> success || !RejectRetryable(s, entry, retryReason) || entry.target == q
  {}

  /** The timeout sweep never loses a queued target. */
  lemma {:induction false} TimeoutKeepsQueue(cfg: Config, s: State, entries: seq<Pending>, now: int, i: nat, q: Target)
    requires i < |s.players| && s.players[i].queued == Some(q)
    requires forall e :: e in entries ==> e.player < |s.players|
    ensures i < |ReapAll(cfg, s, entries, now).players| && ReapAll(cfg, s, entries, now).players[i].queued == Some(q)
    decreases |entries|
  {
    if entries != [] {
      TimeoutKeepsQueue(cfg, ReapOne(cfg, s, entries[0], now), entries[1..], now, i, q);
    }
  }

  /** Nothing will take player i's queued target off the queue by itself. */
  ghost predicate Stranded(s: State, i: nat, q: Target) {
    && i < |s.players| && s.players[i].inFlight.None? && s.players[i].queued == Some(q)
    && (forall t :: t in s.timers ==> t.player != i) && (forall p :: p in s.pending ==> p.player != i)
  }

  /** Answering the command in flight leaves the queued target without a timer exactly when the
      answer is a final reject and no timer of that player was set before. */
  lemma {:induction false} FinalRejectStrands(cfg: Config, s: State, id: int, success: bool, retryReason: bool,
                                              q: Target)
    requires Inv(cfg, s) && WellFormed(s) && Lookup(s.pending, id).Some?
    requires var i := Lookup(s.pending, id).value.player; s.players[i].registered && s.players[i].queued == Some(q)
    ensures var entry := Lookup(s.pending, id).value; var i := entry.player;
            Stranded(Response(s, id, success, retryReason), i, q)
            <==> !success && !RejectRetryable(s, entry, retryReason) && forall t :: t in s.timers ==> t.player != i
  {
    var entry := Lookup(s.pending, id).value;
    var i := entry.player;
    var r := Response(s, id, success, retryReason);
    AnsweredSide(cfg, s, id, success, retryReason);
    RespondInv(cfg, s, id, success, retryReason);
    EvictInv(cfg, Respond(s, id, success, retryReason));
    NothingInFlight(cfg, r, i);
    TimersAfterAnswer(s, id, success, retryReason, q);
    hide Inv, WellFormed, Lookup, RejectRetryable, Response, Respond, Evict;
  }

  /** The player whose command is answered has nothing in flight afterwards. */
  lemma {:induction false} AnsweredSide(cfg: Config, s: State, id: int, success: bool, retryReason: bool)
    requires Inv(cfg, s) && WellFormed(s) && Lookup(s.pending, id).Some?
    requires s.players[Lookup(s.pending, id).value.player].registered
    ensures var i := Lookup(s.pending, id).value.player;
            var r := Response(s, id, success, retryReason);
            |r.players| == |s.players| && r.players[i].inFlight.None?
  {
    var entry := Lookup(s.pending, id).value;
    LateResponseHarmless(cfg, s, id, success, retryReason, entry.player);
    IdsIn(s.pending, entry);
  }

  /** The timers it leaves, and the queue when the answer is final. */
  lemma {:induction false} TimersAfterAnswer(s: State, id: int, success: bool, retryReason: bool, q: Target)
    requires WellFormed(s) && Lookup(s.pending, id).Some?
    requires var i := Lookup(s.pending, id).value.player; s.players[i].registered && s.players[i].queued == Some(q)
    ensures var entry := Lookup(s.pending, id).value;
            var i := entry.player;
            var r := Response(s, id, success, retryReason);
            var final := !success && !RejectRetryable(s, entry, retryReason);
            && (final ==> r.timers == s.timers && r.players[i].queued == Some(q))
            && (!final ==> exists t :: t in r.timers && t.player == i)
  {
    hide Without, RejectRetryable;
    var i := Lookup(s.pending, id).value.player;
    var r := Response(s, id, success, retryReason);
    if |r.timers| > |s.timers| {
      assert r.timers[|s.timers|] in r.timers && r.timers[|s.timers|].player == i;
    }
  }

  /** The event brings player i a target. */
  predicate BringsTarget(e: Event, i: nat) {
    (e.Input? && e.player == i) || (e.OwnerChanged? && e.entity == i)
  }

  lemma {:induction false} RespondKeepsStranded(s: State, id: int, success: bool, retryReason: bool, i: nat, q: Target)
    requires WellFormed(s) && Increasing(s.pending) && Stranded(s, i, q)
    ensures Stranded(Respond(s, id, success, retryReason), i, q)
  {
    WithoutMembers(s.pending, id);
  }

  lemma {:induction false} EvictKeepsStranded(s: State, i: nat, q: Target)
    requires Stranded(s, i, q)
    ensures Stranded(Evict(s), i, q)
  {
    assert forall p :: p in s.pending[Overflow(s.pending)..] ==> p in s.pending;
  }

  lemma {:induction false} ResponseKeepsStranded(cfg: Config, s: State, id: int, success: bool,
                                                 retryReason: bool, i: nat, q: Target)
    requires Inv(cfg, s) && WellFormed(s) && Stranded(s, i, q)
    ensures Stranded(Response(s, id, success, retryReason), i, q)
  {
    hide Respond, Evict, Stranded;
    RespondKeepsStranded(s, id, success, retryReason, i, q);
    EvictKeepsStranded(Respond(s, id, success, retryReason), i, q);
  }

  lemma {:induction false} FireKeepsStranded(s: State, k: nat, now: int, i: nat, q: Target)
    requires k < |s.timers| && s.timers[k].player < |s.players| && Stranded(s, i, q)
    ensures Stranded(FireTimer(s, k, now), i, q)
  {
    assert s.timers[k] in s.timers;
    assert forall x :: x in s.timers[..k] + s.timers[k + 1..] ==> x in s.timers;
  }

  lemma {:induction false} StepKeepsStranded(cfg: Config, s: State, e: Event, i: nat, q: Target)
    requires Inv(cfg, s) && Stranded(s, i, q) && !BringsTarget(e, i)
    ensures Stranded(Next(cfg, s, e), i, q)
  {
    InvWellFormed(cfg, s);
    if Enabled(s, e) {
      match e {
        case Responded(id, success, retryReason) =>
          hide Inv, Response;
          ResponseKeepsStranded(cfg, s, id, success, retryReason, i, q);
        case Reap(now) =>
          InvIncreasing(cfg, s);
          hide Inv, ReapAll;
          ReapKeepsStranded(cfg, s, s.pending, now, i, q);
        case Fire(k, now) =>
          hide Inv, FireTimer;
          FireKeepsStranded(s, k, now, i, q);
        case _ => hide Inv;
      }
    }
  }

  lemma {:induction false} ReapKeepsStranded(cfg: Config, s: State, entries: seq<Pending>, now: int, i: nat, q: Target)
    requires Stranded(s, i, q) && Increasing(s.pending)
    requires forall e :: e in entries ==> e.player < |s.players| && e.player != i
    ensures Stranded(ReapAll(cfg, s, entries, now), i, q)
    decreases |entries|
  {
    if entries != [] {
      WithoutFacts(s.pending, entries[0].id);
      ReapKeepsStranded(cfg, ReapOne(cfg, s, entries[0], now), entries[1..], now, i, q);
    }
  }

  /** A stranded target is not sent until the player moves again or its entity changes owner. */
  lemma {:induction false} StrandedUntilInput(cfg: Config, s: State, es: seq<Event>, i: nat, q: Target)
    requires Inv(cfg, s) && Stranded(s, i, q) && forall e :: e in es ==> !BringsTarget(e, i)
    ensures Stranded(Run(cfg, s, es), i, q)
    decreases |es|
  {
    if es != [] {
      StepKeepsStranded(cfg, s, es[0], i, q);
      StrandedUntilInput(cfg, Next(cfg, s, es[0]), es[1..], i, q);
    }
  }

  // ---------------------------------------------------------------- the timeout of one command

  /** The timeout of a command leaves the target queued behind it without a timer exactly when the
      command is not retried and no timer of that player was set before. */
  lemma {:induction false} TimeoutStrandsIff(cfg: Config, s: State, entry: Pending, now: int, q: Target)
    requires Inv(cfg, s) && entry in s.pending && entry.player < |s.players| && now - entry.sentAt >= cfg.ackTimeout
    requires var p := s.players[entry.player]; p.registered && p.queued == Some(q)
    ensures Stranded(ReapOne(cfg, s, entry, now), entry.player, q)
      <==> !TimeoutRetryable(cfg, s, entry) && NoTimer(s, entry.player)
  {
    var i := entry.player;
    var t := ReapOne(cfg, s, entry, now);
    PendingPlayer(cfg, s, entry);
    ReapOneInv(cfg, s, entry, now);
    ReapOneReleases(cfg, s, entry, now);
    NothingInFlight(cfg, t, i);
    assert t.players[i].queued == Some(q);
    if TimeoutRetryable(cfg, s, entry) {
      assert t.timers[|t.timers| - 1].player == i;
      assert t.timers[|t.timers| - 1] in t.timers;
    }
  }

  ghost predicate NoTimer(s: State, i: nat) { forall t :: t in s.timers ==> t.player != i }

  /** With nothing in flight a player has nothing pending. */
  lemma {:induction false} NothingInFlight(cfg: Config, s: State, i: nat)
    requires Inv(cfg, s) && i < |s.players| && s.players[i].inFlight.None?
    ensures forall p :: p in s.pending ==> p.player != i
  {}

  // ---------------------------------------------------------------- the sweep, seen by one player

  /** The pending command of a player, if it has one. */
  function PendingOf(ps: seq<Pending>, i: nat): (r: Option<Pending>)
    ensures r.Some? ==> r.value in ps && r.value.player == i
    ensures r.None? ==> forall p :: p in ps ==> p.player != i
  {
    if ps == [] then None else if ps[0].player == i then Some(ps[0]) else PendingOf(ps[1..], i)
  }

  /** The timers of one player, in order. */
  function TimersOf(ts: seq<Timer>, i: nat): seq<Timer> {
    if ts == [] then []
    else
      var last := ts[|ts| - 1];
      TimersOf(ts[..|ts| - 1], i) + (if last.player == i then [last] else [])
  }

  lemma {:induction false} TimersOfNone(ts: seq<Timer>, i: nat)
    ensures TimersOf(ts, i) == [] <==> forall t :: t in ts ==> t.player != i
  {
    if ts != [] {
      TimersOfNone(ts[..|ts| - 1], i);
      assert ts == ts[..|ts| - 1] + [ts[|ts| - 1]];
    }
  }

  lemma {:induction false} TimersOfAppend(ts: seq<Timer>, t: Timer, i: nat)
    ensures TimersOf(ts + [t], i) == TimersOf(ts, i) + (if t.player == i then [t] else [])
  {
    assert (ts + [t])[..|ts|] == ts;
  }

  /** What a step leaves of one player: its record and its timers. */
  ghost predicate SameSide(s: State, t: State, i: nat) {
    && i < |s.players| && i < |t.players|
    && t.players[i] == s.players[i] && TimersOf(t.timers, i) == TimersOf(s.timers, i)
  }

  lemma {:induction false} ReapOneElsewhere(cfg: Config, s: State, entry: Pending, now: int, i: nat)
    requires entry.player < |s.players| && i < |s.players| && entry.player != i
    ensures SameSide(s, ReapOne(cfg, s, entry, now), i)
  {
    TimersOfAppend(s.timers, Flush(entry.player, entry.attempt + 1), i);
    hide Without;
  }

  /** The sweep leaves a player whose command it does not time out exactly as it was. */
  lemma {:induction false} SweepElsewhere(cfg: Config, s: State, entries: seq<Pending>, now: int, i: nat)
    requires i < |s.players| && forall e :: e in entries ==> e.player < |s.players|
    requires forall e :: e in entries && e.player == i ==> now - e.sentAt < cfg.ackTimeout
    ensures SameSide(s, ReapAll(cfg, s, entries, now), i)
    decreases |entries|
  {
    if entries != [] {
      var t := ReapOne(cfg, s, entries[0], now);
      assert entries[0] in entries;
      if entries[0].player != i {
        ReapOneElsewhere(cfg, s, entries[0], now, i);
      }
      ReapOnePlayers(cfg, s, entries[0], now);
      hide ReapOne;
      SweepElsewhere(cfg, t, entries[1..], now, i);
    }
  }

  lemma {:induction false} ReapOnePlayers(cfg: Config, s: State, entry: Pending, now: int)
    requires entry.player < |s.players|
    ensures |ReapOne(cfg, s, entry, now).players| == |s.players|
    ensures ReapOne(cfg, s, entry, now).entities == s.entities
    ensures now - entry.sentAt < cfg.ackTimeout ==> ReapOne(cfg, s, entry, now) == s
  {}

  /** The player whose command the sweep times out: what happens to it is the timeout of that command. */
  lemma {:induction false} SweepHere(cfg: Config, s: State, entries: seq<Pending>, now: int, k: nat)
    requires k < |entries| && forall e :: e in entries ==> e.player < |s.players|
    requires forall j :: 0 <= j < |entries| && j != k ==> entries[j].player != entries[k].player
    ensures SameSide(ReapOne(cfg, s, entries[k], now), ReapAll(cfg, s, entries, now), entries[k].player)
    decreases |entries|
  {
    var i := entries[k].player;
    var t := ReapOne(cfg, s, entries[0], now);
    ReapOnePlayers(cfg, s, entries[0], now);
    if k == 0 {
      hide ReapOne;
      SweepElsewhere(cfg, t, entries[1..], now, i);
    } else {
      assert entries[0].player != i;
      ReapOneElsewhere(cfg, s, entries[0], now, i);
      SameTimeout(cfg, s, t, entries[k], now);
      hide ReapOne;
      assert entries[1..][k - 1] == entries[k];
      SweepHere(cfg, t, entries[1..], now, k - 1);
    }
  }

  /** The other entries of a sweep belong to other players. */
  lemma {:induction false} OthersElsewhere(cfg: Config, s: State, entries: seq<Pending>, k: nat)
    requires Inv(cfg, s) && Increasing(entries) && (forall e :: e in entries ==> e in s.pending) && k < |entries|
    ensures forall j :: 0 <= j < |entries| && j != k ==> entries[j].player != entries[k].player
  {
    forall j | 0 <= j < |entries| && j != k ensures entries[j].player != entries[k].player {
      assert entries[j] in s.pending && entries[k] in s.pending;
      PendingPlayer(cfg, s, entries[j]);
      PendingPlayer(cfg, s, entries[k]);
      assert entries[j].id != entries[k].id;
    }
  }

  /** The timeout of a command depends on its own player and timers only. */
  lemma {:induction false} SameTimeout(cfg: Config, s: State, t: State, entry: Pending, now: int)
    requires SameSide(s, t, entry.player) && s.entities == t.entities
    ensures SameSide(ReapOne(cfg, s, entry, now), ReapOne(cfg, t, entry, now), entry.player)
  {
    TimersOfAppend(s.timers, Flush(entry.player, entry.attempt + 1), entry.player);
    TimersOfAppend(t.timers, Flush(entry.player, entry.attempt + 1), entry.player);
    hide Without;
  }

  // ---------------------------------------------------------------- event by event

  /** What an event does to a queued target. */
  datatype Fate = Kept | Sent(attempt: nat, now: int) | Replaced(other: Target) | Dropped

  function FateOfSend(s: State, i: nat, target: Target): Fate
    requires i < |s.players|
  {
    if CanSend(s, i) && s.players[i].inFlight.Some? then Replaced(target) else Kept
  }

  function FateOfFlush(s: State, i: nat, attempt: nat, now: int): Fate
    requires i < |s.players|
  {
    if s.players[i].inFlight.Some? then Kept else if CanSend(s, i) then Sent(attempt, now) else Dropped
  }

  /** The guards, all of them on the state before the event. */
  function FateOf(s: State, e: Event, i: nat): Fate
    requires WellFormed(s) && i < |s.players|
  {
    match e
    case Input(j, target, _) => if j == i then FateOfSend(s, i, target) else Kept
    case Responded(id, success, retryReason) =>
      var f := Lookup(s.pending, id);
      if f.Some? && f.value.player == i && !success && RejectRetryable(s, f.value, retryReason) then
        Replaced(f.value.target)
      else Kept
    case OwnerChanged(entity, oldOwner, newOwner, fallback) =>
      var p := s.players[i];
      if entity == i && OwnerMoved(oldOwner, newOwner) && p.registered && p.spawned && p.inFlight.Some? then
        Replaced(if p.lastWorld.Some? then p.lastWorld.value else fallback)
      else Kept
    case Fire(k, now) =>
      if k >= |s.timers| || s.timers[k].player != i then Kept
      else
        (match s.timers[k]
         case Flush(_, attempt) => FateOfFlush(s, i, attempt, now)
         case Send(_, target) => FateOfSend(s, i, target))
    case _ => Kept
  }

  /** The fate came true. */
  ghost predicate Befalls(s: State, t: State, i: nat, q: Target, fate: Fate) {
    i < |t.players| &&
    match fate
    case Kept => t.players[i].queued == Some(q)
    case Sent(attempt, now) =>
      && t.players[i].queued == None && t.players[i].inFlight == Some(s.requestSeq)
      && t.pending == s.pending + [Pending(s.requestSeq, i, q, attempt, now)]
    case Replaced(other) => t.players[i].queued == Some(other) && t.requestSeq == s.requestSeq
    case Dropped => t.players[i].queued == None && t.pending == s.pending && t.requestSeq == s.requestSeq
  }

  lemma {:induction false} SendFate(s: State, j: nat, target: Target, attempt: nat, now: int, i: nat, q: Target)
    requires j < |s.players| && i < |s.players| && s.players[i].queued == Some(q)
    ensures Befalls(s, SendTarget(s, j, target, attempt, now), i, q, if j == i then FateOfSend(s, i, target) else Kept)
  {}

  lemma {:induction false} FlushFate(s: State, j: nat, attempt: nat, now: int, i: nat, q: Target)
    requires j < |s.players| && i < |s.players| && s.players[i].queued == Some(q)
    ensures Befalls(s, FlushQueued(s, j, attempt, now), i, q, if j == i then FateOfFlush(s, i, attempt, now) else Kept)
  {}

  lemma {:induction false} FireFate(s: State, k: nat, now: int, i: nat, q: Target)
    requires WellFormed(s) && k < |s.timers| && i < |s.players| && s.players[i].queued == Some(q)
    ensures s.timers[k].player < |s.players|
    ensures Befalls(s, FireTimer(s, k, now), i, q, FateOf(s, Fire(k, now), i))
  {
    assert s.timers[k] in s.timers;
    var t := s.(timers := s.timers[..k] + s.timers[k + 1..]);
    match s.timers[k] {
      case Flush(j, attempt) => FlushFate(t, j, attempt, now, i, q);
      case Send(j, target) => SendFate(t, j, target, 0, now, i, q);
    }
    hide SendTarget, FlushQueued, WellFormed;
  }

  lemma {:induction false} RespondFate(s: State, id: int, success: bool, retryReason: bool, i: nat, q: Target)
    requires WellFormed(s) && i < |s.players| && s.players[i].queued == Some(q)
    ensures Befalls(s, Response(s, id, success, retryReason), i, q, FateOf(s, Responded(id, success, retryReason), i))
  {
    hide Lookup, Without;
  }

  lemma {:induction false} OwnerFate(s: State, e: Event, i: nat, q: Target)
    requires WellFormed(s) && e.OwnerChanged? && i < |s.players| && s.players[i].queued == Some(q)
    ensures Befalls(s, OwnerChange(s, e.entity, e.oldOwner, e.newOwner, e.fallback), i, q, FateOf(s, e, i))
  {
    hide WellFormed;
  }

  /** Every event, in every state, does to a queued target what its guard says: it stays, is sent as a
      new command, is replaced by another target, or is dropped without being sent. */
  lemma {:induction false} QueueFate(cfg: Config, s: State, e: Event, i: nat, q: Target)
    requires Inv(cfg, s) && i < |s.players| && s.players[i].queued == Some(q) && Enabled(s, e)
    ensures WellFormed(s) && Befalls(s, Next(cfg, s, e), i, q, FateOf(s, e, i))
  {
    InvWellFormed(cfg, s);
    hide Inv, FateOf, Befalls, Response, ReapAll, OwnerChange, FireTimer, SendTarget, WellFormed;
    match e {
      case Input(j, target, now) =>
        SendFate(s, j, target, 0, now, i, q);
        InputFate(s, j, target, now, i);
      case Responded(id, success, retryReason) => RespondFate(s, id, success, retryReason, i, q);
      case Reap(now) =>
        TimeoutKeeps(cfg, s, now, i, q);
      case OwnerChanged(_, _, _, _) => OwnerFate(s, e, i, q);
      case Fire(k, now) => FireFate(s, k, now, i, q);
      case _ => OtherFate(cfg, s, e, i, q);
    }
  }

  lemma {:induction false} InputFate(s: State, j: nat, target: Target, now: int, i: nat)
    requires WellFormed(s) && i < |s.players|
    ensures FateOf(s, Input(j, target, now), i) == if j == i then FateOfSend(s, i, target) else Kept
  {
    hide WellFormed;
  }

  lemma {:induction false} TimeoutKeeps(cfg: Config, s: State, now: int, i: nat, q: Target)
    requires WellFormed(s) && i < |s.players| && s.players[i].queued == Some(q)
    ensures Befalls(s, ReapAll(cfg, s, s.pending, now), i, q, FateOf(s, Reap(now), i))
  {
    TimeoutKeepsQueue(cfg, s, s.pending, now, i, q);
    hide ReapAll;
  }

  lemma {:induction false} OtherFate(cfg: Config, s: State, e: Event, i: nat, q: Target)
    requires WellFormed(s) && Enabled(s, e) && i < |s.players| && s.players[i].queued == Some(q)
    requires !e.Input? && !e.Responded? && !e.Reap? && !e.OwnerChanged? && !e.Fire?
    ensures Befalls(s, Step(cfg, s, e), i, q, FateOf(s, e, i))
  {
    hide WellFormed;
  }

  // ---------------------------------------------------------------- when a target is left behind

  /** Nothing in flight and no timer: nobody will look at the queue. */
  ghost predicate Idle(s: State, i: nat)
    requires i < |s.players|
  {
    s.players[i].inFlight.None? && NoTimer(s, i)
  }

  /** The events after which nothing remains to send the queued target. */
  ghost predicate Strands(cfg: Config, s: State, e: Event, i: nat)
    requires WellFormed(s) && i < |s.players|
  {
    match e
    case Input(j, _, _) => Idle(s, i) && !(j == i && CanSend(s, i))
    case Responded(id, success, retryReason) =>
      var f := Lookup(s.pending, id);
      if f.Some? && f.value.player == i then !success && !RejectRetryable(s, f.value, retryReason) && NoTimer(s, i)
      else Idle(s, i)
    case Reap(now) =>
      var f := PendingOf(s.pending, i);
      if f.Some? && now - f.value.sentAt >= cfg.ackTimeout then !TimeoutRetryable(cfg, s, f.value) && NoTimer(s, i)
      else Idle(s, i)
    case OwnerChanged(entity, oldOwner, newOwner, _) =>
      Idle(s, i) && !(entity == i && OwnerMoved(oldOwner, newOwner) && s.players[i].registered && s.players[i].spawned)
    case Fire(k, _) =>
      if k < |s.timers| && s.timers[k].player == i then
        s.timers[k].Send? && !CanSend(s, i) && s.players[i].inFlight.None?
        && TimersOf(s.timers[..k] + s.timers[k + 1..], i) == []
      else Idle(s, i)
    case _ => Idle(s, i)
  }

  lemma {:induction false} StrandedIff(cfg: Config, s: State, i: nat, q: Target)
    requires Inv(cfg, s) && i < |s.players|
    ensures Stranded(s, i, q) <==> Idle(s, i) && s.players[i].queued == Some(q)
  {
    if s.players[i].inFlight.None? {
      NothingInFlight(cfg, s, i);
    }
  }

  lemma {:induction false} SideIdle(s: State, t: State, i: nat)
    requires SameSide(s, t, i)
    ensures Idle(s, i) <==> Idle(t, i)
  {
    TimersOfNone(s.timers, i);
    TimersOfNone(t.timers, i);
  }

  lemma {:induction false} SweepStrands(cfg: Config, s: State, now: int, i: nat, q: Target)
    requires Inv(cfg, s) && WellFormed(s)
    requires i < |s.players| && s.players[i].registered && s.players[i].queued == Some(q)
    ensures i < |ReapAll(cfg, s, s.pending, now).players|
    ensures Idle(ReapAll(cfg, s, s.pending, now), i) <==> Strands(cfg, s, Reap(now), i)
  {
    var f := PendingOf(s.pending, i);
    if f.Some? && now - f.value.sentAt >= cfg.ackTimeout {
      SweepOfPending(cfg, s, now, f.value);
      SideIdle(ReapOne(cfg, s, f.value, now), ReapAll(cfg, s, s.pending, now), i);
      TimeoutIdle(cfg, s, f.value, now, q);
    } else {
      OnePending(cfg, s, i);
      SweepElsewhere(cfg, s, s.pending, now, i);
      SideIdle(s, ReapAll(cfg, s, s.pending, now), i);
    }
    hide Inv, ReapOne, ReapAll, Idle, NoTimer, SameSide, WellFormed, TimeoutRetryable;
  }

  lemma {:induction false} SweepOfPending(cfg: Config, s: State, now: int, entry: Pending)
    requires Inv(cfg, s) && entry in s.pending && WellFormed(s)
    ensures SameSide(ReapOne(cfg, s, entry, now), ReapAll(cfg, s, s.pending, now), entry.player)
  {
    InvIncreasing(cfg, s);
    var k :| 0 <= k < |s.pending| && s.pending[k] == entry;
    OthersElsewhere(cfg, s, s.pending, k);
    hide Inv, Increasing, SameSide, ReapOne, ReapAll;
    SweepHere(cfg, s, s.pending, now, k);
  }

  lemma {:induction false} TimeoutIdle(cfg: Config, s: State, entry: Pending, now: int, q: Target)
    requires Inv(cfg, s) && entry in s.pending && entry.player < |s.players| && now - entry.sentAt >= cfg.ackTimeout
    requires var p := s.players[entry.player]; p.registered && p.queued == Some(q)
    ensures entry.player < |ReapOne(cfg, s, entry, now).players|
    ensures Idle(ReapOne(cfg, s, entry, now), entry.player)
      <==> !TimeoutRetryable(cfg, s, entry) && NoTimer(s, entry.player)
  {
    ReapOneInv(cfg, s, entry, now);
    ReapOneQueue(cfg, s, entry, now, q);
    TimeoutStrandsIff(cfg, s, entry, now, q);
    StrandedIff(cfg, ReapOne(cfg, s, entry, now), entry.player, q);
    hide Inv, ReapOne, Idle, Stranded, NoTimer, TimeoutRetryable;
  }

  lemma {:induction false} ReapOneQueue(cfg: Config, s: State, entry: Pending, now: int, q: Target)
    requires entry.player < |s.players| && s.players[entry.player].queued == Some(q)
    ensures ReapOne(cfg, s, entry, now).players[entry.player].queued == Some(q)
  {
    hide Without;
  }

  lemma {:induction false} OnePending(cfg: Config, s: State, i: nat)
    requires Inv(cfg, s)
    ensures forall p :: p in s.pending && p.player == i ==> PendingOf(s.pending, i) == Some(p)
  {
    forall p | p in s.pending && p.player == i ensures PendingOf(s.pending, i) == Some(p) {
      var f := PendingOf(s.pending, i);
      PendingPlayer(cfg, s, p);
      PendingPlayer(cfg, s, f.value);
      SameId(s.pending, p, f.value);
    }
  }

  lemma {:induction false} FireStrands(s: State, k: nat, now: int, i: nat)
    requires WellFormed(s) && k < |s.timers| && i < |s.players|
    requires s.players[i].queued.Some?
    ensures s.timers[k].player < |s.players| && i < |FireTimer(s, k, now).players|
    ensures Idle(FireTimer(s, k, now), i) && FireTimer(s, k, now).players[i].queued.Some?
      <==> StrandsOnFire(s, k, i)
  {
    assert s.timers[k] in s.timers;
    var rest := s.timers[..k] + s.timers[k + 1..];
    TimersOfNone(rest, i);
    if s.timers[k].player != i {
      OtherTimers(s.timers, k, i);
    }
    hide WellFormed, TimersOf;
  }

  ghost predicate StrandsOnFire(s: State, k: nat, i: nat)
    requires k < |s.timers| && i < |s.players|
  {
    if s.timers[k].player == i then
      s.timers[k].Send? && !CanSend(s, i) && s.players[i].inFlight.None?
      && TimersOf(s.timers[..k] + s.timers[k + 1..], i) == []
    else Idle(s, i)
  }

  lemma {:induction false} OtherTimers(ts: seq<Timer>, k: nat, i: nat)
    requires k < |ts| && ts[k].player != i
    ensures (forall t :: t in ts ==> t.player != i) <==> (forall t :: t in ts[..k] + ts[k + 1..] ==> t.player != i)
  {
    assert ts == ts[..k] + [ts[k]] + ts[k + 1..];
  }

  lemma {:induction false} RespondStrands(cfg: Config, s: State, id: int, success: bool, retryReason: bool, i: nat,
                                          q: Target)
    requires Inv(cfg, s) && WellFormed(s)
    requires i < |s.players| && s.players[i].registered && s.players[i].queued == Some(q)
    requires var f := Lookup(s.pending, id); f.None? || f.value.player != i
    ensures i < |Response(s, id, success, retryReason).players|
    ensures Idle(Response(s, id, success, retryReason), i) <==> Idle(s, i)
  {
    var f := Lookup(s.pending, id);
    if f.Some? {
      TimersOfAppend(s.timers, Flush(f.value.player, f.value.attempt + 1), i);
      TimersOfAppend(s.timers, Flush(f.value.player, 0), i);
    }
    ResponseSide(s, id, success, retryReason, i);
    SideIdle(s, Response(s, id, success, retryReason), i);
  }

  lemma {:induction false} ResponseSide(s: State, id: int, success: bool, retryReason: bool, i: nat)
    requires WellFormed(s) && i < |s.players|
    requires var f := Lookup(s.pending, id); f.None? || f.value.player != i
    ensures SameSide(s, Response(s, id, success, retryReason), i)
  {
    var f := Lookup(s.pending, id);
    if f.Some? {
      TimersOfAppend(s.timers, Flush(f.value.player, f.value.attempt + 1), i);
      TimersOfAppend(s.timers, Flush(f.value.player, 0), i);
    }
    hide Lookup, Without, TimersOf, WellFormed;
  }

  lemma {:induction false} OwnerStrands(s: State, e: Event, i: nat)
    requires WellFormed(s) && e.OwnerChanged? && i < |s.players|
    ensures
      var t := OwnerChange(s, e.entity, e.oldOwner, e.newOwner, e.fallback);
      i < |t.players| && (Idle(t, i) <==>
        Idle(s, i) && !(e.entity == i && OwnerMoved(e.oldOwner, e.newOwner) && s.players[i].registered
          && s.players[i].spawned))
  {
    hide WellFormed;
    var t := OwnerChange(s, e.entity, e.oldOwner, e.newOwner, e.fallback);
    if |t.timers| > |s.timers| {
      assert t.timers[|s.timers|] in t.timers;
      assert forall x :: x in t.timers <==> x in s.timers || x == t.timers[|s.timers|];
    }
  }

  lemma {:induction false} InputStrands(s: State, j: nat, target: Target, now: int, i: nat)
    requires WellFormed(s) && j < |s.players| && i < |s.players|
    ensures
      var t := SendTarget(s, j, target, 0, now);
      i < |t.players| && (Idle(t, i) <==> Idle(s, i) && !(j == i && CanSend(s, i)))
  {
    hide WellFormed;
  }

  lemma {:induction false} OtherStrands(cfg: Config, s: State, e: Event, i: nat)
    requires WellFormed(s) && Enabled(s, e) && i < |s.players|
    requires !e.Input? && !e.Responded? && !e.Reap? && !e.OwnerChanged? && !e.Fire?
    ensures i < |Step(cfg, s, e).players| && (Idle(Step(cfg, s, e), i) <==> Strands(cfg, s, e, i))
  {
    hide WellFormed;
  }

  lemma {:induction false} StrandsKeeps(cfg: Config, s: State, e: Event, i: nat)
    requires WellFormed(s) && i < |s.players| && Strands(cfg, s, e, i)
    ensures FateOf(s, e, i).Kept?
  {
    hide WellFormed, Lookup, TimersOf, PendingOf, NoTimer;
  }

  /** The idleness of a player after any event, from the lemmas for the single events. */
  lemma {:induction false} StepIdle(cfg: Config, s: State, e: Event, i: nat, q: Target)
    requires Inv(cfg, s) && WellFormed(s) && Enabled(s, e)
    requires i < |s.players| && s.players[i].registered && s.players[i].queued == Some(q)
    ensures i < |Next(cfg, s, e).players|
    ensures Idle(Next(cfg, s, e), i) && Next(cfg, s, e).players[i].queued == Some(q) ==> Strands(cfg, s, e, i)
    ensures Strands(cfg, s, e, i) ==> Idle(Next(cfg, s, e), i)
  {
    hide Inv, Idle, Response, ReapAll, OwnerChange, FireTimer, SendTarget, WellFormed;
    match e {
      case Input(j, target, now) => InputStrands(s, j, target, now, i);
      case Responded(id, success, retryReason) =>
        var f := Lookup(s.pending, id);
        if f.Some? && f.value.player == i {
          FinalRejectStrands(cfg, s, id, success, retryReason, q);
          PlayersGrow(cfg, s, e);
          StrandedIff(cfg, Next(cfg, s, e), i, q);
        } else {
          RespondStrands(cfg, s, id, success, retryReason, i, q);
        }
      case Reap(now) => SweepStrands(cfg, s, now, i, q);
      case OwnerChanged(_, _, _, _) => OwnerStrands(s, e, i);
      case Fire(k, now) => FireStrands(s, k, now, i);
      case _ => OtherStrands(cfg, s, e, i);
    }
  }

  /** For every event: a connected player's queued target is left with nothing to send it exactly
      under the condition `Strands` on the state before. */
  lemma {:induction false} StrandsIff(cfg: Config, s: State, e: Event, i: nat, q: Target)
    requires Inv(cfg, s) && Enabled(s, e)
    requires i < |s.players| && s.players[i].registered && s.players[i].queued == Some(q)
    ensures WellFormed(s) && (Stranded(Next(cfg, s, e), i, q) <==> Strands(cfg, s, e, i))
  {
    InvWellFormed(cfg, s);
    hide Inv, Next, WellFormed, Enabled;
    StepIdle(cfg, s, e, i, q);
    QueueFate(cfg, s, e, i, q);
    StrandedIff(cfg, Next(cfg, s, e), i, q);
    if Strands(cfg, s, e, i) {
      StrandsKeeps(cfg, s, e, i);
    }
    hide Strands, FateOf, Idle, Stranded;
  }
}
