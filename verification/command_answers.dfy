/** What an answer of the broker, an input and an owner change do, told from the text of the reason and the
    state before. */
module CommandAnswers {
  import opened Wrappers
  import opened Text
  import opened Commands
  import opened CommandInvariants
  import CommandServer

  lemma {:induction false} SmallPhrases()
    ensures Small("stale command authority") && Small("no authoritative worker") && Small("entity not owned")
  {}

  /** The reason says one of three things, in any mixture of small and capital letters. */
  ghost predicate Transient(reason: string) {
    || Says(reason, "stale command authority")
    || Says(reason, "no authoritative worker")
    || Says(reason, "entity not owned")
  }

  lemma {:induction false} RetryableIff(reason: string)
    ensures CommandServer.IsRetryableCommandReject(reason) <==> Transient(reason)
  {
    hide Says, Small, Contains, Lower;
    SmallPhrases();
    ContainsIff(reason, "stale command authority");
    ContainsIff(reason, "no authoritative worker");
    ContainsIff(reason, "entity not owned");
  }

  /** A reject of a pending command sets a timer for one more attempt exactly when the reason is a
      transient one, the command was sent for the first or second time, and its player is connected,
      spawned and present; then the target is queued again.  Any other reject sets no timer and leaves
      the queue as it was. */
  lemma {:induction false} RejectRetriesIff(cfg: Config, s: State, id: int, reason: string, entry: Pending)
    requires Inv(cfg, s) && Lookup(s.pending, id) == Some(entry)
    ensures WellFormed(s) && entry.player < |s.players|
    ensures
      var t := Step(cfg, s, Responded(id, false, CommandServer.IsRetryableCommandReject(reason)));
      var i := entry.player;
      |t.players| == |s.players| &&
      if Transient(reason) && entry.attempt <= 1
        && s.players[i].registered && s.players[i].spawned && i in s.entities
      then t.timers == s.timers + [Flush(i, entry.attempt + 1)] && t.players[i].queued == Some(entry.target)
      else t.timers == s.timers && t.players[i].queued == s.players[i].queued
  {
    RetryableIff(reason);
    InvWellFormed(cfg, s);
    hide CommandServer.IsRetryableCommandReject, Transient, Inv, Without, Lookup, Ids;
  }

  /** Whatever stands before and behind it, each of the three phrases is enough. */
  lemma {:induction false} PhraseIsTransient(pre: string, mid: string, post: string)
    requires Spells(mid, "stale command authority") || Spells(mid, "no authoritative worker")
      || Spells(mid, "entity not owned")
    ensures CommandServer.IsRetryableCommandReject(pre + mid + post)
  {
    RetryableIff(pre + mid + post);
    hide Spells, CommandServer.IsRetryableCommandReject;
  }

  /** A success sets a timer exactly when its connected player has a target queued, and leaves the queue. */
  lemma {:induction false} SuccessFlushesIff(cfg: Config, s: State, id: int, retryReason: bool, entry: Pending)
    requires Inv(cfg, s) && Lookup(s.pending, id) == Some(entry)
    ensures WellFormed(s) && entry.player < |s.players|
    ensures
      var t := Step(cfg, s, Responded(id, true, retryReason));
      var i := entry.player;
      && |t.players| == |s.players| && t.players[i].queued == s.players[i].queued
      && t.timers == if s.players[i].registered && s.players[i].queued.Some? then s.timers + [Flush(i, 0)] else s.timers
  {
    InvWellFormed(cfg, s);
    hide Inv, Without, Lookup, Ids;
  }

  // ---------------------------------------------------------------- inputs

  /** The input of a spawned player whose entity is there becomes its last target; it is sent at once, as
      a first attempt, if nothing is in flight, and queued otherwise.  Any other input does nothing. */
  lemma {:induction false} InputTaken(cfg: Config, s: State, i: nat, target: Target, now: int)
    requires Inv(cfg, s) && i < |s.players| && s.players[i].registered
    ensures WellFormed(s)
    ensures
      var t := Step(cfg, s, Input(i, target, now));
      if !s.players[i].spawned || i !in s.entities then t == s
      else
        && |t.players| == |s.players| && t.players[i].lastWorld == Some(target) && t.timers == s.timers
        && if s.players[i].inFlight.None? then
             && t.pending == s.pending + [Pending(s.requestSeq, i, target, 0, now)]
             && t.players[i].inFlight == Some(s.requestSeq) && t.requestSeq == s.requestSeq + 1
             && t.players[i].queued == s.players[i].queued
           else
             && t.pending == s.pending && t.requestSeq == s.requestSeq
             && t.players[i].inFlight == s.players[i].inFlight && t.players[i].queued == Some(target)
  {
    InvWellFormed(cfg, s);
    hide Inv;
  }

  // ---------------------------------------------------------------- owner changes

  /** An entity that changes hands between two named owners brings the last target of its player back:
      queued behind the command in flight, or on a timer.  Any other change of owner does nothing. */
  lemma {:induction false} OwnerChangeTaken(cfg: Config, s: State, i: nat, before: string, after: string,
                                            fallback: Target)
    requires Inv(cfg, s) && i < |s.players|
    ensures WellFormed(s)
    ensures
      var t := Step(cfg, s, OwnerChanged(i, before, after, fallback));
      var p := s.players[i];
      var target := if p.lastWorld.Some? then p.lastWorld.value else fallback;
      if before == "" || after == "" || before == after || !p.registered || !p.spawned then t == s
      else
        && t.pending == s.pending && |t.players| == |s.players| && t.players[i].inFlight == p.inFlight
        && if p.inFlight.Some? then t.players[i].queued == Some(target) && t.timers == s.timers
           else t.players[i].queued == p.queued && t.timers == s.timers + [Send(i, target)]
  {
    InvWellFormed(cfg, s);
    hide Inv;
  }
}
