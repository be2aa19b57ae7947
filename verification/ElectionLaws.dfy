/** A leader that renews in time stays the leader. */
module ElectionLaws {
  import opened Options
  import opened Election

  predicate LeadsWith(s: State, e: ElectorId, tok: TokenId) {
    e in s.electors && s.electors[e].seat == Seat(true, Some(tok))
  }

  /** The elector leads, and its token is under the key until `end`. */
  predicate LeadsUntil(s: State, e: ElectorId, tok: TokenId, end: int) {
    LeadsWith(s, e, tok) && s.lock == Held(tok, end)
  }

  /** A delivered heartbeat of a leader under an unexpired key renews the lease and changes nothing else. */
  lemma DeliveredBeatRenews(s: State, ttl: int, e: ElectorId, tok: TokenId, mine: TokenId, end: int)
    requires Reachable(s, ttl) && Enabled(s, Beat(e, tok)) && LeadsUntil(s, e, mine, end) && s.now < end
    ensures
      var sent := Next(s, Beat(e, tok), ttl);
      var executed := Next(sent, Execute(s.nextCall), ttl);
      var t := Next(executed, Answer(e), ttl);
      && LeadsUntil(t, e, mine, s.now + ttl) && t.now == s.now
      && t.electors == s.electors[e := Elector(Seat(true, Some(mine)), s.now, None)]
  {
    UninterruptedBeat(s, ttl, e, tok);
  }

  /** One that finds the key absent or under another token ends the leadership and leaves the key alone. */
  lemma FailedBeatStepsDown(s: State, ttl: int, e: ElectorId, tok: TokenId)
    requires Reachable(s, ttl) && Enabled(s, Beat(e, tok)) && IsLeader(s, e) && !HoldsLease(s, e)
    ensures
      var sent := Next(s, Beat(e, tok), ttl);
      var executed := Next(sent, Execute(s.nextCall), ttl);
      var t := Next(executed, Answer(e), ttl);
      !IsLeader(t, e) && t.electors[e].seat.tok == None && t.lock == s.lock
  {
    ReachableInv(s, ttl);
    assert ElectorOk(s, s.electors[e]);
    UninterruptedBeat(s, ttl, e, tok);
  }

  /** A delivered resignation of a leader that holds the lease frees the key at once. */
  lemma ResignationFrees(s: State, ttl: int, e: ElectorId, mine: TokenId, end: int)
    requires Reachable(s, ttl) && Enabled(s, Resign(e)) && LeadsUntil(s, e, mine, end) && s.now < end
    ensures
      var sent := Next(s, Resign(e), ttl);
      var executed := Next(sent, Execute(s.nextCall), ttl);
      var t := Next(executed, Answer(e), ttl);
      t.lock == Free && !IsLeader(t, e) && t.electors[e].seat.tok == None
  {
    ReachableInv(s, ttl);
    FreshCall(s);
  }

  // ---------------------------------------------------------------------------------------------
  // Over runs
  // ---------------------------------------------------------------------------------------------

  /** The step executes the call that the elector waits for. */
  predicate ExecutesCallOf(s: State, step: Step, e: ElectorId) {
    && step.Execute? && e in s.electors && s.electors[e].waiting.Some?
    && s.electors[e].waiting.value.id == step.id
  }

  /**
   Along the run the elector neither resigns nor gives up on a call, and each of its calls is executed
   before its lease ends: at `end` at first, and a lease after the execution of the last call from then on.
   */
  predicate Punctual(s: State, steps: seq<Step>, ttl: int, e: ElectorId, end: int)
    requires Legal(s, steps, ttl)
    decreases |steps|
  {
    steps == [] ||
    var mine := ExecutesCallOf(s, steps[0], e);
    && steps[0] != GiveUp(e) && steps[0] != Resign(e) && (mine ==> s.now < end)
    && Punctual(Next(s, steps[0], ttl), steps[1..], ttl, e, if mine then s.now + ttl else end)
  }

  /** Where a punctual leader stands: it waits for nothing but refreshes, none of which has failed. */
  predicate Secure(s: State, e: ElectorId, tok: TokenId, end: int) {
    && LeadsWith(s, e, tok)
    && (s.now < end ==> s.lock == Held(tok, end))
    && (s.electors[e].waiting.Some? ==> Renewing(s, s.electors[e].waiting.value, tok))
  }

  predicate Renewing(s: State, w: Waiting, tok: TokenId) {
    w.cmd == Refresh(tok) && (w.id in s.replies ==> s.replies[w.id])
  }

  lemma SecureOwnCall(s: State, id: CallId, ttl: int, e: ElectorId, tok: TokenId, end: int)
    requires Inv(s, ttl) && id in s.calls && Secure(s, e, tok, end)
    requires ExecutesCallOf(s, Execute(id), e) && s.now < end
    ensures Secure(Next(s, Execute(id), ttl), e, tok, s.now + ttl)
  {
    assert ElectorOk(s, s.electors[e]);
  }

  lemma SecureOtherCall(s: State, id: CallId, ttl: int, e: ElectorId, tok: TokenId, end: int)
    requires Inv(s, ttl) && id in s.calls && Secure(s, e, tok, end) && !ExecutesCallOf(s, Execute(id), e)
    ensures Secure(Next(s, Execute(id), ttl), e, tok, end)
  {
    assert CallOwned(s, s.electors[e], id);
    assert s.calls[id].tok != tok;
  }

  lemma SecureStep(s: State, step: Step, ttl: int, e: ElectorId, tok: TokenId, end: int)
    requires Inv(s, ttl) && Enabled(s, step) && Secure(s, e, tok, end)
    requires step != GiveUp(e) && step != Resign(e) && (ExecutesCallOf(s, step, e) ==> s.now < end)
    ensures Secure(Next(s, step, ttl), e, tok, if ExecutesCallOf(s, step, e) then s.now + ttl else end)
  {
    if step.Execute? {
      if ExecutesCallOf(s, step, e) {
        SecureOwnCall(s, step.id, ttl, e, tok, end);
      } else {
        SecureOtherCall(s, step.id, ttl, e, tok, end);
      }
    } else {
      FreshCall(s);
    }
  }

  lemma {:induction false} SecureRun(
    s: State, steps: seq<Step>, ttl: int, e: ElectorId, tok: TokenId, end: int)
    requires Inv(s, ttl) && Legal(s, steps, ttl) && Secure(s, e, tok, end) && Punctual(s, steps, ttl, e, end)
    ensures !EverDown(s, steps, ttl, e) && LeadsWith(Run(s, steps, ttl), e, tok)
    decreases |steps|
  {
    if steps != [] {
      BookkeepingStep(s, steps[0], ttl);
      ApartStep(s, steps[0], ttl);
      LeaseStep(s, steps[0], ttl);
      SecureStep(s, steps[0], ttl, e, tok, end);
      var end' := if ExecutesCallOf(s, steps[0], e) then s.now + ttl else end;
      SecureRun(Next(s, steps[0], ttl), steps[1..], ttl, e, tok, end');
    }
  }

  /**
   Whatever the other electors do and however late the answers come: a leader each of whose refreshes is
   executed before the lease ends leads throughout, with the same token.
   */
  lemma PunctualLeaderStays(s: State, steps: seq<Step>, ttl: int, e: ElectorId, tok: TokenId, end: int)
    requires Reachable(s, ttl) && Legal(s, steps, ttl)
    requires LeadsUntil(s, e, tok, end) && s.electors[e].waiting.None? && Punctual(s, steps, ttl, e, end)
    ensures !EverDown(s, steps, ttl, e) && LeadsWith(Run(s, steps, ttl), e, tok)
  {
    ReachableInv(s, ttl);
    SecureRun(s, steps, ttl, e, tok, end);
  }
}
