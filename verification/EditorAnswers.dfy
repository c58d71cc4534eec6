/**
 * What the answers of an editor session say of the exchanges they came from: each answer is a function of what was
 * read, looked at, tried and heard, part by part and for whole calls.
 */
module EditorAnswers {
  import opened Basics
  import opened EditorProtocol

  const MAX_ENSURE_ROUNDS := 3

  // ── Answers ───────────────────────────────────────────────────────────────────────────────────

  datatype Source = Running | Foreign | OwnedByPeer | StartedHere

  datatype Reason = Unsupported | NoEditorBinary | LaunchFailed | HookThrew | Exited(waited: Source) | NotReady(waited: Source) | LockBusy

  datatype Ensured = Ready(source: Source) | Refused(why: Reason)

  datatype Waited = IsReady | Stopped | TimedOut

  datatype StartOutcome =
    | ResolveFirst
    | Lost
    | Join(lease: Lease)
    | Yield(pid: Option<nat>)
    | Started(started: Lease)
    | Failed(why: Reason)

  datatype Closing = Closed(pid: nat, forced: bool) | NotOwned(staleLeaseRemoved: bool) | StillRunning(pid: nat)

  // ── Starting ──────────────────────────────────────────────────────────────────────────────────

  /** The lease read under the lock and, if there was one, its state: joined unless it is dead. */
  predicate LooksForLease(es: seq<Event>, lease: Option<Lease>, join: bool) {
    if lease.None? then es == [SawLease(None)] && !join
    else |es| == 2 && es[0] == SawLease(lease) && es[1].SawState? && es[1].judged == lease.value && (join <==> !es[1].state.Dead?)
  }

  /** The lease is read again and unlinked while it carries this nonce. */
  predicate Removes(es: seq<Event>, nonce: nat, removed: bool) {
    && es != [] && es[0].SawLease?
    && if es[0].lease.Some? && es[0].lease.value.nonce == nonce
       then es == [es[0], if removed then Unlinked(nonce) else UnlinkFailed(nonce)]
       else es == [es[0]] && !removed
  }

  /** The same in a hold of its own, if the lock could be had. */
  predicate RemovesLocked(es: seq<Event>, nonce: nat, removed: bool) {
    || (es == [LockMissed] && !removed)
    || (|es| >= 2 && es == [LockTaken] + es[1..|es| - 1] + [LockReleased] && Removes(es[1..|es| - 1], nonce, removed))
  }

  /** Hook, refresh, spawn and lease, as far as it got. */
  predicate LaunchesOrFails(es: seq<Event>, o: StartOutcome) {
    match o
    case Failed(why) =>
      || (why == HookThrew && es == [HookBegun, HookFailed])
      || (why == LaunchFailed && es == [HookBegun, Hooked, Refreshed(true), SpawnFailed])
    case Lost => es == [HookBegun, Hooked, Refreshed(false)]
    case Started(l) => es == [HookBegun, Hooked, Refreshed(true), Spawned(l.pid), Leased(l)]
    case _ => false
  }

  /** The parts of a decision: the lease, the clean-up of a dead one, and the launch. */
  datatype Parts = Parts(looked: seq<Event>, lease: Option<Lease>, cleaned: seq<Event>, removed: bool, launched: seq<Event>)

  /**
   * A lease that is not dead is joined. Otherwise an editor found is waited for; nobody found, the binary is
   * resolved first if it is not known; if it is, a dead lease is cleaned up and the editor launched.
   */
  predicate Decides(es: seq<Event>, known: bool, o: StartOutcome, p: Parts) {
    && LooksForLease(p.looked, p.lease, o.Join?)
    && match o
       case Join(l) => p.lease == Some(l) && es == p.looked
       case Yield(pid) => es == p.looked + [Searched(true, pid)]
       case ResolveFirst => !known && es == p.looked + [Searched(false, None)]
       case _ =>
         && known && es == p.looked + [Searched(false, None)] + p.cleaned + p.launched
         && (if p.lease.Some? then Removes(p.cleaned, p.lease.value.nonce, p.removed) else p.cleaned == [])
         && LaunchesOrFails(p.launched, o)
  }

  /** One hold of the startup lock, or none: the lock was busy for the whole wait. */
  predicate Holds(es: seq<Event>, known: bool, o: StartOutcome, p: Parts) {
    || (es == [LockMissed] && o == Failed(LockBusy))
    || (|es| >= 2 && es == [LockTaken] + es[1..|es| - 1] + [LockReleased] && Decides(es[1..|es| - 1], known, o, p))
  }

  /** An exchange that ends a wait for this editor. */
  predicate EndsWait(e: Event, pid: Option<nat>) {
    e == Probed(true) || (pid.Some? && e == SawAlive(pid.value, false))
  }

  /** The exchanges of a wait: it looks and probes until the first that ends it, a scan that misses for the second time in a row, or the time is up. */
  predicate WaitsFor(es: seq<Event>, pid: Option<nat>, w: Waited) {
    && (forall k :: 0 <= k < |es| ==> es[k].Probed? || (es[k].SawAlive? && Some(es[k].pid) == pid) || (es[k].Searched? && pid.None?))
    && (forall k :: 0 <= k < |es| - 1 ==> !EndsWait(es[k], pid))
    && (w.IsReady? <==> es != [] && es[|es| - 1] == Probed(true))
    && (w.Stopped? ==> es != [] && if pid.Some? then es[|es| - 1] == SawAlive(pid.value, false) else es[|es| - 1].Searched? && !es[|es| - 1].found)
    && (w.TimedOut? ==> es == [] || es[|es| - 1] == Probed(false))
  }

  /** The answer a wait for a running editor comes to; none means that it is time to decide again. */
  function AnswerOf(w: Waited, source: Source, last: bool): Option<Ensured> {
    match w
    case IsReady => Some(Ready(source))
    case Stopped => if last then Some(Refused(Exited(source))) else None
    case TimedOut => Some(Refused(NotReady(source)))
  }

  /** What follows a decision once the lock is released: the wait, and after a failed one of our own a look and the clean-up. */
  datatype Rest = Rest(waited: seq<Event>, w: Waited, alive: bool, cleaned: seq<Event>, removed: bool)

  predicate Follows(es: seq<Event>, o: StartOutcome, last: bool, r: Option<Ensured>, t: Rest) {
    match o
    case ResolveFirst => false
    case Lost => es == [] && r == if last then Some(Refused(LockBusy)) else None
    case Failed(why) => es == [] && r == Some(Refused(why))
    case Join(l) => es == t.waited && WaitsFor(es, Some(l.pid), t.w) && r == AnswerOf(t.w, OwnedByPeer, last)
    case Yield(pid) => es == t.waited && WaitsFor(es, pid, t.w) && r == AnswerOf(t.w, Foreign, last)
    case Started(l) =>
      && WaitsFor(t.waited, Some(l.pid), t.w) && r == AnswerOf(t.w, StartedHere, true)
      && if t.w.IsReady? then es == t.waited
         else
           && es == t.waited + [SawAlive(l.pid, t.alive)] + t.cleaned
           && if t.alive then t.cleaned == [] else RemovesLocked(t.cleaned, l.nonce, t.removed)
  }

  /** One hold and what follows it. */
  datatype Hold = Hold(held: seq<Event>, o: StartOutcome, p: Parts, rest: seq<Event>, t: Rest)

  /** One round: a hold that wants the binary first, and the resolver's answer, if it comes to that; then the hold that decides. */
  datatype Round = Round(first: seq<Event>, p: Parts, resolved: Option<bool>, hold: Hold)

  predicate HoldTells(es: seq<Event>, known: bool, last: bool, r: Option<Ensured>, h: Hold) {
    es == h.held + h.rest && Holds(h.held, known, h.o, h.p) && Follows(h.rest, h.o, last, r, h.t)
  }

  predicate RoundTells(es: seq<Event>, known: bool, last: bool, r: Option<Ensured>, round: Round) {
    match round.resolved
    case None => HoldTells(es, known, last, r, round.hold)
    case Some(found) =>
      && !known && Holds(round.first, false, ResolveFirst, round.p)
      && if found then
           var n := |round.first| + 1;
           |es| >= n && es[..n] == round.first + [Resolved(true)] && HoldTells(es[n..], true, last, r, round.hold)
         else es == round.first + [Resolved(false)] && r == Some(Refused(NoEditorBinary))
  }

  /** All rounds of one call, in order. */
  datatype Telling = Telling(es: seq<Event>, known: bool, round: Round)

  function Flat(story: seq<Telling>): seq<Event> {
    if story == [] then [] else Flat(story[..|story| - 1]) + story[|story| - 1].es
  }

  /** The binary is known once a round has resolved it. */
  function KnownAfter(story: seq<Telling>): bool {
    story != [] && (story[|story| - 1].known || story[|story| - 1].round.resolved == Some(true))
  }

  /** Rounds that decided nothing. */
  predicate Undecided(story: seq<Telling>) {
    forall i :: 0 <= i < |story| ==>
      RoundTells(story[i].es, story[i].known, false, None, story[i].round) && story[i].known == KnownAfter(story[..i])
  }

  /** The whole call: the warm probe, and with an editor to be started up to three rounds of which only the last decides. */
  predicate Answers(es: seq<Event>, supported: bool, r: Ensured, story: seq<Telling>) {
    && es != [] && es[0].Probed?
    && if es[0].ready then es == [es[0]] && r == Ready(Running)
       else if !supported then es == [es[0]] && r == Refused(Unsupported)
       else
         && 1 <= |story| <= MAX_ENSURE_ROUNDS && es == [es[0]] + Flat(story)
         && var n := |story| - 1;
         && Undecided(story[..n]) && story[n].known == KnownAfter(story[..n])
         && RoundTells(story[n].es, story[n].known, n + 1 == MAX_ENSURE_ROUNDS, Some(r), story[n].round)
  }

  predicate EndsIn(es: seq<Event>, end: seq<Event>) {
    |es| >= |end| && forall i :: 0 <= i < |end| ==> es[|es| - |end| + i] == end[i]
  }

  /** The last exchanges of a call that answers this. */
  predicate Justified(es: seq<Event>, r: Ensured) {
    match r
    case Ready(_) => EndsIn(es, [Probed(true)])
    case Refused(NoEditorBinary) => EndsIn(es, [Resolved(false)])
    case Refused(LockBusy) => EndsIn(es, [LockMissed]) || EndsIn(es, [Refreshed(false), LockReleased])
    case Refused(HookThrew) => EndsIn(es, [HookFailed, LockReleased])
    case Refused(LaunchFailed) => EndsIn(es, [SpawnFailed, LockReleased])
    case _ => true
  }

  /** Answers about an editor this call has started. */
  predicate OfOurOwn(r: Ensured) {
    r == Ready(StartedHere) || r == Refused(Exited(StartedHere)) || r == Refused(NotReady(StartedHere))
  }

  predicate Spawns(es: seq<Event>) {
    exists k :: 0 <= k < |es| && es[k].Spawned?
  }

  lemma {:induction false} SpawnsEither(a: seq<Event>, b: seq<Event>)
    ensures Spawns(a + b) <==> Spawns(a) || Spawns(b)
  {
    forall k | 0 <= k < |a| ensures (a + b)[k] == a[k] { }
    forall k | 0 <= k < |b| ensures (a + b)[|a| + k] == b[k] { }
    if Spawns(a) { var k :| 0 <= k < |a| && a[k].Spawned?; assert (a + b)[k].Spawned?; }
    if Spawns(b) { var k :| 0 <= k < |b| && b[k].Spawned?; assert (a + b)[|a| + k].Spawned?; }
  }

  lemma {:induction false} LaunchSpawns(es: seq<Event>, o: StartOutcome)
    requires LaunchesOrFails(es, o)
    ensures Spawns(es) <==> o.Started?
    ensures o == Failed(HookThrew) ==> EndsIn(es, [HookFailed])
    ensures o == Failed(LaunchFailed) ==> EndsIn(es, [SpawnFailed])
    ensures o.Failed? ==> o.why == HookThrew || o.why == LaunchFailed
    ensures o.Lost? ==> EndsIn(es, [Refreshed(false)])
  {
    if o.Started? { assert es[3].Spawned?; }
  }

  /** A decision spawned an editor exactly if it says so. */
  lemma {:induction false} DecisionSpawns(es: seq<Event>, known: bool, o: StartOutcome, p: Parts)
    requires Decides(es, known, o, p)
    ensures Spawns(es) <==> o.Started?
    ensures o == Failed(HookThrew) ==> EndsIn(es, [HookFailed])
    ensures o == Failed(LaunchFailed) ==> EndsIn(es, [SpawnFailed])
    ensures o.Failed? ==> o.why == HookThrew || o.why == LaunchFailed
    ensures o.Lost? ==> EndsIn(es, [Refreshed(false)])
  {
    assert !Spawns(p.looked);
    if o.Lost? || o.Started? || o.Failed? {
      var before := p.looked + [Searched(false, None)] + p.cleaned;
      LaunchSpawns(p.launched, o);
      assert !Spawns(p.cleaned) && !Spawns([Searched(false, None)]);
      hide Spawns, LaunchesOrFails, LooksForLease, Removes;
      SpawnsEither(p.looked, [Searched(false, None)]);
      SpawnsEither(p.looked + [Searched(false, None)], p.cleaned);
      SpawnsEither(before, p.launched);
    }
  }

  lemma {:induction false} HoldSpawns(es: seq<Event>, known: bool, o: StartOutcome, p: Parts)
    requires Holds(es, known, o, p)
    ensures Spawns(es) <==> o.Started?
    ensures o == Failed(HookThrew) ==> EndsIn(es, [HookFailed, LockReleased])
    ensures o == Failed(LaunchFailed) ==> EndsIn(es, [SpawnFailed, LockReleased])
    ensures o == Failed(LockBusy) ==> EndsIn(es, [LockMissed])
    ensures o.Failed? ==> o.why == HookThrew || o.why == LaunchFailed || o.why == LockBusy
    ensures o.Lost? ==> EndsIn(es, [Refreshed(false), LockReleased])
  {
    if es == [LockMissed] && o == Failed(LockBusy) {
    } else {
      var inner := es[1..|es| - 1];
      DecisionSpawns(inner, known, o, p);
      assert !Spawns([LockTaken]) && !Spawns([LockReleased]);
      hide Spawns, Decides;
      SpawnsEither([LockTaken], inner);
      SpawnsEither([LockTaken] + inner, [LockReleased]);
    }
  }

  lemma {:induction false} WaitSpawnsNothing(es: seq<Event>, o: StartOutcome, last: bool, r: Option<Ensured>, t: Rest)
    requires Follows(es, o, last, r, t)
    ensures !Spawns(es) && (o.Started? ==> r.Some?)
  {
  }

  /** An answer without a wait is its hold's. */
  lemma {:induction false} HoldEnds(held: seq<Event>, known: bool, o: StartOutcome, p: Parts, r: Ensured)
    requires Holds(held, known, o, p) && r.Refused? && (o == Failed(r.why) || (o.Lost? && r.why == LockBusy))
    ensures Justified(held, r) && !OfOurOwn(r) && r != Refused(Unsupported)
  {
    HoldSpawns(held, known, o, p);
    hide Holds, Spawns, EndsIn;
  }

  lemma {:induction false} WaitAnswers(es: seq<Event>, pid: Option<nat>, w: Waited, source: Source, last: bool, r: Ensured)
    requires WaitsFor(es, pid, w) && AnswerOf(w, source, last) == Some(r) && source != Running
    ensures Justified(es, r) && r != Ready(Running) && r != Refused(Unsupported) && (OfOurOwn(r) <==> source == StartedHere)
    ensures w.IsReady? <==> r.Ready?
  {
  }

  /** One that waited is the wait's. */
  lemma {:induction false} WaitEnds(rest: seq<Event>, o: StartOutcome, last: bool, r: Ensured, t: Rest)
    requires Follows(rest, o, last, Some(r), t) && !o.Lost? && !o.Failed?
    ensures Justified(rest, r) && r != Ready(Running) && r != Refused(Unsupported) && (OfOurOwn(r) <==> o.Started?)
  {
    var source := if o.Join? then OwnedByPeer else if o.Yield? then Foreign else StartedHere;
    var pid := if o.Join? then Some(o.lease.pid) else if o.Yield? then o.pid else Some(o.started.pid);
    WaitAnswers(t.waited, pid, t.w, source, last || o.Started?, r);
    hide WaitsFor, EndsIn, RemovesLocked;
  }

  lemma {:induction false} HoldIsJustified(es: seq<Event>, known: bool, last: bool, r: Option<Ensured>, h: Hold)
    requires HoldTells(es, known, last, r, h)
    ensures r.Some? ==> Justified(es, r.value) && r.value != Ready(Running) && r.value != Refused(Unsupported)
    ensures Spawns(es) <==> r.Some? && OfOurOwn(r.value)
  {
    HoldSpawns(h.held, known, h.o, h.p);
    WaitSpawnsNothing(h.rest, h.o, last, r, h.t);
    hide Spawns, Holds, Justified;
    SpawnsEither(h.held, h.rest);
    if h.o.Lost? || h.o.Failed? {
      assert es == h.held;
      if r.Some? { HoldEnds(h.held, known, h.o, h.p, r.value); }
    } else if r.Some? {
      WaitEnds(h.rest, h.o, last, r.value, h.t);
      hide Follows;
      JustifiedLater(h.held, h.rest, r.value);
    }
  }

  /** A round that gives an answer: its last exchanges justify it, and it answers for an editor of its own exactly if it spawned one. */
  lemma {:induction false} RoundIsJustified(es: seq<Event>, known: bool, last: bool, r: Option<Ensured>, round: Round)
    requires RoundTells(es, known, last, r, round)
    ensures r.Some? ==> Justified(es, r.value) && r.value != Ready(Running) && r.value != Refused(Unsupported)
    ensures Spawns(es) <==> r.Some? && OfOurOwn(r.value)
  {
    hide Spawns, Holds, HoldTells, Justified;
    if round.resolved.None? {
      HoldIsJustified(es, known, last, r, round.hold);
    } else {
      HoldSpawns(round.first, false, ResolveFirst, round.p);
      var resolved := [Resolved(round.resolved.value)];
      assert !Spawns(resolved) by { OneSpawnsNot(resolved[0]); }
      SpawnsEither(round.first, resolved);
      if round.resolved.value {
        var rest := es[|round.first| + 1..];
        HoldIsJustified(rest, true, last, r, round.hold);
        assert es == round.first + resolved + rest;
        SpawnsEither(round.first + resolved, rest);
        if r.Some? { JustifiedLater(round.first + resolved, rest, r.value); }
      } else {
        assert Justified(es, r.value) by { EndsResolved(round.first); }
      }
    }
  }

  lemma {:induction false} OneSpawnsNot(e: Event)
    requires !e.Spawned?
    ensures !Spawns([e])
  {
  }

  lemma {:induction false} EndsResolved(first: seq<Event>)
    ensures Justified(first + [Resolved(false)], Refused(NoEditorBinary))
  {
  }

  lemma {:induction false} JustifiedLater(a: seq<Event>, b: seq<Event>, r: Ensured)
    requires Justified(b, r)
    ensures Justified(a + b, r)
  {
  }

  lemma {:induction false} UndecidedSpawnsNothing(story: seq<Telling>)
    requires Undecided(story)
    ensures !Spawns(Flat(story))
  {
    hide RoundTells, Spawns;
    if story == [] {
      assert !Spawns([]) by { NothingSpawnsNot(); }
    } else {
      var n := |story| - 1;
      assert forall i :: 0 <= i < n ==> story[..n][..i] == story[..i];
      UndecidedSpawnsNothing(story[..n]);
      RoundIsJustified(story[n].es, story[n].known, false, None, story[n].round);
      SpawnsEither(Flat(story[..n]), story[n].es);
    }
  }

  lemma {:induction false} NothingSpawnsNot()
    ensures !Spawns([])
  {
  }

  /**
   * The answers of a call, exactly: unsupported if and only if the warm probe failed and no editor can be started;
   * every other refusal and every readiness is justified by its last exchanges; and it answers for an editor of its
   * own if and only if it spawned one.
   */
  lemma {:induction false} AnswersExactly(es: seq<Event>, supported: bool, r: Ensured, story: seq<Telling>)
    requires Answers(es, supported, r, story)
    ensures r == Ready(Running) <==> es[0] == Probed(true)
    ensures r == Refused(Unsupported) <==> es[0] == Probed(false) && !supported
    ensures Justified(es, r)
    ensures Spawns(es) <==> OfOurOwn(r)
  {
    hide RoundTells, Spawns, Undecided, Justified;
    OneSpawnsNot(es[0]);
    if es[0].ready || !supported {
      assert Justified(es, r) by { WarmIsJustified(es, r); }
    } else {
      var n := |story| - 1;
      UndecidedSpawnsNothing(story[..n]);
      RoundIsJustified(story[n].es, story[n].known, n + 1 == MAX_ENSURE_ROUNDS, Some(r), story[n].round);
      SpawnsEither(Flat(story[..n]), story[n].es);
      SpawnsEither([es[0]], Flat(story));
      assert es == ([es[0]] + Flat(story[..n])) + story[n].es;
      JustifiedLater([es[0]] + Flat(story[..n]), story[n].es, r);
    }
  }

  lemma {:induction false} WarmIsJustified(es: seq<Event>, r: Ensured)
    requires |es| == 1 && (r == Refused(Unsupported) || (r == Ready(Running) && es[0] == Probed(true)))
    ensures Justified(es, r)
  {
  }

  /** A wait that has not been ended yet. */
  predicate StillWaits(es: seq<Event>, pid: Option<nat>) {
    && (forall k :: 0 <= k < |es| ==> es[k].Probed? || (es[k].SawAlive? && Some(es[k].pid) == pid) || (es[k].Searched? && pid.None?))
    && (forall k :: 0 <= k < |es| ==> !EndsWait(es[k], pid))
  }

  lemma {:induction false} NothingWaited(pid: Option<nat>)
    ensures StillWaits([], pid) && WaitsFor([], pid, TimedOut)
  {
  }

  /** One more look or probe: the wait goes on, or this is what ends it. */
  lemma {:induction false} WaitGoesOn(es: seq<Event>, more: seq<Event>, pid: Option<nat>)
    requires StillWaits(es, pid) && |more| <= 1
    requires forall e :: e in more ==> e.Probed? || (e.SawAlive? && Some(e.pid) == pid) || (e.Searched? && pid.None?)
    ensures more == [] || !EndsWait(more[0], pid) ==> StillWaits(es + more, pid)
    ensures more != [] && more[0] == Probed(true) ==> WaitsFor(es + more, pid, IsReady)
    ensures more != [] && (pid.Some? && more[0] == SawAlive(pid.value, false)) ==> WaitsFor(es + more, pid, Stopped)
    ensures more != [] && pid.None? && more[0].Searched? && !more[0].found ==> WaitsFor(es + more, pid, Stopped)
    ensures more != [] && more[0] == Probed(false) ==> WaitsFor(es + more, pid, TimedOut)
  {
  }

  // ── Closing ───────────────────────────────────────────────────────────────────────────────────

  /** The pid is looked at until it is gone or the time is up. */
  predicate WatchesExit(es: seq<Event>, pid: nat, exited: bool) {
    es != [] && (forall k :: 0 <= k < |es| - 1 ==> es[k] == SawAlive(pid, true)) && es[|es| - 1] == SawAlive(pid, !exited)
  }

  /** One request to quit; a wait if it was delivered, one look if it was not. */
  predicate Asks(es: seq<Event>, pid: nat, gone: bool) {
    && es != [] && es[0].AskedToQuit? && es[0].pid == pid && WatchesExit(es[1..], pid, gone) && (!es[0].delivered ==> |es| == 2)
  }

  /** The lease is judged again, and its editor killed and waited for if it is still live. */
  predicate Forces(es: seq<Event>, lease: Lease, gone: bool, forced: bool) {
    && es != [] && es[0].SawState? && es[0].judged == lease && (forced <==> es[0].state.Live?)
    && if forced then |es| >= 2 && es[1] == Killed(lease.pid) && WatchesExit(es[2..], lease.pid, gone) else |es| == 1 && !gone
  }

  datatype ClosingParts = ClosingParts(asked: seq<Event>, askedGone: bool, killed: seq<Event>, killedGone: bool, looked: seq<Event>)

  /** Asked to quit; killed if that did not do and force was asked for; and if neither did, looked at once more. */
  predicate Closes(es: seq<Event>, lease: Lease, force: bool, gone: bool, forced: bool, c: ClosingParts) {
    && es == c.asked + c.killed + c.looked && Asks(c.asked, lease.pid, c.askedGone)
    && (if !c.askedGone && force then Forces(c.killed, lease, c.killedGone, forced) else c.killed == [] && !forced && c.killedGone == c.askedGone)
    && (if c.killedGone then c.looked == [] && gone else c.looked == [SawAlive(lease.pid, !gone)])
  }

  /** A lease is cleaned up exactly when its editor was seen gone, and the answer says which. */
  predicate ClosesLease(es: seq<Event>, lease: Lease, force: bool, r: Closing, c: ClosingParts, cleaned: seq<Event>) {
    match r
    case Closed(pid, forced) =>
      && pid == lease.pid && |es| >= |cleaned| && es[|es| - |cleaned|..] == cleaned
      && Closes(es[..|es| - |cleaned|], lease, force, true, forced, c)
      && (RemovesLocked(cleaned, lease.nonce, true) || RemovesLocked(cleaned, lease.nonce, false))
    case StillRunning(pid) => pid == lease.pid && (Closes(es, lease, force, false, true, c) || Closes(es, lease, force, false, false, c))
    case NotOwned(_) => false
  }

  /** A live lease's editor is asked to quit, a dead one's lease is cleaned up, and nothing else is touched. */
  predicate ClosesOwned(es: seq<Event>, force: bool, r: Closing, c: ClosingParts, cleaned: seq<Event>) {
    && es != [] && es[0].SawLease?
    && if es[0].lease.None? then es == [es[0]] && r == NotOwned(false)
       else
         var lease := es[0].lease.value;
         && |es| >= 2 && es[1].SawState? && es[1].judged == lease
         && match es[1].state
            case Live => ClosesLease(es[2..], lease, force, r, c, cleaned)
            case Unverifiable => es[2..] == [] && r == NotOwned(false)
            case Dead => r.NotOwned? && RemovesLocked(es[2..], lease.nonce, r.staleLeaseRemoved)
  }

  lemma {:induction false} AskedAndGone(es: seq<Event>, pid: nat, gone: bool)
    requires Asks(es, pid, gone)
    ensures gone ==> SawAlive(pid, false) in es
    ensures es[0].AskedToQuit? && forall e :: e in es ==> !e.Killed?
  {
    assert forall k :: 0 < k < |es| ==> es[k] == es[1..][k - 1];
    assert es[1..][|es| - 2] == es[|es| - 1];
  }

  lemma {:induction false} ForcedAndGone(es: seq<Event>, lease: Lease, gone: bool, forced: bool)
    requires Forces(es, lease, gone, forced)
    ensures gone ==> forced && SawAlive(lease.pid, false) in es
    ensures forced ==> Killed(lease.pid) in es
    ensures !forced ==> forall e :: e in es ==> !e.Killed?
  {
    if forced {
      assert es[1] in es && es[2..][|es| - 3] == es[|es| - 1];
    }
  }

  lemma {:induction false} RemovalIsQuiet(es: seq<Event>, nonce: nat, removed: bool)
    requires RemovesLocked(es, nonce, removed)
    ensures forall e :: e in es ==> !e.Killed? && !e.AskedToQuit?
  {
    if es != [LockMissed] {
      assert forall k :: 0 < k < |es| - 1 ==> es[k] == es[1..|es| - 1][k - 1];
    }
  }

  /** A close begins with the request; it kills exactly if it says so, and only if that was asked for. */
  lemma {:induction false} ClosingTells(es: seq<Event>, lease: Lease, force: bool, gone: bool, forced: bool, c: ClosingParts)
    requires Closes(es, lease, force, gone, forced, c)
    ensures es != [] && es[0].AskedToQuit?
    ensures gone ==> SawAlive(lease.pid, false) in es
    ensures (forced ==> force) && (forced <==> exists e :: e in es && e.Killed?)
  {
    AskedAndGone(c.asked, lease.pid, c.askedGone);
    assert es[0] == c.asked[0];
    if !c.askedGone && force { ForcedAndGone(c.killed, lease, c.killedGone, forced); }
    hide Asks, Forces;
  }

  predicate Kills(es: seq<Event>) {
    exists e :: e in es && e.Killed?
  }

  predicate Requests(es: seq<Event>) {
    exists e :: e in es && e.AskedToQuit?
  }

  lemma {:induction false} LeaseClosing(es: seq<Event>, lease: Lease, force: bool, r: Closing, c: ClosingParts, cleaned: seq<Event>)
    requires ClosesLease(es, lease, force, r, c, cleaned)
    ensures (r.Closed? || r.StillRunning?) && r.pid == lease.pid && Requests(es) && (Kills(es) ==> force)
    ensures r.Closed? ==> SawAlive(r.pid, false) in es && (r.forced ==> force)
  {
    hide Closes, RemovesLocked;
    if r.Closed? {
      var body := es[..|es| - |cleaned|];
      assert es == body + cleaned;
      ClosingTells(body, lease, force, true, r.forced, c);
      var removed := RemovesLocked(cleaned, lease.nonce, true);
      RemovalIsQuiet(cleaned, lease.nonce, removed);
      assert body[0] in es;
    } else {
      ClosingTells(es, lease, force, false, Closes(es, lease, force, false, true, c), c);
      assert es[0] in es;
    }
  }

  /**
   * The answers of a close, exactly: a request to quit goes out if and only if the lease was judged live, and then it
   * is that lease's editor the answer is about; a kill only if it was asked for, and closed is said only of a pid
   * seen gone.
   */
  lemma {:induction false} ClosingExactly(es: seq<Event>, force: bool, r: Closing, c: ClosingParts, cleaned: seq<Event>)
    requires ClosesOwned(es, force, r, c, cleaned)
    ensures
      var live := |es| >= 2 && es[1].SawState? && es[1].state.Live?;
      && (live <==> Requests(es))
      && (live <==> r.Closed? || r.StillRunning?)
      && (live ==> es[0] == SawLease(Some(es[1].judged)) && r.pid == es[1].judged.pid)
    ensures r.Closed? ==> SawAlive(r.pid, false) in es && (r.forced ==> force)
    ensures Kills(es) ==> force
  {
    if es[0].lease.Some? {
      var lease, rest := es[0].lease.value, es[2..];
      assert es == [es[0], es[1]] + rest;
      if es[1].state.Live? {
        LeaseClosing(rest, lease, force, r, c, cleaned);
      } else if es[1].state.Dead? {
        RemovalIsQuiet(rest, lease.nonce, r.staleLeaseRemoved);
      }
    }
    hide ClosesLease, RemovesLocked;
  }

  // ── Rounds put together ───────────────────────────────────────────────────────────────────────

  const NO_HOLD := Hold([], ResolveFirst, Parts([], None, [], false, []), [], Rest([], TimedOut, true, [], false))

  /** The binary is resolved first only where it is not known. */
  lemma {:induction false} FirstNeedsBinary(es: seq<Event>, known: bool, p: Parts)
    requires Holds(es, known, ResolveFirst, p)
    ensures !known
  {
  }

  /** One more round: the story goes on undecided, or ends in an answer. */
  lemma {:induction false} StoryGoesOn(story: seq<Telling>, t: Telling, r: Option<Ensured>)
    requires Undecided(story) && |story| < MAX_ENSURE_ROUNDS && t.known == KnownAfter(story)
    requires RoundTells(t.es, t.known, |story| + 1 == MAX_ENSURE_ROUNDS, r, t.round)
    ensures Flat(story + [t]) == Flat(story) + t.es
    ensures r.None? && |story| + 1 < MAX_ENSURE_ROUNDS ==> Undecided(story + [t])
    ensures r.Some? ==> Answers([Probed(false)] + Flat(story + [t]), true, r.value, story + [t])
  {
    hide RoundTells;
    assert (story + [t])[..|story|] == story;
    assert forall i :: 0 <= i < |story| ==> (story + [t])[..i] == story[..i];
  }
}
