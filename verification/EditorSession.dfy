/**
 * The editor session object as it runs: bounded decide-and-wait rounds, the launch under a still-owned lock,
 * the polling loops, and closing. The `Host` is the world of `EditorProtocol` as one session meets it: each of
 * its methods lets the others act and is then the session's next step, so whatever the session does is a run of
 * that protocol. It keeps the log the properties are stated on.
 */
module EditorSession {
  import opened Basics
  import opened EditorProtocol
  import opened EditorAnswers

  const FORCE_KILL_WAIT_MS := 5_000
  const EXIT_POLL_MS := 250

  // ── Logs ──────────────────────────────────────────────────────────────────────────────────────

  function After(log: seq<Event>): Known {
    if log == [] then NOTHING else Learn(After(log[..|log| - 1]), log[|log| - 1])
  }

  /** A log in which everything was allowed when it happened. */
  predicate Lawful(log: seq<Event>) {
    log == [] || (Lawful(log[..|log| - 1]) && Allowed(After(log[..|log| - 1]), log[|log| - 1]))
  }

  datatype Kind = Starting | Resolving | Locking

  predicate IsKind(e: Event, kind: Kind) {
    match kind
    case Starting => e.Spawned?
    case Resolving => e.Resolved?
    case Locking => e.LockTaken?
  }

  function Count(log: seq<Event>, kind: Kind): nat {
    if log == [] then 0 else Count(log[..|log| - 1], kind) + if IsKind(log[|log| - 1], kind) then 1 else 0
  }

  lemma {:induction false} LawfulPrefix(log: seq<Event>, n: nat)
    requires Lawful(log) && n <= |log|
    ensures Lawful(log[..n])
  {
    if n < |log| {
      LawfulPrefix(log[..|log| - 1], n);
      assert log[..|log| - 1][..n] == log[..n];
    } else {
      assert log[..n] == log;
    }
  }

  /** Where the lock last changed hands, or -1. */
  function LastLock(log: seq<Event>): (i: int)
    ensures -1 <= i < |log|
  {
    if log == [] then -1
    else if log[|log| - 1].LockTaken? || log[|log| - 1].LockReleased? then |log| - 1
    else LastLock(log[..|log| - 1])
  }

  lemma {:induction false} HoldBegan(log: seq<Event>)
    ensures After(log).held ==> LastLock(log) >= 0 && log[LastLock(log)].LockTaken?
    ensures forall k :: LastLock(log) < k < |log| ==> !log[k].LockTaken? && !log[k].LockReleased?
  {
    if log != [] {
      HoldBegan(log[..|log| - 1]);
    }
  }

  predicate SeesNoLivingLease(e: Event) {
    (e.SawLease? && e.lease.None?) || (e.SawState? && e.state.Dead?)
  }

  predicate ChangesHold(e: Event) {
    e.LockTaken? || e.LockReleased?
  }

  /** Each thing a session knows of its hold comes from the event that says so, since the lock last changed hands. */
  lemma LearnedOnlyFrom(k: Known, e: Event)
    ensures Learn(k, e).clear && !SeesNoLivingLease(e) ==> k.clear && !ChangesHold(e)
    ensures Learn(k, e).alone && !e.Searched? ==> k.alone && !ChangesHold(e)
    ensures Learn(k, e).alone && e.Searched? ==> !e.found
    ensures Learn(k, e).hooked && !e.Hooked? ==> k.hooked && !ChangesHold(e)
    ensures Learn(k, e).mine && !e.Refreshed? ==> k.mine && !ChangesHold(e)
    ensures Learn(k, e).mine && e.Refreshed? ==> k.hooked && e == Refreshed(true)
  {
  }

  lemma {:induction false} ClearWasSeen(log: seq<Event>) returns (s: int)
    requires After(log).clear
    ensures LastLock(log) < s < |log| && SeesNoLivingLease(log[s])
  {
    s := |log| - 1;
    assert After(log) == Learn(After(log[..s]), log[s]);
    LearnedOnlyFrom(After(log[..s]), log[s]);
    hide After, Learn;
    if !SeesNoLivingLease(log[s]) { s := ClearWasSeen(log[..s]); }
  }

  lemma {:induction false} AloneWasSeen(log: seq<Event>) returns (s: int)
    requires After(log).alone
    ensures LastLock(log) < s < |log| && log[s].Searched? && !log[s].found
  {
    s := |log| - 1;
    assert After(log) == Learn(After(log[..s]), log[s]);
    LearnedOnlyFrom(After(log[..s]), log[s]);
    hide After, Learn;
    if !log[s].Searched? { s := AloneWasSeen(log[..s]); }
  }

  lemma {:induction false} HookWasRun(log: seq<Event>) returns (h: int)
    requires After(log).hooked
    ensures LastLock(log) < h < |log| && log[h].Hooked?
  {
    h := |log| - 1;
    assert After(log) == Learn(After(log[..h]), log[h]);
    LearnedOnlyFrom(After(log[..h]), log[h]);
    hide After, Learn;
    if !log[h].Hooked? { h := HookWasRun(log[..h]); }
  }

  lemma {:induction false} LockWasProvedOurs(log: seq<Event>) returns (h: int, r: int)
    requires After(log).mine
    ensures LastLock(log) < h < r < |log| && log[h].Hooked? && log[r] == Refreshed(true)
  {
    r := |log| - 1;
    assert After(log) == Learn(After(log[..r]), log[r]);
    LearnedOnlyFrom(After(log[..r]), log[r]);
    hide After, Learn;
    if log[r].Refreshed? {
      h := HookWasRun(log[..r]);
    } else {
      h, r := LockWasProvedOurs(log[..r]);
    }
  }

  /** What was allowed when it happened. */
  lemma WasAllowed(log: seq<Event>, at: nat)
    requires Lawful(log) && at < |log|
    ensures Lawful(log[..at]) && Allowed(After(log[..at]), log[at])
  {
    LawfulPrefix(log, at);
    LawfulPrefix(log, at + 1);
    assert log[..at + 1][..at] == log[..at];
    hide After, Allowed;
  }

  /**
   * Every start in a lawful log sits in one uninterrupted hold of the lock in which the call saw no living
   * lease and no other editor, ran the hook, and after the hook still owned the lock.
   */
  lemma EveryStartIsJustified(log: seq<Event>, at: nat) returns (taken: int, judged: int, searched: int, hook: int, refreshed: int)
    requires Lawful(log) && at < |log| && log[at].Spawned?
    ensures 0 <= taken < at && log[taken].LockTaken?
    ensures forall k :: taken < k < at ==> !log[k].LockTaken? && !log[k].LockReleased?
    ensures taken < judged < at && SeesNoLivingLease(log[judged])
    ensures taken < searched < at && log[searched].Searched? && !log[searched].found
    ensures taken < hook < refreshed < at && log[hook].Hooked? && log[refreshed] == Refreshed(true)
  {
    WasAllowed(log, at);
    hide After, Lawful, Learn, LastLock;
    HoldBegan(log[..at]);
    taken := LastLock(log[..at]);
    judged := ClearWasSeen(log[..at]);
    searched := AloneWasSeen(log[..at]);
    hook, refreshed := LockWasProvedOurs(log[..at]);
    assert forall k :: 0 <= k < at ==> log[..at][k] == log[k];
  }

  /** At `s` the pid was verified live, and since then no editor was asked to quit or killed. */
  predicate VerifiedAt(log: seq<Event>, s: int, pid: nat) {
    && 0 <= s < |log| && log[s].SawState? && log[s].state.Live? && log[s].judged.pid == pid
    && forall k :: s < k < |log| ==> !log[k].AskedToQuit? && !log[k].Killed?
  }

  lemma VerdictOnlyFromAJudgement(k: Known, e: Event)
    requires Learn(k, e).verified.Some? && !(e.SawState? && e.state.Live?)
    ensures Learn(k, e).verified == k.verified && !e.AskedToQuit? && !e.Killed?
  {
    hide NoncesOf;
    match e
    case SawState(l, s) =>
    case SawAlive(pid, alive) =>
    case _ =>
  }

  lemma {:induction false} VerifiedWasSeen(log: seq<Event>) returns (s: int)
    requires After(log).verified.Some?
    ensures VerifiedAt(log, s, After(log).verified.value)
  {
    s := |log| - 1;
    assert After(log) == Learn(After(log[..s]), log[s]);
    if log[s].SawState? && log[s].state.Live? {
      hide After;
    } else {
      VerdictOnlyFromAJudgement(After(log[..s]), log[s]);
      hide After, Learn;
      var last := s;
      assert forall k :: 0 <= k < last ==> log[..last][k] == log[k];
      s := VerifiedWasSeen(log[..last]);
      assert log[s] == log[..last][s];
    }
  }

  /** Every quit request and every kill in a lawful log follows a live verdict on that pid, with no request in between. */
  lemma EveryCloseIsVerified(log: seq<Event>, at: nat)
    requires Lawful(log) && at < |log| && (log[at].AskedToQuit? || log[at].Killed?)
    ensures exists s :: 0 <= s < at && log[s].SawState? && log[s].state.Live? && log[s].judged.pid == log[at].pid
              && forall k :: s < k < at ==> !log[k].AskedToQuit? && !log[k].Killed?
  {
    WasAllowed(log, at);
    hide After, Lawful, Learn;
    var s := VerifiedWasSeen(log[..at]);
    assert forall k :: 0 <= k < at ==> log[..at][k] == log[k];
    assert log[s].SawState?;
  }

  // ── The world a session runs in ───────────────────────────────────────────────────────────────

  /**
   * Operating system, engine hooks, lock and lease file, as session `me` meets them. Between two exchanges the
   * other sessions and the processes do what they like (`Others`, by `OthersRun`); each exchange is the next
   * step of session `me` in `EditorProtocol`, and is logged.
   */
  class Host {
    var log: seq<Event>
    var world: World
    const me: nat
    var now: int

    constructor (world: World, me: nat)
      requires Init(world) && me < |world.sessions|
      ensures Valid() && log == []
    {
      this.log, this.world, this.me := [], world, me;
      now := *;
      new;
      InitInv(world);
    }

    ghost predicate Valid()
      reads this
    {
      && Lawful(log) && Inv(world)
      && me < |world.sessions| && me !in world.crashed && world.sessions[me] == After(log)
      && (world.spawning.None? || world.spawning == Some(me))
    }

    /** Other sessions act and processes come and go, up to a moment at which nobody else is between spawn and lease. */
    method Others()
      requires Valid()
      modifies this`world
      ensures Valid() && (old(world).spawning == Some(me) ==> world == old(world))
    {
    }

    twostate predicate Did(e: Event)
      reads this
    {
      && Valid() && log == old(log) + [e] && now >= old(now)
      && After(log) == Learn(After(old(log)), e) && Grows(After(old(log)), e, After(log))
      && forall kind :: Count(log, kind) == Count(old(log), kind) + if IsKind(e, kind) then 1 else 0
    }

    /** One exchange: the next step of this session in the world as it stands, logged. */
    method Enter(e: Event, readable: bool)
      requires Valid() && Enabled(world, me, e, readable)
      modifies this
      ensures Did(e) && world == Apply(old(world), Does(me, e, readable))
    {
      EventKeeps(world, me, e, readable);
      EventMoves(world, me, e, readable);
      LearningGrows(After(log), e);
      world := Apply(world, Does(me, e, readable));
      log := log + [e];
      assert log[..|log| - 1] == old(log);
      var later: int := *;
      now := now + Max(0, later);
    }

    /** Take the startup lock, or find it held for the whole wait. */
    method Acquire() returns (taken: bool)
      requires Valid() && !After(log).held && After(log).bare.None?
      modifies this
      ensures Did(if taken then LockTaken else LockMissed)
    {
      Others();
      taken := *;
      taken := taken && (world.owner.None? || Overtakable(world));
      Enter(if taken then LockTaken else LockMissed, true);
    }

    method Release()
      requires Valid() && After(log).bare.None?
      modifies this
      ensures Did(LockReleased)
    {
      Others();
      Enter(LockReleased, true);
    }

    method ReadLease() returns (l: Option<Lease>)
      requires Valid() && After(log).bare.None?
      modifies this
      ensures Did(SawLease(l))
    {
      Others();
      l := world.lease;
      Enter(SawLease(l), true);
    }

    method Judge(l: Lease) returns (s: LeaseState)
      requires Valid() && After(log).bare.None?
      modifies this
      ensures Did(SawState(l, s))
    {
      Others();
      var readable: bool := *;
      s := StateOf(world.alive, l, readable);
      Enter(SawState(l, s), readable);
    }

    /** `findRunningEditor`: found, and its pid when known. */
    method Search() returns (found: bool, pid: Option<nat>)
      requires Valid() && After(log).bare.None?
      modifies this
      ensures Did(Searched(found, pid)) && (!found ==> pid.None?)
    {
      Others();
      found, pid := *, *;
      if !found { pid := None; }
      Enter(Searched(found, pid), true);
    }

    method ResolveBinary() returns (binary: Option<string>)
      requires Valid() && After(log).bare.None?
      modifies this
      ensures Did(Resolved(binary.Some?))
    {
      Others();
      binary := *;
      Enter(Resolved(binary.Some?), true);
    }

    method BeginHook()
      requires Valid() && After(log).bare.None?
      modifies this
      ensures Did(HookBegun)
    {
      Others();
      Enter(HookBegun, true);
    }

    /** `beforeLaunch`, which may throw. */
    method RunHook() returns (ok: bool)
      requires Valid() && After(log).bare.None?
      modifies this
      ensures Did(if ok then Hooked else HookFailed)
    {
      Others();
      ok := *;
      Enter(if ok then Hooked else HookFailed, true);
    }

    /** The lock's `refresh`: is it still ours? The call may fail. */
    method Refresh() returns (mine: bool)
      requires Valid() && After(log).bare.None?
      modifies this
      ensures Did(Refreshed(mine))
    {
      Others();
      mine := *;
      mine := mine && world.owner == Some(me);
      Enter(Refreshed(mine), true);
    }

    method Spawn() returns (pid: Option<nat>)
      requires Valid() && After(log).bare.None?
      requires After(log).held && After(log).clear && After(log).alone && After(log).hooked && After(log).mine
      modifies this
      ensures Did(if pid.Some? then Spawned(pid.value) else SpawnFailed)
    {
      Others();
      pid := *;
      if pid.Some? && pid.value in world.alive { pid := None; }
      Enter(if pid.Some? then Spawned(pid.value) else SpawnFailed, true);
    }

    /** Start time, nonce and the atomic write of the lease. */
    method WriteLease(pid: nat) returns (l: Lease)
      requires Valid() && After(log).bare == Some(pid)
      modifies this
      ensures l.pid == pid && Did(Leased(l))
    {
      assert SessionOk(world, me);
      var readable: bool := *;
      l := Lease(pid, world.alive[pid].nonce.value, if readable then Some(world.alive[pid].start) else None);
      Enter(Leased(l), readable);
    }

    method Unlink(nonce: nat) returns (ok: bool)
      requires Valid() && Allowed(After(log), Unlinked(nonce))
      modifies this
      ensures Did(if ok then Unlinked(nonce) else UnlinkFailed(nonce))
    {
      Others();
      ok := *;
      Enter(if ok then Unlinked(nonce) else UnlinkFailed(nonce), true);
    }

    method IsAlive(pid: nat) returns (alive: bool)
      requires Valid() && After(log).bare.None?
      modifies this
      ensures Did(SawAlive(pid, alive))
    {
      Others();
      alive := pid in world.alive;
      Enter(SawAlive(pid, alive), true);
    }

    method Probe() returns (ready: bool)
      requires Valid() && After(log).bare.None?
      modifies this
      ensures Did(Probed(ready))
    {
      Others();
      ready := *;
      Enter(Probed(ready), true);
    }

    method RequestClose(pid: nat) returns (delivered: bool)
      requires Valid() && After(log).bare.None? && After(log).verified == Some(pid)
      modifies this
      ensures Did(AskedToQuit(pid, delivered))
    {
      Others();
      delivered := *;
      Enter(AskedToQuit(pid, delivered), true);
    }

    method ForceKill(pid: nat)
      requires Valid() && After(log).bare.None? && After(log).verified == Some(pid)
      modifies this
      ensures Did(Killed(pid))
    {
      Others();
      Enter(Killed(pid), true);
    }

    /** Whenever the session is between two exchanges: one session-started editor at most, and the lease names it. */
    lemma OneEditorAlive(p: nat, q: nat)
      requires Valid() && IsEditor(world, p)
      ensures world.spawning.None? ==> world.lease.Some? && world.lease.value.pid == p && Some(world.lease.value.nonce) == world.alive[p].nonce
      ensures IsEditor(world, q) ==> q == p
    {
      OneEditor(world, p, q);
    }

    method Sleep(ms: int)
      requires Valid()
      modifies this`now, this`world
      ensures Valid() && now >= old(now) + ms
    {
      Others();
      var longer: int := *;
      now := now + ms + Max(0, longer);
    }
  }

  /** The step of a session's own event: it learns the event, and stays alive. */
  lemma EventMoves(w: World, me: nat, e: Event, readable: bool)
    requires Enabled(w, me, e, readable)
    ensures
      var w' := Apply(w, Does(me, e, readable));
      && w'.sessions[me] == Learn(w.sessions[me], e) && w'.crashed == w.crashed
      && (w'.spawning.None? || w'.spawning == Some(me))
  {
  }

  /** Nothing started, resolved or locked in between, the lock as it was, and no lease forgotten. */
  twostate predicate OnlyWatched(host: Host)
    reads host
  {
    && Settled(host) && host.now >= old(host.now) && Remembers(host)
    && (After(host.log).held <==> old(After(host.log).held)) && (After(host.log).inHook <==> old(After(host.log).inHook))
    && forall kind :: Count(host.log, kind) == old(Count(host.log, kind))
  }

  /** Between two calls no spawned editor is without a lease. */
  ghost predicate Settled(host: Host)
    reads host
  {
    host.Valid() && After(host.log).bare.None?
  }

  /** The log goes on, and so does what the session knows of leases. */
  twostate predicate Remembers(host: Host)
    reads host
  {
    && old(host.log) <= host.log
    && old(After(host.log).read) <= After(host.log).read && old(After(host.log).gone) <= After(host.log).gone
  }

  /** Notices that a foreign editor whose pid is unknown has gone: two scans in a row that miss it. */
  class ForeignWatch {
    const intervalMs: int
    var lastCheck: int
    var missed: bool
    ghost var scans: seq<bool>

    constructor (intervalMs: int, now: int)
      ensures Valid() && scans == []
    {
      this.intervalMs := intervalMs;
      lastCheck, missed, scans := now, false, [];
    }

    ghost predicate Valid()
      reads this
    {
      missed <==> scans != [] && !scans[|scans| - 1]
    }

    /** A scan that fails proves nothing; the confirming scan after a miss does not wait for the interval. */
    method Check(host: Host) returns (gone: bool, ghost es: seq<Event>)
      requires Valid() && Settled(host) && !After(host.log).held
      modifies this, host
      ensures Valid() && OnlyWatched(host)
      ensures scans == old(scans) || (|scans| == |old(scans)| + 1 && scans[..|old(scans)|] == old(scans))
      ensures gone <==> |scans| > |old(scans)| && |scans| >= 2 && !scans[|scans| - 1] && !scans[|scans| - 2]
      ensures host.log == old(host.log) + es
      ensures if scans == old(scans) then es == [] else |es| == 1 && es[0].Searched? && es[0].found == scans[|scans| - 1]
    {
      hide After, Lawful, Count, Inv, Learn;
      gone, es := false, [];
      if !missed && host.now - lastCheck < intervalMs { return; }
      lastCheck := host.now;
      var failed: bool := *;
      if failed { return; }
      var found, at := host.Search();
      scans, es := scans + [found], [Searched(found, at)];
      if found || !missed {
        missed := !found;
        return;
      }
      gone := true;
    }
  }

  // ── The session ───────────────────────────────────────────────────────────────────────────────

  class Session {
    const host: Host
    const supported: bool
    const readyTimeoutMs: int
    const foreignTimeoutMs: int
    const intervalMs: int
    const foreignRecheckMs: int

    constructor (host: Host, supported: bool, readyTimeoutMs: int, foreignTimeoutMs: int, intervalMs: int, foreignRecheckMs: int)
      ensures this.host == host && this.supported == supported
    {
      this.host, this.supported := host, supported;
      this.readyTimeoutMs, this.foreignTimeoutMs := readyTimeoutMs, foreignTimeoutMs;
      this.intervalMs, this.foreignRecheckMs := intervalMs, foreignRecheckMs;
    }

    /** The reason to stop waiting: the pid is gone, or two scans in a row miss the editor. */
    method LookForIt(pid: Option<nat>, watch: ForeignWatch) returns (gone: bool, ghost seen: seq<Event>)
      requires Settled(host) && !After(host.log).held && watch.Valid()
      modifies host, watch
      ensures OnlyWatched(host) && watch.Valid() && host.log == old(host.log) + seen
      ensures if pid.Some? then seen == [SawAlive(pid.value, !gone)] else seen == [] || (|seen| == 1 && seen[0].Searched?)
      ensures pid.None? && gone ==> seen != [] && !seen[0].found
    {
      hide After, Lawful, Count, Inv, Learn;
      if pid.Some? {
        var alive := host.IsAlive(pid.value);
        gone, seen := !alive, [SawAlive(pid.value, alive)];
      } else {
        gone, seen := watch.Check(host);
      }
    }

    /** Poll until ready, until the editor waited for is gone, or until the time is up. */
    method WaitForReady(pid: Option<nat>, timeoutMs: int) returns (w: Waited, ghost es: seq<Event>)
      requires Settled(host) && !After(host.log).held
      modifies host
      ensures OnlyWatched(host) && host.log == old(host.log) + es
      ensures WaitsFor(es, pid, w)
      ensures w.TimedOut? && timeoutMs >= 0 && intervalMs > 0 ==> host.now - old(host.now) >= timeoutMs
    {
      hide After, Lawful, Count, Inv, Learn, StillWaits, WaitsFor, Allowed;
      es := [];
      NothingWaited(pid);
      if timeoutMs < 0 || intervalMs <= 0 {
        w := TimedOut;
        return;
      }
      var start := host.now;
      var watch := new ForeignWatch(foreignRecheckMs, host.now);
      while true
        invariant OnlyWatched(host) && watch.Valid() && start == old(host.now) && host.log == old(host.log) + es
        invariant StillWaits(es, pid)
        decreases timeoutMs - (host.now - start)
      {
        var gone, seen := LookForIt(pid, watch);
        WaitGoesOn(es, seen, pid);
        es := es + seen;
        assert !gone ==> StillWaits(es, pid);
        if gone {
          w := Stopped;
          return;
        }
        var ready := host.Probe();
        WaitGoesOn(es, [Probed(ready)], pid);
        es := es + [Probed(ready)];
        if ready {
          w := IsReady;
          return;
        }
        var remaining := timeoutMs - (host.now - start);
        if remaining <= 0 {
          w := TimedOut;
          return;
        }
        host.Sleep(Min(intervalMs, remaining));
      }
    }

    /** `removeLease`: unlink the lease while it still carries `nonce`. */
    method RemoveLease(nonce: nat) returns (removed: bool, ghost es: seq<Event>)
      requires Settled(host) && After(host.log).held && !After(host.log).inHook && nonce in After(host.log).gone
      modifies host
      ensures OnlyWatched(host) && After(host.log).alone == old(After(host.log).alone)
      ensures old(After(host.log).clear) ==> After(host.log).clear
      ensures host.log == old(host.log) + es && Removes(es, nonce, removed)
    {
      hide After, Lawful, Count, Inv;
      var lease := host.ReadLease();
      es := [SawLease(lease)];
      if lease.None? || lease.value.nonce != nonce {
        removed := false;
        return;
      }
      removed := host.Unlink(nonce);
      es := es + [if removed then Unlinked(nonce) else UnlinkFailed(nonce)];
    }

    /** Lease cleanup under the lock; a busy lock leaves the dead lease to the next `Ensure`. */
    method RemoveLeaseLocked(nonce: nat) returns (removed: bool, ghost es: seq<Event>)
      requires Settled(host) && !After(host.log).held && nonce in After(host.log).gone
      modifies host
      ensures Settled(host) && !After(host.log).held && Remembers(host)
      ensures Count(host.log, Starting) == old(Count(host.log, Starting)) && Count(host.log, Resolving) == old(Count(host.log, Resolving))
      ensures Count(host.log, Locking) <= old(Count(host.log, Locking)) + 1
      ensures host.log == old(host.log) + es && RemovesLocked(es, nonce, removed)
    {
      hide After, Lawful, Count, Inv, Learn;
      var taken := host.Acquire();
      if !taken {
        removed, es := false, [LockMissed];
        return;
      }
      ghost var inner;
      removed, inner := RemoveLease(nonce);
      host.Release();
      es := [LockTaken] + inner + [LockReleased];
      assert es[1..|es| - 1] == inner;
    }

    /** Read the lease and judge it: `None` unless it may be joined. A lease that may not is dead, and so is its editor. */
    method FindLiving() returns (lease: Option<Lease>, join: bool, ghost es: seq<Event>)
      requires Settled(host) && After(host.log).held
      modifies host
      ensures OnlyWatched(host)
      ensures join ==> lease.Some?
      ensures !join ==> After(host.log).clear && (lease.Some? ==> lease.value.nonce in After(host.log).gone)
      ensures host.log == old(host.log) + es && LooksForLease(es, lease, join)
    {
      hide After, Lawful, Count, Inv;
      lease := host.ReadLease();
      join, es := false, [SawLease(lease)];
      if lease.Some? {
        var state := host.Judge(lease.value);
        join, es := !state.Dead?, es + [SawState(lease.value, state)];
      }
    }

    /** Look for an editor nobody leased. */
    method FindForeign() returns (found: bool, pid: Option<nat>)
      requires Settled(host) && After(host.log).held
      modifies host
      ensures OnlyWatched(host) && After(host.log).clear == old(After(host.log).clear)
      ensures !found ==> After(host.log).alone && pid.None?
      ensures host.log == old(host.log) + [Searched(found, pid)]
    {
      hide After, Lawful, Count, Inv;
      found, pid := host.Search();
    }

    /** The decision and the launch, all under one hold of the startup lock. */
    method DecideAndLaunch(binary: Option<string>) returns (o: StartOutcome, ghost es: seq<Event>, ghost p: Parts)
      requires Settled(host) && After(host.log).held && !After(host.log).inHook
      modifies host
      ensures Settled(host) && After(host.log).held && Remembers(host)
      ensures Count(host.log, Resolving) == old(Count(host.log, Resolving)) && Count(host.log, Locking) == old(Count(host.log, Locking))
      ensures Count(host.log, Starting) == old(Count(host.log, Starting)) + if o.Started? then 1 else 0
      ensures o.Started? ==> o.started in After(host.log).read
      ensures host.log == old(host.log) + es && Decides(es, binary.Some?, o, p)
    {
      hide After, Lawful, Count, Inv, Learn, LooksForLease, Removes, LaunchesOrFails;
      var lease, join, looked := FindLiving();
      es, p := looked, Parts(looked, lease, [], false, []);
      if join {
        o := Join(lease.value);
        return;
      }
      var found, pid := FindForeign();
      es := es + [Searched(found, pid)];
      if found {
        o := Yield(pid);
        return;
      }
      if binary.None? {
        o := ResolveFirst;
        return;
      }
      if lease.Some? {
        var removed, cleaned := RemoveLease(lease.value.nonce);
        p := p.(cleaned := cleaned, removed := removed);
      }
      es := es + p.cleaned;
      ghost var launched;
      o, launched := HookAndLaunch();
      es, p := es + launched, p.(launched := launched);
    }

    method HookAndLaunch() returns (o: StartOutcome, ghost es: seq<Event>)
      requires Settled(host) && After(host.log).held && After(host.log).clear && After(host.log).alone
      modifies host
      ensures Settled(host) && After(host.log).held && Remembers(host)
      ensures Count(host.log, Resolving) == old(Count(host.log, Resolving)) && Count(host.log, Locking) == old(Count(host.log, Locking))
      ensures Count(host.log, Starting) == old(Count(host.log, Starting)) + if o.Started? then 1 else 0
      ensures o.Started? ==> o.started in After(host.log).read
      ensures host.log == old(host.log) + es && LaunchesOrFails(es, o) && (o.Failed? || o.Lost? || o.Started?)
    {
      hide After, Lawful, Count, Inv;
      host.BeginHook();
      var ok := host.RunHook();
      if !ok {
        o, es := Failed(HookThrew), [HookBegun, HookFailed];
        return;
      }
      var mine := host.Refresh();
      if !mine {
        o, es := Lost, [HookBegun, Hooked, Refreshed(false)];
        return;
      }
      var pid := host.Spawn();
      if pid.None? {
        o, es := Failed(LaunchFailed), [HookBegun, Hooked, Refreshed(true), SpawnFailed];
        return;
      }
      var lease := host.WriteLease(pid.value);
      o, es := Started(lease), [HookBegun, Hooked, Refreshed(true), Spawned(pid.value), Leased(lease)];
    }

    /** What one round may add to the log: one resolver call if none was made, at most one start, and a bounded number of holds. */
    twostate predicate Bounded(binary0: Option<string>, new binary: Option<string>, new r: Option<Ensured>)
      reads host
    {
      && Settled(host) && !After(host.log).held && Remembers(host)
      && Count(host.log, Resolving) <= old(Count(host.log, Resolving)) + (if binary0.None? then 1 else 0)
      && (Count(host.log, Resolving) > old(Count(host.log, Resolving)) && r.None? ==> binary.Some?)
      && (binary0.Some? ==> binary == binary0)
      && Count(host.log, Starting) <= old(Count(host.log, Starting)) + 1
      && (r.None? ==> Count(host.log, Starting) == old(Count(host.log, Starting)))
      && (r == Some(Ready(StartedHere)) ==> Count(host.log, Starting) == old(Count(host.log, Starting)) + 1)
      && Count(host.log, Locking) <=
           old(Count(host.log, Locking)) + 1 + (if binary0.None? && (binary.Some? || r.Some?) then 1 else 0) + (if r.Some? then 1 else 0)
    }

    /** Take the lock, decide and perhaps launch, release the lock. */
    method UnderLock(binary: Option<string>) returns (o: StartOutcome, ghost es: seq<Event>, ghost p: Parts)
      requires Settled(host) && !After(host.log).held
      modifies host
      ensures Settled(host) && !After(host.log).held && Remembers(host)
      ensures Count(host.log, Resolving) == old(Count(host.log, Resolving)) && Count(host.log, Locking) <= old(Count(host.log, Locking)) + 1
      ensures Count(host.log, Starting) == old(Count(host.log, Starting)) + if o.Started? then 1 else 0
      ensures o.Started? ==> o.started in After(host.log).read
      ensures host.log == old(host.log) + es && Holds(es, binary.Some?, o, p)
    {
      hide After, Lawful, Count, Inv, Learn, Decides;
      var taken := host.Acquire();
      if !taken {
        o, es, p := Failed(LockBusy), [LockMissed], Parts([], None, [], false, []);
        return;
      }
      ghost var inner;
      o, inner, p := DecideAndLaunch(binary);
      host.Release();
      es := [LockTaken] + inner + [LockReleased];
      assert es[1..|es| - 1] == inner;
    }

    /** What becomes of a decision once the lock is released. */
    method Follow(o: StartOutcome, last: bool) returns (r: Option<Ensured>, ghost es: seq<Event>, ghost t: Rest)
      requires Settled(host) && !After(host.log).held && !o.ResolveFirst?
      requires o.Started? ==> o.started in After(host.log).read
      modifies host
      ensures Settled(host) && !After(host.log).held && Remembers(host)
      ensures Count(host.log, Resolving) == old(Count(host.log, Resolving)) && Count(host.log, Starting) == old(Count(host.log, Starting))
      ensures Count(host.log, Locking) <= old(Count(host.log, Locking)) + if r.Some? then 1 else 0
      ensures (last || o.Started? ==> r.Some?) && (r == Some(Ready(StartedHere)) ==> o.Started?)
      ensures host.log == old(host.log) + es && Follows(es, o, last, r, t)
      ensures intervalMs > 0 && foreignTimeoutMs >= 0 && r == Some(Refused(NotReady(Foreign))) && o.Yield? ==>
                host.now - old(host.now) >= foreignTimeoutMs
      ensures intervalMs > 0 && readyTimeoutMs >= 0 && r == Some(Refused(NotReady(OwnedByPeer))) && o.Join? ==>
                host.now - old(host.now) >= readyTimeoutMs
    {
      hide After, Lawful, Count, Inv, Learn, WaitsFor, RemovesLocked;
      es, t := [], Rest([], TimedOut, true, [], false);
      match o
      case Lost => r := if last then Some(Refused(LockBusy)) else None;
      case Failed(why) => r := Some(Refused(why));
      case Join(lease) =>
        ghost var w;
        r, w, es := WaitOrRetry(OwnedByPeer, Some(lease.pid), readyTimeoutMs, last);
        t := t.(waited := es, w := w);
      case Yield(pid) =>
        ghost var w;
        r, w, es := WaitOrRetry(Foreign, pid, foreignTimeoutMs, last);
        t := t.(waited := es, w := w);
      case Started(lease) =>
        var w;
        w, es := WaitForReady(Some(lease.pid), readyTimeoutMs);
        t := t.(waited := es, w := w);
        if w.IsReady? {
          r := Some(Ready(StartedHere));
          return;
        }
        var alive := host.IsAlive(lease.pid);
        if !alive {
          var removed, cleaned := RemoveLeaseLocked(lease.nonce);
          t := t.(cleaned := cleaned, removed := removed);
        }
        es, t := es + [SawAlive(lease.pid, alive)] + t.cleaned, t.(alive := alive);
        r := Some(Refused(if w.Stopped? then Exited(StartedHere) else NotReady(StartedHere)));
    }

    /** One decide-and-wait round; no result means the editor waited for is gone, or the lock was lost, and it is time to decide again. */
    method AttemptEnsure(binary0: Option<string>, last: bool)
      returns (r: Option<Ensured>, binary: Option<string>, ghost es: seq<Event>, ghost round: Round)
      requires Settled(host) && !After(host.log).held
      modifies host
      ensures Bounded(binary0, binary, r)
      ensures last ==> r.Some?
      ensures host.log == old(host.log) + es && RoundTells(es, binary0.Some?, last, r, round)
      ensures r.None? ==> (binary.Some? <==> binary0.Some? || round.resolved == Some(true))
      decreases binary0.None?
    {
      hide After, Lawful, Count, Inv, Learn, Holds, Follows;
      binary := binary0;
      var o, held, p := UnderLock(binary);
      if o.ResolveFirst? {
        assert binary.None? by { FirstNeedsBinary(held, binary.Some?, p); }
        binary := host.ResolveBinary();
        if binary.None? {
          r, es, round := Some(Refused(NoEditorBinary)), held + [Resolved(false)], Round(held, p, Some(false), NO_HOLD);
          return;
        }
        ghost var rest;
        r, binary, rest, round := AttemptEnsure(binary, last);
        es := held + [Resolved(true)] + rest;
        assert es[|held| + 1..] == rest && es[..|held| + 1] == held + [Resolved(true)];
        round := Round(held, p, Some(true), round.hold);
      } else {
        ghost var t;
        r, es, t := Follow(o, last);
        round := Round([], p, None, Hold(held, o, p, es, t));
        es := held + es;
      }
    }

    method WaitOrRetry(source: Source, pid: Option<nat>, timeoutMs: int, last: bool) returns (r: Option<Ensured>, ghost w: Waited, ghost es: seq<Event>)
      requires Settled(host) && !After(host.log).held && !source.StartedHere?
      modifies host
      ensures OnlyWatched(host)
      ensures last ==> r.Some?
      ensures host.log == old(host.log) + es && WaitsFor(es, pid, w) && r == AnswerOf(w, source, last)
      ensures r == Some(Refused(NotReady(source))) && timeoutMs >= 0 && intervalMs > 0 ==> host.now - old(host.now) >= timeoutMs
    {
      hide After, Lawful, Count, Inv, Learn, WaitsFor;
      var waited;
      waited, es := WaitForReady(pid, timeoutMs);
      w := waited;
      match waited
      case IsReady => r := Some(Ready(source));
      case Stopped => r := if last then Some(Refused(Exited(source))) else None;
      case TimedOut => r := Some(Refused(NotReady(source)));
    }

    /**
     * Make sure an editor is running and ready. It ends after at most three decide-and-wait rounds with at
     * most one resolver call and at most one start, and its answer is that of its exchanges.
     */
    method Ensure() returns (r: Ensured, rounds: nat, ghost es: seq<Event>, ghost story: seq<Telling>)
      requires Settled(host) && !After(host.log).held
      modifies host
      ensures Settled(host) && !After(host.log).held
      ensures rounds <= MAX_ENSURE_ROUNDS
      ensures Count(host.log, Resolving) <= old(Count(host.log, Resolving)) + 1
      ensures Count(host.log, Starting) <= old(Count(host.log, Starting)) + 1
      ensures Count(host.log, Locking) <= old(Count(host.log, Locking)) + MAX_ENSURE_ROUNDS + 2
      ensures host.log == old(host.log) + es && Answers(es, supported, r, story)
      ensures r == Ready(Running) <==> es[0] == Probed(true)
      ensures r == Refused(Unsupported) <==> es[0] == Probed(false) && !supported
      ensures Justified(es, r) && (Spawns(es) <==> OfOurOwn(r))
    {
      hide After, Lawful, Count, Inv, Learn, RoundTells, Justified, Spawns;
      rounds, story := 0, [];
      var warm := host.Probe();
      es := [Probed(warm)];
      if warm {
        r := Ready(Running);
        AnswersExactly(es, supported, r, story);
        return;
      }
      if !supported {
        r := Refused(Unsupported);
        AnswersExactly(es, supported, r, story);
        return;
      }
      var result: Option<Ensured>, binary: Option<string> := None, None;
      while result.None?
        invariant Settled(host) && !After(host.log).held
        invariant rounds == |story| && rounds <= MAX_ENSURE_ROUNDS && (rounds == MAX_ENSURE_ROUNDS ==> result.Some?)
        invariant Count(host.log, Resolving) <= old(Count(host.log, Resolving)) + (if binary.Some? || result.Some? then 1 else 0)
        invariant Count(host.log, Starting) <= old(Count(host.log, Starting)) + 1
        invariant result.None? ==> Count(host.log, Starting) == old(Count(host.log, Starting))
        invariant Count(host.log, Locking) <= old(Count(host.log, Locking)) + rounds + (if binary.Some? || result.Some? then 1 else 0) + (if result.Some? then 1 else 0)
        invariant es == [Probed(false)] + Flat(story) && host.log == old(host.log) + es
        invariant result.None? ==> Undecided(story) && (binary.Some? <==> KnownAfter(story))
        invariant result.Some? ==> Answers(es, true, result.value, story)
        decreases MAX_ENSURE_ROUNDS - rounds
      {
        rounds := rounds + 1;
        ghost var known, before := binary.Some?, story;
        ghost var added, round;
        result, binary, added, round := AttemptEnsure(binary, rounds >= MAX_ENSURE_ROUNDS);
        story, es := story + [Telling(added, known, round)], es + added;
        StoryGoesOn(before, Telling(added, known, round), result);
      }
      r := result.value;
      AnswersExactly(es, supported, r, story);
    }

    method WaitForExit(pid: nat, timeoutMs: int) returns (exited: bool, ghost es: seq<Event>)
      requires Settled(host) && !After(host.log).held
      modifies host
      ensures OnlyWatched(host)
      ensures exited ==> forall l :: l in After(host.log).read && l.pid == pid ==> l.nonce in After(host.log).gone
      ensures host.log == old(host.log) + es && WatchesExit(es, pid, exited)
      ensures !exited ==> host.now >= old(host.now) + timeoutMs
    {
      hide After, Lawful, Count, Inv, Learn;
      var deadline := host.now + timeoutMs;
      es := [];
      while true
        invariant OnlyWatched(host) && host.log == old(host.log) + es
        invariant forall k :: 0 <= k < |es| ==> es[k] == SawAlive(pid, true)
        decreases deadline - host.now
      {
        var alive := host.IsAlive(pid);
        es := es + [SawAlive(pid, alive)];
        if !alive {
          exited := true;
          return;
        }
        if host.now >= deadline {
          exited := false;
          return;
        }
        host.Sleep(Min(EXIT_POLL_MS, Max(1, deadline - host.now)));
      }
    }

    /** The pid must still be the leased editor right before the kill. */
    method KillIfStillOurs(lease: Lease) returns (gone: bool, forced: bool, ghost es: seq<Event>)
      requires Settled(host) && !After(host.log).held
      modifies host
      ensures OnlyWatched(host)
      ensures gone && lease in old(After(host.log).read) ==> lease.nonce in After(host.log).gone
      ensures host.log == old(host.log) + es && Forces(es, lease, gone, forced)
    {
      hide After, Lawful, Count, Inv, WatchesExit;
      var state := host.Judge(lease);
      es := [SawState(lease, state)];
      if !state.Live? {
        gone, forced := false, false;
        return;
      }
      host.ForceKill(lease.pid);
      ghost var waited;
      gone, waited := WaitForExit(lease.pid, FORCE_KILL_WAIT_MS);
      forced, es := true, es + [Killed(lease.pid)] + waited;
      assert es[2..] == waited;
    }

    /** Is the leased editor gone now? */
    method SeenGone(lease: Lease) returns (gone: bool)
      requires Settled(host) && !After(host.log).held
      modifies host
      ensures OnlyWatched(host) && host.log == old(host.log) + [SawAlive(lease.pid, !gone)]
      ensures gone && lease in old(After(host.log).read) ==> lease.nonce in After(host.log).gone
    {
      hide After, Lawful, Count, Inv, Learn;
      var alive := host.IsAlive(lease.pid);
      gone := !alive;
    }

    /** Ask once; an undelivered request is not worth waiting for. */
    method AskAndWait(lease: Lease, timeoutMs: int) returns (gone: bool, ghost es: seq<Event>)
      requires Settled(host) && !After(host.log).held && After(host.log).verified == Some(lease.pid)
      modifies host
      ensures OnlyWatched(host)
      ensures gone && lease in old(After(host.log).read) ==> lease.nonce in After(host.log).gone
      ensures host.log == old(host.log) + es && Asks(es, lease.pid, gone)
      ensures !gone && es[0].delivered ==> host.now >= old(host.now) + timeoutMs
    {
      hide After, Lawful, Count, Inv, Learn;
      var delivered := host.RequestClose(lease.pid);
      ghost var waited;
      if delivered {
        gone, waited := WaitForExit(lease.pid, timeoutMs);
      } else {
        gone := SeenGone(lease);
        waited := [SawAlive(lease.pid, !gone)];
      }
      es := [AskedToQuit(lease.pid, delivered)] + waited;
      assert es[1..] == waited;
    }

    /** Ask, wait, and if told to force it, verify again and kill; `gone` is said only of a pid seen gone. */
    method AskToClose(lease: Lease, timeoutMs: int, force: bool) returns (gone: bool, forced: bool, ghost es: seq<Event>, ghost c: ClosingParts)
      requires Settled(host) && !After(host.log).held && After(host.log).verified == Some(lease.pid)
      modifies host
      ensures OnlyWatched(host)
      ensures gone && lease in old(After(host.log).read) ==> lease.nonce in After(host.log).gone
      ensures host.log == old(host.log) + es && Closes(es, lease, force, gone, forced, c)
    {
      hide After, Lawful, Count, Inv, Learn, Asks, Forces;
      forced := false;
      ghost var asked, killed, looked := [], [], [];
      gone, asked := AskAndWait(lease, timeoutMs);
      c := ClosingParts(asked, gone, killed, false, looked);
      if !gone && force {
        gone, forced, killed := KillIfStillOurs(lease);
      }
      c := c.(killed := killed, killedGone := gone);
      if !gone {
        gone := SeenGone(lease);
        looked := [SawAlive(lease.pid, !gone)];
      }
      c, es := c.(looked := looked), asked + killed + looked;
    }

    /** Close the editor of a lease just verified live; `Closed` is said only of a pid seen gone. */
    method CloseLease(lease: Lease, timeoutMs: int, force: bool) returns (r: Closing, ghost es: seq<Event>, ghost c: ClosingParts, ghost cleaned: seq<Event>)
      requires Settled(host) && !After(host.log).held && After(host.log).verified == Some(lease.pid) && lease in After(host.log).read
      modifies host
      ensures Settled(host) && !After(host.log).held && Remembers(host)
      ensures r == StillRunning(lease.pid) || (r.Closed? && r.pid == lease.pid && (r.forced ==> force))
      ensures Count(host.log, Starting) == old(Count(host.log, Starting))
      ensures host.log == old(host.log) + es && ClosesLease(es, lease, force, r, c, cleaned)
    {
      hide After, Lawful, Count, Inv, Learn, Asks, Forces, RemovesLocked;
      var gone, forced;
      gone, forced, es, c := AskToClose(lease, timeoutMs, force);
      cleaned := [];
      if !gone {
        r := StillRunning(lease.pid);
        return;
      }
      var removed;
      removed, cleaned := RemoveLeaseLocked(lease.nonce);
      r := Closed(lease.pid, forced);
      assert (es + cleaned)[..|es|] == es && (es + cleaned)[|es|..] == cleaned;
      es := es + cleaned;
      assert ClosesLease(es, lease, force, r, c, cleaned) by { assert RemovesLocked(cleaned, lease.nonce, removed); }
    }

    /** `close --owned-only`: only an editor whose lease is verified live is ever asked to quit, and such a one always is. */
    method CloseOwned(timeoutMs: int, force: bool) returns (r: Closing, ghost es: seq<Event>, ghost c: ClosingParts, ghost cleaned: seq<Event>)
      requires Settled(host) && !After(host.log).held
      modifies host
      ensures Settled(host) && !After(host.log).held
      ensures Count(host.log, Starting) == old(Count(host.log, Starting))
      ensures host.log == old(host.log) + es && ClosesOwned(es, force, r, c, cleaned)
      ensures Requests(es) <==> r.Closed? || r.StillRunning?
      ensures r.Closed? ==> SawAlive(r.pid, false) in es && (r.forced ==> force)
      ensures Kills(es) ==> force
    {
      hide After, Lawful, Count, Inv, ClosesLease, RemovesLocked, Requests, Kills;
      c, cleaned := ClosingParts([], false, [], false, []), [];
      var lease := host.ReadLease();
      es := [SawLease(lease)];
      if lease.None? {
        r := NotOwned(false);
        ClosingExactly(es, force, r, c, cleaned);
        return;
      }
      var state := host.Judge(lease.value);
      es := es + [SawState(lease.value, state)];
      ghost var rest := [];
      match state {
        case Live => r, rest, c, cleaned := CloseLease(lease.value, timeoutMs, force);
        case Unverifiable => r := NotOwned(false);
        case Dead =>
          var removed;
          removed, rest := RemoveLeaseLocked(lease.value.nonce);
          r := NotOwned(removed);
      }
      es := es + rest;
      assert es[2..] == rest;
      ClosingExactly(es, force, r, c, cleaned);
    }
  }
}
