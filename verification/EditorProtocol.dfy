/**
 * Any number of CLI calls around one project's editor: the lease file, the startup lock, the process table
 * with its reused pids. Every step is one exchange of one session with its surroundings (one read of the lease,
 * one look at a process, one spawn, one unlink), a crash, or a process starting or exiting by itself.
 */
module EditorProtocol {
  import opened Basics

  /** A live process: when it started, and the lease nonce it was launched with if a session started it. */
  datatype Process = Process(start: nat, nonce: Option<nat>)

  datatype Lease = Lease(pid: nat, nonce: nat, start: Option<nat>)

  datatype LeaseState = Live | Unverifiable | Dead

  /** `readable` says whether the start time of the pid can be read right now. */
  function StateOf(alive: map<nat, Process>, l: Lease, readable: bool): LeaseState {
    if l.pid !in alive then Dead
    else if l.start.None? || !readable then Unverifiable
    else if alive[l.pid].start == l.start.value then Live
    else Dead
  }

  /** A lease is live or dead only where that can be told: its pid is gone, or both start times are known. Otherwise it is neither. */
  lemma {:induction false} StateExactly(alive: map<nat, Process>, l: Lease, readable: bool)
    ensures
      var known := l.start.Some? && readable;
      && (StateOf(alive, l, readable).Live? <==> l.pid in alive && known && l.start == Some(alive[l.pid].start))
      && (StateOf(alive, l, readable).Dead? <==> l.pid !in alive || (known && l.start != Some(alive[l.pid].start)))
  {
  }

  // ── What one session does and knows ───────────────────────────────────────────────────────────

  datatype Event =
    | LockTaken
    | LockMissed
    | LockReleased
    | SawLease(lease: Option<Lease>)
    | SawState(judged: Lease, state: LeaseState)
    | Searched(found: bool, at: Option<nat>)
    | Resolved(found: bool)
    | HookBegun
    | Hooked
    | HookFailed
    | Refreshed(mine: bool)
    | Spawned(pid: nat)
    | SpawnFailed
    | Leased(written: Lease)
    | Unlinked(nonce: nat)
    | UnlinkFailed(nonce: nat)
    | AskedToQuit(pid: nat, delivered: bool)
    | Killed(pid: nat)
    | SawAlive(pid: nat, alive: bool)
    | Probed(ready: bool)

  /**
   * What its events have told a session: about the current lock hold, about the last lease judged, which
   * leases it has had in its hands and which of their editors it has seen gone, and the editor it has spawned
   * but not leased yet.
   */
  datatype Known = Known(
    held: bool, clear: bool, alone: bool, inHook: bool, hooked: bool, mine: bool,
    verified: Option<nat>, onFile: Option<Lease>,
    read: set<Lease>, gone: set<nat>, bare: Option<nat>)

  const NOTHING := Known(false, false, false, false, false, false, None, None, {}, {}, None)

  /** A new hold, or the end of one, forgets all but the leases. */
  function Afresh(k: Known, held: bool): Known {
    NOTHING.(held := held, read := k.read, gone := k.gone)
  }

  function NoncesOf(read: set<Lease>, pid: nat): (nonces: set<nat>)
    ensures forall l :: l in read && l.pid == pid ==> l.nonce in nonces
  {
    set l | l in read && l.pid == pid :: l.nonce
  }

  /** Events that neither take or release the lock nor begin, or take part in, a launch. */
  predicate Watches(e: Event) {
    || e.SawLease? || e.SawState? || e.Searched? || e.Resolved? || e.AskedToQuit? || e.Killed? || e.SawAlive? || e.Probed?
    || e.Unlinked? || e.UnlinkFailed? || e.LockMissed? || e.HookFailed? || e.SpawnFailed?
  }

  function Learn(k: Known, e: Event): Known
  {
    match e
    case LockTaken => Afresh(k, true)
    case LockReleased => Afresh(k, false)
    case SawLease(l) =>
      k.(clear := k.clear || (k.held && l.None?), onFile := l, read := if l.Some? then k.read + {l.value} else k.read)
    case SawState(l, s) =>
      k.(clear := k.held && s.Dead? && k.onFile == Some(l),
         verified := if s.Live? then Some(l.pid) else None,
         gone := if s.Dead? && l in k.read then k.gone + {l.nonce} else k.gone)
    case Searched(found, _) => k.(alone := k.held && !found)
    case HookBegun => k.(inHook := true, hooked := false, mine := false)
    case Hooked => k.(hooked := k.held, mine := false)
    case Refreshed(mine) => k.(mine := k.held && k.hooked && mine, inHook := k.inHook && !mine)
    case Spawned(pid) => k.(mine := false, clear := false, bare := Some(pid))
    case Leased(l) => k.(onFile := Some(l), read := k.read + {l}, bare := None)
    case Unlinked(_) => k.(onFile := None)
    case AskedToQuit(_, _) => k.(verified := None)
    case Killed(_) => k.(verified := None)
    case SawAlive(pid, alive) => if alive then k else k.(gone := k.gone + NoncesOf(k.read, pid))
    case _ => k
  }

  /** What is remembered stays, and events that only watch leave the hold as it is. */
  predicate Grows(k: Known, e: Event, k': Known) {
    && k.read <= k'.read && k.gone <= k'.gone
    && (Watches(e) ==> k'.held == k.held && k'.bare == k.bare && k'.inHook == k.inHook)
    && (e.LockTaken? || e.LockReleased? ==> (k'.held <==> e.LockTaken?) && k'.bare.None? && !k'.inHook)
    && (e.SawAlive? ==> k'.read == k.read && (!e.alive ==> NoncesOf(k.read, e.pid) <= k'.gone))
  }

  lemma LearningGrows(k: Known, e: Event)
    ensures Grows(k, e, Learn(k, e))
  {
    hide NoncesOf;
    match e
    case SawLease(l) =>
    case SawState(l, s) =>
    case SawAlive(pid, alive) =>
    case _ =>
  }

  /**
   * What may happen when: an editor is started only under a lock hold that found no living lease and no
   * other editor, ran the hook, and proved the lock its own since; its lease is written next; an editor is
   * asked to quit or killed only on a lease verified live since the last such request; a lease is unlinked only
   * under a lock that cannot have been overtaken, when the last read under it showed the nonce meant, and once its
   * editor was seen gone; and the lock is never taken twice.
   */
  predicate Allowed(k: Known, e: Event) {
    if k.bare.Some? then e.Leased? && e.written.pid == k.bare.value
    else
      match e
      case LockTaken => !k.held
      case Spawned(_) => k.held && k.clear && k.alone && k.hooked && k.mine
      case Leased(_) => false
      case AskedToQuit(pid, _) => k.verified == Some(pid)
      case Killed(pid) => k.verified == Some(pid)
      case Unlinked(nonce) => k.held && !k.inHook && k.onFile.Some? && k.onFile.value.nonce == nonce && nonce in k.gone
      case UnlinkFailed(nonce) => k.held && !k.inHook && k.onFile.Some? && k.onFile.value.nonce == nonce && nonce in k.gone
      case _ => true
  }

  // ── The world around them ─────────────────────────────────────────────────────────────────────

  /** `spawning` is the session between the spawn and the write of the lease. */
  datatype World = World(
    alive: map<nat, Process>,
    lease: Option<Lease>,
    owner: Option<nat>,
    sessions: seq<Known>,
    crashed: set<nat>,
    spawning: Option<nat>,
    nextStart: nat,
    nextNonce: nat)

  datatype Step =
    | Does(c: nat, e: Event, readable: bool)
    | Crashes(c: nat)
    | ProcessExits(pid: nat, removesLease: bool)
    | ProcessStarts(pid: nat)

  /** The lock may change hands while its holder is in the hook, until it has refreshed the lock, or is dead. */
  predicate Overtakable(w: World) {
    w.owner.Some? && (w.owner.value in w.crashed || (w.owner.value < |w.sessions| && w.sessions[w.owner.value].inHook))
  }

  /** The event reports the world as it is. A search and a probe may answer anything. */
  predicate Truthful(w: World, c: nat, e: Event, readable: bool) {
    match e
    case LockTaken => w.owner.None? || Overtakable(w)
    case SawLease(l) => l == w.lease
    case SawState(l, s) => s == StateOf(w.alive, l, readable)
    case Refreshed(mine) => mine ==> w.owner == Some(c)
    case Spawned(pid) => pid !in w.alive
    case Leased(l) =>
      && l.pid in w.alive && w.alive[l.pid].nonce == Some(l.nonce)
      && l.start == if readable then Some(w.alive[l.pid].start) else None
    case SawAlive(pid, alive) => alive <==> pid in w.alive
    case _ => true
  }

  function Unleased(w: World, nonce: nat): World {
    if w.lease.Some? && w.lease.value.nonce == nonce then w.(lease := None) else w
  }

  /** What the event does to the files, the lock and the processes. An unlink takes whatever lease is at the path. */
  function Effect(w: World, c: nat, e: Event): World {
    match e
    case LockTaken => w.(owner := Some(c))
    case LockReleased => if w.owner == Some(c) then w.(owner := None) else w
    case Spawned(pid) =>
      w.(alive := w.alive[pid := Process(w.nextStart, Some(w.nextNonce))], spawning := Some(c),
         nextStart := w.nextStart + 1, nextNonce := w.nextNonce + 1)
    case Leased(l) => w.(lease := Some(l), spawning := None)
    case Unlinked(_) => w.(lease := None)
    case Killed(pid) => w.(alive := w.alive - {pid})
    case _ => w
  }

  predicate Enabled(w: World, c: nat, e: Event, readable: bool) {
    && c < |w.sessions| && c !in w.crashed && (w.spawning.None? || w.spawning == Some(c))
    && Allowed(w.sessions[c], e) && Truthful(w, c, e, readable)
  }

  function Told(w: World, c: nat, e: Event): World
    requires c < |w.sessions|
  {
    w.(sessions := w.sessions[c := Learn(w.sessions[c], e)])
  }

  /** The spawn and the lease write are not interrupted: no other step happens in between. */
  function Apply(w: World, step: Step): (w': World)
    ensures |w'.sessions| == |w.sessions|
  {
    match step
    case Does(c, e, readable) => if Enabled(w, c, e, readable) then Effect(Told(w, c, e), c, e) else w
    case Crashes(c) => if w.spawning.None? then w.(crashed := w.crashed + {c}) else w
    case ProcessExits(pid, removesLease) =>
      if pid in w.alive && w.spawning.None? then
        var w' := w.(alive := w.alive - {pid});
        if removesLease && w.alive[pid].nonce.Some? then Unleased(w', w.alive[pid].nonce.value) else w'
      else w
    case ProcessStarts(pid) =>
      if pid !in w.alive && w.spawning.None?
      then w.(alive := w.alive[pid := Process(w.nextStart, None)], nextStart := w.nextStart + 1) else w
  }

  function Exec(w: World, run: seq<Step>): (w': World)
    ensures |w'.sessions| == |w.sessions|
  {
    if run == [] then w else Apply(Exec(w, run[..|run| - 1]), run[|run| - 1])
  }

  predicate Init(w: World) {
    && w.lease.None? && w.owner.None? && w.spawning.None? && w.crashed == {}
    && (forall p :: p in w.alive ==> w.alive[p].nonce.None? && w.alive[p].start < w.nextStart)
    && (forall c :: 0 <= c < |w.sessions| ==> w.sessions[c] == NOTHING)
  }

  // ── The invariant ─────────────────────────────────────────────────────────────────────────────

  predicate IsEditor(w: World, pid: nat) {
    pid in w.alive && w.alive[pid].nonce.Some?
  }

  /** A live session editor is the one being leased right now, or the one the lease names, which can be seen live or unverifiable only. */
  predicate ProcessOk(w: World, pid: nat)
    requires pid in w.alive
  {
    && w.alive[pid].start < w.nextStart
    && (w.alive[pid].nonce.Some? ==>
          && w.alive[pid].nonce.value < w.nextNonce
          && (w.spawning.None? ==>
                && w.lease.Some? && w.lease.value.pid == pid && w.lease.value.nonce == w.alive[pid].nonce.value
                && (w.lease.value.start.Some? ==> w.lease.value.start.value == w.alive[pid].start)))
  }

  /** A lease, current or remembered: the process that matches its pid and start is the editor launched with it, and only that one carries its nonce. */
  predicate LeaseOk(w: World, l: Lease) {
    && l.nonce < w.nextNonce
    && (l.start.Some? ==> l.start.value < w.nextStart)
    && (l.pid in w.alive && l.start == Some(w.alive[l.pid].start) ==> w.alive[l.pid].nonce == Some(l.nonce))
    && forall p :: p in w.alive && w.alive[p].nonce == Some(l.nonce) ==>
                     p == l.pid && (l.start.Some? ==> l.start.value == w.alive[p].start)
  }

  predicate NoneCarries(w: World, nonce: nat) {
    nonce < w.nextNonce && forall p :: p in w.alive ==> w.alive[p].nonce != Some(nonce)
  }

  predicate NoEditor(w: World) {
    forall p :: p in w.alive ==> w.alive[p].nonce.None?
  }

  predicate OnlyEditor(w: World, pid: nat) {
    pid in w.alive && w.alive[pid].nonce.Some? && forall p :: p in w.alive && w.alive[p].nonce.Some? ==> p == pid
  }

  /** The leases a session has seen are genuine, and the editors it has seen gone are gone for good. */
  predicate MemoryOk(w: World, k: Known) {
    && (forall l :: l in k.read ==> LeaseOk(w, l))
    && (forall n :: n in k.gone ==> NoneCarries(w, n))
  }

  /** What a session knows of its hold is true while the hold is its own. */
  predicate HoldOk(w: World, c: nat, k: Known) {
    && (w.owner == Some(c) ==> k.held && (k.clear ==> NoEditor(w)))
    && (k.held && !k.inHook && c !in w.crashed ==> w.owner == Some(c))
    && (k.onFile.Some? ==> k.onFile.value in k.read && (w.owner == Some(c) ==> w.lease.None? || w.lease == k.onFile))
    && (k.mine && c !in w.crashed ==> w.owner == Some(c) && !k.inHook)
    && (k.bare.Some? <==> w.spawning == Some(c))
    && (k.bare.Some? ==> OnlyEditor(w, k.bare.value) && w.owner == Some(c) && !k.mine && !k.clear)
  }

  predicate SessionOk(w: World, c: nat)
    requires c < |w.sessions|
  {
    MemoryOk(w, w.sessions[c]) && HoldOk(w, c, w.sessions[c])
  }

  ghost predicate Inv(w: World) {
    && (forall p :: p in w.alive ==> ProcessOk(w, p))
    && (w.lease.Some? ==> LeaseOk(w, w.lease.value))
    && (forall c: nat :: c < |w.sessions| ==> SessionOk(w, c))
    && (w.owner.Some? ==> w.owner.value < |w.sessions|)
    && (w.spawning.Some? ==> w.spawning.value < |w.sessions|)
  }

  /** A dead lease, or none, means no live session editor at all. */
  lemma DeadLeaseMeansNoEditor(w: World, readable: bool)
    requires Inv(w) && w.spawning.None? && (w.lease.None? || StateOf(w.alive, w.lease.value, readable).Dead?)
    ensures NoEditor(w)
  {
    forall p | p in w.alive ensures w.alive[p].nonce.None? { assert ProcessOk(w, p); }
  }

  // ── What stays true ───────────────────────────────────────────────────────────────────────────

  /** Processes and nonces only ever move on. */
  predicate MovesOn(w: World, w': World) {
    && w.nextNonce <= w'.nextNonce && w.nextStart <= w'.nextStart
    && forall p :: p in w'.alive ==>
         || (p in w.alive && w'.alive[p] == w.alive[p])
         || (p !in w.alive && w'.alive[p].start >= w.nextStart && (w'.alive[p].nonce.Some? ==> w'.alive[p].nonce.value >= w.nextNonce))
  }

  lemma RememberedStaysTrue(w: World, w': World, l: Lease)
    requires MovesOn(w, w') && LeaseOk(w, l)
    ensures LeaseOk(w', l)
  {
  }

  lemma NobodyComesBack(w: World, w': World, nonce: nat)
    requires MovesOn(w, w') && NoneCarries(w, nonce)
    ensures NoneCarries(w', nonce)
  {
  }

  lemma MemoryKeeps(w: World, w': World, k: Known)
    requires MovesOn(w, w') && MemoryOk(w, k)
    ensures MemoryOk(w', k)
  {
    forall l | l in k.read ensures LeaseOk(w', l) { RememberedStaysTrue(w, w', l); }
    forall n | n in k.gone ensures NoneCarries(w', n) { NobodyComesBack(w, w', n); }
  }

  /** What a step may do to the surroundings of a session that takes no part in it. */
  predicate Spares(w: World, w': World, d: nat) {
    && MovesOn(w, w') && w.crashed <= w'.crashed
    && (w'.owner == Some(d) ==> w.owner == Some(d) && (NoEditor(w) ==> NoEditor(w')) && (w'.lease == w.lease || w'.lease.None?))
    && (w.owner == Some(d) ==> w'.owner == Some(d) || Overtakable(w))
    && (w'.spawning == Some(d) <==> w.spawning == Some(d))
    && (w.spawning == Some(d) ==> w' == w.(sessions := w'.sessions))
  }

  lemma SparedKeeps(w: World, w': World, d: nat)
    requires Inv(w) && d < |w.sessions| == |w'.sessions| && w'.sessions[d] == w.sessions[d] && Spares(w, w', d)
    ensures SessionOk(w', d)
  {
    assert SessionOk(w, d);
    MemoryKeeps(w, w', w.sessions[d]);
    hide MemoryOk, LeaseOk, MovesOn, ProcessOk;
  }

  /** A step of session `c`, or of none, in its surroundings. */
  lemma InvFromParts(w: World, w': World, c: nat)
    requires Inv(w) && |w'.sessions| == |w.sessions| && (w'.owner.Some? ==> w'.owner.value < |w'.sessions|)
    requires w'.spawning.Some? ==> w'.spawning.value < |w'.sessions|
    requires (forall p :: p in w'.alive ==> ProcessOk(w', p)) && (w'.lease.Some? ==> LeaseOk(w', w'.lease.value))
    requires forall d: nat :: d < |w.sessions| && d != c ==> w'.sessions[d] == w.sessions[d] && Spares(w, w', d)
    requires c < |w.sessions| ==> SessionOk(w', c)
    ensures Inv(w')
  {
    forall d: nat | d < |w.sessions| ensures SessionOk(w', d) {
      if d != c { SparedKeeps(w, w', d); }
    }
  }

  lemma SameProcesses(w: World, w': World)
    requires Inv(w) && w'.alive == w.alive && w'.spawning == w.spawning && w'.nextStart == w.nextStart && w'.nextNonce == w.nextNonce
    requires w'.lease == w.lease || (w'.lease.None? && w.spawning.None? && NoEditor(w))
    ensures (forall p :: p in w'.alive ==> ProcessOk(w', p)) && (w'.lease.Some? ==> LeaseOk(w', w'.lease.value))
    ensures MovesOn(w, w')
  {
    hide SessionOk;
    forall p | p in w'.alive ensures ProcessOk(w', p) { assert ProcessOk(w, p); }
  }

  // ── Every step keeps the invariant ────────────────────────────────────────────────────────────

  /** Events that report and change nothing. */
  predicate OnlyReports(e: Event) {
    !e.LockTaken? && !e.LockReleased? && !e.Spawned? && !e.Leased? && !e.Unlinked? && !e.Killed?
  }

  lemma ReportedMemory(w: World, c: nat, e: Event, readable: bool)
    requires Inv(w) && Enabled(w, c, e, readable) && OnlyReports(e)
    ensures MemoryOk(w, Learn(w.sessions[c], e))
  {
    var k := w.sessions[c];
    assert SessionOk(w, c);
    var k' := Learn(k, e);
    forall l | l in k'.read ensures LeaseOk(w, l) { assert l in k.read || w.lease == Some(l); }
    forall n | n in k'.gone ensures NoneCarries(w, n) {
      if n !in k.gone {
        var l :| l in k.read && l.nonce == n && (e.SawState? ==> l == e.judged) && (e.SawAlive? ==> l.pid == e.pid);
        assert LeaseOk(w, l);
      }
    }
  }

  lemma ReportedHold(w: World, c: nat, e: Event, readable: bool)
    requires Inv(w) && Enabled(w, c, e, readable) && OnlyReports(e)
    ensures HoldOk(w, c, Learn(w.sessions[c], e))
  {
    assert SessionOk(w, c);
    if e.SawState? && w.owner == Some(c) && Learn(w.sessions[c], e).clear { DeadLeaseMeansNoEditor(w, readable); }
    if e.SawLease? && e.lease.None? { DeadLeaseMeansNoEditor(w, readable); }
  }

  lemma ReportKeeps(w: World, c: nat, e: Event, readable: bool)
    requires Inv(w) && Enabled(w, c, e, readable) && OnlyReports(e)
    ensures Inv(Told(w, c, e))
  {
    var w' := Told(w, c, e);
    ReportedMemory(w, c, e, readable);
    ReportedHold(w, c, e, readable);
    SameProcesses(w, w');
    MemoryKeeps(w, w', w'.sessions[c]);
    assert SessionOk(w', c);
    InvFromParts(w, w', c);
  }

  lemma LockTakenKeeps(w: World, c: nat, readable: bool)
    requires Inv(w) && Enabled(w, c, LockTaken, readable)
    ensures Inv(Apply(w, Does(c, LockTaken, readable)))
  {
    var w' := Apply(w, Does(c, LockTaken, readable));
    assert SessionOk(w, c);
    SameProcesses(w, w');
    MemoryKeeps(w, w', w'.sessions[c]);
    assert SessionOk(w', c);
    InvFromParts(w, w', c);
  }

  lemma LockReleasedKeeps(w: World, c: nat, readable: bool)
    requires Inv(w) && Enabled(w, c, LockReleased, readable)
    ensures Inv(Apply(w, Does(c, LockReleased, readable)))
  {
    var w' := Apply(w, Does(c, LockReleased, readable));
    assert SessionOk(w, c);
    SameProcesses(w, w');
    MemoryKeeps(w, w', w'.sessions[c]);
    assert SessionOk(w', c);
    InvFromParts(w, w', c);
  }

  /** Unlinking a lease whose editor is gone. */
  lemma UnlinkedKeeps(w: World, c: nat, nonce: nat, readable: bool)
    requires Inv(w) && Enabled(w, c, Unlinked(nonce), readable)
    ensures Inv(Apply(w, Does(c, Unlinked(nonce), readable)))
  {
    var w' := Apply(w, Does(c, Unlinked(nonce), readable));
    assert SessionOk(w, c);
    if w'.lease != w.lease {
      forall p | p in w.alive ensures w.alive[p].nonce.None? { assert ProcessOk(w, p); }
    }
    SameProcesses(w, w');
    MemoryKeeps(w, w', w'.sessions[c]);
    assert SessionOk(w', c);
    InvFromParts(w, w', c);
  }

  lemma SpawnedKeeps(w: World, c: nat, pid: nat, readable: bool)
    requires Inv(w) && Enabled(w, c, Spawned(pid), readable)
    ensures Inv(Apply(w, Does(c, Spawned(pid), readable)))
  {
    var w' := Apply(w, Does(c, Spawned(pid), readable));
    assert SessionOk(w, c);
    assert NoEditor(w);
    forall p | p in w'.alive ensures ProcessOk(w', p) { assert p != pid ==> ProcessOk(w, p); }
    if w'.lease.Some? { RememberedStaysTrue(w, w', w'.lease.value); }
    MemoryKeeps(w, w', w'.sessions[c]);
    assert SessionOk(w', c);
    InvFromParts(w, w', c);
  }

  lemma LeasedKeeps(w: World, c: nat, l: Lease, readable: bool)
    requires Inv(w) && Enabled(w, c, Leased(l), readable)
    ensures Inv(Apply(w, Does(c, Leased(l), readable)))
  {
    var w' := Apply(w, Does(c, Leased(l), readable));
    assert SessionOk(w, c) && ProcessOk(w, l.pid);
    forall p | p in w'.alive ensures ProcessOk(w', p) { assert ProcessOk(w, p); }
    assert LeaseOk(w', l);
    MemoryKeeps(w, w', w.sessions[c]);
    assert SessionOk(w', c);
    InvFromParts(w, w', c);
  }

  /** A process that goes away takes nothing with it, except, if it is an editor, its own lease. */
  lemma ExitKeeps(w: World, w': World, pid: nat, c: nat)
    requires Inv(w) && w.spawning.None? && |w'.sessions| == |w.sessions|
    requires w' == w.(alive := w.alive - {pid}, lease := w'.lease, sessions := w'.sessions)
    requires w'.lease == w.lease || (w'.lease.None? && w.lease.Some? && pid in w.alive && w.alive[pid].nonce == Some(w.lease.value.nonce))
    requires forall d: nat :: d < |w.sessions| && d != c ==> w'.sessions[d] == w.sessions[d]
    requires c < |w.sessions| ==> MemoryOk(w, w'.sessions[c]) && HoldOk(w, c, w'.sessions[c])
    ensures Inv(w')
  {
    forall p | p in w'.alive ensures ProcessOk(w', p) {
      assert ProcessOk(w, p);
      if pid in w.alive { assert ProcessOk(w, pid); }
    }
    if w'.lease.Some? { RememberedStaysTrue(w, w', w'.lease.value); }
    if c < |w.sessions| { MemoryKeeps(w, w', w'.sessions[c]); }
    InvFromParts(w, w', c);
  }

  lemma KilledKeeps(w: World, c: nat, pid: nat, readable: bool)
    requires Inv(w) && Enabled(w, c, Killed(pid), readable)
    ensures Inv(Apply(w, Does(c, Killed(pid), readable)))
  {
    assert SessionOk(w, c);
    ExitKeeps(w, Apply(w, Does(c, Killed(pid), readable)), pid, c);
  }

  lemma StartKeeps(w: World, pid: nat)
    requires Inv(w)
    ensures Inv(Apply(w, ProcessStarts(pid)))
  {
    var w' := Apply(w, ProcessStarts(pid));
    if w' != w {
      forall p | p in w'.alive ensures ProcessOk(w', p) { assert p != pid ==> ProcessOk(w, p); }
      if w'.lease.Some? { RememberedStaysTrue(w, w', w'.lease.value); }
      InvFromParts(w, w', |w.sessions|);
    }
  }

  lemma CrashKeeps(w: World, c: nat)
    requires Inv(w)
    ensures Inv(Apply(w, Crashes(c)))
  {
    var w' := Apply(w, Crashes(c));
    SameProcesses(w, w');
    InvFromParts(w, w', |w.sessions|);
  }

  lemma EventKeeps(w: World, c: nat, e: Event, readable: bool)
    requires Inv(w) && Enabled(w, c, e, readable)
    ensures Inv(Apply(w, Does(c, e, readable)))
  {
    match e
    case LockTaken => LockTakenKeeps(w, c, readable);
    case LockReleased => LockReleasedKeeps(w, c, readable);
    case Spawned(pid) => SpawnedKeeps(w, c, pid, readable);
    case Leased(l) => LeasedKeeps(w, c, l, readable);
    case Unlinked(nonce) => UnlinkedKeeps(w, c, nonce, readable);
    case Killed(pid) => KilledKeeps(w, c, pid, readable);
    case _ => ReportKeeps(w, c, e, readable);
  }

  lemma StepKeeps(w: World, step: Step)
    requires Inv(w)
    ensures Inv(Apply(w, step))
  {
    match step
    case Does(c, e, readable) => if Enabled(w, c, e, readable) { EventKeeps(w, c, e, readable); }
    case Crashes(c) => CrashKeeps(w, c);
    case ProcessExits(pid, removesLease) => if Apply(w, step) != w { ExitKeeps(w, Apply(w, step), pid, |w.sessions|); }
    case ProcessStarts(pid) => StartKeeps(w, pid);
  }

  lemma {:induction false} RunKeeps(w: World, run: seq<Step>)
    requires Inv(w)
    ensures Inv(Exec(w, run))
  {
    if run != [] {
      RunKeeps(w, run[..|run| - 1]);
      StepKeeps(Exec(w, run[..|run| - 1]), run[|run| - 1]);
    }
  }

  lemma InitInv(w: World)
    requires Init(w)
    ensures Inv(w)
  {
    forall p | p in w.alive ensures ProcessOk(w, p) { }
    forall c: nat | c < |w.sessions| ensures SessionOk(w, c) { assert w.sessions[c] == NOTHING; }
  }

  // ── Main results ──────────────────────────────────────────────────────────────────────────────

  /**
   * Over every interleaving of the single exchanges of ensure, close and lease cleanup, with processes dying
   * and pids reused at will: at most one session-started editor is alive, and except between its spawn and the
   * write of its lease it is the one the current lease names.
   */
  lemma AtMostOneEditor(w: World, run: seq<Step>, p: nat, q: nat)
    requires Init(w) && IsEditor(Exec(w, run), p)
    ensures
      var g := Exec(w, run);
      && (g.spawning.None? ==> g.lease.Some? && g.lease.value.pid == p && Some(g.lease.value.nonce) == g.alive[p].nonce)
      && (IsEditor(g, q) ==> q == p)
  {
    InitInv(w);
    RunKeeps(w, run);
    OneEditor(Exec(w, run), p, q);
  }

  lemma OneEditor(g: World, p: nat, q: nat)
    requires Inv(g) && IsEditor(g, p)
    ensures g.spawning.None? ==> g.lease.Some? && g.lease.value.pid == p && Some(g.lease.value.nonce) == g.alive[p].nonce
    ensures IsEditor(g, q) ==> q == p
  {
    assert ProcessOk(g, p);
    if IsEditor(g, q) { assert ProcessOk(g, q); }
    if g.spawning.Some? { assert SessionOk(g, g.spawning.value); }
  }

  /** A kill sent right after a live verdict on a lease the session has read ends that lease's editor and no other process. */
  lemma KillsOnlyItsEditor(w: World, run: seq<Step>, c: nat, l: Lease, readable: bool)
    requires Init(w) && c < |w.sessions| && l in Exec(w, run).sessions[c].read
    requires Enabled(Exec(w, run), c, SawState(l, Live), readable)
    ensures
      var g := Exec(w, run);
      var h := Apply(Apply(g, Does(c, SawState(l, Live), readable)), Does(c, Killed(l.pid), readable));
      l.pid in g.alive && g.alive[l.pid].nonce == Some(l.nonce) && h.alive == g.alive - {l.pid}
  {
    InitInv(w);
    RunKeeps(w, run);
    assert SessionOk(Exec(w, run), c);
    assert LeaseOk(Exec(w, run), l);
    hide Exec, Inv, SessionOk, HoldOk, MemoryOk, NoncesOf;
  }

  // ── Why the unlink needs the lock ─────────────────────────────────────────────────────────────

  lemma Next(w: World, run: seq<Step>, step: Step)
    ensures Exec(w, run + [step]) == Apply(Exec(w, run), step)
  {
    assert (run + [step])[..|run|] == run;
  }

  /** Nothing is going on, and session `c` may launch: the lease, if there is one, names a pid that is gone. */
  predicate Quiet(g: World, c: nat) {
    && c < |g.sessions| && c !in g.crashed && g.owner.None? && g.spawning.None?
    && Idle(g.sessions[c]) && (g.lease.Some? ==> g.lease.value.pid !in g.alive)
  }

  predicate Idle(k: Known) {
    !k.held && !k.inHook && k.bare.None?
  }

  /** One more event of session `c` that only tells it something. */
  lemma Hears(w: World, run: seq<Step>, c: nat, e: Event)
    requires Enabled(Exec(w, run), c, e, true) && OnlyReports(e)
    ensures Exec(w, run + [Does(c, e, true)]) == Told(Exec(w, run), c, e)
  {
    Next(w, run, Does(c, e, true));
    hide Learn, Enabled;
  }

  /** The world after session `c` has launched an editor at this pid and released the lock. */
  predicate Launched(g: World, h: World, c: nat, pid: nat) {
    var l := Lease(pid, g.nextNonce, Some(g.nextStart));
    && c < |g.sessions| == |h.sessions|
    && h == g.(alive := g.alive[pid := Process(g.nextStart, Some(g.nextNonce))], lease := Some(l),
               nextStart := g.nextStart + 1, nextNonce := g.nextNonce + 1, sessions := g.sessions[c := h.sessions[c]])
    && Idle(h.sessions[c]) && l in h.sessions[c].read
  }

  /** A whole launch: lock, look, hook, refresh, spawn, lease, release. */
  lemma Launches(w: World, run: seq<Step>, c: nat, pid: nat) returns (more: seq<Step>)
    requires Quiet(Exec(w, run), c) && pid !in Exec(w, run).alive
    ensures Launched(Exec(w, run), Exec(w, more), c, pid)
  {
    hide Exec;
    var g := Exec(w, run);
    Next(w, run, Does(c, LockTaken, true));
    more := run + [Does(c, LockTaken, true)];
    more := Looks(w, more, c);
    more := Hooks(w, more, c);
    Next(w, more, Does(c, Spawned(pid), true));
    more := more + [Does(c, Spawned(pid), true)];
    var l := Lease(pid, g.nextNonce, Some(g.nextStart));
    assert Exec(w, more).sessions[c].bare == Some(pid);
    Next(w, more, Does(c, Leased(l), true));
    more := more + [Does(c, Leased(l), true)];
    Next(w, more, Does(c, LockReleased, true));
    more := more + [Does(c, LockReleased, true)];
  }

  /** Only session `c` has learned something. */
  predicate OnlyTold(g: World, h: World, c: nat) {
    c < |g.sessions| == |h.sessions| && h == g.(sessions := g.sessions[c := h.sessions[c]])
  }

  predicate Under(g: World, c: nat) {
    c < |g.sessions| && c !in g.crashed && g.owner == Some(c) && g.spawning.None? && g.sessions[c].held && g.sessions[c].bare.None?
  }

  /** Under the lock: the lease is gone or dead, and no other editor is found. */
  lemma Looks(w: World, run: seq<Step>, c: nat) returns (more: seq<Step>)
    requires Under(Exec(w, run), c) && (Exec(w, run).lease.Some? ==> Exec(w, run).lease.value.pid !in Exec(w, run).alive)
    ensures OnlyTold(Exec(w, run), Exec(w, more), c) && Under(Exec(w, more), c)
    ensures Exec(w, more).sessions[c].clear && Exec(w, more).sessions[c].alone
  {
    hide Exec;
    var l := Exec(w, run).lease;
    Hears(w, run, c, SawLease(l));
    more := run + [Does(c, SawLease(l), true)];
    if l.Some? {
      Hears(w, more, c, SawState(l.value, Dead));
      more := more + [Does(c, SawState(l.value, Dead), true)];
    }
    Hears(w, more, c, Searched(false, None));
    more := more + [Does(c, Searched(false, None), true)];
  }

  /** Under the lock: the hook runs and the lock is refreshed behind it. */
  lemma Hooks(w: World, run: seq<Step>, c: nat) returns (more: seq<Step>)
    requires Under(Exec(w, run), c) && Exec(w, run).sessions[c].clear && Exec(w, run).sessions[c].alone
    ensures OnlyTold(Exec(w, run), Exec(w, more), c) && Under(Exec(w, more), c)
    ensures Allowed(Exec(w, more).sessions[c], Spawned(0))
  {
    hide Exec;
    Hears(w, run, c, HookBegun);
    more := run + [Does(c, HookBegun, true)];
    Hears(w, more, c, Hooked);
    more := more + [Does(c, Hooked, true)];
    Hears(w, more, c, Refreshed(true));
    more := more + [Does(c, Refreshed(true), true)];
  }

  /** The editor of the current lease exits by itself; session `c` reads the lease and sees it dead, without the lock. */
  lemma SeesItGone(w: World, run: seq<Step>, c: nat, l: Lease) returns (more: seq<Step>)
    requires Quiet(Exec(w, run).(lease := None), c) && Exec(w, run).lease == Some(l) && l.pid in Exec(w, run).alive
    ensures
      var g, h := Exec(w, run), Exec(w, more);
      && OnlyTold(g.(alive := g.alive - {l.pid}), h, c)
      && Idle(h.sessions[c]) && h.sessions[c].onFile == Some(l) && l.nonce in h.sessions[c].gone
  {
    hide Exec;
    Next(w, run, ProcessExits(l.pid, false));
    more := run + [ProcessExits(l.pid, false)];
    Hears(w, more, c, SawLease(Some(l)));
    more := more + [Does(c, SawLease(Some(l)), true)];
    Hears(w, more, c, SawState(l, Dead));
    more := more + [Does(c, SawState(l, Dead), true)];
  }

  const IDLE_WORLD := World(map[], None, None, [NOTHING, NOTHING], {}, None, 0, 0)

  /**
   * The compare of the compare-and-delete is not enough. Session 1 has seen its editor gone and has just read
   * that editor's lease, all it needs for the unlink but the lock; session 0 launches a new editor. An unlink by
   * path now takes the new editor's lease, and the next launch starts a second editor beside it.
   */
  lemma UnlinkNeedsTheLock() returns (run: seq<Step>, more: seq<Step>)
    ensures Init(IDLE_WORLD)
    ensures
      var g := Exec(IDLE_WORLD, run);
      var unlinked := Effect(g, 1, Unlinked(0));
      && |g.sessions| == 2 && Allowed(g.sessions[1].(held := true), Unlinked(0))
      && g.lease.Some? && g.lease.value.nonce == 1
      && IsEditor(Exec(unlinked, more), 8) && IsEditor(Exec(unlinked, more), 9)
  {
    hide Exec, Learn, Apply;
    ExecNothing(IDLE_WORLD);
    run := Launches(IDLE_WORLD, [], 1, 7);
    run := SeesItGone(IDLE_WORLD, run, 1, Lease(7, 0, Some(0)));
    run := Launches(IDLE_WORLD, run, 0, 8);
    var unlinked := Effect(Exec(IDLE_WORLD, run), 1, Unlinked(0));
    ExecNothing(unlinked);
    more := Launches(unlinked, [], 0, 9);
  }

  lemma ExecNothing(w: World)
    ensures Exec(w, []) == w
  {
  }

  // ── One session among the others ──────────────────────────────────────────────────────────────

  predicate ActsAs(step: Step, c: nat) {
    (step.Does? || step.Crashes?) && step.c == c
  }

  lemma OtherStep(w: World, step: Step, me: nat)
    requires me < |w.sessions| && me !in w.crashed && !ActsAs(step, me)
    ensures
      var w' := Apply(w, step);
      w'.sessions[me] == w.sessions[me] && me !in w'.crashed && (w.spawning == Some(me) ==> w' == w)
  {
    hide Learn, Allowed, Truthful;
  }

  /** Whatever the others and the processes do, a session keeps what it knows, and the invariant holds. */
  lemma {:induction false} OthersRun(w: World, run: seq<Step>, me: nat)
    requires Inv(w) && me < |w.sessions| && me !in w.crashed
    requires forall step :: step in run ==> !ActsAs(step, me)
    ensures
      var mid := Exec(w, run);
      && Inv(mid) && mid.sessions[me] == w.sessions[me] && me !in mid.crashed
      && (w.spawning == Some(me) ==> mid == w)
  {
    hide Inv, Apply, ActsAs;
    if run != [] {
      var prefix, step := run[..|run| - 1], run[|run| - 1];
      assert forall x :: x in prefix ==> x in run;
      OthersRun(w, prefix, me);
      assert step in run && !ActsAs(step, me);
      StepKeeps(Exec(w, prefix), step);
      OtherStep(Exec(w, prefix), step, me);
    }
  }
}
