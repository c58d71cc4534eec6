/**
 * The lock class, statement by statement, as one process of the protocol. Between any two of its
 * file-system calls the other processes may act and time may pass (`Others`); each call is the next
 * transition of this process in `LockProtocol`, so whatever these methods do is a run of that protocol.
 */
module CredentialLock {
  import opened Basics
  import opened LockProtocol
  import opened LockSafety
  import opened LockUnconditional

  /** The longest one pass of `acquire`'s loop is assumed to take: less than the budget exceeds the bar. */
  const PASS_MS: nat := ACQUIRE_BUDGET - LOCK_STALE_MS - 1

  lemma TickInv(s: State, ms: nat)
    requires Inv(s)
    ensures Inv(s.(now := s.now + ms))
  {
    assert Apply(s, Tick(ms)) == s.(now := s.now + ms);
    forall q | 0 <= q < |s.procs| ensures ProcOk(Apply(s, Tick(ms)), q) {
      QuietActionInv(s, Tick(ms), q);
    }
  }

  lemma BarComesOnce(bytes: Content, localHostId: string, younger: int, older: int)
    ensures younger <= older && PastItsBar(bytes, localHostId, younger) ==> PastItsBar(bytes, localHostId, older)
  {
    hide AnotherHosts;
  }

  predicate ActsAs(a: Action, p: nat) {
    !a.Tick? && a.p == p
  }

  /**
   * What `Others` below promises is what any run of the other processes delivers: this process stays
   * where it was, the safety invariant survives while the assumptions hold, and so does the spacing of
   * its removals.
   */
  lemma {:induction false} PeersRun(s: State, run: seq<Action>, me: nat, since: nat)
    requires WellFormed(s) && me < |s.procs| && SinceRemoval(s, me, since)
    requires forall a :: a in run ==> !ActsAs(a, me)
    ensures
      var mid := Exec(s, run);
      && mid.procs[me] == s.procs[me] && mid.hosts == s.hosts && s.now <= mid.now
      && SinceRemoval(mid, me, since)
      && (Inv(s) && AssumedThroughout(s, run) ==> Inv(mid))
  {
    if run != [] {
      var prefix, a := run[..|run| - 1], run[|run| - 1];
      assert forall x :: x in prefix ==> x in run;
      PeersRun(s, prefix, me, since);
      assert a in run && !ActsAs(a, me);
      var before := Exec(s, prefix);
      ApplySinceRemoval(before, a, me, since);
      if a.Call? && a.p < |s.procs| { StepMovesOne(before, a.p, a.fault); }
      if Inv(s) && AssumedThroughout(s, run) {
        assert forall k :: 0 <= k < |prefix| ==> prefix[..k] == run[..k];
        ApplyInv(before, a);
      }
    }
  }

  /** One call of this process: the state it met, the state it left, and whether the assumptions had held until then. */
  datatype Made = Made(before: State, after: State, trusted: bool)

  /** As long as the assumptions held, the call changed an existing lock or intent only if this process had created it. */
  predicate ChangesOnlyItsOwn(m: Made, me: nat) {
    && WellFormed(m.before) && me < |m.before.procs|
    && (m.trusted ==>
          && (m.before.lock.File? && m.after.lock != m.before.lock ==> ActsOnItsOwnLock(m.before, me))
          && (m.before.intent.File? && m.after.intent != m.before.intent ==> ActsOnItsOwnIntent(m.before, me)))
  }

  /** As long as the assumptions held, the call removed at most the lock that was judged, stale and nobody's. */
  predicate RemovesOnlyTheJudged(m: Made, me: nat) {
    && WellFormed(m.before) && me < |m.before.procs| && m.after.intent == m.before.intent
    && (m.trusted && m.before.lock.File? && m.after.lock != m.before.lock ==>
          m.after.lock.Absent? && TakesExactlyWhatItJudged(m.before, me))
  }

  /** What `Valid` promises of every call this process ever made in the directory, whatever its peers did. */
  predicate Accounted(own: set<Made>, takeovers: set<Made>, me: nat) {
    && (forall m :: m in own ==> ChangesOnlyItsOwn(m, me))
    && (forall m :: m in takeovers ==> RemovesOnlyTheJudged(m, me))
  }

  lemma OwnCallAccounted(own: set<Made>, takeovers: set<Made>, me: nat, mid: State, fault: Fault, trusted: bool)
    requires Accounted(own, takeovers, me) && WellFormed(mid) && me < |mid.procs|
    requires !mid.procs[me].UnlinkStale? && (trusted ==> Inv(mid))
    ensures Accounted(own + {Made(mid, Step(mid, me, fault), trusted)}, takeovers, me)
  {
    if trusted { StepExact(mid, me, fault); }
    hide Step, Inv, ActsOnItsOwnLock, ActsOnItsOwnIntent;
  }

  lemma TakeoverAccounted(own: set<Made>, takeovers: set<Made>, me: nat, mid: State, fault: Fault, trusted: bool)
    requires Accounted(own, takeovers, me) && WellFormed(mid) && me < |mid.procs|
    requires mid.procs[me].UnlinkStale? && (trusted ==> Inv(mid))
    ensures Accounted(own, takeovers + {Made(mid, Step(mid, me, fault), trusted)}, me)
  {
    if trusted { StepExact(mid, me, fault); }
    hide Inv, ActsOnItsOwnIntent, TakesExactlyWhatItJudged;
  }

  lemma UnlinkStaleStep(s: State, p: nat, fault: Fault)
    requires WellFormed(s) && p < |s.procs| && s.procs[p].UnlinkStale?
    ensures
      var pc, s', removed := s.procs[p], Step(s, p, fault), fault.NoFault? && s.lock.File?;
      && s'.procs[p] == IntentReleaseRead(pc.tk, pc.inode, removed)
      && s'.lock == (if removed then Absent else s.lock) && s'.intent == s.intent
  {
  }

  /** A removal starts the spacing of this process's removals anew, at least the staleness bar after the last. */
  lemma RemovalSpaced(s: State, p: nat, fault: Fault, since: nat)
    requires WellFormed(s) && p < |s.procs| && s.procs[p].UnlinkStale? && SinceRemoval(s, p, since)
    ensures SinceRemoval(Step(s, p, fault), p, since)
    ensures fault.NoFault? && s.lock.File? ==> SinceRemoval(Step(s, p, fault), p, s.now) && since + LOCK_STALE_MS <= s.now
  {
    StepSinceRemoval(s, p, fault, since);
  }

  /** The directory as process `me` sees it. */
  class LockDirectory {
    var st: State
    const me: nat
    /** Nobody else acts and no call fails. */
    const quiet: bool
    /** The environment assumptions held in every state a call of this process started from. */
    ghost var assumed: bool
    /** When this process last removed a lock. */
    ghost var lastRemoval: nat
    /** Every call of this process but the takeover unlinks, and those. */
    ghost var own: set<Made>
    ghost var takeovers: set<Made>
    /** By when the current pass is over. */
    ghost var passEnd: nat

    ghost predicate Valid()
      reads this
    {
      && WellFormed(st) && me < |st.procs|
      && (assumed ==> Inv(st))
      && SinceRemoval(st, me, lastRemoval)
      && st.now <= passEnd
      && Accounted(own, takeovers, me)
    }

    function Mine(): Pc
      reads this
      requires me < |st.procs|
    {
      st.procs[me]
    }

    /** Between two calls: other processes run, the clock moves, this process stays where it is. */
    ghost predicate Interfered(s: State, mid: State)
      reads this
    {
      && WellFormed(s) && WellFormed(mid) && |mid.procs| == |s.procs| && mid.hosts == s.hosts && me < |s.procs|
      && mid.procs[me] == s.procs[me]
      && s.now <= mid.now <= Max(s.now, passEnd)
      && (quiet ==> mid == s.(now := mid.now))
    }

    method Others()
      requires Valid()
      modifies this`st, this`assumed
      ensures Valid() && Interfered(old(st), st) && (assumed ==> old(assumed))
    {
    }

    /** One call: others first, then this process's transition. */
    method Advance() returns (mid: State, fault: Fault)
      requires Valid() && !Mine().UnlinkStale?
      modifies this`st, this`assumed, this`own
      ensures Valid() && Interfered(old(st), mid) && st == Step(mid, me, fault)
      ensures assumed ==> old(assumed)
      ensures quiet ==> fault == NoFault
      ensures old(own) <= own
    {
      Others();
      mid, fault := st, *;
      if quiet { fault := NoFault; }
      OwnCallAccounted(own, takeovers, me, mid, fault, assumed);
      StepSinceRemoval(mid, me, fault, lastRemoval);
      if assumed && Assumed(mid) { StepInv(mid, me, fault); }
      own := own + {Made(mid, Step(mid, me, fault), assumed)};
      assumed := assumed && Assumed(mid);
      st := Step(st, me, fault);
    }

    /** A call on the lock file by its creator. */
    method LockCall() returns (mid: State, fault: Fault)
      requires Valid() && OnLockFile(Mine())
      modifies this`st, this`assumed, this`own
      ensures Valid() && Interfered(old(st), mid) && st == LockFileStep(mid, me, fault) && st.now == mid.now && st.hosts == mid.hosts
      ensures (assumed ==> old(assumed)) && (quiet ==> fault == NoFault)
      ensures old(own) <= own
    {
      mid, fault := Advance();
    }

    /** The heartbeat's read; the process goes on to touch the file when it finds its own bytes. */
    method Beat() returns (mid: State, fault: Fault)
      requires Valid() && Mine().Holding?
      modifies this`st, this`assumed
      ensures Valid() && Interfered(old(st), mid) && st == Apply(mid, Action.Beat(me, fault))
      ensures (assumed ==> old(assumed)) && (quiet ==> fault == NoFault)
    {
      Others();
      mid, fault := st, *;
      if quiet { fault := NoFault; }
      ApplySinceRemoval(mid, Action.Beat(me, fault), me, lastRemoval);
      if assumed && Assumed(mid) { ApplyInv(mid, Action.Beat(me, fault)); }
      assumed := assumed && Assumed(mid);
      st := Apply(st, Action.Beat(me, fault));
    }

    /** A call on the way to the intent. */
    method IntentCall() returns (mid: State, fault: Fault)
      requires Valid() && OnIntentFile(Mine())
      modifies this`st, this`assumed, this`own
      ensures Valid() && Interfered(old(st), mid) && st == IntentFileStep(mid, me, fault) && st.now == mid.now && st.hosts == mid.hosts
      ensures (assumed ==> old(assumed)) && (quiet ==> fault == NoFault)
      ensures old(own) <= own
    {
      mid, fault := Advance();
    }

    /** A call made under the intent. */
    method ClaimantCall() returns (mid: State, fault: Fault)
      requires Valid() && UnderIntent(Mine()) && !Mine().UnlinkStale?
      modifies this`st, this`assumed, this`own
      ensures Valid() && Interfered(old(st), mid) && st == UnderIntentStep(mid, me, fault) && st.now == mid.now && st.hosts == mid.hosts
      ensures (assumed ==> old(assumed)) && (quiet ==> fault == NoFault)
      ensures old(own) <= own
    {
      mid, fault := Advance();
    }

    /** A call of a waiter that has claimed nothing yet. */
    method WaiterCall() returns (mid: State, fault: Fault)
      requires Valid() && (Mine().Stat1? || Mine().Read1? || Mine().Judge?)
      modifies this`st, this`assumed, this`own
      ensures Valid() && Interfered(old(st), mid) && st == JudgingStep(mid, me, fault) && st.now == mid.now && st.hosts == mid.hosts
      ensures (assumed ==> old(assumed)) && (quiet ==> fault == NoFault)
      ensures old(own) <= own
    {
      mid, fault := Advance();
    }

    /** The takeover unlink: when the assumptions held, it removes exactly what was judged, and nobody's. */
    method UnlinkStaleLock() returns (removed: bool)
      requires Valid() && Mine().UnlinkStale?
      modifies this`st, this`assumed, this`takeovers, this`lastRemoval
      ensures Valid() && old(st.now) <= st.now && st.hosts == old(st.hosts) && (assumed ==> old(assumed))
      ensures old(takeovers) <= takeovers
      ensures Mine() == IntentReleaseRead(old(Mine()).tk, old(Mine()).inode, removed)
      ensures if removed then Max(old(lastRemoval) + LOCK_STALE_MS, old(st.now)) <= lastRemoval <= st.now
              else lastRemoval == old(lastRemoval)
      ensures quiet ==> st.intent == old(st).intent
      ensures quiet && old(st).lock.File? ==> removed && st.lock.Absent?
    {
      Others();
      var mid, fault := st, *;
      if quiet { fault := NoFault; }
      removed := fault.NoFault? && mid.lock.File?;
      TakeoverAccounted(own, takeovers, me, mid, fault, assumed);
      UnlinkStaleStep(mid, me, fault);
      RemovalSpaced(mid, me, fault, lastRemoval);
      if assumed && Assumed(mid) { StepInv(mid, me, fault); }
      hide Step, SinceRemoval, Inv, Assumed, Accounted, StaleBar, Size;
      takeovers := takeovers + {Made(mid, Step(mid, me, fault), assumed)};
      assumed := assumed && Assumed(mid);
      if removed { lastRemoval := mid.now; }
      st := Step(st, me, fault);
    }

    /** A new pass of the loop begins. */
    ghost method BeginPass()
      requires Valid()
      modifies this`passEnd
      ensures Valid() && passEnd == st.now + PASS_MS
    {
      passEnd := st.now + PASS_MS;
    }

    /** A move of this process that makes no call: the start or the end of an attempt. */
    method Local(a: Action)
      requires Valid() && (a == Begin(me) || a == GiveUp(me) || a == BeginRelease(me))
      modifies this`st, this`assumed
      ensures Valid() && st == Apply(old(st), a) && (assumed ==> old(assumed))
      ensures st == old(st).(procs := st.procs)
      ensures a.Begin? && old(Mine()).Idle? ==> Mine().Create?
      ensures a.GiveUp? && old(Mine()).Backoff? ==> Mine().Idle?
    {
      ApplySinceRemoval(st, a, me, lastRemoval);
      if assumed && Assumed(st) { ApplyInv(st, a); }
      assumed := assumed && Assumed(st);
      st := Apply(st, a);
    }

    /** From the end of one pass to the next exclusive create. */
    method Retry()
      requires Valid() && Mine().Backoff?
      modifies this`st, this`assumed
      ensures Valid() && Mine().Create? && st == old(st).(procs := st.procs) && (assumed ==> old(assumed))
    {
      StepSinceRemoval(st, me, NoFault, lastRemoval);
      if assumed && Assumed(st) { StepInv(st, me, NoFault); }
      assumed := assumed && Assumed(st);
      st := Step(st, me, NoFault);
    }

    /** Wait at least `ms`. */
    method Sleep(ms: nat)
      requires Valid()
      modifies this`st, this`passEnd
      ensures Valid() && st == old(st).(now := old(st).now + ms)
    {
      if assumed { TickInv(st, ms); }
      ApplySinceRemoval(st, Tick(ms), me, lastRemoval);
      st := st.(now := st.now + ms);
      passEnd := st.now + PASS_MS;
    }
  }

  const BACKOFF_BASE_MS: nat := 25
  const BACKOFF_CAP_MS: nat := 500

  function Doubled(attempt: nat): nat {
    if attempt == 0 then BACKOFF_BASE_MS else 2 * Doubled(attempt - 1)
  }

  /** Jittered exponential backoff: the base doubled per attempt, capped, times a jitter in [0.5, 1.5). */
  method NextBackoffMs(attempt: nat, jitter: real) returns (ms: nat)
    requires 0.5 <= jitter < 1.5
    ensures 1 <= ms
    ensures
      var capped := Min(Doubled(Min(attempt, 10)), BACKOFF_CAP_MS);
      2 * ms <= 3 * capped + 1 && capped <= 2 * ms + 1
  {
    var capped := Min(Doubled(Min(attempt, 10)), BACKOFF_CAP_MS);
    DoubledGrows(Min(attempt, 10));
    var x := capped as real;
    var scaled := x * jitter;
    ScaleBounds(x, jitter, scaled);
    ms := Max(1, (scaled + 0.5).Floor);
  }

  lemma ScaleBounds(x: real, jitter: real, scaled: real)
    requires x >= 0.0 && 0.5 <= jitter <= 1.5 && scaled == x * jitter
    ensures x <= 2.0 * scaled && 2.0 * scaled <= 3.0 * x
  {
    assert x * (jitter - 0.5) >= 0.0 && x * (1.5 - jitter) >= 0.0;
  }

  lemma {:induction false} DoubledGrows(attempt: nat)
    ensures BACKOFF_BASE_MS <= Doubled(attempt)
  {
    if attempt > 0 { DoubledGrows(attempt - 1); }
  }

  // ── What the calls return ─────────────────────────────────────────────────────────────────────

  function ReadResult(f: File, fault: Fault): Option<Content> {
    if fault.NoFault? && f.File? then Some(f.content) else None
  }

  function StatResult(f: File, fault: Fault): Option<Stat> {
    if fault.NoFault? && f.File? then Some(StatOf(f)) else None
  }

  // ── The calls of an exclusive create, one by one ──────────────────────────────────────────────

  lemma CreateStep(s: State, p: nat, fault: Fault)
    requires WellFormed(s) && p < |s.procs| && s.procs[p].Create?
    ensures
      var s' := LockFileStep(s, p, fault);
      && s'.intent == s.intent
      && (fault.Failed? ==> s'.procs[p] == Idle)
      && (!fault.Failed? && (s.lock.File? || fault.Contended?) ==> s'.procs[p] == Stat1 && s'.lock == s.lock)
      && (fault.NoFault? && s.lock.Absent? ==>
            s'.procs[p] == Opened(NewDocument(s, p), s.nextInode) && s'.lock == File(s.nextInode, Empty, s.now))
  {
  }

  lemma OpenedStep(s: State, p: nat, fault: Fault)
    requires WellFormed(s) && p < |s.procs| && s.procs[p].Opened?
    ensures
      var pc, s' := s.procs[p], LockFileStep(s, p, fault);
      && s'.intent == s.intent
      && s'.procs[p] == (if fault.NoFault? then Written(pc.doc, pc.inode) else WriteFailed(pc.doc, pc.inode))
      && (fault.NoFault? ==> s'.lock == WriteThrough(s.lock, pc.inode, pc.doc, s.now))
  {
  }

  lemma WriteFailedStep(s: State, p: nat, fault: Fault)
    requires WellFormed(s) && p < |s.procs| && s.procs[p].WriteFailed?
    ensures LockFileStep(s, p, fault).procs[p] == Idle
  {
  }

  lemma WrittenStep(s: State, p: nat, fault: Fault)
    requires WellFormed(s) && p < |s.procs| && s.procs[p].Written?
    ensures
      var pc, s' := s.procs[p], LockFileStep(s, p, fault);
      && s'.lock == s.lock && s'.intent == s.intent
      && s'.procs[p] == if Reads(s.lock, pc.doc, fault) then Holding(pc.doc, pc.inode) else Stat1
  {
  }

  datatype CreateOutcome = Won | Lost | Threw
  datatype AcquireOutcome = Acquired | Busy(waitedMs: int) | AcquireThrew
  datatype PassOutcome = Entered | RemovedStale | MustWait | PassThrew
  datatype IntentOutcome = Claimed | Exists | Refused | IntentThrew
  datatype IntentVerdict = Vanished | Live | Stale(ist: Stat, ic: Content)
  datatype TakeoverOutcome = Removed | NotRemoved | TakeoverThrew

  class MachineCredentialLock {
    const dir: LockDirectory
    const heartbeat: bool
    /** The exact bytes written into the lock file while held. */
    var ownContent: Option<Content>
    var timerRunning: bool

    ghost predicate Valid()
      reads this, dir
    {
      && dir.Valid()
      && (ownContent.Some? <==> dir.Mine().Holding?)
      && (ownContent.Some? ==> dir.Mine().doc == ownContent.value)
      && (timerRunning ==> heartbeat && ownContent.Some?)
    }

    /** Nobody else is in the critical section, and the lock file carries exactly our bytes. */
    predicate Exclusive()
      reads this, dir
    {
      && ownContent.Some?
      && dir.st.lock.File? && dir.st.lock.content == ownContent.value
      && forall q :: 0 <= q < |dir.st.procs| && q != dir.me ==> !InCritical(dir.st.procs[q])
    }

    /** A file this process may take over at that time. */
    predicate PastBarAt(f: File, now: int)
      reads dir
      requires f.File? && WellFormed(dir.st) && dir.me < |dir.st.procs|
    {
      PastItsBar(f.content, dir.st.hosts[dir.me], now - f.mtime)
    }

    lemma HeldIsExclusive()
      requires Valid() && ownContent.Some? && dir.assumed
      ensures Exclusive()
    {
      assert ProcOk(dir.st, dir.me);
    }

    /** What every step below keeps: the clock, the assumptions and the record of calls only move one way. */
    twostate predicate Onward()
      reads this, dir
    {
      && old(dir.st.now) <= dir.st.now && dir.st.hosts == old(dir.st.hosts)
      && (dir.assumed ==> old(dir.assumed))
      && old(dir.lastRemoval) <= dir.lastRemoval
      && old(dir.own) <= dir.own && old(dir.takeovers) <= dir.takeovers
    }

    constructor (dir: LockDirectory, heartbeat: bool)
      requires dir.Valid() && !dir.Mine().Holding?
      ensures Valid() && this.dir == dir && this.heartbeat == heartbeat && ownContent == None
    {
      this.dir, this.heartbeat := dir, heartbeat;
      ownContent, timerRunning := None, false;
    }

    /** Write the document into the file just created, and read it back; a failed write cleans up. */
    method WriteAndVerify(doc: Content, inode: nat) returns (r: CreateOutcome)
      requires Valid() && dir.Mine() == Opened(doc, inode)
      modifies this`ownContent, dir`st, dir`assumed, dir`own
      ensures Valid() && Onward() && (!r.Won? ==> ownContent == old(ownContent))
      ensures r.Won? ==> dir.Mine() == Holding(doc, inode) && ownContent == Some(doc)
      ensures r.Lost? ==> dir.Mine().Stat1?
      ensures r.Threw? ==> dir.Mine().Idle?
      ensures dir.quiet && old(dir.st).lock.File? && old(dir.st).lock.inode == inode ==> r.Won?
    {
      hide Accounted, Inv, SinceRemoval, LockFileStep, StaleBar, Size, InCritical;
      var mid, fault := dir.LockCall();
      OpenedStep(mid, dir.me, fault);
      if !fault.NoFault? {
        mid, fault := dir.LockCall();
        WriteFailedStep(mid, dir.me, fault);
        return Threw;
      }
      mid, fault := dir.LockCall();
      WrittenStep(mid, dir.me, fault);
      if ReadResult(mid.lock, fault) != Some(doc) { return Lost; }
      ownContent := Some(doc);
      return Won;
    }

    /** One exclusive-create attempt: create, write, read back. */
    method TryExclusiveCreate() returns (r: CreateOutcome)
      requires Valid() && dir.Mine().Create?
      modifies this`ownContent, dir`st, dir`assumed, dir`own
      ensures Valid() && Onward() && (!r.Won? ==> ownContent == old(ownContent))
      ensures r.Won? ==> dir.Mine().Holding? && ownContent.Some?
      ensures r.Lost? ==> dir.Mine().Stat1?
      ensures r.Threw? ==> dir.Mine().Idle?
      ensures dir.quiet && old(dir.st).lock.Absent? ==> r.Won?
      ensures dir.quiet && old(dir.st).lock.File? ==>
                r.Lost? && dir.st.lock == old(dir.st).lock && dir.st.intent == old(dir.st).intent
    {
      hide Accounted, Inv, SinceRemoval, LockFileStep, StaleBar, Size, InCritical;
      var mid, fault := dir.LockCall();
      CreateStep(mid, dir.me, fault);
      if fault.Failed? { return Threw; }
      if mid.lock.File? || fault.Contended? { return Lost; }
      r := WriteAndVerify(NewDocument(mid, dir.me), mid.nextInode);
    }

    /** Exclusive create of the intent file: create, write, read back. */
    method CreateIntent(tk: Takeover, createAttempt: nat) returns (r: IntentOutcome)
      requires Valid() && dir.Mine() == IntentOpen(tk, createAttempt)
      modifies dir`st, dir`assumed, dir`own
      ensures Valid() && Onward()
      ensures r.Claimed? ==> dir.Mine().Stat2? && dir.Mine().tk == tk
      ensures r.Exists? ==> dir.Mine() == IntentStat(tk, createAttempt)
      ensures r.Refused? ==> dir.Mine().Backoff?
      ensures r.IntentThrew? ==> dir.Mine().Idle?
      ensures dir.quiet ==> dir.st.lock == old(dir.st).lock
      ensures dir.quiet && old(dir.st).intent.Absent? ==>
                r.Claimed? && dir.st.intent.File? && dir.st.intent.content == tk.doc
    {
      hide Accounted, Inv, SinceRemoval, LockFileStep, UnderIntentStep, JudgingStep, StaleBar, Size;
      var mid, fault := dir.IntentCall();
      if mid.intent.File? { return Exists; }
      if !fault.NoFault? { return Refused; }
      mid, fault := dir.IntentCall();
      if !fault.NoFault? {
        mid, fault := dir.IntentCall();
        return IntentThrew;
      }
      mid, fault := dir.IntentCall();
      return if ReadResult(mid.intent, fault) == Some(tk.doc) then Claimed else Refused;
    }

    /** Stat, read and judge the intent that is in the way. */
    method JudgeIntent(tk: Takeover, createAttempt: nat) returns (r: IntentVerdict)
      requires Valid() && dir.Mine() == IntentStat(tk, createAttempt)
      modifies dir`st, dir`assumed, dir`own
      ensures Valid() && Onward()
      ensures r.Vanished? ==> dir.Mine() == RetryIntent(tk, createAttempt)
      ensures r.Live? ==> dir.Mine().Backoff?
      ensures r.Stale? ==> dir.Mine() == IntentStat2(tk, createAttempt, r.ist, r.ic)
      ensures dir.quiet ==> dir.st.lock == old(dir.st).lock
    {
      hide Accounted, Inv, SinceRemoval;
      var mid, fault := dir.IntentCall();
      var istat := StatResult(mid.intent, fault);
      if istat.None? { return Vanished; }
      mid, fault := dir.IntentCall();
      var icontent := ReadResult(mid.intent, fault);
      if icontent.None? { return Vanished; }
      mid, fault := dir.IntentCall();
      return if mid.now - istat.value.mtime < StaleBar(icontent.value, mid.hosts[dir.me]) then Live
        else Stale(istat.value, icontent.value);
    }

    /** Compare-and-delete of a crashed claimant's intent; true when the create is worth another try. */
    method DeleteStaleIntent(tk: Takeover, createAttempt: nat, ist: Stat, ic: Content) returns (retry: bool)
      requires Valid() && dir.Mine() == IntentStat2(tk, createAttempt, ist, ic)
      modifies dir`st, dir`assumed, dir`own
      ensures Valid() && Onward()
      ensures dir.Mine() == if retry then RetryIntent(tk, createAttempt) else Backoff
      ensures dir.quiet ==> dir.st.lock == old(dir.st).lock
    {
      hide Accounted, Inv, SinceRemoval, LockFileStep, UnderIntentStep, JudgingStep, StaleBar, Size;
      var mid, fault := dir.IntentCall();
      var istat2 := StatResult(mid.intent, fault);
      if istat2.None? { return true; }
      mid, fault := dir.IntentCall();
      var icontent2 := ReadResult(mid.intent, fault);
      if icontent2.None? { return true; }
      if istat2.value.mtime != ist.mtime || icontent2.value != ic { return false; }
      mid, fault := dir.IntentCall();
      return fault.NoFault? && mid.intent.File?;
    }

    /** One round of the intent loop: create, or judge what is in the way; no answer means that a create is worth another try. */
    method IntentRound(tk: Takeover, createAttempt: nat) returns (r: IntentOutcome)
      requires Valid() && dir.Mine() == IntentOpen(tk, createAttempt)
      modifies dir`st, dir`assumed, dir`own
      ensures Valid() && Onward()
      ensures r.Exists? ==> dir.Mine() == RetryIntent(tk, createAttempt)
      ensures r.Claimed? ==> dir.Mine().Stat2? && dir.Mine().tk == tk
      ensures r.Refused? ==> dir.Mine().Backoff?
      ensures r.IntentThrew? ==> dir.Mine().Idle?
      ensures dir.quiet ==> dir.st.lock == old(dir.st).lock
      ensures dir.quiet && old(dir.st).intent.Absent? ==>
                r.Claimed? && dir.st.intent.File? && dir.st.intent.content == tk.doc
    {
      hide Accounted, Inv, SinceRemoval, Step, StaleBar, Size, RetryIntent;
      r := CreateIntent(tk, createAttempt);
      if !r.Exists? { return; }
      var verdict := JudgeIntent(tk, createAttempt);
      if verdict.Live? { return Refused; }
      if verdict.Stale? {
        var retry := DeleteStaleIntent(tk, createAttempt, verdict.ist, verdict.ic);
        if !retry { return Refused; }
      }
    }

    /** Win the intent, recovering a crashed claimant's at most once. */
    method TryAcquireTakeoverIntent(tk: Takeover) returns (r: IntentOutcome)
      requires Valid() && dir.Mine() == IntentOpen(tk, 0)
      modifies dir`st, dir`assumed, dir`own
      ensures Valid() && Onward()
      ensures !r.Exists?
      ensures r.Claimed? ==> dir.Mine().Stat2? && dir.Mine().tk == tk
      ensures r.Refused? ==> dir.Mine().Backoff?
      ensures r.IntentThrew? ==> dir.Mine().Idle?
      ensures dir.quiet ==> dir.st.lock == old(dir.st).lock
      ensures dir.quiet && old(dir.st).intent.Absent? ==>
                r.Claimed? && dir.st.intent.File? && dir.st.intent.content == tk.doc
    {
      hide Accounted, Inv, SinceRemoval, Step, StaleBar, Size;
      for createAttempt := 0 to 2
        invariant Valid() && Onward()
        invariant dir.Mine() == if createAttempt < 2 then IntentOpen(tk, createAttempt) else Backoff
        invariant dir.quiet ==> dir.st.lock == old(dir.st).lock
        invariant dir.quiet && old(dir.st).intent.Absent? ==> createAttempt == 0 && dir.st.intent.Absent?
      {
        r := IntentRound(tk, createAttempt);
        if !r.Exists? { return; }
      }
      return Refused;
    }

    /** Release the intent, only while it still carries our bytes. */
    method ReleaseTakeoverIntent(tk: Takeover, removed: bool)
      requires Valid() && dir.Mine().IntentReleaseRead? && dir.Mine().tk == tk && dir.Mine().removed == removed
      modifies dir`st, dir`assumed, dir`own
      ensures Valid() && Onward()
      ensures dir.Mine() == AfterTakeover(removed)
      ensures dir.quiet ==> dir.st.lock == old(dir.st).lock
      ensures dir.quiet && old(dir.st).intent.File? && old(dir.st).intent.content == tk.doc ==> dir.st.intent.Absent?
    {
      hide Accounted, Inv, SinceRemoval;
      var mid, fault := dir.ClaimantCall();
      if ReadResult(mid.intent, fault) != Some(tk.doc) { return; }
      mid, fault := dir.ClaimantCall();
    }

    /** Stat and read the lock. */
    method ReadLock() returns (r: Option<(Stat, Content)>)
      requires Valid() && dir.Mine().Stat1?
      modifies dir`st, dir`assumed, dir`own
      ensures Valid() && Onward()
      ensures dir.Mine() == if r.Some? then Judge(r.value.0, r.value.1) else Backoff
      ensures dir.quiet && old(dir.st.lock).File? ==>
                && r == Some((StatOf(old(dir.st.lock)), old(dir.st.lock).content))
                && dir.st.lock == old(dir.st.lock) && dir.st.intent == old(dir.st.intent)
    {
      hide Accounted, Inv, SinceRemoval, StaleBar, Size;
      var mid, fault := dir.WaiterCall();
      var stat1 := StatResult(mid.lock, fault);
      if stat1.None? { return None; }
      mid, fault := dir.WaiterCall();
      var content1 := ReadResult(mid.lock, fault);
      if content1.None? { return None; }
      return Some((stat1.value, content1.value));
    }

    /** Stat and read the lock and judge its age by the class of its document. */
    method JudgeLock() returns (r: Option<Takeover>)
      requires Valid() && dir.Mine().Stat1?
      modifies dir`st, dir`assumed, dir`own
      ensures Valid() && Onward()
      ensures dir.Mine() == if r.Some? then IntentOpen(r.value, 0) else Backoff
      ensures dir.quiet && old(dir.st.lock).File? ==>
                && dir.st.lock == old(dir.st.lock) && dir.st.intent == old(dir.st.intent)
                && (r.Some? ==> r.value.st1 == StatOf(dir.st.lock) && r.value.c1 == dir.st.lock.content && PastBarAt(dir.st.lock, dir.st.now))
                && (r.None? ==> !PastBarAt(dir.st.lock, old(dir.st.now)))
    {
      hide Accounted, Inv, SinceRemoval, PastItsBar, StaleBar, Size;
      var found := ReadLock();
      if found.None? { return None; }
      var (stat1, content1) := found.value;
      var mid, fault := dir.WaiterCall();
      BarIsExact(content1, mid.hosts[dir.me], mid.now - stat1.mtime);
      BarComesOnce(content1, mid.hosts[dir.me], old(dir.st.now) - stat1.mtime, mid.now - stat1.mtime);
      if mid.now - stat1.mtime < StaleBar(content1, mid.hosts[dir.me]) { return None; }
      return Some(Takeover(stat1, content1, NewDocument(mid, dir.me)));
    }

    /** Under the intent: check that the lock is still the artifact judged, and the intent ours; unlink. */
    method RemoveJudged(tk: Takeover) returns (removed: bool)
      requires Valid() && dir.Mine().Stat2? && dir.Mine().tk == tk
      modifies dir`st, dir`assumed, dir`own, dir`takeovers, dir`lastRemoval
      ensures Valid() && Onward()
      ensures dir.Mine().IntentReleaseRead? && dir.Mine().tk == tk && dir.Mine().removed == removed
      ensures if removed then Max(old(dir.lastRemoval) + LOCK_STALE_MS, old(dir.st.now)) <= dir.lastRemoval <= dir.st.now
              else dir.lastRemoval == old(dir.lastRemoval)
      ensures dir.quiet ==> dir.st.intent == old(dir.st).intent
      ensures dir.quiet && old(dir.st).lock.File? && old(dir.st).intent.File? && old(dir.st).intent.content == tk.doc
                && tk.st1 == StatOf(old(dir.st).lock) && tk.c1 == old(dir.st).lock.content ==>
                removed && dir.st.lock.Absent?
    {
      hide Accounted, Inv, SinceRemoval, LockFileStep, IntentFileStep, JudgingStep, StaleBar;
      var mid, fault := dir.ClaimantCall();
      var stat2 := StatResult(mid.lock, fault);
      if stat2.None? { return false; }
      mid, fault := dir.ClaimantCall();
      var content2 := ReadResult(mid.lock, fault);
      if content2.None? || stat2.value != tk.st1 || content2.value != tk.c1 { return false; }
      mid, fault := dir.ClaimantCall();
      if ReadResult(mid.intent, fault) != Some(tk.doc) { return false; }
      removed := dir.UnlinkStaleLock();
    }
  
    /** Remove the lock if it is stale; claimants are serialized through the intent. */
    method TryStaleTakeover() returns (r: TakeoverOutcome)
      requires Valid() && dir.Mine().Stat1?
      modifies dir`st, dir`assumed, dir`own, dir`takeovers, dir`lastRemoval
      ensures Valid() && Onward()
      ensures dir.Mine() == if r.Removed? then Create else if r.NotRemoved? then Backoff else Idle
      ensures if r.Removed? then Max(old(dir.lastRemoval) + LOCK_STALE_MS, old(dir.st.now)) <= dir.lastRemoval <= dir.st.now
              else dir.lastRemoval == old(dir.lastRemoval)
      ensures dir.quiet && old(dir.st).lock.File? && old(dir.st).intent.Absent? ==>
                || (r.Removed? && dir.st.lock.Absent? && dir.st.intent.Absent? && PastBarAt(old(dir.st.lock), dir.st.now))
                || (r.NotRemoved? && dir.st.lock == old(dir.st).lock && dir.st.intent.Absent? && !PastBarAt(dir.st.lock, old(dir.st.now)))
      ensures dir.quiet && old(dir.st).lock.File? && !PastBarAt(old(dir.st.lock), dir.st.now) ==>
                r.NotRemoved? && dir.st.lock == old(dir.st).lock && dir.st.intent == old(dir.st).intent
    {
      hide Accounted, Inv, SinceRemoval, Step, PastItsBar;
      var judged := JudgeLock();
      if judged.None? { return NotRemoved; }
      ghost var judgedAt, st1 := dir.st.now, judged.value.st1;
      var intent := TryAcquireTakeoverIntent(judged.value);
      BarComesOnce(judged.value.c1, dir.st.hosts[dir.me], judgedAt - st1.mtime, dir.st.now - st1.mtime);
      if intent.IntentThrew? { return TakeoverThrew; }
      if !intent.Claimed? { return NotRemoved; }
      var removed := RemoveJudged(judged.value);
      ReleaseTakeoverIntent(judged.value, removed);
      BarComesOnce(judged.value.c1, dir.st.hosts[dir.me], judgedAt - st1.mtime, dir.st.now - st1.mtime);
      return if removed then Removed else NotRemoved;
    }
  
    /**
     * One pass: try to create, then try to take over. A pass that ends in backing off leaves the lock
     * and the intent as a lone waiter found them, and the lock was still under its bar when it began.
     */
    method Attempt() returns (r: PassOutcome)
      requires Valid() && ownContent.None? && dir.Mine().Create?
      modifies this`ownContent, dir`st, dir`assumed, dir`own, dir`takeovers, dir`lastRemoval
      ensures Valid() && Onward()
      ensures r.Entered? <==> ownContent.Some?
      ensures r.RemovedStale? ==> dir.Mine().Create?
      ensures r.MustWait? ==> dir.Mine().Backoff?
      ensures if r.RemovedStale? then Max(old(dir.lastRemoval) + LOCK_STALE_MS, old(dir.st.now)) <= dir.lastRemoval <= dir.st.now
              else dir.lastRemoval == old(dir.lastRemoval)
      ensures dir.quiet && old(dir.st).lock.Absent? ==> r.Entered?
      ensures dir.quiet && old(dir.st).lock.File? && old(dir.st).intent.Absent? ==>
                && dir.st.intent.Absent?
                && !r.PassThrew?
                && (r.RemovedStale? ==>
                      dir.st.lock.Absent?
                      && PastBarAt(old(dir.st.lock), dir.st.now))
                && (r.MustWait? ==>
                      dir.st.lock == old(dir.st).lock
                      && !PastBarAt(dir.st.lock, old(dir.st.now)))
      ensures dir.quiet && old(dir.st).lock.File?
              && !PastBarAt(old(dir.st.lock), dir.st.now) ==>
                r.MustWait? && dir.st.lock == old(dir.st).lock && dir.st.intent == old(dir.st).intent
    {
      hide Accounted, Inv, SinceRemoval, PastItsBar;
      var created := TryExclusiveCreate();
      if created.Won? { return Entered; }
      if created.Threw? { return PassThrew; }
      if dir.st.lock.File? {
        BarComesOnce(dir.st.lock.content, dir.st.hosts[dir.me], old(dir.st.now) - dir.st.lock.mtime, dir.st.now - dir.st.lock.mtime);
      }
      var takeover := TryStaleTakeover();
      return if takeover.Removed? then RemovedStale else if takeover.NotRemoved? then MustWait else PassThrew;
    }

    /** Sleep for the jittered backoff, no longer than is left of the budget, and come back. */
    method BackOff(attempt: nat, left: nat)
      requires Valid() && ownContent.None? && dir.Mine().Backoff? && left > 0
      modifies dir`st, dir`assumed, dir`passEnd
      ensures Valid() && Onward() && dir.Mine().Create? && old(dir.st.now) < dir.st.now <= old(dir.st.now) + left
      ensures dir.st.lock == old(dir.st).lock && dir.st.intent == old(dir.st).intent
    {
      hide Accounted, Inv, SinceRemoval;
      var jitter: real := *;
      if !(0.5 <= jitter < 1.5) { jitter := 1.0; }
      var backoff := NextBackoffMs(attempt, jitter);
      dir.Sleep(Min(backoff, left));
      dir.Retry();
    }

    /** One pass, and by when it is over. For a lone waiter: what it did to a lock that is past its bar when it begins, or still under it when it ends. */
    method Pass() returns (r: PassOutcome)
      requires Valid() && ownContent.None? && dir.Mine().Create?
      modifies this`ownContent, dir`st, dir`assumed, dir`own, dir`takeovers, dir`lastRemoval, dir`passEnd
      ensures Valid() && Onward() && dir.st.now <= old(dir.st.now) + PASS_MS
      ensures r.Entered? <==> ownContent.Some?
      ensures r.RemovedStale? ==> dir.Mine().Create? && Max(old(dir.lastRemoval) + LOCK_STALE_MS, old(dir.st.now)) <= dir.lastRemoval <= dir.st.now
      ensures r.MustWait? ==> dir.Mine().Backoff?
      ensures dir.quiet && old(dir.st.lock).Absent? ==> r.Entered?
      ensures dir.quiet && old(dir.st.lock).File? && old(dir.st.intent).Absent? ==>
                && dir.st.intent.Absent? && !r.PassThrew?
                && (r.RemovedStale? ==> dir.st.lock.Absent?)
                && (r.MustWait? ==> dir.st.lock == old(dir.st.lock) && !PastBarAt(dir.st.lock, old(dir.st.now)))
      ensures dir.quiet && old(dir.st.lock).File? && !PastBarAt(old(dir.st.lock), old(dir.st.now) + PASS_MS) ==>
                r.MustWait? && dir.st.lock == old(dir.st.lock) && dir.st.intent == old(dir.st.intent)
    {
      hide Accounted, Inv, SinceRemoval, PastItsBar;
      dir.BeginPass();
      r := Attempt();
      if old(dir.st.lock).File? {
        var f := old(dir.st.lock);
        BarComesOnce(f.content, dir.st.hosts[dir.me], dir.st.now - f.mtime, old(dir.st.now) + PASS_MS - f.mtime);
      }
    }

    /** Pass after pass until one enters or throws, or the budget is over. */
    method RunPasses() returns (r: AcquireOutcome)
      requires Valid() && ownContent.None? && dir.Mine().Create?
      modifies this, dir
      ensures Valid() && (dir.assumed ==> old(dir.assumed)) && dir.st.hosts == old(dir.st.hosts)
      ensures r.Acquired? <==> ownContent.Some?
      ensures r.Acquired? ==> timerRunning == heartbeat && (dir.assumed ==> Exclusive())
      ensures r.Busy? ==> r.waitedMs >= ACQUIRE_BUDGET && dir.Mine().Idle?
      ensures dir.quiet && old(dir.st.intent).Absent? && (old(dir.st.lock).File? ==> PastBarAt(old(dir.st.lock), old(dir.st.now) + 60_000)) ==>
                r.Acquired?
      ensures dir.quiet && old(dir.st.lock).File? && !PastBarAt(old(dir.st.lock), old(dir.st.now) + 75_000 + PASS_MS) ==>
                r.Busy? && dir.st.lock == old(dir.st.lock) && dir.st.intent == old(dir.st.intent)
    {
      hide Accounted, Inv, SinceRemoval, Step, Apply, InCritical, PastItsBar, Exclusive;
      var startedWaiting := dir.st.now;
      var deadline := startedWaiting + ACQUIRE_BUDGET;
      var attempt := 0;
      ghost var removedJustNow := false;
      ghost var found, claimed := dir.st.lock, dir.st.intent;
      ghost var lone := dir.quiet && claimed.Absent?;
      ghost var young := dir.quiet && found.File? && !PastBarAt(found, deadline + PASS_MS);
      while true
        invariant Valid() && ownContent.None? && dir.Mine().Create? && !timerRunning
        invariant dir.assumed ==> old(dir.assumed)
        invariant startedWaiting <= dir.st.now && dir.st.hosts == old(dir.st.hosts)
        invariant removedJustNow ==> dir.st.now <= dir.lastRemoval + PASS_MS
        invariant lone ==> dir.st.intent.Absent? && (dir.st.lock.Absent? || dir.st.lock == found)
        invariant young ==> dir.st.lock == found && dir.st.intent == claimed && dir.st.now <= deadline && !removedJustNow
        decreases Max(0, deadline - dir.st.now), if removedJustNow then 0 else 1
      {
        if found.File? {
          BarComesOnce(found.content, dir.st.hosts[dir.me], dir.st.now + PASS_MS - found.mtime, deadline + PASS_MS - found.mtime);
          BarComesOnce(found.content, dir.st.hosts[dir.me], startedWaiting + 60_000 - found.mtime, dir.st.now - found.mtime);
        }
        var pass := Pass();
        if pass.Entered? {
          timerRunning := heartbeat;
          if dir.assumed { HeldIsExclusive(); }
          return Acquired;
        }
        if pass.PassThrew? { return AcquireThrew; }
        if pass.RemovedStale? {
          removedJustNow := true;
          continue;
        }
        var now := dir.st.now;
        if now >= deadline {
          dir.Local(GiveUp(dir.me));
          return Busy(now - startedWaiting);
        }
        BackOff(attempt, deadline - now);
        removedJustNow := false;
        attempt := attempt + 1;
      }
    }

    /**
     * Acquire within the budget, or report busy. Each pass is assumed shorter than `PASS_MS`.
     *
     * - An acquired lock is exclusive as long as the environment assumptions held.
     * - Busy is reported only after the whole budget.
     * - A lone waiter with no intent in its way acquires, if the lock it meets passes its bar within a minute; and is
     *   busy, the lock untouched, if the lock does not pass its bar within the whole wait.
     */
    method Acquire() returns (r: AcquireOutcome)
      requires Valid() && (ownContent.Some? || dir.Mine().Idle?)
      modifies this, dir
      ensures Valid() && (dir.assumed ==> old(dir.assumed))
      ensures old(ownContent.Some?) ==> r.AcquireThrew? && ownContent == old(ownContent) && dir.st == old(dir.st)
      ensures old(ownContent.None?) ==> (r.Acquired? <==> ownContent.Some?)
      ensures r.Acquired? ==> timerRunning == heartbeat && (dir.assumed ==> Exclusive())
      ensures r.Busy? ==> r.waitedMs >= ACQUIRE_BUDGET && dir.Mine().Idle?
      ensures
        dir.quiet && old(ownContent.None?) && old(dir.st.intent).Absent?
        && (old(dir.st.lock).File? ==> PastBarAt(old(dir.st.lock), old(dir.st.now) + 60_000)) ==>
        r.Acquired?
      ensures
        dir.quiet && old(ownContent.None?) && old(dir.st.lock).File? && !PastBarAt(old(dir.st.lock), old(dir.st.now) + 75_000 + PASS_MS) ==>
        r.Busy? && dir.st.lock == old(dir.st.lock) && dir.st.intent == old(dir.st.intent)
    {
      hide Accounted, Inv, SinceRemoval, Step, InCritical, PastItsBar, Exclusive;
      if ownContent.Some? { return AcquireThrew; }
      dir.Local(Begin(dir.me));
      r := RunPasses();
    }

    /** Delete the lock file, but only while it still carries our bytes. Always ends the hold. */
    method Release()
      requires Valid()
      modifies this`ownContent, this`timerRunning, dir`st, dir`assumed, dir`own
      ensures Valid() && Onward() && ownContent.None? && !timerRunning
      ensures old(ownContent.None?) ==> dir.st == old(dir.st)
      ensures old(ownContent.Some?) ==> dir.Mine().Idle?
      ensures dir.quiet && old(ownContent.Some?) && old(dir.st).lock.File? ==>
                dir.st.lock == if old(dir.st).lock.content == old(ownContent.value) then Absent else old(dir.st).lock
    {
      hide Accounted, Inv, SinceRemoval;
      timerRunning := false;
      if ownContent.None? { return; }
      var own := ownContent.value;
      dir.Local(BeginRelease(dir.me));
      ownContent := None;
      var mid, fault := dir.LockCall();
      if ReadResult(mid.lock, fault) != Some(own) { return; }
      mid, fault := dir.LockCall();
    }
  
    /**
     * The heartbeat: bump the mtime while the file still carries our bytes; false once it does not.
     * With the assumptions, true means the lock is still exclusively ours and its age starts again.
     */
    method Refresh() returns (stillOurs: bool)
      requires Valid()
      modifies dir`st, dir`assumed, dir`own
      ensures Valid() && Onward()
      ensures stillOurs ==> ownContent.Some? && (dir.assumed ==> Exclusive())
      ensures dir.quiet && old(dir.st).lock.File? && ownContent.Some? ==>
                (stillOurs <==> old(dir.st).lock.content == ownContent.value)
                && dir.st.lock == if stillOurs then old(dir.st).lock.(mtime := dir.st.now) else old(dir.st).lock
    {
      hide Accounted, Inv, SinceRemoval;
      if ownContent.None? { return false; }
      var mid, fault := dir.Beat();
      if ReadResult(mid.lock, fault) != ownContent { return false; }
      mid, fault := dir.LockCall();
      if dir.assumed { HeldIsExclusive(); }
      return fault.NoFault? && mid.lock.File?;
    }

    /**
     * Sign-out's delete path: acquire, run the caller's unlink of the store, release. The unlink runs only inside
     * an acquired hold, and the hold ends whether or not the unlink throws.
     */
    method DeleteStoreUnderLock(store: StoreFile) returns (r: AcquireOutcome, deleted: bool)
      requires Valid() && ownContent.None? && dir.Mine().Idle?
      modifies this, dir, store
      ensures Valid() && ownContent.None?
      ensures deleted ==> r.Acquired? && !store.present
      ensures !deleted ==> store.present == old(store.present)
      ensures r.Acquired? ==> dir.Mine().Idle?
    {
      deleted := false;
      r := Acquire();
      if r.Acquired? {
        deleted := store.Unlink();
        Release();
      }
    }
  }

  /** The file the delete path removes; the unlink may throw. */
  class StoreFile {
    var present: bool

    method Unlink() returns (ok: bool)
      modifies this
      ensures if ok then !present else present == old(present)
    {
      ok := *;
      if ok { present := false; }
    }
  }
}
