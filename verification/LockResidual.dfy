/**
 * The accepted residual of crashed-intent recovery, as a run: when a claimant dies with its intent on
 * disk, every holder and claimant can stay well under the staleness bar and two processes still end up
 * holding the lock. The hypothesis `NoOrphanIntent` of the safety results cannot be dropped.
 */
module LockResidual {
  import opened Basics
  import opened LockProtocol
  import opened LockSafety
  import opened LockUnconditional

  const HOSTS: seq<string> := ["h", "h", "h", "h"]
  const START := State(0, Absent, Absent, 0, 0, HOSTS, [Idle, Idle, Idle, Idle])

  /** The run leads from `START` to `s'`, and every state on the way is timely. */
  ghost predicate Leads(run: seq<Action>, s': State) {
    && Exec(START, run) == s'
    && forall k :: 0 <= k <= |run| ==> Timely(Exec(START, run[..k]))
  }

  /** A call without a fault leaves every file as it was, or gone, or written just now. */
  lemma CallKeepsTimely(s: State, p: nat)
    requires WellFormed(s) && Timely(s) && p < |s.procs|
    ensures Timely(Step(s, p, NoFault))
  {
    StepMovesOne(s, p, NoFault);
    MtimeMovesForward(s, p, NoFault);
    LockOwnershipOrigin(s, p, NoFault);
    IntentOwnershipOrigin(s, p, NoFault);
  }

  lemma Extend(run: seq<Action>, s: State, a: Action) returns (longer: seq<Action>, s': State)
    requires Leads(run, s) && WellFormed(s) && Timely(Apply(s, a))
    ensures s' == Apply(s, a) && Leads(longer, s')
  {
    longer, s' := run + [a], Apply(s, a);
    assert longer[..|run|] == run && longer[..|longer|] == longer;
    forall k | 0 <= k <= |longer| ensures Timely(Exec(START, longer[..k])) {
      if k <= |run| { assert longer[..k] == run[..k]; }
    }
  }

  /** The next call of `p`, without a fault, leads from `s` to `s'`. */
  predicate Moves(s: State, p: nat, s': State) {
    WellFormed(s) && p < |s.procs| && s' == Step(s, p, NoFault)
  }

  lemma Hop(run: seq<Action>, s: State, p: nat, s': State) returns (longer: seq<Action>)
    requires Leads(run, s) && Moves(s, p, s')
    ensures Leads(longer, s')
  {
    assert run[..|run|] == run;
    CallKeepsTimely(s, p);
    var end;
    longer, end := Extend(run, s, Call(p, NoFault));
  }

  lemma Hop3(run: seq<Action>, s: State, p: nat, s1: State, s2: State, s3: State) returns (longer: seq<Action>)
    requires Leads(run, s) && Moves(s, p, s1) && Moves(s1, p, s2) && Moves(s2, p, s3)
    ensures Leads(longer, s3)
  {
    longer := Hop(run, s, p, s1);
    longer := Hop(longer, s1, p, s2);
    longer := Hop(longer, s2, p, s3);
  }

  function Doc(nonce: nat): Content { Document(Some("h"), nonce) }

  /** The orphaned lock, left by process 3, and the orphaned intent, left by process 0. */
  const OLD_LOCK := File(0, Doc(0), 0)
  const OLD_INTENT := File(1, Empty, LOCK_STALE_MS)

  function Claim(nonce: nat): Takeover { Takeover(StatOf(OLD_LOCK), Doc(0), Doc(nonce)) }

  /** A waiter finds the lock taken, stats it and reads it. */
  lemma FindLock(run: seq<Action>, s: State, p: nat) returns (longer: seq<Action>, s': State)
    requires Leads(run, s) && WellFormed(s) && p < |s.procs|
    requires s.lock == OLD_LOCK && s.procs[p] == Create
    ensures Leads(longer, s')
    ensures s' == At(s, p, Judge(StatOf(OLD_LOCK), Doc(0))).(nextNonce := s.nextNonce + 1)
  {
    hide Leads, IntentFileStep, UnderIntentStep, Size, Exec, Timely;
    var s1 := At(s, p, Stat1).(nextNonce := s.nextNonce + 1);
    s' := At(s1, p, Judge(StatOf(OLD_LOCK), Doc(0)));
    longer := Hop3(run, s, p, s1, At(s1, p, Read1(StatOf(OLD_LOCK))), s');
  }

  /** It judges the lock stale and looks at the intent it finds. */
  lemma FindIntent(run: seq<Action>, s: State, p: nat) returns (longer: seq<Action>, s': State)
    requires Leads(run, s) && WellFormed(s) && p < |s.procs| && s.hosts[p] == "h"
    requires s.intent == OLD_INTENT && s.now >= LOCK_STALE_MS && s.procs[p] == Judge(StatOf(OLD_LOCK), Doc(0))
    ensures Leads(longer, s')
    ensures s' == At(s, p, IntentRead(Claim(s.nextNonce), 0, StatOf(OLD_INTENT))).(nextNonce := s.nextNonce + 1)
  {
    var s1 := At(s, p, IntentOpen(Claim(s.nextNonce), 0)).(nextNonce := s.nextNonce + 1);
    s' := At(s1, p, IntentRead(Claim(s.nextNonce), 0, StatOf(OLD_INTENT)));
    longer := Hop3(run, s, p, s1, At(s1, p, IntentStat(Claim(s.nextNonce), 0)), s');
  }

  /** The intent is past its bar too: it is about to unlink it. */
  lemma JudgeIntent(run: seq<Action>, s: State, p: nat) returns (longer: seq<Action>, s': State)
    requires Leads(run, s) && WellFormed(s) && p < |s.procs| && s.hosts[p] == "h"
    requires s.intent == OLD_INTENT && s.now >= 2 * LOCK_STALE_MS
    requires s.procs[p].IntentRead? && s.procs[p].ist == StatOf(OLD_INTENT) && s.procs[p].tries == 0
    ensures Leads(longer, s') && s' == At(s, p, IntentUnlink(s.procs[p].tk, 0, StatOf(OLD_INTENT), Empty))
  {
    var tk, ist := s.procs[p].tk, StatOf(OLD_INTENT);
    var s1, s2 := At(s, p, IntentJudge(tk, 0, ist, Empty)), At(s, p, IntentStat2(tk, 0, ist, Empty));
    s' := At(s, p, IntentUnlink(tk, 0, ist, Empty));
    var s3 := At(s, p, IntentRead2(tk, 0, ist, Empty, ist));
    longer := Hop3(run, s, p, s1, s2, s3);
    longer := Hop(longer, s3, p, s');
  }

  /** It unlinks whatever intent is there now and writes its own. */
  lemma ReplaceIntent(run: seq<Action>, s: State, p: nat) returns (longer: seq<Action>, s': State)
    requires Leads(run, s) && WellFormed(s) && p < |s.procs|
    requires s.intent.File? && s.procs[p].IntentUnlink? && s.procs[p].tries == 0
    ensures Leads(longer, s')
    ensures
      var tk := s.procs[p].tk;
      s' == At(s, p, IntentWritten(tk, s.nextInode)).(intent := File(s.nextInode, tk.doc, s.now), nextInode := s.nextInode + 1)
  {
    var tk := s.procs[p].tk;
    var s1 := At(s.(intent := Absent), p, IntentOpen(tk, 1));
    var s2 := At(s, p, IntentOpened(tk, s.nextInode)).(intent := File(s.nextInode, Empty, s.now), nextInode := s.nextInode + 1);
    s' := At(s2, p, IntentWritten(tk, s.nextInode)).(intent := File(s.nextInode, tk.doc, s.now));
    longer := Hop3(run, s, p, s1, s2, s');
  }

  /** Under its intent it finds the very lock it judged, and its intent in place: it will unlink the lock. */
  lemma Revalidate(run: seq<Action>, s: State, p: nat) returns (longer: seq<Action>, s': State)
    requires Leads(run, s) && WellFormed(s) && p < |s.procs|
    requires s.procs[p].IntentWritten? && s.intent.File? && s.intent.content == s.procs[p].tk.doc
    requires s.lock.File? && s.procs[p].tk.st1 == StatOf(s.lock) && s.procs[p].tk.c1 == s.lock.content
    ensures Leads(longer, s') && s' == At(s, p, UnlinkStale(s.procs[p].tk, s.procs[p].inode))
  {
    var tk, inode := s.procs[p].tk, s.procs[p].inode;
    var s1, s2, s3 := At(s, p, Stat2(tk, inode)), At(s, p, Read2(tk, inode, StatOf(s.lock))), At(s, p, IntentCheck(tk, inode));
    s' := At(s, p, UnlinkStale(tk, inode));
    longer := Hop3(run, s, p, s1, s2, s3);
    longer := Hop(longer, s3, p, s');
  }

  /** It unlinks the lock at the path; its intent is no longer in place, so it leaves that alone. */
  lemma RemoveDisplaced(run: seq<Action>, s: State, p: nat) returns (longer: seq<Action>, s': State)
    requires Leads(run, s) && WellFormed(s) && p < |s.procs|
    requires s.procs[p].UnlinkStale? && s.lock.File? && s.intent.File? && s.intent.content != s.procs[p].tk.doc
    ensures Leads(longer, s') && s' == At(s.(lock := Absent), p, Create)
  {
    var tk, inode := s.procs[p].tk, s.procs[p].inode;
    var s1 := At(s.(lock := Absent), p, IntentReleaseRead(tk, inode, true));
    s' := At(s.(lock := Absent), p, Create);
    longer := Hop(run, s, p, s1);
    longer := Hop(longer, s1, p, s');
  }

  /** It unlinks the lock at the path, then its own intent. */
  lemma RemoveInPlace(run: seq<Action>, s: State, p: nat) returns (longer: seq<Action>, s': State)
    requires Leads(run, s) && WellFormed(s) && p < |s.procs|
    requires s.procs[p].UnlinkStale? && s.lock.File? && s.intent.File? && s.intent.content == s.procs[p].tk.doc
    ensures Leads(longer, s') && s' == At(s.(lock := Absent, intent := Absent), p, Create)
  {
    var tk, inode := s.procs[p].tk, s.procs[p].inode;
    var s0 := s.(lock := Absent);
    var s1, s2 := At(s0, p, IntentReleaseRead(tk, inode, true)), At(s0, p, IntentReleaseUnlink(tk, inode, true));
    s' := At(s.(lock := Absent, intent := Absent), p, Create);
    longer := Hop3(run, s, p, s1, s2, s');
  }

  /** It creates the lock and enters. */
  lemma TakeLock(run: seq<Action>, s: State, p: nat) returns (longer: seq<Action>, s': State)
    requires Leads(run, s) && WellFormed(s) && p < |s.procs|
    requires s.procs[p].Create? && s.lock.Absent?
    ensures Leads(longer, s') && s'.procs == s.procs[p := Holding(NewDocument(s, p), s.nextInode)] && s'.lock.File?
    ensures s'.intent == s.intent && s'.hosts == s.hosts && s'.now == s.now
  {
    var doc, inode := NewDocument(s, p), s.nextInode;
    var s1 := At(s.(lock := File(inode, Empty, s.now), nextInode := inode + 1, nextNonce := s.nextNonce + 1), p, Opened(doc, inode));
    var s2 := At(s1.(lock := File(inode, doc, s.now)), p, Written(doc, inode));
    s' := At(s2, p, Holding(doc, inode));
    longer := Hop3(run, s, p, s1, s2, s');
  }

  /** Process 3 creates the lock and writes it. */
  lemma HolderWrites() returns (run: seq<Action>, s: State)
    ensures Leads(run, s) && s == State(0, OLD_LOCK, Absent, 1, 1, HOSTS, [Idle, Idle, Idle, Written(Doc(0), 0)])
  {
    run, s := [], START;
    assert Leads(run, s);
    hide Leads, StaleBar, Size, IntentFileStep, UnderIntentStep, JudgingStep;
    run, s := Extend(run, s, Begin(3));
    var s1 := State(0, File(0, Empty, 0), Absent, 1, 1, HOSTS, [Idle, Idle, Idle, Opened(Doc(0), 0)]);
    run := Hop(run, s, 3, s1);
    s := State(0, OLD_LOCK, Absent, 1, 1, HOSTS, [Idle, Idle, Idle, Written(Doc(0), 0)]);
    run := Hop(run, s1, 3, s);
  }

  /** It dies holding the lock. */
  lemma HolderCrashes() returns (run: seq<Action>, s: State)
    ensures Leads(run, s) && s == State(LOCK_STALE_MS, OLD_LOCK, Absent, 1, 1, HOSTS, [Idle, Idle, Idle, Crashed])
  {
    hide Leads, Step;
    run, s := HolderWrites();
    run, s := Extend(run, s, Crash(3));
    run, s := Extend(run, s, Tick(LOCK_STALE_MS));
  }

  /** Process 0 judges the dead lock stale, creates its intent and dies at once. */
  lemma ClaimantCreatesIntent() returns (run: seq<Action>, s: State)
    ensures Leads(run, s)
    ensures s == State(LOCK_STALE_MS, OLD_LOCK, OLD_INTENT, 2, 3, HOSTS, [IntentOpened(Claim(2), 1), Idle, Idle, Crashed])
  {
    hide Leads, LockFileStep, UnderIntentStep, Size, Exec;
    run, s := HolderCrashes();
    run, s := Extend(run, s, Begin(0));
    run, s := FindLock(run, s, 0);
    var s1 := At(s, 0, IntentOpen(Claim(2), 0)).(nextNonce := 3);
    run := Hop(run, s, 0, s1);
    s := At(s1, 0, IntentOpened(Claim(2), 1)).(intent := OLD_INTENT, nextInode := 2);
    run := Hop(run, s1, 0, s);
  }

  lemma ClaimantCrashes() returns (run: seq<Action>, s: State)
    ensures Leads(run, s)
    ensures s == State(2 * LOCK_STALE_MS, OLD_LOCK, OLD_INTENT, 2, 3, HOSTS, [Crashed, Idle, Idle, Crashed])
  {
    run, s := ClaimantCreatesIntent();
    run, s := Extend(run, s, Crash(0));
    run, s := Extend(run, s, Tick(LOCK_STALE_MS));
  }

  lemma BothBegin() returns (run: seq<Action>, s: State)
    ensures Leads(run, s)
    ensures s == State(2 * LOCK_STALE_MS, OLD_LOCK, OLD_INTENT, 2, 3, HOSTS, [Crashed, Create, Create, Crashed])
  {
    run, s := ClaimantCrashes();
    run, s := Extend(run, s, Begin(1));
    run, s := Extend(run, s, Begin(2));
  }

  /** A waiter comes to the point of unlinking the dead intent. */
  lemma WaiterJudges(run: seq<Action>, s: State, p: nat) returns (longer: seq<Action>, s': State)
    requires Leads(run, s) && WellFormed(s) && p < |s.procs| && s.hosts[p] == "h" && s.procs[p] == Create
    requires s.lock == OLD_LOCK && s.intent == OLD_INTENT && s.now >= 2 * LOCK_STALE_MS
    ensures Leads(longer, s')
    ensures s' == At(s, p, IntentUnlink(Claim(s.nextNonce + 1), 0, StatOf(OLD_INTENT), Empty)).(nextNonce := s.nextNonce + 2)
  {
    longer, s' := FindLock(run, s, p);
    longer, s' := FindIntent(longer, s', p);
    longer, s' := JudgeIntent(longer, s', p);
  }

  /** Both waiters come to that point. */
  lemma BothJudge() returns (run: seq<Action>, s: State)
    ensures Leads(run, s)
    ensures s == State(2 * LOCK_STALE_MS, OLD_LOCK, OLD_INTENT, 2, 7, HOSTS,
                       [Crashed, IntentUnlink(Claim(4), 0, StatOf(OLD_INTENT), Empty), IntentUnlink(Claim(6), 0, StatOf(OLD_INTENT), Empty), Crashed])
  {
    hide Leads, Step, Exec, Timely;
    run, s := BothBegin();
    run, s := WaiterJudges(run, s, 1);
    run, s := WaiterJudges(run, s, 2);
  }

  /** Each replaces the intent it finds and revalidates the same dead lock. */
  lemma BothRevalidate() returns (run: seq<Action>, s: State)
    ensures Leads(run, s)
    ensures s == State(2 * LOCK_STALE_MS, OLD_LOCK, File(3, Doc(6), 2 * LOCK_STALE_MS), 4, 7, HOSTS,
                       [Crashed, UnlinkStale(Claim(4), 2), UnlinkStale(Claim(6), 3), Crashed])
  {
    hide Leads, Step, Exec, Timely;
    run, s := BothJudge();
    run, s := ReplaceIntent(run, s, 1);
    run, s := Revalidate(run, s, 1);
    run, s := ReplaceIntent(run, s, 2);
    run, s := Revalidate(run, s, 2);
  }

  /** The first removes the lock and enters; the second removes the new lock and enters too. */
  lemma BothEnter() returns (run: seq<Action>, s: State)
    ensures Leads(run, s) && |s.procs| == 4 && InCritical(s.procs[1]) && InCritical(s.procs[2])
  {
    hide Leads, Step, Exec, Timely;
    run, s := BothRevalidate();
    run, s := RemoveDisplaced(run, s, 1);
    run, s := TakeLock(run, s, 1);
    run, s := RemoveInPlace(run, s, 2);
    run, s := TakeLock(run, s, 2);
  }

  /**
   * A run from the initial state in which no live holder or claimant is ever overdue, and at whose end
   * two processes are in the critical section at once.
   */
  lemma CrashedClaimantBreaksExclusion() returns (run: seq<Action>)
    ensures Init(START) && forall k :: 0 <= k <= |run| ==> Timely(Exec(START, run[..k]))
    ensures InCritical(Exec(START, run).procs[1]) && InCritical(Exec(START, run).procs[2])
  {
    var s;
    run, s := BothEnter();
  }
}
