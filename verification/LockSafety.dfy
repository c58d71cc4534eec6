/**
 * What every run of the lock protocol keeps: mutual exclusion, exact takeover, exact release and
 * heartbeat, and the spacing of two removals by one process.
 */
module LockSafety {
  import opened LockProtocol

  /** The takeover a process carries once it has judged the lock stale. */
  predicate Judged(pc: Pc) {
    || pc.IntentOpen? || pc.IntentStat? || pc.IntentRead? || pc.IntentJudge? || pc.IntentStat2? || pc.IntentRead2?
    || pc.IntentUnlink? || pc.IntentOpened? || pc.IntentWriteFailed? || pc.IntentWritten? || pc.Stat2? || pc.Read2?
    || pc.IntentCheck? || pc.UnlinkStale? || pc.IntentReleaseRead? || pc.IntentReleaseUnlink?
  }

  /** The owner's descriptor names the lock on disk, which carries the owner's bytes once written. */
  predicate LockIsItsOwn(s: State, pc: Pc) {
    OwnsLock(pc) ==>
      && s.lock.File?
      && s.lock.inode == pc.inode
      && (pc.Opened? || pc.WriteFailed? || s.lock.content == pc.doc)
  }

  predicate IntentIsItsOwn(s: State, pc: Pc) {
    OwnsIntent(pc) ==>
      && s.intent.File?
      && s.intent.inode == pc.inode
      && (pc.IntentOpened? || pc.IntentWriteFailed? || s.intent.content == pc.tk.doc)
  }

  predicate NobodyOwnsLock(s: State) {
    forall p :: 0 <= p < |s.procs| ==> !OwnsLock(s.procs[p])
  }

  /** What a claimant past its second stat knows: the lock is the artifact it judged, and nobody's. */
  predicate Revalidated(s: State, pc: Pc) {
    && ((pc.Read2? && pc.st2.mtime == pc.tk.st1.mtime) || pc.IntentCheck? || pc.UnlinkStale? ==>
          s.lock.File? && s.lock.mtime == pc.tk.st1.mtime && NobodyOwnsLock(s))
    && (pc.Read2? && pc.st2.mtime == pc.tk.st1.mtime ==> StatOf(s.lock) == pc.st2)
    && (pc.IntentCheck? || pc.UnlinkStale? ==> StatOf(s.lock) == pc.tk.st1 && s.lock.content == pc.tk.c1)
  }

  predicate IntentNeverRecovered(s: State, pc: Pc) {
    && (pc.IntentStat2? || pc.IntentRead2? ==> s.now - pc.ist.mtime >= LOCK_STALE_MS)
    && (pc.IntentRead2? ==> pc.ist2.mtime != pc.ist.mtime)
    && !pc.IntentUnlink?
  }

  predicate ProcOk(s: State, p: nat)
    requires WellFormed(s) && p < |s.procs|
  {
    var pc := s.procs[p];
    && LockIsItsOwn(s, pc)
    && IntentIsItsOwn(s, pc)
    && (Judged(pc) ==> s.now - pc.tk.st1.mtime >= StaleBar(pc.tk.c1, s.hosts[p]))
    && IntentNeverRecovered(s, pc)
    && Revalidated(s, pc)
  }

  ghost predicate Inv(s: State) {
    && WellFormed(s)
    && (forall p :: 0 <= p < |s.procs| ==> ProcOk(s, p))
    && (forall p, q :: 0 <= p < q < |s.procs| ==>
          && !(OwnsLock(s.procs[p]) && OwnsLock(s.procs[q]))
          && !(OwnsIntent(s.procs[p]) && OwnsIntent(s.procs[q])))
  }

  lemma InitInv(s: State)
    requires Init(s)
    ensures Inv(s)
  {
  }

  /** Under the assumptions, a file that has reached the bar has no live owner. */
  lemma OverdueIsOrphan(s: State)
    requires Inv(s) && Assumed(s)
    ensures s.lock.File? && s.now - s.lock.mtime >= LOCK_STALE_MS ==> NobodyOwnsLock(s)
    ensures s.intent.File? ==> s.now - s.intent.mtime < LOCK_STALE_MS
  {
    forall p | 0 <= p < |s.procs| && OwnsLock(s.procs[p])
      ensures s.lock.File? && s.now - s.lock.mtime < LOCK_STALE_MS
    {
      assert ProcOk(s, p);
    }
  }

  lemma LockFileStepSelf(s: State, p: nat, fault: Fault)
    requires Inv(s) && p < |s.procs| && OnLockFile(s.procs[p])
    ensures ProcOk(LockFileStep(s, p, fault), p)
  {
    hide StaleBar, Size;
    assert ProcOk(s, p);
  }

  lemma LockFileStepOther(s: State, p: nat, fault: Fault, q: nat)
    requires Inv(s) && p < |s.procs| && q < |s.procs| && p != q && OnLockFile(s.procs[p])
    ensures ProcOk(LockFileStep(s, p, fault), q)
  {
    hide StaleBar, Size;
    assert ProcOk(s, p) && ProcOk(s, q);
  }

  lemma LockFileStepInv(s: State, p: nat, fault: Fault, q: nat)
    requires Inv(s) && p < |s.procs| && q < |s.procs| && OnLockFile(s.procs[p])
    ensures ProcOk(LockFileStep(s, p, fault), q)
  {
    if p == q { LockFileStepSelf(s, p, fault); } else { LockFileStepOther(s, p, fault, q); }
  }

  lemma IntentFileStepSelf(s: State, p: nat, fault: Fault)
    requires Inv(s) && Assumed(s) && p < |s.procs| && OnIntentFile(s.procs[p])
    ensures ProcOk(IntentFileStep(s, p, fault), p)
  {
    assert ProcOk(s, p);
    OverdueIsOrphan(s);
    hide StaleBar, Size, Assumed, OwnsLock;
  }

  lemma IntentFileStepOther(s: State, p: nat, fault: Fault, q: nat)
    requires Inv(s) && p < |s.procs| && q < |s.procs| && p != q && OnIntentFile(s.procs[p])
    ensures ProcOk(IntentFileStep(s, p, fault), q)
  {
    assert ProcOk(s, p) && ProcOk(s, q);
    var s' := IntentFileStep(s, p, fault);
    assert s'.lock == s.lock && s'.procs[q] == s.procs[q];
    assert NobodyOwnsLock(s) ==> NobodyOwnsLock(s');
  }

  lemma UnderIntentStepSelf(s: State, p: nat, fault: Fault)
    requires Inv(s) && Assumed(s) && p < |s.procs| && UnderIntent(s.procs[p])
    ensures ProcOk(UnderIntentStep(s, p, fault), p)
  {
    assert ProcOk(s, p);
    OverdueIsOrphan(s);
    hide StaleBar, Size, Assumed;
  }

  lemma UnderIntentStepOther(s: State, p: nat, fault: Fault, q: nat)
    requires Inv(s) && p < |s.procs| && q < |s.procs| && p != q && UnderIntent(s.procs[p])
    ensures ProcOk(UnderIntentStep(s, p, fault), q)
  {
    assert ProcOk(s, p) && ProcOk(s, q);
    hide StaleBar, Size;
  }

  lemma UnderIntentStepInv(s: State, p: nat, fault: Fault, q: nat)
    requires Inv(s) && Assumed(s) && p < |s.procs| && q < |s.procs| && UnderIntent(s.procs[p])
    ensures ProcOk(UnderIntentStep(s, p, fault), q)
  {
    hide Inv, Assumed, ProcOk, UnderIntentStep;
    if p == q { UnderIntentStepSelf(s, p, fault); } else { UnderIntentStepOther(s, p, fault, q); }
  }

  lemma JudgingStepSelf(s: State, p: nat, fault: Fault)
    requires Inv(s) && p < |s.procs|
    ensures ProcOk(JudgingStep(s, p, fault), p)
  {
    assert ProcOk(s, p);
  }

  lemma JudgingStepInv(s: State, p: nat, fault: Fault, q: nat)
    requires Inv(s) && p < |s.procs| && q < |s.procs|
    ensures ProcOk(JudgingStep(s, p, fault), q)
  {
    if p == q { JudgingStepSelf(s, p, fault); } else { assert ProcOk(s, q); }
  }

  lemma LockFileOwnershipOrigin(s: State, p: nat, fault: Fault)
    requires WellFormed(s) && p < |s.procs| && OnLockFile(s.procs[p])
    ensures OwnsLock(LockFileStep(s, p, fault).procs[p]) ==> OwnsLock(s.procs[p]) || s.lock.Absent?
  {
  }

  lemma OtherStepsOwnershipOrigin(s: State, p: nat, fault: Fault)
    requires WellFormed(s) && p < |s.procs|
    ensures UnderIntent(s.procs[p]) && OwnsLock(UnderIntentStep(s, p, fault).procs[p]) ==> OwnsLock(s.procs[p]) || s.lock.Absent?
    ensures OwnsLock(JudgingStep(s, p, fault).procs[p]) ==> OwnsLock(s.procs[p]) || s.lock.Absent?
  {
  }

  lemma IntentFileOwnershipOrigin(s: State, p: nat, fault: Fault)
    requires WellFormed(s) && p < |s.procs| && OnIntentFile(s.procs[p])
    ensures OwnsLock(IntentFileStep(s, p, fault).procs[p]) ==> OwnsLock(s.procs[p]) || s.lock.Absent?
  {
  }

  /** A process comes to own the lock file only by creating it where there is none. */
  lemma LockOwnershipOrigin(s: State, p: nat, fault: Fault)
    requires WellFormed(s) && p < |s.procs|
    ensures OwnsLock(Step(s, p, fault).procs[p]) ==> OwnsLock(s.procs[p]) || s.lock.Absent?
  {
    if OnLockFile(s.procs[p]) { LockFileOwnershipOrigin(s, p, fault); }
    if OnIntentFile(s.procs[p]) { IntentFileOwnershipOrigin(s, p, fault); }
    OtherStepsOwnershipOrigin(s, p, fault);
    hide LockFileStep, IntentFileStep, UnderIntentStep, JudgingStep, OwnsLock;
  }

  lemma IntentFileIntentOrigin(s: State, p: nat, fault: Fault)
    requires WellFormed(s) && p < |s.procs| && OnIntentFile(s.procs[p])
    ensures OwnsIntent(IntentFileStep(s, p, fault).procs[p]) ==> OwnsIntent(s.procs[p]) || s.intent.Absent?
  {
    hide StaleBar, Size;
  }

  lemma OtherStepsIntentOrigin(s: State, p: nat, fault: Fault)
    requires WellFormed(s) && p < |s.procs|
    ensures OnLockFile(s.procs[p]) ==> !OwnsIntent(LockFileStep(s, p, fault).procs[p])
    ensures UnderIntent(s.procs[p]) ==> OwnsIntent(s.procs[p])
    ensures OwnsIntent(JudgingStep(s, p, fault).procs[p]) ==> OwnsIntent(s.procs[p])
  {
    hide StaleBar, Size;
  }

  /** And the intent file likewise. */
  lemma IntentOwnershipOrigin(s: State, p: nat, fault: Fault)
    requires WellFormed(s) && p < |s.procs|
    ensures OwnsIntent(Step(s, p, fault).procs[p]) ==> OwnsIntent(s.procs[p]) || s.intent.Absent?
  {
    if OnIntentFile(s.procs[p]) { IntentFileIntentOrigin(s, p, fault); }
    OtherStepsIntentOrigin(s, p, fault);
    hide LockFileStep, IntentFileStep, UnderIntentStep, JudgingStep, OwnsIntent;
  }

  lemma StepMovesOne(s: State, p: nat, fault: Fault)
    requires WellFormed(s) && p < |s.procs|
    ensures Step(s, p, fault).procs == s.procs[p := Step(s, p, fault).procs[p]]
  {
  }

  lemma StepExclusive(s: State, p: nat, fault: Fault, q: nat)
    requires Inv(s) && p < |s.procs| && q < |s.procs| && p != q
    ensures !(OwnsLock(Step(s, p, fault).procs[p]) && OwnsLock(s.procs[q]))
    ensures !(OwnsIntent(Step(s, p, fault).procs[p]) && OwnsIntent(s.procs[q]))
  {
    LockOwnershipOrigin(s, p, fault);
    IntentOwnershipOrigin(s, p, fault);
    assert ProcOk(s, q);
  }

  lemma StepInv(s: State, p: nat, fault: Fault)
    requires Inv(s) && Assumed(s) && p < |s.procs|
    ensures Inv(Step(s, p, fault))
  {
    var s' := Step(s, p, fault);
    forall q | 0 <= q < |s.procs| ensures ProcOk(s', q) {
      if OnLockFile(s.procs[p]) { LockFileStepInv(s, p, fault, q); }
      else if OnIntentFile(s.procs[p]) {
        if p == q { IntentFileStepSelf(s, p, fault); } else { IntentFileStepOther(s, p, fault, q); }
      }
      else if UnderIntent(s.procs[p]) { UnderIntentStepInv(s, p, fault, q); }
      else { JudgingStepInv(s, p, fault, q); }
    }
    StepMovesOne(s, p, fault);
    forall q | 0 <= q < |s.procs| && q != p
      ensures !(OwnsLock(s'.procs[p]) && OwnsLock(s.procs[q])) && !(OwnsIntent(s'.procs[p]) && OwnsIntent(s.procs[q]))
    {
      StepExclusive(s, p, fault, q);
    }
  }

  /** A crash, a heartbeat's read, the start of a release, a new attempt: only one `Pc` changes. */
  lemma QuietActionInv(s: State, a: Action, q: nat)
    requires Inv(s) && q < |s.procs| && !a.Call?
    ensures ProcOk(Apply(s, a), q)
  {
    assert ProcOk(s, q);
  }

  lemma ApplyInv(s: State, a: Action)
    requires Inv(s) && Assumed(s)
    ensures Inv(Apply(s, a))
  {
    if a.Call? {
      hide Step, Inv, Assumed;
      if a.p < |s.procs| { StepInv(s, a.p, a.fault); }
    } else {
      hide ProcOk, Assumed;
      forall q | 0 <= q < |s.procs| ensures ProcOk(Apply(s, a), q) {
        QuietActionInv(s, a, q);
      }
    }
  }

  lemma {:induction false} RunInv(s: State, run: seq<Action>)
    requires Init(s) && AssumedThroughout(s, run)
    ensures Inv(Exec(s, run))
  {
    if run != [] {
      var prefix := run[..|run| - 1];
      assert forall k :: 0 <= k < |prefix| ==> prefix[..k] == run[..k];
      RunInv(s, prefix);
      ApplyInv(Exec(s, prefix), run[|run| - 1]);
    }
  }

  // ── Main results ──────────────────────────────────────────────────────────────────────────────

  /**
   * Mutual exclusion. After any run, at most one process is between a verified create and its
   * release, and the lock file then carries exactly that process's bytes in the file it created.
   */
  lemma MutualExclusion(s: State, run: seq<Action>, p: nat, q: nat)
    requires Init(s) && AssumedThroughout(s, run)
    requires p < |s.procs| && q < |s.procs|
    requires InCritical(Exec(s, run).procs[p])
    ensures InCritical(Exec(s, run).procs[q]) ==> p == q
    ensures
      var end := Exec(s, run);
      end.lock.File? && end.lock.content == end.procs[p].doc && end.lock.inode == end.procs[p].inode
  {
    RunInv(s, run);
    assert ProcOk(Exec(s, run), p);
  }

  /** The lock on disk is the artifact that `pc` judged: same bytes, same stat, past its bar, nobody's. */
  predicate TakesExactlyWhatItJudged(s: State, p: nat)
    requires WellFormed(s) && p < |s.procs|
  {
    var pc := s.procs[p];
    && pc.UnlinkStale?
    && s.lock.File?
    && s.lock.content == pc.tk.c1
    && StatOf(s.lock) == pc.tk.st1
    && PastItsBar(s.lock.content, s.hosts[p], s.now - s.lock.mtime)
    && LockOrphan(s)
  }

  predicate ActsOnItsOwnLock(s: State, p: nat)
    requires WellFormed(s) && p < |s.procs|
  {
    OwnsLock(s.procs[p]) && s.lock.File? && s.lock.inode == s.procs[p].inode
  }

  predicate ActsOnItsOwnIntent(s: State, p: nat)
    requires WellFormed(s) && p < |s.procs|
  {
    OwnsIntent(s.procs[p]) && s.intent.File? && s.intent.inode == s.procs[p].inode
  }

  /** A step of `p` changes an existing lock or intent only if it is `p`'s own, or the lock it judged. */
  predicate ChangesExactly(s: State, s': State, p: nat)
    requires WellFormed(s) && p < |s.procs|
  {
    && (s.lock.File? && s'.lock != s.lock ==> ActsOnItsOwnLock(s, p) || (s'.lock.Absent? && TakesExactlyWhatItJudged(s, p)))
    && (s.intent.File? && s'.intent != s.intent ==> ActsOnItsOwnIntent(s, p))
  }

  lemma LockFileStepExact(s: State, p: nat, fault: Fault)
    requires Inv(s) && p < |s.procs| && OnLockFile(s.procs[p])
    ensures ChangesExactly(s, LockFileStep(s, p, fault), p)
  {
    assert ProcOk(s, p);
    hide StaleBar, Size;
  }

  lemma IntentFileStepExact(s: State, p: nat, fault: Fault)
    requires Inv(s) && p < |s.procs| && OnIntentFile(s.procs[p])
    ensures ChangesExactly(s, IntentFileStep(s, p, fault), p)
  {
    assert ProcOk(s, p);
    hide StaleBar, Size;
  }

  lemma UnderIntentStepExact(s: State, p: nat, fault: Fault)
    requires Inv(s) && p < |s.procs| && UnderIntent(s.procs[p])
    ensures ChangesExactly(s, UnderIntentStep(s, p, fault), p)
  {
    assert ProcOk(s, p);
    if s.lock.File? { BarIsExact(s.lock.content, s.hosts[p], s.now - s.lock.mtime); }
    hide StaleBar, Size, PastItsBar;
  }

  lemma StepExact(s: State, p: nat, fault: Fault)
    requires Inv(s) && p < |s.procs|
    ensures ChangesExactly(s, Step(s, p, fault), p)
  {
    assert WellFormed(s);
    hide Inv, ChangesExactly, LockFileStep, IntentFileStep, UnderIntentStep;
    if OnLockFile(s.procs[p]) { LockFileStepExact(s, p, fault); }
    else if OnIntentFile(s.procs[p]) { IntentFileStepExact(s, p, fault); }
    else if UnderIntent(s.procs[p]) { UnderIntentStepExact(s, p, fault); }
    else { JudgingStepTouchesNothing(s, p, fault); }
  }

  lemma JudgingStepTouchesNothing(s: State, p: nat, fault: Fault)
    requires WellFormed(s) && p < |s.procs|
    ensures ChangesExactly(s, JudgingStep(s, p, fault), p)
  {
    hide StaleBar, Size, ActsOnItsOwnLock, ActsOnItsOwnIntent, TakesExactlyWhatItJudged;
  }

  /**
   * Compare-and-delete is exact. Whenever an action rewrites, touches or removes an existing lock
   * file, either its own creator does it (its write, its heartbeat, its cleanup, its release), or it
   * is a takeover unlink of the artifact that was judged stale and that no live process owns. An
   * intent file is only ever changed by its own creator.
   */
  lemma CompareAndDeleteExact(s: State, run: seq<Action>, a: Action)
    requires Init(s) && AssumedThroughout(s, run) && Assumed(Exec(s, run))
    ensures
      var before, after := Exec(s, run), Apply(Exec(s, run), a);
      && (before.lock.File? && after.lock != before.lock ==>
            && a.Call? && a.p < |s.procs|
            && (ActsOnItsOwnLock(before, a.p) || (after.lock.Absent? && TakesExactlyWhatItJudged(before, a.p))))
      && (before.intent.File? && after.intent != before.intent ==>
            a.Call? && a.p < |s.procs| && ActsOnItsOwnIntent(before, a.p))
  {
    RunInv(s, run);
    var before := Exec(s, run);
    hide Inv, Step, Assumed, AssumedThroughout, ActsOnItsOwnLock, ActsOnItsOwnIntent, TakesExactlyWhatItJudged;
    if a.Call? && a.p < |s.procs| {
      StepExact(before, a.p, a.fault);
    }
  }
}

/**
 * What holds with no assumption on the environment at all: holders may overstay, claimants may crash
 * with their intent on disk, and calls may fail.
 */
module LockUnconditional {
  import opened Basics
  import opened LockProtocol
  import opened LockSafety

  // ── Equal bytes are the same file ─────────────────────────────────────────────────────────────

  /** The document a process will compare the disk with. */
  function OwnDocument(pc: Pc): Option<Content> {
    if OwnsLock(pc) then Some(pc.doc) else if Judged(pc) then Some(pc.tk.doc) else None
  }

  predicate Drawn(bytes: Content, bound: nat) {
    bytes.Document? ==> bytes.nonce < bound
  }

  /** Only the file this process created can carry its document. */
  predicate Identifies(f: File, doc: Content, inode: nat) {
    f.File? && f.content == doc ==> f.inode == inode
  }

  predicate IdentityOk(s: State, pc: Pc) {
    && (OwnDocument(pc).Some? ==> OwnDocument(pc).value.Document? && OwnDocument(pc).value.nonce < s.nextNonce)
    && (OwnsLock(pc) ==> Identifies(s.lock, pc.doc, pc.inode))
    && (OwnsIntent(pc) ==> Identifies(s.intent, pc.tk.doc, pc.inode))
  }

  ghost predicate Identity(s: State) {
    && WellFormed(s)
    && DiskDrawn(s)
    && (forall p :: 0 <= p < |s.procs| ==> IdentityOk(s, s.procs[p]))
    && (forall p, q :: 0 <= p < q < |s.procs| ==> Distinct(s.procs[p], s.procs[q]))
  }

  predicate Distinct(pc: Pc, other: Pc) {
    OwnDocument(pc).Some? ==> OwnDocument(pc) != OwnDocument(other)
  }

  predicate DiskDrawn(s: State) {
    (s.lock.File? ==> Drawn(s.lock.content, s.nextNonce)) && (s.intent.File? ==> Drawn(s.intent.content, s.nextNonce))
  }

  predicate Known(f: File, f': File, mine: Option<Content>) {
    f'.File? ==> !f'.content.Document? || Some(f'.content) == mine || (f.File? && f'.content == f.content && f'.inode == f.inode)
  }

  /**
   * What one call does to the documents: the caller keeps its own, drops it, or draws a fresh one,
   * and the disk receives no document but the caller's.
   */
  predicate OwnsOrDraws(s: State, s': State, p: nat)
    requires WellFormed(s) && p < |s.procs| && |s'.procs| == |s.procs|
  {
    var mine, mine' := OwnDocument(s.procs[p]), OwnDocument(s'.procs[p]);
    && s.nextNonce <= s'.nextNonce
    && (mine' == None || mine' == mine || (mine' == Some(NewDocument(s, p)) && s.nextNonce < s'.nextNonce))
    && Known(s.lock, s'.lock, mine)
    && Known(s.intent, s'.intent, mine)
  }

  /** The part of the invariant about one process and the disk. */
  predicate Identified(s: State, p: nat) {
    WellFormed(s) && p < |s.procs| && DiskDrawn(s) && IdentityOk(s, s.procs[p])
  }

  lemma LockFileIdentity(s: State, p: nat, fault: Fault)
    requires Identified(s, p) && OnLockFile(s.procs[p])
    ensures DiskDrawn(LockFileStep(s, p, fault)) && OwnsOrDraws(s, LockFileStep(s, p, fault), p)
    ensures IdentityOk(LockFileStep(s, p, fault), LockFileStep(s, p, fault).procs[p])
  {
    hide StaleBar, Size;
  }

  lemma IntentFileOwns(s: State, p: nat, fault: Fault)
    requires Identified(s, p) && OnIntentFile(s.procs[p])
    ensures IdentityOk(IntentFileStep(s, p, fault), IntentFileStep(s, p, fault).procs[p])
  {
    hide StaleBar, Size;
  }

  lemma IntentFileIdentity(s: State, p: nat, fault: Fault)
    requires Identified(s, p) && OnIntentFile(s.procs[p])
    ensures DiskDrawn(IntentFileStep(s, p, fault)) && OwnsOrDraws(s, IntentFileStep(s, p, fault), p)
    ensures IdentityOk(IntentFileStep(s, p, fault), IntentFileStep(s, p, fault).procs[p])
  {
    IntentFileOwns(s, p, fault);
    hide StaleBar, Size, IdentityOk, OwnsLock;
  }

  lemma UnderIntentIdentity(s: State, p: nat, fault: Fault)
    requires Identified(s, p) && UnderIntent(s.procs[p])
    ensures DiskDrawn(UnderIntentStep(s, p, fault)) && OwnsOrDraws(s, UnderIntentStep(s, p, fault), p)
    ensures IdentityOk(UnderIntentStep(s, p, fault), UnderIntentStep(s, p, fault).procs[p])
  {
    hide StaleBar, Size;
  }

  lemma JudgingIdentity(s: State, p: nat, fault: Fault)
    requires Identity(s) && p < |s.procs| && !OnLockFile(s.procs[p]) && !OnIntentFile(s.procs[p]) && !UnderIntent(s.procs[p])
    ensures DiskDrawn(JudgingStep(s, p, fault)) && OwnsOrDraws(s, JudgingStep(s, p, fault), p)
    ensures IdentityOk(JudgingStep(s, p, fault), JudgingStep(s, p, fault).procs[p])
  {
    assert IdentityOk(s, s.procs[p]);
  }

  lemma StepIdentity(s: State, p: nat, fault: Fault)
    requires Identity(s) && p < |s.procs|
    ensures Identity(Step(s, p, fault))
  {
    var s' := Step(s, p, fault);
    assert IdentityOk(s, s.procs[p]) && Identified(s, p);
    if OnLockFile(s.procs[p]) { LockFileIdentity(s, p, fault); }
    else if OnIntentFile(s.procs[p]) { IntentFileIdentity(s, p, fault); }
    else if UnderIntent(s.procs[p]) { UnderIntentIdentity(s, p, fault); }
    else { JudgingIdentity(s, p, fault); }
    StepMovesOne(s, p, fault);
    forall q | 0 <= q < |s.procs| && q != p
      ensures IdentityOk(s', s'.procs[q])
      ensures Distinct(s'.procs[p], s'.procs[q]) && Distinct(s'.procs[q], s'.procs[p])
    {
      var mine, theirs := s.procs[p], s.procs[q];
      assert s'.procs[q] == theirs && IdentityOk(s, theirs);
      assert Distinct(mine, theirs) || Distinct(theirs, mine);
    }
  }

  lemma ApplyIdentity(s: State, a: Action)
    requires Identity(s)
    ensures Identity(Apply(s, a))
  {
    if a.Call? && a.p < |s.procs| {
      StepIdentity(s, a.p, a.fault);
    } else if !a.Call? {
      var s' := Apply(s, a);
      forall q | 0 <= q < |s.procs|
        ensures IdentityOk(s', s'.procs[q]) && OwnDocument(s'.procs[q]) in {None, OwnDocument(s.procs[q])}
      {
        assert IdentityOk(s, s.procs[q]);
      }
    }
  }

  lemma {:induction false} RunIdentity(s: State, run: seq<Action>)
    requires Init(s)
    ensures Identity(Exec(s, run))
  {
    if run != [] {
      RunIdentity(s, run[..|run| - 1]);
      ApplyIdentity(Exec(s, run[..|run| - 1]), run[|run| - 1]);
    }
  }

  /** The points where a compare of bytes has just succeeded and authority over a file is derived from it. */
  predicate TrustsLock(pc: Pc) {
    pc.Holding? || pc.Touching? || pc.ReleaseUnlink?
  }

  predicate TrustsIntent(pc: Pc) {
    pc.Stat2? || pc.UnlinkStale? || pc.IntentReleaseUnlink?
  }

  lemma LockCompare(s: State, p: nat, fault: Fault)
    requires WellFormed(s) && p < |s.procs| && IdentityOk(s, s.procs[p])
    requires TrustsLock(Step(s, p, fault).procs[p]) && Step(s, p, fault).procs[p] != s.procs[p] && !s.procs[p].Touching?
    ensures s.lock.File? && s.lock.inode == Step(s, p, fault).procs[p].inode
  {
  }

  lemma IntentCompare(s: State, p: nat, fault: Fault)
    requires WellFormed(s) && p < |s.procs| && IdentityOk(s, s.procs[p])
    requires TrustsIntent(Step(s, p, fault).procs[p]) && Step(s, p, fault).procs[p] != s.procs[p]
    ensures s.intent.File? && s.intent.inode == Step(s, p, fault).procs[p].inode
  {
  }

  /**
   * In every run whatsoever, an action that makes process `p` trust the lock (verified create,
   * heartbeat, release) finds at the path the very file `p` created, never a successor's; likewise
   * for the intent. A holder that was taken over therefore stops at its next compare.
   */
  lemma CompareIsIdentity(s: State, run: seq<Action>, a: Action, p: nat)
    requires Init(s) && p < |s.procs|
    ensures
      var before, after := Exec(s, run), Apply(Exec(s, run), a);
      var pc, pc' := before.procs[p], after.procs[p];
      && (TrustsLock(pc') && pc' != pc && !pc.Touching? ==> before.lock.File? && before.lock.inode == pc'.inode)
      && (TrustsIntent(pc') && pc' != pc ==> before.intent.File? && before.intent.inode == pc'.inode)
  {
    RunIdentity(s, run);
    var before := Exec(s, run);
    assert IdentityOk(before, before.procs[p]);
    if a.Call? && a.p < |s.procs| {
      StepMovesOne(before, a.p, a.fault);
      var pc, pc' := before.procs[p], Step(before, a.p, a.fault).procs[p];
      if pc' != pc && TrustsLock(pc') && !pc.Touching? { LockCompare(before, p, a.fault); }
      if pc' != pc && TrustsIntent(pc') { IntentCompare(before, p, a.fault); }
    }
  }

  // ── Two removals by one process are a staleness bar apart ─────────────────────────────────────

  predicate CanStillUnlink(pc: Pc) {
    Judged(pc) && !pc.IntentReleaseRead? && !pc.IntentReleaseUnlink?
  }

  /** Everything `p` may still judge, and the file on disk, dates from `since` or later. */
  predicate SinceRemoval(s: State, p: nat, since: nat)
    requires WellFormed(s) && p < |s.procs|
  {
    var pc := s.procs[p];
    && since <= s.now
    && (s.lock.File? ==> since <= s.lock.mtime)
    && (pc.Read1? || pc.Judge? ==> since <= pc.st1.mtime)
    && (CanStillUnlink(pc) ==>
          since <= pc.tk.st1.mtime && s.now - pc.tk.st1.mtime >= LOCK_STALE_MS)
  }

  /** A file on disk after a call is the old one, no older, or dates from now. */
  lemma MtimeMovesForward(s: State, p: nat, fault: Fault)
    requires WellFormed(s) && p < |s.procs|
    ensures
      var s' := Step(s, p, fault);
      s'.now == s.now && (s'.lock.File? ==> s'.lock.mtime == s.now || (s.lock.File? && s'.lock.mtime == s.lock.mtime))
  {
  }

  /** What a process judges comes from its own stat, and is kept until the unlink. */
  predicate JudgementKept(s: State, pc: Pc, pc': Pc) {
    CanStillUnlink(pc') ==>
      || (CanStillUnlink(pc) && pc'.tk == pc.tk)
      || (pc.Judge? && pc'.tk.st1 == pc.st1 && s.now - pc.st1.mtime >= LOCK_STALE_MS)
  }

  lemma IntentFileKeepsJudgement(s: State, p: nat, fault: Fault)
    requires WellFormed(s) && p < |s.procs| && OnIntentFile(s.procs[p])
    ensures JudgementKept(s, s.procs[p], IntentFileStep(s, p, fault).procs[p])
  {
  }

  lemma UnderIntentKeepsJudgement(s: State, p: nat, fault: Fault)
    requires WellFormed(s) && p < |s.procs| && UnderIntent(s.procs[p])
    ensures JudgementKept(s, s.procs[p], UnderIntentStep(s, p, fault).procs[p])
  {
  }

  lemma OthersKeepJudgement(s: State, p: nat, fault: Fault)
    requires WellFormed(s) && p < |s.procs| && !OnIntentFile(s.procs[p]) && !UnderIntent(s.procs[p])
    ensures JudgementKept(s, s.procs[p], Step(s, p, fault).procs[p])
    ensures
      var pc, pc' := s.procs[p], Step(s, p, fault).procs[p];
      pc'.Read1? || pc'.Judge? ==> (s.lock.File? && pc'.st1.mtime == s.lock.mtime) || (pc.Read1? && pc'.st1 == pc.st1) || pc' == pc
  {
  }

  lemma StepSinceRemoval(s: State, p: nat, fault: Fault, since: nat)
    requires WellFormed(s) && p < |s.procs| && SinceRemoval(s, p, since)
    ensures SinceRemoval(Step(s, p, fault), p, since)
  {
    MtimeMovesForward(s, p, fault);
    if OnIntentFile(s.procs[p]) { IntentFileKeepsJudgement(s, p, fault); }
    else if UnderIntent(s.procs[p]) { UnderIntentKeepsJudgement(s, p, fault); }
    else { OthersKeepJudgement(s, p, fault); }
  }

  lemma ApplySinceRemoval(s: State, a: Action, p: nat, since: nat)
    requires WellFormed(s) && p < |s.procs| && SinceRemoval(s, p, since)
    ensures SinceRemoval(Apply(s, a), p, since)
  {
    if a.Call? && a.p < |s.procs| {
      if a.p == p {
        StepSinceRemoval(s, p, a.fault, since);
      } else {
        StepMovesOne(s, a.p, a.fault);
        MtimeMovesForward(s, a.p, a.fault);
      }
    }
  }

  lemma {:induction false} RunSinceRemoval(s: State, run: seq<Action>, p: nat, since: nat)
    requires WellFormed(s) && p < |s.procs| && SinceRemoval(s, p, since)
    ensures SinceRemoval(Exec(s, run), p, since)
  {
    if run != [] {
      RunSinceRemoval(s, run[..|run| - 1], p, since);
      ApplySinceRemoval(Exec(s, run[..|run| - 1]), run[|run| - 1], p, since);
    }
  }

  // ── Nothing is removed before its bar ─────────────────────────────────────────────────────────

  /** What a process is about to remove was past its bar when it judged it, and still is. */
  predicate BarKept(s: State, p: nat)
    requires WellFormed(s) && p < |s.procs|
  {
    var pc := s.procs[p];
    && (CanStillUnlink(pc) ==> s.now - pc.tk.st1.mtime >= StaleBar(pc.tk.c1, s.hosts[p]))
    && (pc.IntentStat2? || pc.IntentRead2? || pc.IntentUnlink? ==> s.now - pc.ist.mtime >= StaleBar(pc.ic, s.hosts[p]))
  }

  lemma IntentFileKeepsBar(s: State, p: nat, fault: Fault)
    requires WellFormed(s) && p < |s.procs| && BarKept(s, p) && OnIntentFile(s.procs[p])
    ensures BarKept(IntentFileStep(s, p, fault), p)
  {
    hide StaleBar, Size;
  }

  lemma UnderIntentKeepsBar(s: State, p: nat, fault: Fault)
    requires WellFormed(s) && p < |s.procs| && BarKept(s, p) && UnderIntent(s.procs[p])
    ensures BarKept(UnderIntentStep(s, p, fault), p)
  {
    hide StaleBar, Size;
  }

  lemma OthersKeepBar(s: State, p: nat, fault: Fault)
    requires WellFormed(s) && p < |s.procs| && BarKept(s, p)
    ensures OnLockFile(s.procs[p]) ==> BarKept(LockFileStep(s, p, fault), p)
    ensures !OnLockFile(s.procs[p]) && !OnIntentFile(s.procs[p]) && !UnderIntent(s.procs[p]) ==> BarKept(JudgingStep(s, p, fault), p)
  {
    hide StaleBar, Size;
  }

  lemma ApplyKeepsBar(s: State, a: Action, p: nat)
    requires WellFormed(s) && p < |s.procs| && BarKept(s, p)
    ensures BarKept(Apply(s, a), p)
  {
    if a.Call? && a.p < |s.procs| {
      StepMovesOne(s, a.p, a.fault);
      if a.p == p {
        OthersKeepBar(s, p, a.fault);
        if OnIntentFile(s.procs[p]) { IntentFileKeepsBar(s, p, a.fault); }
        if UnderIntent(s.procs[p]) { UnderIntentKeepsBar(s, p, a.fault); }
      }
      hide BarKept, LockFileStep, IntentFileStep, UnderIntentStep, JudgingStep;
      if a.p != p { SamePcKeepsBar(s, Apply(s, a), p); }
    } else {
      hide StaleBar;
    }
  }

  lemma SamePcKeepsBar(s: State, s': State, p: nat)
    requires WellFormed(s) && WellFormed(s') && p < |s.procs| && p < |s'.procs| && BarKept(s, p)
    requires s'.procs[p] == s.procs[p] && s'.hosts == s.hosts && s.now <= s'.now
    ensures BarKept(s', p)
  {
    hide StaleBar;
  }

  lemma {:induction false} RunKeepsBar(s: State, run: seq<Action>, p: nat)
    requires Init(s) && p < |s.procs|
    ensures BarKept(Exec(s, run), p)
  {
    if run != [] {
      RunKeepsBar(s, run[..|run| - 1], p);
      hide BarKept, Apply;
      ApplyKeepsBar(Exec(s, run[..|run| - 1]), run[|run| - 1], p);
    }
  }

  /**
   * In every run whatsoever, the lock a process is about to unlink carried, when it was judged, a document of
   * its own host or none, at least a minute old, or one that names another host or none, at least a day old. The
   * same holds for an intent it is about to unlink.
   */
  lemma RemovalsWaitForTheBar(s: State, run: seq<Action>, p: nat)
    requires Init(s) && p < |s.procs|
    ensures
      var end := Exec(s, run);
      var pc := end.procs[p];
      && (pc.UnlinkStale? ==> PastItsBar(pc.tk.c1, s.hosts[p], end.now - pc.tk.st1.mtime))
      && (pc.IntentUnlink? ==> PastItsBar(pc.ic, s.hosts[p], end.now - pc.ist.mtime))
  {
    RunKeepsBar(s, run, p);
    hide Exec, StaleBar, PastItsBar;
    var end := Exec(s, run);
    var pc := end.procs[p];
    if pc.UnlinkStale? { BarIsExact(pc.tk.c1, s.hosts[p], end.now - pc.tk.st1.mtime); }
    if pc.IntentUnlink? { BarIsExact(pc.ic, s.hosts[p], end.now - pc.ist.mtime); }
  }

  /**
   * After `p` has removed a lock, whatever happens next, `p` reaches its next removal at least
   * `LOCK_STALE_MS` later: the `continue` of `acquire`, which takes no backoff, cannot spin.
   */
  lemma RemovalsApart(s: State, run: seq<Action>, p: nat)
    requires WellFormed(s) && p < |s.procs| && s.procs[p].UnlinkStale? && s.lock.File?
    ensures
      var end := Exec(Step(s, p, NoFault), run);
      end.procs[p].UnlinkStale? ==> end.now - s.now >= LOCK_STALE_MS
  {
    RunSinceRemoval(Step(s, p, NoFault), run, p, s.now);
  }
}
