/**
 * The file lock with stale takeover, one transition per file-system call.
 *
 * Any number of processes share two files, the lock and the takeover intent. A transition is one call
 * of one process (an exclusive create, a stat, a read, a write through a descriptor, an unlink, a
 * utimes), a crash, or the clock moving. A `Pc` names the call a process makes next and carries the
 * local variables the code holds at that point.
 */
module LockProtocol {
  import opened Basics

  const LOCK_STALE_MS: nat := 60_000
  const ACQUIRE_BUDGET: nat := 75_000
  const FOREIGN_LOCK_STALE_MS: nat := 86_400_000

  /**
   * The bytes of a lock or intent file: zero bytes, bytes that do not parse to an object, or a
   * document. The nonce is fresh per acquisition attempt; `hostId` may be missing in a document
   * written by another implementation.
   */
  datatype Content =
    | Empty
    | Corrupt(length: nat)
    | Document(hostId: Option<string>, nonce: nat)

  datatype DocumentClass = Local | Foreign | Unparseable

  function Classify(bytes: Content, localHostId: string): DocumentClass {
    match bytes
    case Empty => Unparseable
    case Corrupt(_) => Unparseable
    case Document(hostId, _) =>
      if hostId.None? || hostId.value == "" then Foreign
      else if ToLower(hostId.value) == ToLower(localHostId) then Local else Foreign
  }

  /** The age a file must reach before `localHostId` may take it over. */
  function StaleBar(bytes: Content, localHostId: string): (bar: nat)
    ensures LOCK_STALE_MS <= bar
  {
    if Classify(bytes, localHostId).Foreign? then FOREIGN_LOCK_STALE_MS else LOCK_STALE_MS
  }

  // ── Whose document, and how old ───────────────────────────────────────────────────────────────

  /** A document that names no host, or another one whatever the case of its letters. */
  predicate AnotherHosts(bytes: Content, localHostId: string) {
    bytes.Document? && (bytes.hostId.None? || bytes.hostId.value == "" || !SameButForCase(bytes.hostId.value, localHostId))
  }

  /** Old enough to be taken over: a day for another host's document, a minute for everything else. */
  predicate PastItsBar(bytes: Content, localHostId: string, age: int) {
    age >= if AnotherHosts(bytes, localHostId) then 86_400_000 else 60_000
  }

  /** The bar of a document is its class's: only what is provably ours or no document at all gets the short one. */
  lemma BarIsExact(bytes: Content, localHostId: string, age: int)
    ensures age >= StaleBar(bytes, localHostId) <==> PastItsBar(bytes, localHostId, age)
  {
    if bytes.Document? && bytes.hostId.Some? { ToLowerIgnoresCase(bytes.hostId.value, localHostId); }
    hide SameButForCase, ToLower;
  }

  function Size(bytes: Content): nat {
    match bytes
    case Empty => 0
    case Corrupt(length) => length + 1
    case Document(hostId, _) => 100 + if hostId.Some? then |hostId.value| else 0
  }

  /** A file on disk. The inode tells a file from a later one at the same path; no call reads it. */
  datatype File = Absent | File(inode: nat, content: Content, mtime: nat)

  datatype Stat = Stat(mtime: nat, size: nat)

  function StatOf(f: File): Stat
    requires f.File?
  {
    Stat(f.mtime, Size(f.content))
  }

  /** What a takeover attempt remembers: the first stat, the first read, and its own intent bytes. */
  datatype Takeover = Takeover(st1: Stat, c1: Content, doc: Content)

  /** The call a process makes next, with its local variables. */
  datatype Pc =
    | Idle
    | Crashed
    // tryExclusiveCreate
    | Create
    | Opened(doc: Content, inode: nat)
    | WriteFailed(doc: Content, inode: nat)
    | Written(doc: Content, inode: nat)
    // between a verified create and release
    | Holding(doc: Content, inode: nat)
    | Touching(doc: Content, inode: nat)
    // release
    | ReleaseRead(doc: Content, inode: nat)
    | ReleaseUnlink(doc: Content, inode: nat)
    // tryStaleTakeover, up to the judgement
    | Stat1
    | Read1(st1: Stat)
    | Judge(st1: Stat, c1: Content)
    // tryAcquireTakeoverIntent
    | IntentOpen(tk: Takeover, tries: nat)
    | IntentStat(tk: Takeover, tries: nat)
    | IntentRead(tk: Takeover, tries: nat, ist: Stat)
    | IntentJudge(tk: Takeover, tries: nat, ist: Stat, ic: Content)
    | IntentStat2(tk: Takeover, tries: nat, ist: Stat, ic: Content)
    | IntentRead2(tk: Takeover, tries: nat, ist: Stat, ic: Content, ist2: Stat)
    | IntentUnlink(tk: Takeover, tries: nat, ist: Stat, ic: Content)
    | IntentOpened(tk: Takeover, inode: nat)
    | IntentWriteFailed(tk: Takeover, inode: nat)
    | IntentWritten(tk: Takeover, inode: nat)
    // tryStaleTakeover, under the intent
    | Stat2(tk: Takeover, inode: nat)
    | Read2(tk: Takeover, inode: nat, st2: Stat)
    | IntentCheck(tk: Takeover, inode: nat)
    | UnlinkStale(tk: Takeover, inode: nat)
    // releaseTakeoverIntent
    | IntentReleaseRead(tk: Takeover, inode: nat, removed: bool)
    | IntentReleaseUnlink(tk: Takeover, inode: nat, removed: bool)
    // between two passes of acquire
    | Backoff

  datatype State = State(
    now: nat,
    lock: File,
    intent: File,
    nextInode: nat,
    nextNonce: nat,
    hosts: seq<string>,
    procs: seq<Pc>)

  /**
   * How a call goes wrong. `Contended` is the access error a create can meet while a peer's unlink is
   * pending; `Failed` is any other error, after `partial` bytes when the call is a write.
   */
  datatype Fault = NoFault | Contended | Failed(partial: nat)

  datatype Action =
    | Begin(p: nat)
    | Call(p: nat, fault: Fault)
    | Beat(p: nat, fault: Fault)
    | BeginRelease(p: nat)
    | GiveUp(p: nat)
    | Crash(p: nat)
    | Tick(ms: nat)

  predicate WellFormed(s: State) {
    |s.hosts| == |s.procs|
  }

  function At(s: State, p: nat, pc: Pc): State
    requires p < |s.procs|
  {
    s.(procs := s.procs[p := pc])
  }

  /** Bytes of a fresh document of process `p`. */
  function NewDocument(s: State, p: nat): Content
    requires WellFormed(s) && p < |s.procs|
  {
    Document(Some(s.hosts[p]), s.nextNonce)
  }

  /** A write through a descriptor reaches the path only while the path still names that inode. */
  function WriteThrough(f: File, inode: nat, bytes: Content, now: nat): File {
    if f.File? && f.inode == inode then File(inode, bytes, now) else f
  }

  function PartialBytes(fault: Fault): Content {
    if fault.Failed? && fault.partial > 0 then Corrupt(fault.partial) else Empty
  }

  /** A read that succeeds and returns exactly `bytes`. */
  predicate Reads(f: File, bytes: Content, fault: Fault) {
    fault.NoFault? && f.File? && f.content == bytes
  }

  /** `tryStaleTakeover` is over: continue at once after a removal, back off otherwise. */
  function AfterTakeover(removed: bool): Pc {
    if removed then Create else Backoff
  }

  /** Calls of `tryExclusiveCreate`, `refresh` and `release`: they act on the lock file only. */
  predicate OnLockFile(pc: Pc) {
    pc.Create? || pc.Opened? || pc.WriteFailed? || pc.Written? || pc.Touching? || pc.ReleaseRead? || pc.ReleaseUnlink?
  }

  function LockFileStep(s: State, p: nat, fault: Fault): State
    requires WellFormed(s) && p < |s.procs| && OnLockFile(s.procs[p])
  {
    match s.procs[p]
    case Create =>
      var doc := NewDocument(s, p);
      var drawn := s.(nextNonce := s.nextNonce + 1);
      if fault.Failed? then At(drawn, p, Idle)
      else if s.lock.File? || fault.Contended? then At(drawn, p, Stat1)
      else At(drawn.(lock := File(s.nextInode, Empty, s.now), nextInode := s.nextInode + 1),
              p, Opened(doc, s.nextInode))
    case Opened(doc, inode) =>
      if fault.NoFault? then At(s.(lock := WriteThrough(s.lock, inode, doc, s.now)), p, Written(doc, inode))
      else At(s.(lock := WriteThrough(s.lock, inode, PartialBytes(fault), s.now)), p, WriteFailed(doc, inode))
    case WriteFailed(_, _) =>
      At(if fault.NoFault? then s.(lock := Absent) else s, p, Idle)
    case Written(doc, inode) =>
      if Reads(s.lock, doc, fault) then At(s, p, Holding(doc, inode)) else At(s, p, Stat1)
    case Touching(doc, inode) =>
      At(if fault.NoFault? && s.lock.File? then s.(lock := s.lock.(mtime := s.now)) else s,
         p, Holding(doc, inode))
    case ReleaseRead(doc, inode) =>
      if Reads(s.lock, doc, fault) then At(s, p, ReleaseUnlink(doc, inode)) else At(s, p, Idle)
    case ReleaseUnlink(_, _) =>
      At(if fault.NoFault? then s.(lock := Absent) else s, p, Idle)
  }

  /** Its loop makes at most two exclusive creates. */
  function RetryIntent(tk: Takeover, tries: nat): Pc {
    if tries + 1 < 2 then IntentOpen(tk, tries + 1) else Backoff
  }

  /** Calls of `tryAcquireTakeoverIntent`: they act on the intent file only. */
  predicate OnIntentFile(pc: Pc) {
    pc.IntentOpen? || pc.IntentStat? || pc.IntentRead? || pc.IntentJudge? || pc.IntentStat2? || pc.IntentRead2?
    || pc.IntentUnlink? || pc.IntentOpened? || pc.IntentWriteFailed? || pc.IntentWritten?
  }

  function IntentFileStep(s: State, p: nat, fault: Fault): State
    requires WellFormed(s) && p < |s.procs| && OnIntentFile(s.procs[p])
  {
    var found := fault.NoFault? && s.intent.File?;
    match s.procs[p]
    case IntentOpen(tk, tries) =>
      if s.intent.File? then At(s, p, IntentStat(tk, tries))
      else if !fault.NoFault? then At(s, p, Backoff)
      else At(s.(intent := File(s.nextInode, Empty, s.now), nextInode := s.nextInode + 1),
              p, IntentOpened(tk, s.nextInode))
    case IntentStat(tk, tries) =>
      At(s, p, if found then IntentRead(tk, tries, StatOf(s.intent)) else RetryIntent(tk, tries))
    case IntentRead(tk, tries, ist) =>
      At(s, p, if found then IntentJudge(tk, tries, ist, s.intent.content) else RetryIntent(tk, tries))
    case IntentJudge(tk, tries, ist, ic) =>
      At(s, p, if s.now - ist.mtime < StaleBar(ic, s.hosts[p]) then Backoff else IntentStat2(tk, tries, ist, ic))
    case IntentStat2(tk, tries, ist, ic) =>
      At(s, p, if found then IntentRead2(tk, tries, ist, ic, StatOf(s.intent)) else RetryIntent(tk, tries))
    case IntentRead2(tk, tries, ist, ic, ist2) =>
      At(s, p, if !found then RetryIntent(tk, tries)
               else if ist2.mtime != ist.mtime || s.intent.content != ic then Backoff
               else IntentUnlink(tk, tries, ist, ic))
    case IntentUnlink(tk, tries, _, _) =>
      if found then At(s.(intent := Absent), p, RetryIntent(tk, tries)) else At(s, p, Backoff)
    case IntentOpened(tk, inode) =>
      if fault.NoFault? then At(s.(intent := WriteThrough(s.intent, inode, tk.doc, s.now)), p, IntentWritten(tk, inode))
      else At(s.(intent := WriteThrough(s.intent, inode, PartialBytes(fault), s.now)), p, IntentWriteFailed(tk, inode))
    case IntentWriteFailed(tk, inode) =>
      At(if fault.NoFault? then s.(intent := Absent) else s, p, Idle)
    case IntentWritten(tk, inode) =>
      At(s, p, if Reads(s.intent, tk.doc, fault) then Stat2(tk, inode) else Backoff)
  }

  /** Calls of `tryStaleTakeover` made under the intent, and of `releaseTakeoverIntent`. */
  predicate UnderIntent(pc: Pc) {
    pc.Stat2? || pc.Read2? || pc.IntentCheck? || pc.UnlinkStale? || pc.IntentReleaseRead? || pc.IntentReleaseUnlink?
  }

  function UnderIntentStep(s: State, p: nat, fault: Fault): State
    requires WellFormed(s) && p < |s.procs| && UnderIntent(s.procs[p])
  {
    match s.procs[p]
    case Stat2(tk, inode) =>
      At(s, p, if fault.NoFault? && s.lock.File? then Read2(tk, inode, StatOf(s.lock))
               else IntentReleaseRead(tk, inode, false))
    case Read2(tk, inode, st2) =>
      At(s, p, if Reads(s.lock, tk.c1, fault) && st2 == tk.st1 then IntentCheck(tk, inode)
               else IntentReleaseRead(tk, inode, false))
    case IntentCheck(tk, inode) =>
      At(s, p, if Reads(s.intent, tk.doc, fault) then UnlinkStale(tk, inode)
               else IntentReleaseRead(tk, inode, false))
    case UnlinkStale(tk, inode) =>
      if fault.NoFault? && s.lock.File? then At(s.(lock := Absent), p, IntentReleaseRead(tk, inode, true))
      else At(s, p, IntentReleaseRead(tk, inode, false))
    case IntentReleaseRead(tk, inode, removed) =>
      At(s, p, if Reads(s.intent, tk.doc, fault) then IntentReleaseUnlink(tk, inode, removed)
               else AfterTakeover(removed))
    case IntentReleaseUnlink(tk, inode, removed) =>
      At(if fault.NoFault? then s.(intent := Absent) else s, p, AfterTakeover(removed))
  }

  /** Calls of `tryStaleTakeover` up to its judgement, and the way back into `acquire`. */
  function JudgingStep(s: State, p: nat, fault: Fault): State
    requires WellFormed(s) && p < |s.procs|
  {
    var found := fault.NoFault? && s.lock.File?;
    match s.procs[p]
    case Stat1 => At(s, p, if found then Read1(StatOf(s.lock)) else Backoff)
    case Read1(st1) => At(s, p, if found then Judge(st1, s.lock.content) else Backoff)
    case Judge(st1, c1) =>
      if s.now - st1.mtime < StaleBar(c1, s.hosts[p]) then At(s, p, Backoff)
      else At(s.(nextNonce := s.nextNonce + 1), p, IntentOpen(Takeover(st1, c1, NewDocument(s, p)), 0))
    case Backoff => At(s, p, Create)
    case _ => s
  }

  /** The next call of process `p`. */
  function Step(s: State, p: nat, fault: Fault): (s': State)
    requires WellFormed(s) && p < |s.procs|
    ensures WellFormed(s') && |s'.procs| == |s.procs| && s'.hosts == s.hosts && s'.now == s.now
  {
    if OnLockFile(s.procs[p]) then LockFileStep(s, p, fault)
    else if OnIntentFile(s.procs[p]) then IntentFileStep(s, p, fault)
    else if UnderIntent(s.procs[p]) then UnderIntentStep(s, p, fault)
    else JudgingStep(s, p, fault)
  }

  function Apply(s: State, a: Action): (s': State)
    requires WellFormed(s)
    ensures WellFormed(s') && |s'.procs| == |s.procs| && s'.hosts == s.hosts && s.now <= s'.now
  {
    match a
    case Tick(ms) => s.(now := s.now + ms)
    case Begin(p) => if p < |s.procs| && s.procs[p].Idle? then At(s, p, Create) else s
    case Call(p, fault) => if p < |s.procs| then Step(s, p, fault) else s
    case Beat(p, fault) =>
      if p < |s.procs| && s.procs[p].Holding? && fault.NoFault? && s.lock.File? && s.lock.content == s.procs[p].doc
      then At(s, p, Touching(s.procs[p].doc, s.procs[p].inode))
      else s
    case BeginRelease(p) =>
      if p < |s.procs| && s.procs[p].Holding? then At(s, p, ReleaseRead(s.procs[p].doc, s.procs[p].inode)) else s
    case GiveUp(p) => if p < |s.procs| && s.procs[p].Backoff? then At(s, p, Idle) else s
    case Crash(p) => if p < |s.procs| then At(s, p, Crashed) else s
  }

  /** The state after the whole run. */
  function Exec(s: State, run: seq<Action>): (s': State)
    requires WellFormed(s)
    ensures WellFormed(s') && |s'.procs| == |s.procs| && s'.hosts == s.hosts && s.now <= s'.now
  {
    if run == [] then s else Apply(Exec(s, run[..|run| - 1]), run[|run| - 1])
  }

  predicate Init(s: State) {
    && WellFormed(s)
    && s.lock == Absent
    && s.intent == Absent
    && forall p :: 0 <= p < |s.procs| ==> s.procs[p].Idle?
  }

  // ── Ownership ─────────────────────────────────────────────────────────────────────────────────

  /** `p` is alive and between the exclusive create of the lock file and the end of its release. */
  predicate OwnsLock(pc: Pc) {
    pc.Opened? || pc.WriteFailed? || pc.Written? || pc.Holding? || pc.Touching? || pc.ReleaseRead? || pc.ReleaseUnlink?
  }

  /** `p` is alive and between the exclusive create of the intent file and the end of its release. */
  predicate OwnsIntent(pc: Pc) {
    pc.IntentOpened? || pc.IntentWriteFailed? || pc.IntentWritten? || pc.Stat2? || pc.Read2? || pc.IntentCheck?
    || pc.UnlinkStale? || pc.IntentReleaseRead? || pc.IntentReleaseUnlink?
  }

  /** Inside the critical section: after the verified create, before release begins. */
  predicate InCritical(pc: Pc) {
    pc.Holding? || pc.Touching?
  }

  predicate LockOrphan(s: State) {
    s.lock.File? && forall p :: 0 <= p < |s.procs| && OwnsLock(s.procs[p]) ==> s.procs[p].inode != s.lock.inode
  }

  // ── Environment assumptions ───────────────────────────────────────────────────────────────────

  /** The file exists, is the one `inode` names, and has reached the staleness bar. */
  predicate Overdue(f: File, inode: nat, now: nat) {
    f.File? && f.inode == inode && now - f.mtime >= LOCK_STALE_MS
  }

  predicate TimelyProcess(s: State, pc: Pc) {
    && (OwnsLock(pc) ==> !Overdue(s.lock, pc.inode, s.now))
    && (OwnsIntent(pc) ==> !Overdue(s.intent, pc.inode, s.now))
  }

  /** A live holder's lock and a live claimant's intent stay under the staleness bar. */
  predicate Timely(s: State) {
    forall p :: 0 <= p < |s.procs| ==> TimelyProcess(s, s.procs[p])
  }

  /** No claimant left its intent behind: an intent on disk has a live claimant. */
  predicate NoOrphanIntent(s: State) {
    s.intent.File? ==>
      exists p :: 0 <= p < |s.procs| && OwnsIntent(s.procs[p]) && s.procs[p].inode == s.intent.inode
  }

  predicate Assumed(s: State) {
    Timely(s) && NoOrphanIntent(s)
  }

  /** The assumptions hold in every state of the run before its last. */
  ghost predicate AssumedThroughout(s: State, run: seq<Action>)
    requires WellFormed(s)
  {
    forall k :: 0 <= k < |run| ==> Assumed(Exec(s, run[..k]))
  }
}
