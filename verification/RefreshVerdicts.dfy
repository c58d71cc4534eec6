/**
 * When a token that got a terminal verdict is presented again, and when its death is reported again: exactly,
 * for one call, and over any run of any number of providers that share the sidecar.
 *
 * The code matches the dead mark and the sidecar against the caller's lock-free snapshot, while the token that
 * goes out is the one the re-read under the lock shows. The two may differ.
 */
module RefreshVerdicts {
  import opened Basics
  import opened MachineCredentials
  import opened TokenRefresher
  import opened DeadFamilyMemo
  import opened CredentialProvider
  import opened RefreshDiscipline

  // ── Reading a log ─────────────────────────────────────────────────────────────────────────────

  predicate IsAsk(e: Entry, name: FamilyName, token: Token) {
    e.Asked? && e.name == name && e.token == token
  }

  predicate IsEvent(e: Entry, name: FamilyName, token: Token) {
    e.Telemetry? && e.name == name && e.dead == token
  }

  predicate Presented(log: seq<Entry>, name: FamilyName, token: Token) {
    exists k :: 0 <= k < |log| && IsAsk(log[k], name, token)
  }

  /** How many telemetry events report this token. */
  function Events(log: seq<Entry>, name: FamilyName, token: Token): nat {
    if log == [] then 0
    else Events(log[..|log| - 1], name, token) + if IsEvent(log[|log| - 1], name, token) then 1 else 0
  }

  lemma {:induction false} EventsOfSum(log: seq<Entry>, more: seq<Entry>, name: FamilyName, token: Token)
    ensures Events(log + more, name, token) == Events(log, name, token) + Events(more, name, token)
  {
    if more == [] {
      assert log + more == log;
    } else {
      EventsOfSum(log, more[..|more| - 1], name, token);
      assert (log + more)[..|log + more| - 1] == log + more[..|more| - 1];
    }
  }

  lemma PresentedInSum(log: seq<Entry>, more: seq<Entry>, name: FamilyName, token: Token)
    ensures Presented(log + more, name, token) <==> Presented(log, name, token) || Presented(more, name, token)
  {
    if k :| 0 <= k < |log| && IsAsk(log[k], name, token) { assert (log + more)[k] == log[k]; }
    if k :| 0 <= k < |more| && IsAsk(more[k], name, token) { assert (log + more)[|log| + k] == more[k]; }
  }

  // ── What a caller can check ───────────────────────────────────────────────────────────────────

  /** Nothing stops the call before the lock: no mark and no recorded verdict for the snapshot's token, and the window has passed. */
  predicate GateOpen(cfg: Config, mem: Memory, sidecar: Sidecar, name: FamilyName, snapshot: Family, now: int) {
    && !(name in mem.dead && mem.dead[name].token == snapshot.refreshToken)
    && (name in mem.lastAttempt ==> now - mem.lastAttempt[name].at >= Window(cfg, mem.lastAttempt[name]))
    && !(cfg.persistMemo && snapshot.refreshToken.Some? && MatchIn(sidecar, snapshot.refreshToken.value).Some?)
  }

  /** The lock is free, and under it the family shows this token, no fresher access token to adopt, and a client id to use. */
  predicate Holds(cfg: Config, e: AttemptEnv, name: FamilyName, snapshot: Family, token: Token) {
    && !e.busy && e.found.Some? && !e.found.value.Unreadable? && token.Tok?
    && RefreshTokenIn(e.found.value, name) == Some(token)
    && var f := FamilyIn(e.found.value, name).value;
       && (Truthy(f.accessToken) && f.accessToken != snapshot.accessToken ==> ShouldRefresh(cfg, f, e.at) && f.expiresAt.Some?)
       && (StoredClientId(f).Some? || OrElse(cfg.defaultClientId, "") != "")
  }

  lemma StoredIdIsNotBlank(f: Family)
    ensures StoredClientId(f).Some? ==> StoredClientId(f).value != ""
  {
  }

  lemma HoldsExactly(cfg: Config, mem: Memory, e: AttemptEnv, name: FamilyName, snapshot: Family, token: Token)
    ensures
      var d := Decide(cfg, mem, e.found, name, snapshot, e.at);
      Holds(cfg, e, name, snapshot, token) <==> !e.busy && d.GoAsk? && d.ask.token == token
  {
    hide Candidates, EffectiveFamilies, ShouldRefresh, StoredClientId;
    if e.found.Some? && FamilyIn(e.found.value, name).Some? { StoredIdIsNotBlank(FamilyIn(e.found.value, name).value); }
  }

  /** The answer the candidate loop ends with. */
  function LastAnswer(cfg: Config, mem: Memory, e: AttemptEnv, name: FamilyName, snapshot: Family): RefreshResult {
    var d := Decide(cfg, mem, e.found, name, snapshot, e.at);
    if d.GoAsk? then e.answers(LastAsked(|d.ask.candidates|, e.answers, 0)).result else Failure("", None, false)
  }

  predicate TransientFailure(r: RefreshResult) {
    r.Failure? && r.transient
  }

  /** The first attempt went out and met a transient failure, and the call may retry. */
  predicate RetryFollows(cfg: Config, mem: Memory, c: CallOf) {
    && c.retryTransient && !c.env.abortedBeforeRetry
    && !c.env.first.busy && Decide(cfg, mem, c.env.first.found, c.name, c.snapshot, c.env.first.at).GoAsk?
    && TransientFailure(LastAnswer(cfg, mem, c.env.first, c.name, c.snapshot))
  }

  function AfterGate(cfg: Config, past: Past, c: CallOf): Memory {
    GateOf(cfg, past.mem, c.sidecar, c.name, c.snapshot, c.env.now).mem
  }

  function AfterFirst(cfg: Config, past: Past, c: CallOf): Section {
    LockedAttempt(cfg, AfterGate(cfg, past, c), c.store, c.name, c.snapshot, c.env.first, false)
  }

  /** Behind the gate, this token goes out in the first attempt or in the retry. */
  predicate Tried(cfg: Config, past: Past, c: CallOf, token: Token) {
    || Holds(cfg, c.env.first, c.name, c.snapshot, token)
    || (RetryFollows(cfg, AfterGate(cfg, past, c), c) && Holds(cfg, c.env.second, c.name, c.snapshot, token))
  }

  /** The call sends this token to the server. */
  predicate Presents(cfg: Config, past: Past, c: CallOf, token: Token) {
    GateOpen(cfg, past.mem, c.sidecar, c.name, c.snapshot, c.env.now) && Tried(cfg, past, c, token)
  }

  /** The re-read after a verdict shows another token of the family. */
  predicate MovedOn(reRead: Option<StoreState>, name: FamilyName, token: Token) {
    && reRead.Some? && reRead.value.Readable? && RefreshTokenIn(reRead.value, name).Some?
    && RefreshTokenIn(reRead.value, name) != Some(token)
  }

  /** The answer to the last attempt of the call. */
  function FinalAnswer(cfg: Config, past: Past, c: CallOf): RefreshResult {
    if RetryFollows(cfg, AfterGate(cfg, past, c), c)
    then LastAnswer(cfg, AfterFirst(cfg, past, c).mem, c.env.second, c.name, c.snapshot)
    else LastAnswer(cfg, AfterGate(cfg, past, c), c.env.first, c.name, c.snapshot)
  }

  /** Behind the gate, the last attempt sends this token and hears a terminal verdict on it. */
  predicate Sentenced(cfg: Config, past: Past, c: CallOf, token: Token) {
    && Holds(cfg, if RetryFollows(cfg, AfterGate(cfg, past, c), c) then c.env.second else c.env.first, c.name, c.snapshot, token)
    && IsVerdict(FinalAnswer(cfg, past, c))
  }

  /** The call hears a terminal verdict on this token. */
  predicate Condemns(cfg: Config, past: Past, c: CallOf, token: Token) {
    GateOpen(cfg, past.mem, c.sidecar, c.name, c.snapshot, c.env.now) && Sentenced(cfg, past, c, token)
  }

  /** The call hears the verdict and reports the death: nothing else is shown afterwards. */
  predicate ReportsDeath(cfg: Config, past: Past, c: CallOf, token: Token) {
    Condemns(cfg, past, c, token) && !MovedOn(c.env.reRead, c.name, token)
  }

  // ── One call, exactly ─────────────────────────────────────────────────────────────────────────

  lemma GateOpenExactly(cfg: Config, mem: Memory, sidecar: Sidecar, name: FamilyName, snapshot: Family, now: int)
    ensures GateOpen(cfg, mem, sidecar, name, snapshot, now) <==> GateOf(cfg, mem, sidecar, name, snapshot, now).Proceed?
    ensures GateOpen(cfg, mem, sidecar, name, snapshot, now) ==> name !in GateOf(cfg, mem, sidecar, name, snapshot, now).mem.dead
  {
    hide MatchIn, Window;
  }

  /** What one locked attempt enters in the log, and how it ends. */
  predicate AttemptIs(name: FamilyName, s: Section, asked: Option<Token>, heard: RefreshResult) {
    && (forall k :: 0 <= k < |s.log| ==> !s.log[k].Telemetry? && s.log[k].name == name)
    && (forall k :: 0 <= k < |s.log| && s.log[k].Asked? ==> k == |s.log| - 1 && asked == Some(s.log[k].token))
    && (asked.Some? ==> Presented(s.log, name, asked.value))
    && (s.outcome.InvalidGrant? <==> asked.Some? && IsVerdict(heard))
    && (s.outcome.InvalidGrant? ==>
          s.outcome.presented == asked.value && heard == Failure(s.outcome.code, s.outcome.description, false))
    && (s.outcome.Failed? && s.outcome.transient <==> asked.Some? && TransientFailure(heard))
    && (forall k :: 0 <= k < |s.log| && s.log[k].Asked? ==> (s.log[k].verdict <==> s.outcome.InvalidGrant?))
  }

  /** The token an attempt sends. */
  function Sent(cfg: Config, mem: Memory, e: AttemptEnv, name: FamilyName, snapshot: Family): Option<Token> {
    var d := Decide(cfg, mem, e.found, name, snapshot, e.at);
    if !e.busy && d.GoAsk? then Some(d.ask.token) else None
  }

  lemma SentIs(cfg: Config, mem: Memory, e: AttemptEnv, name: FamilyName, snapshot: Family)
    ensures forall t :: Holds(cfg, e, name, snapshot, t) <==> Sent(cfg, mem, e, name, snapshot) == Some(t)
  {
    forall t ensures Holds(cfg, e, name, snapshot, t) <==> Sent(cfg, mem, e, name, snapshot) == Some(t) {
      HoldsExactly(cfg, mem, e, name, snapshot, t);
    }
  }

  lemma AttemptLog(cfg: Config, mem: Memory, store: StoreState, name: FamilyName, snapshot: Family, e: AttemptEnv, retry: bool)
    ensures AttemptIs(name, LockedAttempt(cfg, mem, store, name, snapshot, e, retry), Sent(cfg, mem, e, name, snapshot), LastAnswer(cfg, mem, e, name, snapshot))
  {
    var s := LockedAttempt(cfg, mem, store, name, snapshot, e, retry);
    var d := Decide(cfg, mem, e.found, name, snapshot, e.at);
    if !e.busy && d.GoAsk? {
      AskLog(mem, OrElse(e.found, store), name, d.ask, e, retry);
      hide AskServer, Decide, LastAsked, IsVerdict;
      var net := AskServer(mem, OrElse(e.found, store), name, d.ask, e, retry);
      assert s.log == [Saw(name, RefreshTokenIn(e.found.value, name))] + net.log;
      assert IsAsk(s.log[1], name, d.ask.token);
    } else {
      hide Decide, LastAsked, IsVerdict;
    }
  }

  lemma AskLog(mem: Memory, store: StoreState, name: FamilyName, ask: Ask, e: AttemptEnv, retry: bool)
    requires ask.candidates != []
    ensures
      var s := AskServer(mem, store, name, ask, e, retry);
      var heard := e.answers(LastAsked(|ask.candidates|, e.answers, 0)).result;
      && |s.log| == 1 && IsAsk(s.log[0], name, ask.token) && (s.log[0].verdict <==> s.outcome.InvalidGrant?)
      && (s.outcome.InvalidGrant? <==> IsVerdict(heard))
      && (s.outcome.InvalidGrant? ==>
            s.outcome.presented == ask.token && heard == Failure(s.outcome.code, s.outcome.description, false))
      && (s.outcome.Failed? && s.outcome.transient <==> TransientFailure(heard))
  {
    hide IsClientIdMismatch, Persist;
  }

  /** Both attempts of a call together: what went out, and whether it was condemned. */
  ghost predicate TriesAre(cfg: Config, past: Past, c: CallOf, s: Section) {
    && (forall k :: 0 <= k < |s.log| ==> !s.log[k].Telemetry? && s.log[k].name == c.name)
    && (forall t :: Presented(s.log, c.name, t) <==> Tried(cfg, past, c, t))
    && (forall t :: Sentenced(cfg, past, c, t) <==> s.outcome.InvalidGrant? && s.outcome.presented == t)
    && (forall k :: 0 <= k < |s.log| && s.log[k].Asked? && s.log[k].verdict ==>
          k == |s.log| - 1 && s.outcome.InvalidGrant? && s.outcome.presented == s.log[k].token)
    && (s.outcome.InvalidGrant? ==>
          && s.log != [] && IsVerdictOn(s.log[|s.log| - 1], c.name, s.outcome.presented)
          && FinalAnswer(cfg, past, c) == Failure(s.outcome.code, s.outcome.description, false))
  }

  predicate IsVerdictOn(e: Entry, name: FamilyName, token: Token) {
    IsAsk(e, name, token) && e.verdict
  }

  lemma AttemptPresents(name: FamilyName, s: Section, asked: Option<Token>, heard: RefreshResult, t: Token)
    requires AttemptIs(name, s, asked, heard)
    ensures Presented(s.log, name, t) <==> asked == Some(t)
  {
  }

  lemma RetryFollowsExactly(cfg: Config, past: Past, c: CallOf)
    ensures
      var mem := AfterGate(cfg, past, c);
      RetryFollows(cfg, mem, c) <==>
        && Sent(cfg, mem, c.env.first, c.name, c.snapshot).Some?
        && TransientFailure(LastAnswer(cfg, mem, c.env.first, c.name, c.snapshot))
        && c.retryTransient && !c.env.abortedBeforeRetry
  {
    hide AfterGate, Decide, LastAnswer;
  }

  lemma TriesLog(cfg: Config, past: Past, c: CallOf)
    ensures TriesAre(cfg, past, c, Attempts(cfg, AfterGate(cfg, past, c), c.store, c.name, c.snapshot, c.retryTransient, c.env))
  {
    var mem, first := AfterGate(cfg, past, c), AfterFirst(cfg, past, c);
    AttemptLog(cfg, mem, c.store, c.name, c.snapshot, c.env.first, false);
    SentIs(cfg, mem, c.env.first, c.name, c.snapshot);
    RetryFollowsExactly(cfg, past, c);
    AttemptLog(cfg, first.mem, first.store, c.name, c.snapshot, c.env.second, true);
    SentIs(cfg, first.mem, c.env.second, c.name, c.snapshot);
    TriesOf(cfg, past, c);
  }

  /** The two attempts put together. */
  lemma TriesOf(cfg: Config, past: Past, c: CallOf)
    requires
      var mem, first := AfterGate(cfg, past, c), AfterFirst(cfg, past, c);
      var sent := Sent(cfg, mem, c.env.first, c.name, c.snapshot);
      var heard := LastAnswer(cfg, mem, c.env.first, c.name, c.snapshot);
      && AttemptIs(c.name, first, sent, heard)
      && (forall t :: Holds(cfg, c.env.first, c.name, c.snapshot, t) <==> sent == Some(t))
      && (RetryFollows(cfg, mem, c) <==> sent.Some? && TransientFailure(heard) && c.retryTransient && !c.env.abortedBeforeRetry)
    requires
      var first := AfterFirst(cfg, past, c);
      var second := LockedAttempt(cfg, first.mem, first.store, c.name, c.snapshot, c.env.second, true);
      var sent := Sent(cfg, first.mem, c.env.second, c.name, c.snapshot);
      && AttemptIs(c.name, second, sent, LastAnswer(cfg, first.mem, c.env.second, c.name, c.snapshot))
      && (forall t :: Holds(cfg, c.env.second, c.name, c.snapshot, t) <==> sent == Some(t))
    ensures TriesAre(cfg, past, c, Attempts(cfg, AfterGate(cfg, past, c), c.store, c.name, c.snapshot, c.retryTransient, c.env))
  {
    hide AfterGate, LockedAttempt, LastAnswer, Holds, Sent, RetryFollows, IsVerdict;
    var mem, first := AfterGate(cfg, past, c), AfterFirst(cfg, past, c);
    var sent := Sent(cfg, mem, c.env.first, c.name, c.snapshot);
    var heard := LastAnswer(cfg, mem, c.env.first, c.name, c.snapshot);
    var s := Attempts(cfg, mem, c.store, c.name, c.snapshot, c.retryTransient, c.env);
    forall t ensures Presented(first.log, c.name, t) <==> sent == Some(t) { AttemptPresents(c.name, first, sent, heard, t); }
    if RetriesNow(first.outcome, c.retryTransient, c.env) {
      var second := LockedAttempt(cfg, first.mem, first.store, c.name, c.snapshot, c.env.second, true);
      var sent2 := Sent(cfg, first.mem, c.env.second, c.name, c.snapshot);
      forall t ensures Presented(s.log, c.name, t) <==> Tried(cfg, past, c, t) {
        PresentedInSum(first.log, second.log, c.name, t);
        AttemptPresents(c.name, second, sent2, LastAnswer(cfg, first.mem, c.env.second, c.name, c.snapshot), t);
      }
    }
  }

  predicate VerdictIn(log: seq<Entry>, name: FamilyName, token: Token) {
    exists k :: 0 <= k < |log| && IsVerdictOn(log[k], name, token)
  }

  lemma VerdictInSum(log: seq<Entry>, more: seq<Entry>, name: FamilyName, token: Token)
    ensures VerdictIn(log + more, name, token) <==> VerdictIn(log, name, token) || VerdictIn(more, name, token)
  {
    if k :| 0 <= k < |log| && IsVerdictOn(log[k], name, token) { assert (log + more)[k] == log[k]; }
    if k :| 0 <= k < |more| && IsVerdictOn(more[k], name, token) { assert (log + more)[|log| + k] == more[k]; }
  }

  lemma {:induction false} NoEvents(log: seq<Entry>, name: FamilyName, token: Token)
    requires forall k :: 0 <= k < |log| ==> !log[k].Telemetry?
    ensures Events(log, name, token) == 0
  {
    if log != [] {
      NoEvents(log[..|log| - 1], name, token);
    }
  }

  predicate IsRead(e: Entry, name: FamilyName) {
    e.Saw? && e.name == name
  }

  /** A read in front of a log, and a read or an event behind it. */
  lemma AroundTries(before: Entry, log: seq<Entry>, after: seq<Entry>, name: FamilyName, token: Token)
    requires IsRead(before, name) && (forall k :: 0 <= k < |log| ==> !log[k].Telemetry?)
    requires forall k :: 0 <= k < |after| ==> !after[k].Asked?
    ensures
      var all := [before] + log + after;
      && (Presented(all, name, token) <==> Presented(log, name, token))
      && (VerdictIn(all, name, token) <==> VerdictIn(log, name, token))
      && Events(all, name, token) == Events(after, name, token)
  {
    PresentedInSum([before] + log, after, name, token);
    PresentedInSum([before], log, name, token);
    VerdictInSum([before] + log, after, name, token);
    VerdictInSum([before], log, name, token);
    EventsOfSum([before] + log, after, name, token);
    EventsOfSum([before], log, name, token);
    NoEvents(log, name, token);
    NoEvents([before], name, token);
  }

  /** What follows the attempts in a call's log: nothing, or the re-read and perhaps one event. */
  function Epilogue(s: Section, name: FamilyName, env: CallEnv): seq<Entry> {
    if !s.outcome.InvalidGrant? then []
    else
      var event := Telemetry(name, s.outcome.presented, s.outcome.code, s.outcome.description);
      if !Shown(env.reRead, name) then [event]
      else
        var saw := Saw(name, RefreshTokenIn(env.reRead.value, name));
        if MovedOn(env.reRead, name, s.outcome.presented) then [saw] else [saw, event]
  }

  lemma EventsOfEpilogue(s: Section, name: FamilyName, env: CallEnv, token: Token)
    ensures Events(Epilogue(s, name, env), name, token) ==
            if s.outcome.InvalidGrant? && s.outcome.presented == token && !MovedOn(env.reRead, name, token) then 1 else 0
  {
    hide RefreshTokenIn;
    if s.outcome.InvalidGrant? {
      var event := Telemetry(name, s.outcome.presented, s.outcome.code, s.outcome.description);
      OneEvent([], event, name, token);
      if Shown(env.reRead, name) {
        var saw := Saw(name, RefreshTokenIn(env.reRead.value, name));
        OneEvent([], saw, name, token);
        OneEvent([saw], event, name, token);
        assert [saw] + [event] == [saw, event];
      }
    }
  }

  lemma OneEvent(log: seq<Entry>, e: Entry, name: FamilyName, token: Token)
    ensures Events(log + [e], name, token) == Events(log, name, token) + if IsEvent(e, name, token) then 1 else 0
  {
    assert (log + [e])[..|log|] == log;
  }

  lemma VerdictLog(cfg: Config, s: Section, sidecar: Sidecar, name: FamilyName, env: CallEnv)
    requires s.outcome.InvalidGrant? && name !in s.mem.dead
    ensures
      var r := AfterVerdict(cfg, s, sidecar, name, env);
      && r.log == s.log + Epilogue(s, name, env)
      && r.sidecar ==
           if MovedOn(env.reRead, name, s.outcome.presented) || !cfg.persistMemo then sidecar
           else WriteTo(sidecar, Verdict(
             s.outcome.presented, DescribeFailure(s.outcome.code, s.outcome.description), env.directoryExists, env.memoDiskFails))
  {
    hide RefreshTokenIn, DescribeFailure, WriteTo;
  }

  lemma AttemptKeepsMarks(cfg: Config, mem: Memory, store: StoreState, name: FamilyName, snapshot: Family, e: AttemptEnv, retry: bool)
    ensures LockedAttempt(cfg, mem, store, name, snapshot, e, retry).mem.dead == mem.dead
  {
    var d := Decide(cfg, mem, e.found, name, snapshot, e.at);
    if !e.busy && d.GoAsk? {
      SectionAsks(cfg, mem, store, name, snapshot, e, retry);
    } else if !e.busy {
      SectionOnlyReads(cfg, mem, store, name, snapshot, e, retry);
    }
  }

  /** Everything the log of one call says, in terms a caller can check beforehand. */
  ghost predicate CallIs(cfg: Config, past: Past, c: CallOf, r: Call) {
    && (forall k :: 0 <= k < |r.log| ==> r.log[k].name == c.name)
    && (forall t :: Presented(r.log, c.name, t) <==> Presents(cfg, past, c, t))
    && (forall t :: VerdictIn(r.log, c.name, t) <==> Condemns(cfg, past, c, t))
    && (forall t :: Events(r.log, c.name, t) == if ReportsDeath(cfg, past, c, t) then 1 else 0)
    && (forall i, j :: 0 <= i < j < |r.log| && r.log[i].Asked? && r.log[i].verdict ==> !r.log[j].Asked?)
  }

  function Doing(cfg: Config, past: Past, c: CallOf): Call {
    RefreshFamily(cfg, past.mem, c.sidecar, c.store, c.name, c.snapshot, c.retryTransient, c.env)
  }

  /** The shape of a call's log: the snapshot, the attempts, and what follows a verdict. */
  lemma CallLog(cfg: Config, past: Past, c: CallOf)
    ensures
      var s := Attempts(cfg, AfterGate(cfg, past, c), c.store, c.name, c.snapshot, c.retryTransient, c.env);
      var r := Doing(cfg, past, c);
      if GateOpen(cfg, past.mem, c.sidecar, c.name, c.snapshot, c.env.now)
      then
        && r.log == [Saw(c.name, c.snapshot.refreshToken)] + s.log + Epilogue(s, c.name, c.env)
        && r.sidecar ==
             if !s.outcome.InvalidGrant? || MovedOn(c.env.reRead, c.name, s.outcome.presented) || !cfg.persistMemo then c.sidecar
             else WriteTo(c.sidecar, Verdict(
               s.outcome.presented, DescribeFailure(s.outcome.code, s.outcome.description), c.env.directoryExists, c.env.memoDiskFails))
      else r.log == [Saw(c.name, c.snapshot.refreshToken)] && r.sidecar == c.sidecar
  {
    GateOpenExactly(cfg, past.mem, c.sidecar, c.name, c.snapshot, c.env.now);
    var g := GateOf(cfg, past.mem, c.sidecar, c.name, c.snapshot, c.env.now);
    if g.Proceed? {
      var first := AfterFirst(cfg, past, c);
      AttemptKeepsMarks(cfg, g.mem, c.store, c.name, c.snapshot, c.env.first, false);
      AttemptKeepsMarks(cfg, first.mem, first.store, c.name, c.snapshot, c.env.second, true);
      hide GateOf, GateOpen, LockedAttempt, AfterVerdict, Epilogue, MovedOn, WriteTo, DescribeFailure;
      var s := Attempts(cfg, g.mem, c.store, c.name, c.snapshot, c.retryTransient, c.env);
      var saw := [Saw(c.name, c.snapshot.refreshToken)];
      if s.outcome.InvalidGrant? {
        VerdictLog(cfg, s.(log := saw + s.log), c.sidecar, c.name, c.env);
        assert Epilogue(s.(log := saw + s.log), c.name, c.env) == Epilogue(s, c.name, c.env) by { EpilogueIgnoresLog(s, saw + s.log, c.name, c.env); }
      } else {
        assert Epilogue(s, c.name, c.env) == [] by { EpilogueIgnoresLog(s, s.log, c.name, c.env); }
      }
    }
  }

  lemma EpilogueIgnoresLog(s: Section, log: seq<Entry>, name: FamilyName, env: CallEnv)
    ensures Epilogue(s.(log := log), name, env) == Epilogue(s, name, env)
    ensures !s.outcome.InvalidGrant? ==> Epilogue(s, name, env) == []
    ensures forall k :: 0 <= k < |Epilogue(s, name, env)| ==> !Epilogue(s, name, env)[k].Asked? && Epilogue(s, name, env)[k].name == name
  {
  }

  lemma CallExactly(cfg: Config, past: Past, c: CallOf)
    ensures CallIs(cfg, past, c, Doing(cfg, past, c))
  {
    CallLog(cfg, past, c);
    TriesLog(cfg, past, c);
    hide AfterGate, Attempts, GateOpen, Tried, Sentenced, MovedOn, Epilogue, Doing;
    var r := Doing(cfg, past, c);
    var s := Attempts(cfg, AfterGate(cfg, past, c), c.store, c.name, c.snapshot, c.retryTransient, c.env);
    var saw := Saw(c.name, c.snapshot.refreshToken);
    EpilogueIgnoresLog(s, s.log, c.name, c.env);
    if GateOpen(cfg, past.mem, c.sidecar, c.name, c.snapshot, c.env.now) {
      forall t
        ensures Presented(r.log, c.name, t) <==> Presents(cfg, past, c, t)
        ensures VerdictIn(r.log, c.name, t) <==> Condemns(cfg, past, c, t)
        ensures Events(r.log, c.name, t) == if ReportsDeath(cfg, past, c, t) then 1 else 0
      {
        AroundTries(saw, s.log, Epilogue(s, c.name, c.env), c.name, t);
        EventsOfEpilogue(s, c.name, c.env, t);
        VerdictOfTries(cfg, past, c, s, t);
      }
    } else {
      forall t ensures Events(r.log, c.name, t) == 0 { NoEvents(r.log, c.name, t); }
    }
  }

  lemma VerdictOfTries(cfg: Config, past: Past, c: CallOf, s: Section, t: Token)
    requires TriesAre(cfg, past, c, s)
    ensures VerdictIn(s.log, c.name, t) <==> Sentenced(cfg, past, c, t)
  {
    hide Sentenced, Tried;
    if Sentenced(cfg, past, c, t) { assert IsVerdictOn(s.log[|s.log| - 1], c.name, t); }
  }

  predicate WindowPassed(cfg: Config, mem: Memory, name: FamilyName, now: int) {
    name in mem.lastAttempt ==> now - mem.lastAttempt[name].at >= Window(cfg, mem.lastAttempt[name])
  }

  /**
   * When a provider presents the token it has marked dead: exactly when the snapshot shows another token,
   * not recorded as dead itself, the window has passed, and the locked read shows the marked token.
   */
  lemma MarkedTokenPresentedExactly(cfg: Config, past: Past, c: CallOf, token: Token)
    requires c.name in past.mem.dead && past.mem.dead[c.name].token == Some(token)
    ensures Presented(Doing(cfg, past, c).log, c.name, token) <==>
              && c.snapshot.refreshToken != Some(token)
              && WindowPassed(cfg, past.mem, c.name, c.env.now)
              && !(cfg.persistMemo && c.snapshot.refreshToken.Some? && MatchIn(c.sidecar, c.snapshot.refreshToken.value).Some?)
              && Tried(cfg, past, c, token)
  {
    CallExactly(cfg, past, c);
    hide Tried, Doing;
  }

  /**
   * When a provider that consults the sidecar presents the token recorded there: exactly when the snapshot
   * shows another token, which the provider has not marked, the window has passed, and the locked read shows
   * the recorded token.
   */
  lemma RecordedTokenPresentedExactly(cfg: Config, past: Past, c: CallOf, token: Token)
    requires cfg.persistMemo && MatchIn(c.sidecar, token).Some?
    ensures Presented(Doing(cfg, past, c).log, c.name, token) <==> Slips(cfg, past, c, token)
  {
    CallExactly(cfg, past, c);
    RecordedSlips(cfg, past, c, token);
  }

  predicate Slips(cfg: Config, past: Past, c: CallOf, token: Token) {
    && c.snapshot.refreshToken != Some(token)
    && !(c.name in past.mem.dead && past.mem.dead[c.name].token == c.snapshot.refreshToken)
    && WindowPassed(cfg, past.mem, c.name, c.env.now)
    && Tried(cfg, past, c, token)
  }

  lemma RecordedSlips(cfg: Config, past: Past, c: CallOf, token: Token)
    requires cfg.persistMemo && MatchIn(c.sidecar, token).Some?
    ensures Presents(cfg, past, c, token) <==> Slips(cfg, past, c, token)
  {
    hide Tried;
  }

  /** A verdict of this call reaches the sidecar: the disk takes it, and its words do not name the wrong client. */
  predicate Recorded(cfg: Config, past: Past, c: CallOf) {
    && cfg.persistMemo && c.env.directoryExists && !c.env.memoDiskFails
    && FinalAnswer(cfg, past, c).Failure? && !IsClientIdMismatchText(FinalAnswer(cfg, past, c).description)
  }

  lemma VerdictIsNoMismatch(code: string, description: Option<string>)
    requires IsVerdict(Failure(code, description, false)) && !IsClientIdMismatchText(description)
    ensures !IsClientIdMismatchText(Some(DescribeFailure(code, description)))
  {
    MismatchTextOfDescribedFailure(code, description);
    assert |ToLower(code)| < |MISMATCH|;
  }

  /** The slot after a call: untouched unless the call reports a death, and then naming the token if the disk takes it. */
  lemma SlotAfterCall(cfg: Config, past: Past, c: CallOf, token: Token)
    ensures (forall t :: Events(Doing(cfg, past, c).log, c.name, t) == 0) ==> Doing(cfg, past, c).sidecar == c.sidecar
    ensures ReportsDeath(cfg, past, c, token) && Recorded(cfg, past, c) ==> MatchIn(Doing(cfg, past, c).sidecar, token).Some?
  {
    CallLog(cfg, past, c);
    TriesLog(cfg, past, c);
    CallExactly(cfg, past, c);
    var s := Attempts(cfg, AfterGate(cfg, past, c), c.store, c.name, c.snapshot, c.retryTransient, c.env);
    hide AfterGate, Attempts, GateOpen, Tried, MovedOn, Epilogue, Doing, FinalAnswer, Holds, RetryFollows, IsClientIdMismatchText, DescribeFailure;
    if s.outcome.InvalidGrant? {
      var dead := s.outcome.presented;
      assert Sentenced(cfg, past, c, dead);
      assert GateOpen(cfg, past.mem, c.sidecar, c.name, c.snapshot, c.env.now) ==>
          (ReportsDeath(cfg, past, c, dead) <==> Events(Doing(cfg, past, c).log, c.name, dead) == 1);
      if Recorded(cfg, past, c) { VerdictIsNoMismatch(s.outcome.code, s.outcome.description); }
    }
  }

  /**
   * Whatever another component left in the slot: a record that names the wrong client changes nothing. The call
   * leaves the memory, the store, the log and the outcome it leaves with no record at all.
   */
  lemma MismatchRecordIsIgnored(cfg: Config, past: Past, c: CallOf, token: Option<Token>, reason: string)
    requires IsClientIdMismatchText(Some(reason))
    ensures
      var with, without := Doing(cfg, past, c.(sidecar := Record(token, Some(reason)))), Doing(cfg, past, c.(sidecar := NoSidecar));
      with.mem == without.mem && with.store == without.store && with.outcome == without.outcome && with.log == without.log
  {
    GateIgnoresMismatch(cfg, past.mem, token, reason, c.name, c.snapshot, c.env.now);
    hide GateOf, Attempts, WriteTo, DescribeFailure, IsClientIdMismatchText;
  }

  lemma GateIgnoresMismatch(cfg: Config, mem: Memory, token: Option<Token>, reason: string, name: FamilyName, snapshot: Family, now: int)
    requires IsClientIdMismatchText(Some(reason))
    ensures GateOf(cfg, mem, Record(token, Some(reason)), name, snapshot, now) == GateOf(cfg, mem, NoSidecar, name, snapshot, now)
  {
    hide IsClientIdMismatchText, Window;
  }

  // ── One provider over any calls ───────────────────────────────────────────────────────────────

  /** No token is presented after a verdict on it. */
  predicate NeverAgain(log: seq<Entry>) {
    forall i, j :: 0 <= i < j < |log| && log[i].Asked? && log[i].verdict ==> !IsAsk(log[j], log[i].name, log[i].token)
  }

  /** The property the provider is built for: no token again after its verdict, and one event for each verdict. */
  ghost predicate Disciplined(log: seq<Entry>) {
    NeverAgain(log) && forall name, t :: VerdictIn(log, name, t) ==> Events(log, name, t) == 1
  }

  /**
   * The gate is closed; or the locked reads show no token this provider heard a verdict on, and the re-read
   * after a verdict shows no other token.
   */
  ghost predicate Heeds(cfg: Config, past: Past, c: CallOf) {
    GateOpen(cfg, past.mem, c.sidecar, c.name, c.snapshot, c.env.now) ==>
      forall t ::
        && (VerdictIn(past.log, c.name, t) ==> !Tried(cfg, past, c, t))
        && (Sentenced(cfg, past, c, t) ==> !MovedOn(c.env.reRead, c.name, t))
  }

  lemma HeedsMeans(cfg: Config, past: Past, c: CallOf)
    ensures Heeds(cfg, past, c) <==>
              forall t ::
                && (VerdictIn(past.log, c.name, t) ==> !Presents(cfg, past, c, t))
                && (Condemns(cfg, past, c, t) ==> !MovedOn(c.env.reRead, c.name, t))
  {
    hide GateOpen, Tried, Sentenced, MovedOn, VerdictIn;
    if Heeds(cfg, past, c) {
      forall t
        ensures VerdictIn(past.log, c.name, t) ==> !Presents(cfg, past, c, t)
        ensures Condemns(cfg, past, c, t) ==> !MovedOn(c.env.reRead, c.name, t)
      {
      }
    } else {
      var t :| (VerdictIn(past.log, c.name, t) && Tried(cfg, past, c, t)) || (Sentenced(cfg, past, c, t) && MovedOn(c.env.reRead, c.name, t));
      assert Presents(cfg, past, c, t) || Condemns(cfg, past, c, t);
    }
  }

  ghost predicate EventsHaveVerdicts(log: seq<Entry>) {
    forall name, t :: Events(log, name, t) > 0 ==> VerdictIn(log, name, t)
  }

  lemma NeverAgainAfterCall(log: seq<Entry>, more: seq<Entry>, name: FamilyName)
    requires forall k :: 0 <= k < |more| ==> more[k].name == name
    requires forall i, j :: 0 <= i < j < |more| && more[i].Asked? && more[i].verdict ==> !more[j].Asked?
    ensures NeverAgain(log + more) <==> NeverAgain(log) && forall t :: VerdictIn(log, name, t) ==> !Presented(more, name, t)
  {
    var all := log + more;
    if NeverAgain(all) {
      forall i, j | 0 <= i < j < |log| && log[i].Asked? && log[i].verdict ensures !IsAsk(log[j], log[i].name, log[i].token) {
        assert all[i] == log[i] && all[j] == log[j];
      }
      forall t | VerdictIn(log, name, t) ensures !Presented(more, name, t) {
        var i :| 0 <= i < |log| && IsVerdictOn(log[i], name, t);
        forall j | 0 <= j < |more| ensures !IsAsk(more[j], name, t) {
          assert all[i] == log[i] && all[|log| + j] == more[j];
        }
      }
    }
    if NeverAgain(log) && forall t :: VerdictIn(log, name, t) ==> !Presented(more, name, t) {
      forall i, j | 0 <= i < j < |all| && all[i].Asked? && all[i].verdict ensures !IsAsk(all[j], all[i].name, all[i].token) {
        if j < |log| {
          assert all[i] == log[i] && all[j] == log[j];
        } else if i < |log| {
          assert all[i] == log[i] && all[j] == more[j - |log|];
          if all[i].name == name {
            assert IsVerdictOn(log[i], name, log[i].token);
            assert !Presented(more, name, log[i].token);
            assert !IsAsk(more[j - |log|], name, log[i].token);
          }
        } else {
          assert all[i] == more[i - |log|] && all[j] == more[j - |log|];
        }
      }
    }
  }

  lemma {:induction false} OtherNamesAreSilent(log: seq<Entry>, name: FamilyName, other: FamilyName, t: Token)
    requires name != other && forall k :: 0 <= k < |log| ==> log[k].name == name
    ensures Events(log, other, t) == 0 && !Presented(log, other, t) && !VerdictIn(log, other, t)
  {
    if log != [] {
      OtherNamesAreSilent(log[..|log| - 1], name, other, t);
    }
  }

  /** What one call leaves of the property. */
  lemma CallDisciplined(cfg: Config, past: Past, c: CallOf)
    requires EventsHaveVerdicts(past.log)
    ensures
      var after := past.log + Doing(cfg, past, c).log;
      EventsHaveVerdicts(after) && (Disciplined(after) <==> Disciplined(past.log) && Heeds(cfg, past, c))
  {
    var r := Doing(cfg, past, c);
    var after := past.log + r.log;
    CallExactly(cfg, past, c);
    HeedsMeans(cfg, past, c);
    hide Doing, Presents, Condemns, MovedOn, Presented, VerdictIn, NeverAgain, Heeds;
    NeverAgainAfterCall(past.log, r.log, c.name);
    forall name, t
      ensures Events(after, name, t) == Events(past.log, name, t) + (if name == c.name && ReportsDeath(cfg, past, c, t) then 1 else 0)
      ensures VerdictIn(after, name, t) <==> VerdictIn(past.log, name, t) || (name == c.name && Condemns(cfg, past, c, t))
    {
      EventsOfSum(past.log, r.log, name, t);
      VerdictInSum(past.log, r.log, name, t);
      if name != c.name { OtherNamesAreSilent(r.log, c.name, name, t); }
    }
    CondemnedIsPresented(cfg, past, c);
    if Disciplined(after) {
      forall t | Condemns(cfg, past, c, t) ensures !MovedOn(c.env.reRead, c.name, t) {
        assert Events(after, c.name, t) == 1 && Events(past.log, c.name, t) == 0;
      }
      forall name, t | VerdictIn(past.log, name, t) ensures Events(past.log, name, t) == 1 {
        assert Events(after, name, t) == 1;
      }
    }
  }

  lemma CondemnedIsPresented(cfg: Config, past: Past, c: CallOf)
    ensures forall t :: Condemns(cfg, past, c, t) ==> Presents(cfg, past, c, t)
  {
    hide GateOpen, AfterGate, FinalAnswer;
  }

  lemma {:induction false} NoVerdictsYet(log: seq<Entry>)
    requires log == []
    ensures EventsHaveVerdicts(log) && Disciplined(log)
  {
  }

  /** Each call of the run, in the light of the calls before it, heeds. */
  ghost predicate AlwaysHeeds(cfg: Config, calls: seq<CallOf>) {
    forall k :: 0 <= k < |calls| ==> Heeds(cfg, PerformAll(cfg, calls[..k]), calls[k])
  }

  lemma AlwaysHeedsLast(cfg: Config, calls: seq<CallOf>)
    requires calls != []
    ensures
      var n := |calls| - 1;
      AlwaysHeeds(cfg, calls) <==> AlwaysHeeds(cfg, calls[..n]) && Heeds(cfg, PerformAll(cfg, calls[..n]), calls[n])
  {
    hide Heeds, PerformAll;
    var n := |calls| - 1;
    assert forall k :: 0 <= k < n ==> calls[..n][..k] == calls[..k] && calls[..n][k] == calls[k];
  }

  /**
   * Over any calls, each meeting whatever the sidecar holds when it passes its gate: a provider never presents a
   * token after a verdict on it and reports each verdict exactly once, if and only if each of its calls heeds.
   */
  lemma {:induction false} DisciplinedExactly(cfg: Config, calls: seq<CallOf>)
    ensures EventsHaveVerdicts(PerformAll(cfg, calls).log)
    ensures Disciplined(PerformAll(cfg, calls).log) <==> AlwaysHeeds(cfg, calls)
  {
    if calls == [] {
      NoVerdictsYet(PerformAll(cfg, calls).log);
    } else {
      var n := |calls| - 1;
      DisciplinedExactly(cfg, calls[..n]);
      AlwaysHeedsLast(cfg, calls);
      var past := PerformAll(cfg, calls[..n]);
      CallDisciplined(cfg, past, calls[n]);
      hide Heeds, AlwaysHeeds, Disciplined, EventsHaveVerdicts, RefreshFamily;
      assert PerformAll(cfg, calls).log == past.log + Doing(cfg, past, calls[n]).log;
    }
  }
}
