/**
 * What one provider does over any sequence of calls, whatever its environment: how far apart its network
 * attempts are, and that it neither presents a condemned token again nor reports it again as long as every
 * read of the family still shows that token. `RefreshVerdicts` says exactly what happens otherwise.
 */
module RefreshDiscipline {
  import opened Basics
  import opened MachineCredentials
  import opened TokenRefresher
  import opened DeadFamilyMemo
  import opened CredentialProvider

  /** One `refreshFamily` call and everything around it. */
  datatype CallOf = CallOf(
    name: FamilyName,
    snapshot: Family,
    retryTransient: bool,
    sidecar: Sidecar,
    store: StoreState,
    env: CallEnv)

  datatype Past = Past(mem: Memory, log: seq<Entry>)

  function Perform(cfg: Config, past: Past, c: CallOf): Past {
    var r := RefreshFamily(cfg, past.mem, c.sidecar, c.store, c.name, c.snapshot, c.retryTransient, c.env);
    Past(r.mem, past.log + r.log)
  }

  function PerformAll(cfg: Config, calls: seq<CallOf>): Past {
    if calls == [] then Past(NO_MEMORY, []) else Perform(cfg, PerformAll(cfg, calls[..|calls| - 1]), calls[|calls| - 1])
  }

  /** In each call the clock does not run backwards from its gate to its first attempt. */
  ghost predicate ClockRuns(calls: seq<CallOf>) {
    forall i :: 0 <= i < |calls| ==> calls[i].env.now <= calls[i].env.first.at
  }

  // ── Reading a log ─────────────────────────────────────────────────────────────────────────────

  function PreviousAsk(log: seq<Entry>, name: FamilyName): (e: Option<Entry>)
    ensures e.Some? ==> e.value.Asked?
  {
    if log == [] then None
    else
      var last := log[|log| - 1];
      if last.Asked? && last.name == name then Some(last) else PreviousAsk(log[..|log| - 1], name)
  }

  /** Tokens of a family that got a terminal verdict and that every read of the family since has still shown. */
  function Condemned(log: seq<Entry>, name: FamilyName): set<Token> {
    if log == [] then {}
    else
      var before := Condemned(log[..|log| - 1], name);
      match log[|log| - 1]
      case Saw(n, seen) => if n == name then (set t | t in before && seen == Some(t)) else before
      case Asked(n, token, _, _, _, verdict, _) => if n == name && verdict then before + {token} else before
      case Telemetry(_, _, _, _) => before
  }

  /** Tokens of a family whose death was reported and that every read of the family since has still shown. */
  function Reported(log: seq<Entry>, name: FamilyName): set<Token> {
    if log == [] then {}
    else
      var before := Reported(log[..|log| - 1], name);
      match log[|log| - 1]
      case Saw(n, seen) => if n == name then (set t | t in before && seen == Some(t)) else before
      case Asked(_, _, _, _, _, _, _) => before
      case Telemetry(n, dead, _, _) => if n == name then before + {dead} else before
  }

  /** Two consecutive network attempts of a family are a window apart, unless the second is the one prompt retry of a transient failure. */
  predicate Spaced(cfg: Config, previous: Option<Entry>, next: Entry)
    requires next.Asked?
    requires previous.Some? ==> previous.value.Asked?
  {
    if next.retry then previous.Some? && previous.value.transient && !previous.value.retry
    else previous.Some? ==> next.at - previous.value.at >= Window(cfg, Attempt(previous.value.at, previous.value.transient))
  }

  predicate WellBehaved(cfg: Config, log: seq<Entry>) {
    log == [] ||
    var before, last := log[..|log| - 1], log[|log| - 1];
    && WellBehaved(cfg, before)
    && match last
       case Saw(_, _) => true
       case Asked(n, token, _, _, _, _, _) => Spaced(cfg, PreviousAsk(before, n), last) && token !in Condemned(before, n)
       case Telemetry(n, dead, _, _) => dead in Condemned(before, n) && dead !in Reported(before, n)
  }

  // ── The invariant ─────────────────────────────────────────────────────────────────────────────

  predicate AttemptOk(mem: Memory, log: seq<Entry>, name: FamilyName) {
    var previous := PreviousAsk(log, name);
    if name in mem.lastAttempt
    then previous.Some? && mem.lastAttempt[name] == Attempt(previous.value.at, previous.value.transient)
    else previous.None?
  }

  function DeadTokens(mem: Memory, name: FamilyName): set<Token> {
    if name in mem.dead && mem.dead[name].token.Some? then {mem.dead[name].token.value} else {}
  }

  predicate DeadOk(mem: Memory, log: seq<Entry>, name: FamilyName) {
    Condemned(log, name) == Reported(log, name) <= DeadTokens(mem, name)
  }

  ghost predicate Kept(cfg: Config, mem: Memory, log: seq<Entry>) {
    && WellBehaved(cfg, log)
    && forall n :: AttemptOk(mem, log, n) && DeadOk(mem, log, n)
  }

  lemma Pushed(log: seq<Entry>, e: Entry)
    ensures (log + [e])[..|log + [e]| - 1] == log && (log + [e])[|log|] == e
  {
  }

  /** Reading a family: what the read no longer shows is no longer condemned. */
  lemma SawKeeps(cfg: Config, mem: Memory, log: seq<Entry>, name: FamilyName, seen: Option<Token>)
    requires Kept(cfg, mem, log)
    ensures Kept(cfg, mem, log + [Saw(name, seen)])
    ensures Condemned(log + [Saw(name, seen)], name) == (set t | t in Condemned(log, name) && seen == Some(t))
    ensures PreviousAsk(log + [Saw(name, seen)], name) == PreviousAsk(log, name)
  {
    var log' := log + [Saw(name, seen)];
    Pushed(log, Saw(name, seen));
    forall n ensures AttemptOk(mem, log', n) && DeadOk(mem, log', n) {
      assert AttemptOk(mem, log, n) && DeadOk(mem, log, n);
    }
  }

  /** Memory that differs only where nothing condemned is kept. */
  lemma DroppedMarkKeeps(cfg: Config, mem: Memory, mem': Memory, log: seq<Entry>, name: FamilyName)
    requires Kept(cfg, mem, log) && Condemned(log, name) == {}
    requires mem'.lastAttempt == mem.lastAttempt
    requires mem'.dead - {name} == mem.dead - {name}
    ensures Kept(cfg, mem', log)
  {
    forall n ensures AttemptOk(mem', log, n) && DeadOk(mem', log, n) {
      assert AttemptOk(mem, log, n) && DeadOk(mem, log, n);
      assert n != name ==> (n in mem.dead <==> n in mem.dead - {name});
      assert n != name ==> (n in mem'.dead <==> n in mem'.dead - {name});
      assert n != name && n in mem.dead ==> (mem.dead - {name})[n] == mem.dead[n];
      assert n != name && n in mem'.dead ==> (mem'.dead - {name})[n] == mem'.dead[n];
    }
  }

  /** What the gate does to the memory. */
  predicate GateShape(cfg: Config, mem0: Memory, name: FamilyName, snapshot: Family, now: int, g: Gate) {
    var marked := name in mem0.dead && mem0.dead[name].token == snapshot.refreshToken;
    && g.mem.pending == mem0.pending
    && (marked ==> g.Answered? && g.mem == mem0)
    && (!marked ==> g.mem.lastAttempt == mem0.lastAttempt && g.mem.dead - {name} == mem0.dead - {name})
    && (g.Proceed? ==>
          && name !in g.mem.dead
          && (name in mem0.lastAttempt ==> now - mem0.lastAttempt[name].at >= Window(cfg, mem0.lastAttempt[name])))
  }

  lemma GateValues(cfg: Config, mem0: Memory, sidecar: Sidecar, name: FamilyName, snapshot: Family, now: int)
    ensures
      var g := GateOf(cfg, mem0, sidecar, name, snapshot, now);
      && g.mem.lastAttempt == mem0.lastAttempt && g.mem.pending == mem0.pending
      && (if name in mem0.dead && mem0.dead[name].token == snapshot.refreshToken then g.Answered? && g.mem == mem0
          else g.mem.dead == if name in g.mem.dead then (mem0.dead - {name})[name := g.mem.dead[name]] else mem0.dead - {name})
      && (g.Proceed? ==>
            && name !in g.mem.dead
            && (name in mem0.lastAttempt ==> now - mem0.lastAttempt[name].at >= Window(cfg, mem0.lastAttempt[name])))
  {
    hide MatchIn, Window;
  }

  lemma GateHasShape(cfg: Config, mem0: Memory, sidecar: Sidecar, name: FamilyName, snapshot: Family, now: int)
    ensures GateShape(cfg, mem0, name, snapshot, now, GateOf(cfg, mem0, sidecar, name, snapshot, now))
  {
    GateValues(cfg, mem0, sidecar, name, snapshot, now);
    hide GateOf, Window;
    var g := GateOf(cfg, mem0, sidecar, name, snapshot, now);
    if !(name in mem0.dead && mem0.dead[name].token == snapshot.refreshToken) {
      MarkOf(mem0.dead, name, g.mem.dead);
    }
  }

  lemma MarkOf(dead: map<FamilyName, DeadMark>, name: FamilyName, dead': map<FamilyName, DeadMark>)
    requires dead' == if name in dead' then (dead - {name})[name := dead'[name]] else dead - {name}
    ensures dead' - {name} == dead - {name}
  {
  }

  /** After the gate nothing of the family is condemned any more, unless the in-memory mark answered. */
  lemma GateKeeps(cfg: Config, mem0: Memory, log0: seq<Entry>, name: FamilyName, snapshot: Family, now: int, g: Gate)
    requires Kept(cfg, mem0, log0) && GateShape(cfg, mem0, name, snapshot, now, g)
    ensures
      var log := log0 + [Saw(name, snapshot.refreshToken)];
      && Kept(cfg, g.mem, log)
      && (g.Proceed? ==> Open(cfg, g.mem, log, name) && MayAsk(cfg, g.mem, log, name, now, false))
  {
    var log := log0 + [Saw(name, snapshot.refreshToken)];
    SawKeeps(cfg, mem0, log0, name, snapshot.refreshToken);
    assert DeadOk(mem0, log0, name);
    if !(name in mem0.dead && mem0.dead[name].token == snapshot.refreshToken) {
      assert Condemned(log, name) == {};
      DroppedMarkKeeps(cfg, mem0, g.mem, log, name);
    }
  }

  /** Between the gate and the verdict, a call keeps this about its family. */
  ghost predicate Open(cfg: Config, mem: Memory, log: seq<Entry>, name: FamilyName) {
    Kept(cfg, mem, log) && Condemned(log, name) == {} && name !in mem.dead
  }

  predicate MayAsk(cfg: Config, mem: Memory, log: seq<Entry>, name: FamilyName, at: int, retry: bool) {
    if retry then PreviousAsk(log, name).Some? && PreviousAsk(log, name).value.transient && !PreviousAsk(log, name).value.retry
    else name in mem.lastAttempt ==> at - mem.lastAttempt[name].at >= Window(cfg, mem.lastAttempt[name])
  }

  /** The state after a network attempt: the invariant, or a verdict still to be dealt with. */
  ghost predicate Judged(cfg: Config, mem: Memory, log: seq<Entry>, name: FamilyName, token: Token) {
    && WellBehaved(cfg, log)
    && (forall n :: AttemptOk(mem, log, n))
    && (forall n :: n != name ==> DeadOk(mem, log, n))
    && Condemned(log, name) == {token} && Reported(log, name) == {} && name !in mem.dead
  }

  lemma AskedKeeps(cfg: Config, mem: Memory, mem': Memory, log: seq<Entry>, e: Entry)
    requires e.Asked? && Open(cfg, mem, log, e.name) && MayAsk(cfg, mem, log, e.name, e.at, e.retry)
    requires mem'.dead == mem.dead && mem'.lastAttempt == mem.lastAttempt[e.name := Attempt(e.at, e.transient)]
    ensures if e.verdict then Judged(cfg, mem', log + [e], e.name, e.token) else Open(cfg, mem', log + [e], e.name)
    ensures PreviousAsk(log + [e], e.name) == Some(e)
  {
    var log' := log + [e];
    Pushed(log, e);
    assert AttemptOk(mem, log, e.name) && DeadOk(mem, log, e.name);
    forall n ensures AttemptOk(mem', log', n) { assert AttemptOk(mem, log, n); }
    forall n | n != e.name || !e.verdict ensures DeadOk(mem', log', n) { assert DeadOk(mem, log, n); }
  }

  lemma SettleMemory(mem: Memory, name: FamilyName, ask: Ask, presented: string, result: RefreshResult, at: int)
    ensures
      var (m, settled) := Settle(mem, name, ask, presented, result, at);
      && m.dead == mem.dead
      && m.lastAttempt == mem.lastAttempt[name := Attempt(at, result.Failure? && result.transient)]
      && (settled.Condemned? ==> !m.lastAttempt[name].transient)
      && (settled.NotNow? ==> settled.transient == m.lastAttempt[name].transient)
  {
  }

  /** A critical section that only reads. */
  predicate OnlyReads(mem: Memory, s: Section, name: FamilyName) {
    && !s.outcome.InvalidGrant? && s.mem.dead == mem.dead && s.mem.lastAttempt == mem.lastAttempt
    && (s.outcome.Failed? ==> !s.outcome.transient)
    && (s.log == [] || (|s.log| == 1 && s.log[0] == Saw(name, RefreshTokenSeen(s.log[0]))))
  }

  function RefreshTokenSeen(e: Entry): Option<Token> {
    if e.Saw? then e.seen else None
  }

  lemma SectionOnlyReads(cfg: Config, mem: Memory, store: StoreState, name: FamilyName, snapshot: Family, e: AttemptEnv, retry: bool)
    requires !Decide(cfg, mem, e.found, name, snapshot, e.at).GoAsk?
    ensures OnlyReads(mem, CriticalSection(cfg, mem, store, name, snapshot, e, retry), name)
  {
  }

  lemma SectionAsks(cfg: Config, mem: Memory, store: StoreState, name: FamilyName, snapshot: Family, e: AttemptEnv, retry: bool)
    requires Decide(cfg, mem, e.found, name, snapshot, e.at).GoAsk?
    ensures
      var s := CriticalSection(cfg, mem, store, name, snapshot, e, retry);
      |s.log| == 2 && AskedIn(mem, s, name, e.at, retry, s.log[1])
  {
    var ask := Decide(cfg, mem, e.found, name, snapshot, e.at).ask;
    var last := LastAsked(|ask.candidates|, e.answers, 0);
    SettleMemory(mem, name, ask, ask.candidates[last], e.answers(last).result, e.at);
  }

  predicate AskedIn(mem: Memory, s: Section, name: FamilyName, at: int, retry: bool, asked: Entry) {
    && asked.Asked? && asked.name == name && asked.at == at && asked.retry == retry
    && s.log == [Saw(name, Some(asked.token)), asked]
    && s.mem.dead == mem.dead
    && s.mem.lastAttempt == mem.lastAttempt[name := Attempt(at, asked.transient)]
    && (asked.verdict <==> s.outcome.InvalidGrant?)
    && (asked.verdict ==> s.outcome.presented == asked.token)
    && (s.outcome.Failed? && s.outcome.transient ==> asked.transient)
  }

  lemma LastFailureIsFree(cfg: Config, mem: Memory, mem': Memory, log: seq<Entry>)
    requires Kept(cfg, mem, log) && mem'.dead == mem.dead && mem'.lastAttempt == mem.lastAttempt
    ensures Kept(cfg, mem', log)
  {
    forall n ensures AttemptOk(mem', log, n) && DeadOk(mem', log, n) {
      assert AttemptOk(mem, log, n) && DeadOk(mem, log, n);
    }
  }

  /** One locked attempt keeps the discipline and ends either open or with a verdict to deal with. */
  lemma AttemptKeeps(cfg: Config, mem: Memory, log: seq<Entry>, store: StoreState, name: FamilyName, snapshot: Family, e: AttemptEnv, retry: bool)
    requires Open(cfg, mem, log, name) && MayAsk(cfg, mem, log, name, e.at, retry)
    ensures
      var s := LockedAttempt(cfg, mem, store, name, snapshot, e, retry);
      && Ended(cfg, log, name, s)
      && (s.outcome.Failed? && s.outcome.transient ==>
            && PreviousAsk(log + s.log, name).Some?
            && PreviousAsk(log + s.log, name).value.transient && PreviousAsk(log + s.log, name).value.retry == retry)
  {
    var s := LockedAttempt(cfg, mem, store, name, snapshot, e, retry);
    if e.busy {
      assert log + s.log == log;
    } else {
      if Decide(cfg, mem, e.found, name, snapshot, e.at).GoAsk? {
        SectionAsks(cfg, mem, store, name, snapshot, e, retry);
        AskedEnds(cfg, mem, log, name, e.at, retry, s);
      } else {
        SectionOnlyReads(cfg, mem, store, name, snapshot, e, retry);
        ReadEnds(cfg, mem, log, name, s);
      }
    }
  }

  lemma ReadEnds(cfg: Config, mem: Memory, log: seq<Entry>, name: FamilyName, s: Section)
    requires Open(cfg, mem, log, name) && OnlyReads(mem, s, name)
    ensures Ended(cfg, log, name, s)
  {
    if s.log == [] {
      assert log + s.log == log;
    } else {
      SawKeeps(cfg, mem, log, name, s.log[0].seen);
      assert log + s.log == log + [s.log[0]];
    }
    LastFailureIsFree(cfg, mem, s.mem, log + s.log);
  }

  lemma AskedEnds(cfg: Config, mem: Memory, log: seq<Entry>, name: FamilyName, at: int, retry: bool, s: Section)
    requires Open(cfg, mem, log, name) && MayAsk(cfg, mem, log, name, at, retry)
    requires |s.log| == 2 && AskedIn(mem, s, name, at, retry, s.log[1])
    ensures Ended(cfg, log, name, s) && PreviousAsk(log + s.log, name) == Some(s.log[1])
  {
    var saw := Saw(name, Some(s.log[1].token));
    SawKeeps(cfg, mem, log, name, saw.seen);
    AskedKeeps(cfg, mem, s.mem, log + [saw], s.log[1]);
    assert log + s.log == log + [saw] + [s.log[1]];
  }

  /** The state an attempt may end in. */
  ghost predicate Ended(cfg: Config, log: seq<Entry>, name: FamilyName, s: Section) {
    if s.outcome.InvalidGrant? then Judged(cfg, s.mem, log + s.log, name, s.outcome.presented) else Open(cfg, s.mem, log + s.log, name)
  }

  lemma EndedTwice(cfg: Config, log: seq<Entry>, name: FamilyName, first: Section, second: Section)
    requires Ended(cfg, log + first.log, name, second)
    ensures Ended(cfg, log, name, second.(log := first.log + second.log))
  {
    assert log + (first.log + second.log) == log + first.log + second.log;
  }

  lemma AttemptsKeep(cfg: Config, mem: Memory, log: seq<Entry>, store: StoreState, name: FamilyName, snapshot: Family, retryTransient: bool, env: CallEnv)
    requires Open(cfg, mem, log, name) && MayAsk(cfg, mem, log, name, env.first.at, false)
    ensures Ended(cfg, log, name, Attempts(cfg, mem, store, name, snapshot, retryTransient, env))
  {
    var first := LockedAttempt(cfg, mem, store, name, snapshot, env.first, false);
    AttemptKeeps(cfg, mem, log, store, name, snapshot, env.first, false);
    if RetriesNow(first.outcome, retryTransient, env) {
      RetryKeeps(cfg, log, name, snapshot, env.second, first);
      EndedTwice(cfg, log, name, first, LockedAttempt(cfg, first.mem, first.store, name, snapshot, env.second, true));
    }
  }

  lemma RetryKeeps(cfg: Config, log: seq<Entry>, name: FamilyName, snapshot: Family, e: AttemptEnv, first: Section)
    requires Ended(cfg, log, name, first) && first.outcome.Failed? && first.outcome.transient
    requires MayAsk(cfg, first.mem, log + first.log, name, e.at, true)
    ensures Ended(cfg, log + first.log, name, LockedAttempt(cfg, first.mem, first.store, name, snapshot, e, true))
  {
    AttemptKeeps(cfg, first.mem, log + first.log, first.store, name, snapshot, e, true);
  }

  predicate Shown(here: Option<StoreState>, name: FamilyName) {
    here.Some? && here.value.Readable? && RefreshTokenIn(here.value, name).Some?
  }

  /** A verdict is dealt with: a token that moved is no longer condemned, one that stayed is marked and reported. */
  lemma VerdictKeeps(cfg: Config, s: Section, log: seq<Entry>, sidecar: Sidecar, name: FamilyName, env: CallEnv)
    requires s.outcome.InvalidGrant? && Judged(cfg, s.mem, log + s.log, name, s.outcome.presented)
    ensures Kept(cfg, AfterVerdict(cfg, s, sidecar, name, env).mem, log + AfterVerdict(cfg, s, sidecar, name, env).log)
  {
    var r := AfterVerdict(cfg, s, sidecar, name, env);
    var log0 := log + s.log;
    if !Shown(env.reRead, name) {
      Reports(cfg, s, log0, name, r.mem);
      assert log + r.log == log0 + [Telemetry(name, s.outcome.presented, s.outcome.code, s.outcome.description)];
    } else {
      var e := Saw(name, RefreshTokenIn(env.reRead.value, name));
      ReReads(cfg, s, log0, name, e.seen);
      if e.seen == Some(s.outcome.presented) {
        Reports(cfg, s, log0 + [e], name, r.mem);
        assert log + r.log == log0 + [e] + [Telemetry(name, s.outcome.presented, s.outcome.code, s.outcome.description)];
      } else {
        assert log + r.log == log0 + [e];
      }
    }
  }

  lemma ReReads(cfg: Config, s: Section, log: seq<Entry>, name: FamilyName, seen: Option<Token>)
    requires s.outcome.InvalidGrant? && Judged(cfg, s.mem, log, name, s.outcome.presented)
    ensures
      if seen == Some(s.outcome.presented) then Judged(cfg, s.mem, log + [Saw(name, seen)], name, s.outcome.presented)
      else Kept(cfg, s.mem, log + [Saw(name, seen)])
  {
    var log' := log + [Saw(name, seen)];
    Pushed(log, Saw(name, seen));
    forall n ensures AttemptOk(s.mem, log', n) && (n != name ==> DeadOk(s.mem, log', n)) {
      assert AttemptOk(s.mem, log, n) && (n != name ==> DeadOk(s.mem, log, n));
    }
  }

  lemma Reports(cfg: Config, s: Section, log: seq<Entry>, name: FamilyName, mem': Memory)
    requires s.outcome.InvalidGrant? && Judged(cfg, s.mem, log, name, s.outcome.presented)
    requires mem' == s.mem.(dead := s.mem.dead[name := DeadMark(DescribeFailure(s.outcome.code, s.outcome.description), Some(s.outcome.presented))])
    ensures Kept(cfg, mem', log + [Telemetry(name, s.outcome.presented, s.outcome.code, s.outcome.description)])
  {
    var event := Telemetry(name, s.outcome.presented, s.outcome.code, s.outcome.description);
    Pushed(log, event);
    forall n ensures AttemptOk(mem', log + [event], n) && DeadOk(mem', log + [event], n) {
      assert AttemptOk(s.mem, log, n) && (n != name ==> DeadOk(s.mem, log, n));
    }
  }

  /** What a call enters in the log once it is past the gate, and what it leaves in memory. */
  lemma PerformBehindGate(cfg: Config, past: Past, c: CallOf)
    ensures
      var g := GateOf(cfg, past.mem, c.sidecar, c.name, c.snapshot, c.env.now);
      var saw := [Saw(c.name, c.snapshot.refreshToken)];
      var s := Attempts(cfg, g.mem, c.store, c.name, c.snapshot, c.retryTransient, c.env);
      var done := s.(log := saw + s.log);
      Perform(cfg, past, c) ==
        if g.Answered? then Past(g.mem, past.log + saw)
        else if !s.outcome.InvalidGrant? then Past(s.mem, past.log + saw + s.log)
        else
          var r := AfterVerdict(cfg, done, c.sidecar, c.name, c.env);
          Past(r.mem, past.log + r.log)
  {
    hide GateOf, Attempts, AfterVerdict;
    var saw := [Saw(c.name, c.snapshot.refreshToken)];
    var g := GateOf(cfg, past.mem, c.sidecar, c.name, c.snapshot, c.env.now);
    var s := Attempts(cfg, g.mem, c.store, c.name, c.snapshot, c.retryTransient, c.env);
    assert past.log + (saw + s.log) == past.log + saw + s.log;
  }

  lemma EndedKeeps(cfg: Config, log: seq<Entry>, saw: seq<Entry>, s: Section, sidecar: Sidecar, name: FamilyName, env: CallEnv)
    requires Ended(cfg, log + saw, name, s)
    ensures !s.outcome.InvalidGrant? ==> Kept(cfg, s.mem, log + saw + s.log)
    ensures s.outcome.InvalidGrant? ==>
              var r := AfterVerdict(cfg, s.(log := saw + s.log), sidecar, name, env);
              Kept(cfg, r.mem, log + r.log)
  {
    hide AfterVerdict, Kept, Judged;
    assert log + (saw + s.log) == log + saw + s.log;
    if s.outcome.InvalidGrant? {
      VerdictKeeps(cfg, s.(log := saw + s.log), log, sidecar, name, env);
    }
  }

  lemma CallKeeps(cfg: Config, past: Past, c: CallOf)
    requires Kept(cfg, past.mem, past.log) && c.env.now <= c.env.first.at
    ensures Kept(cfg, Perform(cfg, past, c).mem, Perform(cfg, past, c).log)
  {
    hide GateOf, GateShape, Attempts, AfterVerdict, Kept, Condemned, Perform, Ended;
    var g := GateOf(cfg, past.mem, c.sidecar, c.name, c.snapshot, c.env.now);
    var saw := [Saw(c.name, c.snapshot.refreshToken)];
    GateHasShape(cfg, past.mem, c.sidecar, c.name, c.snapshot, c.env.now);
    GateKeeps(cfg, past.mem, past.log, c.name, c.snapshot, c.env.now, g);
    PerformBehindGate(cfg, past, c);
    if g.Proceed? {
      var s := Attempts(cfg, g.mem, c.store, c.name, c.snapshot, c.retryTransient, c.env);
      AttemptsKeep(cfg, g.mem, past.log + saw, c.store, c.name, c.snapshot, c.retryTransient, c.env);
      EndedKeeps(cfg, past.log, saw, s, c.sidecar, c.name, c.env);
    }
  }

  /**
   * Over any calls, in any environment whose clock does not run backwards within a call: attempts of a family
   * keep their distance, a condemned token is never presented again while the family still shows it, and
   * each such token was reported exactly once.
   */
  lemma {:induction false} NeverLoops(cfg: Config, calls: seq<CallOf>)
    requires ClockRuns(calls)
    ensures Kept(cfg, PerformAll(cfg, calls).mem, PerformAll(cfg, calls).log)
    ensures WellBehaved(cfg, PerformAll(cfg, calls).log)
    ensures forall n :: Condemned(PerformAll(cfg, calls).log, n) == Reported(PerformAll(cfg, calls).log, n)
  {
    if calls != [] {
      var n := |calls| - 1;
      NeverLoops(cfg, calls[..n]);
      assert calls[n].env.now <= calls[n].env.first.at;
      CallKeeps(cfg, PerformAll(cfg, calls[..n]), calls[n]);
    }
    var p := PerformAll(cfg, calls);
    forall n ensures Condemned(p.log, n) == Reported(p.log, n) { assert DeadOk(p.mem, p.log, n); }
  }

  // ── The discipline, entry by entry ────────────────────────────────────────────────────────────

  lemma {:induction false} WellBehavedPrefix(cfg: Config, log: seq<Entry>, j: nat)
    requires WellBehaved(cfg, log) && j <= |log|
    ensures WellBehaved(cfg, log[..j])
  {
    if j < |log| {
      WellBehavedPrefix(cfg, log[..|log| - 1], j);
      assert log[..|log| - 1][..j] == log[..j];
    } else {
      assert log[..j] == log;
    }
  }

  lemma {:induction false} PreviousAskIs(log: seq<Entry>, i: nat)
    requires i < |log| && log[i].Asked?
    requires forall k :: i < k < |log| && log[k].Asked? ==> log[k].name != log[i].name
    ensures PreviousAsk(log, log[i].name) == Some(log[i])
  {
    var n := |log| - 1;
    if i < n {
      assert forall k :: i < k < n ==> log[..n][k] == log[k];
      PreviousAskIs(log[..n], i);
    }
  }

  /** Two consecutive network attempts of a family in any run are a window apart, or the second is the prompt retry of a transient failure. */
  lemma AttemptsKeepTheirDistance(cfg: Config, calls: seq<CallOf>, i: nat, j: nat)
    requires ClockRuns(calls)
    requires
      var log := PerformAll(cfg, calls).log;
      && i < j < |log| && log[i].Asked? && log[j].Asked? && log[i].name == log[j].name
      && (forall k :: i < k < j && log[k].Asked? ==> log[k].name != log[i].name)
    ensures Spaced(cfg, Some(PerformAll(cfg, calls).log[i]), PerformAll(cfg, calls).log[j])
  {
    NeverLoops(cfg, calls);
    hide PerformAll, Kept, Spaced, Condemned, Reported;
    var log := PerformAll(cfg, calls).log;
    WellBehavedPrefix(cfg, log, j + 1);
    assert log[..j + 1][..j] == log[..j];
    assert forall k :: 0 <= k < j ==> log[..j][k] == log[k];
    PreviousAskIs(log[..j], i);
  }
}
