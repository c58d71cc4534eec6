/**
 * The provider object: its maps, the store and the sidecar it shares with other processes, updated in
 * place call by call, and the loop over candidate client ids.
 */
module MachineCredentialProvider {
  import opened Basics
  import opened MachineCredentials
  import opened TokenRefresher
  import opened DeadFamilyMemo
  import opened CredentialProvider
  import opened RenewedFamilies

  datatype Access =
    | Access(token: Token)
    | LoginRequired
    | LockBusy
    | Unreadable

  datatype Refreshing =
    | Served(document: Document)
    | Denied(why: Access)

  function Denial(outcome: Outcome): Access {
    match outcome
    case Busy => LockBusy
    case StoreUnreadable => Access.Unreadable
    case _ => LoginRequired
  }

  predicate Yields(outcome: Outcome) {
    outcome.Refreshed? || outcome.AdoptedPeer?
  }

  /** The token a proactive refresh ends with: the new one, else the current one while it lasts. */
  function AccessFrom(outcome: Outcome, current: Family, endAt: int): Access
    requires Truthy(current.accessToken)
  {
    if Yields(outcome) && Truthy(outcome.family.accessToken) then Access(outcome.family.accessToken.value)
    else if !IsExpired(current, endAt) then Access(current.accessToken.value)
    else Denial(outcome)
  }

  /** The document handed back shows the refreshed family at its top level, persisted or not. */
  function ServedDocument(outcome: Outcome, current: Document, name: FamilyName): Document
    requires Yields(outcome)
  {
    var inMemory := current.(families := Some(EffectiveFamilies(current)[name := outcome.family]));
    var d := if outcome.AdoptedPeer? then outcome.adopted else OrElse(outcome.document, inMemory);
    d.(accessToken := outcome.family.accessToken, refreshToken := outcome.family.refreshToken, expiresAt := outcome.family.expiresAt)
  }

  /** The outcome's document, if it has one, holds the outcome's family. */
  predicate Consistent(outcome: Outcome, name: FamilyName) {
    && (outcome.Refreshed? && outcome.document.Some? ==>
          EffectiveFamilies(outcome.document.value)[name := outcome.family] == EffectiveFamilies(outcome.document.value))
    && (outcome.AdoptedPeer? ==>
          EffectiveFamilies(outcome.adopted)[name := outcome.family] == EffectiveFamilies(outcome.adopted))
  }

  lemma AskServerIsConsistent(mem: Memory, store: StoreState, name: FamilyName, ask: Ask, e: AttemptEnv, retry: bool)
    requires ask.candidates != []
    ensures Consistent(CredentialProvider.AskServer(mem, store, name, ask, e, retry).outcome, name)
  {
    hide DescribeFailure, IsClientIdMismatch, IsVerdict;
    var outcome := CredentialProvider.AskServer(mem, store, name, ask, e, retry).outcome;
    if outcome.Refreshed? && outcome.document.Some? {
      FamilyWriteFrame(Current(store), name, outcome.family, NO_STAMP);
    }
  }

  lemma SectionIsConsistent(cfg: Config, mem: Memory, store: StoreState, name: FamilyName, snapshot: Family, e: AttemptEnv, retry: bool)
    ensures Consistent(CredentialProvider.LockedAttempt(cfg, mem, store, name, snapshot, e, retry).outcome, name)
  {
    hide CredentialProvider.AskServer, Candidates;
    var d := Decide(cfg, mem, e.found, name, snapshot, e.at);
    if d.GoAsk? {
      AskServerIsConsistent(mem, OrElse(e.found, store), name, d.ask, e, retry);
    }
  }

  lemma CallIsConsistent(cfg: Config, mem0: Memory, sidecar: Sidecar, store: StoreState, name: FamilyName, snapshot: Family,
    retryTransient: bool, env: CallEnv)
    ensures Consistent(CredentialProvider.RefreshFamily(cfg, mem0, sidecar, store, name, snapshot, retryTransient, env).outcome, name)
  {
    hide CredentialProvider.LockedAttempt;
    var g := GateOf(cfg, mem0, sidecar, name, snapshot, env.now);
    if g.Proceed? {
      var first := CredentialProvider.LockedAttempt(cfg, g.mem, store, name, snapshot, env.first, false);
      SectionIsConsistent(cfg, g.mem, store, name, snapshot, env.first, false);
      SectionIsConsistent(cfg, first.mem, first.store, name, snapshot, env.second, true);
    }
  }

  /** What `refresh` hands back: the refreshed tokens on top, and the same family among the document's families. */
  lemma ServedDocumentShowsTheRefreshedFamily(outcome: Outcome, current: Document, name: FamilyName)
    requires Yields(outcome) && Consistent(outcome, name)
    ensures
      var d := ServedDocument(outcome, current, name);
      && TopLevel(d) == Tokens(outcome.family)
      && (d.families.Some? ==> name in d.families.value && d.families.value[name] == outcome.family)
  {
  }

  // ── What the entry points answer ──────────────────────────────────────────────────────────────

  /** The family that serves a plane: the agent's except for the hub, and but for the agent plane the plugin's, then the legacy one. */
  predicate Serves(fs: Families, plane: Plane, name: FamilyName) {
    && name in fs
    && match name
       case Agent => !plane.Hub?
       case Plugin => !plane.AgentOnly? && (plane.Http? ==> Agent !in fs)
       case Legacy => !plane.AgentOnly? && (plane.Http? ==> Agent !in fs) && Plugin !in fs
       case Other(_) => false
  }

  lemma PlaneIsServed(d: Document, plane: Plane)
    ensures
      var served := ResolvePlane(d, plane);
      forall name :: Serves(EffectiveFamilies(d), plane, name) <==> served == Some(name)
  {
    hide EffectiveFamilies;
  }

  /** One of the call's reads shows a family of this name with this access token. */
  predicate HandedOver(name: FamilyName, env: CallEnv, token: Token) {
    || (exists f | f in ShownBy(env.first.found, name) :: f.accessToken == Some(token))
    || (exists f | f in ShownBy(env.second.found, name) :: f.accessToken == Some(token))
    || (exists f | f in ShownBy(env.reRead, name) :: f.accessToken == Some(token))
  }

  function ShownBy(found: Option<StoreState>, name: FamilyName): set<Family> {
    if found.Some? && found.value.Readable? && name in EffectiveFamilies(found.value.document)
    then {EffectiveFamilies(found.value.document)[name]} else {}
  }

  /** The token a call that is due for a refresh hands out, from the answer, the reads and the clock. */
  predicate TokenTells(name: FamilyName, current: Family, env: CallEnv, endAt: int, log: seq<Entry>, r: Access) {
    var lasts := current.expiresAt.None? || current.expiresAt.value > endAt;
    && (EndsAnswered(env, log) ==> r == Access(AnswerTo(AttemptOf(env, log[|log| - 1]), log[|log| - 1]).accessToken))
    && (r.Access? && !EndsAnswered(env, log) ==> (lasts && Some(r.token) == current.accessToken) || HandedOver(name, env, r.token))
    && (lasts ==> r.Access?)
    && (r.LockBusy? ==> env.first.busy || env.second.busy)
    && (r.Unreadable? ==> env.first.found == Some(StoreState.Unreadable) || env.second.found == Some(StoreState.Unreadable))
  }

  /** What the first look under the lock decides: a busy lock and an unreadable store are said to be that, a peer's fresh tokens are handed out. */
  predicate FirstLookTells(cfg: Config, mem: Memory, sidecar: Sidecar, name: FamilyName, current: Family, env: CallEnv, endAt: int, r: Access) {
    GoesOn(cfg, mem, sidecar, name, current, env.now) ==>
      var lasts := current.expiresAt.None? || current.expiresAt.value > endAt;
      && (env.first.busy && !lasts ==> r == LockBusy)
      && (!env.first.busy && env.first.found == Some(StoreState.Unreadable) && !lasts ==> r == Access.Unreadable)
      && (!env.first.busy && Adoptable(cfg, env.first.found, name, current, env.first.at) ==>
            r.Access? && Some(r.token) == EffectiveFamilies(env.first.found.value.document)[name].accessToken)
  }

  /** The token is presented a second time only where the caller cannot do without a new one, and there whenever it may. */
  predicate RetriesWhen(cfg: Config, name: FamilyName, f: Family, env: CallEnv, log: seq<Entry>, needed: bool) {
    && (SentAgain(log) ==> needed)
    && (needed && FailedForNow(env, log) && !env.abortedBeforeRetry && !env.second.busy && Presentable(cfg, env.second.found, name)
        && !Adoptable(cfg, env.second.found, name, f, env.second.at) ==>
          SentAgain(log))
  }

  lemma RetriesExactly(cfg: Config, name: FamilyName, f: Family, needed: bool, env: CallEnv, outcome: Outcome, log: seq<Entry>)
    requires RetryTells(cfg, name, f, needed, env, outcome, log)
    ensures RetriesWhen(cfg, name, f, env, log, needed)
  {
    hide SentAgain, FailedForNow, Adoptable, EffectiveFamilies;
  }

  lemma AccessTells(cfg: Config, mem: Memory, sidecar: Sidecar, store: StoreState, name: FamilyName, current: Family, env: CallEnv, endAt: int, c: Call)
    requires Truthy(current.accessToken) && CallTells(cfg, mem, sidecar, store, name, current, env, c)
    ensures TokenTells(name, current, env, endAt, c.log, AccessFrom(c.outcome, current, endAt))
    ensures FirstLookTells(cfg, mem, sidecar, name, current, env, endAt, AccessFrom(c.outcome, current, endAt))
  {
    hide GoesOn, EffectiveFamilies;
  }

  /** The answer of `GetAccessToken` on a document it could read: whose token, whether the network was used, and what came of it. */
  predicate GetTells(cfg: Config, mem: Memory, sidecar: Sidecar, plane: Plane, d: Document, env: CallEnv, endAt: int, log: seq<Entry>, r: Access) {
    var fs := EffectiveFamilies(d);
    && ((forall name :: name in fs ==> !Serves(fs, plane, name)) ==> r == LoginRequired && log == [])
    && forall name :: name in fs && Serves(fs, plane, name) ==> ServedFamilyTells(cfg, mem, sidecar, name, fs[name], env, endAt, log, r)
  }

  /** What `Refresh` answers for the family that serves the plane: the tokens of the answer, or of a peer, or why there are none. */
  predicate RefreshTells(cfg: Config, mem: Memory, sidecar: Sidecar, name: FamilyName, f: Family, env: CallEnv, log: seq<Entry>, r: Refreshing) {
    && (GoesOn(cfg, mem, sidecar, name, f, env.now) ==>
          && (env.first.busy ==> r == Denied(LockBusy))
          && (!env.first.busy && env.first.found == Some(StoreState.Unreadable) ==> r == Denied(Access.Unreadable)))
    && (EndsAnswered(env, log) ==>
          var asked := log[|log| - 1];
          var answer := AnswerTo(AttemptOf(env, asked), asked);
          && r.Served?
          && TopLevel(r.document) ==
               Triple(Some(answer.accessToken), if answer.refreshToken.Some? then answer.refreshToken else Some(asked.token), answer.expiresAt))
    && (r.Served? && !EndsAnswered(env, log) ==>
          exists g | g in ShownBy(env.first.found, name) + ShownBy(env.second.found, name) + ShownBy(env.reRead, name) :: TopLevel(r.document) == Tokens(g))
    && (r.Denied? ==> !r.why.Access?)
    && (r == Denied(LockBusy) ==> env.first.busy || env.second.busy)
    && (r == Denied(Access.Unreadable) ==> env.first.found == Some(StoreState.Unreadable) || env.second.found == Some(StoreState.Unreadable))
  }

  /** And on a whole document: nothing without a family that serves the plane, or one without a refresh token. */
  predicate AllTell(cfg: Config, mem: Memory, sidecar: Sidecar, plane: Plane, d: Document, env: CallEnv, log: seq<Entry>, r: Refreshing) {
    var fs := EffectiveFamilies(d);
    && ((forall name :: name in fs ==> !Serves(fs, plane, name)) ==> r == Denied(LoginRequired) && log == [])
    && forall name :: name in fs && Serves(fs, plane, name) ==>
         if !Truthy(fs[name].refreshToken) then r == Denied(LoginRequired) && log == [] else
           RefreshTells(cfg, mem, sidecar, name, fs[name], env, log, r) && RetriesWhen(cfg, name, fs[name], env, log, true)
  }

  lemma ServedTells(cfg: Config, mem: Memory, sidecar: Sidecar, store: StoreState, name: FamilyName, current: Family, env: CallEnv, c: Call, d: Document)
    requires CallTells(cfg, mem, sidecar, store, name, current, env, c)
    requires Yields(c.outcome) ==> TopLevel(d) == Tokens(c.outcome.family)
    ensures RefreshTells(cfg, mem, sidecar, name, current, env, c.log, if Yields(c.outcome) then Served(d) else Denied(Denial(c.outcome)))
  {
    hide GoesOn, EffectiveFamilies;
    if c.outcome.AdoptedPeer? {
      assert c.outcome.family in ShownBy(env.first.found, name) + ShownBy(env.second.found, name) + ShownBy(env.reRead, name);
    }
  }

  predicate ServedFamilyTells(cfg: Config, mem: Memory, sidecar: Sidecar, name: FamilyName, f: Family, env: CallEnv, endAt: int, log: seq<Entry>, r: Access) {
    if !Truthy(f.accessToken) then r == LoginRequired && log == []
    else if f.expiresAt.None? || f.expiresAt.value - env.now > cfg.skewMs then r == Access(f.accessToken.value) && log == []
    else
      && TokenTells(name, f, env, endAt, log, r) && FirstLookTells(cfg, mem, sidecar, name, f, env, endAt, r)
      && RetriesWhen(cfg, name, f, env, log, f.expiresAt.value <= env.now)
  }

  /** What a section does on a store that could be read, by the decision it takes there. */
  lemma SectionByDecision(cfg: Config, mem: Memory, state: StoreState, name: FamilyName, snapshot: Family, e: AttemptEnv, retry: bool)
    requires e.found == Some(state) && !state.Unreadable?
    ensures
      var saw := [Saw(name, RefreshTokenIn(state, name))];
      CredentialProvider.CriticalSection(cfg, mem, state, name, snapshot, e, retry) ==
        match Decide(cfg, mem, Some(state), name, snapshot, e.at)
        case Adopt(family, document) => Section(mem, state, AdoptedPeer(family, document), saw)
        case Refuse(reason) => Section(mem.(lastFailure := Some(reason)), state, Failed(reason, false), saw)
        case GoAsk(ask) =>
          var net := CredentialProvider.AskServer(mem, state, name, ask, e, retry);
          net.(log := saw + net.log)
        case _ => Section(mem, state, StoreUnreadable, saw)
  {
    hide CredentialProvider.AskServer, Candidates, FamilyIn, RefreshTokenIn;
    DecidesOnReadable(cfg, mem, state, name, snapshot, e.at);
    hide Decide;
  }

  lemma DecidesOnReadable(cfg: Config, mem: Memory, state: StoreState, name: FamilyName, snapshot: Family, now: int)
    requires !state.Unreadable?
    ensures
      var d := Decide(cfg, mem, Some(state), name, snapshot, now);
      !d.ReadFailed? && !d.FoundUnreadable?
  {
    hide Candidates, FamilyIn;
  }

  class Provider {
    const cfg: Config
    const store: MachineCredentialStore
    const sidecar: PersistedDeadFamilyMemo
    var lastAttempt: map<FamilyName, Attempt>
    var deadFamilies: map<FamilyName, DeadMark>
    var transientClientIds: map<FamilyName, Pending>
    var lastFailureReason: Option<string>
    var log: seq<Entry>

    constructor (cfg: Config, store: MachineCredentialStore, sidecar: PersistedDeadFamilyMemo)
      ensures this.cfg == cfg && this.store == store && this.sidecar == sidecar
      ensures Memory() == NO_MEMORY && log == []
    {
      this.cfg, this.store, this.sidecar := cfg, store, sidecar;
      lastAttempt, deadFamilies, transientClientIds, lastFailureReason, log := map[], map[], map[], None, [];
    }

    function Memory(): Memory
      reads this
    {
      CredentialProvider.Memory(lastAttempt, deadFamilies, transientClientIds, lastFailureReason)
    }

    /** Between two looks of this provider, other processes may have replaced the store. */
    method PeersLeave(found: Option<StoreState>)
      modifies store
      ensures store.file == OrElse(found, old(store.file))
    {
      if found.Some? { store.file := found.value; }
    }

    /** Present the token under one candidate after another until an answer is more than a client mismatch. */
    method Present(candidates: seq<string>, answers: nat -> Answer) returns (result: RefreshResult, last: nat)
      requires candidates != []
      ensures last == LastAsked(|candidates|, answers, 0) && result == answers(last).result
    {
      last := 0;
      while last + 1 < |candidates| && IsClientIdMismatch(answers(last).result) && !answers(last).overBudget
        invariant last < |candidates|
        invariant LastAsked(|candidates|, answers, last) == LastAsked(|candidates|, answers, 0)
      {
        last := last + 1;
      }
      result := answers(last).result;
    }

    method CriticalSection(name: FamilyName, snapshot: Family, e: AttemptEnv, retry: bool) returns (outcome: Outcome)
      modifies this, store
      ensures sidecar.file == old(sidecar.file)
      ensures
        var s := CredentialProvider.CriticalSection(cfg, old(Memory()), old(store.file), name, snapshot, e, retry);
        Memory() == s.mem && store.file == s.store && outcome == s.outcome && log == old(log) + s.log
    {
      hide CredentialProvider.AskServer, CredentialProvider.Candidates, FamilyIn, RefreshTokenIn, StoredClientId, ShouldRefresh, EffectiveFamilies, Trim;
      PeersLeave(e.found);
      if e.found.None? { return Failed("read failed", false); }
      var state := store.ReadState();
      if state.Unreadable? { return StoreUnreadable; }
      outcome := OnStore(name, snapshot, state, e, retry);
    }

    /** The section's decision on a store that could be read. */
    method OnStore(name: FamilyName, snapshot: Family, state: StoreState, e: AttemptEnv, retry: bool) returns (outcome: Outcome)
      requires e.found == Some(state) && !state.Unreadable? && store.file == state
      modifies this, store
      ensures sidecar.file == old(sidecar.file)
      ensures
        var s := CredentialProvider.CriticalSection(cfg, old(Memory()), state, name, snapshot, e, retry);
        Memory() == s.mem && store.file == s.store && outcome == s.outcome && log == old(log) + s.log
    {
      hide CredentialProvider.AskServer, CredentialProvider.Candidates, FamilyIn, StoredClientId, ShouldRefresh, EffectiveFamilies, Trim;
      SectionByDecision(cfg, Memory(), state, name, snapshot, e, retry);
      hide CredentialProvider.CriticalSection, RefreshTokenIn;
      var family := FamilyIn(state, name);
      log := log + [Saw(name, RefreshTokenIn(state, name))];
      if family.Some? && Truthy(family.value.accessToken) && family.value.accessToken != snapshot.accessToken {
        if !ShouldRefresh(cfg, family.value, e.at) || family.value.expiresAt.None? {
          return AdoptedPeer(family.value, Current(state));
        }
      }
      if family.None? || !Truthy(family.value.refreshToken) {
        lastFailureReason := Some("no refresh token");
        return Failed("no refresh token", false);
      }
      var refreshToken := family.value.refreshToken.value;
      var clientId := OrElse(StoredClientId(family.value), OrElse(cfg.defaultClientId, ""));
      if clientId == "" {
        lastFailureReason := Some("no client id");
        return Failed("no client id", false);
      }
      var candidates := Candidates(cfg, Memory(), name, family.value, refreshToken, clientId);
      outcome := AskServer(name, Ask(family.value, refreshToken, clientId, candidates), e, retry);
    }

    /** What the last answer does to the provider's maps. */
    method Settle(name: FamilyName, ask: Ask, presented: string, result: RefreshResult, at: int) returns (settled: Settlement)
      modifies this`lastAttempt, this`transientClientIds, this`lastFailureReason
      ensures (Memory(), settled) == CredentialProvider.Settle(old(Memory()), name, ask, presented, result, at)
      ensures settled.Rotated? <==> result.Success? && result.accessToken.Tok?
      ensures settled.Rotated? ==>
                && Tokens(settled.family) ==
                     Triple(Some(result.accessToken), if result.refreshToken.Some? then result.refreshToken else Some(ask.token), result.expiresAt)
                && settled.family.clientId == (if presented == ask.clientId then ask.family.clientId else Some(presented))
                && settled.family.scope == ask.family.scope && settled.family.extra == ask.family.extra
      ensures settled.Condemned? <==> IsVerdict(result)
    {
      var transient := result.Failure? && result.transient;
      lastAttempt := lastAttempt[name := Attempt(at, transient)];
      if transient {
        transientClientIds := transientClientIds[name := Pending(ask.token, presented)];
      } else {
        transientClientIds := transientClientIds - {name};
      }
      if result.Failure? {
        lastFailureReason := Some(DescribeFailure(result.reason, result.description));
        if IsVerdict(result) { return Condemned(result.reason, result.description); }
        if IsClientIdMismatch(result) {
          lastFailureReason := Some("other application: " + lastFailureReason.value);
        }
        return NotNow(lastFailureReason.value, transient);
      }
      if result.accessToken.Blank? {
        lastFailureReason := Some("empty access token");
        return NotNow("empty access token", false);
      }
      var rotated := ask.family.(
        accessToken := Some(result.accessToken),
        refreshToken := Some(OrElse(result.refreshToken, ask.token)),
        expiresAt := result.expiresAt);
      if presented != ask.clientId { rotated := rotated.(clientId := Some(presented)); }
      return Rotated(rotated);
    }

    method Persist(name: FamilyName, rotated: Family, corrupted: bool, diskFails: bool) returns (document: Option<Document>)
      modifies store
      ensures (store.file, document) == CredentialProvider.Persist(old(store.file), name, rotated, corrupted, diskFails)
    {
      if corrupted { store.file := StoreState.Unreadable; }
      if diskFails { return None; }
      var written := store.WriteFamily(name, rotated, NO_STAMP, false);
      return if written.Written? then Some(written.document) else None;
    }

    method AskServer(name: FamilyName, ask: Ask, e: AttemptEnv, retry: bool) returns (outcome: Outcome)
      requires ask.candidates != []
      modifies this, store
      ensures deadFamilies == old(deadFamilies)
      ensures
        var s := CredentialProvider.AskServer(old(Memory()), old(store.file), name, ask, e, retry);
        Memory() == s.mem && store.file == s.store && outcome == s.outcome && log == old(log) + s.log
    {
      var result, last := Present(ask.candidates, e.answers);
      var settled := Settle(name, ask, ask.candidates[last], result, e.at);
      log := log + [Asked(name, ask.token, e.at, ask.candidates[..last + 1], lastAttempt[name].transient, settled.Condemned?, retry)];
      match settled
      case Rotated(family) =>
        var document := Persist(name, family, e.corrupted, e.diskFails);
        return Refreshed(family, document);
      case Condemned(code, description) => return InvalidGrant(code, description, ask.token);
      case NotNow(reason, transient) => return Failed(reason, transient);
    }

    method LockedAttempt(name: FamilyName, snapshot: Family, e: AttemptEnv, retry: bool) returns (outcome: Outcome)
      modifies this, store
      ensures sidecar.file == old(sidecar.file)
      ensures
        var s := CredentialProvider.LockedAttempt(cfg, old(Memory()), old(store.file), name, snapshot, e, retry);
        Memory() == s.mem && store.file == s.store && outcome == s.outcome && log == old(log) + s.log
      ensures AttemptTells(cfg, old(Memory()), name, snapshot, e, retry, Section(Memory(), store.file, outcome, log[|old(log)|..]))
    {
      AttemptMeans(cfg, Memory(), store.file, name, snapshot, e, retry);
      hide AttemptTells, CredentialProvider.CriticalSection;
      if e.busy { return Busy; }
      outcome := CriticalSection(name, snapshot, e, retry);
    }

    method MarkFamilyDead(name: FamilyName, code: string, description: Option<string>, token: Token, env: CallEnv) returns (detail: string)
      modifies this, sidecar
      ensures detail == DescribeFailure(code, description)
      ensures
        var (m, sc, events) := CredentialProvider.MarkFamilyDead(cfg, old(Memory()), old(sidecar.file), name, code, description, token, env);
        Memory() == m && sidecar.file == sc && log == old(log) + events
    {
      detail := DescribeFailure(code, description);
      if name in deadFamilies { return; }
      deadFamilies := deadFamilies[name := DeadMark(detail, Some(token))];
      if cfg.persistMemo { sidecar.Write(Verdict(token, detail, env.directoryExists, env.memoDiskFails)); }
      log := log + [Telemetry(name, token, code, description)];
    }

    /** A whole refresh call: its outcome, its store and its log are those `CallTells` describes. */
    method RefreshFamily(name: FamilyName, snapshot: Family, retryTransient: bool, env: CallEnv) returns (outcome: Outcome, ghost call: Call)
      modifies this, store, sidecar
      ensures call == CredentialProvider.RefreshFamily(
                        cfg, old(Memory()), old(sidecar.file), old(store.file), name, snapshot, retryTransient, env)
      ensures Memory() == call.mem && sidecar.file == call.sidecar && store.file == call.store
      ensures outcome == call.outcome && log == old(log) + call.log
      ensures CallTells(cfg, old(Memory()), old(sidecar.file), old(store.file), name, snapshot, env, call)
      ensures RetryTells(cfg, name, snapshot, retryTransient, env, outcome, call.log)
    {
      hide CredentialProvider.RefreshFamily, CallTells, RetryTells;
      RetryMeans(cfg, Memory(), sidecar.file, store.file, name, snapshot, retryTransient, env);
      call := CredentialProvider.RefreshFamily(cfg, Memory(), sidecar.file, store.file, name, snapshot, retryTransient, env);
      CallMeans(cfg, Memory(), sidecar.file, store.file, name, snapshot, retryTransient, env);
      outcome := RefreshByRules(name, snapshot, retryTransient, env);
    }

    /** Dead mark, rate window, sidecar, locked attempt, one prompt retry, and the re-read after a verdict. */
    method RefreshByRules(name: FamilyName, snapshot: Family, retryTransient: bool, env: CallEnv) returns (outcome: Outcome)
      modifies this, store, sidecar
      ensures
        var c := CredentialProvider.RefreshFamily(
                   cfg, old(Memory()), old(sidecar.file), old(store.file), name, snapshot, retryTransient, env);
        && Memory() == c.mem && sidecar.file == c.sidecar && store.file == c.store
        && outcome == c.outcome && log == old(log) + c.log
    {
      hide CredentialProvider.Attempts, CredentialProvider.AfterVerdict;
      log := log + [Saw(name, snapshot.refreshToken)];
      ghost var gate := GateOf(cfg, Memory(), sidecar.file, name, snapshot, env.now);
      if name in deadFamilies {
        if deadFamilies[name].token == snapshot.refreshToken { return FamilyDead(deadFamilies[name].reason); }
      }
      deadFamilies := deadFamilies - {name};
      if name in lastAttempt && env.now - lastAttempt[name].at < Window(cfg, lastAttempt[name]) {
        return Failed(
            OrElse(lastFailureReason, "attempted already"),
            lastAttempt[name].transient);
      }
      if cfg.persistMemo && snapshot.refreshToken.Some? {
        var recorded := sidecar.Match(snapshot.refreshToken.value);
        if recorded.Some? {
          var reason := if recorded.value == "" then INVALID_GRANT else recorded.value;
          deadFamilies := deadFamilies[name := DeadMark(reason, snapshot.refreshToken)];
          return FamilyDead(reason);
        }
      }
      assert gate == Proceed(Memory());
      ghost var s := Attempts(cfg, Memory(), store.file, name, snapshot, retryTransient, env);
      outcome := AttemptAndRetry(name, snapshot, retryTransient, env);
      ghost var saw := [Saw(name, snapshot.refreshToken)];
      assert log == old(log) + (saw + s.log);
      if !outcome.InvalidGrant? { return; }
      AfterVerdictOnLongerLog(cfg, s.(log := saw + s.log), old(log), sidecar.file, name, env);
      outcome := AfterVerdict(name, outcome, env);
    }

    method AttemptAndRetry(name: FamilyName, snapshot: Family, retryTransient: bool, env: CallEnv) returns (outcome: Outcome)
      modifies this, store
      ensures sidecar.file == old(sidecar.file)
      ensures
        var s := Attempts(cfg, old(Memory()), old(store.file), name, snapshot, retryTransient, env);
        Memory() == s.mem && store.file == s.store && outcome == s.outcome && log == old(log) + s.log
    {
      ghost var s := CredentialProvider.LockedAttempt(cfg, Memory(), store.file, name, snapshot, env.first, false);
      ghost var log0 := log;
      var first := LockedAttempt(name, snapshot, env.first, false);
      outcome := Retry(name, snapshot, retryTransient, env, first, s, log0);
    }

    method Retry(name: FamilyName, snapshot: Family, retryTransient: bool, env: CallEnv, first: Outcome, ghost s: Section, ghost log0: seq<Entry>)
      returns (outcome: Outcome)
      requires Memory() == s.mem && store.file == s.store && first == s.outcome && log == log0 + s.log
      modifies this, store
      ensures sidecar.file == old(sidecar.file)
      ensures
        var r := Retried(cfg, s, name, snapshot, retryTransient, env);
        Memory() == r.mem && store.file == r.store && outcome == r.outcome && log == log0 + r.log
    {
      hide CredentialProvider.LockedAttempt;
      if retryTransient && first.Failed? && first.transient && !env.abortedBeforeRetry {
        outcome := LockedAttempt(name, snapshot, env.second, true);
      } else {
        outcome := first;
      }
    }

    method AfterVerdict(name: FamilyName, verdict: Outcome, env: CallEnv) returns (outcome: Outcome)
      requires verdict.InvalidGrant?
      modifies this, store, sidecar
      ensures
        var c := CredentialProvider.AfterVerdict(
                   cfg, Section(old(Memory()), old(store.file), verdict, old(log)), old(sidecar.file), name, env);
        Memory() == c.mem && sidecar.file == c.sidecar && store.file == c.store && outcome == c.outcome && log == c.log
    {
      PeersLeave(env.reRead);
      if env.reRead.Some? && store.file.Readable? {
        var family := FamilyIn(store.file, name);
        if family.Some? && family.value.refreshToken.Some? {
          log := log + [Saw(name, family.value.refreshToken)];
          if family.value.refreshToken != Some(verdict.presented) { return AdoptedPeer(family.value, store.file.document); }
        }
      }
      var reason := MarkFamilyDead(name, verdict.code, verdict.description, verdict.presented, env);
      outcome := FamilyDead(reason);
    }

    /**
     * The entry point for a valid access token: no network while the token is fresh, one refresh call when
     * it is not, and never a refusal while the current token still lasts.
     */
    method GetAccessToken(plane: Plane, found: Option<StoreState>, env: CallEnv, endAt: int) returns (r: Access)
      modifies this, store, sidecar
      ensures found.None? || !found.value.Readable? ==> r == LoginRequired && Memory() == old(Memory()) && log == old(log)
      ensures found.Some? && found.value.Readable? ==>
                var d := found.value.document;
                var name := ResolvePlane(d, plane);
                if name.None? || !Truthy(EffectiveFamilies(d)[name.value].accessToken) then
                  r == LoginRequired && Memory() == old(Memory()) && log == old(log)
                else
                  var current := EffectiveFamilies(d)[name.value];
                  if !ShouldRefresh(cfg, current, env.now) then
                    r == Access(current.accessToken.value) && Memory() == old(Memory()) && log == old(log)
                  else
                    var c := CredentialProvider.RefreshFamily(
                               cfg, old(Memory()), old(sidecar.file), found.value, name.value, current, IsExpired(current, env.now), env);
                    && r == AccessFrom(c.outcome, current, endAt)
                    && Memory() == c.mem && log == old(log) + c.log && store.file == c.store
      ensures found.Some? && found.value.Readable? ==>
                GetTells(cfg, old(Memory()), old(sidecar.file), plane, found.value.document, env, endAt, log[|old(log)|..], r)
    {
      hide CredentialProvider.RefreshFamily, CallTells, TokenTells, FirstLookTells, RetryTells, RetriesWhen, EffectiveFamilies;
      ghost var before, memo := Memory(), sidecar.file;
      if found.Some? && found.value.Readable? { PlaneIsServed(found.value.document, plane); }
      PeersLeave(found);
      if found.None? { return LoginRequired; }
      var state := store.ReadState();
      if !state.Readable? { return LoginRequired; }
      var name := ResolvePlane(state.document, plane);
      if name.None? { return LoginRequired; }
      var current := EffectiveFamilies(state.document)[name.value];
      if !Truthy(current.accessToken) { return LoginRequired; }
      if !ShouldRefresh(cfg, current, env.now) { return Access(current.accessToken.value); }
      ghost var log0 := log;
      var outcome, call := RefreshFamily(name.value, current, IsExpired(current, env.now), env);
      assert log[|log0|..] == call.log;
      AccessTells(cfg, before, memo, state, name.value, current, env, endAt, call);
      RetriesExactly(cfg, name.value, current, IsExpired(current, env.now), env, outcome, call.log);
      if Yields(outcome) && Truthy(outcome.family.accessToken) { return Access(outcome.family.accessToken.value); }
      if !IsExpired(current, endAt) { return Access(current.accessToken.value); }
      return Denial(outcome);
    }

    /** The reactive entry point after a server 401. */
    method Refresh(plane: Plane, found: Option<StoreState>, env: CallEnv) returns (r: Refreshing)
      modifies this, store, sidecar
      ensures found.Some? && found.value.Readable? ==>
                var d := found.value.document;
                var name := ResolvePlane(d, plane);
                if name.None? || !Truthy(EffectiveFamilies(d)[name.value].refreshToken) then
                  r == Denied(LoginRequired) && Memory() == old(Memory()) && log == old(log)
                else
                  var current := EffectiveFamilies(d)[name.value];
                  var c := CredentialProvider.RefreshFamily(
                             cfg, old(Memory()), old(sidecar.file), found.value, name.value, current, true, env);
                  && (r.Served? <==> Yields(c.outcome))
                  && (r.Served? ==> TopLevel(r.document) == Tokens(c.outcome.family))
                  && (r.Denied? ==> r.why == Denial(c.outcome))
                  && Memory() == c.mem && log == old(log) + c.log && store.file == c.store
      ensures found.None? || !found.value.Readable? ==> r == Denied(LoginRequired) && Memory() == old(Memory()) && log == old(log)
      ensures found.Some? && found.value.Readable? ==> AllTell(cfg, old(Memory()), old(sidecar.file), plane, found.value.document, env, log[|old(log)|..], r)
    {
      hide CredentialProvider.RefreshFamily, CallTells, RefreshTells, RetryTells, RetriesWhen, EffectiveFamilies;
      ghost var before, memo := Memory(), sidecar.file;
      if found.Some? && found.value.Readable? { PlaneIsServed(found.value.document, plane); }
      PeersLeave(found);
      if found.None? { return Denied(LoginRequired); }
      var state := store.ReadState();
      if !state.Readable? { return Denied(LoginRequired); }
      var name := ResolvePlane(state.document, plane);
      if name.None? { return Denied(LoginRequired); }
      var current := EffectiveFamilies(state.document)[name.value];
      if !Truthy(current.refreshToken) { return Denied(LoginRequired); }
      CallIsConsistent(cfg, Memory(), sidecar.file, store.file, name.value, current, true, env);
      ghost var log0 := log;
      var outcome, call := RefreshFamily(name.value, current, true, env);
      assert log[|log0|..] == call.log;
      ghost var served := if Yields(outcome) then ServedDocument(outcome, state.document, name.value) else EMPTY;
      ServedTells(cfg, before, memo, state, name.value, current, env, call, served);
      RetriesExactly(cfg, name.value, current, true, env, outcome, call.log);
      if Yields(outcome) {
        ServedDocumentShowsTheRefreshedFamily(outcome, state.document, name.value);
        return Served(ServedDocument(outcome, state.document, name.value));
      }
      return Denied(Denial(outcome));
    }
  }
}
