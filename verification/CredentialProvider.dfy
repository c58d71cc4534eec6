/**
 * The refresh machine of one provider: which family serves a request, when a refresh goes to the
 * network, under which client ids a token is presented, and what each answer does to the provider's
 * memory, the store and the shared sidecar.
 *
 * A call's environment (what the store holds whenever it is read, the clock, the answers of the token
 * endpoint, disk and lock failures) is a value the specification functions take as a parameter.
 */
module CredentialProvider {
  import opened Basics
  import opened MachineCredentials
  import opened TokenRefresher
  import opened DeadFamilyMemo

  const TRANSIENT_REFRESH_COOLDOWN_MS: int := 5_000
  const ENROLL_CLIENT_ID := "agd_enroll"

  // ── Client ids ────────────────────────────────────────────────────────────────────────────────

  function Kept(ids: seq<string>, without: Option<string>): seq<string> {
    if ids == [] then []
    else
      var rest, last := Kept(ids[..|ids| - 1], without), ids[|ids| - 1];
      if last in rest || Trim(last) == "" || Some(last) == without then rest else rest + [last]
  }

  /** The default client's sibling plugin first, then the enroll client, then the rest, each only when listed. */
  function OrderFallbackClientIds(ids: seq<string>, defaultClientId: Option<string>, sibling: Option<string>): seq<string> {
    var first := if sibling.Some? && sibling.value in ids then [sibling.value] else [];
    var second := if ENROLL_CLIENT_ID in ids then [ENROLL_CLIENT_ID] else [];
    Kept(first + second + ids, defaultClientId)
  }

  lemma {:induction false} KeptMembers(ids: seq<string>, without: Option<string>)
    ensures forall id :: id in Kept(ids, without) <==> id in ids && Trim(id) != "" && Some(id) != without
    ensures forall i, j :: 0 <= i < j < |Kept(ids, without)| ==> Kept(ids, without)[i] != Kept(ids, without)[j]
  {
    if ids != [] {
      KeptMembers(ids[..|ids| - 1], without);
      assert ids == ids[..|ids| - 1] + [ids[|ids| - 1]];
    }
  }

  lemma {:induction false} KeptStartsWith(ids: seq<string>, more: seq<string>, without: Option<string>)
    ensures Kept(ids, without) <= Kept(ids + more, without)
  {
    if more == [] {
      assert ids + more == ids;
    } else {
      KeptStartsWith(ids, more[..|more| - 1], without);
      assert (ids + more)[..|ids + more| - 1] == ids + more[..|more| - 1];
    }
  }

  lemma KeptOfOne(id: string, without: Option<string>)
    ensures Kept([id], without) == if Trim(id) != "" && Some(id) != without then [id] else []
  {
    assert [id][..0] == [];
  }

  /** The fallback list holds exactly the usable ids, each once, and never the default. */
  lemma FallbackMembers(ids: seq<string>, defaultClientId: Option<string>, sibling: Option<string>)
    ensures
      var order := OrderFallbackClientIds(ids, defaultClientId, sibling);
      && (forall id :: id in order <==> id in ids && Trim(id) != "" && Some(id) != defaultClientId)
      && (forall i, j :: 0 <= i < j < |order| ==> order[i] != order[j])
  {
    var first := if sibling.Some? && sibling.value in ids then [sibling.value] else [];
    var second := if ENROLL_CLIENT_ID in ids then [ENROLL_CLIENT_ID] else [];
    KeptMembers(first + second + ids, defaultClientId);
  }

  /** When it is usable the default's sibling plugin comes first, and the enroll client first or right behind it. */
  lemma FallbackOrder(ids: seq<string>, defaultClientId: Option<string>, sibling: Option<string>)
    ensures
      var order := OrderFallbackClientIds(ids, defaultClientId, sibling);
      && (sibling.Some? && sibling.value in order ==> order[0] == sibling.value)
      && (ENROLL_CLIENT_ID in order ==>
            || order[0] == ENROLL_CLIENT_ID
            || (sibling.Some? && |order| > 1 && order[0] == sibling.value && order[1] == ENROLL_CLIENT_ID))
  {
    FallbackMembers(ids, defaultClientId, sibling);
    var first := if sibling.Some? && sibling.value in ids then [sibling.value] else [];
    var second := if ENROLL_CLIENT_ID in ids then [ENROLL_CLIENT_ID] else [];
    KeptStartsWith(first + second, ids, defaultClientId);
    if first != [] { KeptOfOne(first[0], defaultClientId); }
    if second != [] {
      KeptOfOne(ENROLL_CLIENT_ID, defaultClientId);
      KeptAppend(first, ENROLL_CLIENT_ID, defaultClientId);
    } else {
      assert first + second == first;
    }
    if first == [] { assert first + second == second; }
  }

  lemma KeptAppend(ids: seq<string>, id: string, without: Option<string>)
    ensures
      var rest := Kept(ids, without);
      Kept(ids + [id], without) == if id in rest || Trim(id) == "" || Some(id) == without then rest else rest + [id]
  {
    assert (ids + [id])[..|ids|] == ids;
  }

  // ── Configuration, memory and outcomes ────────────────────────────────────────────────────────

  datatype Config = Config(skewMs: int, defaultClientId: Option<string>, fallbackClientIds: seq<string>, persistMemo: bool)

  datatype Attempt = Attempt(at: int, transient: bool)
  datatype DeadMark = DeadMark(reason: string, token: Option<Token>)
  datatype Pending = Pending(token: Token, clientId: string)

  datatype Memory = Memory(
    lastAttempt: map<FamilyName, Attempt>,
    dead: map<FamilyName, DeadMark>,
    pending: map<FamilyName, Pending>,
    lastFailure: Option<string>)

  const NO_MEMORY := Memory(map[], map[], map[], None)

  datatype Outcome =
    | Refreshed(family: Family, document: Option<Document>)
    | AdoptedPeer(family: Family, adopted: Document)
    | InvalidGrant(code: string, description: Option<string>, presented: Token)
    | FamilyDead(reason: string)
    | Busy
    | StoreUnreadable
    | Failed(reason: string, transient: bool)

  /**
   * What a provider reads, presents and declares dead. A read is entered when the provider acts on what
   * it shows: the caller's snapshot, the re-read under the lock, and a token shown by the re-read after a
   * terminal verdict.
   */
  datatype Entry =
    | Saw(name: FamilyName, seen: Option<Token>)
    | Asked(name: FamilyName, token: Token, at: int, presented: seq<string>, transient: bool, verdict: bool, retry: bool)
    | Telemetry(name: FamilyName, dead: Token, code: string, description: Option<string>)

  datatype Answer = Answer(result: RefreshResult, overBudget: bool)

  /** One locked attempt: what the lock, the store, the clock and the endpoint do during it. `found` is `None` when the read throws. */
  datatype AttemptEnv = AttemptEnv(
    busy: bool,
    found: Option<StoreState>,
    at: int,
    answers: nat -> Answer,
    corrupted: bool,
    diskFails: bool)

  datatype CallEnv = CallEnv(
    now: int,
    first: AttemptEnv,
    abortedBeforeRetry: bool,
    second: AttemptEnv,
    reRead: Option<StoreState>,
    directoryExists: bool,
    memoDiskFails: bool)

  // ── Expiry and planes ─────────────────────────────────────────────────────────────────────────

  predicate ShouldRefresh(cfg: Config, f: Family, now: int) {
    f.expiresAt.Some? && f.expiresAt.value - now <= cfg.skewMs
  }

  predicate IsExpired(f: Family, now: int) {
    f.expiresAt.Some? && f.expiresAt.value <= now
  }

  datatype Plane = AgentOnly | Http | Hub

  function ResolvePlane(d: Document, plane: Plane): Option<FamilyName> {
    var fs := EffectiveFamilies(d);
    if !plane.Hub? && Agent in fs then Some(Agent)
    else if plane.AgentOnly? then None
    else if Plugin in fs then Some(Plugin)
    else if Legacy in fs then Some(Legacy)
    else None
  }

  function FamilyIn(s: StoreState, name: FamilyName): Option<Family> {
    var fs := EffectiveFamilies(Current(s));
    if name in fs then Some(fs[name]) else None
  }

  function RefreshTokenIn(s: StoreState, name: FamilyName): Option<Token> {
    var f := FamilyIn(s, name);
    if f.Some? then f.value.refreshToken else None
  }

  // ── The critical section ──────────────────────────────────────────────────────────────────────

  datatype Ask = Ask(family: Family, token: Token, clientId: string, candidates: seq<string>)

  datatype Decision =
    | ReadFailed
    | FoundUnreadable
    | Adopt(family: Family, document: Document)
    | Refuse(reason: string)
    | GoAsk(ask: Ask)

  function StoredClientId(f: Family): Option<string> {
    if f.clientId.Some? && Trim(f.clientId.value) != "" then Some(Trim(f.clientId.value)) else None
  }

  function Without(ids: seq<string>, id: string): seq<string> {
    if ids == [] then []
    else if ids[0] == id then Without(ids[1..], id)
    else [ids[0]] + Without(ids[1..], id)
  }

  lemma WithoutOnly(id: string)
    ensures Without([id], id) == []
  {
    assert [id][1..] == [];
  }

  /** Only a family that stores no client id is ever presented under more than one. */
  function BaseCandidates(cfg: Config, f: Family, clientId: string): seq<string> {
    if StoredClientId(f).Some? then [clientId] else [clientId] + cfg.fallbackClientIds
  }

  /** The id of a transiently failed presentation of the same token goes first. */
  function Candidates(cfg: Config, mem: Memory, name: FamilyName, f: Family, token: Token, clientId: string): (ids: seq<string>)
    ensures ids != []
  {
    var ids := BaseCandidates(cfg, f, clientId);
    if name in mem.pending && mem.pending[name].token == token && mem.pending[name].clientId in ids
    then [mem.pending[name].clientId] + Without(ids, mem.pending[name].clientId)
    else ids
  }

  /** The decision taken on the re-read under the lock. */
  function Decide(cfg: Config, mem: Memory, found: Option<StoreState>, name: FamilyName, snapshot: Family, now: int): (d: Decision)
    ensures d.GoAsk? ==> found.Some? && d.ask.candidates != [] && FamilyIn(found.value, name) == Some(d.ask.family)
    ensures d.GoAsk? ==> d.ask.token.Tok? && d.ask.family.refreshToken == Some(d.ask.token)
  {
    if found.None? then ReadFailed
    else if found.value.Unreadable? then FoundUnreadable
    else
      var family := FamilyIn(found.value, name);
      if && family.Some? && Truthy(family.value.accessToken) && family.value.accessToken != snapshot.accessToken
         && (!ShouldRefresh(cfg, family.value, now) || family.value.expiresAt.None?)
      then Adopt(family.value, Current(found.value))
      else if family.None? || !Truthy(family.value.refreshToken) then Refuse("no refresh token")
      else
        var f := family.value;
        var clientId := OrElse(StoredClientId(f), OrElse(cfg.defaultClientId, ""));
        if clientId == "" then Refuse("no client id")
        else GoAsk(Ask(f, f.refreshToken.value, clientId, Candidates(cfg, mem, name, f, f.refreshToken.value, clientId)))
  }

  predicate AsksOn(a: Answer) {
    IsClientIdMismatch(a.result) && !a.overBudget
  }

  /** The last candidate presented: the first answer that is not a mismatch, or that came over budget, ends the loop. */
  function LastAsked(n: nat, answers: nat -> Answer, k: nat): (last: nat)
    requires k < n
    ensures k <= last < n
    decreases n - k
  {
    if k + 1 < n && AsksOn(answers(k)) then LastAsked(n, answers, k + 1) else k
  }

  datatype Settlement =
    | Rotated(family: Family)
    | Condemned(code: string, description: Option<string>)
    | NotNow(reason: string, transient: bool)

  /** What the last answer does: to the provider's memory, and to the family. */
  function Settle(mem: Memory, name: FamilyName, ask: Ask, presented: string, result: RefreshResult, at: int): (Memory, Settlement) {
    var transient := result.Failure? && result.transient;
    var m := mem.(
      lastAttempt := mem.lastAttempt[name := Attempt(at, transient)],
      pending := if transient then mem.pending[name := Pending(ask.token, presented)] else mem.pending - {name});
    match result
    case Success(accessToken, refreshToken, expiresAt) =>
      if accessToken.Blank? then (m.(lastFailure := Some("empty access token")), NotNow("empty access token", false))
      else
        (m, Rotated(ask.family.(
          accessToken := Some(accessToken),
          refreshToken := Some(OrElse(refreshToken, ask.token)),
          expiresAt := expiresAt,
          clientId := if presented != ask.clientId then Some(presented) else ask.family.clientId)))
    case Failure(code, description, _) =>
      var detail := DescribeFailure(code, description);
      if IsVerdict(result) then (m.(lastFailure := Some(detail)), Condemned(code, description))
      else
        var reason :=
          if IsClientIdMismatch(result) then "other application: " + detail else detail;
        (m.(lastFailure := Some(reason)), NotNow(reason, transient))
  }

  /** Write the rotated family back under the same hold; a store that became unreadable or a full disk leaves it in memory only. */
  function Persist(store: StoreState, name: FamilyName, rotated: Family, corrupted: bool, diskFails: bool): (StoreState, Option<Document>) {
    var s := if corrupted then Unreadable else store;
    if s.Unreadable? || diskFails then (s, None)
    else
      var (s', r) := WriteFamily(s, name, rotated, NO_STAMP, false);
      (s', if r.Written? then Some(r.document) else None)
  }

  datatype Section = Section(mem: Memory, store: StoreState, outcome: Outcome, log: seq<Entry>)

  /** The part of the critical section that goes to the network and acts on the last answer. */
  function AskServer(mem: Memory, store: StoreState, name: FamilyName, ask: Ask, e: AttemptEnv, retry: bool): Section
    requires ask.candidates != []
  {
    var last := LastAsked(|ask.candidates|, e.answers, 0);
    var (m, settled) := Settle(mem, name, ask, ask.candidates[last], e.answers(last).result, e.at);
    var asked := Asked(name, ask.token, e.at, ask.candidates[..last + 1], m.lastAttempt[name].transient, settled.Condemned?, retry);
    match settled
    case Rotated(family) =>
      var (s', document) := Persist(store, name, family, e.corrupted, e.diskFails);
      Section(m, s', Refreshed(family, document), [asked])
    case Condemned(code, description) => Section(m, store, InvalidGrant(code, description, ask.token), [asked])
    case NotNow(reason, transient) => Section(m, store, Failed(reason, transient), [asked])
  }

  function CriticalSection(cfg: Config, mem: Memory, store: StoreState, name: FamilyName, snapshot: Family, e: AttemptEnv, retry: bool): Section {
    var here := OrElse(e.found, store);
    var saw := if e.found.None? || e.found.value.Unreadable? then [] else [Saw(name, RefreshTokenIn(e.found.value, name))];
    match Decide(cfg, mem, e.found, name, snapshot, e.at)
    case ReadFailed => Section(mem, here, Failed("read failed", false), saw)
    case FoundUnreadable => Section(mem, here, StoreUnreadable, saw)
    case Adopt(family, document) => Section(mem, here, AdoptedPeer(family, document), saw)
    case Refuse(reason) => Section(mem.(lastFailure := Some(reason)), here, Failed(reason, false), saw)
    case GoAsk(ask) =>
      var net := AskServer(mem, here, name, ask, e, retry);
      net.(log := saw + net.log)
  }

  function LockedAttempt(cfg: Config, mem: Memory, store: StoreState, name: FamilyName, snapshot: Family, e: AttemptEnv, retry: bool): Section {
    if e.busy then Section(mem, store, Busy, []) else CriticalSection(cfg, mem, store, name, snapshot, e, retry)
  }

  // ── One refresh call ──────────────────────────────────────────────────────────────────────────

  function Window(cfg: Config, last: Attempt): int {
    if last.transient then TRANSIENT_REFRESH_COOLDOWN_MS else cfg.skewMs
  }

  /** Where a call starts once the in-memory dead mark has been dropped or has answered. */
  datatype Gate = Answered(mem: Memory, outcome: Outcome) | Proceed(mem: Memory)

  function GateOf(cfg: Config, mem0: Memory, sidecar: Sidecar, name: FamilyName, snapshot: Family, now: int): Gate {
    if name in mem0.dead && mem0.dead[name].token == snapshot.refreshToken then Answered(mem0, FamilyDead(mem0.dead[name].reason))
    else
      var mem := mem0.(dead := mem0.dead - {name});
      if name in mem.lastAttempt && now - mem.lastAttempt[name].at < Window(cfg, mem.lastAttempt[name]) then
        Answered(mem, Failed(
          OrElse(mem.lastFailure, "attempted already"),
          mem.lastAttempt[name].transient))
      else
        var recorded := if cfg.persistMemo && snapshot.refreshToken.Some? then MatchIn(sidecar, snapshot.refreshToken.value) else None;
        if recorded.Some? then
          var reason := if recorded.value == "" then INVALID_GRANT else recorded.value;
          Answered(mem.(dead := mem.dead[name := DeadMark(reason, snapshot.refreshToken)]), FamilyDead(reason))
        else Proceed(mem)
  }

  predicate RetriesNow(outcome: Outcome, retryTransient: bool, env: CallEnv) {
    retryTransient && outcome.Failed? && outcome.transient && !env.abortedBeforeRetry
  }

  /** The one prompt retry after the first locked attempt. */
  function Retried(cfg: Config, first: Section, name: FamilyName, snapshot: Family, retryTransient: bool, env: CallEnv): Section {
    if !RetriesNow(first.outcome, retryTransient, env) then first
    else
      var second := LockedAttempt(cfg, first.mem, first.store, name, snapshot, env.second, true);
      second.(log := first.log + second.log)
  }

  function Attempts(cfg: Config, mem: Memory, store: StoreState, name: FamilyName, snapshot: Family, retryTransient: bool, env: CallEnv): Section {
    Retried(cfg, LockedAttempt(cfg, mem, store, name, snapshot, env.first, false), name, snapshot, retryTransient, env)
  }

  datatype Call = Call(mem: Memory, sidecar: Sidecar, store: StoreState, outcome: Outcome, log: seq<Entry>)

  function MarkFamilyDead(cfg: Config, mem: Memory, sidecar: Sidecar, name: FamilyName, code: string, description: Option<string>,
    token: Token, env: CallEnv): (Memory, Sidecar, seq<Entry>)
  {
    if name in mem.dead then (mem, sidecar, [])
    else
      var detail := DescribeFailure(code, description);
      (mem.(dead := mem.dead[name := DeadMark(detail, Some(token))]),
       if cfg.persistMemo then WriteTo(sidecar, Verdict(token, detail, env.directoryExists, env.memoDiskFails)) else sidecar,
       [Telemetry(name, token, code, description)])
  }

  /** After a terminal verdict the store is read once more: a token that moved is adopted, one that stayed is declared dead. */
  function AfterVerdict(cfg: Config, s: Section, sidecar: Sidecar, name: FamilyName, env: CallEnv): Call
    requires s.outcome.InvalidGrant?
  {
    var token := s.outcome.presented;
    var here := OrElse(env.reRead, s.store);
    var shown := env.reRead.Some? && env.reRead.value.Readable? && RefreshTokenIn(here, name).Some?;
    var log := if shown then s.log + [Saw(name, RefreshTokenIn(here, name))] else s.log;
    if shown && RefreshTokenIn(here, name) != Some(token) then
      Call(s.mem, sidecar, here, AdoptedPeer(FamilyIn(here, name).value, here.document), log)
    else
      var (m, sc, events) := MarkFamilyDead(cfg, s.mem, sidecar, name, s.outcome.code, s.outcome.description, token, env);
      Call(m, sc, here, FamilyDead(DescribeFailure(s.outcome.code, s.outcome.description)), log + events)
  }

  /** What a verdict leads to does not depend on what was logged before it. */
  lemma AfterVerdictOnLongerLog(cfg: Config, s: Section, before: seq<Entry>, sidecar: Sidecar, name: FamilyName, env: CallEnv)
    requires s.outcome.InvalidGrant?
    ensures
      var c := AfterVerdict(cfg, s, sidecar, name, env);
      AfterVerdict(cfg, s.(log := before + s.log), sidecar, name, env) == c.(log := before + c.log)
  {
    var c := AfterVerdict(cfg, s, sidecar, name, env);
    var d := AfterVerdict(cfg, s.(log := before + s.log), sidecar, name, env);
    assert before + c.log == d.log;
  }

  function RefreshFamily(cfg: Config, mem0: Memory, sidecar: Sidecar, store: StoreState, name: FamilyName, snapshot: Family,
    retryTransient: bool, env: CallEnv): Call
  {
    var saw := [Saw(name, snapshot.refreshToken)];
    match GateOf(cfg, mem0, sidecar, name, snapshot, env.now)
    case Answered(mem, outcome) => Call(mem, sidecar, store, outcome, saw)
    case Proceed(mem) =>
      var s := Attempts(cfg, mem, store, name, snapshot, retryTransient, env);
      if !s.outcome.InvalidGrant? then Call(s.mem, sidecar, s.store, s.outcome, saw + s.log)
      else AfterVerdict(cfg, s.(log := saw + s.log), sidecar, name, env)
  }
}
