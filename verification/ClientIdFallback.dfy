/**
 * One provider, its store and the server, call after call: which client id a token is presented under
 * when its family stores none, and why a lost answer never turns into a presentation under another id.
 */
module ClientIdFallback {
  import opened Basics
  import opened MachineCredentials
  import opened TokenRefresher
  import opened DeadFamilyMemo
  import opened AuthorizationServer
  import opened TokenEndpoint
  import opened CredentialProvider
  import F = RefreshFleet
  import RefreshDiscipline

  // ── A candidate loop against the server ───────────────────────────────────────────────────────

  /** The server after the first `k` presentations of a loop. */
  function ServerAfter(s: Server, token: Token, ids: seq<string>, nets: nat -> Net, k: nat): Server
    requires k <= |ids|
  {
    if k == 0 then s else Exchange(ServerAfter(s, token, ids, nets, k - 1), ids[k - 1], token, nets(k - 1)).0
  }

  function AnswerAt(s: Server, token: Token, ids: seq<string>, nets: nat -> Net, k: nat): Answer
    requires k < |ids|
  {
    Answer(Exchange(ServerAfter(s, token, ids, nets, k), ids[k], token, nets(k)).1, nets(k).overBudget)
  }

  const NO_ANSWER := Answer(Failure("", None, false), false)

  function Answers(s: Server, token: Token, ids: seq<string>, nets: nat -> Net): nat -> Answer {
    (k: nat) => if k < |ids| then AnswerAt(s, token, ids, nets, k) else NO_ANSWER
  }

  function LastOf(s: Server, token: Token, ids: seq<string>, nets: nat -> Net): nat
    requires ids != []
  {
    LastAsked(|ids|, Answers(s, token, ids, nets), 0)
  }

  predicate Uncancelled(net: Net) {
    net.delivery.Unanswered? ==> !net.delivery.cancelled
  }

  /** A client mismatch leaves rows and cache as they were, and is only said of a live token by another client. */
  lemma MismatchWritesNothing(s: Server, id: string, t: Token, net: Net)
    requires ChainInv(s) && t in s.rows && IsClientIdMismatch(Exchange(s, id, t, net).1)
    ensures SameChain(s, Exchange(s, id, t, net).0) && s.rows[t].Live() && s.rows[t].clientId != Trim(id)
  {
    assert INVALID_GRANT[0] == 'i' && "no client id"[0] == 'n' && "fetch failed"[0] == 'f';
    if Trim(id) != "" {
      HandleEffect(s, id, t, net.at);
      ServerAnswersUnderstood(Handle(s, Form(id, t), net.at).1, net.at);
    }
  }

  lemma {:induction false} AskedOn(n: nat, answers: nat -> Answer, from: nat, k: nat)
    requires from < n && from <= k < LastAsked(n, answers, from)
    ensures AsksOn(answers(k))
    decreases n - from
  {
    if from < k { AskedOn(n, answers, from + 1, k); }
  }

  /** Every presentation of a loop but the last was a mismatch, so the last one meets the server the first one met. */
  lemma {:induction false} LoopMeetsTheSameServer(s: Server, t: Token, ids: seq<string>, nets: nat -> Net, k: nat)
    requires ChainInv(s) && t in s.rows && ids != [] && k <= LastOf(s, t, ids, nets)
    ensures SameChain(s, ServerAfter(s, t, ids, nets, k)) && ChainInv(ServerAfter(s, t, ids, nets, k))
    ensures k > 0 ==> s.rows[t].Live()
  {
    hide Exchange;
    if k > 0 {
      LoopMeetsTheSameServer(s, t, ids, nets, k - 1);
      AskedOn(|ids|, Answers(s, t, ids, nets), 0, k - 1);
      var before := ServerAfter(s, t, ids, nets, k - 1);
      MismatchWritesNothing(before, ids[k - 1], t, nets(k - 1));
      SameChainKeepsChain(before, ServerAfter(s, t, ids, nets, k));
    }
  }

  // ── One presentation ──────────────────────────────────────────────────────────────────────────

  /** Families other than the token's keep their rows; its own row keeps its client. */
  ghost predicate OnlyItsFamily(s: Server, s': Server, t: Token) {
    && t in s.rows && t in s'.rows && s'.nextFamily == s.nextFamily
    && s'.rows[t].family == s.rows[t].family && s'.rows[t].clientId == s.rows[t].clientId
    && forall u :: u in s.rows && s.rows[u].family != s.rows[t].family ==> u in s'.rows && s'.rows[u] == s.rows[u]
  }

  predicate SuccessorOf(s: Server, s': Server, t: Token, u: Token) {
    && t in s.rows && u in s'.rows && s'.rows[u].Live()
    && s'.rows[u].family == s.rows[t].family && s'.rows[u].clientId == s.rows[t].clientId
  }

  /**
   * A presentation that is safe (the token is live, or this is the client it was minted for) ends with a
   * live successor, or with the token still live, or, when the token is spent, with an answer that is
   * transient or terminal and was given to the minting client.
   */
  lemma SafePresentation(s: Server, id: string, t: Token, net: Net)
    requires ChainInv(s) && t in s.rows && Uncancelled(net)
    requires s.rows[t].clientId != "" && (s.rows[t].Live() || Trim(id) == s.rows[t].clientId)
    ensures
      var (s', r) := Exchange(s, id, t, net);
      && ChainInv(s') && OnlyItsFamily(s, s', t)
      && (r.Success? ==>
            && Trim(id) == s.rows[t].clientId && r.accessToken.Tok? && r.refreshToken.Some?
            && SuccessorOf(s, s', t, r.refreshToken.value))
      && (r.Failure? && !s'.rows[t].Live() ==> Trim(id) == s.rows[t].clientId && (r.transient || IsVerdict(r)))
  {
    if Trim(id) != "" {
      HandleEffect(s, id, t, net.at);
      var (s', r) := Handle(s, Form(id, t), net.at);
      ServerAnswersUnderstood(r, net.at);
      if r.Granted? && !s.rows[t].Live() { assert PairOk(s.rows, t, r.refresh); }
    }
  }

  // ── What a family's next presentation is anchored to ──────────────────────────────────────────

  function FirstId(cfg: Config, f: Family): string {
    OrElse(StoredClientId(f), OrElse(cfg.defaultClientId, ""))
  }

  predicate PendingUnder(cfg: Config, mem: Memory, n: FamilyName, f: Family, t: Token, client: string) {
    && n in mem.pending && mem.pending[n].token == t && Trim(mem.pending[n].clientId) == client
    && mem.pending[n].clientId in BaseCandidates(cfg, f, FirstId(cfg, f))
  }

  predicate MarkedDead(mem: Memory, n: FamilyName, t: Token) {
    n in mem.dead && mem.dead[n].token == Some(t)
  }

  /** The token is live, or the next presentation starts with the minting client, or there will be none. */
  predicate Anchored(cfg: Config, s: Server, mem: Memory, n: FamilyName, f: Family) {
    && f.refreshToken.Some? && f.refreshToken.value in s.rows
    && var t := f.refreshToken.value;
    var client := s.rows[t].clientId;
    && client != "" && Trim(client) == client
    && (|| s.rows[t].Live()
        || StoredClientId(f) == Some(client)
        || (StoredClientId(f).None? && PendingUnder(cfg, mem, n, f, t, client))
        || MarkedDead(mem, n, t))
  }

  /** No presentation of the loop offers a spent token under an id other than the one it was minted for. */
  ghost predicate NeverUnderAnother(s: Server, t: Token, ids: seq<string>, nets: nat -> Net)
    requires ids != []
  {
    forall k: nat :: k <= LastOf(s, t, ids, nets) ==> SafeAt(ServerAfter(s, t, ids, nets, k), t, ids[k])
  }

  predicate SafeAt(s: Server, t: Token, id: string) {
    t in s.rows ==> s.rows[t].Live() || Trim(id) == s.rows[t].clientId
  }

  lemma FirstCandidate(cfg: Config, mem: Memory, n: FamilyName, f: Family, t: Token, client: string)
    requires client != ""
    ensures
      var ids := Candidates(cfg, mem, n, f, t, FirstId(cfg, f));
      && (PendingUnder(cfg, mem, n, f, t, client) ==> Trim(ids[0]) == client)
      && (StoredClientId(f).Some? ==> ids == [FirstId(cfg, f)] && Trim(ids[0]) == ids[0] == StoredClientId(f).value)
  {
    if StoredClientId(f).Some? {
      TrimIsIdempotent(f.clientId.value);
      WithoutOnly(FirstId(cfg, f));
    }
  }

  lemma CandidatesAreBase(cfg: Config, mem: Memory, n: FamilyName, f: Family, t: Token, k: nat)
    requires k < |Candidates(cfg, mem, n, f, t, FirstId(cfg, f))|
    ensures Candidates(cfg, mem, n, f, t, FirstId(cfg, f))[k] in BaseCandidates(cfg, f, FirstId(cfg, f))
  {
    var base := BaseCandidates(cfg, f, FirstId(cfg, f));
    if n in mem.pending { WithoutKeepsMembers(base, mem.pending[n].clientId); }
    assert Candidates(cfg, mem, n, f, t, FirstId(cfg, f))[k] in Candidates(cfg, mem, n, f, t, FirstId(cfg, f));
  }

  lemma {:induction false} WithoutKeepsMembers(ids: seq<string>, id: string)
    ensures forall x :: x in Without(ids, id) ==> x in ids
  {
    if ids != [] {
      WithoutKeepsMembers(ids[1..], id);
      assert ids == [ids[0]] + ids[1..];
    }
  }

  /** An anchored family is presented safely throughout its loop. */
  lemma LoopIsSafe(cfg: Config, s: Server, mem: Memory, n: FamilyName, f: Family, nets: nat -> Net)
    requires ChainInv(s) && Anchored(cfg, s, mem, n, f) && n !in mem.dead
    ensures
      var t := f.refreshToken.value;
      var ids := Candidates(cfg, mem, n, f, t, FirstId(cfg, f));
      NeverUnderAnother(s, t, ids, nets)
  {
    var t := f.refreshToken.value;
    var ids := Candidates(cfg, mem, n, f, t, FirstId(cfg, f));
    FirstCandidate(cfg, mem, n, f, t, s.rows[t].clientId);
    forall k: nat | k <= LastOf(s, t, ids, nets) ensures SafeAt(ServerAfter(s, t, ids, nets, k), t, ids[k]) {
      LoopMeetsTheSameServer(s, t, ids, nets, k);
    }
  }

  // ── Calls ─────────────────────────────────────────────────────────────────────────────────────

  datatype Tries = Tries(busy: bool, at: int, nets: nat -> Net)

  datatype World = World(server: Server, store: StoreState, mem: Memory, sidecar: Sidecar)

  datatype Event =
    | Call(name: FamilyName, retryTransient: bool, now: int, first: Tries, abortedBeforeRetry: bool, second: Tries,
           directoryExists: bool, memoDiskFails: bool)
    | Login(login: FamilyName, clientId: string, stamped: bool, scope: set<string>, resource: Option<string>, at: int)

  function EnvOf(cfg: Config, s: Server, store: StoreState, mem: Memory, name: FamilyName, snapshot: Family, t: Tries): AttemptEnv {
    var d := Decide(cfg, mem, Some(store), name, snapshot, t.at);
    AttemptEnv(t.busy, Some(store), t.at, if d.GoAsk? then Answers(s, d.ask.token, d.ask.candidates, t.nets) else (k: nat) => NO_ANSWER, false, false)
  }

  /** One locked attempt of the provider, and the server after it. */
  function Attempted(cfg: Config, s: Server, store: StoreState, mem: Memory, name: FamilyName, snapshot: Family, t: Tries, retry: bool): (Section, Server) {
    var d := Decide(cfg, mem, Some(store), name, snapshot, t.at);
    (LockedAttempt(cfg, mem, store, name, snapshot, EnvOf(cfg, s, store, mem, name, snapshot, t), retry),
     if !t.busy && d.GoAsk? then ServerAfter(s, d.ask.token, d.ask.candidates, t.nets, LastOf(s, d.ask.token, d.ask.candidates, t.nets) + 1) else s)
  }

  /** The environment the world gives a call: the endpoint's answers are the server's, and nobody else writes the store. */
  function CallEnvOf(cfg: Config, w: World, mem: Memory, snapshot: Family, c: Event): CallEnv
    requires c.Call?
  {
    var (first, server) := Attempted(cfg, w.server, w.store, mem, c.name, snapshot, c.first, false);
    CallEnv(
      c.now,
      EnvOf(cfg, w.server, w.store, mem, c.name, snapshot, c.first),
      c.abortedBeforeRetry,
      EnvOf(cfg, server, first.store, first.mem, c.name, snapshot, c.second),
      Some(w.store), c.directoryExists, c.memoDiskFails)
  }

  function ServerAfterCall(cfg: Config, w: World, mem: Memory, snapshot: Family, c: Event): Server
    requires c.Call?
  {
    var (first, server) := Attempted(cfg, w.server, w.store, mem, c.name, snapshot, c.first, false);
    if RetriesNow(first.outcome, c.retryTransient, CallEnvOf(cfg, w, mem, snapshot, c))
    then Attempted(cfg, server, first.store, first.mem, c.name, snapshot, c.second, true).1
    else server
  }

  function Perform(cfg: Config, w: World, c: Event): World
    requires c.Call?
  {
    var f := FamilyIn(w.store, c.name);
    if f.None? then w
    else
      var g := GateOf(cfg, w.mem, w.sidecar, c.name, f.value, c.now);
      var r := RefreshFamily(cfg, w.mem, w.sidecar, w.store, c.name, f.value, c.retryTransient, CallEnvOf(cfg, w, g.mem, f.value, c));
      World(if g.Proceed? then ServerAfterCall(cfg, w, g.mem, f.value, c) else w.server, r.store, r.mem, r.sidecar)
  }

  function LogIn(w: World, e: Event): World
    requires e.Login?
  {
    if Trim(e.clientId) == e.clientId && e.clientId != "" then
      var (s', access, refresh) := Mint(w.server, e.clientId, e.scope, e.resource, e.at);
      var family := F.LoginFamily(access, refresh, e.at + w.server.accessTtlSeconds * 1000, if e.stamped then Some(e.clientId) else None);
      w.(server := s', store := WriteFamily(w.store, e.login, family, NO_STAMP, true).0)
    else w
  }

  function Apply(cfg: Config, w: World, e: Event): World {
    match e
    case Call(_, _, _, _, _, _, _, _) => Perform(cfg, w, e)
    case Login(_, _, _, _, _, _) => LogIn(w, e)
  }

  function Exec(cfg: Config, w: World, run: seq<Event>): World {
    if run == [] then w else Apply(cfg, Exec(cfg, w, run[..|run| - 1]), run[|run| - 1])
  }

  predicate Init(w: World) {
    w.server == NewServer(w.server.graceWindowMs, w.server.accessTtlSeconds) && w.store.Missing? && w.mem == NO_MEMORY
  }

  ghost predicate UncancelledCall(e: Event) {
    e.Call? ==> forall k: nat :: Uncancelled(e.first.nets(k)) && Uncancelled(e.second.nets(k))
  }

  // ── The invariant ─────────────────────────────────────────────────────────────────────────────

  ghost predicate Inv(cfg: Config, w: World) {
    var fs := EffectiveFamilies(Current(w.store));
    && ChainInv(w.server)
    && (forall n :: n in fs ==> Anchored(cfg, w.server, w.mem, n, fs[n]))
    && (forall m, n :: m in fs && n in fs && m != n ==> F.ServerFamily(w.server, fs[m]) != F.ServerFamily(w.server, fs[n]))
  }

  /** The part of the invariant about every family but one. */
  ghost predicate Others(cfg: Config, s: Server, store: StoreState, mem: Memory, name: FamilyName) {
    var fs := EffectiveFamilies(Current(store));
    && (forall n :: n in fs && n != name ==> Anchored(cfg, s, mem, n, fs[n]))
    && (forall m, n :: m in fs && n in fs && m != n ==> F.ServerFamily(s, fs[m]) != F.ServerFamily(s, fs[n]))
  }

  lemma OtherStaysAnchored(cfg: Config, s: Server, s': Server, mem: Memory, m: Memory, t: Token, n: FamilyName, f: Family)
    requires Anchored(cfg, s, mem, n, f) && OnlyItsFamily(s, s', t) && F.ServerFamily(s, f) != Some(s.rows[t].family)
    requires n in mem.pending <==> n in m.pending
    requires n in mem.pending ==> m.pending[n] == mem.pending[n]
    requires n in mem.dead <==> n in m.dead
    requires n in mem.dead ==> m.dead[n] == mem.dead[n]
    ensures Anchored(cfg, s', m, n, f) && F.ServerFamily(s', f) == F.ServerFamily(s, f)
  {
    assert s'.rows[f.refreshToken.value] == s.rows[f.refreshToken.value];
  }

  /** The client id a family would be presented under first is the one its token was minted for. */
  predicate MintClientIsFirst(cfg: Config, s: Server, f: Family) {
    f.refreshToken.Some? && f.refreshToken.value in s.rows && Trim(FirstId(cfg, f)) == s.rows[f.refreshToken.value].clientId
  }

  /** What the last answer of a safe loop leaves behind: a family anchored again, or a verdict. */
  predicate SettledWell(cfg: Config, s: Server, s': Server, m: Memory, name: FamilyName, ask: Ask, settled: Settlement) {
    match settled
    case Rotated(fam) =>
      && Anchored(cfg, s', m, name, fam) && fam.refreshToken.Some? && fam.refreshToken.value in s'.rows
      && SuccessorOf(s, s', ask.token, fam.refreshToken.value) && MintClientIsFirst(cfg, s', fam)
    case Condemned(_, _) => true
    case NotNow(_, _) => Anchored(cfg, s', m, name, ask.family)
  }

  lemma AnswerSettlesWell(cfg: Config, s: Server, mem: Memory, name: FamilyName, ask: Ask, id: string, net: Net, at: int)
    requires ChainInv(s) && Uncancelled(net) && SafeAt(s, ask.token, id)
    requires ask.family.refreshToken == Some(ask.token) && ask.token in s.rows
    requires s.rows[ask.token].clientId != "" && Trim(s.rows[ask.token].clientId) == s.rows[ask.token].clientId
    requires ask.clientId == FirstId(cfg, ask.family) && id in BaseCandidates(cfg, ask.family, ask.clientId)
    ensures
      var (s', r) := Exchange(s, id, ask.token, net);
      var (m, settled) := Settle(mem, name, ask, id, r, at);
      ChainInv(s') && OnlyItsFamily(s, s', ask.token) && SettledWell(cfg, s, s', m, name, ask, settled)
  {
    SafePresentation(s, id, ask.token, net);
    var (s', r) := Exchange(s, id, ask.token, net);
    SettlesWell(cfg, s, s', mem, name, ask, id, r, at);
  }

  lemma SettlesWell(cfg: Config, s: Server, s': Server, mem: Memory, name: FamilyName, ask: Ask, id: string, r: RefreshResult, at: int)
    requires OnlyItsFamily(s, s', ask.token)
    requires ask.family.refreshToken == Some(ask.token)
    requires s.rows[ask.token].clientId != "" && Trim(s.rows[ask.token].clientId) == s.rows[ask.token].clientId
    requires ask.clientId == FirstId(cfg, ask.family) && id in BaseCandidates(cfg, ask.family, ask.clientId)
    requires r.Success? ==>
               && Trim(id) == s.rows[ask.token].clientId && r.accessToken.Tok? && r.refreshToken.Some?
               && SuccessorOf(s, s', ask.token, r.refreshToken.value)
    requires r.Failure? && !s'.rows[ask.token].Live() ==> Trim(id) == s.rows[ask.token].clientId && (r.transient || IsVerdict(r))
    ensures
      var (m, settled) := Settle(mem, name, ask, id, r, at);
      SettledWell(cfg, s, s', m, name, ask, settled)
  {
    hide IsClientIdMismatch, DescribeFailure;
    if StoredClientId(ask.family).Some? { TrimIsIdempotent(ask.family.clientId.value); }
  }

  // ── One locked attempt ────────────────────────────────────────────────────────────────────────

  /** What a locked attempt on a family leaves: everything anchored, or a verdict on the token the store still holds. */
  ghost predicate AttemptedWell(cfg: Config, s': Server, store: StoreState, mem: Memory, name: FamilyName, f: Family, sec: Section) {
    && ChainInv(s') && Others(cfg, s', sec.store, sec.mem, name) && sec.mem.dead == mem.dead
    && FamilyIn(sec.store, name).Some?
    && (if sec.outcome.InvalidGrant? then
          && sec.store == store && Some(sec.outcome.presented) == f.refreshToken && sec.outcome.presented in s'.rows
          && s'.rows[sec.outcome.presented].clientId != ""
          && Trim(s'.rows[sec.outcome.presented].clientId) == s'.rows[sec.outcome.presented].clientId
        else Anchored(cfg, s', sec.mem, name, FamilyIn(sec.store, name).value))
    && (sec.outcome.Failed? ==> sec.store == store)
    && (sec.outcome.Refreshed? ==> MintClientIsFirst(cfg, s', FamilyIn(sec.store, name).value))
  }

  lemma SettledOthers(cfg: Config, s: Server, s': Server, store: StoreState, store': StoreState, mem: Memory, m: Memory,
    name: FamilyName, f: Family, f': Family)
    requires Others(cfg, s, store, mem, name) && FamilyIn(store, name) == Some(f) && f.refreshToken.Some?
    requires f.refreshToken.value in s.rows && OnlyItsFamily(s, s', f.refreshToken.value)
    requires m.dead == mem.dead && (m.pending - {name}) == (mem.pending - {name})
    requires EffectiveFamilies(Current(store')) == EffectiveFamilies(Current(store))[name := f']
    requires F.ServerFamily(s', f') == F.ServerFamily(s, f)
    ensures Others(cfg, s', store', m, name)
  {
    var fs, fs' := EffectiveFamilies(Current(store)), EffectiveFamilies(Current(store'));
    forall n | n in fs' && n != name
      ensures Anchored(cfg, s', m, n, fs'[n]) && F.ServerFamily(s', fs'[n]) == F.ServerFamily(s, fs[n])
    {
      assert fs'[n] == fs[n] && F.ServerFamily(s, fs[n]) != F.ServerFamily(s, fs[name]);
      assert n in mem.pending <==> n in mem.pending - {name};
      assert n in m.pending <==> n in m.pending - {name};
      assert n in mem.pending ==> (mem.pending - {name})[n] == mem.pending[n];
      assert n in m.pending ==> (m.pending - {name})[n] == m.pending[n];
      OtherStaysAnchored(cfg, s, s', mem, m, f.refreshToken.value, n, fs[n]);
    }
    forall a, b | a in fs' && b in fs' && a != b ensures F.ServerFamily(s', fs'[a]) != F.ServerFamily(s', fs'[b]) {
      assert F.ServerFamily(s, fs[a]) != F.ServerFamily(s, fs[b]);
    }
  }

  lemma DecideToAsk(cfg: Config, mem: Memory, store: StoreState, name: FamilyName, f: Family, now: int)
    requires FamilyIn(store, name) == Some(f)
    ensures
      var d := Decide(cfg, mem, Some(store), name, f, now);
      && (d.GoAsk? || d.Refuse? || d.FoundUnreadable?)
      && (d.GoAsk? ==>
            && store.Readable? && d.ask.family == f && f.refreshToken == Some(d.ask.token) && d.ask.clientId == FirstId(cfg, f)
            && d.ask.candidates == Candidates(cfg, mem, name, f, d.ask.token, FirstId(cfg, f)))
  {
    hide Candidates;
  }

  lemma SettleTouchesOneName(mem: Memory, name: FamilyName, ask: Ask, id: string, r: RefreshResult, at: int)
    ensures
      var m := Settle(mem, name, ask, id, r, at).0;
      m.dead == mem.dead && m.pending - {name} == mem.pending - {name}
  {
    hide IsClientIdMismatch, DescribeFailure, IsVerdict;
  }

  /** What the loop leaves at its end: the server after the last presentation, and the answer settled. */
  lemma LoopSettlesWell(cfg: Config, s: Server, mem: Memory, name: FamilyName, ask: Ask, nets: nat -> Net, at: int)
    requires ChainInv(s) && Anchored(cfg, s, mem, name, ask.family) && name !in mem.dead && forall k: nat :: Uncancelled(nets(k))
    requires ask.family.refreshToken == Some(ask.token) && ask.clientId == FirstId(cfg, ask.family)
    requires ask.candidates == Candidates(cfg, mem, name, ask.family, ask.token, ask.clientId)
    ensures
      var last := LastOf(s, ask.token, ask.candidates, nets);
      var s' := ServerAfter(s, ask.token, ask.candidates, nets, last + 1);
      var (m, settled) := Settle(mem, name, ask, ask.candidates[last], AnswerAt(s, ask.token, ask.candidates, nets, last).result, at);
      ChainInv(s') && OnlyItsFamily(s, s', ask.token) && SettledWell(cfg, s, s', m, name, ask, settled)
  {
    var last := LastOf(s, ask.token, ask.candidates, nets);
    var met := ServerAfter(s, ask.token, ask.candidates, nets, last);
    LoopMeetsTheSameServer(s, ask.token, ask.candidates, nets, last);
    LoopIsSafe(cfg, s, mem, name, ask.family, nets);
    assert SafeAt(met, ask.token, ask.candidates[last]);
    CandidatesAreBase(cfg, mem, name, ask.family, ask.token, last);
    hide Exchange, Settle, Candidates;
    AnswerSettlesWell(cfg, met, mem, name, ask, ask.candidates[last], nets(last), at);
  }

  lemma AskedWell(cfg: Config, s: Server, s': Server, store: StoreState, mem: Memory, m: Memory, name: FamilyName, ask: Ask,
    settled: Settlement, sec: Section)
    requires Others(cfg, s, store, mem, name) && Anchored(cfg, s, mem, name, ask.family) && FamilyIn(store, name) == Some(ask.family)
    requires store.Readable? && ask.family.refreshToken == Some(ask.token)
    requires ChainInv(s') && OnlyItsFamily(s, s', ask.token) && SettledWell(cfg, s, s', m, name, ask, settled)
    requires m.dead == mem.dead && m.pending - {name} == mem.pending - {name}
    requires sec.mem == m
    requires
      match settled
      case Rotated(fam) =>
        && sec.store == Persist(store, name, fam, false, false).0
        && sec.outcome == Refreshed(fam, Persist(store, name, fam, false, false).1)
      case Condemned(code, description) => sec.store == store && sec.outcome == InvalidGrant(code, description, ask.token)
      case NotNow(reason, transient) => sec.store == store && sec.outcome == Failed(reason, transient)
    ensures AttemptedWell(cfg, s', store, mem, name, ask.family, sec)
  {
    var fs := EffectiveFamilies(Current(store));
    if settled.Rotated? {
      FamilyWriteFrame(Current(store), name, settled.family, NO_STAMP);
      SettledOthers(cfg, s, s', store, sec.store, mem, m, name, ask.family, settled.family);
    } else {
      assert fs[name := ask.family] == fs;
      SettledOthers(cfg, s, s', store, sec.store, mem, m, name, ask.family, ask.family);
    }
  }

  lemma AttemptKeeps(cfg: Config, s: Server, store: StoreState, mem: Memory, name: FamilyName, f: Family, t: Tries, retry: bool)
    requires ChainInv(s) && Others(cfg, s, store, mem, name) && FamilyIn(store, name) == Some(f)
    requires Anchored(cfg, s, mem, name, f) && name !in mem.dead && forall k: nat :: Uncancelled(t.nets(k))
    ensures
      var (sec, s') := Attempted(cfg, s, store, mem, name, f, t, retry);
      AttemptedWell(cfg, s', store, mem, name, f, sec)
  {
    var (sec, s') := Attempted(cfg, s, store, mem, name, f, t, retry);
    var d := Decide(cfg, mem, Some(store), name, f, t.at);
    DecideToAsk(cfg, mem, store, name, f, t.at);
    if !t.busy && d.GoAsk? {
      AttemptAsks(cfg, s, store, mem, name, f, t, retry);
    } else {
      AttemptOnlyReads(cfg, s, store, mem, name, f, t, retry);
    }
  }

  lemma AttemptOnlyReads(cfg: Config, s: Server, store: StoreState, mem: Memory, name: FamilyName, f: Family, t: Tries, retry: bool)
    requires ChainInv(s) && Others(cfg, s, store, mem, name) && FamilyIn(store, name) == Some(f) && Anchored(cfg, s, mem, name, f)
    requires t.busy || !Decide(cfg, mem, Some(store), name, f, t.at).GoAsk?
    ensures
      var (sec, s') := Attempted(cfg, s, store, mem, name, f, t, retry);
      AttemptedWell(cfg, s', store, mem, name, f, sec)
  {
    DecideToAsk(cfg, mem, store, name, f, t.at);
    hide Decide, CredentialProvider.AskServer;
    var sec := Attempted(cfg, s, store, mem, name, f, t, retry).0;
    assert Others(cfg, s, store, sec.mem, name);
  }

  lemma AttemptAsks(cfg: Config, s: Server, store: StoreState, mem: Memory, name: FamilyName, f: Family, t: Tries, retry: bool)
    requires ChainInv(s) && Others(cfg, s, store, mem, name) && FamilyIn(store, name) == Some(f)
    requires Anchored(cfg, s, mem, name, f) && name !in mem.dead && forall k: nat :: Uncancelled(t.nets(k))
    requires !t.busy && Decide(cfg, mem, Some(store), name, f, t.at).GoAsk?
    ensures
      var (sec, s') := Attempted(cfg, s, store, mem, name, f, t, retry);
      AttemptedWell(cfg, s', store, mem, name, f, sec)
  {
    DecideToAsk(cfg, mem, store, name, f, t.at);
    hide Decide, Settle, Persist, Candidates, Anchored, Others, AttemptedWell, ServerAfter, LastAsked, AnswerAt;
    var (sec, s') := Attempted(cfg, s, store, mem, name, f, t, retry);
    var ask := Decide(cfg, mem, Some(store), name, f, t.at).ask;
    var last := LastOf(s, ask.token, ask.candidates, t.nets);
    var r := AnswerAt(s, ask.token, ask.candidates, t.nets, last).result;
    var (m, settled) := Settle(mem, name, ask, ask.candidates[last], r, t.at);
    LoopSettlesWell(cfg, s, mem, name, ask, t.nets, t.at);
    SettleTouchesOneName(mem, name, ask, ask.candidates[last], r, t.at);
    AskedWell(cfg, s, s', store, mem, m, name, ask, settled, sec);
  }

  // ── One call ──────────────────────────────────────────────────────────────────────────────────

  /** No presentation of a locked attempt offers a spent token under another id. */
  ghost predicate AttemptSafe(cfg: Config, s: Server, store: StoreState, mem: Memory, name: FamilyName, f: Family, t: Tries) {
    var d := Decide(cfg, mem, Some(store), name, f, t.at);
    !t.busy && d.GoAsk? ==> NeverUnderAnother(s, d.ask.token, d.ask.candidates, t.nets)
  }

  ghost predicate CallSafe(cfg: Config, w: World, c: Event)
    requires c.Call?
  {
    FamilyIn(w.store, c.name).Some? ==>
      var f := FamilyIn(w.store, c.name).value;
      var g := GateOf(cfg, w.mem, w.sidecar, c.name, f, c.now);
      g.Proceed? ==>
        var (first, server) := Attempted(cfg, w.server, w.store, g.mem, c.name, f, c.first, false);
        && AttemptSafe(cfg, w.server, w.store, g.mem, c.name, f, c.first)
        && (RetriesNow(first.outcome, c.retryTransient, CallEnvOf(cfg, w, g.mem, f, c)) ==>
              AttemptSafe(cfg, server, first.store, first.mem, c.name, f, c.second))
  }

  lemma AttemptIsSafe(cfg: Config, s: Server, store: StoreState, mem: Memory, name: FamilyName, f: Family, t: Tries)
    requires ChainInv(s) && FamilyIn(store, name) == Some(f) && Anchored(cfg, s, mem, name, f) && name !in mem.dead
    ensures AttemptSafe(cfg, s, store, mem, name, f, t)
  {
    DecideToAsk(cfg, mem, store, name, f, t.at);
    LoopIsSafe(cfg, s, mem, name, f, t.nets);
  }

  /** What the gate does to a family and to all others. */
  lemma GateKeeps(cfg: Config, w: World, name: FamilyName, f: Family, now: int, g: Gate)
    requires Inv(cfg, w) && FamilyIn(w.store, name) == Some(f)
    requires RefreshDiscipline.GateShape(cfg, w.mem, name, f, now, g)
    ensures Others(cfg, w.server, w.store, g.mem, name) && Anchored(cfg, w.server, g.mem, name, f)
  {
    var fs := EffectiveFamilies(Current(w.store));
    assert Anchored(cfg, w.server, w.mem, name, fs[name]);
    forall n | n in fs && n != name ensures Anchored(cfg, w.server, g.mem, n, fs[n]) {
      assert Anchored(cfg, w.server, w.mem, n, fs[n]);
      assert n in w.mem.dead <==> n in w.mem.dead - {name};
      assert n in g.mem.dead <==> n in g.mem.dead - {name};
      assert n in w.mem.dead ==> (w.mem.dead - {name})[n] == w.mem.dead[n];
      assert n in g.mem.dead ==> (g.mem.dead - {name})[n] == g.mem.dead[n];
    }
  }

  ghost predicate EndsWell(cfg: Config, s: Server, r: CredentialProvider.Call, name: FamilyName) {
    && Inv(cfg, World(s, r.store, r.mem, r.sidecar)) && FamilyIn(r.store, name).Some?
    && (r.outcome.Refreshed? ==> MintClientIsFirst(cfg, s, FamilyIn(r.store, name).value))
  }

  lemma InvFromParts(cfg: Config, w: World, name: FamilyName)
    requires ChainInv(w.server) && Others(cfg, w.server, w.store, w.mem, name)
    requires FamilyIn(w.store, name).Some? ==> Anchored(cfg, w.server, w.mem, name, FamilyIn(w.store, name).value)
    ensures Inv(cfg, w)
  {
  }

  lemma VerdictEndsWell(cfg: Config, s: Server, sec: Section, sidecar: Sidecar, store: StoreState, name: FamilyName, f: Family, env: CallEnv)
    requires AttemptedWell(cfg, s, store, sec.mem, name, f, sec) && sec.outcome.InvalidGrant? && name !in sec.mem.dead
    requires FamilyIn(store, name) == Some(f) && env.reRead == Some(store)
    ensures EndsWell(cfg, s, AfterVerdict(cfg, sec, sidecar, name, env), name)
  {
    var r := AfterVerdict(cfg, sec, sidecar, name, env);
    assert r.store == store && r.outcome.FamilyDead?;
    var fs := EffectiveFamilies(Current(store));
    forall n | n in fs && n != name ensures Anchored(cfg, s, r.mem, n, fs[n]) { assert Anchored(cfg, s, sec.mem, n, fs[n]); }
    InvFromParts(cfg, World(s, r.store, r.mem, r.sidecar), name);
  }

  /** A call: every presentation safe, everything anchored at the end, and a success leaves the mint client first. */
  lemma CallKeeps(cfg: Config, w: World, c: Event)
    requires Inv(cfg, w) && c.Call? && UncancelledCall(c)
    ensures CallSafe(cfg, w, c) && Inv(cfg, Perform(cfg, w, c))
    ensures FamilyIn(w.store, c.name).Some? && Result(cfg, w, c).outcome.Refreshed? ==>
              FamilyIn(Perform(cfg, w, c).store, c.name).Some?
              && MintClientIsFirst(cfg, Perform(cfg, w, c).server, FamilyIn(Perform(cfg, w, c).store, c.name).value)
  {
    if FamilyIn(w.store, c.name).Some? {
      var f := FamilyIn(w.store, c.name).value;
      var g := GateOf(cfg, w.mem, w.sidecar, c.name, f, c.now);
      RefreshDiscipline.GateHasShape(cfg, w.mem, w.sidecar, c.name, f, c.now);
      GateKeeps(cfg, w, c.name, f, c.now, g);
      hide GateOf, AfterVerdict, Attempted, Anchored, AttemptedWell, MintClientIsFirst, AttemptSafe;
      if g.Proceed? {
        ProceedKeeps(cfg, w, c, f, g.mem);
      } else {
        hide Inv, Others;
        InvFromParts(cfg, World(w.server, w.store, g.mem, w.sidecar), c.name);
        hide CallEnvOf;
      }
    }
  }

  function Result(cfg: Config, w: World, c: Event): CredentialProvider.Call
    requires c.Call? && FamilyIn(w.store, c.name).Some?
  {
    var f := FamilyIn(w.store, c.name).value;
    var g := GateOf(cfg, w.mem, w.sidecar, c.name, f, c.now);
    RefreshFamily(cfg, w.mem, w.sidecar, w.store, c.name, f, c.retryTransient, CallEnvOf(cfg, w, g.mem, f, c))
  }

  /** The attempts of a call past the gate, and the server after them. */
  lemma AttemptsKeep(cfg: Config, w: World, c: Event, f: Family, mem: Memory)
    requires c.Call? && UncancelledCall(c) && FamilyIn(w.store, c.name) == Some(f) && ChainInv(w.server)
    requires Others(cfg, w.server, w.store, mem, c.name) && Anchored(cfg, w.server, mem, c.name, f) && c.name !in mem.dead
    ensures
      var (first, server) := Attempted(cfg, w.server, w.store, mem, c.name, f, c.first, false);
      var env := CallEnvOf(cfg, w, mem, f, c);
      var sec := Attempts(cfg, mem, w.store, c.name, f, c.retryTransient, env);
      && AttemptSafe(cfg, w.server, w.store, mem, c.name, f, c.first)
      && (RetriesNow(first.outcome, c.retryTransient, env) ==> AttemptSafe(cfg, server, first.store, first.mem, c.name, f, c.second))
      && AttemptedWell(cfg, ServerAfterCall(cfg, w, mem, f, c), w.store, mem, c.name, f, sec) && c.name !in sec.mem.dead
  {
    var (first, server) := Attempted(cfg, w.server, w.store, mem, c.name, f, c.first, false);
    AttemptKeeps(cfg, w.server, w.store, mem, c.name, f, c.first, false);
    AttemptIsSafe(cfg, w.server, w.store, mem, c.name, f, c.first);
    var env := CallEnvOf(cfg, w, mem, f, c);
    hide Decide, CriticalSection, ServerAfter, LastAsked, AttemptSafe;
    if RetriesNow(first.outcome, c.retryTransient, env) {
      AttemptKeeps(cfg, server, first.store, first.mem, c.name, f, c.second, true);
      AttemptIsSafe(cfg, server, first.store, first.mem, c.name, f, c.second);
    }
  }

  lemma ProceedKeeps(cfg: Config, w: World, c: Event, f: Family, mem: Memory)
    requires Inv(cfg, w) && c.Call? && UncancelledCall(c) && FamilyIn(w.store, c.name) == Some(f)
    requires GateOf(cfg, w.mem, w.sidecar, c.name, f, c.now) == Proceed(mem)
    requires Others(cfg, w.server, w.store, mem, c.name) && Anchored(cfg, w.server, mem, c.name, f) && c.name !in mem.dead
    ensures CallSafe(cfg, w, c)
    ensures EndsWell(cfg, ServerAfterCall(cfg, w, mem, f, c), Result(cfg, w, c), c.name)
  {
    AttemptsKeep(cfg, w, c, f, mem);
    hide GateOf, Attempted, Attempts, AfterVerdict, AttemptSafe, ServerAfterCall, CallEnvOf, Anchored, MintClientIsFirst, ChainInv;
    var env := CallEnvOf(cfg, w, mem, f, c);
    var sec := Attempts(cfg, mem, w.store, c.name, f, c.retryTransient, env);
    var logged := sec.(log := [Saw(c.name, f.refreshToken)] + sec.log);
    var server := ServerAfterCall(cfg, w, mem, f, c);
    if sec.outcome.InvalidGrant? {
      ReRead(cfg, w, mem, f, c);
      VerdictEndsWell(cfg, server, logged, w.sidecar, w.store, c.name, f, env);
    } else {
      InvFromParts(cfg, World(server, sec.store, sec.mem, w.sidecar), c.name);
    }
  }

  lemma ReRead(cfg: Config, w: World, mem: Memory, f: Family, c: Event)
    requires c.Call?
    ensures CallEnvOf(cfg, w, mem, f, c).reRead == Some(w.store)
  {
  }

  // ── Runs ──────────────────────────────────────────────────────────────────────────────────────

  lemma MintAnchors(cfg: Config, s: Server, mem: Memory, clientId: string, scope: set<string>, resource: Option<string>, at: int, n: FamilyName, f: Family)
    requires ChainInv(s) && Anchored(cfg, s, mem, n, f)
    ensures
      var s' := Mint(s, clientId, scope, resource, at).0;
      && Anchored(cfg, s', mem, n, f) && F.ServerFamily(s', f) == F.ServerFamily(s, f) && F.ServerFamily(s, f) != Some(s.nextFamily)
  {
    assert IdOk(s, f.refreshToken.value);
  }

  lemma NewLoginIsAnchored(cfg: Config, s: Server, mem: Memory, e: Event, n: FamilyName)
    requires e.Login? && ChainInv(s) && Trim(e.clientId) == e.clientId && e.clientId != ""
    ensures
      var (s', access, refresh) := Mint(s, e.clientId, e.scope, e.resource, e.at);
      var f := F.LoginFamily(access, refresh, e.at + s.accessTtlSeconds * 1000, if e.stamped then Some(e.clientId) else None);
      Anchored(cfg, s', mem, n, f) && F.ServerFamily(s', f) == Some(s.nextFamily)
  {
  }

  /** The world after a login: a new server state, and one family replaced. */
  predicate LoggedIn(w: World, w': World, s': Server, name: FamilyName, f: Family) {
    && w'.server == s' && w'.mem == w.mem
    && EffectiveFamilies(Current(w'.store)) == EffectiveFamilies(Current(w.store))[name := f]
  }

  lemma LogInIs(w: World, e: Event)
    requires e.Login? && Trim(e.clientId) == e.clientId && e.clientId != ""
    ensures
      var (s', access, refresh) := Mint(w.server, e.clientId, e.scope, e.resource, e.at);
      var f := F.LoginFamily(access, refresh, e.at + w.server.accessTtlSeconds * 1000, if e.stamped then Some(e.clientId) else None);
      LoggedIn(w, LogIn(w, e), s', e.login, f)
  {
    var (s', access, refresh) := Mint(w.server, e.clientId, e.scope, e.resource, e.at);
    var f := F.LoginFamily(access, refresh, e.at + w.server.accessTtlSeconds * 1000, if e.stamped then Some(e.clientId) else None);
    FamilyWriteFrame(Current(w.store), e.login, f, NO_STAMP);
    hide Mint, F.LoginFamily, AdoptToV2, WithFamily, EffectiveFamilies, Trim;
  }

  lemma InvOfLogin(cfg: Config, w: World, w': World, s': Server, name: FamilyName, f: Family)
    requires Inv(cfg, w) && LoggedIn(w, w', s', name, f) && ChainInv(s')
    requires Anchored(cfg, s', w.mem, name, f) && F.ServerFamily(s', f) == Some(w.server.nextFamily)
    requires
      var fs := EffectiveFamilies(Current(w.store));
      forall n :: n in fs && n != name ==>
        && Anchored(cfg, s', w.mem, n, fs[n]) && F.ServerFamily(s', fs[n]) == F.ServerFamily(w.server, fs[n])
        && F.ServerFamily(s', fs[n]) != Some(w.server.nextFamily)
    ensures Inv(cfg, w')
  {
    hide Anchored, ChainInv, F.ServerFamily, EffectiveFamilies;
    var fs, fs' := EffectiveFamilies(Current(w.store)), EffectiveFamilies(Current(w'.store));
    forall n | n in fs' ensures Anchored(cfg, s', w.mem, n, fs'[n]) { }
  }

  lemma LogInKeeps(cfg: Config, w: World, e: Event)
    requires Inv(cfg, w) && e.Login?
    ensures Inv(cfg, LogIn(w, e))
  {
    if Trim(e.clientId) == e.clientId && e.clientId != "" {
      var w', fs := LogIn(w, e), EffectiveFamilies(Current(w.store));
      var (s', access, refresh) := Mint(w.server, e.clientId, e.scope, e.resource, e.at);
      var f := F.LoginFamily(access, refresh, e.at + w.server.accessTtlSeconds * 1000, if e.stamped then Some(e.clientId) else None);
      MintKeepsChain(w.server, e.clientId, e.scope, e.resource, e.at);
      NewLoginIsAnchored(cfg, w.server, w.mem, e, e.login);
      LogInIs(w, e);
      hide Mint, Anchored, ChainInv, F.ServerFamily, F.LoginFamily, EffectiveFamilies, LogIn, LoggedIn, Trim;
      forall n | n in fs && n != e.login
        ensures Anchored(cfg, s', w.mem, n, fs[n]) && F.ServerFamily(s', fs[n]) == F.ServerFamily(w.server, fs[n])
        ensures F.ServerFamily(s', fs[n]) != Some(w.server.nextFamily)
      {
        MintAnchors(cfg, w.server, w.mem, e.clientId, e.scope, e.resource, e.at, n, fs[n]);
      }
      InvOfLogin(cfg, w, w', s', e.login, f);
    }
  }

  lemma {:induction false} RunKeeps(cfg: Config, w: World, run: seq<Event>)
    requires Init(w) && forall i :: 0 <= i < |run| ==> UncancelledCall(run[i])
    ensures Inv(cfg, Exec(cfg, w, run))
  {
    hide Perform, LogIn, CallSafe, MintClientIsFirst, Result, UncancelledCall;
    if run != [] {
      var n := |run| - 1;
      RunKeeps(cfg, w, run[..n]);
      if run[n].Call? { CallKeeps(cfg, Exec(cfg, w, run[..n]), run[n]); } else { LogInKeeps(cfg, Exec(cfg, w, run[..n]), run[n]); }
    }
  }

  /**
   * Over every run of uncancelled calls and logins of one provider whose successes reach the store: a token
   * the server already rotated is never presented under an id other than the one it was minted for, and a
   * success leaves the minting client as the id its family is presented under first from then on.
   */
  lemma FallbackIsSafe(cfg: Config, w: World, run: seq<Event>, i: nat)
    requires Init(w) && i < |run| && run[i].Call? && forall j :: 0 <= j < |run| ==> UncancelledCall(run[j])
    ensures CallSafe(cfg, Exec(cfg, w, run[..i]), run[i])
    ensures
      var before, after := Exec(cfg, w, run[..i]), Exec(cfg, w, run[..i + 1]);
      FamilyIn(before.store, run[i].name).Some? && Result(cfg, before, run[i]).outcome.Refreshed? ==>
        FamilyIn(after.store, run[i].name).Some? && MintClientIsFirst(cfg, after.server, FamilyIn(after.store, run[i].name).value)
  {
    RunKeeps(cfg, w, run[..i]);
    CallKeeps(cfg, Exec(cfg, w, run[..i]), run[i]);
    hide Perform, LogIn, CallSafe, MintClientIsFirst, Result;
    assert run[..i + 1][..i] == run[..i];
  }

  // ── Reaching the minting client, and what a cancellation costs ────────────────────────────────

  predicate Prompt(nets: nat -> Net, n: nat, row: Row) {
    forall k: nat | k < n :: nets(k).delivery.Answered? && !nets(k).overBudget && nets(k).at <= row.expiresAt
  }

  lemma OtherClientIsMismatched(s: Server, t: Token, id: string, net: Net)
    requires ChainInv(s) && t in s.rows && s.rows[t].Live() && Trim(id) != "" && Trim(id) != s.rows[t].clientId
    requires net.delivery.Answered? && net.at <= s.rows[t].expiresAt
    ensures IsClientIdMismatch(Exchange(s, id, t, net).1)
  {
    assert IdOk(s, t);
    ServerAnswersUnderstood(Refused(ClientIdMismatch), net.at);
  }

  lemma MintClientSucceeds(s: Server, t: Token, id: string, net: Net)
    requires ChainInv(s) && t in s.rows && s.rows[t].Live() && Trim(id) != "" && Trim(id) == s.rows[t].clientId
    requires net.delivery.Answered? && net.at <= s.rows[t].expiresAt
    ensures Exchange(s, id, t, net).1.Success?
  {
    assert IdOk(s, t);
    ServerAnswersUnderstood(Handle(s, Form(id, t), net.at).1, net.at);
  }

  lemma {:induction false} UnmovedUntil(s: Server, t: Token, ids: seq<string>, nets: nat -> Net, j: nat, k: nat)
    requires ChainInv(s) && t in s.rows && s.rows[t].Live() && k <= j < |ids| && Prompt(nets, |ids|, s.rows[t])
    requires forall i :: 0 <= i < j ==> Trim(ids[i]) != "" && Trim(ids[i]) != s.rows[t].clientId
    ensures SameChain(s, ServerAfter(s, t, ids, nets, k)) && ChainInv(ServerAfter(s, t, ids, nets, k))
    ensures k < j ==> AsksOn(Answers(s, t, ids, nets)(k))
  {
    hide Exchange;
    if k > 0 {
      UnmovedUntil(s, t, ids, nets, j, k - 1);
      var before := ServerAfter(s, t, ids, nets, k - 1);
      OtherClientIsMismatched(before, t, ids[k - 1], nets(k - 1));
      MismatchWritesNothing(before, ids[k - 1], t, nets(k - 1));
      SameChainKeepsChain(before, ServerAfter(s, t, ids, nets, k));
    }
    if k < j { OtherClientIsMismatched(ServerAfter(s, t, ids, nets, k), t, ids[k], nets(k)); }
  }

  lemma {:induction false} LoopGoesOn(n: nat, answers: nat -> Answer, j: nat, k: nat)
    requires k <= j < n && forall i: nat :: i < j ==> AsksOn(answers(i))
    ensures LastAsked(n, answers, k) == LastAsked(n, answers, j)
    decreases j - k
  {
    if k < j { LoopGoesOn(n, answers, j, k + 1); }
  }

  /** Answered in time, a loop over a live token ends in success at the first candidate that is the minting client. */
  lemma FallbackFindsTheMintClient(s: Server, t: Token, ids: seq<string>, nets: nat -> Net, j: nat)
    requires ChainInv(s) && t in s.rows && s.rows[t].Live() && j < |ids| && Prompt(nets, |ids|, s.rows[t])
    requires s.rows[t].clientId != "" && Trim(ids[j]) == s.rows[t].clientId
    requires forall i :: 0 <= i < j ==> Trim(ids[i]) != "" && Trim(ids[i]) != s.rows[t].clientId
    ensures LastOf(s, t, ids, nets) == j && AnswerAt(s, t, ids, nets, j).result.Success?
  {
    forall i: nat | i < j ensures AsksOn(Answers(s, t, ids, nets)(i)) { UnmovedUntil(s, t, ids, nets, j, i); }
    LoopGoesOn(|ids|, Answers(s, t, ids, nets), j, 0);
    UnmovedUntil(s, t, ids, nets, j, j);
    MintClientSucceeds(ServerAfter(s, t, ids, nets, j), t, ids[j], nets(j));
    assert INVALID_GRANT[0] == 'i';
  }

  /**
   * Why calls must not be cancelled: when the caller aborts a request that rotated the token, the provider
   * forgets the id it used, so the next presentation starts with the default again, and unless that happens
   * to be the minting client the server revokes the family.
   */
  lemma CancelledRotationLeadsToRevocation(cfg: Config, s: Server, mem: Memory, name: FamilyName, ask: Ask, id: string, net: Net, at: int, next: Net)
    requires ChainInv(s) && ask.token in s.rows && s.rows[ask.token].Live() && Trim(id) == s.rows[ask.token].clientId
    requires ask.family.refreshToken == Some(ask.token) && StoredClientId(ask.family).None?
    requires net.delivery == Unanswered(true, true) && !Exchange(s, id, ask.token, net).0.rows[ask.token].Live()
    requires next.delivery.Answered? && Trim(FirstId(cfg, ask.family)) != ""
    ensures
      var (s', r) := Exchange(s, id, ask.token, net);
      var m := Settle(mem, name, ask, id, r, at).0;
      var first := Candidates(cfg, m, name, ask.family, ask.token, FirstId(cfg, ask.family))[0];
      && first == FirstId(cfg, ask.family)
      && (Trim(first) != s.rows[ask.token].clientId ==>
            FamilyIsDead(Exchange(s', first, ask.token, next).0, s.rows[ask.token].family))
  {
    HandleEffect(s, id, ask.token, net.at);
    var (s', r) := Exchange(s, id, ask.token, net);
    ReplayIsGracedIffDirectPredecessor(s', Form(FirstId(cfg, ask.family), ask.token), next.at);
  }
}
