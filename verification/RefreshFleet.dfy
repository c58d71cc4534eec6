/**
 * Many providers, one store, one lock and one rotating authorization server. A step is one provider's
 * entry into the critical section, one request, its write-back, or its death; logins and sign-outs happen
 * under the same lock. Every decision is the provider's own (`Decide`, `Settle`, `Persist`); what its rate
 * limits and dead marks would hold back is allowed here, so the theorems cover it.
 */
module RefreshFleet {
  import opened Basics
  import opened MachineCredentials
  import opened TokenRefresher
  import opened AuthorizationServer
  import opened TokenEndpoint
  import opened CredentialProvider

  datatype Phase =
    | Away
    | Asking(name: FamilyName, ask: Ask, k: nat)
    | Heard(name: FamilyName, ask: Ask, presented: string, result: RefreshResult, at: int)
    | Gone

  datatype Process = Process(cfg: Config, mem: Memory, phase: Phase)

  /** `losses` counts granted answers that never reached the store: lost on the wire, by the disk, or with the process. */
  datatype Fleet = Fleet(server: Server, store: StoreState, holder: Option<nat>, procs: seq<Process>, losses: nat)

  datatype Step =
    | Enter(p: nat, name: FamilyName, snapshot: Family, now: int)
    | Present(p: nat, net: Net)
    | Finish(p: nat, diskFails: bool)
    | Crash(p: nat)
    | Login(name: FamilyName, clientId: string, stamped: bool, scope: set<string>, resource: Option<string>, now: int)
    | SignOut

  function Moved(f: Fleet, p: nat, phase: Phase): seq<Process>
    requires p < |f.procs|
  {
    f.procs[p := f.procs[p].(phase := phase)]
  }

  function DoEnter(f: Fleet, p: nat, name: FamilyName, snapshot: Family, now: int): Fleet {
    if p < |f.procs| && f.procs[p].phase.Away? && f.holder.None? then
      var d := Decide(f.procs[p].cfg, f.procs[p].mem, Some(f.store), name, snapshot, now);
      if d.GoAsk? then f.(holder := Some(p), procs := Moved(f, p, Asking(name, d.ask, 0))) else f
    else f
  }

  predicate MayPresent(f: Fleet, p: nat) {
    p < |f.procs| && f.procs[p].phase.Asking? && f.procs[p].phase.k < |f.procs[p].phase.ask.candidates|
  }

  predicate LosesGrant(s: Server, clientId: string, token: Token, net: Net) {
    Trim(clientId) != "" && net.delivery.Unanswered? && net.delivery.reached && Handle(s, Form(clientId, token), net.at).1.Granted?
  }

  function DoPresent(f: Fleet, p: nat, net: Net): Fleet {
    if MayPresent(f, p) then
      var ph := f.procs[p].phase;
      var id := ph.ask.candidates[ph.k];
      var (s', r) := Exchange(f.server, id, ph.ask.token, net);
      var next :=
        if ph.k + 1 < |ph.ask.candidates| && AsksOn(Answer(r, net.overBudget)) then ph.(k := ph.k + 1)
        else Heard(ph.name, ph.ask, id, r, net.at);
      f.(server := s', procs := Moved(f, p, next),
         losses := f.losses + if LosesGrant(f.server, id, ph.ask.token, net) then 1 else 0)
    else f
  }

  function DoFinish(f: Fleet, p: nat, diskFails: bool): Fleet {
    if p < |f.procs| && f.procs[p].phase.Heard? then
      var ph := f.procs[p].phase;
      var (m, settled) := Settle(f.procs[p].mem, ph.name, ph.ask, ph.presented, ph.result, ph.at);
      var procs := f.procs[p := Process(f.procs[p].cfg, m, Away)];
      match settled
      case Rotated(family) =>
        f.(holder := None, procs := procs,
           store := Persist(f.store, ph.name, family, false, diskFails).0,
           losses := f.losses + if diskFails then 1 else 0)
      case _ => f.(holder := None, procs := procs)
    else f
  }

  function DoCrash(f: Fleet, p: nat): Fleet {
    if p < |f.procs| then
      var ph := f.procs[p].phase;
      f.(procs := Moved(f, p, Gone),
         holder := if f.holder == Some(p) then None else f.holder,
         losses := f.losses + if ph.Heard? && ph.result.Success? then 1 else 0)
    else f
  }

  function LoginFamily(access: Token, refresh: Token, expiresAt: int, clientId: Option<string>): Family {
    Family(Some(access), Some(refresh), Some(expiresAt), clientId, None, map[])
  }

  function DoLogin(f: Fleet, name: FamilyName, clientId: string, stamped: bool, scope: set<string>, resource: Option<string>, now: int): Fleet {
    if f.holder.None? && Trim(clientId) == clientId && clientId != "" then
      var (s', access, refresh) := Mint(f.server, clientId, scope, resource, now);
      var family := LoginFamily(access, refresh, now + f.server.accessTtlSeconds * 1000, if stamped then Some(clientId) else None);
      f.(server := s', store := WriteFamily(f.store, name, family, NO_STAMP, true).0)
    else f
  }

  function Apply(f: Fleet, step: Step): Fleet {
    match step
    case Enter(p, name, snapshot, now) => DoEnter(f, p, name, snapshot, now)
    case Present(p, net) => DoPresent(f, p, net)
    case Finish(p, diskFails) => DoFinish(f, p, diskFails)
    case Crash(p) => DoCrash(f, p)
    case Login(name, clientId, stamped, scope, resource, now) => DoLogin(f, name, clientId, stamped, scope, resource, now)
    case SignOut => if f.holder.None? then f.(store := Missing) else f
  }

  function Exec(f: Fleet, run: seq<Step>): Fleet {
    if run == [] then f else Apply(Exec(f, run[..|run| - 1]), run[|run| - 1])
  }

  predicate Init(f: Fleet) {
    && f.server == NewServer(f.server.graceWindowMs, f.server.accessTtlSeconds)
    && f.store.Missing? && f.holder.None? && f.losses == 0
    && forall p :: 0 <= p < |f.procs| ==> f.procs[p].phase.Away?
  }

  /**
   * The assumption on re-presentations: a token that was already rotated reaches the server again only
   * while its window is open and, when its family stores no client id, under the client it was minted for.
   */
  predicate Prompt(f: Fleet, step: Step) {
    step.Present? && MayPresent(f, step.p) ==>
      var ph := f.procs[step.p].phase;
      var t, id := ph.ask.token, ph.ask.candidates[ph.k];
      t in f.server.rows && !f.server.rows[t].Live() && (step.net.delivery.Unanswered? ==> step.net.delivery.reached) ==>
        && InWindow(f.server, t, step.net.at)
        && (StoredClientId(ph.ask.family).Some? || Trim(id) == f.server.rows[t].clientId)
  }

  ghost predicate PromptThroughout(f: Fleet, run: seq<Step>) {
    forall i :: 0 <= i < |run| ==> Prompt(Exec(f, run[..i]), run[i])
  }

  // ── The invariant ─────────────────────────────────────────────────────────────────────────────

  predicate HeadAfter(s: Server, t: Token, head: Token) {
    t in s.rows && head in s.rows && s.rows[head].Live() && Succeeds(s.rows, t, head)
  }

  /** A stored family: its token is the live row of a server family, or directly precedes it; a stored client id is the mint client. */
  ghost predicate FamilyOk(s: Server, f: Family) {
    && f.refreshToken.Some? && f.refreshToken.value in s.rows
    && var t := f.refreshToken.value;
    && s.rows[t].clientId != "" && Trim(s.rows[t].clientId) == s.rows[t].clientId
    && (StoredClientId(f).Some? ==> StoredClientId(f).value == s.rows[t].clientId)
    && (s.rows[t].Live() || exists head :: HeadAfter(s, t, head))
  }

  function ServerFamily(s: Server, f: Family): Option<nat> {
    if f.refreshToken.Some? && f.refreshToken.value in s.rows then Some(s.rows[f.refreshToken.value].family) else None
  }

  ghost predicate StoreOk(s: Server, fs: Families) {
    && (forall n :: n in fs ==> FamilyOk(s, fs[n]))
    && (forall m, n :: m in fs && n in fs && m != n ==> ServerFamily(s, fs[m]) != ServerFamily(s, fs[n]))
  }

  ghost predicate PhaseOk(f: Fleet, ph: Phase) {
    match ph
    case Asking(name, ask, k) =>
      && FamilyIn(f.store, name) == Some(ask.family) && ask.family.refreshToken == Some(ask.token)
      && k < |ask.candidates|
      && (StoredClientId(ask.family).Some? ==> ask.candidates == [ask.clientId] && Some(ask.clientId) == StoredClientId(ask.family))
    case Heard(name, ask, presented, result, _) =>
      && FamilyIn(f.store, name) == Some(ask.family) && ask.family.refreshToken == Some(ask.token)
      && (StoredClientId(ask.family).Some? ==> presented == ask.clientId)
      && (result.Success? ==>
            && result.accessToken.Tok? && result.refreshToken.Some?
            && HeadAfter(f.server, ask.token, result.refreshToken.value)
            && !f.server.rows[ask.token].Live()
            && Trim(presented) == f.server.rows[ask.token].clientId)
    case _ => true
  }

  ghost predicate ProcOk(f: Fleet, p: nat)
    requires p < |f.procs|
  {
    && PhaseOk(f, f.procs[p].phase)
    && (f.procs[p].phase.Asking? || f.procs[p].phase.Heard? ==> f.holder == Some(p))
  }

  /** The family whose successor is in the holder's hands, heard but not yet written. */
  function InHand(f: Fleet): Option<FamilyName> {
    if f.holder.Some? && f.holder.value < |f.procs| then
      var ph := f.procs[f.holder.value].phase;
      if ph.Heard? && ph.result.Success? then Some(ph.name) else None
    else None
  }

  predicate LiveToken(s: Server, t: Option<Token>) {
    t.Some? && t.value in s.rows && s.rows[t.value].Live()
  }

  function BehindOf(s: Server, fs: Families, inHand: Option<FamilyName>): set<FamilyName> {
    set n | n in fs && !LiveToken(s, fs[n].refreshToken) && inHand != Some(n)
  }

  /** The stored families a rotation has left behind. */
  function Behind(f: Fleet): set<FamilyName> {
    BehindOf(f.server, EffectiveFamilies(Current(f.store)), InHand(f))
  }

  ghost predicate Inv(f: Fleet) {
    && ChainInv(f.server)
    && StoreOk(f.server, EffectiveFamilies(Current(f.store)))
    && (forall p: nat :: p < |f.procs| ==> ProcOk(f, p))
    && f.server.counters.familyRevokes == 0
    && f.server.counters.graceHits + |Behind(f)| <= f.losses
  }
}
