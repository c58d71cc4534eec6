/**
 * What a refresh leaves its caller with, in terms of the store it read, the server's answer and the log alone:
 * which family an answer makes, where it is stored, and which access token is handed out.
 */
module RenewedFamilies {
  import opened Basics
  import opened MachineCredentials
  import opened TokenRefresher
  import opened DeadFamilyMemo
  import opened CredentialProvider

  // ── The family an answer makes ────────────────────────────────────────────────────────────────

  predicate StoresNoClient(f: Family) {
    f.clientId.None? || Trim(f.clientId.value) == ""
  }

  /**
   * `f` is `found` with the answer's tokens: the old refresh token stays when the server did not rotate it, and
   * the id presented is recorded when it was a fallback.
   */
  predicate Renews(cfg: Config, found: Family, presented: string, answer: RefreshResult, f: Family) {
    && answer.Success? && answer.accessToken.Tok?
    && f.accessToken == Some(answer.accessToken) && f.expiresAt == answer.expiresAt
    && f.refreshToken == (if answer.refreshToken.Some? then answer.refreshToken else found.refreshToken)
    && f.clientId == (if StoresNoClient(found) && cfg.defaultClientId != Some(presented) then Some(presented) else found.clientId)
    && f.scope == found.scope && f.extra == found.extra
  }

  /** The document with this one family replaced, and the rest of it as it was. */
  predicate Replaces(before: Document, after: Document, name: FamilyName, f: Family) {
    && EffectiveFamilies(after) == EffectiveFamilies(before)[name := f] && WellMirrored(after)
    && after.subject == before.subject && after.serverTarget == before.serverTarget && after.extra == before.extra
  }

  /** A document read under the lock shows this family. */
  predicate Shows(found: Option<StoreState>, name: FamilyName, f: Family) {
    && found.Some? && found.value.Readable?
    && name in EffectiveFamilies(found.value.document) && EffectiveFamilies(found.value.document)[name] == f
  }

  /** The answer to the last id presented. */
  function AnswerTo(e: AttemptEnv, asked: Entry): RefreshResult
    requires asked.Asked? && asked.presented != []
  {
    e.answers(|asked.presented| - 1).result
  }

  predicate Answered(e: AttemptEnv, asked: Entry) {
    && asked.Asked? && asked.presented != [] && asked.at == e.at
    && AnswerTo(e, asked).Success? && AnswerTo(e, asked).accessToken.Tok?
  }

  /** A refreshed family: what the answer makes of the family read, stored on top of the document read unless the store refuses it. */
  predicate Renewed(cfg: Config, name: FamilyName, e: AttemptEnv, asked: Entry, f: Family, document: Option<Document>, after: StoreState) {
    && Answered(e, asked) && asked.name == name
    && e.found.Some? && e.found.value.Readable?
    && var before := e.found.value.document;
    && name in EffectiveFamilies(before)
    && EffectiveFamilies(before)[name].refreshToken == Some(asked.token)
    && Renews(cfg, EffectiveFamilies(before)[name], asked.presented[|asked.presented| - 1], AnswerTo(e, asked), f)
    && (document.None? <==> e.corrupted || e.diskFails)
    && (document.None? ==> after == if e.corrupted then Unreadable else e.found.value)
    && (document.Some? ==> after == Readable(document.value) && Replaces(before, document.value, name, f))
  }

  // ── One attempt ───────────────────────────────────────────────────────────────────────────────

  /** A peer's tokens: other than the caller's, and not due for a refresh as far as is known. */
  predicate Fresh(cfg: Config, f: Family, snapshot: Family, now: int) {
    Truthy(f.accessToken) && f.accessToken != snapshot.accessToken && (f.expiresAt.None? || f.expiresAt.value - now > cfg.skewMs)
  }

  predicate Adoptable(cfg: Config, found: Option<StoreState>, name: FamilyName, snapshot: Family, now: int) {
    && found.Some? && found.value.Readable? && name in EffectiveFamilies(found.value.document)
    && Fresh(cfg, EffectiveFamilies(found.value.document)[name], snapshot, now)
  }

  /** What the read shows can go to the server: a refresh token, and an id to present it under. */
  predicate Presentable(cfg: Config, found: Option<StoreState>, name: FamilyName) {
    && found.Some? && found.value.Readable? && name in EffectiveFamilies(found.value.document)
    && var f := EffectiveFamilies(found.value.document)[name];
    && Truthy(f.refreshToken)
    && (StoresNoClient(f) ==> cfg.defaultClientId.Some? && cfg.defaultClientId.value != "")
  }

  /**
   * The ids a token goes out under: its own, or the default and the fallbacks, beginning with the one a
   * transient failure left pending; each but the last was answered with a mismatch in time, and if the last was
   * too, every id has been tried.
   */
  predicate Offers(cfg: Config, mem: Memory, name: FamilyName, f: Family, e: AttemptEnv, asked: Entry)
    requires asked.Asked? && asked.presented != []
  {
    var ids, n := asked.presented, |asked.presented|;
    var pending := name in mem.pending && mem.pending[name].token == asked.token;
    && (forall k :: 0 <= k < n - 1 ==> IsClientIdMismatch(e.answers(k).result) && !e.answers(k).overBudget)
    && (!StoresNoClient(f) ==> ids == [Trim(f.clientId.value)])
    && (StoresNoClient(f) && cfg.defaultClientId.Some? ==>
          var listed := [cfg.defaultClientId.value] + cfg.fallbackClientIds;
          && (forall id :: id in ids ==> id in listed)
          && ids[0] == (if pending && mem.pending[name].clientId in listed then mem.pending[name].clientId else cfg.defaultClientId.value)
          && (IsClientIdMismatch(e.answers(n - 1).result) && !e.answers(n - 1).overBudget ==> forall id :: id in listed ==> id in ids))
  }

  /** What an attempt leaves in memory: when it went out, and under which id if that failed for the moment. */
  predicate Notes(mem: Memory, after: Memory, name: FamilyName, asked: Entry, answer: RefreshResult)
    requires asked.Asked? && asked.presented != []
  {
    var transient := answer.Failure? && answer.transient;
    && after.lastAttempt == mem.lastAttempt[name := Attempt(asked.at, transient)]
    && after.pending == (if transient then mem.pending[name := Pending(asked.token, asked.presented[|asked.presented| - 1])] else mem.pending - {name})
    && after.dead == mem.dead
  }

  /** The outcome of one attempt, from the lock, the read, and the answer to the last id it presented. */
  predicate AttemptTells(cfg: Config, mem: Memory, name: FamilyName, snapshot: Family, e: AttemptEnv, retry: bool, s: Section) {
    var asks := !e.busy && !Adoptable(cfg, e.found, name, snapshot, e.at) && Presentable(cfg, e.found, name);
    && (s.outcome.Busy? <==> e.busy)
    && (s.outcome.StoreUnreadable? <==> !e.busy && e.found == Some(Unreadable))
    && (s.outcome.AdoptedPeer? <==> !e.busy && Adoptable(cfg, e.found, name, snapshot, e.at))
    && (s.outcome.AdoptedPeer? ==> Shows(e.found, name, s.outcome.family) && s.outcome.adopted == e.found.value.document)
    && (!asks ==> (forall k :: 0 <= k < |s.log| ==> !s.log[k].Asked?) && s.mem.(lastFailure := mem.lastFailure) == mem)
    && (!asks && !e.busy && e.found.Some? ==> s.store == e.found.value) && (!asks && s.outcome.Failed? ==> !s.outcome.transient)
    && (asks ==> |s.log| == 2 && s.log[0].Saw? && NetworkTells(cfg, mem, name, e, retry, s, s.log[1]))
    && (s.outcome.Refreshed? || s.outcome.InvalidGrant? ==> asks) && !s.outcome.FamilyDead?
  }

  /** The outcome of an attempt that went to the server. */
  predicate NetworkTells(cfg: Config, mem: Memory, name: FamilyName, e: AttemptEnv, retry: bool, s: Section, asked: Entry)
    requires Presentable(cfg, e.found, name)
  {
    var f := EffectiveFamilies(e.found.value.document)[name];
    && asked.Asked? && asked.presented != [] && asked.name == name && asked.at == e.at && asked.retry == retry
    && f.refreshToken == Some(asked.token)
    && Offers(cfg, mem, name, f, e, asked) && Notes(mem, s.mem, name, asked, AnswerTo(e, asked))
    && (s.outcome.Refreshed? <==> Answered(e, asked))
    && (s.outcome.Refreshed? ==> Renewed(cfg, name, e, asked, s.outcome.family, s.outcome.document, s.store))
    && (s.outcome.InvalidGrant? <==> IsVerdict(AnswerTo(e, asked)))
    && (s.outcome.InvalidGrant? ==>
          s.outcome.presented == asked.token && s.outcome.code == AnswerTo(e, asked).reason && s.outcome.description == AnswerTo(e, asked).description)
    && (s.outcome.Failed? ==> (s.outcome.transient <==> AnswerTo(e, asked).Failure? && AnswerTo(e, asked).transient))
    && (!s.outcome.Refreshed? ==> s.store == e.found.value)
    && (s.outcome.Refreshed? || s.outcome.InvalidGrant? || s.outcome.Failed?)
  }

  // ── Proofs ────────────────────────────────────────────────────────────────────────────────────

  lemma SettleRenews(cfg: Config, mem: Memory, name: FamilyName, f: Family, ask: Ask, presented: string, result: RefreshResult, at: int)
    requires ask.family == f && f.refreshToken == Some(ask.token)
    requires ask.clientId == OrElse(StoredClientId(f), OrElse(cfg.defaultClientId, "")) && ask.clientId != ""
    requires !StoresNoClient(f) ==> presented == ask.clientId
    ensures
      var (m, settled) := Settle(mem, name, ask, presented, result, at);
      && (settled.Rotated? <==> result.Success? && result.accessToken.Tok?)
      && (settled.Rotated? ==> Renews(cfg, f, presented, result, settled.family))
      && (settled.Condemned? <==> IsVerdict(result))
      && (settled.Condemned? ==> settled.code == result.reason && settled.description == result.description)
      && (settled.NotNow? ==> (settled.transient <==> result.Failure? && result.transient))
  {
    hide DescribeFailure, IsClientIdMismatch, Trim;
  }

  lemma PersistReplaces(store: StoreState, name: FamilyName, f: Family, corrupted: bool, diskFails: bool)
    requires store.Readable?
    ensures
      var (after, document) := Persist(store, name, f, corrupted, diskFails);
      && (document.None? <==> corrupted || diskFails)
      && (document.None? ==> after == if corrupted then Unreadable else store)
      && (document.Some? ==> after == Readable(document.value) && Replaces(store.document, document.value, name, f))
  {
    FamilyWriteFrame(store.document, name, f, NO_STAMP);
    hide WithFamily, Persisted, EffectiveFamilies, WellMirrored;
  }

  /** Up to the last id presented every answer was a mismatch in time. */
  lemma {:induction false} LastAskedIs(n: nat, answers: nat -> Answer, k: nat)
    requires k < n
    ensures
      var last := LastAsked(n, answers, k);
      && (forall j :: k <= j < last ==> AsksOn(answers(j)))
      && (last + 1 < n ==> !AsksOn(answers(last)))
    decreases n - k
  {
    hide AsksOn;
    if k + 1 < n && AsksOn(answers(k)) { LastAskedIs(n, answers, k + 1); }
  }

  lemma {:induction false} WithoutMembers(ids: seq<string>, id: string)
    ensures forall x :: x in Without(ids, id) <==> x in ids && x != id
  {
    if ids != [] {
      WithoutMembers(ids[1..], id);
      assert ids == [ids[0]] + ids[1..];
    }
  }

  lemma CandidatesAre(cfg: Config, mem: Memory, name: FamilyName, f: Family, token: Token, clientId: string)
    requires clientId == OrElse(StoredClientId(f), OrElse(cfg.defaultClientId, "")) && clientId != ""
    ensures
      var ids := Candidates(cfg, mem, name, f, token, clientId);
      var pending := name in mem.pending && mem.pending[name].token == token;
      && (!StoresNoClient(f) ==> ids == [Trim(f.clientId.value)])
      && (StoresNoClient(f) && cfg.defaultClientId.Some? ==>
            var listed := [cfg.defaultClientId.value] + cfg.fallbackClientIds;
            && (forall id :: id in ids <==> id in listed)
            && ids[0] == (if pending && mem.pending[name].clientId in listed then mem.pending[name].clientId else cfg.defaultClientId.value))
  {
    hide Trim;
    var base := BaseCandidates(cfg, f, clientId);
    if name in mem.pending && mem.pending[name].token == token && mem.pending[name].clientId in base {
      WithoutMembers(base, mem.pending[name].clientId);
      WithoutOnly(clientId);
    }
  }

  /** The ask a decision makes of the family it read. */
  predicate Chosen(cfg: Config, mem: Memory, name: FamilyName, f: Family, ask: Ask) {
    && ask.family == f && f.refreshToken == Some(ask.token)
    && ask.clientId == OrElse(StoredClientId(f), OrElse(cfg.defaultClientId, "")) && ask.clientId != ""
    && ask.candidates == Candidates(cfg, mem, name, f, ask.token, ask.clientId)
  }

  /** The entry of an ask: the ids up to the one whose answer ended the loop. */
  predicate Entered(e: AttemptEnv, ask: Ask, asked: Entry) {
    && asked.Asked? && asked.token == ask.token && ask.candidates != []
    && asked.presented == ask.candidates[..LastAsked(|ask.candidates|, e.answers, 0) + 1]
  }

  lemma OffersHold(cfg: Config, mem: Memory, name: FamilyName, f: Family, ask: Ask, e: AttemptEnv, asked: Entry)
    requires Chosen(cfg, mem, name, f, ask) && Entered(e, ask, asked)
    ensures Offers(cfg, mem, name, f, e, asked)
  {
    CandidatesAre(cfg, mem, name, f, ask.token, ask.clientId);
    LastAskedIs(|ask.candidates|, e.answers, 0);
    hide Candidates, LastAsked, Trim, IsClientIdMismatch;
    var last := LastAsked(|ask.candidates|, e.answers, 0);
    if last + 1 == |ask.candidates| { assert asked.presented == ask.candidates; }
  }

  lemma NotesHold(mem: Memory, name: FamilyName, ask: Ask, asked: Entry, answer: RefreshResult)
    requires asked.Asked? && asked.presented != [] && asked.token == ask.token
    ensures Notes(mem, Settle(mem, name, ask, asked.presented[|asked.presented| - 1], answer, asked.at).0, name, asked, answer)
  {
    hide DescribeFailure, IsClientIdMismatch, IsVerdict;
  }

  lemma AskServerTells(cfg: Config, mem: Memory, name: FamilyName, ask: Ask, e: AttemptEnv, retry: bool)
    requires Presentable(cfg, e.found, name) && Chosen(cfg, mem, name, EffectiveFamilies(e.found.value.document)[name], ask)
    ensures
      var s := AskServer(mem, e.found.value, name, ask, e, retry);
      |s.log| == 1 && NetworkTells(cfg, mem, name, e, retry, s, s.log[0])
  {
    hide Candidates, LastAsked, Persist, EffectiveFamilies, Renews, Replaces, Trim, IsVerdict, Offers, Notes, Settle, IsClientIdMismatch;
    var f := EffectiveFamilies(e.found.value.document)[name];
    var s := AskServer(mem, e.found.value, name, ask, e, retry);
    var last := LastAsked(|ask.candidates|, e.answers, 0);
    var presented, result := ask.candidates[last], e.answers(last).result;
    assert ask.candidates[..last + 1][last] == presented;
    OwnIdIsPresented(cfg, mem, name, f, ask, last);
    SettleRenews(cfg, mem, name, f, ask, presented, result, e.at);
    var settled := Settle(mem, name, ask, presented, result, e.at).1;
    if settled.Rotated? { PersistReplaces(e.found.value, name, settled.family, e.corrupted, e.diskFails); }
    OffersHold(cfg, mem, name, f, ask, e, s.log[0]);
    NotesHold(mem, name, ask, s.log[0], result);
    hide Chosen, Presentable;
  }

  lemma OwnIdIsPresented(cfg: Config, mem: Memory, name: FamilyName, f: Family, ask: Ask, k: nat)
    requires Chosen(cfg, mem, name, f, ask) && k < |ask.candidates|
    ensures !StoresNoClient(f) ==> ask.candidates[k] == ask.clientId
  {
    CandidatesAre(cfg, mem, name, f, ask.token, ask.clientId);
    hide Candidates, Trim;
  }

  lemma DecideTells(cfg: Config, mem: Memory, found: Option<StoreState>, name: FamilyName, snapshot: Family, now: int)
    ensures
      var d := Decide(cfg, mem, found, name, snapshot, now);
      && (d.ReadFailed? <==> found.None?) && (d.FoundUnreadable? <==> found == Some(Unreadable))
      && (d.Adopt? <==> Adoptable(cfg, found, name, snapshot, now))
      && (d.Adopt? ==> Shows(found, name, d.family) && d.document == found.value.document)
      && (d.GoAsk? <==> !Adoptable(cfg, found, name, snapshot, now) && Presentable(cfg, found, name))
      && (d.GoAsk? ==> Chosen(cfg, mem, name, EffectiveFamilies(found.value.document)[name], d.ask))
  {
    hide Candidates, Trim;
  }

  /** Every attempt, whatever the environment does, ends as `AttemptTells` says. */
  lemma AttemptMeans(cfg: Config, mem: Memory, store: StoreState, name: FamilyName, snapshot: Family, e: AttemptEnv, retry: bool)
    ensures AttemptTells(cfg, mem, name, snapshot, e, retry, LockedAttempt(cfg, mem, store, name, snapshot, e, retry))
  {
    hide Candidates, Decide, Adoptable, Presentable, Chosen, NetworkTells, AskServer, EffectiveFamilies, RefreshTokenIn;
    DecideTells(cfg, mem, e.found, name, snapshot, e.at);
    var d := Decide(cfg, mem, e.found, name, snapshot, e.at);
    if !e.busy && d.GoAsk? {
      AskServerTells(cfg, mem, name, d.ask, e, retry);
      LogIsNotRead(cfg, mem, name, e, retry, AskServer(mem, e.found.value, name, d.ask, e, retry),
                   LockedAttempt(cfg, mem, store, name, snapshot, e, retry));
    }
  }

  lemma LogIsNotRead(cfg: Config, mem: Memory, name: FamilyName, e: AttemptEnv, retry: bool, s: Section, t: Section)
    requires Presentable(cfg, e.found, name) && |s.log| == 1 && |t.log| == 2 && s.log[0] == t.log[1] && t == s.(log := t.log)
    requires NetworkTells(cfg, mem, name, e, retry, s, s.log[0])
    ensures NetworkTells(cfg, mem, name, e, retry, t, t.log[1]) && (t.outcome.Refreshed? || t.outcome.InvalidGrant? || t.outcome.Failed?)
  {
    hide Presentable, Offers, Notes, Renewed, EffectiveFamilies, IsVerdict;
  }

  // ── One call ──────────────────────────────────────────────────────────────────────────────────

  /** Which of the two attempts an entry belongs to. */
  function AttemptOf(env: CallEnv, asked: Entry): AttemptEnv
    requires asked.Asked?
  {
    if asked.retry then env.second else env.first
  }

  predicate EndsAnswered(env: CallEnv, log: seq<Entry>) {
    log != [] && log[|log| - 1].Asked? && Answered(AttemptOf(env, log[|log| - 1]), log[|log| - 1])
  }

  /** The log ends in an answer that condemned the token, and the outcome says which token and why. */
  predicate EndsCondemned(env: CallEnv, log: seq<Entry>, outcome: Outcome)
    requires outcome.InvalidGrant?
  {
    && log != [] && log[|log| - 1].Asked? && log[|log| - 1].presented != []
    && var asked := log[|log| - 1];
    var answer := AnswerTo(AttemptOf(env, asked), asked);
    IsVerdict(answer) && outcome == InvalidGrant(answer.reason, answer.description, asked.token)
  }

  /** A death said now is that of a token some entry sent, for the reason its answer gave, and an event about it says the same. */
  predicate DeathTells(name: FamilyName, env: CallEnv, log: seq<Entry>, reason: string) {
    exists k :: 0 <= k < |log| && CondemnedAt(name, env, log, k, reason)
  }

  predicate CondemnedAt(name: FamilyName, env: CallEnv, log: seq<Entry>, k: nat, reason: string)
    requires k < |log|
  {
    && log[k].Asked? && log[k].presented != []
    && var answer := AnswerTo(AttemptOf(env, log[k]), log[k]);
    && IsVerdict(answer) && reason == DescribeFailure(answer.reason, answer.description)
    && forall j :: k < j < |log| ==> log[j].Saw? || log[j] == Telemetry(name, log[k].token, answer.reason, answer.description)
  }

  /** A family another process left in the store, as one of the call's reads showed it. */
  predicate Adopted(name: FamilyName, env: CallEnv, f: Family, d: Document) {
    || (Shows(env.first.found, name, f) && env.first.found == Some(Readable(d)))
    || (Shows(env.second.found, name, f) && env.second.found == Some(Readable(d)))
    || (Shows(env.reRead, name, f) && env.reRead == Some(Readable(d)))
  }

  /** A call goes on to the lock unless the family is marked or recorded dead with this token, or was tried too recently. */
  predicate GoesOn(cfg: Config, mem: Memory, sidecar: Sidecar, name: FamilyName, snapshot: Family, now: int) {
    && !(name in mem.dead && mem.dead[name].token == snapshot.refreshToken)
    && (name in mem.lastAttempt ==> now - mem.lastAttempt[name].at >= if mem.lastAttempt[name].transient then 5_000 else cfg.skewMs)
    && !(cfg.persistMemo && snapshot.refreshToken.Some? && MatchIn(sidecar, snapshot.refreshToken.value).Some?)
  }

  /** The outcome of a call, from what its reads showed and its last entry. */
  predicate OutcomeTells(cfg: Config, name: FamilyName, env: CallEnv, outcome: Outcome, store: StoreState, log: seq<Entry>) {
    && (outcome.Refreshed? <==> EndsAnswered(env, log))
    && (outcome.Refreshed? ==>
          var asked := log[|log| - 1];
          Renewed(cfg, name, AttemptOf(env, asked), asked, outcome.family, outcome.document, store))
    && (outcome.AdoptedPeer? ==> Adopted(name, env, outcome.family, outcome.adopted))
    && (outcome.Busy? ==> env.first.busy || env.second.busy)
    && (outcome.StoreUnreadable? ==> env.first.found == Some(Unreadable) || env.second.found == Some(Unreadable))
    && !outcome.InvalidGrant?
  }

  predicate CallTells(cfg: Config, mem: Memory, sidecar: Sidecar, store: StoreState, name: FamilyName, snapshot: Family, env: CallEnv, c: Call) {
    var open := GoesOn(cfg, mem, sidecar, name, snapshot, env.now);
    && c.log != [] && c.log[0] == Saw(name, snapshot.refreshToken)
    && (!open ==> |c.log| == 1 && c.store == store && c.sidecar == sidecar && (c.outcome.FamilyDead? || c.outcome.Failed?))
    && (open && env.first.busy ==> c.outcome.Busy? && c.store == store)
    && (open && !env.first.busy && Adoptable(cfg, env.first.found, name, snapshot, env.first.at) ==>
          c.outcome.AdoptedPeer? && Shows(env.first.found, name, c.outcome.family))
    && (open && !env.first.busy && env.first.found == Some(Unreadable) ==> c.outcome.StoreUnreadable?)
    && (open && c.outcome.FamilyDead? ==> DeathTells(name, env, c.log, c.outcome.reason))
    && OutcomeTells(cfg, name, env, c.outcome, c.store, c.log)
  }

  predicate AttemptsTell(cfg: Config, store: StoreState, name: FamilyName, snapshot: Family, env: CallEnv, s: Section) {
    && (env.first.busy ==> s.outcome.Busy? && s.store == store)
    && (!env.first.busy && Adoptable(cfg, env.first.found, name, snapshot, env.first.at) ==>
          s.outcome.AdoptedPeer? && Shows(env.first.found, name, s.outcome.family))
    && (!env.first.busy && env.first.found == Some(Unreadable) ==> s.outcome.StoreUnreadable?)
    && (s.outcome.InvalidGrant? ==> !EndsAnswered(env, s.log) && EndsCondemned(env, s.log, s.outcome))
    && !s.outcome.FamilyDead?
    && OutcomeTells(cfg, name, env, if s.outcome.InvalidGrant? then Failed("", false) else s.outcome, s.store, s.log)
  }

  lemma OneAttemptTells(cfg: Config, mem: Memory, name: FamilyName, snapshot: Family, env: CallEnv, retry: bool, s: Section)
    requires AttemptTells(cfg, mem, name, snapshot, if retry then env.second else env.first, retry, s)
    ensures OutcomeTells(cfg, name, env, if s.outcome.InvalidGrant? then Failed("", false) else s.outcome, s.store, s.log)
    ensures s.outcome.Refreshed? || s.outcome.InvalidGrant? ==> s.log != []
  {
    hide Adoptable, Presentable, Renewed, Offers, Notes, EffectiveFamilies;
  }

  /** A transient failure ends in a log that shows no success. */
  lemma FailedIsUnanswered(cfg: Config, mem: Memory, name: FamilyName, snapshot: Family, env: CallEnv, s: Section)
    requires AttemptTells(cfg, mem, name, snapshot, env.first, false, s) && s.outcome.Failed?
    ensures !EndsAnswered(env, s.log) && !env.first.busy && !Adoptable(cfg, env.first.found, name, snapshot, env.first.at)
    ensures env.first.found != Some(Unreadable)
  {
    OneAttemptTells(cfg, mem, name, snapshot, env, false, s);
    hide Adoptable, Presentable, NetworkTells, EffectiveFamilies, EndsAnswered;
  }

  /** A second attempt whose log follows the first one's. */
  lemma AfterFirstTells(cfg: Config, name: FamilyName, env: CallEnv, before: seq<Entry>, outcome: Outcome, store: StoreState, log: seq<Entry>)
    requires OutcomeTells(cfg, name, env, outcome, store, log) && !EndsAnswered(env, before)
    ensures OutcomeTells(cfg, name, env, outcome, store, before + log)
  {
    hide Renewed, Answered, Adopted;
    if log == [] { assert before + log == before; }
  }

  lemma AttemptsMean(cfg: Config, mem: Memory, store: StoreState, name: FamilyName, snapshot: Family, retryTransient: bool, env: CallEnv)
    ensures AttemptsTell(cfg, store, name, snapshot, env, Attempts(cfg, mem, store, name, snapshot, retryTransient, env))
  {
    var first := LockedAttempt(cfg, mem, store, name, snapshot, env.first, false);
    AttemptMeans(cfg, mem, store, name, snapshot, env.first, false);
    OneAttemptTells(cfg, mem, name, snapshot, env, false, first);
    if RetriesNow(first.outcome, retryTransient, env) {
      FailedIsUnanswered(cfg, mem, name, snapshot, env, first);
      var second := LockedAttempt(cfg, first.mem, first.store, name, snapshot, env.second, true);
      AttemptMeans(cfg, first.mem, first.store, name, snapshot, env.second, true);
      OneAttemptTells(cfg, first.mem, name, snapshot, env, true, second);
      CondemnedIsUnanswered(cfg, first.mem, name, snapshot, env, true, second);
      hide LockedAttempt, AttemptTells, OutcomeTells, EndsAnswered, EndsCondemned, Adoptable;
      AfterFirstTells(cfg, name, env, first.log, if second.outcome.InvalidGrant? then Failed("", false) else second.outcome, second.store, second.log);
      if second.outcome.InvalidGrant? { LastOfSum(env, first.log, second.log, second.outcome); }
    } else {
      CondemnedIsUnanswered(cfg, mem, name, snapshot, env, false, first);
      hide LockedAttempt, OutcomeTells, EndsAnswered, EndsCondemned, Adoptable, Presentable, NetworkTells;
    }
  }

  lemma CondemnedIsUnanswered(cfg: Config, mem: Memory, name: FamilyName, snapshot: Family, env: CallEnv, retry: bool, s: Section)
    requires AttemptTells(cfg, mem, name, snapshot, if retry then env.second else env.first, retry, s)
    ensures s.outcome.InvalidGrant? ==> !EndsAnswered(env, s.log) && s.log != [] && EndsCondemned(env, s.log, s.outcome)
    ensures !s.outcome.FamilyDead?
  {
    hide Adoptable, Presentable, Renewed, Offers, Notes, EffectiveFamilies;
  }

  lemma LastOfSum(env: CallEnv, a: seq<Entry>, b: seq<Entry>, outcome: Outcome)
    requires b != [] && outcome.InvalidGrant?
    ensures EndsAnswered(env, a + b) <==> EndsAnswered(env, b)
    ensures EndsCondemned(env, a + b, outcome) <==> EndsCondemned(env, b, outcome)
  {
    hide Answered;
  }

  lemma GateTells(cfg: Config, mem: Memory, sidecar: Sidecar, name: FamilyName, snapshot: Family, now: int)
    ensures GateOf(cfg, mem, sidecar, name, snapshot, now).Proceed? <==> GoesOn(cfg, mem, sidecar, name, snapshot, now)
    ensures
      var g := GateOf(cfg, mem, sidecar, name, snapshot, now);
      g.Answered? ==> g.outcome.FamilyDead? || g.outcome.Failed?
  {
    hide MatchIn;
  }

  lemma MovedOnTells(cfg: Config, s: Section, sidecar: Sidecar, name: FamilyName, env: CallEnv)
    requires s.outcome.InvalidGrant? && !EndsAnswered(env, s.log)
    ensures
      var c := AfterVerdict(cfg, s, sidecar, name, env);
      && (c.outcome.AdoptedPeer? || c.outcome.FamilyDead?) && |s.log| <= |c.log| && c.log[..|s.log|] == s.log
      && (c.outcome.AdoptedPeer? ==> Adopted(name, env, c.outcome.family, c.outcome.adopted))
      && !EndsAnswered(env, c.log)
  {
    hide DescribeFailure, WriteTo, Answered, EffectiveFamilies;
  }

  lemma DeadTells(cfg: Config, s: Section, sidecar: Sidecar, name: FamilyName, env: CallEnv)
    requires s.outcome.InvalidGrant? && EndsCondemned(env, s.log, s.outcome)
    ensures
      var c := AfterVerdict(cfg, s, sidecar, name, env);
      c.outcome.FamilyDead? ==> DeathTells(name, env, c.log, c.outcome.reason)
  {
    hide DescribeFailure, WriteTo, IsVerdict, FamilyIn, EffectiveFamilies;
    var c := AfterVerdict(cfg, s, sidecar, name, env);
    if c.outcome.FamilyDead? { assert CondemnedAt(name, env, c.log, |s.log| - 1, c.outcome.reason); }
  }

  /** A verdict's aftermath: the token is adopted if it moved on, and otherwise dead. */
  lemma VerdictTells(cfg: Config, s: Section, saw: Entry, sidecar: Sidecar, name: FamilyName, env: CallEnv)
    requires s.outcome.InvalidGrant? && saw.Saw? && !EndsAnswered(env, s.log) && EndsCondemned(env, s.log, s.outcome)
    ensures
      var c := AfterVerdict(cfg, s.(log := [saw] + s.log), sidecar, name, env);
      && OutcomeTells(cfg, name, env, c.outcome, c.store, c.log) && (c.outcome.AdoptedPeer? || c.outcome.FamilyDead?)
      && c.log != [] && c.log[0] == saw
      && (c.outcome.FamilyDead? ==> DeathTells(name, env, c.log, c.outcome.reason))
  {
    var t := s.(log := [saw] + s.log);
    LastOfSum(env, [saw], s.log, s.outcome);
    hide AfterVerdict, EndsAnswered, EndsCondemned, DeathTells, Adopted;
    MovedOnTells(cfg, t, sidecar, name, env);
    DeadTells(cfg, t, sidecar, name, env);
    var c := AfterVerdict(cfg, t, sidecar, name, env);
    assert c.log[0] == t.log[0];
  }

  lemma ClosedTells(cfg: Config, name: FamilyName, env: CallEnv, outcome: Outcome, store: StoreState, saw: Entry)
    requires saw.Saw? && (outcome.FamilyDead? || outcome.Failed?)
    ensures OutcomeTells(cfg, name, env, outcome, store, [saw]) && !EndsAnswered(env, [saw])
  {
  }

  /** Every call, whatever its environment does, ends as `CallTells` says. */
  lemma CallMeans(cfg: Config, mem: Memory, sidecar: Sidecar, store: StoreState, name: FamilyName, snapshot: Family, retryTransient: bool, env: CallEnv)
    ensures CallTells(cfg, mem, sidecar, store, name, snapshot, env, RefreshFamily(cfg, mem, sidecar, store, name, snapshot, retryTransient, env))
  {
    GateTells(cfg, mem, sidecar, name, snapshot, env.now);
    var g := GateOf(cfg, mem, sidecar, name, snapshot, env.now);
    var saw := Saw(name, snapshot.refreshToken);
    ClosedTells(cfg, name, env, Failed("", false), store, saw);
    hide GateOf, GoesOn, Attempts, AfterVerdict, EndsAnswered, EndsCondemned, DeathTells, Adoptable, Shows, OutcomeTells;
    if g.Proceed? {
      AttemptsMean(cfg, g.mem, store, name, snapshot, retryTransient, env);
      var s := Attempts(cfg, g.mem, store, name, snapshot, retryTransient, env);
      if s.outcome.InvalidGrant? {
        VerdictTells(cfg, s, saw, sidecar, name, env);
      } else {
        AfterFirstTells(cfg, name, env, [saw], s.outcome, s.store, s.log);
      }
    } else {
      ClosedTells(cfg, name, env, g.outcome, store, saw);
    }
  }

  // ── The prompt retry ──────────────────────────────────────────────────────────────────────────

  predicate SentAgain(log: seq<Entry>) {
    exists k :: 0 <= k < |log| && log[k].Asked? && log[k].retry
  }

  /** The first attempt of a call went out and failed for the moment only. */
  predicate FailedForNow(env: CallEnv, log: seq<Entry>) {
    && |log| > 2 && log[2].Asked? && !log[2].retry && log[2].presented != []
    && AnswerTo(env.first, log[2]).Failure? && AnswerTo(env.first, log[2]).transient
  }

  /**
   * One prompt retry, if the caller asked for it and has not cancelled, after exactly such a failure; then it is the
   * second look that decides.
   */
  predicate RetryTells(cfg: Config, name: FamilyName, snapshot: Family, retryTransient: bool, env: CallEnv, outcome: Outcome, log: seq<Entry>) {
    var again := FailedForNow(env, log) && retryTransient && !env.abortedBeforeRetry;
    (SentAgain(log) ==> again) && (again ==> SecondLookTells(cfg, name, snapshot, env, outcome, SentAgain(log)))
  }

  predicate SecondLookTells(cfg: Config, name: FamilyName, snapshot: Family, env: CallEnv, outcome: Outcome, retried: bool) {
    if env.second.busy then outcome.Busy?
    else if env.second.found == Some(Unreadable) then outcome.StoreUnreadable?
    else if Adoptable(cfg, env.second.found, name, snapshot, env.second.at) then outcome.AdoptedPeer? && Shows(env.second.found, name, outcome.family)
    else Presentable(cfg, env.second.found, name) ==> retried
  }

  lemma SecondLookDecides(cfg: Config, mem: Memory, name: FamilyName, snapshot: Family, env: CallEnv, s: Section)
    requires AttemptTells(cfg, mem, name, snapshot, env.second, true, s)
    ensures SecondLookTells(cfg, name, snapshot, env, s.outcome, SentAgain(s.log))
  {
    AttemptEntries(cfg, mem, name, snapshot, env.second, true, s);
    hide NetworkTells, SentAgain;
  }

  /** The log of an attempt that failed for the moment. */
  predicate OnlyFailed(e: AttemptEnv, log: seq<Entry>) {
    && |log| == 2 && log[1].Asked? && !log[1].retry && log[1].presented != []
    && AnswerTo(e, log[1]).Failure? && AnswerTo(e, log[1]).transient
  }

  lemma AttemptEntries(cfg: Config, mem: Memory, name: FamilyName, snapshot: Family, e: AttemptEnv, retry: bool, s: Section)
    requires AttemptTells(cfg, mem, name, snapshot, e, retry, s)
    ensures SentAgain(s.log) ==> retry
    ensures retry && !e.busy && !Adoptable(cfg, e.found, name, snapshot, e.at) && Presentable(cfg, e.found, name) ==> SentAgain(s.log)
    ensures !retry ==> (s.outcome.Failed? && s.outcome.transient <==> OnlyFailed(e, s.log))
    ensures |s.log| > 1 && s.log[1].Asked? ==> |s.log| == 2
  {
    hide Adoptable, Presentable, Renewed, Offers, Notes, EffectiveFamilies;
  }

  lemma FailedFirst(env: CallEnv, saw: Entry, log: seq<Entry>)
    requires saw.Saw? && (|log| > 1 && log[1].Asked? ==> |log| == 2)
    ensures FailedForNow(env, [saw] + log) <==> OnlyFailed(env.first, log)
  {
  }

  lemma RetriedEither(a: seq<Entry>, b: seq<Entry>)
    ensures SentAgain(a + b) <==> SentAgain(a) || SentAgain(b)
  {
    assert forall k :: 0 <= k < |a| ==> (a + b)[k] == a[k];
    assert forall k :: 0 <= k < |b| ==> (a + b)[|a| + k] == b[k];
    if SentAgain(b) {
      var k :| 0 <= k < |b| && b[k].Asked? && b[k].retry;
      assert (a + b)[|a| + k].Asked? && (a + b)[|a| + k].retry;
    }
  }

  lemma SawIsNoRetry(saw: Entry)
    requires saw.Saw?
    ensures !SentAgain([saw])
  {
  }

  /** Both attempts behind the entry of the snapshot. */
  lemma AttemptsRetry(cfg: Config, mem: Memory, store: StoreState, name: FamilyName, snapshot: Family, retryTransient: bool, env: CallEnv, saw: Entry)
    requires saw.Saw?
    ensures
      var s := Attempts(cfg, mem, store, name, snapshot, retryTransient, env);
      RetryTells(cfg, name, snapshot, retryTransient, env, s.outcome, [saw] + s.log)
  {
    hide LockedAttempt, AttemptTells, SecondLookTells, SentAgain, OnlyFailed, FailedForNow;
    var first := LockedAttempt(cfg, mem, store, name, snapshot, env.first, false);
    AttemptMeans(cfg, mem, store, name, snapshot, env.first, false);
    AttemptEntries(cfg, mem, name, snapshot, env.first, false, first);
    FailedFirst(env, saw, first.log);
    SawIsNoRetry(saw);
    RetriedEither([saw], first.log);
    if RetriesNow(first.outcome, retryTransient, env) {
      var second := LockedAttempt(cfg, first.mem, first.store, name, snapshot, env.second, true);
      AttemptMeans(cfg, first.mem, first.store, name, snapshot, env.second, true);
      SecondLookDecides(cfg, first.mem, name, snapshot, env, second);
      RetriedEither([saw] + first.log, second.log);
      LaterEntries(env, [saw] + first.log, second.log);
      assert [saw] + (first.log + second.log) == ([saw] + first.log) + second.log;
    }
  }

  lemma LaterEntries(env: CallEnv, log: seq<Entry>, more: seq<Entry>)
    requires FailedForNow(env, log)
    ensures FailedForNow(env, log + more)
  {
  }

  lemma RetryIgnoresRest(cfg: Config, name: FamilyName, snapshot: Family, retryTransient: bool, env: CallEnv, s: Section, outcome: Outcome, log: seq<Entry>, more: seq<Entry>)
    requires RetryTells(cfg, name, snapshot, retryTransient, env, s.outcome, log) && s.outcome.InvalidGrant? && |log| > 2
    requires FailedForNow(env, log) && retryTransient && !env.abortedBeforeRetry ==>
               SecondLookTells(cfg, name, snapshot, env, outcome, SentAgain(log))
    requires forall e :: e in more ==> !e.Asked?
    ensures RetryTells(cfg, name, snapshot, retryTransient, env, outcome, log + more)
  {
    RetriedEither(log, more);
    assert !SentAgain(more);
    assert (log + more)[2] == log[2];
    hide SentAgain, Adoptable, Presentable;
  }

  /** When a call presents its token a second time, and what then decides. */
  lemma RetryMeans(cfg: Config, mem: Memory, sidecar: Sidecar, store: StoreState, name: FamilyName, snapshot: Family, retryTransient: bool, env: CallEnv)
    ensures
      var c := RefreshFamily(cfg, mem, sidecar, store, name, snapshot, retryTransient, env);
      RetryTells(cfg, name, snapshot, retryTransient, env, c.outcome, c.log)
  {
    var g := GateOf(cfg, mem, sidecar, name, snapshot, env.now);
    var saw := Saw(name, snapshot.refreshToken);
    SawIsNoRetry(saw);
    if g.Proceed? {
      AttemptsRetry(cfg, g.mem, store, name, snapshot, retryTransient, env, saw);
      var s := Attempts(cfg, g.mem, store, name, snapshot, retryTransient, env);
      AttemptsMean(cfg, g.mem, store, name, snapshot, retryTransient, env);
      if s.outcome.InvalidGrant? {
        var t := s.(log := [saw] + s.log);
        var c := AfterVerdict(cfg, t, sidecar, name, env);
        AfterVerdictAdds(cfg, t, sidecar, name, env);
        CondemnedIsLong(cfg, g.mem, store, name, snapshot, retryTransient, env);
        hide GateOf, Attempts, AfterVerdict, RetryTells, AttemptsTell;
        RetryIgnoresRest(cfg, name, snapshot, retryTransient, env, s, c.outcome, t.log, c.log[|t.log|..]);
        assert c.log == t.log + c.log[|t.log|..];
      }
    }
    hide GateOf, Attempts, AfterVerdict, Adoptable, Presentable, SentAgain;
  }

  lemma AfterVerdictAdds(cfg: Config, s: Section, sidecar: Sidecar, name: FamilyName, env: CallEnv)
    requires s.outcome.InvalidGrant?
    ensures
      var c := AfterVerdict(cfg, s, sidecar, name, env);
      |s.log| <= |c.log| && c.log[..|s.log|] == s.log && forall e :: e in c.log[|s.log|..] ==> !e.Asked?
  {
    hide DescribeFailure, WriteTo, EffectiveFamilies;
  }

  lemma CondemnedIsLong(cfg: Config, mem: Memory, store: StoreState, name: FamilyName, snapshot: Family, retryTransient: bool, env: CallEnv)
    ensures
      var s := Attempts(cfg, mem, store, name, snapshot, retryTransient, env);
      s.outcome.InvalidGrant? ==> |s.log| >= 2
  {
    var first := LockedAttempt(cfg, mem, store, name, snapshot, env.first, false);
    AttemptMeans(cfg, mem, store, name, snapshot, env.first, false);
    AttemptMeans(cfg, first.mem, first.store, name, snapshot, env.second, true);
    hide LockedAttempt, Adoptable, Presentable, NetworkTells;
  }
}
