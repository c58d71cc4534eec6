/**
 * Login commits, account switches, plugin derivation and sign-out. Each decides on a lock-free read, waits
 * for a person or an exchange, and checks its premise again under the lock before it writes.
 */
module LoginCommit {
  import opened Basics
  import opened MachineCredentials
  import opened TokenRefresher
  import opened CredentialProvider

  /** An account identifier as it travels: absent, or a string that may be empty. */
  type Subject = Option<string>

  function NonEmpty(s: Subject): Subject {
    if s.Some? && s.value != "" then s else None
  }

  datatype SwitchDecision = GoAhead | ConfirmRequired(storedSubject: string, newSubject: string)

  function StoredSubject(s: StoreState): Subject {
    if s.Readable? then NonEmpty(s.document.subject) else None
  }

  /** Only two known and different accounts need a confirmation. */
  function EvaluateAccountSwitch(stored: StoreState, newSubject: Subject, fallback: Subject): SwitchDecision {
    var known := if StoredSubject(stored).Some? then StoredSubject(stored) else NonEmpty(fallback);
    if known.None? || NonEmpty(newSubject).None? || known == newSubject then GoAhead
    else ConfirmRequired(known.value, newSubject.value)
  }

  datatype Guard = MayWrite(confirmedSwitch: bool, premise: Subject) | Declined(storedSubject: string, newSubject: string)

  /** `answer` is `None` when the surface cannot ask. */
  function RunGuard(stored: StoreState, newSubject: Subject, fallback: Subject, answer: Option<bool>): Guard {
    match EvaluateAccountSwitch(stored, newSubject, fallback)
    case GoAhead => MayWrite(false, StoredSubject(stored))
    case ConfirmRequired(asked, minted) =>
      if answer != Some(true) then Declined(asked, minted)
      else MayWrite(StoredSubject(stored).Some?, StoredSubject(stored))
  }

  /** A freshly minted credential on its way into the store. */
  datatype Mint = Mint(name: FamilyName, family: Family, serverTarget: Option<string>, subject: Subject)

  datatype Hold = Committed(document: Document) | PremiseChanged

  /** The confirmed switch replaces the store by a document with this one family. */
  function FreshDocument(m: Mint): Document {
    EMPTY.(serverTarget := m.serverTarget, subject := m.subject, families := Some(map[m.name := m.family]))
  }

  function CommitFamilyUnderHold(store: StoreState, m: Mint, g: Guard): (StoreState, Hold)
    requires g.MayWrite?
  {
    if g.confirmedSwitch then
      if StoredSubject(store) != g.premise then (store, PremiseChanged)
      else (Readable(Persisted(FreshDocument(m))), Committed(Persisted(FreshDocument(m))))
    else if !EvaluateAccountSwitch(store, m.subject, None).GoAhead? then (store, PremiseChanged)
    else
      var (s, r) := WriteFamily(store, m.name, m.family, Stamp(m.serverTarget, m.subject), true);
      (s, if r.Written? then Committed(r.document) else PremiseChanged)
  }

  datatype Derivation = Derived(document: Document) | SubjectChanged | StoreMissing | StoreIsUnreadable

  /** The second hold: a signed-out or unreadable store is never written, nor one that belongs to another account by now. */
  function DeriveUnderHold(store: StoreState, plugin: Family, expected: Subject, sub: Subject): (StoreState, Derivation) {
    match store
    case Unreadable => (store, StoreIsUnreadable)
    case Missing => (store, StoreMissing)
    case Readable(_) =>
      var stored := StoredSubject(store);
      if expected.Some? && stored.Some? && stored != expected then (store, SubjectChanged)
      else
        var (s, r) := WriteFamily(store, Plugin, plugin, Stamp(None, if stored.None? then NonEmpty(sub) else None), false);
        (s, if r.Written? then Derived(r.document) else StoreIsUnreadable)
  }

  // ── The transition system ─────────────────────────────────────────────────────────────────────

  datatype Outcome =
    | SignedIn
    | Partial
    | SwitchDeclined
    | Aborted

  datatype Flow =
    | Minted(mint: Mint, fallback: Subject, agent: bool)
    | Guarded(mint: Mint, guard: Guard, agent: bool)
    | Exchanging(mint: Mint)
    | Exchanged(mint: Mint, plugin: Family, sub: Subject)
    | Ended(outcome: Outcome)

  /** `owners` names the account each stored family was committed for, where its commit knew one. */
  datatype System = System(store: StoreState, owners: map<FamilyName, string>, flows: seq<Flow>)

  datatype Step =
    | Begin(mint: Mint, fallback: Subject, agent: bool)
    | Retry(expected: Subject)
    | ReadGuard(i: nat, answer: Option<bool>)
    | CommitHold(i: nat)
    | ExchangeOk(i: nat, plugin: Family, sub: Subject)
    | ExchangeFailed(i: nat)
    | DeriveHold(i: nat)
    | RefreshHold(cfg: Config, mem: Memory, name: FamilyName, snapshot: Family, e: AttemptEnv)
    | SignOutHold

  function Moved(s: System, i: nat, f: Flow): seq<Flow>
    requires i < |s.flows|
  {
    s.flows[i := f]
  }

  function Owned(owners: map<FamilyName, string>, name: FamilyName, subject: Subject): map<FamilyName, string> {
    if NonEmpty(subject).Some? then owners[name := subject.value] else owners - {name}
  }

  function DoCommit(s: System, i: nat): System
    requires i < |s.flows|
  {
    var f := s.flows[i];
    if f.Guarded? && f.guard.MayWrite? then
      var (store, hold) := CommitFamilyUnderHold(s.store, f.mint, f.guard);
      if hold.PremiseChanged? then s.(store := store, flows := Moved(s, i, Ended(Aborted)))
      else
        var kept := if f.guard.confirmedSwitch || !s.store.Readable? then map[] else s.owners;
        System(store, Owned(kept, f.mint.name, f.mint.subject), Moved(s, i, if f.agent then Exchanging(f.mint) else Ended(SignedIn)))
    else s
  }

  function DoDerive(s: System, i: nat): System
    requires i < |s.flows|
  {
    var f := s.flows[i];
    if f.Exchanged? then
      var (store, d) := DeriveUnderHold(s.store, f.plugin, f.mint.subject, f.sub);
      if d.Derived? then
        System(store, Owned(s.owners, Plugin, OwnerOf(f.mint.subject, f.sub)), Moved(s, i, Ended(SignedIn)))
      else s.(store := store, flows := Moved(s, i, Ended(Aborted)))
    else s
  }

  /** The account a derived family belongs to, as far as its commit knows. */
  function OwnerOf(expected: Subject, sub: Subject): Subject {
    if expected.Some? then expected else NonEmpty(sub)
  }

  /** A provider's critical section run on this store; nothing else writes while it holds the lock. */
  function DoRefresh(s: System, cfg: Config, mem: Memory, name: FamilyName, snapshot: Family, e: AttemptEnv): System {
    s.(store := CriticalSection(cfg, mem, s.store, name, snapshot, e.(found := Some(s.store), corrupted := false), false).store)
  }

  function Apply(s: System, step: Step): System {
    match step
    case Begin(mint, fallback, agent) => s.(flows := s.flows + [Minted(mint, fallback, agent)])
    case Retry(expected) =>
      s.(flows := s.flows + [Exchanging(Mint(Agent, Family(None, None, None, None, None, map[]), None, expected))])
    case ReadGuard(i, answer) =>
      if i < |s.flows| && s.flows[i].Minted? then
        var f := s.flows[i];
        var g := RunGuard(s.store, f.mint.subject, f.fallback, answer);
        s.(flows := Moved(s, i, if g.Declined? then Ended(SwitchDeclined) else Guarded(f.mint, g, f.agent)))
      else s
    case CommitHold(i) => if i < |s.flows| then DoCommit(s, i) else s
    case ExchangeOk(i, plugin, sub) =>
      if i < |s.flows| && s.flows[i].Exchanging? then s.(flows := Moved(s, i, Exchanged(s.flows[i].mint, plugin, sub))) else s
    case ExchangeFailed(i) =>
      if i < |s.flows| && s.flows[i].Exchanging? then s.(flows := Moved(s, i, Ended(Partial))) else s
    case DeriveHold(i) => if i < |s.flows| then DoDerive(s, i) else s
    case RefreshHold(cfg, mem, name, snapshot, e) => DoRefresh(s, cfg, mem, name, snapshot, e)
    case SignOutHold => s.(store := Missing, owners := map[])
  }

  function Exec(s: System, run: seq<Step>): System {
    if run == [] then s else Apply(Exec(s, run[..|run| - 1]), run[|run| - 1])
  }

  // ── One account ───────────────────────────────────────────────────────────────────────────────

  /** Every stored family whose commit knew an account belongs to the account the document names. */
  predicate SingleAccount(s: System) {
    forall n :: n in s.owners ==>
      n in EffectiveFamilies(Current(s.store)) && StoredSubject(s.store) == Some(s.owners[n])
  }

  /** The assumptions: no empty subject string, and an exchange that answers for the account it was asked for. */
  predicate Honest(s: System, step: Step) {
    match step
    case Begin(mint, _, _) => mint.subject != Some("")
    case Retry(expected) => expected != Some("")
    case ExchangeOk(i, _, sub) => i < |s.flows| && s.flows[i].Exchanging? ==> sub == s.flows[i].mint.subject
    case _ => true
  }

  ghost predicate HonestThroughout(s: System, run: seq<Step>) {
    forall k :: 0 <= k < |run| ==> Honest(Exec(s, run[..k]), run[k])
  }

  predicate FlowOk(f: Flow) {
    match f
    case Minted(mint, _, _) => mint.subject != Some("")
    case Guarded(mint, g, _) => mint.subject != Some("") && g.MayWrite? && (g.confirmedSwitch ==> mint.subject.Some? && g.premise.Some? && g.premise != mint.subject)
    case Exchanging(mint) => mint.subject != Some("")
    case Exchanged(mint, _, sub) => mint.subject != Some("") && sub == mint.subject
    case Ended(_) => true
  }

  predicate Inv(s: System) {
    SingleAccount(s) && forall i :: 0 <= i < |s.flows| ==> FlowOk(s.flows[i])
  }

  lemma CommitKeeps(s: System, i: nat)
    requires Inv(s) && i < |s.flows|
    ensures Inv(DoCommit(s, i))
  {
    var f := s.flows[i];
    if f.Guarded? && f.guard.MayWrite? {
      assert FlowOk(f);
      FamilyWriteFrame(Current(s.store), f.mint.name, f.mint.family, Stamp(f.mint.serverTarget, f.mint.subject));
    }
  }

  lemma DeriveKeeps(s: System, i: nat)
    requires Inv(s) && i < |s.flows|
    ensures Inv(DoDerive(s, i))
  {
    var f := s.flows[i];
    if f.Exchanged? {
      assert FlowOk(f);
      var stored := StoredSubject(s.store);
      FamilyWriteFrame(Current(s.store), Plugin, f.plugin, Stamp(None, if stored.None? then NonEmpty(f.sub) else None));
    }
  }

  /** A refresh writes only a family it found there, and touches nothing else of the document's identity. */
  lemma RefreshWrites(cfg: Config, mem: Memory, store: StoreState, name: FamilyName, snapshot: Family, e: AttemptEnv)
    ensures
      var after := CriticalSection(cfg, mem, store, name, snapshot, e.(found := Some(store), corrupted := false), false).store;
      || after == store
      || (&& store.Readable? && after.Readable? && name in EffectiveFamilies(store.document)
          && after.document.subject == store.document.subject
          && EffectiveFamilies(after.document).Keys == EffectiveFamilies(store.document).Keys
          && EffectiveFamilies(after.document) - {name} == EffectiveFamilies(store.document) - {name})
  {
    var e' := e.(found := Some(store), corrupted := false);
    var d := CredentialProvider.Decide(cfg, mem, Some(store), name, snapshot, e.at);
    hide CredentialProvider.Decide, CredentialProvider.Candidates;
    if d.GoAsk? {
      var last := LastAsked(|d.ask.candidates|, e'.answers, 0);
      var settled := Settle(mem, name, d.ask, d.ask.candidates[last], e'.answers(last).result, e'.at).1;
      hide Settle, LastAsked;
      if settled.Rotated? {
        FamilyWriteFrame(Current(store), name, settled.family, NO_STAMP);
      }
    }
  }

  lemma RefreshKeeps(s: System, cfg: Config, mem: Memory, name: FamilyName, snapshot: Family, e: AttemptEnv)
    requires Inv(s)
    ensures Inv(DoRefresh(s, cfg, mem, name, snapshot, e))
  {
    RefreshWrites(cfg, mem, s.store, name, snapshot, e);
    hide CriticalSection;
    var after := DoRefresh(s, cfg, mem, name, snapshot, e);
    assert after.owners == s.owners && after.flows == s.flows;
  }

  lemma StepKeeps(s: System, step: Step)
    requires Inv(s) && Honest(s, step)
    ensures Inv(Apply(s, step))
  {
    hide DoCommit, DoDerive, DoRefresh;
    match step
    case CommitHold(i) => if i < |s.flows| { CommitKeeps(s, i); }
    case DeriveHold(i) => if i < |s.flows| { DeriveKeeps(s, i); }
    case RefreshHold(cfg, mem, name, snapshot, e) => RefreshKeeps(s, cfg, mem, name, snapshot, e);
    case Begin(_, _, _) =>
    case Retry(_) =>
    case ReadGuard(i, answer) => if i < |s.flows| { assert FlowOk(s.flows[i]); }
    case ExchangeOk(i, _, _) => if i < |s.flows| { assert FlowOk(s.flows[i]); }
    case ExchangeFailed(i) =>
    case SignOutHold =>
  }

  predicate Init(s: System) {
    s.owners == map[] && s.flows == []
  }

  /** Over any interleaving of logins, tools-only logins, derivations, refreshes, confirmed switches and sign-outs, the store is one account's. */
  lemma {:induction false} OneAccount(s: System, run: seq<Step>)
    requires Init(s) && HonestThroughout(s, run)
    ensures Inv(Exec(s, run)) && SingleAccount(Exec(s, run))
  {
    if run != [] {
      var n := |run| - 1;
      assert forall k :: 0 <= k < n ==> run[..n][..k] == run[..k] && Honest(Exec(s, run[..k]), run[k]);
      OneAccount(s, run[..n]);
      StepKeeps(Exec(s, run[..n]), run[n]);
    }
  }

  /**
   * Exactly when a derivation keeps the store one account's: the derived family's account is unknown, or it
   * is the one the store names, or the store names none and the exchange names it.
   */
  lemma DeriveKeepsOneAccountExactly(s: System, i: nat)
    requires SingleAccount(s) && i < |s.flows| && s.flows[i].Exchanged? && s.flows[i].mint.subject != Some("")
    requires DeriveUnderHold(s.store, s.flows[i].plugin, s.flows[i].mint.subject, s.flows[i].sub).1.Derived?
    ensures
      var f, stored := s.flows[i], StoredSubject(s.store);
      var account := OwnerOf(f.mint.subject, f.sub);
      SingleAccount(DoDerive(s, i)) <==>
        account.None? || stored == account || (stored.None? && NonEmpty(f.sub) == account)
  {
    var f := s.flows[i];
    var stored := StoredSubject(s.store);
    FamilyWriteFrame(Current(s.store), Plugin, f.plugin, Stamp(None, if stored.None? then NonEmpty(f.sub) else None));
    var s' := DoDerive(s, i);
    assert Plugin in s'.owners <==> OwnerOf(f.mint.subject, f.sub).Some?;
    assert forall n :: n in s.owners && n != Plugin ==> n in s'.owners && s'.owners[n] == s.owners[n];
  }

  /** An exchange that answers without naming its account, or without having been told one, breaks the rule on these stores. */
  lemma DerivationsThatMixAccounts(document: Document, plugin: Family)
    requires NonEmpty(document.subject).None?
    ensures
      var unnamed := System(Readable(document), map[], [Exchanged(Mint(Agent, plugin, None, Some("alice")), plugin, None)]);
      SingleAccount(unnamed) && !SingleAccount(DoDerive(unnamed, 0))
    ensures
      var unexpected := System(Readable(document.(subject := Some("bob"))), map[], [Exchanged(Mint(Agent, plugin, None, None), plugin, Some("alice"))]);
      SingleAccount(unexpected) && !SingleAccount(DoDerive(unexpected, 0))
  {
    var unnamed := System(Readable(document), map[], [Exchanged(Mint(Agent, plugin, None, Some("alice")), plugin, None)]);
    DeriveKeepsOneAccountExactly(unnamed, 0);
    var unexpected := System(Readable(document.(subject := Some("bob"))), map[], [Exchanged(Mint(Agent, plugin, None, None), plugin, Some("alice"))]);
    DeriveKeepsOneAccountExactly(unexpected, 0);
  }

  /**
   * Exactly when a plain commit keeps the store one account's: always, unless the mint carries an empty
   * subject, which is written over the stored one while other families still belong to it.
   */
  lemma PlainCommitKeepsOneAccountExactly(s: System, i: nat)
    requires SingleAccount(s) && i < |s.flows| && s.flows[i].Guarded? && s.flows[i].guard.MayWrite? && !s.flows[i].guard.confirmedSwitch
    requires CommitFamilyUnderHold(s.store, s.flows[i].mint, s.flows[i].guard).1.Committed?
    ensures
      var m := s.flows[i].mint;
      SingleAccount(DoCommit(s, i)) <==> m.subject != Some("") || s.owners.Keys <= {m.name}
  {
    var m := s.flows[i].mint;
    FamilyWriteFrame(Current(s.store), m.name, m.family, Stamp(m.serverTarget, m.subject));
    var s' := DoCommit(s, i);
    assert s'.owners == Owned(s.owners, m.name, m.subject);
    if m.subject == Some("") && !(s.owners.Keys <= {m.name}) {
      var n :| n in s.owners && n != m.name;
      assert n in s'.owners;
    }
  }

  // ── No resurrection, and outcomes that leave no trace ─────────────────────────────────────────

  /** A commit that merges into whatever is stored, as an explicit login does. */
  predicate PlainCommit(s: System, step: Step) {
    step.CommitHold? && step.i < |s.flows| && s.flows[step.i].Guarded? && s.flows[step.i].guard.MayWrite? && !s.flows[step.i].guard.confirmedSwitch
  }

  predicate SwitchNamesAnAccount(f: Flow) {
    f.Guarded? ==> f.guard.MayWrite? && (f.guard.confirmedSwitch ==> f.guard.premise.Some?)
  }

  predicate SwitchesNameAccounts(s: System) {
    forall i :: 0 <= i < |s.flows| ==> SwitchNamesAnAccount(s.flows[i])
  }

  lemma StepKeepsSwitches(s: System, step: Step)
    requires SwitchesNameAccounts(s)
    ensures SwitchesNameAccounts(Apply(s, step))
  {
    hide CommitFamilyUnderHold, DeriveUnderHold, CriticalSection, Owned;
  }

  lemma StepFromMissing(s: System, step: Step)
    requires SwitchesNameAccounts(s) && s.store.Missing? && !PlainCommit(s, step)
    ensures Apply(s, step).store.Missing?
  {
    hide CriticalSection;
    if step.RefreshHold? {
      RefreshWrites(step.cfg, step.mem, s.store, step.name, step.snapshot, step.e);
    } else if step.CommitHold? && step.i < |s.flows| {
      assert SwitchNamesAnAccount(s.flows[step.i]);
    }
  }

  lemma {:induction false} SwitchesAlways(s: System, run: seq<Step>)
    requires Init(s)
    ensures SwitchesNameAccounts(Exec(s, run))
  {
    if run != [] {
      SwitchesAlways(s, run[..|run| - 1]);
      StepKeepsSwitches(Exec(s, run[..|run| - 1]), run[|run| - 1]);
    }
  }

  /**
   * A signed-out machine stays signed out: from any point of any run where the store is missing, no refresh,
   * derivation, confirmed switch or anything else brings it back, until a plain login commits.
   */
  lemma {:induction false} NoResurrection(s: System, run: seq<Step>, at: nat)
    requires Init(s) && at <= |run| && Exec(s, run[..at]).store.Missing?
    requires forall k :: at <= k < |run| ==> !PlainCommit(Exec(s, run[..k]), run[k])
    ensures Exec(s, run).store.Missing?
    decreases |run|
  {
    hide Apply, PlainCommit, SwitchesNameAccounts;
    if at == |run| {
      assert run[..at] == run;
    } else {
      var n := |run| - 1;
      assert forall k :: at <= k < n ==> run[..n][..k] == run[..k] && !PlainCommit(Exec(s, run[..k]), run[k]);
      assert run[..n][..at] == run[..at];
      NoResurrection(s, run[..n], at);
      SwitchesAlways(s, run[..n]);
      StepFromMissing(Exec(s, run[..n]), run[n]);
    }
  }

  /** An unreadable store is replaced by a plain login or removed by a sign-out, and by nothing else. */
  lemma UnreadableIsLeftAlone(s: System, step: Step)
    requires SwitchesNameAccounts(s) && s.store.Unreadable? && Apply(s, step).store != s.store
    ensures PlainCommit(s, step) || step.SignOutHold?
  {
    hide CriticalSection;
    if step.RefreshHold? {
      RefreshWrites(step.cfg, step.mem, s.store, step.name, step.snapshot, step.e);
    } else if step.CommitHold? && step.i < |s.flows| {
      assert SwitchNamesAnAccount(s.flows[step.i]);
    }
  }

  /** A flow that ends declined, aborted or with its exchange failed leaves the document as that step found it. */
  lemma UnsuccessfulEndLeavesNoTrace(s: System, step: Step, i: nat)
    requires i < |s.flows| && !s.flows[i].Ended?
    requires Apply(s, step).flows[i].Ended? && !Apply(s, step).flows[i].outcome.SignedIn?
    ensures Apply(s, step).store == s.store && Apply(s, step).owners == s.owners
  {
    hide CriticalSection, Owned, AdoptToV2;
  }

  /** Families leave the document only by a sign-out, or by a switch its user confirmed for exactly the account stored then. */
  lemma OnlyAConfirmedSwitchDropsFamilies(s: System, step: Step, name: FamilyName)
    requires name in EffectiveFamilies(Current(s.store)) && name !in EffectiveFamilies(Current(Apply(s, step).store))
    ensures
      || step.SignOutHold?
      || (&& step.CommitHold? && step.i < |s.flows| && s.flows[step.i].Guarded? && s.flows[step.i].guard.MayWrite?
          && s.flows[step.i].guard.confirmedSwitch && s.flows[step.i].guard.premise == StoredSubject(s.store))
  {
    hide CriticalSection;
    match step
    case RefreshHold(cfg, mem, n, snapshot, e) => RefreshWrites(cfg, mem, s.store, n, snapshot, e);
    case CommitHold(i) =>
      if i < |s.flows| && s.flows[i].Guarded? {
        FamilyWriteFrame(Current(s.store), s.flows[i].mint.name, s.flows[i].mint.family, Stamp(s.flows[i].mint.serverTarget, s.flows[i].mint.subject));
      }
    case DeriveHold(i) =>
      if i < |s.flows| && s.flows[i].Exchanged? {
        FamilyWriteFrame(Current(s.store), Plugin, s.flows[i].plugin,
          Stamp(None, if StoredSubject(s.store).None? then NonEmpty(s.flows[i].sub) else None));
      }
    case _ =>
  }

  // ── The flows as they run ─────────────────────────────────────────────────────────────────────

  datatype Exchange = ExchangeFailure | ExchangeSuccess(plugin: Family, sub: Subject)

  datatype LoginResult =
    | NoAccessToken
    | Complete(document: Document)
    | PartiallyAuthorized(document: Document)
    | NotConfirmed
    | Void(reason: Derivation)
    | PremiseVoid

  /** What a whole agent login does to a store that peers may rewrite before either hold. */
  function AgentLogin(found: StoreState, atHold1: StoreState, atHold2: StoreState, m: Mint, fallback: Subject, answer: Option<bool>, x: Exchange)
    : (StoreState, LoginResult)
  {
    var g := RunGuard(found, m.subject, fallback, answer);
    if g.Declined? then (found, NotConfirmed)
    else
      var (s1, hold) := CommitFamilyUnderHold(atHold1, m, g);
      if hold.PremiseChanged? then (s1, PremiseVoid)
      else if x.ExchangeFailure? then (s1, PartiallyAuthorized(hold.document))
      else
        var (s2, d) := DeriveUnderHold(atHold2, x.plugin, m.subject, x.sub);
        (s2, if d.Derived? then Complete(d.document) else Void(d))
  }

  /** What a tools-only login does: one hold, no exchange. */
  function ToolsOnlyLogin(found: StoreState, atHold: StoreState, m: Mint, answer: Option<bool>): (StoreState, LoginResult) {
    var g := RunGuard(found, m.subject, None, answer);
    if g.Declined? then (found, NotConfirmed)
    else
      var (s, hold) := CommitFamilyUnderHold(atHold, m, g);
      (s, if hold.Committed? then Complete(hold.document) else PremiseVoid)
  }

  // ── A login is a flow of the transition system ────────────────────────────────────────────────

  predicate OfFlow(step: Step, i: nat) {
    (step.ReadGuard? || step.CommitHold? || step.ExchangeOk? || step.ExchangeFailed? || step.DeriveHold?) && step.i == i
  }

  /** Steps of everybody else. */
  predicate Peers(run: seq<Step>, i: nat) {
    forall k :: 0 <= k < |run| ==> !OfFlow(run[k], i)
  }

  lemma StepLeavesFlow(s: System, step: Step, i: nat)
    requires i < |s.flows| && !OfFlow(step, i)
    ensures i < |Apply(s, step).flows| && Apply(s, step).flows[i] == s.flows[i]
  {
    hide CommitFamilyUnderHold, DeriveUnderHold, CriticalSection, Owned, RunGuard;
  }

  lemma {:induction false} PeersLeaveFlow(s: System, run: seq<Step>, i: nat)
    requires i < |s.flows| && Peers(run, i)
    ensures i < |Exec(s, run).flows| && Exec(s, run).flows[i] == s.flows[i]
  {
    hide Apply, OfFlow;
    if run != [] {
      var n := |run| - 1;
      PeersLeaveFlow(s, run[..n], i);
      StepLeavesFlow(Exec(s, run[..n]), run[n], i);
    }
  }

  lemma {:induction false} ExecAppend(s: System, a: seq<Step>, b: seq<Step>)
    ensures Exec(s, a + b) == Exec(Exec(s, a), b)
  {
    hide Apply;
    if b == [] {
      assert a + b == a;
    } else {
      assert (a + b)[..|a + b| - 1] == a + b[..|b| - 1];
      ExecAppend(s, a, b[..|b| - 1]);
    }
  }

  lemma ExecOne(s: System, run: seq<Step>, step: Step)
    ensures Exec(s, run + [step]) == Apply(Exec(s, run), step)
  {
    assert (run + [step])[..|run|] == run;
    hide Apply;
  }

  /** The guard's read, then whatever others do until the first hold. */
  function ToFirstHold(s: System, m: Mint, fallback: Subject, agent: bool, answer: Option<bool>, peers: seq<Step>): seq<Step> {
    [Begin(m, fallback, agent)] + [ReadGuard(|s.flows|, answer)] + peers
  }

  /** The exchange, then whatever others do until the second hold. */
  function ToSecondHold(i: nat, x: Exchange, peers: seq<Step>): seq<Step>
    requires x.ExchangeSuccess?
  {
    [ExchangeOk(i, x.plugin, x.sub)] + peers
  }

  /** The steps of a whole agent login up to its answer, with the others' steps before either hold. */
  function AgentLoginRun(s: System, m: Mint, fallback: Subject, answer: Option<bool>, x: Exchange, peers1: seq<Step>, peers2: seq<Step>): seq<Step> {
    var i, g := |s.flows|, RunGuard(s.store, m.subject, fallback, answer);
    if g.Declined? then ToFirstHold(s, m, fallback, true, answer, [])
    else
      var held := ToFirstHold(s, m, fallback, true, answer, peers1);
      if CommitFamilyUnderHold(Exec(s, held).store, m, g).1.PremiseChanged? then held + [CommitHold(i)]
      else if x.ExchangeFailure? then held + [CommitHold(i)] + [ExchangeFailed(i)]
      else held + [CommitHold(i)] + ToSecondHold(i, x, peers2) + [DeriveHold(i)]
  }

  /** How the flow of a login with this answer has ended. */
  function EndOf(r: LoginResult): Flow {
    match r
    case NotConfirmed => Ended(SwitchDeclined)
    case Complete(_) => Ended(SignedIn)
    case PartiallyAuthorized(_) => Ended(Partial)
    case _ => Ended(Aborted)
  }

  lemma GuardRead(s: System, m: Mint, fallback: Subject, agent: bool, answer: Option<bool>, peers: seq<Step>)
    requires Peers(peers, |s.flows|)
    ensures
      var i, g := |s.flows|, RunGuard(s.store, m.subject, fallback, answer);
      var held := Exec(s, ToFirstHold(s, m, fallback, agent, answer, peers));
      && i < |held.flows| && held.flows[i] == (if g.Declined? then Ended(SwitchDeclined) else Guarded(m, g, agent))
      && (peers == [] ==> held.store == s.store)
  {
    var i := |s.flows|;
    var begun := [Begin(m, fallback, agent)] + [ReadGuard(i, answer)];
    ExecOne(s, [], Begin(m, fallback, agent));
    assert [] + [Begin(m, fallback, agent)] == [Begin(m, fallback, agent)];
    ExecOne(s, [Begin(m, fallback, agent)], ReadGuard(i, answer));
    ExecAppend(s, begun, peers);
    assert Exec(s, []) == s;
    hide Exec, RunGuard;
    PeersLeaveFlow(Exec(s, begun), peers, i);
    if peers == [] { assert begun + peers == begun; }
  }

  lemma SecondHold(s: System, i: nat, m: Mint, x: Exchange, peers: seq<Step>)
    requires i < |s.flows| && s.flows[i] == Exchanging(m) && x.ExchangeSuccess? && Peers(peers, i)
    ensures
      var held := Exec(s, ToSecondHold(i, x, peers));
      i < |held.flows| && held.flows[i] == Exchanged(m, x.plugin, x.sub)
  {
    ExecOne(s, [], ExchangeOk(i, x.plugin, x.sub));
    assert [] + [ExchangeOk(i, x.plugin, x.sub)] == [ExchangeOk(i, x.plugin, x.sub)];
    ExecAppend(s, [ExchangeOk(i, x.plugin, x.sub)], peers);
    assert Exec(s, []) == s;
    hide Exec;
    PeersLeaveFlow(Exec(s, [ExchangeOk(i, x.plugin, x.sub)]), peers, i);
  }

  lemma FirstHold(s: System, i: nat, m: Mint, g: Guard, agent: bool)
    requires i < |s.flows| && s.flows[i] == Guarded(m, g, agent) && g.MayWrite?
    ensures
      var (store, hold) := CommitFamilyUnderHold(s.store, m, g);
      var after := Apply(s, CommitHold(i));
      && after.store == store && |after.flows| == |s.flows|
      && after.flows[i] == if hold.PremiseChanged? then Ended(Aborted) else if agent then Exchanging(m) else Ended(SignedIn)
  {
    hide CommitFamilyUnderHold, Owned;
  }

  lemma ExchangeGone(s: System, i: nat, m: Mint)
    requires i < |s.flows| && s.flows[i] == Exchanging(m)
    ensures Apply(s, ExchangeFailed(i)).store == s.store && Apply(s, ExchangeFailed(i)).flows == s.flows[i := Ended(Partial)]
  {
  }

  lemma Derives(s: System, i: nat, m: Mint, plugin: Family, sub: Subject)
    requires i < |s.flows| && s.flows[i] == Exchanged(m, plugin, sub)
    ensures
      var (store, d) := DeriveUnderHold(s.store, plugin, m.subject, sub);
      var after := Apply(s, DeriveHold(i));
      && after.store == store && |after.flows| == |s.flows|
      && after.flows[i] == if d.Derived? then Ended(SignedIn) else Ended(Aborted)
  {
    hide DeriveUnderHold, Owned;
  }

  /** What the store holds at the second hold of such a run; without an exchange there is none. */
  function AtSecondHold(s: System, m: Mint, fallback: Subject, answer: Option<bool>, x: Exchange, peers1: seq<Step>, peers2: seq<Step>): StoreState {
    if x.ExchangeFailure? then Missing
    else Exec(s, ToFirstHold(s, m, fallback, true, answer, peers1) + [CommitHold(|s.flows|)] + ToSecondHold(|s.flows|, x, peers2)).store
  }

  lemma DeclinedFlow(s: System, m: Mint, fallback: Subject, agent: bool, answer: Option<bool>)
    requires RunGuard(s.store, m.subject, fallback, answer).Declined?
    ensures
      var end := Exec(s, ToFirstHold(s, m, fallback, agent, answer, []));
      end.store == s.store && |s.flows| < |end.flows| && end.flows[|s.flows|] == EndOf(NotConfirmed)
  {
    assert Peers([], |s.flows|);
    hide Exec, RunGuard, ToFirstHold;
    GuardRead(s, m, fallback, agent, answer, []);
  }

  /** Up to and with the first hold. */
  lemma HeldFlow(s: System, m: Mint, fallback: Subject, agent: bool, answer: Option<bool>, peers: seq<Step>)
    requires Peers(peers, |s.flows|) && RunGuard(s.store, m.subject, fallback, answer).MayWrite?
    ensures
      var i, held := |s.flows|, ToFirstHold(s, m, fallback, agent, answer, peers);
      var (store, hold) := CommitFamilyUnderHold(Exec(s, held).store, m, RunGuard(s.store, m.subject, fallback, answer));
      var after := Exec(s, held + [CommitHold(i)]);
      && after.store == store && i < |after.flows|
      && after.flows[i] == if hold.PremiseChanged? then Ended(Aborted) else if agent then Exchanging(m) else Ended(SignedIn)
  {
    var i, held := |s.flows|, ToFirstHold(s, m, fallback, agent, answer, peers);
    GuardRead(s, m, fallback, agent, answer, peers);
    hide Exec, Apply, Peers, RunGuard, ToFirstHold, CommitFamilyUnderHold;
    ExecOne(s, held, CommitHold(i));
    FirstHold(Exec(s, held), i, m, RunGuard(s.store, m.subject, fallback, answer), agent);
  }

  /** From a first hold that left the flow at its exchange to its answer. */
  lemma ExchangedFlow(s: System, i: nat, m: Mint, x: Exchange, peers: seq<Step>)
    requires i < |s.flows| && s.flows[i] == Exchanging(m) && x.ExchangeSuccess? && Peers(peers, i)
    ensures
      var (store, d) := DeriveUnderHold(Exec(s, ToSecondHold(i, x, peers)).store, x.plugin, m.subject, x.sub);
      var end := Exec(s, ToSecondHold(i, x, peers) + [DeriveHold(i)]);
      end.store == store && i < |end.flows| && end.flows[i] == if d.Derived? then Ended(SignedIn) else Ended(Aborted)
  {
    SecondHold(s, i, m, x, peers);
    hide Exec, Apply, Peers, ToSecondHold, DeriveUnderHold;
    ExecOne(s, ToSecondHold(i, x, peers), DeriveHold(i));
    Derives(Exec(s, ToSecondHold(i, x, peers)), i, m, x.plugin, x.sub);
  }

  lemma FailedFlow(s: System, i: nat, m: Mint)
    requires i < |s.flows| && s.flows[i] == Exchanging(m)
    ensures
      var end := Exec(s, [ExchangeFailed(i)]);
      end.store == s.store && i < |end.flows| && end.flows[i] == Ended(Partial)
  {
    ExecOne(s, [], ExchangeFailed(i));
    assert [] + [ExchangeFailed(i)] == [ExchangeFailed(i)];
    assert Exec(s, []) == s;
    ExchangeGone(s, i, m);
    hide Exec;
  }

  /** The run ends with the store and the answer computed. */
  predicate EndsAs(end: System, i: nat, result: (StoreState, LoginResult)) {
    end.store == result.0 && i < |end.flows| && end.flows[i] == EndOf(result.1)
  }

  lemma AgentLoginGoesOn(s: System, m: Mint, fallback: Subject, answer: Option<bool>, x: Exchange, peers1: seq<Step>, peers2: seq<Step>)
    requires Peers(peers1, |s.flows|) && Peers(peers2, |s.flows|)
    requires
      var g := RunGuard(s.store, m.subject, fallback, answer);
      && g.MayWrite? && x.ExchangeSuccess?
      && CommitFamilyUnderHold(Exec(s, ToFirstHold(s, m, fallback, true, answer, peers1)).store, m, g).1.Committed?
    ensures
      var i, committed := |s.flows|, ToFirstHold(s, m, fallback, true, answer, peers1) + [CommitHold(|s.flows|)];
      var (store, d) := DeriveUnderHold(AtSecondHold(s, m, fallback, answer, x, peers1, peers2), x.plugin, m.subject, x.sub);
      var end := Exec(s, committed + ToSecondHold(i, x, peers2) + [DeriveHold(i)]);
      end.store == store && i < |end.flows| && end.flows[i] == if d.Derived? then Ended(SignedIn) else Ended(Aborted)
  {
    var i, committed := |s.flows|, ToFirstHold(s, m, fallback, true, answer, peers1) + [CommitHold(|s.flows|)];
    HeldFlow(s, m, fallback, true, answer, peers1);
    hide Exec, Apply, Peers, ToFirstHold, ToSecondHold, RunGuard, CommitFamilyUnderHold, DeriveUnderHold;
    ExchangedFlow(Exec(s, committed), i, m, x, peers2);
    ExecAppend(s, committed, ToSecondHold(i, x, peers2));
    ExecAppend(s, committed, ToSecondHold(i, x, peers2) + [DeriveHold(i)]);
    assert committed + (ToSecondHold(i, x, peers2) + [DeriveHold(i)]) == committed + ToSecondHold(i, x, peers2) + [DeriveHold(i)];
  }

  /**
   * An agent login is a flow of the transition system: from any state, with any steps of others before either
   * hold, its run ends with the store and the answer that `AgentLogin` computes from what it found at its guard
   * and at its holds.
   */
  lemma AgentLoginIsItsFlow(s: System, m: Mint, fallback: Subject, answer: Option<bool>, x: Exchange, peers1: seq<Step>, peers2: seq<Step>)
    requires Peers(peers1, |s.flows|) && Peers(peers2, |s.flows|)
    ensures
      var atHold1 := Exec(s, ToFirstHold(s, m, fallback, true, answer, peers1)).store;
      var atHold2 := AtSecondHold(s, m, fallback, answer, x, peers1, peers2);
      EndsAs(Exec(s, AgentLoginRun(s, m, fallback, answer, x, peers1, peers2)), |s.flows|,
             AgentLogin(s.store, atHold1, atHold2, m, fallback, answer, x))
  {
    hide Exec, Peers, ToFirstHold, ToSecondHold, RunGuard, CommitFamilyUnderHold, DeriveUnderHold, AtSecondHold;
    var g := RunGuard(s.store, m.subject, fallback, answer);
    if g.Declined? {
      DeclinedFlow(s, m, fallback, true, answer);
    } else {
      HeldFlow(s, m, fallback, true, answer, peers1);
      var committed := ToFirstHold(s, m, fallback, true, answer, peers1) + [CommitHold(|s.flows|)];
      if CommitFamilyUnderHold(Exec(s, ToFirstHold(s, m, fallback, true, answer, peers1)).store, m, g).1.Committed? {
        if x.ExchangeFailure? {
          FailedFlow(Exec(s, committed), |s.flows|, m);
          ExecAppend(s, committed, [ExchangeFailed(|s.flows|)]);
        } else {
          AgentLoginGoesOn(s, m, fallback, answer, x, peers1, peers2);
        }
      }
    }
  }

  /** The steps of a tools-only login up to its answer. */
  function ToolsOnlyLoginRun(s: System, m: Mint, answer: Option<bool>, peers: seq<Step>): seq<Step> {
    if RunGuard(s.store, m.subject, None, answer).Declined? then ToFirstHold(s, m, None, false, answer, [])
    else ToFirstHold(s, m, None, false, answer, peers) + [CommitHold(|s.flows|)]
  }

  /** A tools-only login is a flow of the transition system too. */
  lemma ToolsOnlyLoginIsItsFlow(s: System, m: Mint, answer: Option<bool>, peers: seq<Step>)
    requires Peers(peers, |s.flows|)
    ensures
      var atHold := Exec(s, ToFirstHold(s, m, None, false, answer, peers)).store;
      EndsAs(Exec(s, ToolsOnlyLoginRun(s, m, answer, peers)), |s.flows|, ToolsOnlyLogin(s.store, atHold, m, answer))
  {
    hide Exec, Peers, ToFirstHold, RunGuard, CommitFamilyUnderHold;
    if RunGuard(s.store, m.subject, None, answer).Declined? {
      DeclinedFlow(s, m, None, false, answer);
    } else {
      HeldFlow(s, m, None, false, answer, peers);
      var hold := CommitFamilyUnderHold(Exec(s, ToFirstHold(s, m, None, false, answer, peers)).store, m, RunGuard(s.store, m.subject, None, answer)).1;
      assert hold.Committed? || hold.PremiseChanged?;
    }
  }

  /** So one account holds of the store a login leaves, whatever ran before it and beside it. */
  lemma AgentLoginKeepsOneAccount(s: System, run: seq<Step>, m: Mint, fallback: Subject, answer: Option<bool>, x: Exchange,
    peers1: seq<Step>, peers2: seq<Step>)
    requires Init(s)
    requires
      var before := Exec(s, run);
      && Peers(peers1, |before.flows|) && Peers(peers2, |before.flows|)
      && HonestThroughout(s, run + AgentLoginRun(before, m, fallback, answer, x, peers1, peers2))
    ensures
      var before := Exec(s, run);
      var end := Exec(before, AgentLoginRun(before, m, fallback, answer, x, peers1, peers2));
      var atHold1 := Exec(before, ToFirstHold(before, m, fallback, true, answer, peers1)).store;
      && SingleAccount(end)
      && end.store == AgentLogin(before.store, atHold1, AtSecondHold(before, m, fallback, answer, x, peers1, peers2), m, fallback, answer, x).0
  {
    var before := Exec(s, run);
    var login := AgentLoginRun(before, m, fallback, answer, x, peers1, peers2);
    AgentLoginIsItsFlow(before, m, fallback, answer, x, peers1, peers2);
    hide Exec, AgentLoginRun, AgentLogin, HonestThroughout, SingleAccount, AtSecondHold;
    ExecAppend(s, run, login);
    OneAccount(s, run + login);
  }

  // ── What a login leaves in the store ──────────────────────────────────────────────────────────

  /** The account the stored document names. */
  function Account(s: StoreState): Subject {
    if s.Readable? && s.document.subject != Some("") then s.document.subject else None
  }

  /** Two accounts that are both known and not the same. */
  predicate Clash(known: Subject, minted: Subject) {
    known.Some? && minted.Some? && minted.value != "" && minted != known
  }

  /** The account a mint is compared with: the store's, or the surface's own where the store names none. */
  function ComparedWith(found: StoreState, fallback: Subject): Subject {
    if Account(found).Some? then Account(found) else if fallback == Some("") then None else fallback
  }

  /** The question is put exactly when two known accounts differ; only a yes goes on, and it replaces the store only if the store named the other account. */
  predicate GuardTells(found: StoreState, minted: Subject, fallback: Subject, answer: Option<bool>, g: Guard) {
    var known := ComparedWith(found, fallback);
    && (g.Declined? <==> Clash(known, minted) && answer != Some(true))
    && (g.Declined? ==> Some(g.storedSubject) == known && Some(g.newSubject) == minted)
    && (g.MayWrite? ==> g.premise == Account(found) && (g.confirmedSwitch <==> Clash(Account(found), minted)))
  }

  /** Under the lock the store must still name the account to be replaced, or none that clashes. */
  predicate StillHolds(store: StoreState, minted: Subject, g: Guard)
    requires g.MayWrite?
  {
    if g.confirmedSwitch then Account(store) == g.premise else !Clash(Account(store), minted)
  }

  /** The minted family is stored as it was minted, beside the families found there, or alone after a confirmed switch. */
  predicate CommitTells(before: StoreState, m: Mint, g: Guard, after: StoreState, hold: Hold)
    requires g.MayWrite?
  {
    && (hold.Committed? <==> StillHolds(before, m.subject, g))
    && (hold.PremiseChanged? ==> after == before)
    && (hold.Committed? ==>
          var d, was := hold.document, if g.confirmedSwitch then EMPTY else Current(before);
          && after == Readable(d) && WellMirrored(d)
          && EffectiveFamilies(d) == EffectiveFamilies(was)[m.name := m.family]
          && d.subject == (if m.subject.Some? then m.subject else was.subject)
          && d.serverTarget == (if m.serverTarget.Some? then m.serverTarget else was.serverTarget)
          && d.extra == was.extra)
  }

  lemma CommitMeans(store: StoreState, m: Mint, g: Guard)
    requires g.MayWrite?
    ensures CommitTells(store, m, g, CommitFamilyUnderHold(store, m, g).0, CommitFamilyUnderHold(store, m, g).1)
  {
    FamilyWriteFrame(Current(store), m.name, m.family, Stamp(m.serverTarget, m.subject));
    hide AdoptToV2;
  }

  /** The derived family is stored as the plugin's beside what the second hold found, and only if that is no other account's. */
  predicate DeriveTells(before: StoreState, plugin: Family, expected: Subject, sub: Subject, after: StoreState, d: Derivation) {
    var moved := before.Readable? && expected.Some? && Account(before).Some? && Account(before) != expected;
    && (d.StoreIsUnreadable? <==> before.Unreadable?) && (d.StoreMissing? <==> before.Missing?) && (d.SubjectChanged? <==> moved)
    && (!d.Derived? ==> after == before)
    && (d.Derived? ==>
          var was := before.document;
          && after == Readable(d.document) && WellMirrored(d.document)
          && EffectiveFamilies(d.document) == EffectiveFamilies(was)[Plugin := plugin]
          && d.document.subject == (if Account(before).None? && sub.Some? && sub.value != "" then sub else was.subject)
          && d.document.serverTarget == was.serverTarget && d.document.extra == was.extra)
  }

  lemma DeriveMeans(store: StoreState, plugin: Family, expected: Subject, sub: Subject)
    ensures DeriveTells(store, plugin, expected, sub, DeriveUnderHold(store, plugin, expected, sub).0, DeriveUnderHold(store, plugin, expected, sub).1)
  {
    FamilyWriteFrame(Current(store), Plugin, plugin, Stamp(None, if StoredSubject(store).None? then NonEmpty(sub) else None));
    hide AdoptToV2;
  }

  /** The write the guard's read permits. */
  function Permit(found: StoreState, minted: Subject): Guard {
    MayWrite(Clash(Account(found), minted), Account(found))
  }

  /** The answer of an agent login, and the store it leaves, from what it found at its guard and at its two holds. */
  predicate AgentLoginTells(found: StoreState, atHold1: StoreState, atHold2: StoreState, m: Mint, fallback: Subject, answer: Option<bool>, x: Exchange,
    after: StoreState, r: LoginResult)
  {
    var g := Permit(found, m.subject);
    if Clash(ComparedWith(found, fallback), m.subject) && answer != Some(true) then r == NotConfirmed && after == found
    else if !StillHolds(atHold1, m.subject, g) then r == PremiseVoid && after == atHold1
    else if x.ExchangeFailure? then r.PartiallyAuthorized? && CommitTells(atHold1, m, g, after, Committed(r.document))
    else
      && (r.Complete? || r.Void?)
      && DeriveTells(atHold2, x.plugin, m.subject, x.sub, after, if r.Complete? then Derived(r.document) else r.reason)
      && (r.Void? ==> !r.reason.Derived?)
  }

  /** The same for a tools-only login, whose only hold is the first. */
  predicate ToolsOnlyLoginTells(found: StoreState, atHold: StoreState, m: Mint, answer: Option<bool>, after: StoreState, r: LoginResult) {
    var g := Permit(found, m.subject);
    if Clash(Account(found), m.subject) && answer != Some(true) then r == NotConfirmed && after == found
    else if !StillHolds(atHold, m.subject, g) then r == PremiseVoid && after == atHold
    else r.Complete? && CommitTells(atHold, m, g, after, Committed(r.document))
  }

  lemma GuardMeans(found: StoreState, minted: Subject, fallback: Subject, answer: Option<bool>)
    ensures GuardTells(found, minted, fallback, answer, RunGuard(found, minted, fallback, answer))
  {
  }

  lemma AgentLoginMeans(found: StoreState, atHold1: StoreState, atHold2: StoreState, m: Mint, fallback: Subject, answer: Option<bool>, x: Exchange)
    ensures
      var (after, r) := AgentLogin(found, atHold1, atHold2, m, fallback, answer, x);
      AgentLoginTells(found, atHold1, atHold2, m, fallback, answer, x, after, r)
  {
    GuardMeans(found, m.subject, fallback, answer);
    var g := RunGuard(found, m.subject, fallback, answer);
    hide RunGuard, CommitFamilyUnderHold, DeriveUnderHold, StillHolds, Account, EffectiveFamilies, WellMirrored;
    if g.MayWrite? {
      assert g == Permit(found, m.subject);
      CommitMeans(atHold1, m, g);
      if x.ExchangeSuccess? { DeriveMeans(atHold2, x.plugin, m.subject, x.sub); }
    }
  }

  lemma ToolsOnlyLoginMeans(found: StoreState, atHold: StoreState, m: Mint, answer: Option<bool>)
    ensures
      var (after, r) := ToolsOnlyLogin(found, atHold, m, answer);
      ToolsOnlyLoginTells(found, atHold, m, answer, after, r)
  {
    GuardMeans(found, m.subject, None, answer);
    var g := RunGuard(found, m.subject, None, answer);
    hide RunGuard, CommitFamilyUnderHold, StillHolds, Account, EffectiveFamilies, WellMirrored;
    if g.MayWrite? {
      assert g == Permit(found, m.subject);
      CommitMeans(atHold, m, g);
    }
  }

  /** What a sign-out sends: each family's refresh token, under the id it stores or the surface's own. */
  datatype Revocation = Revocation(token: Token, clientId: string)

  /** Every family with a refresh token and an id to name it by is sent once, with exactly those; no other is. */
  predicate RevokesAll(fs: Families, defaultClientId: Option<string>, sent: map<FamilyName, Revocation>) {
    && (forall n :: n in sent ==> n in fs)
    && forall n :: n in fs ==>
         var f := fs[n];
         var stored := f.clientId.Some? && f.clientId.value != "";
         if f.refreshToken.None? || f.refreshToken.value.Blank? || (!stored && (defaultClientId.None? || defaultClientId.value == ""))
         then n !in sent
         else n in sent && sent[n] == Revocation(f.refreshToken.value, if stored then f.clientId.value else defaultClientId.value)
  }

  class LoginSurface {
    const store: MachineCredentialStore

    constructor (store: MachineCredentialStore)
      ensures this.store == store
    {
      this.store := store;
    }

    method RunAccountSwitchGuard(newSubject: Subject, fallback: Subject, answer: Option<bool>) returns (g: Guard)
      ensures g == RunGuard(store.file, newSubject, fallback, answer)
      ensures GuardTells(store.file, newSubject, fallback, answer, g)
    {
      GuardMeans(store.file, newSubject, fallback, answer);
      var stored := store.ReadState();
      var decision := EvaluateAccountSwitch(stored, newSubject, fallback);
      if decision.GoAhead? { return MayWrite(false, StoredSubject(stored)); }
      var confirmed := answer == Some(true);
      if !confirmed { return Declined(decision.storedSubject, decision.newSubject); }
      if StoredSubject(stored).None? { return MayWrite(false, None); }
      return MayWrite(true, StoredSubject(stored));
    }

    method CommitFamily(m: Mint, g: Guard) returns (hold: Hold)
      requires g.MayWrite?
      modifies store
      ensures (store.file, hold) == CommitFamilyUnderHold(old(store.file), m, g)
      ensures CommitTells(old(store.file), m, g, store.file, hold)
    {
      CommitMeans(store.file, m, g);
      hide CommitTells, EffectiveFamilies, WellMirrored;
      var stored := store.ReadState();
      if g.confirmedSwitch {
        if StoredSubject(stored) != g.premise { return PremiseChanged; }
        var d := FreshDocument(m);
        store.Write(d);
        return Committed(Persisted(d));
      }
      if EvaluateAccountSwitch(stored, m.subject, None).ConfirmRequired? { return PremiseChanged; }
      var r := store.WriteFamily(m.name, m.family, Stamp(m.serverTarget, m.subject), true);
      return Committed(r.document);
    }

    method DerivePluginFamily(plugin: Family, expected: Subject, sub: Subject) returns (d: Derivation)
      modifies store
      ensures (store.file, d) == DeriveUnderHold(old(store.file), plugin, expected, sub)
      ensures DeriveTells(old(store.file), plugin, expected, sub, store.file, d)
    {
      DeriveMeans(store.file, plugin, expected, sub);
      hide DeriveTells, EffectiveFamilies, WellMirrored;
      var state := store.ReadState();
      if state.Unreadable? { return StoreIsUnreadable; }
      if state.Missing? { return StoreMissing; }
      var stored := StoredSubject(state);
      if expected.Some? && stored.Some? && stored != expected { return SubjectChanged; }
      var r := store.WriteFamily(Plugin, plugin, Stamp(None, if stored.None? then NonEmpty(sub) else None), false);
      return Derived(r.document);
    }

    /** The agent login: guard, first hold, exchange with the lock released, second hold. */
    method CommitAgentLogin(m: Mint, fallback: Subject, answer: Option<bool>, x: Exchange, atHold1: StoreState, atHold2: StoreState)
      returns (r: LoginResult)
      modifies store
      ensures !Truthy(m.family.accessToken) ==> r == NoAccessToken && store.file == old(store.file)
      ensures Truthy(m.family.accessToken) ==> (store.file, r) == AgentLogin(old(store.file), atHold1, atHold2, m, fallback, answer, x)
      ensures Truthy(m.family.accessToken) ==> AgentLoginTells(old(store.file), atHold1, atHold2, m, fallback, answer, x, store.file, r)
    {
      AgentLoginMeans(store.file, atHold1, atHold2, m, fallback, answer, x);
      hide AgentLoginTells, CommitTells, DeriveTells, GuardTells, CommitFamilyUnderHold, DeriveUnderHold, RunGuard;
      if !Truthy(m.family.accessToken) { return NoAccessToken; }
      var g := RunAccountSwitchGuard(m.subject, fallback, answer);
      if g.Declined? { return NotConfirmed; }
      store.file := atHold1;
      var hold := CommitFamily(m, g);
      if hold.PremiseChanged? { return PremiseVoid; }
      if x.ExchangeFailure? { return PartiallyAuthorized(hold.document); }
      store.file := atHold2;
      var d := DerivePluginFamily(x.plugin, m.subject, x.sub);
      return if d.Derived? then Complete(d.document) else Void(d);
    }

    method CommitToolsOnlyLogin(m: Mint, answer: Option<bool>, atHold: StoreState) returns (r: LoginResult)
      modifies store
      ensures !Truthy(m.family.accessToken) ==> r == NoAccessToken && store.file == old(store.file)
      ensures Truthy(m.family.accessToken) ==>
                (store.file, r) == ToolsOnlyLogin(old(store.file), atHold, m, answer)
      ensures Truthy(m.family.accessToken) ==> ToolsOnlyLoginTells(old(store.file), atHold, m, answer, store.file, r)
    {
      ToolsOnlyLoginMeans(store.file, atHold, m, answer);
      hide ToolsOnlyLoginTells, CommitTells, GuardTells, CommitFamilyUnderHold, RunGuard;
      if !Truthy(m.family.accessToken) { return NoAccessToken; }
      var g := RunAccountSwitchGuard(m.subject, None, answer);
      if g.Declined? { return NotConfirmed; }
      store.file := atHold;
      var hold := CommitFamily(m, g);
      return if hold.Committed? then Complete(hold.document) else PremiseVoid;
    }

    /** Ask the server to revoke every family that can be named to it, then delete the store under the lock whatever the answers were. */
    method SignOutMachineWide(defaultClientId: Option<string>) returns (sent: map<FamilyName, Revocation>)
      modifies store
      ensures store.file.Missing?
      ensures if old(store.file).Readable? then RevokesAll(EffectiveFamilies(old(store.file).document), defaultClientId, sent) else sent == map[]
    {
      sent := map[];
      var state := store.ReadState();
      if state.Readable? {
        var fs := EffectiveFamilies(state.document);
        var pending := fs.Keys;
        while pending != {}
          invariant pending <= fs.Keys
          invariant RevokesAll(map n | n in fs && n !in pending :: fs[n], defaultClientId, sent)
          decreases |pending|
        {
          var n :| n in pending;
          pending := pending - {n};
          if Truthy(fs[n].refreshToken) {
            var clientId := if NonEmpty(fs[n].clientId).Some? then fs[n].clientId else defaultClientId;
            if NonEmpty(clientId).Some? { sent := sent[n := Revocation(fs[n].refreshToken.value, clientId.value)]; }
          }
        }
        assert (map n | n in fs && n !in pending :: fs[n]) == fs;
      }
      store.Delete();
    }
  }
}
