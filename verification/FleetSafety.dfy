/** The fleet's invariant, step by step, and what it says over every run. */
module FleetSafety {
  import opened Basics
  import opened MachineCredentials
  import opened TokenRefresher
  import opened AuthorizationServer
  import opened TokenEndpoint
  import opened CredentialProvider
  import F = RefreshFleet
  import opened RefreshFleet

  // ── What one exchange does for a family the fleet keeps ───────────────────────────────────────

  predicate Quiet(s: Server, s': Server, r: RefreshResult) {
    SameChain(s, s') && s'.counters.graceHits == s.counters.graceHits && !r.Success?
  }

  predicate RotatedHere(s: Server, s': Server, t: Token, r: RefreshResult, lost: bool) {
    && Rotation(s, s', t)
    && (lost <==> !r.Success?)
    && (r.Success? ==> r.accessToken.Tok? && r.refreshToken == Some(Tok(s.nextToken)))
  }

  predicate Graced(s: Server, s': Server, t: Token, r: RefreshResult, lost: bool) {
    && SameChain(s, s') && s'.counters.graceHits == s.counters.graceHits + 1
    && t in s.rows && !s.rows[t].Live()
    && (lost <==> !r.Success?)
    && (r.Success? ==>
          && r.accessToken.Tok? && r.refreshToken.Some? && HeadAfter(s, t, r.refreshToken.value)
          && t in s.grace && r.accessToken == s.grace[t].access)
  }

  predicate PromptFor(s: Server, fam: Family, t: Token, id: string, net: Net) {
    t in s.rows && !s.rows[t].Live() && (net.delivery.Unanswered? ==> net.delivery.reached) ==>
      && InWindow(s, t, net.at)
      && (StoredClientId(fam).Some? || Trim(id) == s.rows[t].clientId)
  }

  /** A prompt presentation is refused without trace, rotates the live token, or is graced; it never revokes the family. */
  lemma ExchangeEffect(s: Server, fam: Family, t: Token, id: string, net: Net)
    requires ChainInv(s) && FamilyOk(s, fam) && fam.refreshToken == Some(t)
    requires StoredClientId(fam).Some? ==> id == StoredClientId(fam).value
    requires PromptFor(s, fam, t, id, net)
    ensures
      var (s', r) := Exchange(s, id, t, net);
      var lost := LosesGrant(s, id, t, net);
      && ChainInv(s') && s'.counters.familyRevokes == s.counters.familyRevokes
      && ((Quiet(s, s', r) && !lost) || RotatedHere(s, s', t, r, lost) || Graced(s, s', t, r, lost))
      && (r.Success? ==> Trim(id) == s.rows[t].clientId)
      && (!s.rows[t].Live() && net.delivery.Answered? ==> r.Success?)
  {
    if Trim(id) != "" {
      HandleEffect(s, id, t, net.at);
      var (s', r) := Handle(s, Form(id, t), net.at);
      ServerAnswersUnderstood(r, net.at);
      if !s.rows[t].Live() && (net.delivery.Unanswered? ==> net.delivery.reached) {
        ReplayIsGracedIffDirectPredecessor(s, Form(id, t), net.at);
        var head :| HeadAfter(s, t, head);
      }
    }
  }

  // ── Stored families under a change of the server ──────────────────────────────────────────────

  lemma SameChainKeepsStore(s: Server, s': Server, fs: Families)
    requires SameChain(s, s') && F.StoreOk(s, fs)
    ensures F.StoreOk(s', fs)
    ensures forall inHand :: BehindOf(s', fs, inHand) == BehindOf(s, fs, inHand)
  {
    assert s'.rows == s.rows;
    forall n | n in fs ensures FamilyOk(s', fs[n]) {
      assert FamilyOk(s, fs[n]);
      var t := fs[n].refreshToken.value;
      if !s.rows[t].Live() {
        var head :| HeadAfter(s, t, head);
        assert HeadAfter(s', t, head);
      }
    }
    forall m, n | m in fs && n in fs && m != n ensures ServerFamily(s', fs[m]) != ServerFamily(s', fs[n]) {
      assert ServerFamily(s, fs[m]) != ServerFamily(s, fs[n]);
    }
  }

  /** A rotation leaves the presented family one step behind and every other family where it was. */
  lemma RotationKeepsFamily(s: Server, s': Server, t: Token, fam: Family)
    requires ChainInv(s) && Rotation(s, s', t) && FamilyOk(s, fam)
    requires fam.refreshToken == Some(t) || ServerFamily(s, fam) != Some(s.rows[t].family)
    ensures FamilyOk(s', fam) && ServerFamily(s', fam) == ServerFamily(s, fam)
    ensures LiveToken(s', fam.refreshToken) <==> fam.refreshToken != Some(t) && LiveToken(s, fam.refreshToken)
  {
    var u := fam.refreshToken.value;
    if u == t {
      assert HeadAfter(s', t, Tok(s.nextToken));
    } else {
      assert u != Tok(s.nextToken);
      if !s.rows[u].Live() {
        var head :| HeadAfter(s, u, head);
        assert HeadAfter(s', u, head);
      }
    }
  }

  lemma RotationKeepsStore(s: Server, s': Server, t: Token, fs: Families, name: FamilyName)
    requires ChainInv(s) && Rotation(s, s', t) && F.StoreOk(s, fs) && name in fs && fs[name].refreshToken == Some(t)
    ensures F.StoreOk(s', fs)
    ensures BehindOf(s', fs, Some(name)) == BehindOf(s, fs, None)
    ensures BehindOf(s', fs, None) == BehindOf(s, fs, None) + {name}
    ensures name !in BehindOf(s, fs, None)
  {
    forall n | n in fs
      ensures FamilyOk(s', fs[n]) && ServerFamily(s', fs[n]) == ServerFamily(s, fs[n])
      ensures LiveToken(s', fs[n].refreshToken) <==> n != name && LiveToken(s, fs[n].refreshToken)
    {
      assert FamilyOk(s, fs[n]) && (n != name ==> ServerFamily(s, fs[n]) != ServerFamily(s, fs[name]));
      RotationKeepsFamily(s, s', t, fs[n]);
    }
    forall m, n | m in fs && n in fs && m != n ensures ServerFamily(s', fs[m]) != ServerFamily(s', fs[n]) {
      assert ServerFamily(s, fs[m]) != ServerFamily(s, fs[n]);
    }
  }

  // ── Presenting ────────────────────────────────────────────────────────────────────────────────

  ghost predicate Presented(f: Fleet, f': Fleet, p: nat, s': Server, r: RefreshResult, lost: bool)
    requires MayPresent(f, p)
  {
    var ph := f.procs[p].phase;
    var id := ph.ask.candidates[ph.k];
    && f'.server == s' && f'.store == f.store && f'.holder == f.holder
    && |f'.procs| == |f.procs| && f'.losses == f.losses + (if lost then 1 else 0)
    && f'.procs == f.procs[p := f'.procs[p]]
    && (|| (f'.procs[p].phase == ph.(k := ph.k + 1) && ph.k + 1 < |ph.ask.candidates| && !r.Success?)
        || (exists at :: f'.procs[p].phase == Heard(ph.name, ph.ask, id, r, at)))
  }

  lemma PresentShape(f: Fleet, p: nat, net: Net)
    requires MayPresent(f, p)
    ensures
      var ph := f.procs[p].phase;
      var id := ph.ask.candidates[ph.k];
      var (s', r) := Exchange(f.server, id, ph.ask.token, net);
      Presented(f, DoPresent(f, p, net), p, s', r, LosesGrant(f.server, id, ph.ask.token, net))
  {
    hide Exchange, LosesGrant;
    var ph := f.procs[p].phase;
    var id := ph.ask.candidates[ph.k];
    var (s', r) := Exchange(f.server, id, ph.ask.token, net);
    if !(ph.k + 1 < |ph.ask.candidates| && AsksOn(Answer(r, net.overBudget))) {
      assert DoPresent(f, p, net).procs[p].phase == Heard(ph.name, ph.ask, id, r, net.at);
    }
  }

  /** The books balance after a presentation, whichever of its three effects it had. */
  lemma PresentedKeepsStore(f: Fleet, f': Fleet, p: nat, s': Server, r: RefreshResult, lost: bool)
    requires Inv(f) && MayPresent(f, p) && Presented(f, f', p, s', r, lost)
    requires
      var t := f.procs[p].phase.ask.token;
      (Quiet(f.server, s', r) && !lost) || RotatedHere(f.server, s', t, r, lost) || Graced(f.server, s', t, r, lost)
    ensures
      && F.StoreOk(s', EffectiveFamilies(Current(f'.store)))
      && s'.counters.graceHits + |Behind(f')| <= f'.losses
  {
    assert ProcOk(f, p);
    var ph := f.procs[p].phase;
    var fs := EffectiveFamilies(Current(f.store));
    var t, name := ph.ask.token, ph.name;
    assert InHand(f) == None && InHand(f') == if r.Success? then Some(name) else None;
    if RotatedHere(f.server, s', t, r, lost) {
      RotationKeepsStore(f.server, s', t, fs, name);
    } else {
      SameChainKeepsStore(f.server, s', fs);
      if Graced(f.server, s', t, r, lost) && r.Success? {
        assert name in Behind(f) && Behind(f') == Behind(f) - {name};
      }
    }
  }

  lemma PresentedKeepsProc(f: Fleet, f': Fleet, p: nat, s': Server, r: RefreshResult, lost: bool, q: nat)
    requires Inv(f) && MayPresent(f, p) && Presented(f, f', p, s', r, lost)
    requires
      var t := f.procs[p].phase.ask.token;
      (Quiet(f.server, s', r) && !lost) || RotatedHere(f.server, s', t, r, lost) || Graced(f.server, s', t, r, lost)
    requires
      var ph := f.procs[p].phase;
      r.Success? ==> ph.ask.token in f.server.rows && Trim(ph.ask.candidates[ph.k]) == f.server.rows[ph.ask.token].clientId
    requires q < |f'.procs|
    ensures ProcOk(f', q)
  {
    hide ChainInv, Trim;
    assert ProcOk(f, q) && ProcOk(f, p);
  }

  lemma PresentedKeepsProcs(f: Fleet, f': Fleet, p: nat, s': Server, r: RefreshResult, lost: bool)
    requires Inv(f) && MayPresent(f, p) && Presented(f, f', p, s', r, lost)
    requires
      var t := f.procs[p].phase.ask.token;
      (Quiet(f.server, s', r) && !lost) || RotatedHere(f.server, s', t, r, lost) || Graced(f.server, s', t, r, lost)
    requires
      var ph := f.procs[p].phase;
      r.Success? ==> ph.ask.token in f.server.rows && Trim(ph.ask.candidates[ph.k]) == f.server.rows[ph.ask.token].clientId
    ensures forall q: nat :: q < |f'.procs| ==> ProcOk(f', q)
  {
    hide ProcOk, Inv, MayPresent, Presented, Quiet, RotatedHere, Graced;
    forall q: nat | q < |f'.procs| ensures ProcOk(f', q) { PresentedKeepsProc(f, f', p, s', r, lost, q); }
  }

  lemma PresentKeeps(f: Fleet, p: nat, net: Net)
    requires Inv(f) && Prompt(f, Present(p, net))
    ensures Inv(DoPresent(f, p, net))
  {
    if MayPresent(f, p) {
      var ph := f.procs[p].phase;
      var id := ph.ask.candidates[ph.k];
      assert ProcOk(f, p);
      assert FamilyOk(f.server, ph.ask.family);
      ExchangeEffect(f.server, ph.ask.family, ph.ask.token, id, net);
      PresentShape(f, p, net);
      PresentsInto(f, DoPresent(f, p, net), p, Exchange(f.server, id, ph.ask.token, net).0,
        Exchange(f.server, id, ph.ask.token, net).1, LosesGrant(f.server, id, ph.ask.token, net));
    }
  }

  lemma PresentsInto(f: Fleet, f': Fleet, p: nat, s': Server, r: RefreshResult, lost: bool)
    requires Inv(f) && MayPresent(f, p) && Presented(f, f', p, s', r, lost)
    requires ChainInv(s') && s'.counters.familyRevokes == 0
    requires
      var t := f.procs[p].phase.ask.token;
      (Quiet(f.server, s', r) && !lost) || RotatedHere(f.server, s', t, r, lost) || Graced(f.server, s', t, r, lost)
    requires
      var ph := f.procs[p].phase;
      r.Success? ==> ph.ask.token in f.server.rows && Trim(ph.ask.candidates[ph.k]) == f.server.rows[ph.ask.token].clientId
    ensures Inv(f')
  {
    PresentedKeepsStore(f, f', p, s', r, lost);
    PresentedKeepsProcs(f, f', p, s', r, lost);
  }

  // ── Entering, finishing, dying ────────────────────────────────────────────────────────────────

  lemma DecisionIsOk(cfg: Config, mem: Memory, store: StoreState, name: FamilyName, snapshot: Family, now: int)
    ensures
      var d := Decide(cfg, mem, Some(store), name, snapshot, now);
      d.GoAsk? && StoredClientId(d.ask.family).Some? ==>
        d.ask.candidates == [d.ask.clientId] && Some(d.ask.clientId) == StoredClientId(d.ask.family)
  {
    var d := Decide(cfg, mem, Some(store), name, snapshot, now);
    if d.GoAsk? { WithoutOnly(d.ask.clientId); }
  }

  lemma EnterKeeps(f: Fleet, p: nat, name: FamilyName, snapshot: Family, now: int)
    requires Inv(f)
    ensures Inv(DoEnter(f, p, name, snapshot, now))
  {
    var f' := DoEnter(f, p, name, snapshot, now);
    if f' != f {
      DecisionIsOk(f.procs[p].cfg, f.procs[p].mem, f.store, name, snapshot, now);
      EnteredKeeps(f, f', p, name, Decide(f.procs[p].cfg, f.procs[p].mem, Some(f.store), name, snapshot, now).ask);
    }
  }

  lemma EnteredKeeps(f: Fleet, f': Fleet, p: nat, name: FamilyName, ask: Ask)
    requires Inv(f) && p < |f.procs| && f.holder.None?
    requires f' == f.(holder := Some(p), procs := F.Moved(f, p, Asking(name, ask, 0)))
    requires PhaseOk(f, Asking(name, ask, 0))
    ensures Inv(f')
  {
    forall q: nat | q < |f'.procs| ensures ProcOk(f', q) { assert ProcOk(f, q); }
    assert Behind(f') == Behind(f);
  }

  /** A granted answer settles into a family that holds the new token under its mint client. */
  lemma SettledFamilyIsOk(s: Server, mem: Memory, name: FamilyName, ask: Ask, presented: string, r: RefreshResult, at: int)
    requires ChainInv(s) && FamilyOk(s, ask.family) && ask.family.refreshToken == Some(ask.token)
    requires r.Success? && r.accessToken.Tok? && r.refreshToken.Some? && HeadAfter(s, ask.token, r.refreshToken.value)
    requires Trim(presented) == s.rows[ask.token].clientId
    requires StoredClientId(ask.family).Some? ==> presented == ask.clientId
    ensures
      var settled := Settle(mem, name, ask, presented, r, at).1;
      && settled.Rotated?
      && settled.family.refreshToken == r.refreshToken
      && FamilyOk(s, settled.family) && ServerFamily(s, settled.family) == ServerFamily(s, ask.family)
      && LiveToken(s, settled.family.refreshToken)
  {
    assert PairOk(s.rows, ask.token, r.refreshToken.value);
  }

  lemma UnsuccessfulSettles(mem: Memory, name: FamilyName, ask: Ask, presented: string, r: RefreshResult, at: int)
    requires !r.Success?
    ensures !Settle(mem, name, ask, presented, r, at).1.Rotated?
  {
  }

  lemma ReplacedFamilyKeepsStore(s: Server, fs: Families, name: FamilyName, fam: Family)
    requires F.StoreOk(s, fs) && FamilyOk(s, fam)
    requires forall n :: n in fs && n != name ==> ServerFamily(s, fs[n]) != ServerFamily(s, fam)
    ensures F.StoreOk(s, fs[name := fam])
  {
    var fs' := fs[name := fam];
    forall n | n in fs' ensures FamilyOk(s, fs'[n]) { assert n != name ==> FamilyOk(s, fs[n]); }
    forall m, n | m in fs' && n in fs' && m != n ensures ServerFamily(s, fs'[m]) != ServerFamily(s, fs'[n]) {
      assert m != name && n != name ==> ServerFamily(s, fs[m]) != ServerFamily(s, fs[n]);
    }
  }

  lemma AwayKeepsProcs(f: Fleet, f': Fleet, p: nat)
    requires Inv(f) && p < |f.procs| && f.holder == Some(p)
    requires |f'.procs| == |f.procs| && f'.procs == f.procs[p := f'.procs[p]]
    requires f'.procs[p].phase.Away? || f'.procs[p].phase.Gone?
    ensures forall q: nat :: q < |f'.procs| ==> ProcOk(f', q)
  {
    forall q: nat | q < |f'.procs| ensures ProcOk(f', q) { assert ProcOk(f, q); }
  }

  lemma FinishKeeps(f: Fleet, p: nat, diskFails: bool)
    requires Inv(f)
    ensures Inv(DoFinish(f, p, diskFails))
  {
    hide Settle;
    if p < |f.procs| && f.procs[p].phase.Heard? {
      var f' := DoFinish(f, p, diskFails);
      var ph := f.procs[p].phase;
      assert ProcOk(f, p) && FamilyOk(f.server, ph.ask.family);
      AwayKeepsProcs(f, f', p);
      if ph.result.Success? {
        SettledFamilyIsOk(f.server, f.procs[p].mem, ph.name, ph.ask, ph.presented, ph.result, ph.at);
        var family := Settle(f.procs[p].mem, ph.name, ph.ask, ph.presented, ph.result, ph.at).1.family;
        WrittenKeepsStore(f, f', p, family, diskFails);
      } else {
        UnsuccessfulSettles(f.procs[p].mem, ph.name, ph.ask, ph.presented, ph.result, ph.at);
        assert Behind(f') == Behind(f);
      }
    }
  }

  lemma WrittenKeepsStore(f: Fleet, f': Fleet, p: nat, family: Family, diskFails: bool)
    requires Inv(f) && p < |f.procs| && f.holder == Some(p) && f.procs[p].phase.Heard? && f.procs[p].phase.result.Success?
    requires FamilyOk(f.server, family) && LiveToken(f.server, family.refreshToken)
    requires ServerFamily(f.server, family) == ServerFamily(f.server, f.procs[p].phase.ask.family)
    requires f'.server == f.server && f'.holder.None? && f'.losses == f.losses + (if diskFails then 1 else 0)
    requires f'.store == Persist(f.store, f.procs[p].phase.name, family, false, diskFails).0
    ensures F.StoreOk(f'.server, EffectiveFamilies(Current(f'.store)))
    ensures f'.server.counters.graceHits + |Behind(f')| <= f'.losses
  {
    assert ProcOk(f, p);
    var name := f.procs[p].phase.name;
    var fs := EffectiveFamilies(Current(f.store));
    if diskFails {
      assert Behind(f') <= Behind(f) + {name};
      SmallerSet(Behind(f'), Behind(f) + {name});
    } else {
      FamilyWriteFrame(Current(f.store), name, family, NO_STAMP);
      ReplacedFamilyKeepsStore(f.server, fs, name, family);
      assert Behind(f') <= Behind(f);
      SmallerSet(Behind(f'), Behind(f));
    }
  }

  lemma {:induction false} SmallerSet<T>(a: set<T>, b: set<T>)
    requires a <= b
    ensures |a| <= |b|
  {
    if x :| x in a { SmallerSet(a - {x}, b - {x}); }
  }

  lemma CrashKeeps(f: Fleet, p: nat)
    requires Inv(f)
    ensures Inv(DoCrash(f, p))
  {
    if p < |f.procs| {
      var f' := DoCrash(f, p);
      var ph := f.procs[p].phase;
      assert ProcOk(f, p);
      forall q: nat | q < |f'.procs| ensures ProcOk(f', q) { assert ProcOk(f, q); }
      if ph.Heard? && ph.result.Success? {
        assert Behind(f') <= Behind(f) + {ph.name};
        SmallerSet(Behind(f'), Behind(f) + {ph.name});
      } else {
        assert Behind(f') == Behind(f);
      }
    }
  }

  // ── Logins and sign-outs ──────────────────────────────────────────────────────────────────────

  lemma MintKeepsFamily(s: Server, clientId: string, scope: set<string>, resource: Option<string>, now: int, fam: Family)
    requires ChainInv(s) && FamilyOk(s, fam)
    ensures
      var s' := Mint(s, clientId, scope, resource, now).0;
      && FamilyOk(s', fam) && ServerFamily(s', fam) == ServerFamily(s, fam) && ServerFamily(s, fam).value < s.nextFamily
      && (LiveToken(s', fam.refreshToken) <==> LiveToken(s, fam.refreshToken))
  {
    var s' := Mint(s, clientId, scope, resource, now).0;
    var t := fam.refreshToken.value;
    assert IdOk(s, t);
    if !s.rows[t].Live() {
      var head :| HeadAfter(s, t, head);
      assert IdOk(s, head);
      assert HeadAfter(s', t, head);
    }
  }

  lemma MintKeepsStore(s: Server, clientId: string, scope: set<string>, resource: Option<string>, now: int, fs: Families)
    requires ChainInv(s) && F.StoreOk(s, fs)
    ensures F.StoreOk(Mint(s, clientId, scope, resource, now).0, fs)
    ensures forall n :: n in fs ==> ServerFamily(Mint(s, clientId, scope, resource, now).0, fs[n]) != Some(s.nextFamily)
    ensures BehindOf(Mint(s, clientId, scope, resource, now).0, fs, None) == BehindOf(s, fs, None)
  {
    var s' := Mint(s, clientId, scope, resource, now).0;
    forall n | n in fs
      ensures FamilyOk(s', fs[n]) && ServerFamily(s', fs[n]) == ServerFamily(s, fs[n]) && ServerFamily(s, fs[n]) != Some(s.nextFamily)
      ensures LiveToken(s', fs[n].refreshToken) <==> LiveToken(s, fs[n].refreshToken)
    {
      assert FamilyOk(s, fs[n]);
      MintKeepsFamily(s, clientId, scope, resource, now, fs[n]);
    }
    forall m, n | m in fs && n in fs && m != n ensures ServerFamily(s', fs[m]) != ServerFamily(s', fs[n]) {
      assert ServerFamily(s, fs[m]) != ServerFamily(s, fs[n]);
    }
  }

  lemma IdleProcsStayOk(f: Fleet, f': Fleet)
    requires Inv(f) && f.holder.None? && f'.procs == f.procs
    ensures forall p: nat :: p < |f'.procs| ==> ProcOk(f', p)
  {
    forall p: nat | p < |f'.procs| ensures ProcOk(f', p) { assert ProcOk(f, p); }
  }

  lemma MintKeepsCounters(s: Server, clientId: string, scope: set<string>, resource: Option<string>, now: int)
    ensures Mint(s, clientId, scope, resource, now).0.counters == s.counters
  {
  }

  lemma MintedFamilyIsOk(s: Server, clientId: string, stamped: bool, scope: set<string>, resource: Option<string>, now: int, expiresAt: int)
    requires ChainInv(s) && Trim(clientId) == clientId && clientId != ""
    ensures
      var (s', access, refresh) := Mint(s, clientId, scope, resource, now);
      var family := LoginFamily(access, refresh, expiresAt, if stamped then Some(clientId) else None);
      FamilyOk(s', family) && LiveToken(s', family.refreshToken) && ServerFamily(s', family) == Some(s.nextFamily)
  {
  }

  /** A family written while nobody holds the lock, against a server that kept every other family. */
  lemma NewFamilyKeeps(f: Fleet, f': Fleet, name: FamilyName, family: Family)
    requires Inv(f) && f.holder.None? && f'.holder.None? && f'.procs == f.procs && f'.losses == f.losses
    requires ChainInv(f'.server) && f'.server.counters == f.server.counters
    requires EffectiveFamilies(Current(f'.store)) == EffectiveFamilies(Current(f.store))[name := family]
    requires FamilyOk(f'.server, family) && LiveToken(f'.server, family.refreshToken)
    requires ServerFamily(f'.server, family) == Some(f.server.nextFamily)
    requires
      var fs := EffectiveFamilies(Current(f.store));
      && F.StoreOk(f'.server, fs) && BehindOf(f'.server, fs, None) == BehindOf(f.server, fs, None)
      && forall n :: n in fs ==> ServerFamily(f'.server, fs[n]) != Some(f.server.nextFamily)
    ensures Inv(f')
  {
    ReplacedFamilyKeepsStore(f'.server, EffectiveFamilies(Current(f.store)), name, family);
    IdleProcsStayOk(f, f');
    assert Behind(f') <= Behind(f);
    SmallerSet(Behind(f'), Behind(f));
  }

  lemma LoginKeeps(f: Fleet, name: FamilyName, clientId: string, stamped: bool, scope: set<string>, resource: Option<string>, now: int)
    requires Inv(f)
    ensures Inv(DoLogin(f, name, clientId, stamped, scope, resource, now))
  {
    hide Mint, AdoptToV2, WithFamily, FamilyOk, ServerFamily, ChainInv, F.StoreOk, BehindOf, LiveToken, ProcOk;
    if f.holder.None? && Trim(clientId) == clientId && clientId != "" {
      var fs := EffectiveFamilies(Current(f.store));
      var (s', access, refresh) := Mint(f.server, clientId, scope, resource, now);
      var family := LoginFamily(access, refresh, now + f.server.accessTtlSeconds * 1000, if stamped then Some(clientId) else None);
      MintKeepsChain(f.server, clientId, scope, resource, now);
      MintedFamilyIsOk(f.server, clientId, stamped, scope, resource, now, now + f.server.accessTtlSeconds * 1000);
      MintKeepsCounters(f.server, clientId, scope, resource, now);
      MintKeepsStore(f.server, clientId, scope, resource, now, fs);
      FamilyWriteFrame(Current(f.store), name, family, NO_STAMP);
      NewFamilyKeeps(f, DoLogin(f, name, clientId, stamped, scope, resource, now), name, family);
    }
  }

  lemma SignOutKeeps(f: Fleet)
    requires Inv(f) && f.holder.None?
    ensures Inv(f.(store := Missing))
  {
    IdleProcsStayOk(f, f.(store := Missing));
  }

  // ── Whole runs ────────────────────────────────────────────────────────────────────────────────

  lemma StepKeeps(f: Fleet, step: Step)
    requires Inv(f) && Prompt(f, step)
    ensures Inv(F.Apply(f, step))
  {
    hide DoEnter, DoPresent, DoFinish, DoCrash, DoLogin;
    match step
    case Enter(p, name, snapshot, now) => EnterKeeps(f, p, name, snapshot, now);
    case Present(p, net) => PresentKeeps(f, p, net);
    case Finish(p, diskFails) => FinishKeeps(f, p, diskFails);
    case Crash(p) => CrashKeeps(f, p);
    case Login(name, clientId, stamped, scope, resource, now) => LoginKeeps(f, name, clientId, stamped, scope, resource, now);
    case SignOut => if f.holder.None? { SignOutKeeps(f); }
  }

  lemma InitKeeps(f: Fleet)
    requires Init(f)
    ensures Inv(f)
  {
    forall p: nat | p < |f.procs| ensures ProcOk(f, p) { assert f.procs[p].phase.Away?; }
  }

  lemma {:induction false} RunKeeps(f: Fleet, run: seq<Step>)
    requires Init(f) && PromptThroughout(f, run)
    ensures Inv(F.Exec(f, run))
  {
    hide Inv, Prompt, F.Apply, Init;
    if run == [] {
      InitKeeps(f);
    } else {
      var n := |run| - 1;
      assert forall i :: 0 <= i < n ==> run[..n][..i] == run[..i] && Prompt(F.Exec(f, run[..i]), run[i]);
      RunKeeps(f, run[..n]);
      StepKeeps(F.Exec(f, run[..n]), run[n]);
    }
  }

  /** The store is the live head of each family's chain, or its direct predecessor. */
  ghost predicate HeadOrPredecessor(f: Fleet, name: FamilyName) {
    var t := RefreshTokenIn(f.store, name);
    && t.Some? && t.value in f.server.rows
    && (f.server.rows[t.value].Live() || exists head :: HeadAfter(f.server, t.value, head))
  }

  /**
   * Losses: whatever responses, writes and processes are lost, as long as re-presentations are prompt the
   * store holds the live head of every family or its direct predecessor, no family is ever revoked, and
   * grace hits together with the families still behind never outnumber the losses.
   */
  lemma FleetSurvivesLosses(f: Fleet, run: seq<Step>, name: FamilyName)
    requires Init(f) && PromptThroughout(f, run)
    ensures
      var g := F.Exec(f, run);
      && g.server.counters.familyRevokes == 0
      && g.server.counters.graceHits + |Behind(g)| <= g.losses
      && (FamilyIn(g.store, name).Some? ==> HeadOrPredecessor(g, name))
  {
    RunKeeps(f, run);
    var g := F.Exec(f, run);
    if FamilyIn(g.store, name).Some? { assert FamilyOk(g.server, EffectiveFamilies(Current(g.store))[name]); }
  }

  /**
   * A family left behind is caught up by its next prompt, answered presentation: the provider hears the
   * successor pair the rotation made, and the server rotates and writes nothing.
   */
  lemma RetryCatchesUp(f: Fleet, run: seq<Step>, p: nat, net: Net)
    requires Init(f) && PromptThroughout(f, run + [Present(p, net)]) && net.delivery.Answered?
    requires MayPresent(F.Exec(f, run), p) && !LiveToken(F.Exec(f, run).server, Some(F.Exec(f, run).procs[p].phase.ask.token))
    ensures
      var g, h := F.Exec(f, run), F.Exec(f, run + [Present(p, net)]);
      var t, ph := g.procs[p].phase.ask.token, h.procs[p].phase;
      && SameChain(g.server, h.server) && h.server.counters.rotations == g.server.counters.rotations
      && ph.Heard? && ph.result.Success?
      && t in g.server.grace && ph.result.accessToken == g.server.grace[t].access
      && ph.result.refreshToken == Some(g.server.grace[t].successor)
  {
    var all := run + [Present(p, net)];
    assert all[..|run|] == run;
    assert forall i :: 0 <= i < |run| ==> all[..i] == run[..i] && Prompt(F.Exec(f, all[..i]), all[i]);
    RunKeeps(f, run);
    var g := F.Exec(f, run);
    assert Prompt(F.Exec(f, all[..|run|]), all[|run|]);
    assert ProcOk(g, p);
    var ph := g.procs[p].phase;
    assert FamilyOk(g.server, ph.ask.family);
    var t, id := ph.ask.token, ph.ask.candidates[ph.k];
    ExchangeEffect(g.server, ph.ask.family, t, id, net);
    assert t in g.server.grace ==> GraceOk(g.server, t);
    SuccessorIsUnique(g.server, t, id, net);
  }

  lemma SuccessorIsUnique(s: Server, t: Token, id: string, net: Net)
    requires ChainInv(s) && t in s.rows && !s.rows[t].Live()
    ensures
      var r := Exchange(s, id, t, net).1;
      r.Success? ==> t in s.grace && r.refreshToken == Some(s.grace[t].successor)
    ensures Exchange(s, id, t, net).0.counters.rotations == s.counters.rotations
  {
    assert t in s.grace ==> GraceOk(s, t);
  }

  lemma LossesOnlyGrow(f: Fleet, step: Step)
    ensures f.losses <= F.Apply(f, step).losses
  {
    hide Exchange, LosesGrant, Settle, Mint, Decide;
  }

  /** Where nothing is behind, every presentation is of a live token, so it is prompt. */
  lemma NothingBehindIsPrompt(f: Fleet, step: Step)
    requires Inv(f) && f.losses == 0
    ensures Prompt(f, step)
  {
    if step.Present? && MayPresent(f, step.p) {
      assert ProcOk(f, step.p);
      var ph := f.procs[step.p].phase;
      assert Behind(f) == {};
      assert ph.name !in Behind(f);
    }
  }

  lemma {:induction false} LosslessRunKeeps(f: Fleet, run: seq<Step>)
    requires Init(f) && F.Exec(f, run).losses == 0
    ensures Inv(F.Exec(f, run))
  {
    if run == [] {
      InitKeeps(f);
    } else {
      var n := |run| - 1;
      LossesOnlyGrow(F.Exec(f, run[..n]), run[n]);
      LosslessRunKeeps(f, run[..n]);
      NothingBehindIsPrompt(F.Exec(f, run[..n]), run[n]);
      StepKeeps(F.Exec(f, run[..n]), run[n]);
    }
  }

  /**
   * No losses: however the fleet's steps interleave, with no assumption on time, no family is ever revoked
   * and no grace is ever used; and whenever nobody is in the critical section, the stored token is the only
   * live row of its family.
   */
  lemma FleetWithoutLosses(f: Fleet, run: seq<Step>, name: FamilyName)
    requires Init(f) && F.Exec(f, run).losses == 0
    ensures
      var g := F.Exec(f, run);
      && g.server.counters.familyRevokes == 0 && g.server.counters.graceHits == 0
      && (g.holder.None? && FamilyIn(g.store, name).Some? ==>
            var t := RefreshTokenIn(g.store, name);
            && LiveToken(g.server, t)
            && forall u :: LiveIn(g.server, g.server.rows[t.value].family, u) ==> u == t.value)
  {
    LosslessRunKeeps(f, run);
    var g := F.Exec(f, run);
    if g.holder.None? && FamilyIn(g.store, name).Some? {
      assert FamilyOk(g.server, EffectiveFamilies(Current(g.store))[name]);
      assert Behind(g) == {};
      assert name !in Behind(g);
      var t := RefreshTokenIn(g.store, name).value;
      forall u | LiveIn(g.server, g.server.rows[t].family, u) ensures u == t {
        assert PairOk(g.server.rows, t, u) && PairOk(g.server.rows, u, t);
      }
    }
  }
}
