/**
 * The refresh grant of the authorization server the fleet runs against: rotation of refresh tokens
 * (section 6 of RFC 6749), reuse detection with family revocation (section 4.14.2 of RFC 9700) and the
 * rotation grace window. Token hashes are injective, so a token stands for its own hash; freshly drawn
 * tokens come from a counter.
 */
module AuthorizationServer {
  import opened Basics
  import opened MachineCredentials

  const REFRESH_TOKEN_LIFETIME_MS: int := 2_592_000_000

  datatype Row = Row(
    family: nat,
    clientId: string,
    scope: set<string>,
    resource: Option<string>,
    generation: nat,
    expiresAt: int,
    revokedAt: Option<int>)
  {
    predicate Live() { revokedAt.None? }
  }

  /** The successor pair of a rotation, cached under the predecessor for the grace window. */
  datatype Grace = Grace(successor: Token, access: Token, accessExpiresAt: int, scope: set<string>, cachedAt: int)

  datatype Counters = Counters(refreshCalls: nat, rotations: nat, graceHits: nat, familyRevokes: nat)

  datatype Server = Server(
    graceWindowMs: int,
    accessTtlSeconds: int,
    rows: map<Token, Row>,
    grace: map<Token, Grace>,
    nextFamily: nat,
    nextToken: nat,
    counters: Counters)

  datatype Request = Request(
    clientId: string,
    refreshToken: Token,
    scope: Option<set<string>>,
    resource: Option<string>)

  datatype Refusal =
    | ClientIdRequired
    | RefreshTokenRequired
    | UnknownToken
    | ReuseDetected
    | TokenExpired
    | ClientIdMismatch
    | ScopeExceeded
    | ResourceMismatch

  datatype Response =
    | Granted(access: Token, refresh: Token, expiresInSeconds: int, scope: set<string>)
    | Refused(why: Refusal)

  function OrEmpty(s: Option<string>): string {
    if s.Some? then s.value else ""
  }

  predicate ResourceDiffers(requested: Option<string>, granted: Option<string>) {
    requested.Some? && requested.value != "" && StripSlashes(OrEmpty(granted)) != StripSlashes(requested.value)
  }

  /** Revoke every live row of a family. */
  function RevokedFamily(rows: map<Token, Row>, family: nat, now: int): map<Token, Row> {
    map t | t in rows ::
      if rows[t].family == family && rows[t].Live() then rows[t].(revokedAt := Some(now)) else rows[t]
  }

  /** The grace record that answers a replay of the revoked row `token`, if every rung passes. */
  function RotationGrace(s: Server, token: Token, req: Request, now: int): Option<Grace>
    requires token in s.rows
  {
    var row := s.rows[token];
    if s.graceWindowMs <= 0 || row.Live() || now - row.revokedAt.value > s.graceWindowMs then None
    else if row.clientId != req.clientId || token !in s.grace then None
    else
      var record := s.grace[token];
      if now > record.cachedAt + s.graceWindowMs then None
      else if record.successor !in s.rows || !s.rows[record.successor].Live() then None
      else if s.rows[record.successor].family != row.family then None
      else if req.scope.Some? && req.scope.value != record.scope then None
      else if ResourceDiffers(req.resource, row.resource) then None
      else Some(record)
  }

  /** A replay of a revoked row inside both windows, by its client, with no scope and no resource named. */
  predicate PromptReplay(row: Row, record: Grace, window: int, req: Request, now: int) {
    && window > 0 && !row.Live() && now <= row.revokedAt.value + window && now <= record.cachedAt + window
    && req.clientId == row.clientId && req.scope.None? && req.resource.None?
  }

  /** Whole seconds, rounded up. */
  function Ceiling1000(ms: int): (s: int)
    ensures 1000 * (s - 1) < ms <= 1000 * s
  {
    -((-ms) / 1000)
  }

  function Rotate(s: Server, token: Token, scope: set<string>, now: int): (Server, Response)
    requires token in s.rows
  {
    var row := s.rows[token];
    var refresh, access := Tok(s.nextToken), Tok(s.nextToken + 1);
    var successor := Row(row.family, row.clientId, scope, row.resource, row.generation + 1, now + REFRESH_TOKEN_LIFETIME_MS, None);
    var record := Grace(refresh, access, now + s.accessTtlSeconds * 1000, scope, now);
    (s.(rows := s.rows[token := row.(revokedAt := Some(now))][refresh := successor],
        grace := if s.graceWindowMs <= 0 then s.grace else s.grace[token := record],
        nextToken := s.nextToken + 2,
        counters := s.counters.(rotations := s.counters.rotations + 1)),
     Granted(access, refresh, s.accessTtlSeconds, scope))
  }

  function Counted(s: Server): Server {
    s.(counters := s.counters.(refreshCalls := s.counters.refreshCalls + 1))
  }

  /** A refresh-token grant request, rung by rung. */
  function Handle(server: Server, req: Request, now: int): (Server, Response) {
    var s := Counted(server);
    if req.clientId == "" then (s, Refused(ClientIdRequired))
    else if req.refreshToken.Blank? then (s, Refused(RefreshTokenRequired))
    else if req.refreshToken !in s.rows then (s, Refused(UnknownToken))
    else
      var row := s.rows[req.refreshToken];
      if !row.Live() then
        match RotationGrace(s, req.refreshToken, req, now)
        case Some(record) =>
          (s.(counters := s.counters.(graceHits := s.counters.graceHits + 1)),
           Granted(record.access, record.successor, Max(1, Ceiling1000(record.accessExpiresAt - now)), record.scope))
        case None =>
          (s.(rows := RevokedFamily(s.rows, row.family, now),
              counters := s.counters.(familyRevokes := s.counters.familyRevokes + 1)),
           Refused(ReuseDetected))
      else if row.expiresAt < now then (s, Refused(TokenExpired))
      else if row.clientId != req.clientId then (s, Refused(ClientIdMismatch))
      else if req.scope.Some? && !(req.scope.value <= row.scope) then (s, Refused(ScopeExceeded))
      else if ResourceDiffers(req.resource, row.resource) then (s, Refused(ResourceMismatch))
      else Rotate(s, req.refreshToken, if req.scope.Some? && req.scope.value != {} then req.scope.value else row.scope, now)
  }

  /** Seed a new family, as a login or an exchange does. */
  function Mint(s: Server, clientId: string, scope: set<string>, resource: Option<string>, now: int): (Server, Token, Token) {
    var refresh, access := Tok(s.nextToken), Tok(s.nextToken + 1);
    var row := Row(s.nextFamily, clientId, scope, resource, 0, now + REFRESH_TOKEN_LIFETIME_MS, None);
    (s.(rows := s.rows[refresh := row], nextFamily := s.nextFamily + 1, nextToken := s.nextToken + 2), access, refresh)
  }

  function NewServer(graceWindowMs: int, accessTtlSeconds: int): Server {
    Server(graceWindowMs, accessTtlSeconds, map[], map[], 0, 0, Counters(0, 0, 0, 0))
  }

  datatype Event =
    | Refresh(req: Request, at: int)
    | NewFamily(clientId: string, scope: set<string>, resource: Option<string>, at: int)

  function Apply(s: Server, e: Event): Server {
    match e
    case Refresh(req, at) => Handle(s, req, at).0
    case NewFamily(clientId, scope, resource, at) => Mint(s, clientId, scope, resource, at).0
  }

  function Exec(s: Server, run: seq<Event>): Server {
    if run == [] then s else Apply(Exec(s, run[..|run| - 1]), run[|run| - 1])
  }

  // ── The chain invariant ───────────────────────────────────────────────────────────────────────

  /**
   * Within a family: no two rows share a generation, a live row is the newest, every row belongs to one
   * client and audience, and scope only narrows.
   */
  predicate PairOk(rows: map<Token, Row>, t: Token, u: Token)
    requires t in rows && u in rows
  {
    rows[t].family == rows[u].family ==>
      && (rows[t].generation == rows[u].generation ==> t == u)
      && (rows[t].Live() ==> rows[u].generation <= rows[t].generation)
      && rows[t].clientId == rows[u].clientId
      && rows[t].resource == rows[u].resource
      && (rows[t].generation <= rows[u].generation ==> rows[u].scope <= rows[t].scope)
  }

  predicate Succeeds(rows: map<Token, Row>, t: Token, n: Token)
    requires t in rows && n in rows
  {
    rows[n].family == rows[t].family && rows[n].generation == rows[t].generation + 1
  }

  predicate IdOk(s: Server, t: Token)
    requires t in s.rows
  {
    t.Tok? && t.id < s.nextToken && s.rows[t].family < s.nextFamily
  }

  /** A cached record names the direct successor of the revoked row it is kept under. */
  predicate GraceOk(s: Server, t: Token)
    requires t in s.grace
  {
    var n := s.grace[t].successor;
    && t in s.rows && n in s.rows
    && Succeeds(s.rows, t, n)
    && s.rows[t].revokedAt == Some(s.grace[t].cachedAt)
    && s.grace[t].access.Tok?
  }

  /** With the window enabled no rotation goes uncached. */
  predicate Cached(s: Server, t: Token, n: Token)
    requires t in s.rows && n in s.rows
  {
    s.graceWindowMs > 0 && Succeeds(s.rows, t, n) ==> t in s.grace && s.grace[t].successor == n
  }

  ghost predicate ChainInv(s: Server) {
    && (forall t, u :: t in s.rows && u in s.rows ==> PairOk(s.rows, t, u))
    && (forall t :: t in s.rows ==> IdOk(s, t))
    && (forall t :: t in s.grace ==> GraceOk(s, t))
    && (forall t, n :: t in s.rows && n in s.rows ==> Cached(s, t, n))
  }

  lemma RotateKeepsPairs(s: Server, token: Token, scope: set<string>, now: int, t: Token, u: Token)
    requires ChainInv(s) && token in s.rows && s.rows[token].Live() && scope <= s.rows[token].scope
    requires Tok(s.nextToken) !in s.rows
    requires t in Rotate(s, token, scope, now).0.rows && u in Rotate(s, token, scope, now).0.rows
    ensures PairOk(Rotate(s, token, scope, now).0.rows, t, u)
    ensures Cached(Rotate(s, token, scope, now).0, t, u)
  {
    var refresh := Tok(s.nextToken);
    var t0, u0 := if t == refresh then token else t, if u == refresh then token else u;
    assert PairOk(s.rows, t0, u0) && PairOk(s.rows, token, u0) && PairOk(s.rows, token, t0) && PairOk(s.rows, t0, token);
    assert Cached(s, t0, u0);
  }

  lemma RotateKeepsChain(s: Server, token: Token, scope: set<string>, now: int)
    requires ChainInv(s) && token in s.rows && s.rows[token].Live() && scope <= s.rows[token].scope
    ensures ChainInv(Rotate(s, token, scope, now).0)
  {
    var s' := Rotate(s, token, scope, now).0;
    var refresh := Tok(s.nextToken);
    assert refresh in s.rows ==> IdOk(s, refresh);
    forall t, u | t in s'.rows && u in s'.rows ensures PairOk(s'.rows, t, u) && Cached(s', t, u) {
      RotateKeepsPairs(s, token, scope, now, t, u);
    }
    forall t | t in s'.rows ensures IdOk(s', t) {
      assert IdOk(s, if t == refresh then token else t);
    }
    forall t | t in s'.grace ensures GraceOk(s', t) {
      assert t in s.grace ==> GraceOk(s, t);
    }
  }

  lemma RevokeKeepsChain(s: Server, family: nat, now: int)
    requires ChainInv(s)
    ensures ChainInv(s.(rows := RevokedFamily(s.rows, family, now)))
  {
    var s' := s.(rows := RevokedFamily(s.rows, family, now));
    forall t, u | t in s'.rows && u in s'.rows ensures PairOk(s'.rows, t, u) && Cached(s', t, u) {
      assert PairOk(s.rows, t, u) && Cached(s, t, u);
    }
    forall t | t in s'.rows ensures IdOk(s', t) { assert IdOk(s, t); }
    forall t | t in s'.grace ensures GraceOk(s', t) { assert GraceOk(s, t); }
  }

  lemma MintKeepsChain(s: Server, clientId: string, scope: set<string>, resource: Option<string>, now: int)
    requires ChainInv(s)
    ensures ChainInv(Mint(s, clientId, scope, resource, now).0)
  {
    var s' := Mint(s, clientId, scope, resource, now).0;
    forall t | t in s.rows ensures IdOk(s', t) { assert IdOk(s, t); }
    forall t, u | t in s'.rows && u in s'.rows ensures PairOk(s'.rows, t, u) && Cached(s', t, u) {
      assert t in s.rows ==> IdOk(s, t);
      assert u in s.rows ==> IdOk(s, u);
      assert t in s.rows && u in s.rows ==> PairOk(s.rows, t, u) && Cached(s, t, u);
    }
    forall t | t in s'.grace ensures GraceOk(s', t) {
      assert GraceOk(s, t);
      assert IdOk(s, t) && IdOk(s, s.grace[t].successor);
    }
  }

  predicate SameChain(s: Server, s': Server) {
    s'.(counters := s.counters) == s
  }

  predicate Rotates(s: Server, req: Request, now: int, scope: set<string>) {
    && req.refreshToken in s.rows
    && s.rows[req.refreshToken].Live() && s.rows[req.refreshToken].clientId == req.clientId
    && scope <= s.rows[req.refreshToken].scope
    && Handle(s, req, now) == Rotate(Counted(s), req.refreshToken, scope, now)
  }

  /** A request does one of three things: it leaves rows and cache alone, rotates a live row, or revokes a family. */
  lemma HandleCases(s: Server, req: Request, now: int)
    ensures
      || SameChain(s, Handle(s, req, now).0)
      || (exists scope :: Rotates(s, req, now, scope))
      || (&& req.refreshToken in s.rows && !s.rows[req.refreshToken].Live()
          && Handle(s, req, now).1 == Refused(ReuseDetected)
          && SameChain(s.(rows := RevokedFamily(s.rows, s.rows[req.refreshToken].family, now)), Handle(s, req, now).0))
  {
    var t := req.refreshToken;
    if t in s.rows && Handle(s, req, now).0.counters.rotations != s.counters.rotations {
      var scope := if req.scope.Some? && req.scope.value != {} then req.scope.value else s.rows[t].scope;
      assert Rotates(s, req, now, scope);
    }
  }

  lemma SameChainKeepsChain(s: Server, s': Server)
    requires ChainInv(s) && SameChain(s, s')
    ensures ChainInv(s')
  {
    assert s' == s.(counters := s'.counters);
    forall t | t in s'.rows ensures IdOk(s', t) { assert IdOk(s, t); }
    forall t | t in s'.grace ensures GraceOk(s', t) { assert GraceOk(s, t); }
    forall t, n | t in s'.rows && n in s'.rows ensures Cached(s', t, n) { assert Cached(s, t, n); }
  }

  lemma HandleKeepsChain(s: Server, req: Request, now: int)
    requires ChainInv(s)
    ensures ChainInv(Handle(s, req, now).0)
  {
    HandleCases(s, req, now);
    var s' := Handle(s, req, now).0;
    if SameChain(s, s') {
      SameChainKeepsChain(s, s');
    } else if scope :| Rotates(s, req, now, scope) {
      SameChainKeepsChain(s, Counted(s));
      RotateKeepsChain(Counted(s), req.refreshToken, scope, now);
    } else {
      RevokeKeepsChain(s, s.rows[req.refreshToken].family, now);
      SameChainKeepsChain(s.(rows := RevokedFamily(s.rows, s.rows[req.refreshToken].family, now)), s');
    }
  }

  lemma ApplyKeepsChain(s: Server, e: Event)
    requires ChainInv(s)
    ensures ChainInv(Apply(s, e))
  {
    match e
    case Refresh(req, at) => HandleKeepsChain(s, req, at);
    case NewFamily(clientId, scope, resource, at) => MintKeepsChain(s, clientId, scope, resource, at);
  }

  lemma {:induction false} RunKeepsChain(s: Server, run: seq<Event>)
    requires ChainInv(s)
    ensures ChainInv(Exec(s, run))
  {
    if run != [] {
      RunKeepsChain(s, run[..|run| - 1]);
      ApplyKeepsChain(Exec(s, run[..|run| - 1]), run[|run| - 1]);
    }
  }

  // ── What the chain means ──────────────────────────────────────────────────────────────────────

  predicate LiveIn(s: Server, family: nat, t: Token) {
    t in s.rows && s.rows[t].family == family && s.rows[t].Live()
  }

  /** After any run of requests and logins a family has at most one live row, and it is the newest. */
  lemma AtMostOneLiveRow(graceWindowMs: int, accessTtlSeconds: int, run: seq<Event>, family: nat, t: Token, u: Token)
    requires LiveIn(Exec(NewServer(graceWindowMs, accessTtlSeconds), run), family, t)
    requires u in Exec(NewServer(graceWindowMs, accessTtlSeconds), run).rows
    requires Exec(NewServer(graceWindowMs, accessTtlSeconds), run).rows[u].family == family
    ensures
      var rows := Exec(NewServer(graceWindowMs, accessTtlSeconds), run).rows;
      rows[u].generation <= rows[t].generation && (rows[u].Live() ==> u == t)
  {
    RunKeepsChain(NewServer(graceWindowMs, accessTtlSeconds), run);
    var rows := Exec(NewServer(graceWindowMs, accessTtlSeconds), run).rows;
    assert PairOk(rows, t, u) && PairOk(rows, u, t);
  }

  predicate InWindow(s: Server, t: Token, now: int)
    requires t in s.rows && !s.rows[t].Live()
  {
    s.graceWindowMs > 0 && now - s.rows[t].revokedAt.value <= s.graceWindowMs
  }

  /**
   * A client that names neither scope nor resource and replays a revoked token is answered with a pair
   * exactly when it is the minting client, the window is open and the family's live row directly
   * succeeds the token. The answer then is that row and the pair cached for it, and nothing is written;
   * in every other case the family is revoked.
   */
  lemma ReplayIsGracedIffDirectPredecessor(s: Server, req: Request, now: int)
    requires ChainInv(s)
    requires req.refreshToken in s.rows && !s.rows[req.refreshToken].Live()
    requires req.clientId != "" && req.scope.None? && req.resource.None?
    ensures
      var (s', r) := Handle(s, req, now);
      var t := req.refreshToken;
      && (r.Granted? <==>
            && InWindow(s, t, now) && s.rows[t].clientId == req.clientId
            && exists head :: head in s.rows && s.rows[head].Live() && Succeeds(s.rows, t, head))
      && (r.Granted? ==>
            && LiveIn(s, s.rows[t].family, r.refresh) && Succeeds(s.rows, t, r.refresh)
            && t in s.grace && r.access == s.grace[t].access && r.scope == s.grace[t].scope
            && SameChain(s, s'))
      && (!r.Granted? ==> r == Refused(ReuseDetected) && FamilyIsDead(s', s.rows[t].family))
  {
    var t := req.refreshToken;
    assert IdOk(s, t);
    assert t in s.grace ==> GraceOk(s, t);
    if head :| head in s.rows && s.rows[head].Live() && Succeeds(s.rows, t, head) {
      assert Cached(s, t, head);
    }
  }

  /** Every answered replay, whatever scope or resource it names: direct predecessor only, no write. */
  lemma GraceAnswersOnlyTheDirectPredecessor(s: Server, req: Request, now: int)
    requires ChainInv(s)
    requires req.refreshToken in s.rows && !s.rows[req.refreshToken].Live()
    requires Handle(s, req, now).1.Granted?
    ensures
      var (s', r) := Handle(s, req, now);
      var t := req.refreshToken;
      && LiveIn(s, s.rows[t].family, r.refresh) && Succeeds(s.rows, t, r.refresh)
      && InWindow(s, t, now) && s.rows[t].clientId == req.clientId
      && SameChain(s, s') && s'.counters.graceHits == s.counters.graceHits + 1
  {
    assert GraceOk(s, req.refreshToken);
  }

  predicate Remembers(s: Server, t: Token, record: Grace) {
    t in s.grace && s.grace[t] == record
  }

  lemma {:induction false} GraceIsKept(s: Server, run: seq<Event>, t: Token, record: Grace)
    requires ChainInv(s) && Remembers(s, t, record)
    ensures Remembers(Exec(s, run), t, record)
  {
    if run != [] {
      var before := Exec(s, run[..|run| - 1]);
      GraceIsKept(s, run[..|run| - 1], t, record);
      RunKeepsChain(s, run[..|run| - 1]);
      assert GraceOk(before, t);
      match run[|run| - 1]
      case Refresh(req, at) => HandleCases(before, req, at);
      case NewFamily(clientId, scope, resource, at) =>
    }
  }

  /**
   * Whatever happens between a rotation and a retry of the token it revoked, an answered retry is the same
   * pair by value, and it rotates nothing.
   */
  lemma RetryReturnsTheSamePair(s: Server, req: Request, now: int, run: seq<Event>, retry: Request, later: int)
    requires ChainInv(s) && s.graceWindowMs > 0
    requires req.refreshToken in s.rows && s.rows[req.refreshToken].Live() && Handle(s, req, now).1.Granted?
    requires retry.refreshToken == req.refreshToken
    requires Handle(Exec(Handle(s, req, now).0, run), retry, later).1.Granted?
    ensures
      var first := Handle(s, req, now);
      var between := Exec(first.0, run);
      var second := Handle(between, retry, later);
      && second.1.access == first.1.access && second.1.refresh == first.1.refresh && second.1.scope == first.1.scope
      && SameChain(between, second.0) && second.0.counters.rotations == between.counters.rotations
  {
    var t := req.refreshToken;
    var first := Handle(s, req, now);
    HandleCases(s, req, now);
    var scope :| Rotates(s, req, now, scope);
    HandleKeepsChain(s, req, now);
    RunKeepsChain(first.0, run);
    GraceIsKept(first.0, run, t, first.0.grace[t]);
    var between := Exec(first.0, run);
    assert GraceOk(between, t);
  }

  ghost predicate FamilyIsDead(s: Server, family: nat) {
    family < s.nextFamily && forall t :: !LiveIn(s, family, t)
  }

  lemma HandleKeepsDead(s: Server, req: Request, now: int, family: nat)
    requires ChainInv(s) && FamilyIsDead(s, family)
    ensures FamilyIsDead(Handle(s, req, now).0, family)
  {
    HandleCases(s, req, now);
    var s' := Handle(s, req, now).0;
    forall t ensures !LiveIn(s', family, t) {
      assert !LiveIn(s, family, t) && !LiveIn(s, family, req.refreshToken);
    }
  }

  /** A revoked family never has a live row again, whatever is presented afterwards. */
  lemma {:induction false} DeadFamilyStaysDead(s: Server, run: seq<Event>, family: nat)
    requires ChainInv(s) && FamilyIsDead(s, family)
    ensures FamilyIsDead(Exec(s, run), family)
  {
    if run != [] {
      var before := Exec(s, run[..|run| - 1]);
      DeadFamilyStaysDead(s, run[..|run| - 1], family);
      RunKeepsChain(s, run[..|run| - 1]);
      match run[|run| - 1]
      case Refresh(req, at) => HandleKeepsDead(before, req, at, family);
      case NewFamily(clientId, scope, resource, at) =>
        forall t ensures !LiveIn(Exec(s, run), family, t) { assert !LiveIn(before, family, t); }
    }
  }

  // ── Every answer, rung by rung ────────────────────────────────────────────────────────────────

  /** A request that names a resource must name the granted one, up to slashes at its end. */
  ghost predicate SameAudience(requested: Option<string>, granted: Option<string>) {
    requested.None? || requested.value == "" || SameButForEndSlashes(OrEmpty(granted), requested.value)
  }

  /** A request that names scopes may name some of the granted ones only. */
  predicate WithinScope(requested: Option<set<string>>, granted: set<string>) {
    requested.Some? ==> forall x :: x in requested.value ==> x in granted
  }

  /**
   * A grant on a live row: a fresh pair, whose row is that of the presented token one generation on, with the scopes
   * asked for if any were, for another thirty days; the presented row is revoked, and everything else stays.
   */
  predicate IssuesSuccessor(s: Server, req: Request, now: int, s': Server, r: Response)
    requires req.refreshToken in s.rows
  {
    var row := s.rows[req.refreshToken];
    && r.Granted? && r.refresh == Tok(s.nextToken) && r.access == Tok(s.nextToken + 1) && s'.nextToken == s.nextToken + 2
    && r.expiresInSeconds == s.accessTtlSeconds
    && r.scope == (if req.scope.Some? && req.scope.value != {} then req.scope.value else row.scope)
    && s'.rows == s.rows[req.refreshToken := row.(revokedAt := Some(now))]
                        [r.refresh := Row(row.family, row.clientId, r.scope, row.resource, row.generation + 1, now + 2_592_000_000, None)]
    && s'.grace == (if s.graceWindowMs > 0
                    then s.grace[req.refreshToken := Grace(r.refresh, r.access, now + s.accessTtlSeconds * 1000, r.scope, now)] else s.grace)
    && s'.nextFamily == s.nextFamily
  }

  /** What a live row answers: the first rung that does not hold, and otherwise a successor. */
  ghost predicate LiveRowTells(s: Server, req: Request, now: int, s': Server, r: Response)
    requires req.refreshToken in s.rows
  {
    var row := s.rows[req.refreshToken];
    if now > row.expiresAt then r == Refused(TokenExpired) && SameChain(s, s')
    else if req.clientId != row.clientId then r == Refused(ClientIdMismatch) && SameChain(s, s')
    else if !WithinScope(req.scope, row.scope) then r == Refused(ScopeExceeded) && SameChain(s, s')
    else if !SameAudience(req.resource, row.resource) then r == Refused(ResourceMismatch) && SameChain(s, s')
    else IssuesSuccessor(s, req, now, s', r)
  }

  /** When a replay of a revoked row is answered: in both windows, by its client, for the live row that was cached, in the same terms. */
  ghost predicate Gracious(s: Server, req: Request, now: int)
    requires req.refreshToken in s.rows && !s.rows[req.refreshToken].Live()
  {
    var t, row := req.refreshToken, s.rows[req.refreshToken];
    && s.graceWindowMs > 0 && now <= row.revokedAt.value + s.graceWindowMs && req.clientId == row.clientId
    && t in s.grace && now <= s.grace[t].cachedAt + s.graceWindowMs
    && s.grace[t].successor in s.rows && s.rows[s.grace[t].successor].Live() && s.rows[s.grace[t].successor].family == row.family
    && (req.scope.Some? ==> req.scope.value == s.grace[t].scope) && SameAudience(req.resource, row.resource)
  }

  /** What a revoked row answers: the cached pair and nothing written, or the end of its family. */
  ghost predicate RevokedRowTells(s: Server, req: Request, now: int, s': Server, r: Response)
    requires req.refreshToken in s.rows && !s.rows[req.refreshToken].Live()
  {
    if Gracious(s, req, now) then
      var record := s.grace[req.refreshToken];
      && r.Granted? && r.access == record.access && r.refresh == record.successor && r.scope == record.scope && SameChain(s, s')
      && r.expiresInSeconds >= 1 && (r.expiresInSeconds > 1 ==> 1000 * (r.expiresInSeconds - 1) < record.accessExpiresAt - now <= 1000 * r.expiresInSeconds)
    else
      && r == Refused(ReuseDetected) && s'.grace == s.grace && s'.rows.Keys == s.rows.Keys
      && s'.nextToken == s.nextToken && s'.nextFamily == s.nextFamily
      && forall u :: u in s.rows ==>
           s'.rows[u] == if s.rows[u].family == s.rows[req.refreshToken].family && s.rows[u].Live() then s.rows[u].(revokedAt := Some(now)) else s.rows[u]
  }

  ghost predicate HandleTells(s: Server, req: Request, now: int, s': Server, r: Response) {
    && s'.counters.refreshCalls == s.counters.refreshCalls + 1
    && if req.clientId == "" then r == Refused(ClientIdRequired) && SameChain(s, s')
       else if !req.refreshToken.Tok? then r == Refused(RefreshTokenRequired) && SameChain(s, s')
       else if req.refreshToken !in s.rows then r == Refused(UnknownToken) && SameChain(s, s')
       else if s.rows[req.refreshToken].Live() then LiveRowTells(s, req, now, s', r)
       else RevokedRowTells(s, req, now, s', r)
  }

  lemma AudienceExactly(requested: Option<string>, granted: Option<string>)
    ensures ResourceDiffers(requested, granted) <==> !SameAudience(requested, granted)
  {
    if requested.Some? { StrippedAlikeExactly(OrEmpty(granted), requested.value); }
    hide SameButForEndSlashes, StripSlashes;
  }

  /** Every request, on every server: which rung refuses it, and what an answer consists of. */
  lemma HandleMeans(s: Server, req: Request, now: int)
    ensures HandleTells(s, req, now, Handle(s, req, now).0, Handle(s, req, now).1)
  {
    if req.refreshToken in s.rows { AudienceExactly(req.resource, s.rows[req.refreshToken].resource); }
    hide ResourceDiffers, SameAudience;
  }

  /** The server object, its rows and cache mutated request by request. */
  class FakeAuthorizationServer {
    const graceWindowMs: int
    const accessTtlSeconds: int
    var rows: map<Token, Row>
    var grace: map<Token, Grace>
    var nextFamily: nat
    var nextToken: nat
    var counters: Counters

    constructor (graceWindowMs: int, accessTtlSeconds: int)
      ensures Snapshot() == NewServer(graceWindowMs, accessTtlSeconds)
    {
      this.graceWindowMs, this.accessTtlSeconds := graceWindowMs, accessTtlSeconds;
      rows, grace, nextFamily, nextToken := map[], map[], 0, 0;
      counters := Counters(0, 0, 0, 0);
    }

    function Snapshot(): Server
      reads this
    {
      Server(graceWindowMs, accessTtlSeconds, rows, grace, nextFamily, nextToken, counters)
    }

    method RevokeFamily(family: nat, now: int)
      modifies this`rows
      ensures rows == RevokedFamily(old(rows), family, now)
    {
      var pending := rows.Keys;
      while pending != {}
        invariant pending <= rows.Keys == old(rows).Keys
        invariant forall t :: t in rows ==> rows[t] == if t in pending then old(rows)[t] else RevokedFamily(old(rows), family, now)[t]
        decreases |pending|
      {
        var t :| t in pending;
        if rows[t].family == family && rows[t].Live() {
          rows := rows[t := rows[t].(revokedAt := Some(now))];
        }
        pending := pending - {t};
      }
    }

    /**
     * Cache a rotation's pair. From then on a prompt replay of the predecessor by its own client is answered
     * with exactly this pair while the successor lives; no other replay is answered differently than before.
     */
    method StoreRotationGrace(predecessor: Token, record: Grace)
      modifies this`grace
      ensures grace == if graceWindowMs <= 0 then old(grace) else old(grace)[predecessor := record]
      ensures forall req, now ::
                && predecessor in rows && PromptReplay(rows[predecessor], record, graceWindowMs, req, now)
                && record.successor in rows && rows[record.successor].Live() && rows[record.successor].family == rows[predecessor].family ==>
                  RotationGrace(Snapshot(), predecessor, req, now) == Some(record)
      ensures forall req, now :: predecessor in rows ==> RotationGrace(Snapshot(), predecessor, req, now) in {None, Some(record)}
      ensures forall token, req, now :: token in rows && token != predecessor ==>
                RotationGrace(Snapshot(), token, req, now) == RotationGrace(old(Snapshot()), token, req, now)
    {
      if graceWindowMs <= 0 { return; }
      grace := grace[predecessor := record];
    }

    method TryRotationGrace(token: Token, req: Request, now: int) returns (record: Option<Grace>)
      requires token in rows
      ensures record == RotationGrace(Snapshot(), token, req, now)
    {
      var row := rows[token];
      if graceWindowMs <= 0 || row.Live() { return None; }
      if now - row.revokedAt.value > graceWindowMs || row.clientId != req.clientId { return None; }
      if token !in grace || now > grace[token].cachedAt + graceWindowMs { return None; }
      var successor := grace[token].successor;
      if successor !in rows || !rows[successor].Live() || rows[successor].family != row.family { return None; }
      if req.scope.Some? && req.scope.value != grace[token].scope { return None; }
      if ResourceDiffers(req.resource, row.resource) { return None; }
      return Some(grace[token]);
    }

    method HandleTokenRequest(req: Request, now: int) returns (r: Response)
      modifies this
      ensures (Snapshot(), r) == Handle(old(Snapshot()), req, now)
      ensures HandleTells(old(Snapshot()), req, now, Snapshot(), r)
    {
      HandleMeans(Snapshot(), req, now);
      hide HandleTells;
      counters := counters.(refreshCalls := counters.refreshCalls + 1);
      if req.clientId == "" { return Refused(ClientIdRequired); }
      if req.refreshToken.Blank? { return Refused(RefreshTokenRequired); }
      if req.refreshToken !in rows { return Refused(UnknownToken); }
      var row := rows[req.refreshToken];
      if !row.Live() {
        var record := TryRotationGrace(req.refreshToken, req, now);
        if record.Some? {
          counters := counters.(graceHits := counters.graceHits + 1);
          var g := record.value;
          return Granted(g.access, g.successor, Max(1, Ceiling1000(g.accessExpiresAt - now)), g.scope);
        }
        RevokeFamily(row.family, now);
        counters := counters.(familyRevokes := counters.familyRevokes + 1);
        return Refused(ReuseDetected);
      }
      if row.expiresAt < now { return Refused(TokenExpired); }
      if row.clientId != req.clientId { return Refused(ClientIdMismatch); }
      var scope := row.scope;
      if req.scope.Some? {
        if !(req.scope.value <= row.scope) { return Refused(ScopeExceeded); }
        if req.scope.value != {} { scope := req.scope.value; }
      }
      if ResourceDiffers(req.resource, row.resource) { return Refused(ResourceMismatch); }
      rows := rows[req.refreshToken := row.(revokedAt := Some(now))];
      var refresh, access := Tok(nextToken), Tok(nextToken + 1);
      nextToken := nextToken + 2;
      rows := rows[refresh := Row(row.family, req.clientId, scope, row.resource, row.generation + 1, now + REFRESH_TOKEN_LIFETIME_MS, None)];
      counters := counters.(rotations := counters.rotations + 1);
      StoreRotationGrace(req.refreshToken, Grace(refresh, access, now + accessTtlSeconds * 1000, scope, now));
      return Granted(access, refresh, accessTtlSeconds, scope);
    }

    method MintFamily(clientId: string, scope: set<string>, resource: Option<string>, now: int) returns (access: Token, refresh: Token)
      modifies this
      ensures (Snapshot(), access, refresh) == Mint(old(Snapshot()), clientId, scope, resource, now)
      ensures rows == old(rows)[refresh := Row(old(nextFamily), clientId, scope, resource, 0, now + 2_592_000_000, None)]
      ensures nextFamily == old(nextFamily) + 1 && refresh == Tok(old(nextToken)) && access == Tok(old(nextToken) + 1) && nextToken == old(nextToken) + 2
    {
      refresh, access := Tok(nextToken), Tok(nextToken + 1);
      nextToken := nextToken + 2;
      rows := rows[refresh := Row(nextFamily, clientId, scope, resource, 0, now + REFRESH_TOKEN_LIFETIME_MS, None)];
      nextFamily := nextFamily + 1;
    }
  }
}
