/**
 * One refresh request on the wire: the client's form reaches the server or not, and its answer comes back
 * or not. A request that was cancelled or whose answer was lost may still have rotated the token.
 */
module TokenEndpoint {
  import opened Basics
  import opened MachineCredentials
  import opened TokenRefresher
  import opened AuthorizationServer

  datatype Delivery = Answered | Unanswered(reached: bool, cancelled: bool)

  datatype Net = Net(delivery: Delivery, at: int, overBudget: bool)

  /** Exactly a refresh token and a client id are sent: no scope, no resource. */
  function Form(clientId: string, token: Token): Request {
    Request(Trim(clientId), token, None, None)
  }

  function Exchange(s: Server, clientId: string, token: Token, net: Net): (Server, RefreshResult) {
    if Trim(clientId) == "" then (s, Failure("no client id", None, false))
    else
      var (s', r) := Handle(s, Form(clientId, token), net.at);
      match net.delivery
      case Answered => (s', Understood(r, net.at))
      case Unanswered(reached, cancelled) => (if reached then s' else s, Failure("fetch failed", None, !cancelled))
  }

  /** The token's row was live and minted for this client; it is revoked now and its successor is live. */
  predicate Rotation(s: Server, s': Server, token: Token) {
    var minted := Tok(s.nextToken);
    && token in s.rows && s.rows[token].Live() && minted !in s.rows
    && s'.rows.Keys == s.rows.Keys + {minted}
    && (forall u :: u in s.rows && u != token ==> s'.rows[u] == s.rows[u])
    && s'.rows[token] == s.rows[token].(revokedAt := s'.rows[token].revokedAt) && !s'.rows[token].Live()
    && s'.rows[minted].Live() && Succeeds(s'.rows, token, minted) && s'.rows[minted].clientId == s.rows[token].clientId
    && s'.counters.familyRevokes == s.counters.familyRevokes && s'.counters.graceHits == s.counters.graceHits
    && s'.nextFamily == s.nextFamily
  }

  /** The token's row was already revoked; now its whole family is. */
  predicate Revocation(s: Server, s': Server, token: Token) {
    && token in s.rows && !s.rows[token].Live()
    && s'.rows.Keys == s.rows.Keys
    && (forall u :: u in s.rows && s.rows[u].family != s.rows[token].family ==> s'.rows[u] == s.rows[u])
    && (forall u :: u in s.rows ==> s'.rows[u] == s.rows[u].(revokedAt := s'.rows[u].revokedAt))
    && s'.rows[token] == s.rows[token]
    && s'.nextFamily == s.nextFamily
  }

  lemma RotateIsRotation(s: Server, token: Token, scope: set<string>, now: int)
    requires ChainInv(s) && token in s.rows && s.rows[token].Live()
    ensures Rotation(s, AuthorizationServer.Rotate(Counted(s), token, scope, now).0, token)
  {
    assert Tok(s.nextToken) in s.rows ==> IdOk(s, Tok(s.nextToken));
  }

  /** What handling a presentation does to the chain, and what the answer then is. */
  lemma HandleEffect(s: Server, clientId: string, token: Token, now: int)
    requires ChainInv(s) && token in s.rows && Trim(clientId) != ""
    ensures
      var (s', r) := Handle(s, Form(clientId, token), now);
      && ChainInv(s')
      && (s.rows[token].Live() ==>
            || (SameChain(s, s') && r.Refused? && s'.counters.graceHits == s.counters.graceHits && s'.counters.familyRevokes == s.counters.familyRevokes
                && (r.why.ClientIdMismatch? ==> s.rows[token].clientId != Trim(clientId)))
            || (Rotation(s, s', token) && s.rows[token].clientId == Trim(clientId) && r.Granted? && r.refresh == Tok(s.nextToken)))
      && (!s.rows[token].Live() ==>
            || (&& SameChain(s, s') && r.Granted? && LiveIn(s, s.rows[token].family, r.refresh) && Succeeds(s.rows, token, r.refresh)
                && token in s.grace && r.access == s.grace[token].access
                && s'.counters.graceHits == s.counters.graceHits + 1 && s'.counters.familyRevokes == s.counters.familyRevokes)
            || (Revocation(s, s', token) && r == Refused(ReuseDetected)))
      && (r.Granted? ==> r.access.Tok? && r.refresh.Tok?)
  {
    var req := Form(clientId, token);
    HandleKeepsChain(s, req, now);
    HandleCases(s, req, now);
    assert IdOk(s, token);
    if !s.rows[token].Live() {
      ReplayIsGracedIffDirectPredecessor(s, req, now);
      if Handle(s, req, now).1.Granted? { assert IdOk(s, Handle(s, req, now).1.refresh) && GraceOk(s, token); }
    } else if scope :| Rotates(s, req, now, scope) {
      RotateIsRotation(s, token, scope, now);
    }
  }
}
