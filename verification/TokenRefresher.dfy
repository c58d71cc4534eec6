/**
 * What a token endpoint's answer says about the refresh token that was presented: which answers are
 * verdicts on the token, which only name the wrong client, and which say nothing and may be retried.
 */
module TokenRefresher {
  import opened Basics
  import opened MachineCredentials
  import AS = AuthorizationServer

  datatype RefreshResult =
    | Success(accessToken: Token, refreshToken: Option<Token>, expiresAt: Option<int>)
    | Failure(reason: string, description: Option<string>, transient: bool)

  /** The parsed body of a token response; an absent JSON field is `None`. */
  datatype Body = Body(
    error: Option<string>,
    errorDescription: Option<string>,
    accessToken: Option<Token>,
    refreshToken: Option<Token>,
    expiresIn: Option<int>)

  const INVALID_GRANT := "invalid_grant"
  const INVALID_TARGET := "invalid_target"
  const INVALID_TOKEN_RESPONSE := "invalid token response"
  const TEMPORARILY_UNAVAILABLE := "temporarily_unavailable"
  const MISMATCH := "client_id does not match"

  predicate Truthy(t: Option<Token>) {
    t.Some? && t.value.Tok?
  }

  predicate IsClientIdMismatchText(text: Option<string>) {
    text.Some? && Contains(ToLower(text.value), MISMATCH)
  }

  predicate IsClientIdMismatch(r: RefreshResult) {
    r.Failure? && r.reason == INVALID_GRANT && IsClientIdMismatchText(r.description)
  }

  predicate IsTransientStatus(status: int) {
    status >= 500 || status == 429 || status == 408
  }

  function Description(parsed: Body): Option<string> {
    if parsed.errorDescription.Some? && Trim(parsed.errorDescription.value) != ""
    then Some(Trim(parsed.errorDescription.value)) else None
  }

  /** `parsed` is `None` for an empty body; a body that is not JSON arrives as the error `INVALID_TOKEN_RESPONSE`. */
  function BuildRefreshResult(isSuccessStatus: bool, status: int, parsed: Option<Body>, now: int): RefreshResult {
    if parsed.None? then Failure("empty token response", None, !isSuccessStatus)
    else
      var b := parsed.value;
      if !isSuccessStatus || !Truthy(b.accessToken) then
        Failure(
          if b.error.Some? then b.error.value else "refresh failed (HTTP " + Decimal(status) + ")",
          Description(b),
          && !isSuccessStatus
          && (IsTransientStatus(status) || b.error.None? || b.error.value == INVALID_TOKEN_RESPONSE || b.error.value == TEMPORARILY_UNAVAILABLE))
      else
        Success(
          b.accessToken.value,
          if Truthy(b.refreshToken) then b.refreshToken else None,
          if b.expiresIn.Some? && b.expiresIn.value > 0 then Some(now + b.expiresIn.value * 1000) else None)
  }

  /** A terminal verdict: the presented token itself is dead. */
  predicate IsVerdict(r: RefreshResult) {
    r.Failure? && !r.transient && !IsClientIdMismatch(r) && (r.reason == INVALID_GRANT || r.reason == INVALID_TARGET)
  }

  /**
   * Exactly what an answer says. It succeeds with the tokens of its body if that has an access token, until as many
   * seconds from now as the body says; it may be retried if its status or its body says nothing of the token; and
   * exactly these answers condemn the token: a body naming one of the two terminal codes, that did not
   * succeed, whose status is not a transient one and whose text does not name the wrong client. A 2xx
   * status does not protect the token when the body carries no access token.
   */
  lemma AnswerExactly(isSuccessStatus: bool, status: int, parsed: Option<Body>, now: int)
    ensures IsVerdict(BuildRefreshResult(isSuccessStatus, status, parsed, now)) <==>
              && parsed.Some?
              && (parsed.value.error == Some(INVALID_GRANT) || parsed.value.error == Some(INVALID_TARGET))
              && (if isSuccessStatus then !Truthy(parsed.value.accessToken) else !IsTransientStatus(status))
              && !(parsed.value.error == Some(INVALID_GRANT) && IsClientIdMismatchText(Description(parsed.value)))
    ensures
      var r := BuildRefreshResult(isSuccessStatus, status, parsed, now);
      && (r.Success? <==> isSuccessStatus && parsed.Some? && parsed.value.accessToken.Some? && parsed.value.accessToken.value.Tok?)
      && (r.Success? ==>
            && Some(r.accessToken) == parsed.value.accessToken
            && r.refreshToken == (if parsed.value.refreshToken == Some(Blank) then None else parsed.value.refreshToken)
            && (if parsed.value.expiresIn.Some? && parsed.value.expiresIn.value > 0
                then r.expiresAt == Some(now + 1000 * parsed.value.expiresIn.value) else r.expiresAt.None?))
      && (r.Failure? ==>
            (r.transient <==>
               && !isSuccessStatus
               && (|| parsed.None? || parsed.value.error in {None, Some("invalid token response"), Some("temporarily_unavailable")}
                   || status >= 500 || status == 429 || status == 408)))
  {
    assert "refresh failed (HTTP "[0] == 'r' && INVALID_GRANT[0] == 'i' && INVALID_TARGET[0] == 'i';
    var r := BuildRefreshResult(isSuccessStatus, status, parsed, now);
    if parsed.None? {
      assert r.reason[0] == 'e';
    } else if r.Failure? && parsed.value.error.None? {
      assert r.reason[0] == 'r';
    }
  }

  /** `invalid_grant: refresh token has expired`, the code followed by the server's words. */
  function DescribeFailure(reason: string, description: Option<string>): string {
    if description.Some? && description.value != "" then reason + ": " + description.value else reason
  }

  lemma CharsOfOccurrence(s: string, part: string, i: nat)
    requires OccursAt(s, part, i)
    ensures forall j :: i <= j < i + |part| ==> s[j] in part
  {
    forall j | i <= j < i + |part| ensures s[j] in part {
      assert s[i..i + |part|][j - i] == s[j];
    }
  }

  lemma OccurrenceShifts(s: string, t: string, part: string, i: nat)
    requires i + |part| <= |t|
    ensures OccursAt(t, part, i) <==> OccursAt(s + t, part, |s| + i)
  {
    assert (s + t)[|s| + i..|s| + i + |part|] == t[i..i + |part|];
  }

  lemma OccurrenceExtends(s: string, t: string, part: string, i: nat)
    requires i + |part| <= |s|
    ensures OccursAt(s, part, i) <==> OccursAt(s + t, part, i)
  {
    assert (s + t)[i..i + |part|] == s[i..i + |part|];
  }

  /** A text without the separator occurs in a joined string only on one side of the join. */
  lemma NoStraddle(s: string, separator: char, t: string, part: string)
    requires part != "" && separator !in part
    ensures Contains(s + [separator] + t, part) <==> Contains(s, part) || Contains(t, part)
  {
    var whole := s + [separator] + t;
    assert whole == s + ([separator] + t);
    assert whole[|s|] == separator;
    if i: nat :| i <= |whole| && OccursAt(whole, part, i) {
      CharsOfOccurrence(whole, part, i);
      if i + |part| <= |s| {
        OccurrenceExtends(s, [separator] + t, part, i);
      } else {
        OccurrenceShifts(s + [separator], t, part, i - |s| - 1);
      }
    }
    if i: nat :| i <= |s| && OccursAt(s, part, i) {
      OccurrenceExtends(s, [separator] + t, part, i);
    }
    if i: nat :| i <= |t| && OccursAt(t, part, i) {
      OccurrenceShifts(s + [separator], t, part, i);
    }
  }

  lemma NotAtFirst(c: char, t: string, part: string)
    requires part != "" && part[0] != c
    ensures Contains([c] + t, part) <==> Contains(t, part)
  {
    var whole := [c] + t;
    if i: nat :| i <= |whole| && OccursAt(whole, part, i) {
      assert part[0] == whole[i..i + |part|][0] == whole[i];
      OccurrenceShifts([c], t, part, i - 1);
    }
    if i: nat :| i <= |t| && OccursAt(t, part, i) {
      OccurrenceShifts([c], t, part, i);
    }
  }

  /** A recorded failure names a client mismatch exactly when its code or its description does. */
  lemma MismatchTextOfDescribedFailure(reason: string, description: Option<string>)
    ensures IsClientIdMismatchText(Some(DescribeFailure(reason, description))) <==>
              IsClientIdMismatchText(Some(reason)) || IsClientIdMismatchText(description)
  {
    var part := MISMATCH;
    if description.Some? && description.value != "" {
      var head, tail := ToLower(reason), ToLower(description.value);
      assert ToLower(DescribeFailure(reason, description)) == head + [':'] + ([' '] + tail);
      NoStraddle(head, ':', [' '] + tail, part);
      NotAtFirst(' ', tail, part);
    } else if description.Some? {
      assert !Contains("", part);
    }
  }

  // ── The client's view of the authorization server ─────────────────────────────────────────────

  /** The OAuth code of each refusal; every one is sent with status 400. */
  function Code(why: AS.Refusal): string {
    match why
    case ClientIdRequired => "invalid_request"
    case RefreshTokenRequired => "invalid_request"
    case UnknownToken => INVALID_GRANT
    case ReuseDetected => INVALID_GRANT
    case TokenExpired => INVALID_GRANT
    case ClientIdMismatch => INVALID_GRANT
    case ScopeExceeded => "invalid_scope"
    case ResourceMismatch => INVALID_TARGET
  }

  /** Of the descriptions the server words, only the mismatch's is read by a client; the others are left out. */
  function Words(why: AS.Refusal): Option<string> {
    if why.ClientIdMismatch? then Some(MISMATCH + " the refresh token") else None
  }

  function Understood(r: AS.Response, now: int): RefreshResult {
    match r
    case Granted(access, refresh, expiresIn, _) =>
      BuildRefreshResult(true, 200, Some(Body(None, None, Some(access), Some(refresh), Some(expiresIn))), now)
    case Refused(why) =>
      BuildRefreshResult(false, 400, Some(Body(Some(Code(why)), Words(why), None, None, None)), now)
  }

  lemma MismatchIsNamed()
    ensures Trim(MISMATCH + " the refresh token") == MISMATCH + " the refresh token"
    ensures IsClientIdMismatchText(Some(MISMATCH + " the refresh token"))
  {
    var text := MISMATCH + " the refresh token";
    assert ToLower(text)[0..|MISMATCH|] == MISMATCH;
    assert OccursAt(ToLower(text), MISMATCH, 0);
  }

  /** What each answer of the server means to a client: four refusals condemn the token, one names the wrong client, none is transient. */
  lemma ServerAnswersUnderstood(r: AS.Response, now: int)
    requires r.Granted? ==> r.access.Tok? && r.refresh.Tok?
    ensures
      var u := Understood(r, now);
      && (u.Success? <==> r.Granted?)
      && (u.Success? ==> u.accessToken == r.access && u.refreshToken == Some(r.refresh))
      && (u.Success? && r.expiresInSeconds > 0 ==> u.expiresAt == Some(now + 1000 * r.expiresInSeconds))
      && (u.Failure? ==> !u.transient)
      && (IsClientIdMismatch(u) <==> r == AS.Refused(AS.ClientIdMismatch))
      && (IsVerdict(u) <==>
            r.Refused? && (r.why.UnknownToken? || r.why.ReuseDetected? || r.why.TokenExpired? || r.why.ResourceMismatch?))
  {
    if r.Refused? {
      MismatchIsNamed();
      assert "invalid_request"[8] != INVALID_GRANT[8] && "invalid_request"[8] != INVALID_TARGET[8];
      assert "invalid_scope"[8] != INVALID_GRANT[8] && "invalid_scope"[8] != INVALID_TARGET[8];
    }
  }
}
