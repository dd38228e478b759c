/**
 * The argument, validation and status-code decisions of the token endpoints
 * (pkg/grpc/service/endpoints_jwt.go), and the rotation step of RenewJWT over
 * the renew-token table of the instance named in the access token.
 *
 * Token validation, token generation, access-token minting and the user store
 * are collaborators: what they answer is an input (`Validation`, `RenewOracles`).
 */
module JwtEndpoints {
  import opened Wrappers
  import opened Seqs
  import opened RenewTokens
  import opened Collaborators

  const MissingArguments: string := "missing arguments"
  const InvalidToken: string := "invalid token"
  const RefreshTokenError: string := "refresh token error"
  const UserNotFound: string := "user not found"
  /** The text by which an expired-but-parsed access token is recognised. */
  const ExpiredMarker: string := "token is expired by"

  /** The claims of a parsed access token that the endpoints use. */
  datatype Claims = Claims(
    id: string,
    instanceID: string,
    issuedAt: int,
    accountConfirmed: bool,
    profileID: string,
    otherProfileIDs: seq<string>)

  /** What token validation answers: the parsed claims, the `ok` flag and the error text, if any. */
  datatype Validation = Validation(claims: Claims, ok: bool, err: Option<string>)

  /** `sub` occurs somewhere in `s` (strings.Contains). */
  predicate Contains(s: string, sub: string)
    decreases |s|
  {
    (|sub| <= |s| && s[..|sub|] == sub) || (|s| > 0 && Contains(s[1..], sub))
  }

  // --- ValidateJWT ------------------------------------------------------------

  /** ValidateJWT: the request's token must be present and validate without error and with `ok`. */
  function ValidateJWT(token: Option<string>, validate: string -> Validation): (r: Result<Claims, Status>)
    ensures (token.None? || token.value == "") ==> r == Err(Status(InvalidArgument, MissingArguments))
    ensures token.Some? && token.value != "" ==>
      (r.Ok? <==> validate(token.value).err.None? && validate(token.value).ok)
    ensures token.Some? && token.value != "" && r.Err? ==> r == Err(Status(InvalidArgument, InvalidToken))
    ensures r.Ok? ==> r.value == validate(token.value).claims
    ensures r.Err? ==> r.error.code == InvalidArgument
  {
    if token.None? || token.value == "" then Err(Status(InvalidArgument, MissingArguments))
    else
      var v := validate(token.value);
      if v.err.Some? || !v.ok then Err(Status(InvalidArgument, InvalidToken))
      else Ok(v.claims)
  }

  // --- RenewJWT ---------------------------------------------------------------

  datatype RefreshRequest = RefreshRequest(accessToken: string, refreshToken: string)

  datatype TokenResponse = TokenResponse(
    accessToken: string,
    refreshToken: string,
    accountConfirmed: bool,
    selectedProfileId: string)

  /** What the collaborators of one RenewJWT call answer. */
  datatype RenewOracles = RenewOracles(
    validation: Validation,             // validation of the access token
    user: Option<User>,                 // GetUserByID; None when it errs
    generated: Result<string, string>,  // GenerateUniqueTokenString: the fresh candidate
    minted: Result<string, string>,     // GenerateNewToken: the new access token
    reset: Outcome<string>,             // UpdateMarkedForDeletionTime(.., 0, reset = true)
    updated: Result<User, string>)      // UpdateUser

  /** The table after the call, the answer, and the user-store and logging calls issued, in order. */
  datatype Renewal = Renewal(rows: seq<RenewToken>, result: Result<TokenResponse, Status>, calls: seq<Call>)

  predicate MissingRefreshArguments(req: Option<RefreshRequest>)
  {
    req.None? || req.value.accessToken == "" || req.value.refreshToken == ""
  }

  /** Only an error that is not the expiry error rejects the access token; `ok` is not consulted. */
  predicate AccessTokenAccepted(v: Validation)
  {
    v.err.None? || Contains(v.err.value, ExpiredMarker)
  }

  function NextTokenText(rt: RenewToken): string
  {
    match rt.nextToken
    case Some(t) => t
    case None => ""
  }

  /** The new row RenewJWT inserts for a fresh successor. */
  function SuccessorRow(userID: string, candidate: string, now: int): RenewToken
  {
    RenewToken(userID, candidate, now + DefaultLifetime, None)
  }

  /** The steps of RenewJWT after the refresh token has been settled. */
  function FinishRenewal(rows: seq<RenewToken>, claims: Claims, user: User, refresh: string,
                         o: RenewOracles, now: int, calls: seq<Call>): Renewal
  {
    match o.minted
    case Err(e) => Renewal(rows, Err(Status(Internal, e)), calls)
    case Ok(access) =>
      var calls1 := calls + [UpdateMarkedForDeletionTime(claims.instanceID, user.id, 0, true)];
      match o.reset
      case Fail(e) => Renewal(rows, Err(Status(Internal, e)), calls1)
      case Pass =>
        var calls2 := calls1 + [UpdateUser(claims.instanceID, user.(lastTokenRefresh := now))];
        match o.updated
        case Err(e) => Renewal(rows, Err(Status(Internal, e)), calls2)
        case Ok(u) =>
          Renewal(rows, Ok(TokenResponse(access, refresh, u.accountConfirmedAt > 0, claims.profileID)),
                  calls2 + [SaveLogEvent(claims.instanceID, claims.id, TokenRefreshSuccess, "")])
  }

  /** RenewJWT as a function of the table before the call. */
  function Renew(rows: seq<RenewToken>, req: Option<RefreshRequest>, o: RenewOracles, now: int): Renewal
  {
    if MissingRefreshArguments(req) then Renewal(rows, Err(Status(InvalidArgument, MissingArguments)), [])
    else if !AccessTokenAccepted(o.validation) then Renewal(rows, Err(Status(PermissionDenied, RefreshTokenError)), [])
    else
      var claims := o.validation.claims;
      var lookup := [GetUserByID(claims.instanceID, claims.id)];
      match o.user
      case None => Renewal(rows, Err(Status(Internal, RefreshTokenError)), lookup)
      case Some(user) =>
        match o.generated
        case Err(_) => Renewal(rows, Err(Status(Internal, RefreshTokenError)), lookup)
        case Ok(candidate) =>
          var rot := Rotate(rows, user.id, req.value.refreshToken, candidate, now);
          match rot.found
          case None =>
            Renewal(rows, Err(Status(Internal, RefreshTokenError)),
                    lookup + [SaveLogEvent(claims.instanceID, claims.id, TokenRefreshFailed, "wrong refresh token, cannot renew")])
          case Some(rt) =>
            if rt.nextToken == Some(candidate) then
              match Insert(rot.rows, SuccessorRow(user.id, candidate, now))
              case Err(_) => Renewal(rot.rows, Err(Status(Internal, RefreshTokenError)), lookup)
              case Ok(rows2) => FinishRenewal(rows2, claims, user, candidate, o, now, lookup)
            else
              FinishRenewal(rot.rows, claims, user, NextTokenText(rt), o, now, lookup)
  }

  /**
   * RenewJWT over the renew-token table of the access token's instance. The
   * opportunistic purge of expired rows that the source starts in the background
   * is not part of this step.
   */
  method RenewJWT(table: RenewTokenTable, req: Option<RefreshRequest>, o: RenewOracles, now: int)
    returns (result: Result<TokenResponse, Status>, calls: seq<Call>)
    requires table.Valid()
    modifies table
    ensures table.Valid()
    ensures Renewal(table.rows, result, calls) == Renew(old(table.rows), req, o, now)
  {
    if req.None? || req.value.accessToken == "" || req.value.refreshToken == "" {
      return Err(Status(InvalidArgument, MissingArguments)), [];
    }
    var v := o.validation;
    if v.err.Some? && !Contains(v.err.value, ExpiredMarker) {
      return Err(Status(PermissionDenied, RefreshTokenError)), [];
    }
    var claims := v.claims;
    calls := [GetUserByID(claims.instanceID, claims.id)];
    if o.user.None? {
      return Err(Status(Internal, RefreshTokenError)), calls;
    }
    var user := o.user.value;
    if o.generated.Err? {
      return Err(Status(Internal, RefreshTokenError)), calls;
    }
    var newRefreshToken := o.generated.value;
    var rt := table.FindAndUpdateRenewToken(user.id, req.value.refreshToken, newRefreshToken, now);
    if rt.Err? {
      calls := calls + [SaveLogEvent(claims.instanceID, claims.id, TokenRefreshFailed, "wrong refresh token, cannot renew")];
      return Err(Status(Internal, RefreshTokenError)), calls;
    }
    if rt.value.nextToken == Some(newRefreshToken) {
      var created := table.CreateRenewToken(user.id, newRefreshToken, now + DefaultLifetime);
      if created.Fail? {
        return Err(Status(Internal, RefreshTokenError)), calls;
      }
    } else {
      newRefreshToken := NextTokenText(rt.value);
    }
    user := user.(lastTokenRefresh := now);
    if o.minted.Err? {
      return Err(Status(Internal, o.minted.error)), calls;
    }
    calls := calls + [UpdateMarkedForDeletionTime(claims.instanceID, user.id, 0, true)];
    if o.reset.Fail? {
      return Err(Status(Internal, o.reset.error)), calls;
    }
    calls := calls + [UpdateUser(claims.instanceID, user)];
    if o.updated.Err? {
      return Err(Status(Internal, o.updated.error)), calls;
    }
    user := o.updated.value;
    calls := calls + [SaveLogEvent(claims.instanceID, claims.id, TokenRefreshSuccess, "")];
    result := Ok(TokenResponse(o.minted.value, newRefreshToken, user.accountConfirmedAt > 0, claims.profileID));
  }

  // --- RevokeAllRefreshTokens ----------------------------------------------------

  const RefreshTokensRevoked: string := "refresh tokens revoked"

  /** A token is empty when it is absent or lacks the user id or the instance id. */
  predicate TokenEmpty(token: Option<TokenInfos>)
  {
    token.None? || token.value.id == "" || token.value.instanceID == ""
  }

  datatype Revocation = Revocation(rows: seq<RenewToken>, result: Result<string, Status>)

  /** RevokeAllRefreshTokens as a function of the table before the call; `user` is what the user lookup answers. */
  function Revoke(rows: seq<RenewToken>, token: Option<TokenInfos>, user: Option<User>): (r: Revocation)
    ensures TokenEmpty(token) ==> r == Revocation(rows, Err(Status(InvalidArgument, MissingArguments)))
    ensures !TokenEmpty(token) && user.None? ==> r == Revocation(rows, Err(Status(Internal, UserNotFound)))
    ensures r.result.Ok? <==> !TokenEmpty(token) && user.Some?
    ensures r.result.Ok? ==> r.result.value == RefreshTokensRevoked
  {
    if TokenEmpty(token) then Revocation(rows, Err(Status(InvalidArgument, MissingArguments)))
    else if user.None? then Revocation(rows, Err(Status(Internal, UserNotFound)))
    else Revocation(Filter(rows, Not(OfUser(token.value.id))), Ok(RefreshTokensRevoked))
  }

  /** RevokeAllRefreshTokens over the renew-token table of the token's instance. */
  method RevokeAllRefreshTokens(table: RenewTokenTable, token: Option<TokenInfos>, user: Option<User>)
    returns (result: Result<string, Status>)
    requires table.Valid()
    modifies table
    ensures table.Valid()
    ensures Revocation(table.rows, result) == Revoke(old(table.rows), token, user)
  {
    if token.None? || token.value.id == "" || token.value.instanceID == "" {
      return Err(Status(InvalidArgument, MissingArguments));
    }
    if user.None? {
      return Err(Status(Internal, UserNotFound));
    }
    var count := table.DeleteRenewTokensForUser(token.value.id);
    result := Ok(RefreshTokensRevoked);
  }

  /** A successful revocation keeps every row of other users and none of this user's. */
  lemma RevokeKeepsExactlyOtherUsers(rows: seq<RenewToken>, token: Option<TokenInfos>, user: Option<User>, x: RenewToken)
    requires Revoke(rows, token, user).result.Ok?
    ensures x in Revoke(rows, token, user).rows <==> x in rows && x.userID != token.value.id
  {
    RevokeRemovesExactlyUser(rows, token.value.id, x);
  }

  // --- properties of the renewal -------------------------------------------------

  /** A live row is the one FindAndUpdateRenewToken picks, since token strings are unique. */
  lemma RotateFindsLiveRow(rows: seq<RenewToken>, k: nat, candidate: string, now: int)
    requires UniqueTokens(rows)
    requires k < |rows| && IsLive(rows[k], rows[k].userID, rows[k].renewToken, now)
    ensures var a := Advance(rows[k], candidate, now);
            Rotate(rows, rows[k].userID, rows[k].renewToken, candidate, now) == Rotation(rows[k := a], Some(a))
  {
    match IndexWhere(rows, LiveFor(rows[k].userID, rows[k].renewToken, now))
    case None =>
    case Some(j) =>
      if j < k {
        assert TokenOf(rows[j]) != TokenOf(rows[k]);
      }
  }

  /** A renewal keeps token strings unique. */
  lemma RenewPreservesUniqueness(rows: seq<RenewToken>, req: Option<RefreshRequest>, o: RenewOracles, now: int)
    requires UniqueTokens(rows)
    ensures UniqueTokens(Renew(rows, req, o, now).rows)
  {
    if !MissingRefreshArguments(req) && AccessTokenAccepted(o.validation) && o.user.Some? && o.generated.Ok? {
      var rot := Rotate(rows, o.user.value.id, req.value.refreshToken, o.generated.value, now);
      RotatePreservesUniqueness(rows, o.user.value.id, req.value.refreshToken, o.generated.value, now);
      InsertPreservesUniqueness(rot.rows, SuccessorRow(o.user.value.id, o.generated.value, now));
    }
  }

  /**
   * The rejections of a renewal: missing arguments and a rejected access token touch
   * nothing; an unknown user and a failed rotation look the same to the caller.
   */
  lemma RenewRejects(rows: seq<RenewToken>, req: Option<RefreshRequest>, o: RenewOracles, now: int)
    ensures MissingRefreshArguments(req) ==>
      Renew(rows, req, o, now) == Renewal(rows, Err(Status(InvalidArgument, MissingArguments)), [])
    ensures !MissingRefreshArguments(req) && !AccessTokenAccepted(o.validation) ==>
      Renew(rows, req, o, now) == Renewal(rows, Err(Status(PermissionDenied, RefreshTokenError)), [])
    ensures !MissingRefreshArguments(req) && AccessTokenAccepted(o.validation) && o.user.None? ==>
      Renew(rows, req, o, now).result == Err(Status(Internal, RefreshTokenError))
      && Renew(rows, req, o, now).rows == rows
    ensures !MissingRefreshArguments(req) && AccessTokenAccepted(o.validation) && o.user.Some? && o.generated.Ok?
            && Rotate(rows, o.user.value.id, req.value.refreshToken, o.generated.value, now).found.None? ==>
      Renew(rows, req, o, now).result == Err(Status(Internal, RefreshTokenError))
      && Renew(rows, req, o, now).rows == rows
  {
  }

  /**
   * A successful renewal returns the successor recorded in the rotated row, and
   * inserts a row only when that successor is the fresh candidate.
   */
  lemma RenewSuccess(rows: seq<RenewToken>, req: Option<RefreshRequest>, o: RenewOracles, now: int)
    requires Renew(rows, req, o, now).result.Ok?
    ensures !MissingRefreshArguments(req) && AccessTokenAccepted(o.validation) && o.user.Some? && o.generated.Ok?
    ensures var r := Renew(rows, req, o, now);
            var rot := Rotate(rows, o.user.value.id, req.value.refreshToken, o.generated.value, now);
            rot.found.Some?
            && rot.found.value.nextToken == Some(r.result.value.refreshToken)
            && (rot.found.value.nextToken == Some(o.generated.value) ==>
                  r.rows == rot.rows + [SuccessorRow(o.user.value.id, o.generated.value, now)])
            && (rot.found.value.nextToken != Some(o.generated.value) ==> r.rows == rot.rows)
  {
    var rot := Rotate(rows, o.user.value.id, req.value.refreshToken, o.generated.value, now);
    if rot.found.value.nextToken != Some(o.generated.value) {
      assert rot.found.value.nextToken.Some?;
    }
  }

  /** A successful renewal records the refresh time and asks the store to reset the deletion mark. */
  lemma RenewSuccessCalls(rows: seq<RenewToken>, req: Option<RefreshRequest>, o: RenewOracles, now: int)
    requires Renew(rows, req, o, now).result.Ok?
    ensures var inst := o.validation.claims.instanceID;
            o.user.Some?
            && UpdateMarkedForDeletionTime(inst, o.user.value.id, 0, true) in Renew(rows, req, o, now).calls
            && UpdateUser(inst, o.user.value.(lastTokenRefresh := now)) in Renew(rows, req, o, now).calls
  {
  }

  /** The `ok` flag of the access-token validation has no influence on a renewal. */
  lemma RenewIgnoresOkFlag(rows: seq<RenewToken>, req: Option<RefreshRequest>, o: RenewOracles, now: int, ok: bool)
    ensures Renew(rows, req, o.(validation := o.validation.(ok := ok)), now) == Renew(rows, req, o, now)
  {
  }

  /**
   * Convergence: two successful renewals that present the same refresh token, for the
   * same user, return the same refresh token, whatever fresh candidates they drew.
   */
  lemma {:induction false} RenewalsConverge(rows: seq<RenewToken>, req: Option<RefreshRequest>,
                                            o1: RenewOracles, t1: int, o2: RenewOracles, t2: int)
    requires UniqueTokens(rows)
    requires o1.user.Some? && o2.user.Some? && o1.user.value.id == o2.user.value.id
    requires Renew(rows, req, o1, t1).result.Ok?
    requires Renew(Renew(rows, req, o1, t1).rows, req, o2, t2).result.Ok?
    ensures Renew(Renew(rows, req, o1, t1).rows, req, o2, t2).result.value.refreshToken
            == Renew(rows, req, o1, t1).result.value.refreshToken
  {
    var first := Renew(rows, req, o1, t1);
    var uid, token := o1.user.value.id, req.value.refreshToken;
    var c1, c2 := o1.generated.value, o2.generated.value;
    RenewSuccess(rows, req, o1, t1);
    RenewSuccess(first.rows, req, o2, t2);
    RenewPreservesUniqueness(rows, req, o1, t1);
    var rot1 := Rotate(rows, uid, token, c1, t1);
    var extra := first.rows[|rot1.rows|..];
    assert first.rows == rot1.rows + extra;
    SecondRotationReturnsSuccessor(rows, extra, uid, token, c1, t1, c2, t2);
  }

  /**
   * After a rotation, and possibly rows appended behind it, a second successful
   * rotation of the same token finds the same row and returns the successor the
   * first one recorded.
   */
  lemma SecondRotationReturnsSuccessor(rows: seq<RenewToken>, extra: seq<RenewToken>, uid: string, token: string,
                                       c1: string, t1: int, c2: string, t2: int)
    requires Rotate(rows, uid, token, c1, t1).found.Some?
    requires UniqueTokens(Rotate(rows, uid, token, c1, t1).rows + extra)
    requires Rotate(Rotate(rows, uid, token, c1, t1).rows + extra, uid, token, c2, t2).found.Some?
    ensures Rotate(Rotate(rows, uid, token, c1, t1).rows + extra, uid, token, c2, t2).found.value.nextToken
            == Rotate(rows, uid, token, c1, t1).found.value.nextToken
  {
    var rot1 := Rotate(rows, uid, token, c1, t1);
    var table := rot1.rows + extra;
    var k :| 0 <= k < |rows| && IsLive(rows[k], uid, token, t1) && rot1.rows == rows[k := rot1.found.value]
             && rot1.found.value.userID == uid && rot1.found.value.renewToken == token
             && (rows[k].nextToken.None? ==> rot1.found.value.nextToken == Some(c1))
             && (rows[k].nextToken.Some? ==> rot1.found.value == rows[k]);
    assert table[k] == rot1.found.value;
    forall i | 0 <= i < |table| && i != k ensures TokenOf(table[i]) != TokenOf(table[k]) {
    }
    var j :| 0 <= j < |table| && IsLive(table[j], uid, token, t2);
    assert j == k;
    RotateFindsLiveRow(table, k, c2, t2);
  }
}
