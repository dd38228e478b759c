/**
 * The per-instance `renewTokens` collection and its operations
 * (pkg/dbs/userdb/renewTokens.go). One instance's collection is one
 * `RenewTokenTable`; the clock is the parameter `now` (Unix seconds).
 */
module RenewTokens {
  import opened Wrappers
  import opened Seqs

  /** Seconds a rotated row stays usable after its successor was recorded. */
  const GracePeriod: int := 30
  /** Lifetime of a freshly issued renew token: 90 days in seconds. */
  const DefaultLifetime: int := 60 * 60 * 24 * 90

  /** One row; `nextToken` is None while the BSON field is absent or null. */
  datatype RenewToken = RenewToken(userID: string, renewToken: string, expiresAt: int, nextToken: Option<string>)

  datatype StoreError =
    | DuplicateKey          // the unique index on `renewToken` refused an insert
    | NoRenewTokenFound     // DeleteOne matched nothing
    | NoDocuments           // FindOneAndUpdate matched nothing

  function TokenOf(r: RenewToken): string { r.renewToken }

  /** The unique index on `renewToken`. */
  ghost predicate UniqueTokens(rows: seq<RenewToken>)
  {
    Distinct(rows, TokenOf)
  }

  /** The filter of FindAndUpdateRenewToken: this user, this token, not yet expired. */
  predicate IsLive(r: RenewToken, userID: string, token: string, now: int)
  {
    r.userID == userID && r.renewToken == token && r.expiresAt > now
  }

  function LiveFor(userID: string, token: string, now: int): RenewToken -> bool
  {
    (r: RenewToken) => IsLive(r, userID, token, now)
  }

  function HasToken(token: string): RenewToken -> bool
  {
    (r: RenewToken) => r.renewToken == token
  }

  function OfUser(userID: string): RenewToken -> bool
  {
    (r: RenewToken) => r.userID == userID
  }

  /** The rows DeleteExpiredRenewTokens keeps: those not strictly before `now`. */
  function Unexpired(now: int): RenewToken -> bool
  {
    (r: RenewToken) => r.expiresAt >= now
  }

  /** The `$cond` update pipeline, evaluated on the matched row. */
  function Advance(r: RenewToken, candidate: string, now: int): RenewToken
  {
    if r.nextToken.None? then r.(nextToken := Some(candidate), expiresAt := now + GracePeriod)
    else r
  }

  /** The InsertOne of CreateRenewToken: refused when the token string is already present. */
  function Insert(rows: seq<RenewToken>, r: RenewToken): (res: Result<seq<RenewToken>, StoreError>)
    ensures res.Err? <==> exists i :: 0 <= i < |rows| && rows[i].renewToken == r.renewToken
    ensures res.Ok? ==> res.value == rows + [r]
  {
    if exists i :: 0 <= i < |rows| && rows[i].renewToken == r.renewToken then Err(DuplicateKey)
    else Ok(rows + [r])
  }

  /** The whole table after a FindAndUpdateRenewToken call, and the post-update row it returns. */
  datatype Rotation = Rotation(rows: seq<RenewToken>, found: Option<RenewToken>)

  function Rotate(rows: seq<RenewToken>, userID: string, token: string, candidate: string, now: int): (res: Rotation)
    // fails, and changes nothing, exactly when no row is live for (user, token)
    ensures res.found.None? <==> forall i :: 0 <= i < |rows| ==> !IsLive(rows[i], userID, token, now)
    ensures res.found.None? ==> res.rows == rows
    // on success exactly one live row is rewritten, every other row is left alone
    ensures res.found.Some? ==>
      exists k :: 0 <= k < |rows| && IsLive(rows[k], userID, token, now)
        && res.rows == rows[k := res.found.value]
        && res.found.value.userID == userID && res.found.value.renewToken == token
        && (rows[k].nextToken.None? ==>
              res.found.value.nextToken == Some(candidate) && res.found.value.expiresAt == now + GracePeriod)
        && (rows[k].nextToken.Some? ==> res.found.value == rows[k])
    // a successor once recorded is never overwritten
    ensures |res.rows| == |rows|
    ensures forall i :: 0 <= i < |rows| && rows[i].nextToken.Some? ==> res.rows[i] == rows[i]
  {
    match IndexWhere(rows, LiveFor(userID, token, now))
    case None => Rotation(rows, None)
    case Some(k) =>
      var r := Advance(rows[k], candidate, now);
      Rotation(rows[k := r], Some(r))
  }

  /** A store-level view of the collection of one instance. */
  class RenewTokenTable {
    var rows: seq<RenewToken>

    ghost predicate Valid()
      reads this
    {
      UniqueTokens(rows)
    }

    constructor ()
      ensures Valid() && rows == []
    {
      rows := [];
    }

    /** Inserts a row without `nextToken`; the unique index refuses a token already present. */
    method CreateRenewToken(userID: string, renewToken: string, expiresAt: int) returns (res: Outcome<StoreError>)
      requires Valid()
      modifies this
      ensures Valid()
      ensures var ins := Insert(old(rows), RenewToken(userID, renewToken, expiresAt, None));
              (ins.Ok? ==> res == Pass && rows == ins.value)
              && (ins.Err? ==> res == Fail(ins.error) && rows == old(rows))
    {
      match Insert(rows, RenewToken(userID, renewToken, expiresAt, None))
      case Ok(r) =>
        InsertPreservesUniqueness(rows, RenewToken(userID, renewToken, expiresAt, None));
        rows := r;
        res := Pass;
      case Err(e) =>
        res := Fail(e);
    }

    /** DeleteOne on the token string; it is an error when no row carries it. */
    method DeleteRenewTokenByToken(token: string) returns (res: Outcome<StoreError>)
      requires Valid()
      modifies this
      ensures Valid()
      ensures res.Fail? <==> forall i :: 0 <= i < |old(rows)| ==> old(rows)[i].renewToken != token
      ensures res.Fail? ==> res.error == NoRenewTokenFound && rows == old(rows)
      ensures res.Pass? ==> exists k :: 0 <= k < |old(rows)| && old(rows)[k].renewToken == token
                                       && rows == RemoveAt(old(rows), k)
      ensures forall i :: 0 <= i < |rows| ==> rows[i].renewToken != token
    {
      match IndexWhere(rows, HasToken(token))
      case None =>
        res := Fail(NoRenewTokenFound);
      case Some(k) =>
        ghost var before := rows;
        rows := RemoveAt(rows, k);
        forall a, b | 0 <= a < b < |rows| ensures TokenOf(rows[a]) != TokenOf(rows[b]) {
          assert rows[a] == before[if a < k then a else a + 1];
          assert rows[b] == before[if b < k then b else b + 1];
        }
        forall j | 0 <= j < |rows| ensures rows[j].renewToken != token {
          assert rows[j] == before[if j < k then j else j + 1];
          if j < k {
            assert TokenOf(before[j]) != TokenOf(before[k]);
          } else {
            assert TokenOf(before[k]) != TokenOf(before[j + 1]);
          }
        }
        res := Pass;
    }

    /** DeleteMany on the user id; returns how many rows went, zero included. */
    method DeleteRenewTokensForUser(userID: string) returns (count: nat)
      requires Valid()
      modifies this
      ensures Valid()
      ensures rows == Filter(old(rows), Not(OfUser(userID)))
      ensures count == |Filter(old(rows), OfUser(userID))|
    {
      FilterDistinct(rows, Not(OfUser(userID)), TokenOf);
      FilterSplit(rows, OfUser(userID));
      count := |Filter(rows, OfUser(userID))|;
      rows := Filter(rows, Not(OfUser(userID)));
    }

    /** DeleteMany on `expiresAt < now`; returns how many rows went. */
    method DeleteExpiredRenewTokens(now: int) returns (count: nat)
      requires Valid()
      modifies this
      ensures Valid()
      ensures rows == Filter(old(rows), Unexpired(now))
      ensures count == |old(rows)| - |rows|
    {
      FilterDistinct(rows, Unexpired(now), TokenOf);
      var kept := Filter(rows, Unexpired(now));
      count := |rows| - |kept|;
      rows := kept;
    }

    /**
     * The atomic FindOneAndUpdate: finds the live row for (user, token), records
     * `candidate` as its successor unless one is already recorded, and returns the
     * row as it is after the update.
     */
    method FindAndUpdateRenewToken(userID: string, renewToken: string, candidate: string, now: int)
      returns (res: Result<RenewToken, StoreError>)
      requires Valid()
      modifies this
      ensures Valid()
      ensures var rot := Rotate(old(rows), userID, renewToken, candidate, now);
              rows == rot.rows
              && (rot.found.None? ==> res == Err(NoDocuments))
              && (rot.found.Some? ==> res == Ok(rot.found.value))
    {
      RotatePreservesUniqueness(rows, userID, renewToken, candidate, now);
      var rot := Rotate(rows, userID, renewToken, candidate, now);
      rows := rot.rows;
      match rot.found
      case None => res := Err(NoDocuments);
      case Some(r) => res := Ok(r);
    }
  }

  // ---------------------------------------------------------------------------
  // Properties of the rotation and of the purges, stated on the table contents.
  // ---------------------------------------------------------------------------

  /** A row whose expiry is not after `now` can never be rotated, whatever the candidate. */
  lemma ExpiredRowNeverRotates(rows: seq<RenewToken>, k: nat, candidate: string, now: int)
    requires UniqueTokens(rows)
    requires k < |rows| && rows[k].expiresAt <= now
    ensures Rotate(rows, rows[k].userID, rows[k].renewToken, candidate, now) == Rotation(rows, None)
  {
    forall j | 0 <= j < |rows| ensures !IsLive(rows[j], rows[k].userID, rows[k].renewToken, now) {
      if j != k {
        assert TokenOf(rows[j]) != TokenOf(rows[k]);
      }
    }
  }

  /**
   * Convergence: a second rotation of the same token, at any time the rotated row is
   * still live, returns the successor recorded by the first and changes nothing;
   * the second caller's candidate is discarded.
   */
  lemma {:induction false} RotationConverges(rows: seq<RenewToken>, userID: string, token: string,
                                             c1: string, t1: int, c2: string, t2: int)
    requires UniqueTokens(rows)
    requires Rotate(rows, userID, token, c1, t1).found.Some?
    requires Rotate(Rotate(rows, userID, token, c1, t1).rows, userID, token, c2, t2).found.Some?
    ensures var first := Rotate(rows, userID, token, c1, t1);
            var second := Rotate(first.rows, userID, token, c2, t2);
            second.found.value.nextToken == first.found.value.nextToken
            && second.found.value.nextToken.Some?
            && second.rows == first.rows
  {
    var first := Rotate(rows, userID, token, c1, t1);
    var second := Rotate(first.rows, userID, token, c2, t2);
    var k :| 0 <= k < |rows| && IsLive(rows[k], userID, token, t1) && first.rows == rows[k := first.found.value];
    var j :| 0 <= j < |first.rows| && IsLive(first.rows[j], userID, token, t2)
             && second.rows == first.rows[j := second.found.value]
             && (first.rows[j].nextToken.Some? ==> second.found.value == first.rows[j]);
    assert j == k;
    assert first.rows[k].nextToken.Some?;
  }

  /** Rotation keeps token strings unique: only the `nextToken` and `expiresAt` of one row change. */
  lemma RotatePreservesUniqueness(rows: seq<RenewToken>, userID: string, token: string, candidate: string, now: int)
    requires UniqueTokens(rows)
    ensures UniqueTokens(Rotate(rows, userID, token, candidate, now).rows)
  {
    var rot := Rotate(rows, userID, token, candidate, now);
    if rot.found.Some? {
      var k :| 0 <= k < |rows| && IsLive(rows[k], userID, token, now) && rot.rows == rows[k := rot.found.value]
               && rot.found.value.renewToken == token;
      forall a, b | 0 <= a < b < |rot.rows| ensures TokenOf(rot.rows[a]) != TokenOf(rot.rows[b]) {
        assert TokenOf(rot.rows[a]) == TokenOf(rows[a]);
        assert TokenOf(rot.rows[b]) == TokenOf(rows[b]);
      }
    }
  }

  /** An accepted insert keeps token strings unique. */
  lemma InsertPreservesUniqueness(rows: seq<RenewToken>, r: RenewToken)
    requires UniqueTokens(rows)
    ensures Insert(rows, r).Ok? ==> UniqueTokens(Insert(rows, r).value)
  {
  }

  /** The expiry purge keeps exactly the rows with `expiresAt >= now`. */
  lemma PurgeKeepsExactlyUnexpired(rows: seq<RenewToken>, now: int, r: RenewToken)
    ensures r in Filter(rows, Unexpired(now)) <==> r in rows && r.expiresAt >= now
  {
    FilterMembership(rows, Unexpired(now), r);
  }

  /** A row expiring exactly at `now` survives the purge, yet it is not rotatable at `now`. */
  lemma BoundaryRowSurvivesButIsDead(rows: seq<RenewToken>, k: nat, now: int)
    requires k < |rows| && rows[k].expiresAt == now
    ensures rows[k] in Filter(rows, Unexpired(now))
    ensures !IsLive(rows[k], rows[k].userID, rows[k].renewToken, now)
  {
    FilterMembership(rows, Unexpired(now), rows[k]);
  }

  /** Revocation removes every row of the user and only those; its count is the number removed. */
  lemma RevokeRemovesExactlyUser(rows: seq<RenewToken>, userID: string, r: RenewToken)
    ensures r in Filter(rows, Not(OfUser(userID))) <==> r in rows && r.userID != userID
    ensures |Filter(rows, OfUser(userID))| == |rows| - |Filter(rows, Not(OfUser(userID)))|
  {
    FilterMembership(rows, Not(OfUser(userID)), r);
    FilterSplit(rows, OfUser(userID));
  }
}
