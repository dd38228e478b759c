/**
 * The global `tempTokens` collection and its operations
 * (pkg/dbs/globaldb/db_temptoken.go). Token generation is an input: the
 * outcome of GenerateUniqueTokenString is passed to AddTempToken.
 */
module TempTokens {
  import opened Wrappers
  import opened Seqs

  /** A purpose-tagged, instance- and user-scoped temporary token. */
  datatype TempToken = TempToken(
    token: string,
    instanceID: string,
    userID: string,
    purpose: string,
    info: map<string, string>,
    expiration: int)

  datatype StoreError =
    | GenerationFailed(reason: string)   // GenerateUniqueTokenString returned an error
    | DuplicateKey                       // the unique index on `token` refused an insert
    | DocumentNotFound                   // DeleteOne matched nothing: the "document not found" error built here
    | NoDocuments                        // FindOne matched nothing: the driver's own no-documents error

  function TokenOf(t: TempToken): string { t.token }

  /** The unique index on `token`. */
  ghost predicate UniqueTokens(rows: seq<TempToken>)
  {
    Distinct(rows, TokenOf)
  }

  /** The filter of GetTempTokenForUser and DeleteAllTempTokenForUser: purpose only when non-empty. */
  predicate MatchesUser(t: TempToken, instanceID: string, userID: string, purpose: string)
  {
    t.instanceID == instanceID && t.userID == userID && (|purpose| > 0 ==> t.purpose == purpose)
  }

  function HasToken(token: string): TempToken -> bool
  {
    (t: TempToken) => t.token == token
  }

  function ForUser(instanceID: string, userID: string, purpose: string): TempToken -> bool
  {
    (t: TempToken) => MatchesUser(t, instanceID, userID, purpose)
  }

  /** The filter of DeleteTempTokensExpireBefore: purpose and instance only when non-empty. */
  predicate ExpiresBefore(t: TempToken, instanceID: string, purpose: string, bound: int)
  {
    t.expiration < bound && (|purpose| > 0 ==> t.purpose == purpose) && (|instanceID| > 0 ==> t.instanceID == instanceID)
  }

  function Expired(instanceID: string, purpose: string, bound: int): TempToken -> bool
  {
    (t: TempToken) => ExpiresBefore(t, instanceID, purpose, bound)
  }

  class TempTokenTable {
    var rows: seq<TempToken>

    ghost predicate Valid()
      reads this
    {
      UniqueTokens(rows)
    }

    constructor ()
      ensures Valid() && rows == []
    {
      rows := [];
    }

    /**
     * Stores `t` under the freshly generated token and returns that token; a failed
     * generation or a refused insert stores nothing and returns no token.
     */
    method AddTempToken(t: TempToken, generated: Result<string, string>) returns (res: Result<string, StoreError>)
      requires Valid()
      modifies this
      ensures Valid()
      ensures generated.Err? ==> res == Err(GenerationFailed(generated.error)) && rows == old(rows)
      ensures generated.Ok? && (exists i :: 0 <= i < |old(rows)| && old(rows)[i].token == generated.value) ==>
                res == Err(DuplicateKey) && rows == old(rows)
      ensures res.Ok? <==> generated.Ok? && forall i :: 0 <= i < |old(rows)| ==> old(rows)[i].token != generated.value
      ensures res.Ok? ==> res.value == generated.value && rows == old(rows) + [t.(token := generated.value)]
    {
      match generated
      case Err(reason) =>
        res := Err(GenerationFailed(reason));
      case Ok(token) =>
        if exists i :: 0 <= i < |rows| && rows[i].token == token {
          res := Err(DuplicateKey);
        } else {
          rows := rows + [t.(token := token)];
          res := Ok(token);
        }
    }

    /** The records of one user of one instance, narrowed to `purpose` when it is non-empty, in stored order. */
    method GetTempTokenForUser(instanceID: string, userID: string, purpose: string) returns (found: seq<TempToken>)
      ensures found == Filter(rows, ForUser(instanceID, userID, purpose))
    {
      found := [];
      for i := 0 to |rows|
        invariant found == Filter(rows[..i], ForUser(instanceID, userID, purpose))
      {
        assert rows[..i + 1][..i] == rows[..i];
        if rows[i].instanceID == instanceID && rows[i].userID == userID
           && (|purpose| > 0 ==> rows[i].purpose == purpose) {
          found := found + [rows[i]];
        }
      }
      assert rows[..|rows|] == rows;
    }

    /** FindOne on the token string. */
    method GetTempToken(token: string) returns (res: Result<TempToken, StoreError>)
      requires Valid()
      ensures res.Ok? <==> exists i :: 0 <= i < |rows| && rows[i].token == token
      ensures res.Ok? ==> res.value in rows && res.value.token == token
      ensures res.Ok? ==> forall i :: 0 <= i < |rows| && rows[i].token == token ==> rows[i] == res.value
      ensures res.Err? ==> res.error == NoDocuments
    {
      match IndexWhere(rows, HasToken(token))
      case None =>
        res := Err(NoDocuments);
      case Some(k) =>
        forall j | 0 <= j < |rows| && rows[j].token == token ensures rows[j] == rows[k] {
          if j < k || k < j {
            assert false;
          }
        }
        res := Ok(rows[k]);
    }

    /** DeleteOne on the token string; "document not found" when no record carries it. */
    method DeleteTempToken(token: string) returns (res: Outcome<StoreError>)
      requires Valid()
      modifies this
      ensures Valid()
      ensures res.Fail? <==> forall i :: 0 <= i < |old(rows)| ==> old(rows)[i].token != token
      ensures res.Fail? ==> res.error == DocumentNotFound && rows == old(rows)
      ensures res.Pass? ==> exists k :: 0 <= k < |old(rows)| && old(rows)[k].token == token
                                       && rows == RemoveAt(old(rows), k)
      ensures forall i :: 0 <= i < |rows| ==> rows[i].token != token
    {
      match IndexWhere(rows, HasToken(token))
      case None =>
        res := Fail(DocumentNotFound);
      case Some(k) =>
        ghost var before := rows;
        rows := RemoveAt(rows, k);
        forall a, b | 0 <= a < b < |rows| ensures TokenOf(rows[a]) != TokenOf(rows[b]) {
          assert rows[a] == before[if a < k then a else a + 1];
          assert rows[b] == before[if b < k then b else b + 1];
        }
        forall j | 0 <= j < |rows| ensures rows[j].token != token {
          assert rows[j] == before[if j < k then j else j + 1];
          if j < k {
            assert TokenOf(before[j]) != TokenOf(before[k]);
          } else {
            assert TokenOf(before[k]) != TokenOf(before[j + 1]);
          }
        }
        res := Pass;
    }

    /** DeleteMany with the GetTempTokenForUser filter; an empty match is not an error. */
    method DeleteAllTempTokenForUser(instanceID: string, userID: string, purpose: string) returns (res: Outcome<StoreError>)
      requires Valid()
      modifies this
      ensures Valid()
      ensures res == Pass
      ensures rows == Filter(old(rows), Not(ForUser(instanceID, userID, purpose)))
    {
      FilterDistinct(rows, Not(ForUser(instanceID, userID, purpose)), TokenOf);
      rows := Filter(rows, Not(ForUser(instanceID, userID, purpose)));
      res := Pass;
    }

    /** DeleteMany on `expiration < bound`, narrowed by purpose and instance only when they are non-empty. */
    method DeleteTempTokensExpireBefore(instanceID: string, purpose: string, bound: int) returns (res: Outcome<StoreError>)
      requires Valid()
      modifies this
      ensures Valid()
      ensures res == Pass
      ensures rows == Filter(old(rows), Not(Expired(instanceID, purpose, bound)))
    {
      FilterDistinct(rows, Not(Expired(instanceID, purpose, bound)), TokenOf);
      rows := Filter(rows, Not(Expired(instanceID, purpose, bound)));
      res := Pass;
    }
  }

  // ---------------------------------------------------------------------------
  // Properties of the filters.
  // ---------------------------------------------------------------------------

  /**
   * DeleteAllTempTokenForUser removes exactly the records that GetTempTokenForUser with
   * the same arguments returns: a stored record survives iff it is not among them.
   */
  lemma DeleteAllRemovesExactlyFound(rows: seq<TempToken>, instanceID: string, userID: string, purpose: string, t: TempToken)
    requires t in rows
    ensures t in Filter(rows, Not(ForUser(instanceID, userID, purpose)))
            <==> t !in Filter(rows, ForUser(instanceID, userID, purpose))
    ensures |Filter(rows, Not(ForUser(instanceID, userID, purpose)))|
            == |rows| - |Filter(rows, ForUser(instanceID, userID, purpose))|
  {
    FilterMembership(rows, Not(ForUser(instanceID, userID, purpose)), t);
    FilterMembership(rows, ForUser(instanceID, userID, purpose), t);
    FilterSplit(rows, ForUser(instanceID, userID, purpose));
  }

  /** The lookup returns exactly the records of that instance and user, and of that purpose when one is given. */
  lemma FoundAreExactlyUsers(rows: seq<TempToken>, instanceID: string, userID: string, purpose: string, t: TempToken)
    ensures t in Filter(rows, ForUser(instanceID, userID, purpose))
            <==> t in rows && t.instanceID == instanceID && t.userID == userID
                 && (purpose != "" ==> t.purpose == purpose)
  {
    FilterMembership(rows, ForUser(instanceID, userID, purpose), t);
  }

  /**
   * The expiry purge removes a record iff it expires strictly before the bound and matches
   * the purpose and instance given; an empty instance spans every instance.
   */
  lemma PurgeRemovesExactlyExpired(rows: seq<TempToken>, instanceID: string, purpose: string, bound: int, t: TempToken)
    requires t in rows
    ensures t !in Filter(rows, Not(Expired(instanceID, purpose, bound)))
            <==> t.expiration < bound && (purpose != "" ==> t.purpose == purpose)
                 && (instanceID != "" ==> t.instanceID == instanceID)
  {
    FilterMembership(rows, Not(Expired(instanceID, purpose, bound)), t);
  }
}
