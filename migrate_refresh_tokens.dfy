/**
 * The one-off tool that turns the refresh tokens stored inside user accounts
 * into rows of the renew-token table (tools/migrate-refresh-tokens/main.go).
 *
 * Base32 decoding is a collaborator: each stored token comes with the bytes it
 * decodes to, or None when decoding fails. The user query, the clock and the
 * table's unique index are the other inputs.
 */
module MigrateRefreshTokens {
  import opened Wrappers
  import opened Seqs
  import opened Profiles
  import opened RenewTokens

  /** A token string from `account.refreshTokens` and its base32 decoding. */
  datatype LegacyToken = LegacyToken(text: string, decoded: Option<seq<byte>>)

  /** The part of a user document the tool reads; `refreshTokens` may be missing. */
  datatype UserDoc = UserDoc(id: ObjectID, accountConfirmedAt: int, refreshTokens: Option<seq<LegacyToken>>)

  datatype ParsedRefreshToken = ParsedRefreshToken(userID: string, token: string, time: nat)

  /**
   * Why the scan stops: the query failed, or a token decoded to fewer than the
   * five bytes the timestamp is read from. Go bounds `parsed[0:5]` by the capacity
   * of the in-place decode buffer, not by the decoded length: it panics only when
   * that capacity is below five (an empty token) and otherwise reads leftover
   * buffer bytes. The model stops at every short decoding instead.
   */
  datatype ScanError = QueryFailed(msg: string) | ShortToken(token: string)

  // --- the timestamp inside a token ---------------------------------------------------------

  /** The unsigned value of bytes read most significant first. */
  function BigEndian(bs: seq<byte>): nat
  {
    if bs == [] then 0 else BigEndian(bs[..|bs| - 1]) * 256 + bs[|bs| - 1] as nat
  }

  function Pow256(n: nat): nat
  {
    if n == 0 then 1 else 256 * Pow256(n - 1)
  }

  lemma {:induction false} BigEndianBound(bs: seq<byte>)
    ensures BigEndian(bs) < Pow256(|bs|)
  {
    if bs != [] {
      BigEndianBound(bs[..|bs| - 1]);
    }
  }

  /** A leading zero byte does not change the value. */
  lemma {:induction false} BigEndianLeadingZero(bs: seq<byte>)
    ensures BigEndian([0] + bs) == BigEndian(bs)
  {
    if bs != [] {
      var init := bs[..|bs| - 1];
      assert ([0] + bs)[..|bs|] == [0] + init;
      BigEndianLeadingZero(init);
    }
  }

  /** A trailing zero byte shifts the value by one byte. */
  lemma BigEndianTrailingZero(bs: seq<byte>)
    ensures BigEndian(bs + [0]) == BigEndian(bs) * 256
  {
    assert (bs + [0])[..|bs|] == bs;
  }

  /** The 64-bit word the tool builds: two zero bytes, five token bytes, one zero byte. */
  lemma WordValue(five: seq<byte>)
    requires |five| == 5
    ensures BigEndian([0, 0] + five + [0]) == BigEndian(five) * 256
    ensures BigEndian(five) * 256 < 0x1_0000_0000_0000
  {
    BigEndianTrailingZero(five);
    BigEndianLeadingZero(five + [0]);
    BigEndianLeadingZero([0] + (five + [0]));
    assert [0, 0] + five + [0] == [0] + ([0] + (five + [0]));
    BigEndianBound(five);
    assert Pow256(5) == 0x100_0000_0000;
  }

  /** binary.BigEndian.Uint64 over an 8-byte array. */
  method ReadUint64(t: array<byte>) returns (v: nat)
    requires t.Length == 8
    ensures v == BigEndian(t[..])
  {
    v := 0;
    var i := 0;
    while i < 8
      invariant 0 <= i <= 8
      invariant v == BigEndian(t[..i])
    {
      assert t[..i + 1][..i] == t[..i];
      v := v * 256 + t[i] as nat;
      i := i + 1;
    }
    assert t[..i] == t[..];
  }

  /**
   * The raw time of a decoded token: its first five bytes copied into bytes
   * 2..6 of a zeroed 8-byte word, read big-endian. It is the 40-bit value of
   * those bytes times 256, so it always fits in 48 bits.
   */
  method RawTimestamp(parsed: seq<byte>) returns (time: nat)
    requires |parsed| >= 5
    ensures time == BigEndian(parsed[..5]) * 256
    ensures time < 0x1_0000_0000_0000
  {
    var t := new byte[8](_ => 0);
    var i := 0;
    while i < 5
      invariant 0 <= i <= 5
      invariant t[..] == [0, 0] + parsed[..i] + [0, 0, 0, 0, 0, 0][..6 - i]
    {
      t[2 + i] := parsed[i];
      assert parsed[..i + 1] == parsed[..i] + [parsed[i]];
      i := i + 1;
    }
    WordValue(parsed[..5]);
    time := ReadUint64(t);
  }

  // --- GetRefreshTokens -----------------------------------------------------------------------

  /** The value Go computes in `time`, as a function. */
  function Timestamp(parsed: seq<byte>): nat
    requires |parsed| >= 5
  {
    BigEndian(parsed[..5]) * 256
  }

  /**
   * Each part in order, concatenated; the first part that fails decides the
   * error. Built from the back, as the loops that append to `output` go.
   */
  function Collect<T, U, E>(xs: seq<T>, f: T -> Result<seq<U>, E>): Result<seq<U>, E>
  {
    if xs == [] then Ok([])
    else match Collect(xs[..|xs| - 1], f)
      case Err(e) => Err(e)
      case Ok(init) =>
        match f(xs[|xs| - 1])
        case Err(e) => Err(e)
        case Ok(last) => Ok(init + last)
  }

  lemma CollectNext<T, U, E>(xs: seq<T>, i: nat, f: T -> Result<seq<U>, E>)
    requires i < |xs|
    ensures Collect(xs[..i + 1], f) ==
            match Collect(xs[..i], f)
            case Err(e) => Err(e)
            case Ok(init) =>
              match f(xs[i])
              case Err(e) => Err(e)
              case Ok(last) => Ok(init + last)
  {
    assert xs[..i + 1][..i] == xs[..i];
  }

  /** Once a prefix has failed, the whole sequence fails with the same error. */
  lemma {:induction false} CollectErrorSticks<T, U, E>(xs: seq<T>, i: nat, f: T -> Result<seq<U>, E>)
    requires i <= |xs| && Collect(xs[..i], f).Err?
    ensures Collect(xs, f) == Collect(xs[..i], f)
  {
    if i == |xs| {
      assert xs[..i] == xs;
    } else {
      var init := xs[..|xs| - 1];
      assert init[..i] == xs[..i];
      CollectErrorSticks(init, i, f);
    }
  }

  /** A successful collection holds exactly the elements of the parts, and every part succeeded. */
  lemma {:induction false} CollectMembership<T, U, E>(xs: seq<T>, f: T -> Result<seq<U>, E>, y: U)
    requires Collect(xs, f).Ok?
    ensures forall k :: 0 <= k < |xs| ==> f(xs[k]).Ok?
    ensures y in Collect(xs, f).value <==> exists k :: 0 <= k < |xs| && f(xs[k]).Ok? && y in f(xs[k]).value
  {
    if xs != [] {
      var init := xs[..|xs| - 1];
      CollectMembership(init, f, y);
      forall k | 0 <= k < |init| ensures xs[k] == init[k] { }
    }
  }

  /**
   * One stored token: skipped when it does not decode or its raw time is below
   * `minTime` (compared before the division), otherwise emitted in seconds.
   */
  function TokenEntry(id: string, t: LegacyToken, minTime: nat): Result<seq<ParsedRefreshToken>, ScanError>
  {
    match t.decoded
    case None => Ok([])
    case Some(bs) =>
      if |bs| < 5 then Err(ShortToken(t.text))
      else if Timestamp(bs) < minTime then Ok([])
      else Ok([ParsedRefreshToken(id, t.text, Timestamp(bs) / 1000)])
  }

  function TokenReader(id: string, minTime: nat): LegacyToken -> Result<seq<ParsedRefreshToken>, ScanError>
  {
    t => TokenEntry(id, t, minTime)
  }

  /** All tokens of one user, keyed by the hex form of the user's id; none when the field is missing. */
  function UserEntries(u: UserDoc, minTime: nat): Result<seq<ParsedRefreshToken>, ScanError>
  {
    match u.refreshTokens
    case None => Ok([])
    case Some(tokens) => Collect(tokens, TokenReader(Hex(u.id), minTime))
  }

  function UserReader(minTime: nat): UserDoc -> Result<seq<ParsedRefreshToken>, ScanError>
  {
    u => UserEntries(u, minTime)
  }

  /** The query's filter `account.accountConfirmedAt > 0`. */
  predicate Confirmed(u: UserDoc)
  {
    u.accountConfirmedAt > 0
  }

  /** What GetRefreshTokens returns for the answer of the user query. */
  function RefreshTokensOf(query: Result<seq<UserDoc>, string>, minTime: nat): Result<seq<ParsedRefreshToken>, ScanError>
  {
    match query
    case Err(msg) => Err(QueryFailed(msg))
    case Ok(users) => Collect(Filter(users, Confirmed), UserReader(minTime))
  }

  /** GetRefreshTokens: the loops over users and their tokens that append to `output`. */
  method GetRefreshTokens(query: Result<seq<UserDoc>, string>, minTime: nat)
    returns (r: Result<seq<ParsedRefreshToken>, ScanError>)
    ensures r == RefreshTokensOf(query, minTime)
  {
    if query.Err? {
      return Err(QueryFailed(query.error));
    }
    var results := Filter(query.value, Confirmed);
    var output := [];
    var i := 0;
    while i < |results|
      invariant 0 <= i <= |results|
      invariant Collect(results[..i], UserReader(minTime)) == Ok(output)
    {
      CollectNext(results, i, UserReader(minTime));
      var u := results[i];
      if u.refreshTokens.None? {
        assert output + [] == output;
        i := i + 1;
        continue;
      }
      var scanned := ScanTokens(Hex(u.id), u.refreshTokens.value, minTime, output);
      if scanned.Err? {
        CollectErrorSticks(results, i + 1, UserReader(minTime));
        return scanned;
      }
      output := scanned.value;
      i := i + 1;
    }
    assert results[..i] == results;
    r := Ok(output);
  }

  /** The inner loop over one user's tokens, appending to `output`. */
  method ScanTokens(id: string, tokens: seq<LegacyToken>, minTime: nat, output: seq<ParsedRefreshToken>)
    returns (r: Result<seq<ParsedRefreshToken>, ScanError>)
    ensures r == match Collect(tokens, TokenReader(id, minTime))
                 case Err(e) => Err(e)
                 case Ok(found) => Ok(output + found)
  {
    var appended := output;
    var j := 0;
    while j < |tokens|
      invariant 0 <= j <= |tokens|
      invariant Collect(tokens[..j], TokenReader(id, minTime)).Ok?
      invariant appended == output + Collect(tokens[..j], TokenReader(id, minTime)).value
    {
      CollectNext(tokens, j, TokenReader(id, minTime));
      var t := tokens[j];
      if t.decoded.None? {
        j := j + 1;
        continue;
      }
      var parsed := t.decoded.value;
      if |parsed| < 5 {
        CollectErrorSticks(tokens, j + 1, TokenReader(id, minTime));
        return Err(ShortToken(t.text));
      }
      var time := RawTimestamp(parsed);
      if time < minTime {
        j := j + 1;
        continue;
      }
      appended := appended + [ParsedRefreshToken(id, t.text, time / 1000)];
      j := j + 1;
    }
    assert tokens[..j] == tokens;
    r := Ok(appended);
  }

  /** A decodable token of a confirmed user, at or above `minTime`, and the entry it yields. */
  ghost predicate EmittedFor(users: seq<UserDoc>, minTime: nat, x: ParsedRefreshToken, u: UserDoc, t: LegacyToken)
  {
    u in users && Confirmed(u) && u.refreshTokens.Some? && t in u.refreshTokens.value
    && t.decoded.Some? && |t.decoded.value| >= 5 && Timestamp(t.decoded.value) >= minTime
    && x == ParsedRefreshToken(Hex(u.id), t.text, Timestamp(t.decoded.value) / 1000)
  }

  /** Every emitted entry comes from such a token. */
  lemma EmittedHasSource(users: seq<UserDoc>, minTime: nat, x: ParsedRefreshToken)
    requires RefreshTokensOf(Ok(users), minTime).Ok?
    requires x in RefreshTokensOf(Ok(users), minTime).value
    ensures exists u, t :: EmittedFor(users, minTime, x, u, t)
  {
    var confirmed := Filter(users, Confirmed);
    CollectMembership(confirmed, UserReader(minTime), x);
    var k :| 0 <= k < |confirmed| && UserReader(minTime)(confirmed[k]).Ok? && x in UserReader(minTime)(confirmed[k]).value;
    var u := confirmed[k];
    FilterMembership(users, Confirmed, u);
    var tokens := u.refreshTokens.value;
    CollectMembership(tokens, TokenReader(Hex(u.id), minTime), x);
    var m :| 0 <= m < |tokens| && TokenReader(Hex(u.id), minTime)(tokens[m]).Ok?
             && x in TokenReader(Hex(u.id), minTime)(tokens[m]).value;
    assert EmittedFor(users, minTime, x, u, tokens[m]);
  }

  /** Every such token yields its entry. */
  lemma SourceIsEmitted(users: seq<UserDoc>, minTime: nat, x: ParsedRefreshToken, u: UserDoc, t: LegacyToken)
    requires RefreshTokensOf(Ok(users), minTime).Ok?
    requires EmittedFor(users, minTime, x, u, t)
    ensures x in RefreshTokensOf(Ok(users), minTime).value
  {
    var confirmed := Filter(users, Confirmed);
    FilterMembership(users, Confirmed, u);
    CollectMembership(confirmed, UserReader(minTime), x);
    var k :| 0 <= k < |confirmed| && confirmed[k] == u;
    var tokens := u.refreshTokens.value;
    CollectMembership(tokens, TokenReader(Hex(u.id), minTime), x);
    var m :| 0 <= m < |tokens| && tokens[m] == t;
    assert x in TokenReader(Hex(u.id), minTime)(tokens[m]).value;
    assert x in UserReader(minTime)(confirmed[k]).value;
  }

  /**
   * When the scan succeeds, an entry is emitted exactly for each decodable
   * token of a confirmed user whose raw time is at least `minTime`; it carries
   * the user's hex id, the original string and the raw time over 1000.
   */
  lemma EmittedExactly(users: seq<UserDoc>, minTime: nat, x: ParsedRefreshToken)
    requires RefreshTokensOf(Ok(users), minTime).Ok?
    ensures x in RefreshTokensOf(Ok(users), minTime).value <==> exists u, t :: EmittedFor(users, minTime, x, u, t)
  {
    if x in RefreshTokensOf(Ok(users), minTime).value {
      EmittedHasSource(users, minTime, x);
    }
    if exists u, t :: EmittedFor(users, minTime, x, u, t) {
      var u, t :| EmittedFor(users, minTime, x, u, t);
      SourceIsEmitted(users, minTime, x, u, t);
    }
  }

  /**
   * A user that is not confirmed or has no `refreshTokens` field contributes no
   * entry (user ids are unique in the collection).
   */
  lemma SkippedUserContributesNothing(users: seq<UserDoc>, minTime: nat, u: UserDoc)
    requires u in users && (u.refreshTokens.None? || !Confirmed(u))
    requires forall v :: v in users && v.id == u.id ==> v == u
    requires RefreshTokensOf(Ok(users), minTime).Ok?
    ensures forall x :: x in RefreshTokensOf(Ok(users), minTime).value ==> x.userID != Hex(u.id)
  {
    forall x | x in RefreshTokensOf(Ok(users), minTime).value
      ensures x.userID != Hex(u.id)
    {
      EmittedHasSource(users, minTime, x);
      var v, t :| EmittedFor(users, minTime, x, v, t);
      if Hex(v.id) == Hex(u.id) {
        ObjectIDHexRoundTrip(v.id);
        ObjectIDHexRoundTrip(u.id);
      }
    }
  }

  // --- CreateRefreshToken ---------------------------------------------------------------------

  datatype RefreshResults = RefreshResults(created: nat, expired: nat, error: nat)

  /** The table after the migration and the tally it printed. */
  datatype Migration = Migration(rows: seq<RenewToken>, results: RefreshResults)

  /** The row createToken inserts: user, token, `expiresAt = Time + duration`, no successor. */
  function MigrationRow(t: ParsedRefreshToken, duration: int): RenewToken
  {
    RenewToken(t.userID, t.token, t.time + duration, None)
  }

  /** The test the code applies before counting a token Expired: `expires > now`, as written. */
  function WrittenExpiry(now: int): int -> bool
  {
    expires => expires > now
  }

  /** The test the label evidently intends: the token's lifetime has run out. */
  function IntendedExpiry(now: int): int -> bool
  {
    expires => expires <= now
  }

  /** Tokens the given test counts as Expired. */
  function Stale(duration: int, expired: int -> bool): ParsedRefreshToken -> bool
  {
    (t: ParsedRefreshToken) => expired(t.time + duration)
  }

  /**
   * One token of CreateRefreshToken: counted Expired when the expiry test accepts it,
   * otherwise Created, or (a committed insert the unique index refuses) Error.
   */
  function MigrateStep(prev: Migration, t: ParsedRefreshToken, duration: int, commit: bool,
                       expired: int -> bool): Migration
  {
    var r := prev.results;
    if expired(t.time + duration) then Migration(prev.rows, r.(expired := r.expired + 1))
    else if !commit then Migration(prev.rows, r.(created := r.created + 1))
    else match Insert(prev.rows, MigrationRow(t, duration))
      case Ok(next) => Migration(next, r.(created := r.created + 1))
      case Err(_) => Migration(prev.rows, r.(error := r.error + 1))
  }

  /**
   * The effect of CreateRefreshToken with a given expiry test: each token is
   * counted Expired, Created, or Error, and nothing else.
   */
  function Migrate(rows: seq<RenewToken>, tokens: seq<ParsedRefreshToken>, duration: int, commit: bool,
                   expired: int -> bool): (m: Migration)
    ensures m.results.created + m.results.expired + m.results.error == |tokens|
    ensures !commit ==> m.rows == rows && m.results.error == 0
    decreases |tokens|
  {
    if tokens == [] then Migration(rows, RefreshResults(0, 0, 0))
    else MigrateStep(Migrate(rows, tokens[..|tokens| - 1], duration, commit, expired), tokens[|tokens| - 1],
                     duration, commit, expired)
  }

  /** Migrating one token more is one more step. */
  lemma MigratePrefix(rows: seq<RenewToken>, tokens: seq<ParsedRefreshToken>, i: nat, duration: int, commit: bool,
                      expired: int -> bool)
    requires i < |tokens|
    ensures Migrate(rows, tokens[..i + 1], duration, commit, expired)
            == MigrateStep(Migrate(rows, tokens[..i], duration, commit, expired), tokens[i], duration, commit, expired)
  {
    assert tokens[..i + 1][..i] == tokens[..i];
  }

  /** CreateRefreshToken as written, over the instance's renew-token table. */
  method CreateRefreshToken(table: RenewTokenTable, tokens: seq<ParsedRefreshToken>, duration: int,
                            commit: bool, now: int) returns (r: RefreshResults)
    requires table.Valid()
    modifies table
    ensures table.Valid()
    ensures Migration(table.rows, r) == Migrate(old(table.rows), tokens, duration, commit, WrittenExpiry(now))
  {
    r := RefreshResults(0, 0, 0);
    var i := 0;
    while i < |tokens|
      invariant 0 <= i <= |tokens|
      invariant table.Valid()
      invariant Migration(table.rows, r) == Migrate(old(table.rows), tokens[..i], duration, commit, WrittenExpiry(now))
    {
      MigratePrefix(old(table.rows), tokens, i, duration, commit, WrittenExpiry(now));
      ghost var before := Migration(table.rows, r);
      var token := tokens[i];
      var expires := token.time + duration;
      if expires > now {
        r := r.(expired := r.expired + 1);
      } else if commit {
        var err := table.CreateRenewToken(token.userID, token.token, expires);
        if err.Fail? {
          r := r.(error := r.error + 1);
        } else {
          r := r.(created := r.created + 1);
        }
      } else {
        r := r.(created := r.created + 1);
      }
      assert Migration(table.rows, r) == MigrateStep(before, token, duration, commit, WrittenExpiry(now));
      i := i + 1;
    }
    assert tokens[..i] == tokens;
  }

  /** The Expired count is the number of tokens the expiry test accepts. */
  lemma {:induction false} ExpiredCount(rows: seq<RenewToken>, tokens: seq<ParsedRefreshToken>, duration: int,
                                        commit: bool, expired: int -> bool)
    ensures Migrate(rows, tokens, duration, commit, expired).results.expired == |Filter(tokens, Stale(duration, expired))|
  {
    if tokens != [] {
      ExpiredCount(rows, tokens[..|tokens| - 1], duration, commit, expired);
    }
  }

  /**
   * The table only grows, by one migration row per Created token when
   * committing, each built from a token the expiry test let through.
   */
  lemma {:induction false} MigrationAppends(rows: seq<RenewToken>, tokens: seq<ParsedRefreshToken>, duration: int,
                                            commit: bool, expired: int -> bool)
    ensures var m := Migrate(rows, tokens, duration, commit, expired);
      |rows| <= |m.rows| && m.rows[..|rows|] == rows
      && (commit ==> |m.rows| == |rows| + m.results.created)
      && forall k :: |rows| <= k < |m.rows| ==>
           exists t :: t in tokens && !expired(t.time + duration) && m.rows[k] == MigrationRow(t, duration)
  {
    if tokens != [] {
      var init := tokens[..|tokens| - 1];
      MigrationAppends(rows, init, duration, commit, expired);
      var prev := Migrate(rows, init, duration, commit, expired);
      var m := Migrate(rows, tokens, duration, commit, expired);
      var t := tokens[|tokens| - 1];
      if !expired(t.time + duration) && commit && Insert(prev.rows, MigrationRow(t, duration)).Ok? {
        assert m.rows == prev.rows + [MigrationRow(t, duration)];
      } else {
        assert m.rows == prev.rows;
      }
      forall k | |rows| <= k < |m.rows|
        ensures exists t :: t in tokens && !expired(t.time + duration) && m.rows[k] == MigrationRow(t, duration)
      {
        if k < |prev.rows| {
          assert m.rows[k] == prev.rows[k];
          var t :| t in init && !expired(t.time + duration) && prev.rows[k] == MigrationRow(t, duration);
          assert t in tokens;
        } else {
          assert m.rows[k] == MigrationRow(t, duration) && !expired(t.time + duration);
          assert t in tokens;
        }
      }
    }
  }

  /** The migration keeps token strings unique in the table. */
  lemma {:induction false} MigrationKeepsUniqueness(rows: seq<RenewToken>, tokens: seq<ParsedRefreshToken>, duration: int,
                                                    commit: bool, expired: int -> bool)
    requires UniqueTokens(rows)
    ensures UniqueTokens(Migrate(rows, tokens, duration, commit, expired).rows)
  {
    if tokens != [] {
      var init := tokens[..|tokens| - 1];
      MigrationKeepsUniqueness(rows, init, duration, commit, expired);
      var prev := Migrate(rows, init, duration, commit, expired);
      InsertPreservesUniqueness(prev.rows, MigrationRow(tokens[|tokens| - 1], duration));
    }
  }

  /**
   * As written, a token whose lifetime has already run out is inserted, and the
   * row it becomes can never be renewed.
   */
  lemma WrittenInsertsDeadRow(rows: seq<RenewToken>, t: ParsedRefreshToken, duration: int, now: int)
    requires t.time + duration <= now
    requires forall i :: 0 <= i < |rows| ==> rows[i].renewToken != t.token
    ensures Migrate(rows, [t], duration, true, WrittenExpiry(now)) ==
            Migration(rows + [MigrationRow(t, duration)], RefreshResults(1, 0, 0))
    ensures !IsLive(MigrationRow(t, duration), t.userID, t.token, now)
  {
    assert [t][..0] == [];
  }

  /** As written, a token that is still valid is counted Expired and not migrated. */
  lemma WrittenSkipsLiveToken(rows: seq<RenewToken>, t: ParsedRefreshToken, duration: int, now: int)
    requires t.time + duration > now
    ensures Migrate(rows, [t], duration, true, WrittenExpiry(now)) == Migration(rows, RefreshResults(0, 1, 0))
  {
    assert [t][..0] == [];
  }

  /** With the intended test, every row the migration adds is still live. */
  lemma IntendedInsertsOnlyLiveRows(rows: seq<RenewToken>, tokens: seq<ParsedRefreshToken>, duration: int,
                                    commit: bool, now: int)
    ensures var m := Migrate(rows, tokens, duration, commit, IntendedExpiry(now));
      |rows| <= |m.rows| && m.rows[..|rows|] == rows
      && forall k :: |rows| <= k < |m.rows| ==> IsLive(m.rows[k], m.rows[k].userID, m.rows[k].renewToken, now)
  {
    MigrationAppends(rows, tokens, duration, commit, IntendedExpiry(now));
  }
}
