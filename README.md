# Renewal, clean-up and scheduling core of the user-management service, in Dafny

This project models the core of the influenzanet user-management service and proves properties about that model:

- **Renew-token table.** The per-instance table holds rows `{userID, renewToken, expiresAt, nextToken?}`. It supports insert, delete-by-token, delete-for-user, the expiry purge and the atomic rotation `FindAndUpdateRenewToken`.
- **Token endpoints.** The argument, validation and status-code decisions of `ValidateJWT`, `RenewJWT` and `RevokeAllRefreshTokens`, and the successor choice that makes repeated renewals converge.
- **Temp-token table.** Adding, finding and deleting temp tokens, with purpose and instance filters that apply only when the argument is not empty.
- **Two timer sweeps.** Notifying inactive users, and deleting users marked for deletion. Every collaborator is a fallible oracle: user store, temp-token store, messaging, study service and logging. A sweep yields its ordered trace of collaborator calls and one count per instance.
- **Weekday weights.** The cumulative intervals (`CreateWeight`), the lookup, the `Day=Weight,…` parser and the two strategy constructors.
- **Instance allow-list gate** placed in front of the gRPC handlers.
- **Profile conversion** between the API and database forms, including the ObjectID hex codec.
- **Migration tool.** It reads timestamps out of legacy refresh tokens and tallies the rows it creates.
- **Weekday reassignment tool.** Its seven-slot counters and per-user callback.

Go code that changes state in place is modelled that way:

- **Tables and counters** are classes (`RenewTokenTable`, `TempTokenTable`, `WeekdayCounter`, `Assignment`) whose methods carry `modifies` clauses.
- **Loops** are methods with `while` loops. Examples: the sweeps, `Lookup`, `CreateWeight`, `ParseWeeklyWeight`, the allow-list search and the migration scans.

Each method is proved equal to a specification function. The properties are then proved about that function.

Inputs stand in for the things the model cannot compute:

- **Time.** `now` is a parameter.
- **Randomness and token generation.** Generated tokens and the new weekdays drawn are parameters.
- **External answers.** JWT validation results, base32 decodings and the answers of remote services are parameters.

## Model

| member | source | states |
|---|---|---|
| RenewTokens.Insert | pkg/dbs/userdb/renewTokens.go:85-95 | An insert is refused exactly when the token string is already in the table (unique index); otherwise the row is appended. |
| RenewTokens.Rotate | pkg/dbs/userdb/renewTokens.go:97-137 | Rotation fails and changes nothing exactly when no row is live for (user, token, `expiresAt > now`). Otherwise it rewrites that one row. An unset successor becomes the candidate, with expiry `now + 30`. A set successor leaves the row unchanged. It returns the post-update row and leaves every other row alone. |
| RenewTokens.RenewTokenTable.constructor | pkg/dbs/userdb/renewTokens.go:17-44 | An empty table satisfies the unique-token invariant. |
| RenewTokens.RenewTokenTable.CreateRenewToken | pkg/dbs/userdb/renewTokens.go:85-95 | It inserts a row without `nextToken`. A duplicate token string fails and leaves the table unchanged. Uniqueness is kept. |
| RenewTokens.RenewTokenTable.DeleteRenewTokenByToken | pkg/dbs/userdb/renewTokens.go:46-59 | It fails exactly when no row has the token. Otherwise it removes that single row, and afterwards no row has the token. |
| RenewTokens.RenewTokenTable.DeleteRenewTokensForUser | pkg/dbs/userdb/renewTokens.go:61-71 | It keeps exactly the other users' rows and returns how many rows were removed, zero included. |
| RenewTokens.RenewTokenTable.DeleteExpiredRenewTokens | pkg/dbs/userdb/renewTokens.go:73-83 | It keeps exactly the rows with `expiresAt >= now` and returns the number removed. |
| RenewTokens.RenewTokenTable.FindAndUpdateRenewToken | pkg/dbs/userdb/renewTokens.go:97-137 | The table becomes the rotated table. The result is the post-update row, or a no-documents error. |
| RenewTokens.ExpiredRowNeverRotates | pkg/dbs/userdb/renewTokens.go:101 | A row with `expiresAt <= now` can never be rotated, whatever the candidate, and the table stays unchanged. |
| RenewTokens.RotationConverges | pkg/dbs/userdb/renewTokens.go:105-129 | A second rotation of the same token returns the successor recorded by the first and changes nothing. The second candidate is discarded. |
| RenewTokens.RotatePreservesUniqueness | pkg/dbs/userdb/renewTokens.go:35-40 | Rotation keeps token strings unique. |
| RenewTokens.InsertPreservesUniqueness | pkg/dbs/userdb/renewTokens.go:35-40 | An accepted insert keeps token strings unique. |
| RenewTokens.PurgeKeepsExactlyUnexpired | pkg/dbs/userdb/renewTokens.go:74 | A row survives the purge if and only if it was in the table with `expiresAt >= now`. |
| RenewTokens.BoundaryRowSurvivesButIsDead | pkg/dbs/userdb/renewTokens.go:73-101 | A row expiring exactly at `now` survives the purge but cannot be rotated at `now`. |
| RenewTokens.RevokeRemovesExactlyUser | pkg/dbs/userdb/renewTokens.go:61-71 | A row survives if and only if it belongs to another user. The count equals the number of rows removed. |
| JwtEndpoints.ValidateJWT | pkg/grpc/service/endpoints_jwt.go:21-41 | A nil or empty token gives InvalidArgument "missing arguments". Otherwise the result is Ok if and only if validation has no error and `ok` holds, in which case the claims are returned. Every other case gives InvalidArgument "invalid token". |
| JwtEndpoints.RenewRejects | pkg/grpc/service/endpoints_jwt.go:43-98 | Missing arguments give InvalidArgument with no collaborator call. A non-expiry access-token error gives PermissionDenied. An unknown user and a failed rotation both give Internal "refresh token error" and leave the table unchanged. |
| JwtEndpoints.RenewSuccess | pkg/grpc/service/endpoints_jwt.go:73-126 | On success the refresh token returned is the rotated row's successor. A 90-day row is inserted only when that successor is the fresh candidate; otherwise the table is the rotated table. |
| JwtEndpoints.RenewSuccessCalls | pkg/grpc/service/endpoints_jwt.go:99-126 | A success requests the mark reset (flag true) and `UpdateUser` with `lastTokenRefresh = now`. |
| JwtEndpoints.RenewJWT | pkg/grpc/service/endpoints_jwt.go:43-126 | The method's table, result and call trace equal `Renew` of the table before the call. The unique-token invariant is kept. |
| JwtEndpoints.RenewIgnoresOkFlag | pkg/grpc/service/endpoints_jwt.go:49-53 | The outcome of a renewal does not depend on the `ok` flag of the access-token validation. |
| JwtEndpoints.RenewPreservesUniqueness | pkg/grpc/service/endpoints_jwt.go:73-89 | A renewal keeps token strings unique. |
| JwtEndpoints.RotateFindsLiveRow | pkg/dbs/userdb/renewTokens.go:101-129 | With unique tokens, rotating a live row's own token rewrites exactly that row. |
| JwtEndpoints.RenewalsConverge | pkg/grpc/service/endpoints_jwt.go:73-89 | Two successful renewals with the same refresh token and different fresh candidates return the same refresh token. |
| JwtEndpoints.SecondRotationReturnsSuccessor | pkg/dbs/userdb/renewTokens.go:97-137 | After a rotation, even with rows appended behind it, a second successful rotation of the same token returns the successor recorded by the first. |
| JwtEndpoints.Revoke | pkg/grpc/service/endpoints_jwt.go:128-149 | An empty token gives InvalidArgument "missing arguments". An unknown user gives Internal "user not found". Both leave the table unchanged. Otherwise the result is Ok "refresh tokens revoked". |
| JwtEndpoints.RevokeAllRefreshTokens | pkg/grpc/service/endpoints_jwt.go:128-149 | The method's table and result equal `Revoke` of the table before the call. |
| JwtEndpoints.RevokeKeepsExactlyOtherUsers | pkg/grpc/service/endpoints_jwt.go:138 | After a successful revocation, a row survives if and only if it belongs to another user. |
| TempTokens.TempTokenTable.constructor | pkg/dbs/globaldb/db_temptoken.go:120-147 | An empty table satisfies the unique-token invariant. |
| TempTokens.TempTokenTable.AddTempToken | pkg/dbs/globaldb/db_temptoken.go:13-28 | A generation error stores nothing. A duplicate token stores nothing. Otherwise the record is stored under the generated token, and exactly that token is returned. |
| TempTokens.TempTokenTable.GetTempTokenForUser | pkg/dbs/globaldb/db_temptoken.go:30-59 | It returns exactly the records of that instance and user, filtered on purpose only when purpose is non-empty, in table order. |
| TempTokens.TempTokenTable.GetTempToken | pkg/dbs/globaldb/db_temptoken.go:61-70 | It finds a record if and only if one has the token, and that record is the only one. Otherwise it returns the driver's no-documents error from `Decode`, not the "document not found" of DeleteTempToken. |
| TempTokens.TempTokenTable.DeleteTempToken | pkg/dbs/globaldb/db_temptoken.go:72-85 | It fails with "document not found" exactly when no record has the token. Otherwise it removes that record. |
| TempTokens.TempTokenTable.DeleteAllTempTokenForUser | pkg/dbs/globaldb/db_temptoken.go:87-100 | It removes exactly the records the matching lookup returns, and succeeds even when there are none. |
| TempTokens.TempTokenTable.DeleteTempTokensExpireBefore | pkg/dbs/globaldb/db_temptoken.go:102-118 | It removes exactly the records expiring strictly before the bound, narrowed by purpose and instance only when these are non-empty. |
| TempTokens.DeleteAllRemovesExactlyFound | pkg/dbs/globaldb/db_temptoken.go:87-100 | A record survives if and only if the lookup with the same arguments would not return it. Sizes add up. |
| TempTokens.FoundAreExactlyUsers | pkg/dbs/globaldb/db_temptoken.go:34-37 | A record is found if and only if it is in the table and matches instance, user and, when it is non-empty, purpose. |
| TempTokens.PurgeRemovesExactlyExpired | pkg/dbs/globaldb/db_temptoken.go:106-112 | A record is purged if and only if it expires before the bound and matches the non-empty filters. An empty instance spans all instances. |
| Sweeps.RunUsersCount | pkg/timer_event/detect_and_notify_inactive_users.go:25-70 | A per-instance count is the number of users whose pipeline counted them. |
| Sweeps.RunUsersAppend | pkg/timer_event/detect_and_notify_inactive_users.go:31-71 | Users are processed independently: traces and counts of consecutive groups concatenate and add up. |
| InactiveUsers.NotifyUserSteps | pkg/timer_event/detect_and_notify_inactive_users.go:31-70 | The order is add temp token, then queue email, then mark. Each step happens only if the previous one succeeded. The email carries the stored token. The user is counted if and only if all three succeeded and the mark returned true. |
| InactiveUsers.SweepInstance | pkg/timer_event/detect_and_notify_inactive_users.go:24-29 | The instance starts with the inactive-user lookup. A failed lookup ends the instance with no report. |
| InactiveUsers.DetectAndNotifyInactiveUsers | pkg/timer_event/detect_and_notify_inactive_users.go:14-78 | The nested loops produce exactly the specified trace and per-instance counts. |
| InactiveUsers.NotifyInactiveUsers | pkg/timer_event/detect_and_notify_inactive_users.go:31-71 | The user loop with its `continue`s produces exactly the specified trace and count. |
| InactiveUsers.CountIsFullyNotified | pkg/timer_event/detect_and_notify_inactive_users.go:62-70 | The reported count equals the number of users for whom every step succeeded and the mark returned true. |
| Sweeps.LaterUsersIndependent | pkg/timer_event/detect_and_notify_inactive_users.go:43-69 | In either sweep, the calls and the count contributed by later users are the same whichever users came before them and whatever the collaborators answered for those, as long as the later users' own pipelines agree. The per-user `continue` never ends the loop early. |
| Sweeps.RunUsersAgree | pkg/timer_event/cleanup_users_marked_for_deletion.go:42-86 | Per-user pipelines that agree on every user give the same calls and count. |
| InactiveUsers.FailedLookupSkipsOnlyThatInstance | pkg/timer_event/detect_and_notify_inactive_users.go:24-29 | A failed lookup adds only that lookup to the trace. The other instances are processed unchanged. |
| InactiveUsers.NothingRolledBack | pkg/timer_event/detect_and_notify_inactive_users.go:42-69 | The sweep never deletes anything: no temp token, email or mark is undone. |
| InactiveUsers.NotifyUserNonDestructive | pkg/timer_event/detect_and_notify_inactive_users.go:42-69 | One user's steps never delete anything. |
| InactiveUsers.EmailCarriesStoredToken | pkg/timer_event/detect_and_notify_inactive_users.go:32-57 | The temp token has the inactive-notification purpose and the account id as `email`. The email's `token` is exactly the string the store returned. |
| InactiveUsers.MarkedOnlyAfterNotifying | pkg/timer_event/detect_and_notify_inactive_users.go:42-62 | A user is marked only after the temp token was stored and the email was queued. |
| InactiveUsers.AlreadyMarkedNotCounted | pkg/timer_event/detect_and_notify_inactive_users.go:62-69 | When the store answers `false` to the mark of a user already marked for deletion, that user is not counted. If the temp token and the email succeeded, the user still received both, and the mark request was the last call. |
| CleanupUsers.ProfileNotifications | pkg/timer_event/cleanup_users_marked_for_deletion.go:58-72 | There is one study-service call per profile id, in order, each carrying that id as `ProfilId`. |
| CleanupUsers.CleanupUserSteps | pkg/timer_event/cleanup_users_marked_for_deletion.go:29-87 | The farewell email is sent first and its failure is ignored. The deletions run in order (temp tokens, renew tokens, user), and each runs only after the previous one succeeded. Only after all three come the profile notifications (main first) and the log event, and the user is counted. |
| CleanupUsers.CleanupInstance | pkg/timer_event/cleanup_users_marked_for_deletion.go:22-28 | The instance starts with the marked-user lookup. A failed lookup ends the instance with no report. |
| CleanupUsers.CleanupUsersMarkedForDeletion | pkg/timer_event/cleanup_users_marked_for_deletion.go:15-96 | The nested loops produce exactly the specified trace and per-instance counts. |
| CleanupUsers.CleanupMarkedUsers | pkg/timer_event/cleanup_users_marked_for_deletion.go:29-88 | The user loop produces exactly the specified trace and count. |
| CleanupUsers.CleanupMarkedUser | pkg/timer_event/cleanup_users_marked_for_deletion.go:30-86 | The per-user body with its early `continue`s produces exactly the specified steps. |
| CleanupUsers.NotifyStudyService | pkg/timer_event/cleanup_users_marked_for_deletion.go:58-72 | The loop that updates `token.ProfilId` sends exactly the notifications for the main profile and then the others. |
| CleanupUsers.CountIsFullyDeleted | pkg/timer_event/cleanup_users_marked_for_deletion.go:41-86 | The count equals the number of users whose three deletions all succeeded. |
| CleanupUsers.FailedLookupSkipsOnlyThatInstance | pkg/timer_event/cleanup_users_marked_for_deletion.go:22-28 | A failed lookup adds only that lookup to the trace. The other instances are processed unchanged. |
| CleanupUsers.OnlyDeletionsDecide | pkg/timer_event/cleanup_users_marked_for_deletion.go:38-84 | Failures of the email, study service or logging change neither the trace nor the count: only the three deletions decide. |
| CleanupUsers.SweepOnlyDeletionsDecide | pkg/timer_event/cleanup_users_marked_for_deletion.go:15-96 | The same holds for the whole sweep. |
| CleanupUsers.NoNotificationWithoutDeletion | pkg/timer_event/cleanup_users_marked_for_deletion.go:42-55 | A user whose deletions did not all succeed gets no study notification and no log event. |
| CleanupUsers.DeletionOrder | pkg/timer_event/cleanup_users_marked_for_deletion.go:41-55 | Renew tokens are deleted only after temp-token deletion succeeded. The user record is deleted only after both. |
| Weekday.CreateWeight | pkg/utils/weekday.go:38-52 | `total` is the sum of the positive weights. The intervals are exactly the positive-weight days in increasing order. The first interval starts at 0, each starts one after the previous one's end, and each spans its day's weight. |
| Weekday.BuildBuilds | pkg/utils/weekday.go:38-52 | After the loop has visited the first `n` days, `total` is the sum of their positive weights. The intervals are exactly theirs: contiguous, in day order, each as wide as its weight. |
| Weekday.ExtendBuilds | pkg/utils/weekday.go:42-49 | One loop step keeps the interval invariant. |
| Weekday.Lookup | pkg/utils/weekday.go:54-68 | The loop returns the first interval containing the value, clamped at 0, else the last interval's entry, else 0. |
| Weekday.IntervalsOrdered | pkg/utils/weekday.go:44-48 | Intervals are disjoint and increasing in both range and day. |
| Weekday.LookupWithinInterval | pkg/utils/weekday.go:61-64 | A value inside an interval looks up that interval's day. |
| Weekday.IntervalsCover | pkg/utils/weekday.go:44-51 | A value lies in some interval if and only if it is in `[0, total)`. |
| Weekday.CoveredWithinTotal | pkg/utils/weekday.go:44-51 | A covered value is in `[0, total)`. |
| Weekday.LookupMeaning | pkg/utils/weekday.go:56-68 | A value below `total` gets the day whose interval contains it, and that day has positive weight. A value at or beyond `total` gets the last interval's day, or 0 when there are no intervals. |
| Weekday.DayShare | pkg/utils/weekday.go:44-48 | A day with weight `n > 0` is picked for exactly the `n` values of its interval. |
| Weekday.SplitJoin | pkg/utils/weekday.go:81-93 | Splitting and re-joining on the separator gives back the text. |
| Weekday.SplitPiecesFree | pkg/utils/weekday.go:81-93 | No piece of a split contains the separator. |
| Weekday.TrimSpaceMeaning | pkg/utils/weekday.go:85 | The result is a substring of the input, without leading or trailing white space. |
| Weekday.LowerRune | pkg/utils/weekday.go:85 | A rune lowers to an ASCII letter if and only if it is an ASCII letter, U+0130 (to `i`) or U+212A (to `k`), as with Go's `unicode.ToLower`. No result is an upper-case ASCII letter, and a rune outside these cases is kept. |
| Weekday.ToLower | pkg/utils/weekday.go:85 | The result has the input's length and lowers each rune by `LowerRune`. |
| Weekday.ParseDottedCapitalI | pkg/utils/weekday.go:85-110 | "FR\u0130=1" parses as Friday with weight 1, because day names are looked up after lower-casing, and U+0130 lowers to `i`. |
| Weekday.ParseTupleMeaning | pkg/utils/weekday.go:80-86 | Without `=` the result is `("", "")`. Otherwise the name is the lower-cased, trimmed text before the first `=`, and the value is the trimmed text up to the next `=`. |
| Weekday.Atoi | pkg/utils/weekday.go:103 | An accepted integer fits in 64 bits. |
| Weekday.AtoiDecimal | pkg/utils/weekday.go:103 | Every 64-bit integer written in decimal, with optional sign, parses back to itself. |
| Weekday.ParseEntryMeaning | pkg/utils/weekday.go:95-110 | An entry is accepted if and only if it has a non-empty known day name and a non-negative integer weight. Otherwise the error names the entry's index. |
| Weekday.ParseWeeklyWeight | pkg/utils/weekday.go:91-113 | The loop over the `,`-separated entries returns exactly the specified weights and first error. |
| Weekday.FirstBadEntryDecides | pkg/utils/weekday.go:94-109 | Parsing succeeds if and only if every entry is accepted. Otherwise the error is the first bad entry's, and the earlier entries are already applied. |
| Weekday.UnnamedDayKept | pkg/utils/weekday.go:92-110 | A day no entry names keeps its weight (0 from the start). |
| Weekday.LastEntryWins | pkg/utils/weekday.go:110 | When a day is named several times, the last entry's weight is the one kept. |
| Weekday.OneGoodEntry | pkg/utils/weekday.go:91-113 | A text that is a single good entry sets exactly that day. |
| Weekday.FirstEntryBad | pkg/utils/weekday.go:94-109 | A bad first entry is the error of the whole text. |
| Weekday.ParseSingleEntry | pkg/utils/weekday_test.go:111 | "Mon=1" parses to `[0,1,0,0,0,0,0]`. |
| Weekday.ParseRejectsBareWord | pkg/utils/weekday_test.go:104 | "Toto" fails for a missing day name. |
| Weekday.ParseRejectsEmptyWeight | pkg/utils/weekday_test.go:105 | "Mon=, Sun=2" fails for an invalid weight in entry 0. |
| Weekday.ParseRejectsEmptyName | pkg/utils/weekday_test.go:106 | "=2, Sun=2" fails for a missing day name in entry 0. |
| Weekday.CreateWeekdayWeightedStrategy | pkg/utils/weekday.go:115-117 | The strategy uses weights built from the given weights. |
| Weekday.CreateWeekdayDefaultStrategy | pkg/utils/weekday.go:119-121 | The strategy does not use weights, and its weight is the empty one. |
| Interceptors.IsAllowed | pkg/grpc/interceptors/interceptors.go:28-38 | The linear search with `break` decides exactly the admission predicate: a token field, no instance field, or an instance on the allow-list. |
| Interceptors.InstanceIdInterceptor | pkg/grpc/interceptors/interceptors.go:14-48 | A request is handled if and only if it is admitted. A refused request gets InvalidArgument "invalid arguments" and the handler is not called. An admitted request gets the handler's answer unchanged. |
| Interceptors.EmptyListRefuses | pkg/grpc/interceptors/interceptors.go:30-37 | An empty allow-list admits only requests with a token or with no instance field. |
| Profiles.ObjectIDHexRoundTrip | pkg/models/profile.go:32-41 | Parsing the hex form of an id gives the id back. |
| Profiles.DecodeHexOfHexBytes | pkg/models/profile.go:32-41 | Hex decoding inverts hex encoding for any byte string. |
| Profiles.FromNilIsZero | pkg/models/profile.go:20-22 | A nil API profile converts to the zero profile. |
| Profiles.UnparsableIdIsNil | pkg/models/profile.go:31-34 | An empty or unparsable API id leaves the database id at the nil ObjectID. |
| Profiles.ApiRoundTripKeepsFields | pkg/models/profile.go:19-49 | API → database → API keeps the six non-id fields. |
| Profiles.ApiRoundTrip | pkg/models/profile.go:19-49 | An API profile whose id is a hex-encoded ObjectID survives API → database → API unchanged. |
| Profiles.StoredRoundTrip | pkg/models/profile.go:19-49 | Every database profile survives database → API → database unchanged. |
| MigrateRefreshTokens.RawTimestamp | tools/migrate-refresh-tokens/main.go:73-75 | Five bytes copied into bytes 2..6 of a zeroed 8-byte word and read big-endian give the 40-bit value times 256, which is below 2^48. |
| MigrateRefreshTokens.ReadUint64 | tools/migrate-refresh-tokens/main.go:75 | The loop computes the big-endian value of the 8 bytes. |
| MigrateRefreshTokens.WordValue | tools/migrate-refresh-tokens/main.go:73-75 | The value of the word `[0,0] + five bytes + [0]` is the five bytes' value times 256. |
| MigrateRefreshTokens.GetRefreshTokens | tools/migrate-refresh-tokens/main.go:35-97 | The loops over confirmed users and their tokens return exactly the specified entries, or the first error. |
| MigrateRefreshTokens.ScanTokens | tools/migrate-refresh-tokens/main.go:67-93 | The inner loop appends exactly the specified entries of one user. |
| MigrateRefreshTokens.EmittedExactly | tools/migrate-refresh-tokens/main.go:57-93 | An entry is emitted if and only if it comes from a decodable token of a confirmed user whose raw time is at least `minTime`. The filter applies before the division. The entry has `Time = raw / 1000`, the user's hex id and the original string. |
| MigrateRefreshTokens.EmittedHasSource | tools/migrate-refresh-tokens/main.go:57-93 | Every emitted entry has such a source token. |
| MigrateRefreshTokens.SourceIsEmitted | tools/migrate-refresh-tokens/main.go:57-93 | Every such token is emitted. |
| MigrateRefreshTokens.SkippedUserContributesNothing | tools/migrate-refresh-tokens/main.go:42-63 | A user that is unconfirmed or has no `refreshTokens` field contributes no entry. |
| MigrateRefreshTokens.Migrate | tools/migrate-refresh-tokens/main.go:105-134 | Created + Expired + Error equals the number of tokens. A dry run inserts nothing and reports no error. |
| MigrateRefreshTokens.CreateRefreshToken | tools/migrate-refresh-tokens/main.go:105-147 | The loop, as written (`expires > now` counts as Expired), leaves the table and tally given by `Migrate`, and keeps tokens unique. |
| MigrateRefreshTokens.ExpiredCount | tools/migrate-refresh-tokens/main.go:112-117 | Expired counts exactly the tokens the expiry test accepts. |
| MigrateRefreshTokens.MigrationAppends | tools/migrate-refresh-tokens/main.go:119-147 | The table only grows. When committing, it grows by one row per Created token. Each new row is `{userID, token, Time + duration}` with no `nextToken`, from a token that was not counted Expired. |
| MigrateRefreshTokens.MigrationKeepsUniqueness | tools/migrate-refresh-tokens/main.go:121-128 | Refused duplicates keep token strings unique. |
| MigrateRefreshTokens.WrittenInsertsDeadRow | tools/migrate-refresh-tokens/main.go:112-131 | As written, a token whose lifetime is over is inserted as a row that can never be renewed. |
| MigrateRefreshTokens.WrittenSkipsLiveToken | tools/migrate-refresh-tokens/main.go:112-117 | As written, a still-valid token is counted Expired and not migrated. |
| MigrateRefreshTokens.IntendedInsertsOnlyLiveRows | tools/migrate-refresh-tokens/main.go:112-131 | With the intended test (`expires <= now` counts as Expired), every row added is still live. |
| WeekdayAssign.WeekdayCounter.constructor | tools/weekday-assign/main.go:47-50 | A new counter has exactly seven slots, all 0. |
| WeekdayAssign.WeekdayCounter.Add | tools/weekday-assign/main.go:52-54 | The day's slot grows by one, the other slots stay, and the total grows by exactly one. `0 <= day < 7` is required. |
| WeekdayAssign.Assignment.Visit | tools/weekday-assign/main.go:79-101 | One callback adds the stored day to `before` and the new day to `after`, sends the update only when committing, counts the user as scanned and returns no error. |
| WeekdayAssign.AssignWeekdays | tools/weekday-assign/main.go:73-101 | After the run, `before` is the histogram of the stored days and `after` that of the drawn days. Every user is scanned. Updates are sent for every user, in order, exactly when committing. |
| WeekdayAssign.RunMeaning | tools/weekday-assign/main.go:73-101 | A run counts the stored days in `before` and the drawn days in `after`. It scans every user and, only when committing, sends one update per user in order. |
| WeekdayAssign.RunStep | tools/weekday-assign/main.go:79-101 | Running one more user is one more callback step. |
| WeekdayAssign.SumUpdate | tools/weekday-assign/main.go:52-54 | Changing one slot changes the total by the difference. |
| WeekdayAssign.HistogramCounts | tools/weekday-assign/main.go:52-87 | Each slot counts exactly the occurrences of its day. |
| WeekdayAssign.HistogramTotal | tools/weekday-assign/main.go:52-98 | The slots add up to the number of users scanned. |
| WeekdayAssign.BeforeCountsStoredDays | tools/weekday-assign/main.go:83-98 | Each `before` slot counts the users stored on that day, and the slots sum to the number of users. |

## Left out

- MongoDB itself is out: connections, contexts, index creation and I/O errors. Each store operation is the model's table operation, and an error the driver could raise for other reasons (a timeout, a lost connection) is not modelled. As a result the "failed to delete tokens" answer of `RevokeAllRefreshTokens` cannot arise in the model.
- `FindOneAndUpdate` is one atomic step. Concurrent renewals are not interleaved.
- The background purge that `RenewJWT` starts with `go`, and the timer goroutines that run the sweeps, are left out as concurrency.
- Token signing and validation, `GenerateUniqueTokenString`, `GetExpirationTime`, `GetRolesFromPayload`, `GetUsernameFromPayload` and `GetMainAndOtherProfiles` are oracles whose answers are inputs. So are the user lookups, `FindInactiveUsers`, `FindUsersMarkedForDeletion`, `UpdateMarkedForDeletionTime` and `UpdateUser`, and the messaging, study and logging services.
- `utils.IsTokenEmpty` is not part of this model. The token is taken as empty when it is nil or its user id or instance id is empty.
- The `ExpiresIn`, `Profiles` and `PreferredLanguage` fields of the renewal response are not modelled. They are formatting of data the model already carries.
- The constant values of purposes, e-mail types and log events come from a shared platform library that is not part of this model. The model uses named constants for them.
- `GetAllInstances` failing is modelled as an empty instance list. The Go code logs the error and loops over the nil slice.
- Weekday.LowerRune: models `unicode.ToLower` only for the runes it maps to ASCII (A to Z, U+0130, U+212A). Other upper-case runes, such as 'É', are kept, while Go lowers them to other non-ASCII runes. So exactly the same day names are accepted (every day name is ASCII, see LowerRune's first ensures). Only the name quoted in an invalid-day-name error can differ.
- Weekday.CreateWeight: uses unbounded integers; the Go `int` sum of weights can wrap around for weights near 2^63, which is not modelled.
- Weekday.Atoi: covers decimal digits with an optional sign, as `strconv.Atoi` does. The error text of `strconv` is not modelled; only the fact of an error is.
- The error messages of `ParseWeeklyWeight` are formatted strings. The model keeps their kind and the entry index (and the name or value where the message shows it), not the text.
- Randomness is out. `WeekDayStrategy.Weekday` is random, and the new days in the reassignment tool are an input.
- `String` methods, flag parsing, base32 decoding and BSON cursor decoding are out. The decoded bytes of each stored token are an input.
- MigrateRefreshTokens.GetRefreshTokens: a token that decodes to fewer than five bytes stops the scan with a `ShortToken` error. Go bounds `parsed[0:5]` by the capacity of the base32 decoder's in-place buffer, which is at least the token's length, not by the decoded length. Go therefore panics only when that capacity is below five, as for an empty token. For any other short decoding it reads the leftover buffer bytes past the decoded ones and carries on, and may emit an entry. Those bytes depend on the decoder's in-place writes and on the runtime's allocation size, which this model does not see.
- MigrateRefreshTokens.CreateRefreshToken: `now` is a parameter (the tool reads the clock). Go's `int64` arithmetic on `Time + duration` cannot overflow here, because the time is below 2^48 / 1000.
- WeekdayAssign.WeekdayCounter.Add: requires `0 <= day < 7`. A stored day outside that range makes the Go slice index panic, and the model does not cover it.
- A failed `UpdateUser` in the reassignment tool is only logged. The model records the update request and not its outcome.

## Findings

| source | as written | input that shows it | evidently intended | confidence | as-written member | corrected member |
|---|---|---|---|---|---|---|
| tools/migrate-refresh-tokens/main.go:112-117 | A token counts as Expired, and is skipped, when `Time + duration > now`. Tokens whose lifetime has already run out are the ones migrated. | A token with `Time + duration <= now` is inserted as a row that can never be rotated. A token with `Time + duration > now` is counted Expired and dropped. | Count as Expired when `Time + duration <= now`, and migrate the tokens that are still valid. | high (label and message say "Expired"); not executed | MigrateRefreshTokens.WrittenInsertsDeadRow | MigrateRefreshTokens.IntendedInsertsOnlyLiveRows |
