/**
 * The deletion sweep (CleanupUsersMarkedForDeletion): for every instance, each
 * user the store reports as marked for deletion gets a farewell email, then their
 * temporary tokens, renew tokens and user record are deleted in this order; only
 * when all three deletions succeed is the study service told about every profile,
 * the event logged and the user counted.
 */
module CleanupUsers {
  import opened Wrappers
  import opened Seqs
  import opened Collaborators
  import opened Sweeps

  /** A user's main profile id and the ids of the other profiles, as the profile helper answers them. */
  datatype ProfileIDs = ProfileIDs(main: string, others: seq<string>)

  /** What the collaborators of the sweep answer. */
  datatype CleanupEnv = CleanupEnv(
    findMarked: string -> Option<seq<User>>,   // FindUsersMarkedForDeletion per instance; None when it errs
    succeeds: Call -> bool,                   // whether a call succeeds
    profileIDs: User -> ProfileIDs)           // GetMainAndOtherProfiles

  function FarewellEmail(inst: string, u: User): Call
  {
    SendInstantEmail(inst, [u.accountID], EmailTypeAccountDeletedAfterInactivity, u.preferredLanguage, true)
  }

  /** The three deletions, in the order they are attempted. */
  function Deletions(inst: string, u: User): seq<Call>
  {
    [DeleteAllTempTokenForUser(inst, u.id, ""), DeleteRenewTokensForUser(inst, u.id), DeleteUser(inst, u.id)]
  }

  /** The profile ids to notify about: the main profile first, then the others in order. */
  function NotifiedProfiles(ids: ProfileIDs): seq<string>
  {
    [ids.main] + ids.others
  }

  /** One study-service notification per profile id, on a descriptor whose profile id is set to that id. */
  function ProfileNotifications(inst: string, u: User, ids: ProfileIDs, profiles: seq<string>): (r: seq<Call>)
    ensures |r| == |profiles|
    ensures forall k :: 0 <= k < |r| ==> r[k] == ProfileDeleted(TokenInfos(u.id, inst, profiles[k], ids.others))
  {
    if profiles == [] then []
    else ProfileNotifications(inst, u, ids, profiles[..|profiles| - 1])
         + [ProfileDeleted(TokenInfos(u.id, inst, profiles[|profiles| - 1], ids.others))]
  }

  function DeletionLog(inst: string, u: User): Call
  {
    SaveLogEvent(inst, u.id, AccountDeletedAfterInactivity, u.accountID)
  }

  /** Whether the three deletions for `u` all succeed. */
  predicate Deleted(inst: string, u: User, env: CleanupEnv)
  {
    var d := Deletions(inst, u);
    env.succeeds(d[0]) && env.succeeds(d[1]) && env.succeeds(d[2])
  }

  /** The pipeline for one user marked for deletion. */
  function CleanupUser(inst: string, u: User, env: CleanupEnv): Step
  {
    var email, deleteTemp := FarewellEmail(inst, u), DeleteAllTempTokenForUser(inst, u.id, "");
    var deleteRenew, deleteUser := DeleteRenewTokensForUser(inst, u.id), DeleteUser(inst, u.id);
    if !env.succeeds(deleteTemp) then Step([email, deleteTemp], false)
    else if !env.succeeds(deleteRenew) then Step([email, deleteTemp, deleteRenew], false)
    else if !env.succeeds(deleteUser) then Step([email, deleteTemp, deleteRenew, deleteUser], false)
    else
      var ids := env.profileIDs(u);
      Step([email, deleteTemp, deleteRenew, deleteUser] + ProfileNotifications(inst, u, ids, NotifiedProfiles(ids)) + [DeletionLog(inst, u)], true)
  }

  /** The steps of the pipeline `s` for one user, in their order. */
  lemma CleanupUserSteps(inst: string, u: User, env: CleanupEnv, s: Step)
    requires s == CleanupUser(inst, u, env)
    // the email comes first and its outcome does not matter
    ensures |s.calls| >= 2 && s.calls[0] == FarewellEmail(inst, u)
    // each deletion is attempted only after the previous ones succeeded
    ensures s.calls[1] == Deletions(inst, u)[0]
    ensures |s.calls| >= 3 <==> env.succeeds(Deletions(inst, u)[0])
    ensures |s.calls| >= 3 ==> s.calls[2] == Deletions(inst, u)[1]
    ensures |s.calls| >= 4 <==> |s.calls| >= 3 && env.succeeds(Deletions(inst, u)[1])
    ensures |s.calls| >= 4 ==> s.calls[3] == Deletions(inst, u)[2]
    // counted exactly when all three deletions succeeded
    ensures s.counted <==> Deleted(inst, u, env)
    ensures !s.counted ==> |s.calls| <= 4
    // then every profile is reported, main profile first, and the deletion is logged
    ensures s.counted ==>
      var ids := env.profileIDs(u);
      s.calls == [FarewellEmail(inst, u)] + Deletions(inst, u)
                 + ProfileNotifications(inst, u, ids, NotifiedProfiles(ids)) + [DeletionLog(inst, u)]
  {
    if Deleted(inst, u, env) {
      var ids := env.profileIDs(u);
      var front := [FarewellEmail(inst, u), DeleteAllTempTokenForUser(inst, u.id, ""), DeleteRenewTokensForUser(inst, u.id), DeleteUser(inst, u.id)];
      assert front == [FarewellEmail(inst, u)] + Deletions(inst, u);
      assert s.calls == front + ProfileNotifications(inst, u, ids, NotifiedProfiles(ids)) + [DeletionLog(inst, u)];
      assert s.calls[..4] == front;
    }
  }

  function Cleaner(inst: string, env: CleanupEnv): User -> Step
  {
    u => CleanupUser(inst, u, env)
  }

  /** One instance: look up its marked users; on an error skip the instance without a report. */
  function CleanupInstance(inst: string, env: CleanupEnv): (j: Journal)
    ensures |j.calls| >= 1 && j.calls[0] == FindUsersMarkedForDeletion(inst)
    ensures env.findMarked(inst).None? ==> j == Journal([FindUsersMarkedForDeletion(inst)], [])
    ensures env.findMarked(inst).Some? ==> |j.reports| == 1 && j.reports[0].instanceID == inst
  {
    match env.findMarked(inst)
    case None => Journal([FindUsersMarkedForDeletion(inst)], [])
    case Some(users) =>
      var t := RunUsers(users, Cleaner(inst, env));
      Journal([FindUsersMarkedForDeletion(inst)] + t.calls, [Report(inst, t.count)])
  }

  function InstanceCleaner(env: CleanupEnv): string -> Journal
  {
    inst => CleanupInstance(inst, env)
  }

  /** The whole sweep over the instances, in order. */
  function Sweep(instances: seq<string>, env: CleanupEnv): Journal
  {
    RunInstances(instances, InstanceCleaner(env))
  }

  /**
   * CleanupUsersMarkedForDeletion. `instances` is what the instance list answers
   * (empty when it errs: the loop then has nothing to visit).
   */
  method CleanupUsersMarkedForDeletion(instances: seq<string>, env: CleanupEnv) returns (calls: seq<Call>, reports: seq<Report>)
    ensures Journal(calls, reports) == Sweep(instances, env)
  {
    calls, reports := [], [];
    for i := 0 to |instances|
      invariant Journal(calls, reports) == RunInstances(instances[..i], InstanceCleaner(env))
    {
      RunInstancesNext(instances, i, InstanceCleaner(env));
      var inst := instances[i];
      calls := calls + [FindUsersMarkedForDeletion(inst)];
      var found := env.findMarked(inst);
      if found.None? {
        continue;
      }
      var userCalls, count := CleanupMarkedUsers(inst, found.value, env);
      calls := calls + userCalls;
      reports := reports + [Report(inst, count)];
    }
    assert instances[..|instances|] == instances;
  }

  /** The loop over the users of one instance, and the count. */
  method CleanupMarkedUsers(inst: string, users: seq<User>, env: CleanupEnv) returns (calls: seq<Call>, count: nat)
    ensures Tally(calls, count) == RunUsers(users, Cleaner(inst, env))
  {
    calls, count := [], 0;
    for j := 0 to |users|
      invariant Tally(calls, count) == RunUsers(users[..j], Cleaner(inst, env))
    {
      RunUsersNext(users, j, Cleaner(inst, env));
      var userCalls, deleted := CleanupMarkedUser(inst, users[j], env);
      calls := calls + userCalls;
      if deleted {
        count := count + 1;
      }
    }
    assert users[..|users|] == users;
  }

  /** The body of that loop for one user; an early return stands for skipping to the next user. */
  method CleanupMarkedUser(inst: string, u: User, env: CleanupEnv) returns (calls: seq<Call>, deleted: bool)
    ensures Step(calls, deleted) == CleanupUser(inst, u, env)
  {
    // the outcome of the email is only logged
    calls := [FarewellEmail(inst, u)];
    var deleteTemp := DeleteAllTempTokenForUser(inst, u.id, "");
    calls := calls + [deleteTemp];
    if !env.succeeds(deleteTemp) {
      return calls, false;
    }
    var deleteRenew := DeleteRenewTokensForUser(inst, u.id);
    calls := calls + [deleteRenew];
    if !env.succeeds(deleteRenew) {
      return calls, false;
    }
    var deleteUser := DeleteUser(inst, u.id);
    calls := calls + [deleteUser];
    if !env.succeeds(deleteUser) {
      return calls, false;
    }
    var notes := NotifyStudyService(inst, u, env.profileIDs(u));
    calls := calls + notes + [DeletionLog(inst, u)];
    deleted := true;
  }

  /** The loop that reuses one descriptor, setting its profile id to each id in turn. */
  method NotifyStudyService(inst: string, u: User, ids: ProfileIDs) returns (calls: seq<Call>)
    ensures calls == ProfileNotifications(inst, u, ids, NotifiedProfiles(ids))
  {
    var userProfileIDs := [ids.main] + ids.others;
    var token := TokenInfos(u.id, inst, ids.main, ids.others);
    calls := [];
    for k := 0 to |userProfileIDs|
      invariant calls == ProfileNotifications(inst, u, ids, userProfileIDs[..k])
      invariant token.id == u.id && token.instanceID == inst && token.otherProfileIDs == ids.others
    {
      assert userProfileIDs[..k + 1][..k] == userProfileIDs[..k];
      token := token.(profilID := userProfileIDs[k]);
      calls := calls + [ProfileDeleted(token)];
    }
    assert userProfileIDs[..|userProfileIDs|] == userProfileIDs;
  }

  // --- properties of the sweep ------------------------------------------------------

  /** The reported count is the number of users whose three deletions all succeeded. */
  lemma CountIsFullyDeleted(inst: string, env: CleanupEnv, users: seq<User>)
    requires env.findMarked(inst) == Some(users)
    ensures CleanupInstance(inst, env).reports == [Report(inst, |Filter(users, Counted(Cleaner(inst, env)))|)]
    ensures forall u :: u in users ==> (Counted(Cleaner(inst, env))(u) <==> Deleted(inst, u, env))
  {
    RunUsersCount(users, Cleaner(inst, env));
    forall u | u in users
      ensures Counted(Cleaner(inst, env))(u) <==> Deleted(inst, u, env)
    {
      CleanupUserSteps(inst, u, env, CleanupUser(inst, u, env));
    }
  }

  /** An instance whose user lookup fails contributes its lookup call and nothing else; the others are unaffected. */
  lemma FailedLookupSkipsOnlyThatInstance(a: seq<string>, inst: string, b: seq<string>, env: CleanupEnv)
    requires env.findMarked(inst).None?
    ensures Sweep(a + [inst] + b, env).calls == Sweep(a, env).calls + [FindUsersMarkedForDeletion(inst)] + Sweep(b, env).calls
    ensures Sweep(a + [inst] + b, env).reports == Sweep(a, env).reports + Sweep(b, env).reports
  {
    var visit := InstanceCleaner(env);
    var ra, rb := RunInstances(a, visit), RunInstances(b, visit);
    RunInstancesAppend(a + [inst], b, visit);
    RunInstancesAppend(a, [inst], visit);
    RunInstancesSingle(inst, visit);
    assert visit(inst) == Journal([FindUsersMarkedForDeletion(inst)], []);
    assert RunInstances(a + [inst], visit) == Journal(ra.calls + [FindUsersMarkedForDeletion(inst)], ra.reports + []);
    assert ra.reports + [] == ra.reports;
  }

  /** Two environments that agree on the deletions; emails, study notifications and logging may differ. */
  ghost predicate AgreeOnDeletions(env1: CleanupEnv, env2: CleanupEnv)
  {
    env1.findMarked == env2.findMarked && env1.profileIDs == env2.profileIDs &&
    forall c: Call :: (c.DeleteAllTempTokenForUser? || c.DeleteRenewTokensForUser? || c.DeleteUser?) ==>
      env1.succeeds(c) == env2.succeeds(c)
  }

  /** The outcome of the email, of the study notifications and of the log call changes nothing. */
  lemma {:induction false} OnlyDeletionsDecide(users: seq<User>, inst: string, env1: CleanupEnv, env2: CleanupEnv)
    requires AgreeOnDeletions(env1, env2)
    ensures RunUsers(users, Cleaner(inst, env1)) == RunUsers(users, Cleaner(inst, env2))
  {
    if users != [] {
      OnlyDeletionsDecide(users[..|users| - 1], inst, env1, env2);
      var u := users[|users| - 1];
      assert CleanupUser(inst, u, env1) == CleanupUser(inst, u, env2);
    }
  }

  /** The same for a whole sweep. */
  lemma {:induction false} SweepOnlyDeletionsDecide(instances: seq<string>, env1: CleanupEnv, env2: CleanupEnv)
    requires AgreeOnDeletions(env1, env2)
    ensures Sweep(instances, env1) == Sweep(instances, env2)
  {
    if instances != [] {
      var init, inst := instances[..|instances| - 1], instances[|instances| - 1];
      SweepOnlyDeletionsDecide(init, env1, env2);
      match env1.findMarked(inst)
      case None =>
      case Some(users) => OnlyDeletionsDecide(users, inst, env1, env2);
    }
  }

  /** A user whose deletions did not all succeed gets no study notification and no log event. */
  lemma NoNotificationWithoutDeletion(inst: string, u: User, env: CleanupEnv, c: Call)
    requires !Deleted(inst, u, env)
    requires c in CleanupUser(inst, u, env).calls
    ensures !c.ProfileDeleted? && !c.SaveLogEvent?
  {
    CleanupUserSteps(inst, u, env, CleanupUser(inst, u, env));
  }

  /** The renew tokens go only after the temporary tokens, and the user record only after both. */
  lemma DeletionOrder(inst: string, u: User, env: CleanupEnv)
    ensures DeleteRenewTokensForUser(inst, u.id) in CleanupUser(inst, u, env).calls
            ==> env.succeeds(DeleteAllTempTokenForUser(inst, u.id, ""))
    ensures DeleteUser(inst, u.id) in CleanupUser(inst, u, env).calls
            ==> env.succeeds(DeleteAllTempTokenForUser(inst, u.id, "")) && env.succeeds(DeleteRenewTokensForUser(inst, u.id))
  {
    CleanupUserSteps(inst, u, env, CleanupUser(inst, u, env));
  }
}
