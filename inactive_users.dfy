/**
 * The inactivity sweep (DetectAndNotifyInactiveUsers): for every instance, each
 * user the store reports as inactive gets a temporary token, a notification email
 * that carries it, and a deletion mark, in this order. A failing step only skips
 * the rest of that user's steps; nothing is undone.
 */
module InactiveUsers {
  import opened Wrappers
  import opened Seqs
  import opened TempTokens
  import opened Collaborators
  import opened Sweeps

  /** What the collaborators of the sweep answer. */
  datatype NotifyEnv = NotifyEnv(
    findInactive: string -> Option<seq<User>>,       // FindInactiveUsers per instance; None when it errs
    addTempToken: TempToken -> Result<string, string>, // AddTempToken: the stored token, or the error
    queueEmail: Call -> bool,                         // whether the messaging service accepts the email
    mark: Call -> Result<bool, string>,               // UpdateMarkedForDeletionTime: whether it set the mark
    threshold: int,                                   // the inactivity threshold handed to FindInactiveUsers
    deleteAfter: int,                                 // the delay handed to the mark
    expiration: int)                                  // the expiry time of the notification token

  /** The temporary token created for a user of instance `inst`; the store fills in the token string. */
  function NotificationRecord(inst: string, u: User, env: NotifyEnv): TempToken
  {
    TempToken("", inst, u.id, PurposeInactiveUserNotification,
              map["type" := AccountTypeEmail, "email" := u.accountID], env.expiration)
  }

  /** The notification email, carrying the temporary token string. */
  function NotificationEmail(inst: string, u: User, token: string): Call
  {
    QueueEmailTemplateForSending(inst, [u.accountID], EmailTypeAccountInactivity, map["token" := token], u.preferredLanguage)
  }

  /** The request to mark the user for deletion without resetting an existing mark. */
  function MarkRequest(inst: string, u: User, env: NotifyEnv): Call
  {
    UpdateMarkedForDeletionTime(inst, u.id, env.deleteAfter, false)
  }

  /** Whether every step for `u` succeeded and the mark was set by this call. */
  predicate Notified(inst: string, u: User, env: NotifyEnv)
  {
    var tok := env.addTempToken(NotificationRecord(inst, u, env));
    tok.Ok? && env.queueEmail(NotificationEmail(inst, u, tok.value)) && env.mark(MarkRequest(inst, u, env)) == Ok(true)
  }

  /** The pipeline for one inactive user. */
  function NotifyUser(inst: string, u: User, env: NotifyEnv): Step
  {
    var record := NotificationRecord(inst, u, env);
    match env.addTempToken(record)
    case Err(_) => Step([AddTempToken(record)], false)
    case Ok(token) =>
      var email := NotificationEmail(inst, u, token);
      if !env.queueEmail(email) then Step([AddTempToken(record), email], false)
      else
        var mark := MarkRequest(inst, u, env);
        match env.mark(mark)
        case Err(_) => Step([AddTempToken(record), email, mark], false)
        case Ok(success) => Step([AddTempToken(record), email, mark], success)
  }

  /** The steps of the pipeline `s` for one inactive user, in their order. */
  lemma NotifyUserSteps(inst: string, u: User, env: NotifyEnv, s: Step)
    requires s == NotifyUser(inst, u, env)
    // the steps come in a fixed order, and each one only after the previous one succeeded
    ensures 1 <= |s.calls| <= 3
    ensures s.calls[0] == AddTempToken(NotificationRecord(inst, u, env))
    ensures |s.calls| >= 2 <==> env.addTempToken(NotificationRecord(inst, u, env)).Ok?
    ensures |s.calls| >= 2 ==> s.calls[1] == NotificationEmail(inst, u, env.addTempToken(NotificationRecord(inst, u, env)).value)
    ensures |s.calls| == 3 <==> |s.calls| >= 2 && env.queueEmail(s.calls[1])
    ensures |s.calls| == 3 ==> s.calls[2] == MarkRequest(inst, u, env)
    // counted exactly when all three succeeded and the mark was newly set
    ensures s.counted <==> Notified(inst, u, env)
  {
    var record := NotificationRecord(inst, u, env);
    match env.addTempToken(record)
    case Err(_) =>
    case Ok(token) =>
      if env.queueEmail(NotificationEmail(inst, u, token)) {
        match env.mark(MarkRequest(inst, u, env))
        case Err(_) =>
        case Ok(success) =>
      }
  }

  function Notifier(inst: string, env: NotifyEnv): User -> Step
  {
    u => NotifyUser(inst, u, env)
  }

  /** One instance: look up its inactive users; on an error skip the instance without a report. */
  function SweepInstance(inst: string, env: NotifyEnv): (j: Journal)
    ensures |j.calls| >= 1 && j.calls[0] == FindInactiveUsers(inst, env.threshold)
    ensures env.findInactive(inst).None? ==> j == Journal([FindInactiveUsers(inst, env.threshold)], [])
    ensures env.findInactive(inst).Some? ==> |j.reports| == 1 && j.reports[0].instanceID == inst
  {
    match env.findInactive(inst)
    case None => Journal([FindInactiveUsers(inst, env.threshold)], [])
    case Some(users) =>
      var t := RunUsers(users, Notifier(inst, env));
      Journal([FindInactiveUsers(inst, env.threshold)] + t.calls, [Report(inst, t.count)])
  }

  function InstanceSweeper(env: NotifyEnv): string -> Journal
  {
    inst => SweepInstance(inst, env)
  }

  /** The whole sweep over the instances, in order. */
  function Sweep(instances: seq<string>, env: NotifyEnv): Journal
  {
    RunInstances(instances, InstanceSweeper(env))
  }

  /**
   * DetectAndNotifyInactiveUsers. `instances` is what the instance list answers
   * (empty when it errs: the loop then has nothing to visit).
   */
  method DetectAndNotifyInactiveUsers(instances: seq<string>, env: NotifyEnv) returns (calls: seq<Call>, reports: seq<Report>)
    ensures Journal(calls, reports) == Sweep(instances, env)
  {
    calls, reports := [], [];
    for i := 0 to |instances|
      invariant Journal(calls, reports) == RunInstances(instances[..i], InstanceSweeper(env))
    {
      RunInstancesNext(instances, i, InstanceSweeper(env));
      var inst := instances[i];
      calls := calls + [FindInactiveUsers(inst, env.threshold)];
      var found := env.findInactive(inst);
      if found.None? {
        continue;
      }
      var userCalls, count := NotifyInactiveUsers(inst, found.value, env);
      calls := calls + userCalls;
      reports := reports + [Report(inst, count)];
    }
    assert instances[..|instances|] == instances;
  }

  /** The inner loop of the sweep: the pipeline for each inactive user of one instance, and the count. */
  method NotifyInactiveUsers(inst: string, users: seq<User>, env: NotifyEnv) returns (calls: seq<Call>, count: nat)
    ensures Tally(calls, count) == RunUsers(users, Notifier(inst, env))
  {
    calls, count := [], 0;
    for j := 0 to |users|
      invariant Tally(calls, count) == RunUsers(users[..j], Notifier(inst, env))
    {
      RunUsersNext(users, j, Notifier(inst, env));
      var u := users[j];
      var record := NotificationRecord(inst, u, env);
      calls := calls + [AddTempToken(record)];
      var tempToken := env.addTempToken(record);
      if tempToken.Err? {
        continue;
      }
      var email := NotificationEmail(inst, u, tempToken.value);
      calls := calls + [email];
      if !env.queueEmail(email) {
        continue;
      }
      var mark := MarkRequest(inst, u, env);
      calls := calls + [mark];
      var success := env.mark(mark);
      if success.Err? {
        continue;
      }
      if !success.value {
        continue;
      }
      count := count + 1;
    }
    assert users[..|users|] == users;
  }

  // --- properties of the sweep ------------------------------------------------------

  /** The reported count is the number of users for which every step succeeded and the mark was newly set. */
  lemma CountIsFullyNotified(inst: string, env: NotifyEnv, users: seq<User>)
    requires env.findInactive(inst) == Some(users)
    ensures SweepInstance(inst, env).reports == [Report(inst, |Filter(users, Counted(Notifier(inst, env)))|)]
    ensures forall u :: u in users ==> (Counted(Notifier(inst, env))(u) <==> Notified(inst, u, env))
  {
    RunUsersCount(users, Notifier(inst, env));
    forall u | u in users
      ensures Counted(Notifier(inst, env))(u) <==> Notified(inst, u, env)
    {
      NotifyUserSteps(inst, u, env, NotifyUser(inst, u, env));
    }
  }

  /**
   * A user whose deletion mark is already set: the store answers "not updated" to
   * the mark request. Such a user still receives the token and the email, but is
   * not counted.
   */
  lemma AlreadyMarkedNotCounted(inst: string, u: User, env: NotifyEnv)
    requires u.markedForDeletion > 0 && env.mark(MarkRequest(inst, u, env)) == Ok(false)
    ensures !NotifyUser(inst, u, env).counted
    ensures env.addTempToken(NotificationRecord(inst, u, env)).Ok?
            && env.queueEmail(NotificationEmail(inst, u, env.addTempToken(NotificationRecord(inst, u, env)).value)) ==>
      NotifyUser(inst, u, env).calls
      == [AddTempToken(NotificationRecord(inst, u, env)),
          NotificationEmail(inst, u, env.addTempToken(NotificationRecord(inst, u, env)).value),
          MarkRequest(inst, u, env)]
  {
    NotifyUserSteps(inst, u, env, NotifyUser(inst, u, env));
  }

  /** An instance whose user lookup fails contributes its lookup call and nothing else; the others are unaffected. */
  lemma FailedLookupSkipsOnlyThatInstance(a: seq<string>, inst: string, b: seq<string>, env: NotifyEnv)
    requires env.findInactive(inst).None?
    ensures Sweep(a + [inst] + b, env).calls == Sweep(a, env).calls + [FindInactiveUsers(inst, env.threshold)] + Sweep(b, env).calls
    ensures Sweep(a + [inst] + b, env).reports == Sweep(a, env).reports + Sweep(b, env).reports
  {
    var visit := InstanceSweeper(env);
    var ra, rb := RunInstances(a, visit), RunInstances(b, visit);
    RunInstancesAppend(a + [inst], b, visit);
    RunInstancesAppend(a, [inst], visit);
    RunInstancesSingle(inst, visit);
    assert visit(inst) == Journal([FindInactiveUsers(inst, env.threshold)], []);
    assert RunInstances(a + [inst], visit) == Journal(ra.calls + [FindInactiveUsers(inst, env.threshold)], ra.reports + []);
    assert ra.reports + [] == ra.reports;
  }

  /** Calls the inactivity sweep may issue: lookups, token creation, emails and marks that never reset. */
  predicate NonDestructive(c: Call)
  {
    c.FindInactiveUsers? || c.AddTempToken? || c.QueueEmailTemplateForSending? ||
    (c.UpdateMarkedForDeletionTime? && !c.reset)
  }

  /**
   * Nothing is rolled back: the sweep never deletes a temporary token, a renew
   * token or a user, and never resets a mark, whatever fails.
   */
  lemma NothingRolledBack(instances: seq<string>, env: NotifyEnv, c: Call)
    requires c in Sweep(instances, env).calls
    ensures NonDestructive(c)
  {
    RunInstancesCallsFromVisits(instances, InstanceSweeper(env), c);
    var k :| 0 <= k < |instances| && c in SweepInstance(instances[k], env).calls;
    var inst := instances[k];
    if c != FindInactiveUsers(inst, env.threshold) {
      var users := env.findInactive(inst).value;
      RunUsersCallsFromSteps(users, Notifier(inst, env), c);
      var m :| 0 <= m < |users| && c in Notifier(inst, env)(users[m]).calls;
      NotifyUserNonDestructive(inst, users[m], env, c);
    }
  }

  lemma NotifyUserNonDestructive(inst: string, u: User, env: NotifyEnv, c: Call)
    requires c in NotifyUser(inst, u, env).calls
    ensures NonDestructive(c)
  {
    NotifyUserSteps(inst, u, env, NotifyUser(inst, u, env));
  }

  /** The emailed token is exactly the one the store returned, and the stored record names the user's email. */
  lemma EmailCarriesStoredToken(inst: string, u: User, env: NotifyEnv)
    requires |NotifyUser(inst, u, env).calls| >= 2
    ensures var record := NotifyUser(inst, u, env).calls[0].record;
            var email := NotifyUser(inst, u, env).calls[1];
            email.contentInfos == map["token" := env.addTempToken(record).value]
            && email.to == [u.accountID]
            && record.purpose == PurposeInactiveUserNotification
            && record.info["email"] == u.accountID && record.userID == u.id && record.instanceID == inst
  {
    NotifyUserSteps(inst, u, env, NotifyUser(inst, u, env));
  }

  /** A user whose temporary token or email failed is never marked. */
  lemma MarkedOnlyAfterNotifying(inst: string, u: User, env: NotifyEnv)
    requires MarkRequest(inst, u, env) in NotifyUser(inst, u, env).calls
    ensures env.addTempToken(NotificationRecord(inst, u, env)).Ok?
    ensures env.queueEmail(NotificationEmail(inst, u, env.addTempToken(NotificationRecord(inst, u, env)).value))
  {
    NotifyUserSteps(inst, u, env, NotifyUser(inst, u, env));
  }
}
