/**
 * What the two lifecycle sweeps share: each visits the instances in order, asks
 * the user store for a list of users of that instance, runs a fixed pipeline of
 * calls for each user in order and counts the users whose pipeline succeeded.
 * A sweep is described by the calls it issues and the per-instance counts it
 * reports.
 */
module Sweeps {
  import opened Seqs
  import opened Collaborators

  /** The calls issued for one user, and whether that user is counted. */
  datatype Step = Step(calls: seq<Call>, counted: bool)

  /** The calls issued for a list of users, and how many of them were counted. */
  datatype Tally = Tally(calls: seq<Call>, count: nat)

  /** The count reported for an instance whose user list could be read. */
  datatype Report = Report(instanceID: string, count: nat)

  /** The calls issued by a whole sweep and the reports it produced, in instance order. */
  datatype Journal = Journal(calls: seq<Call>, reports: seq<Report>)

  function Counted(step: User -> Step): User -> bool
  {
    u => step(u).counted
  }

  /** Running the per-user pipeline `step` over `users`, one after the other. */
  function RunUsers(users: seq<User>, step: User -> Step): (t: Tally)
    ensures t.count <= |users|
    ensures users == [] ==> t == Tally([], 0)
  {
    if users == [] then Tally([], 0)
    else
      var t := RunUsers(users[..|users| - 1], step);
      var s := step(users[|users| - 1]);
      Tally(t.calls + s.calls, t.count + if s.counted then 1 else 0)
  }

  /** The count is the number of users whose own pipeline succeeded. */
  lemma {:induction false} RunUsersCount(users: seq<User>, step: User -> Step)
    ensures RunUsers(users, step).count == |Filter(users, Counted(step))|
  {
    if users != [] {
      RunUsersCount(users[..|users| - 1], step);
    }
  }

  /**
   * Failure isolation between users: what happens for the users of `b` does not
   * depend on what happened for the users before them.
   */
  lemma {:induction false} RunUsersAppend(a: seq<User>, b: seq<User>, step: User -> Step)
    ensures RunUsers(a + b, step).calls == RunUsers(a, step).calls + RunUsers(b, step).calls
    ensures RunUsers(a + b, step).count == RunUsers(a, step).count + RunUsers(b, step).count
  {
    if b == [] {
      assert a + b == a;
    } else {
      var init := b[..|b| - 1];
      RunUsersAppend(a, init, step);
      assert (a + b)[..|a + b| - 1] == a + init;
      assert (a + b)[|a + b| - 1] == b[|b| - 1];
    }
  }

  /** Pipelines that agree on every user of `users` give the same run. */
  lemma {:induction false} RunUsersAgree(users: seq<User>, step1: User -> Step, step2: User -> Step)
    requires forall u :: u in users ==> step1(u) == step2(u)
    ensures RunUsers(users, step1) == RunUsers(users, step2)
  {
    if users != [] {
      var init := users[..|users| - 1];
      forall u | u in init ensures step1(u) == step2(u) {
        var k :| 0 <= k < |init| && init[k] == u;
        assert users[k] == u;
      }
      RunUsersAgree(init, step1, step2);
      assert users[|users| - 1] in users;
    }
  }

  /**
   * Failure isolation between users: the calls and the count that the users of
   * `later` contribute are the same whichever users came before them and whatever
   * the collaborators answered for those, as long as the later users' own
   * pipelines agree.
   */
  lemma LaterUsersIndependent(earlier1: seq<User>, earlier2: seq<User>, later: seq<User>,
                              step1: User -> Step, step2: User -> Step)
    requires forall u :: u in later ==> step1(u) == step2(u)
    ensures var part := RunUsers(later, step1);
            var p1, p2 := RunUsers(earlier1, step1), RunUsers(earlier2, step2);
            RunUsers(earlier1 + later, step1) == Tally(p1.calls + part.calls, p1.count + part.count)
            && RunUsers(earlier2 + later, step2) == Tally(p2.calls + part.calls, p2.count + part.count)
  {
    LaterPart(earlier1, later, step1);
    LaterPart(earlier2, later, step2);
    RunUsersAgree(later, step1, step2);
  }

  /** The run over `a + b` as a tally: the run over `a` followed by the run over `b`. */
  lemma LaterPart(a: seq<User>, b: seq<User>, step: User -> Step)
    ensures RunUsers(a + b, step)
            == Tally(RunUsers(a, step).calls + RunUsers(b, step).calls, RunUsers(a, step).count + RunUsers(b, step).count)
  {
    RunUsersAppend(a, b, step);
  }

  /** Extending a run by the next user appends that user's pipeline. */
  lemma RunUsersNext(users: seq<User>, j: nat, step: User -> Step)
    requires j < |users|
    ensures RunUsers(users[..j + 1], step)
            == Tally(RunUsers(users[..j], step).calls + step(users[j]).calls,
                     RunUsers(users[..j], step).count + if step(users[j]).counted then 1 else 0)
  {
    assert users[..j + 1][..j] == users[..j];
  }

  /** Every call of a run comes from the pipeline of one of the users. */
  lemma {:induction false} RunUsersCallsFromSteps(users: seq<User>, step: User -> Step, c: Call)
    requires c in RunUsers(users, step).calls
    ensures exists k :: 0 <= k < |users| && c in step(users[k]).calls
  {
    var init := users[..|users| - 1];
    var last := users[|users| - 1];
    if c in RunUsers(init, step).calls {
      RunUsersCallsFromSteps(init, step, c);
      var k :| 0 <= k < |init| && c in step(init[k]).calls;
      assert users[k] == init[k];
    } else {
      assert c in step(last).calls;
    }
  }

  /** Visiting the instances in order, each contributing its own part of the journal. */
  function RunInstances(instances: seq<string>, visit: string -> Journal): (j: Journal)
    ensures instances == [] ==> j == Journal([], [])
  {
    if instances == [] then Journal([], [])
    else
      var j := RunInstances(instances[..|instances| - 1], visit);
      var k := visit(instances[|instances| - 1]);
      Journal(j.calls + k.calls, j.reports + k.reports)
  }

  /**
   * Failure isolation between instances: the sweep over `a + b` is the sweep over
   * `a` followed by the sweep over `b`.
   */
  lemma {:induction false} RunInstancesAppend(a: seq<string>, b: seq<string>, visit: string -> Journal)
    ensures RunInstances(a + b, visit)
            == Journal(RunInstances(a, visit).calls + RunInstances(b, visit).calls,
                       RunInstances(a, visit).reports + RunInstances(b, visit).reports)
  {
    if b == [] {
      assert a + b == a;
    } else {
      var init := b[..|b| - 1];
      RunInstancesAppend(a, init, visit);
      assert (a + b)[..|a + b| - 1] == a + init;
      assert (a + b)[|a + b| - 1] == b[|b| - 1];
    }
  }

  /** Extending a sweep by the next instance appends that instance's visit. */
  lemma RunInstancesNext(instances: seq<string>, i: nat, visit: string -> Journal)
    requires i < |instances|
    ensures RunInstances(instances[..i + 1], visit)
            == Journal(RunInstances(instances[..i], visit).calls + visit(instances[i]).calls,
                       RunInstances(instances[..i], visit).reports + visit(instances[i]).reports)
  {
    assert instances[..i + 1][..i] == instances[..i];
  }

  /** A single instance's run is that instance's visit. */
  lemma RunInstancesSingle(inst: string, visit: string -> Journal)
    ensures RunInstances([inst], visit) == visit(inst)
  {
    assert [inst][..0] == [];
  }

  /** Every call of a sweep comes from the visit of one of the instances. */
  lemma {:induction false} RunInstancesCallsFromVisits(instances: seq<string>, visit: string -> Journal, c: Call)
    requires c in RunInstances(instances, visit).calls
    ensures exists k :: 0 <= k < |instances| && c in visit(instances[k]).calls
  {
    var init := instances[..|instances| - 1];
    if c in RunInstances(init, visit).calls {
      RunInstancesCallsFromVisits(init, visit, c);
      var k :| 0 <= k < |init| && c in visit(init[k]).calls;
      assert instances[k] == init[k];
    }
  }
}
