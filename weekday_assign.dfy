/**
 * The weekday reassignment tool (tools/weekday-assign/main.go): for every user
 * it counts the stored weekly-message day in `before`, draws a new day, counts
 * it in `after`, and writes the new day back only when `commit` is set.
 *
 * The draw is random; here the new days are an input, one per user, in the
 * order the users are visited.
 */
module WeekdayAssign {
  import opened Wrappers

  /** The sum of the slots. */
  function Sum(s: seq<int>): int
  {
    if s == [] then 0 else Sum(s[..|s| - 1]) + s[|s| - 1]
  }

  /** Replacing one slot changes the sum by the difference. */
  lemma {:induction false} SumUpdate(s: seq<int>, d: nat, v: int)
    requires d < |s|
    ensures Sum(s[d := v]) == Sum(s) - s[d] + v
  {
    var n := |s| - 1;
    assert s[d := v][..n] == if d == n then s[..n] else s[..n][d := v];
    if d < n {
      SumUpdate(s[..n], d, v);
    }
  }

  predicate InWeek(days: seq<int>)
  {
    forall k :: 0 <= k < |days| ==> 0 <= days[k] < 7
  }

  /** How often `d` occurs in `days`. */
  function Occurrences(days: seq<int>, d: int): nat
  {
    if days == [] then 0
    else Occurrences(days[..|days| - 1], d) + (if days[|days| - 1] == d then 1 else 0)
  }

  const Zeros: seq<int> := [0, 0, 0, 0, 0, 0, 0]

  /** The seven counts a counter holds after adding `days` in order. */
  function Histogram(days: seq<int>): (h: seq<int>)
    requires InWeek(days)
    ensures |h| == 7
  {
    if days == [] then Zeros
    else
      var h := Histogram(days[..|days| - 1]);
      var d := days[|days| - 1];
      h[d := h[d] + 1]
  }

  /** Each slot counts exactly the occurrences of its day. */
  lemma {:induction false} HistogramCounts(days: seq<int>, d: nat)
    requires InWeek(days) && d < 7
    ensures Histogram(days)[d] == Occurrences(days, d)
  {
    if days != [] {
      HistogramCounts(days[..|days| - 1], d);
    }
  }

  lemma {:induction false} SumOfZeros(s: seq<int>)
    requires forall k :: 0 <= k < |s| ==> s[k] == 0
    ensures Sum(s) == 0
  {
    if s != [] {
      SumOfZeros(s[..|s| - 1]);
    }
  }

  /** The slots add up to the number of days added. */
  lemma {:induction false} HistogramTotal(days: seq<int>)
    requires InWeek(days)
    ensures Sum(Histogram(days)) == |days|
  {
    if days == [] {
      SumOfZeros(Zeros);
    } else {
      var init := days[..|days| - 1];
      HistogramTotal(init);
      SumUpdate(Histogram(init), days[|days| - 1], Histogram(init)[days[|days| - 1]] + 1);
    }
  }

  /** weekdayCounter: seven slots, one per day, Sunday first. */
  class WeekdayCounter {
    var counts: array<int>

    ghost predicate Valid()
      reads this
    {
      counts.Length == 7
    }

    /** newCounter: seven slots, all zero. */
    constructor ()
      ensures Valid() && fresh(counts)
      ensures counts[..] == Zeros
    {
      counts := new int[7](_ => 0);
    }

    function Total(): int
      reads this, counts
    {
      Sum(counts[..])
    }

    /** add: one more for `day`; the other slots stay, so the total grows by one. */
    method Add(day: int)
      requires Valid() && 0 <= day < 7
      modifies counts
      ensures counts[..] == old(counts[..])[day := old(counts[..])[day] + 1]
      ensures Total() == old(Total()) + 1
    {
      SumUpdate(counts[..], day, counts[day] + 1);
      counts[day] := 1 + counts[day];
    }
  }

  datatype Subscriber = Subscriber(id: string, weeklyMessageDay: int)

  /** The UpdateUser call that stores a new weekly-message day. */
  datatype Reassignment = Reassignment(userID: string, day: int)

  /** The state the callback closes over: the two counters, the scan count and the updates sent. */
  class Assignment {
    var before: WeekdayCounter
    var after: WeekdayCounter
    var scanned: nat
    var updates: seq<Reassignment>

    ghost predicate Valid()
      reads this, before, after
    {
      before.Valid() && after.Valid() && before.counts != after.counts
    }

    constructor ()
      ensures Valid() && fresh(before) && fresh(after) && fresh(before.counts) && fresh(after.counts)
      ensures before.counts[..] == Zeros && after.counts[..] == Zeros
      ensures scanned == 0 && updates == []
    {
      before := new WeekdayCounter();
      after := new WeekdayCounter();
      scanned := 0;
      updates := [];
    }

    /** The counters, the scan count and the updates sent, as values. */
    ghost function State(): Tally
      reads this, before, after, before.counts, after.counts
    {
      Tally(before.counts[..], after.counts[..], scanned, updates)
    }

    /**
     * The callback for one user: count the stored day and the drawn day, send
     * the update only when committing, count the user as scanned, and never
     * report an error (a failed update is only logged).
     */
    method Visit(u: Subscriber, newDay: int, commit: bool) returns (err: Option<string>)
      requires Valid() && 0 <= u.weeklyMessageDay < 7 && 0 <= newDay < 7
      modifies this, before.counts, after.counts
      ensures Valid() && before == old(before) && after == old(after)
      ensures State() == Step(old(State()), u, newDay, commit)
      ensures err == None
    {
      before.Add(u.weeklyMessageDay);
      after.Add(newDay);
      if commit {
        updates := updates + [Reassignment(u.id, newDay)];
      }
      scanned := scanned + 1;
      err := None;
    }
  }

  /** The state of a run: the `before` and `after` slots, the users scanned and the updates sent. */
  datatype Tally = Tally(before: seq<int>, after: seq<int>, scanned: nat, updates: seq<Reassignment>)

  /** One callback: the stored day and the drawn day each get one more, and the update is sent only when committing. */
  function Step(t: Tally, u: Subscriber, newDay: int, commit: bool): Tally
    requires |t.before| == 7 && |t.after| == 7 && 0 <= u.weeklyMessageDay < 7 && 0 <= newDay < 7
  {
    var d := u.weeklyMessageDay;
    Tally(t.before[d := t.before[d] + 1], t.after[newDay := t.after[newDay] + 1], t.scanned + 1,
          t.updates + (if commit then [Reassignment(u.id, newDay)] else []))
  }

  predicate Drawable(users: seq<Subscriber>, newDays: seq<int>)
  {
    |newDays| == |users| && forall k :: 0 <= k < |users| ==> 0 <= users[k].weeklyMessageDay < 7 && 0 <= newDays[k] < 7
  }

  /** The state after the callback has visited `users` in order, starting from zero counters. */
  function Run(users: seq<Subscriber>, newDays: seq<int>, commit: bool): (t: Tally)
    requires Drawable(users, newDays)
    ensures |t.before| == 7 && |t.after| == 7
  {
    if users == [] then Tally(Zeros, Zeros, 0, [])
    else
      var n := |users| - 1;
      Step(Run(users[..n], newDays[..n], commit), users[n], newDays[n], commit)
  }

  function Days(users: seq<Subscriber>): (days: seq<int>)
    ensures |days| == |users| && forall k :: 0 <= k < |users| ==> days[k] == users[k].weeklyMessageDay
  {
    if users == [] then [] else Days(users[..|users| - 1]) + [users[|users| - 1].weeklyMessageDay]
  }

  /** The updates a committed run sends: every user, with its drawn day, in order. */
  function Reassignments(users: seq<Subscriber>, newDays: seq<int>): (r: seq<Reassignment>)
    requires |newDays| == |users|
    ensures |r| == |users| && forall k :: 0 <= k < |users| ==> r[k] == Reassignment(users[k].id, newDays[k])
  {
    if users == [] then []
    else Reassignments(users[..|users| - 1], newDays[..|users| - 1]) + [Reassignment(users[|users| - 1].id, newDays[|users| - 1])]
  }

  /**
   * The whole run: `before` is the histogram of the stored days, `after` that
   * of the drawn days, every user is scanned, and updates go out only when
   * committing.
   */
  method AssignWeekdays(users: seq<Subscriber>, newDays: seq<int>, commit: bool) returns (a: Assignment)
    requires Drawable(users, newDays)
    ensures a.Valid()
    ensures a.before.counts[..] == Histogram(Days(users)) && a.after.counts[..] == Histogram(newDays)
    ensures a.scanned == |users|
    ensures a.updates == if commit then Reassignments(users, newDays) else []
  {
    a := new Assignment();
    var i := 0;
    while i < |users|
      invariant 0 <= i <= |users|
      invariant a.Valid() && fresh(a.before.counts) && fresh(a.after.counts)
      invariant a.State() == Run(users[..i], newDays[..i], commit)
    {
      RunStep(users, newDays, commit, i);
      var _ := a.Visit(users[i], newDays[i], commit);
      i := i + 1;
    }
    assert users[..i] == users && newDays[..i] == newDays;
    RunMeaning(users, newDays, commit);
  }

  /** The run over one more user is one more step. */
  lemma RunStep(users: seq<Subscriber>, newDays: seq<int>, commit: bool, i: nat)
    requires Drawable(users, newDays) && i < |users|
    ensures Drawable(users[..i], newDays[..i]) && Drawable(users[..i + 1], newDays[..i + 1])
    ensures Run(users[..i + 1], newDays[..i + 1], commit) == Step(Run(users[..i], newDays[..i], commit), users[i], newDays[i], commit)
  {
    var u, n := users[..i + 1], newDays[..i + 1];
    assert u[..i] == users[..i] && n[..i] == newDays[..i];
  }

  /** A run counts the stored days in `before` and the drawn days in `after`, scans every user and sends every update when committing. */
  lemma RunMeaning(users: seq<Subscriber>, newDays: seq<int>, commit: bool)
    requires Drawable(users, newDays)
    ensures InWeek(Days(users)) && InWeek(newDays)
    ensures Run(users, newDays, commit) ==
            Tally(Histogram(Days(users)), Histogram(newDays), |users|, if commit then Reassignments(users, newDays) else [])
  {
    RunBefore(users, newDays, commit);
    RunAfter(users, newDays, commit);
    RunSent(users, newDays, commit);
  }

  lemma {:induction false} RunBefore(users: seq<Subscriber>, newDays: seq<int>, commit: bool)
    requires Drawable(users, newDays)
    ensures InWeek(Days(users)) && Run(users, newDays, commit).before == Histogram(Days(users))
  {
    if users != [] {
      var n := |users| - 1;
      var days := Days(users);
      RunBefore(users[..n], newDays[..n], commit);
      assert days[..n] == Days(users[..n]);
      HistogramStep(days, n);
      assert days[..n + 1] == days;
      var h := Histogram(Days(users[..n]));
      assert Run(users, newDays, commit).before == h[days[n] := h[days[n]] + 1];
    }
  }

  lemma {:induction false} RunAfter(users: seq<Subscriber>, newDays: seq<int>, commit: bool)
    requires Drawable(users, newDays)
    ensures InWeek(newDays) && Run(users, newDays, commit).after == Histogram(newDays)
  {
    if users != [] {
      var n := |users| - 1;
      RunAfter(users[..n], newDays[..n], commit);
      HistogramStep(newDays, n);
      assert newDays[..n + 1] == newDays;
    }
  }

  lemma {:induction false} RunSent(users: seq<Subscriber>, newDays: seq<int>, commit: bool)
    requires Drawable(users, newDays)
    ensures Run(users, newDays, commit).scanned == |users|
    ensures Run(users, newDays, commit).updates == if commit then Reassignments(users, newDays) else []
  {
    if users != [] {
      var n := |users| - 1;
      RunSent(users[..n], newDays[..n], commit);
    }
  }

  /** Adding one more day to a prefix. */
  lemma HistogramStep(days: seq<int>, i: nat)
    requires InWeek(days) && i < |days|
    ensures InWeek(days[..i]) && InWeek(days[..i + 1])
    ensures Histogram(days[..i + 1]) == Histogram(days[..i])[days[i] := Histogram(days[..i])[days[i]] + 1]
  {
    var p := days[..i + 1];
    assert p[..|p| - 1] == days[..i];
  }

  /** After a run each `before` slot counts the users stored on that day, and the slots add up to the users scanned. */
  lemma BeforeCountsStoredDays(users: seq<Subscriber>, d: nat)
    requires InWeek(Days(users)) && d < 7
    ensures Histogram(Days(users))[d] == Occurrences(Days(users), d)
    ensures Sum(Histogram(Days(users))) == |users|
  {
    HistogramCounts(Days(users), d);
    HistogramTotal(Days(users));
  }
}
