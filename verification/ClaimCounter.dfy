/**
 The admission counter of src/job_claim.rs under concurrency: calls of `claim_job` and
 `unclaim_job` interleave between the short locked sections that touch the counter or the set of
 claimed jobs. Calls at one point of the code for one job are interchangeable, so each point
 holds the bag of jobs whose calls stand there.
 */
module ClaimCounter {
  type JobId = string

  datatype State = State(
    active: int,
    claimedJobs: set<JobId>,
    // claim_job: counted; told that the job is free; granted by the marketplace; refused, not yet uncounted
    trying: multiset<JobId>,
    passed: multiset<JobId>,
    granted: multiset<JobId>,
    failed: multiset<JobId>,
    // unclaim_job: asking the marketplace; released by it; removed from the set, not yet uncounted
    asking: set<JobId>,
    released: set<JobId>,
    removed: set<JobId>,
    // the jobs the marketplace regards as this node's
    held: set<JobId>)

  const IDLE := State(0, {}, multiset{}, multiset{}, multiset{}, multiset{}, {}, {}, {}, {})

  datatype Step =
    | Begin(job: JobId)
    | Refuse(job: JobId)
    | Pass(job: JobId)
    | Deny(job: JobId)
    | Grant(job: JobId)
    | Insert(job: JobId)
    | RollBack(job: JobId)
    | BeginUnclaim(job: JobId)
    | RefuseUnclaim(job: JobId)
    | Release(job: JobId)
    | Remove(job: JobId)
    | Decrement(job: JobId)

  /**
   A step of a call is possible where the call stands; jobs are unclaimed only when held, and one
   call at a time each.
   */
  predicate Enabled(s: State, step: Step) {
    match step
    case Begin(_) => true
    case Refuse(j) => j in s.trying
    case Pass(j) => j in s.trying
    case Deny(j) => j in s.passed
    case Grant(j) => j in s.passed
    case Insert(j) => j in s.granted
    case RollBack(j) => j in s.failed
    case BeginUnclaim(j) => j in s.claimedJobs && j !in s.asking && j !in s.released && j !in s.removed
    case RefuseUnclaim(j) => j in s.asking
    case Release(j) => j in s.asking
    case Remove(j) => j in s.released
    case Decrement(j) => j in s.removed
  }

  function Next(max: nat, s: State, step: Step): State
    requires Enabled(s, step)
  {
    match step
    case Begin(j) =>
      if s.active >= max then s else s.(active := s.active + 1, trying := s.trying + multiset{j})
    case Refuse(j) => s.(trying := s.trying - multiset{j}, failed := s.failed + multiset{j})
    case Pass(j) => s.(trying := s.trying - multiset{j}, passed := s.passed + multiset{j})
    case Deny(j) => s.(passed := s.passed - multiset{j}, failed := s.failed + multiset{j})
    case Grant(j) => s.(passed := s.passed - multiset{j}, granted := s.granted + multiset{j}, held := s.held + {j})
    case Insert(j) => s.(granted := s.granted - multiset{j}, claimedJobs := s.claimedJobs + {j})
    case RollBack(j) => s.(failed := s.failed - multiset{j}, active := s.active - 1)
    case BeginUnclaim(j) => s.(asking := s.asking + {j})
    case RefuseUnclaim(j) => s.(asking := s.asking - {j})
    case Release(j) => s.(asking := s.asking - {j}, released := s.released + {j}, held := s.held - {j})
    case Remove(j) => s.(released := s.released - {j}, removed := s.removed + {j}, claimedJobs := s.claimedJobs - {j})
    case Decrement(j) => s.(removed := s.removed - {j}, active := s.active - 1)
  }

  predicate Lawful(max: nat, steps: seq<Step>)
    decreases |steps|, 0
  {
    steps == [] ||
    (var before := steps[..|steps| - 1];
     Lawful(max, before) && Enabled(Run(max, before), steps[|steps| - 1]))
  }

  /** The state after an interleaving, from a claimer with no jobs. */
  function Run(max: nat, steps: seq<Step>): State
    requires Lawful(max, steps)
    decreases |steps|, 1
  {
    if steps == [] then IDLE else Next(max, Run(max, steps[..|steps| - 1]), steps[|steps| - 1])
  }

  /** Claims counted and not yet settled. */
  function InFlight(s: State): nat {
    |s.trying| + |s.passed| + |s.granted| + |s.failed|
  }

  /** How many grants of the run were inserted while the job was still in the set. */
  function DoubleInserts(max: nat, steps: seq<Step>): nat
    requires Lawful(max, steps)
  {
    if steps == [] then 0
    else
      var before, step := steps[..|steps| - 1], steps[|steps| - 1];
      DoubleInserts(max, before) + Doubled(Run(max, before), step)
  }

  // ---------------------------------------------------------------- the counter

  ghost predicate Counted(max: nat, s: State, doubles: nat) {
    && s.active == InFlight(s) + |s.claimedJobs| + |s.removed| + doubles
    && s.active <= max
    && s.asking <= s.claimedJobs && s.released <= s.claimedJobs
    && s.asking !! s.released && s.asking !! s.removed && s.released !! s.removed
  }

  function Doubled(s: State, step: Step): nat {
    if step.Insert? && step.job in s.claimedJobs then 1 else 0
  }

  predicate IsClaimStep(step: Step) {
    step.Begin? || step.Refuse? || step.Pass? || step.Deny? || step.Grant? || step.Insert? || step.RollBack?
  }

  lemma NextCounts(max: nat, s: State, step: Step, doubles: nat)
    requires Counted(max, s, doubles) && Enabled(s, step)
    ensures Counted(max, Next(max, s, step), doubles + Doubled(s, step))
  {
    hide Counted;
    if IsClaimStep(step) {
      ClaimCounts(max, s, step, doubles);
    } else {
      UnclaimCounts(max, s, step, doubles);
    }
  }

  lemma ClaimCounts(max: nat, s: State, step: Step, doubles: nat)
    requires Counted(max, s, doubles) && Enabled(s, step)
    requires IsClaimStep(step)
    ensures Counted(max, Next(max, s, step), doubles + Doubled(s, step))
  {
    if step.Begin? || step.RollBack? {
    } else if step.Insert? {
      if step.job in s.claimedJobs { assert s.claimedJobs + {step.job} == s.claimedJobs; }
    } else {
      ShiftCounts(max, s, step);
    }
  }

  lemma ShiftCounts(max: nat, s: State, step: Step)
    requires Enabled(s, step) && (step.Refuse? || step.Pass? || step.Deny? || step.Grant?)
    ensures var t := Next(max, s, step);
      && InFlight(t) == InFlight(s) && t.active == s.active && t.claimedJobs == s.claimedJobs
      && t.asking == s.asking && t.released == s.released && t.removed == s.removed
  {
  }

  lemma UnclaimCounts(max: nat, s: State, step: Step, doubles: nat)
    requires Counted(max, s, doubles) && Enabled(s, step)
    requires !IsClaimStep(step)
    ensures Counted(max, Next(max, s, step), doubles)
  {
    if step.Remove? { assert |s.claimedJobs - {step.job}| == |s.claimedJobs| - 1; }
  }

  /**
   In every interleaving, whatever the marketplace grants: the counter is the claims in flight,
   the jobs held, the unclaims that still owe their decrement, and one for each double insert;
   it never passes the maximum.
   */
  lemma {:induction false} CounterIsExact(max: nat, steps: seq<Step>)
    requires Lawful(max, steps)
    ensures var s := Run(max, steps);
      && s.active == InFlight(s) + |s.claimedJobs| + |s.removed| + DoubleInserts(max, steps)
      && InFlight(s) + |s.claimedJobs| <= s.active <= max
      && Counted(max, s, DoubleInserts(max, steps))
  {
    hide Enabled, Next;
    if steps == [] {
    } else {
      var before := steps[..|steps| - 1];
      CounterIsExact(max, before);
      NextCounts(max, Run(max, before), steps[|steps| - 1], DoubleInserts(max, before));
    }
  }

  /** No decrement, of a failed claim or of an unclaim, goes below zero. */
  lemma NoDecrementUnderflows(max: nat, steps: seq<Step>, step: Step)
    requires Lawful(max, steps) && Enabled(Run(max, steps), step) && (step.RollBack? || step.Decrement?)
    ensures Run(max, steps).active >= 1
  {
    hide Run;
    CounterIsExact(max, steps);
    var s := Run(max, steps);
    if step.Decrement? { assert |s.removed - {step.job}| == |s.removed| - 1; }
  }

  // ---------------------------------------------------------------- when the bound is tight

  /** How often the marketplace granted `job` in the run. */
  function Grants(steps: seq<Step>, job: JobId): nat {
    if steps == [] then 0
    else Grants(steps[..|steps| - 1], job) + if steps[|steps| - 1] == Grant(job) then 1 else 0
  }

  lemma {:induction false} GrantsAreCounted(steps: seq<Step>, job: JobId)
    ensures Grants(steps, job) == multiset(steps)[Grant(job)]
  {
    if steps != [] {
      var n := |steps| - 1;
      assert steps == steps[..n] + [steps[n]];
      GrantsAreCounted(steps[..n], job);
    }
  }

  /** Every job in hand was granted, and every grant is in hand at most once. */
  ghost predicate BackedByGrants(s: State, steps: seq<Step>) {
    forall j :: s.granted[j] + (if j in s.claimedJobs then 1 else 0) <= Grants(steps, j)
  }

  lemma {:induction false} GrantsBack(max: nat, steps: seq<Step>)
    requires Lawful(max, steps)
    ensures BackedByGrants(Run(max, steps), steps)
  {
    hide Next, BackedByGrants;
    if steps == [] {
      NoneBacked();
    } else {
      var before := steps[..|steps| - 1];
      GrantsBack(max, before);
      NextBacks(max, Run(max, before), steps);
    }
  }

  lemma NoneBacked()
    ensures BackedByGrants(IDLE, [])
  {
  }

  lemma NextBacks(max: nat, s: State, steps: seq<Step>)
    requires steps != [] && BackedByGrants(s, steps[..|steps| - 1]) && Enabled(s, steps[|steps| - 1])
    ensures BackedByGrants(Next(max, s, steps[|steps| - 1]), steps)
  {
    var before, step := steps[..|steps| - 1], steps[|steps| - 1];
    forall j
      ensures Grants(steps, j) == Grants(before, j) + if step == Grant(j) then 1 else 0
    {
    }
    hide Grants;
    assert BackedByGrants(s, before);
  }

  lemma {:induction false} GrantsGrow(steps: seq<Step>, n: nat, job: JobId)
    requires n <= |steps|
    ensures Grants(steps[..n], job) <= Grants(steps, job)
  {
    if n < |steps| {
      GrantsGrow(steps[..|steps| - 1], n, job);
      assert steps[..|steps| - 1][..n] == steps[..n];
    } else {
      assert steps[..n] == steps;
    }
  }

  /** If the marketplace grants each job at most once, no insert is double. */
  lemma {:induction false} GrantedOnceMeansNoDoubles(max: nat, steps: seq<Step>)
    requires Lawful(max, steps) && forall j :: Grants(steps, j) <= 1
    ensures DoubleInserts(max, steps) == 0
  {
    hide Run, Enabled;
    if steps != [] {
      var before, step := steps[..|steps| - 1], steps[|steps| - 1];
      forall j ensures Grants(before, j) <= 1 { GrantsGrow(steps, |steps| - 1, j); }
      GrantedOnceMeansNoDoubles(max, before);
      GrantsBack(max, before);
      if step.Insert? { InsertIsGranted(Run(max, before), before, step.job, step); }
    }
  }

  lemma InsertIsGranted(s: State, steps: seq<Step>, job: JobId, step: Step)
    requires BackedByGrants(s, steps) && step == Insert(job) && Enabled(s, step) && Grants(steps, job) <= 1
    ensures job !in s.claimedJobs
  {
    hide Grants;
    assert s.granted[job] >= 1;
  }

  /** Then the counter is tight whenever no unclaim still owes its decrement. */
  lemma TightWhenGrantedOnce(max: nat, steps: seq<Step>)
    requires Lawful(max, steps) && forall j :: Grants(steps, j) <= 1
    ensures var s := Run(max, steps); s.removed == {} ==> s.active == InFlight(s) + |s.claimedJobs|
  {
    hide Run, DoubleInserts, Lawful;
    CounterIsExact(max, steps);
    GrantedOnceMeansNoDoubles(max, steps);
  }

  /** Tight in every such state exactly when no insert was double. */
  lemma TightIffNoDoubles(max: nat, steps: seq<Step>)
    requires Lawful(max, steps)
    ensures var s := Run(max, steps);
      s.active == InFlight(s) + |s.claimedJobs| <==> s.removed == {} && DoubleInserts(max, steps) == 0
  {
    hide Run, DoubleInserts, Lawful;
    CounterIsExact(max, steps);
    var s := Run(max, steps);
    if |s.removed| == 0 { assert s.removed == {}; }
  }

  // ---------------------------------------------------------------- a marketplace that regrants

  /** The marketplace grants a job only while it is not this node's. */
  ghost predicate Exclusive(max: nat, steps: seq<Step>)
    requires Lawful(max, steps)
  {
    steps == [] ||
    (var before, step := steps[..|steps| - 1], steps[|steps| - 1];
     Exclusive(max, before) && (step.Grant? ==> step.job !in Run(max, before).held))
  }

  /** The marketplace says that a job is free only while it is not this node's, and may grant whatever it said so of. */
  predicate Truthful(max: nat, steps: seq<Step>)
    requires Lawful(max, steps)
  {
    steps == [] ||
    (var before, step := steps[..|steps| - 1], steps[|steps| - 1];
     Truthful(max, before) && (step.Pass? ==> step.job !in Run(max, before).held))
  }

  ghost predicate Owned(s: State) {
    && (forall j :: j in s.claimedJobs ==> j in s.held || j in s.released)
    && (forall j :: j in s.granted ==>
        s.granted[j] == 1 && j in s.held && j !in s.asking && (j in s.claimedJobs ==> j in s.released))
    && (forall j :: j in s.asking ==> j in s.held)
    && (forall j :: j in s.asking ==> j !in s.released)
  }

  lemma NextOwns(max: nat, s: State, step: Step)
    requires Enabled(s, step) && Owned(s) && (step.Grant? ==> step.job !in s.held)
    ensures Owned(Next(max, s, step))
  {
  }

  lemma {:induction false} ExclusiveRunsOwn(max: nat, steps: seq<Step>)
    requires Lawful(max, steps) && Exclusive(max, steps)
    ensures Owned(Run(max, steps))
  {
    hide Next, Owned;
    if steps == [] {
      IdleOwns();
    } else {
      var before := steps[..|steps| - 1];
      ExclusiveRunsOwn(max, before);
      NextOwns(max, Run(max, before), steps[|steps| - 1]);
    }
  }

  lemma IdleOwns()
    ensures Owned(IDLE)
  {
  }

  /**
   With such a marketplace an insert is double exactly when it overtakes an `unclaim_job` of the
   same job that the marketplace has released and the set has not yet lost.
   */
  lemma DoubleInsertIsARace(max: nat, steps: seq<Step>, step: Step)
    requires Lawful(max, steps) && Exclusive(max, steps) && step.Insert? && Enabled(Run(max, steps), step)
    ensures step.job in Run(max, steps).claimedJobs <==> step.job in Run(max, steps).released
  {
    hide Run, Exclusive, Lawful;
    ExclusiveRunsOwn(max, steps);
    CounterIsExact(max, steps);
  }

  /** A double insert costs a slot for good: no later step gives it back. */
  lemma {:induction false} LostSlotsStayLost(max: nat, steps: seq<Step>, n: nat)
    requires Lawful(max, steps) && n <= |steps|
    ensures Lawful(max, steps[..n])
    ensures DoubleInserts(max, steps[..n]) <= DoubleInserts(max, steps) <= Run(max, steps).active
  {
    hide Run, Enabled;
    CounterIsExact(max, steps);
    if n < |steps| {
      LostSlotsStayLost(max, steps[..|steps| - 1], n);
      assert steps[..|steps| - 1][..n] == steps[..n];
    } else {
      assert steps[..n] == steps;
    }
  }

  /** Claim, start to unclaim, and claim again before the first call has left the set. */
  function RaceOn(job: JobId): seq<Step> {
    [Begin(job), Pass(job), Grant(job), Insert(job), BeginUnclaim(job), Release(job),
     Begin(job), Pass(job), Grant(job), Insert(job), Remove(job), Decrement(job)]
  }

  /**
   The race happens with a truthful and exclusive marketplace too: the job is the node's, the set is
   empty and one slot is lost.
   */
  lemma RaceLosesASlot(max: nat, job: JobId)
    requires max >= 2
    ensures Lawful(max, RaceOn(job)) && Exclusive(max, RaceOn(job)) && Truthful(max, RaceOn(job))
    ensures Run(max, RaceOn(job)) == IDLE.(active := 1, held := {job})
    ensures DoubleInserts(max, RaceOn(job)) == 1
  {
    hide Run, Lawful, Exclusive, Truthful, DoubleInserts;
    var s5 := FirstHalf(max, job);
    var s6 := Extend(max, s5, Begin(job));
    s6 := Extend(max, s6, Pass(job));
    var s7 := Extend(max, s6, Grant(job));
    var s8 := Extend(max, s7, Insert(job));
    var s9 := Extend(max, s8, Remove(job));
    var s10 := Extend(max, s9, Decrement(job));
    assert s10 == RaceOn(job);
  }

  lemma FirstHalf(max: nat, job: JobId) returns (steps: seq<Step>)
    requires max >= 2
    ensures steps == RaceOn(job)[..6] && Lawful(max, steps) && Exclusive(max, steps) && Truthful(max, steps)
    ensures Run(max, steps) == IDLE.(active := 1, claimedJobs := {job}, released := {job})
    ensures DoubleInserts(max, steps) == 0
  {
    hide Run, Lawful, Exclusive, Truthful, DoubleInserts, Next, Enabled, CallOpen;
    NoSteps(max);
    ClaimStates(max, job);
    UnclaimStates(max, job);
    steps := Extend(max, [], Begin(job));
    steps := Extend(max, steps, Pass(job));
    steps := Extend(max, steps, Grant(job));
    steps := Extend(max, steps, Insert(job));
    steps := Extend(max, steps, BeginUnclaim(job));
    steps := Extend(max, steps, Release(job));
  }

  lemma NoSteps(max: nat)
    ensures Lawful(max, []) && Exclusive(max, []) && Truthful(max, [])
    ensures Run(max, []) == IDLE && DoubleInserts(max, []) == 0
  {
  }

  lemma Extend(max: nat, steps: seq<Step>, step: Step) returns (longer: seq<Step>)
    requires Lawful(max, steps) && Enabled(Run(max, steps), step)
    ensures longer == steps + [step] && Lawful(max, longer)
    ensures Exclusive(max, longer) <==> Exclusive(max, steps) && (step.Grant? ==> step.job !in Run(max, steps).held)
    ensures Truthful(max, longer) <==> Truthful(max, steps) && (step.Pass? ==> step.job !in Run(max, steps).held)
    ensures Run(max, longer) == Next(max, Run(max, steps), step)
    ensures DoubleInserts(max, longer) == DoubleInserts(max, steps) + Doubled(Run(max, steps), step)
  {
    hide Next, Enabled;
    longer := steps + [step];
    assert longer[..|steps|] == steps;
  }

  // ---------------------------------------------------------------- any marketplace: overlapping calls

  function OpenClaims(s: State, job: JobId): nat {
    s.trying[job] + s.passed[job] + s.granted[job] + s.failed[job]
  }

  predicate UnclaimOpen(s: State, job: JobId) {
    job in s.asking || job in s.released || job in s.removed
  }

  /** A call of the job is under way. */
  predicate CallOpen(s: State, job: JobId) {
    OpenClaims(s, job) > 0 || UnclaimOpen(s, job)
  }

  /** Every claim of the job that is let in finds no call of it under way and the job not in the set. */
  predicate ClaimsAlone(max: nat, steps: seq<Step>, job: JobId)
    requires Lawful(max, steps)
  {
    steps == [] ||
    (var before, step := steps[..|steps| - 1], steps[|steps| - 1];
     var s := Run(max, before);
     ClaimsAlone(max, before, job) && (step == Begin(job) && s.active < max ==>
         !CallOpen(s, job) && job !in s.claimedJobs))
  }

  ghost predicate Single(s: State, job: JobId) {
    OpenClaims(s, job) <= 1 && (OpenClaims(s, job) == 1 ==> job !in s.claimedJobs && !UnclaimOpen(s, job))
    && (job in s.asking || job in s.released ==> job in s.claimedJobs) && !(job in s.asking && job in s.released)
  }

  lemma NextIsSingle(max: nat, s: State, step: Step, job: JobId)
    requires Enabled(s, step) && Single(s, job)
    requires step == Begin(job) && s.active < max ==> !CallOpen(s, job) && job !in s.claimedJobs
    ensures Single(Next(max, s, step), job)
  {
    if step.job != job {
      OtherJob(max, s, step, job);
    } else {
      OwnClaims(max, s, step);
    }
  }

  /** A step of one job changes nothing of another. */
  lemma OtherJob(max: nat, s: State, step: Step, job: JobId)
    requires Enabled(s, step) && step.job != job
    ensures var t := Next(max, s, step);
      && t.trying[job] == s.trying[job] && t.passed[job] == s.passed[job] && t.granted[job] == s.granted[job]
          && t.failed[job] == s.failed[job]
      && (job in t.asking <==> job in s.asking) && (job in t.released <==> job in s.released)
          && (job in t.removed <==> job in s.removed)
      && (job in t.claimedJobs <==> job in s.claimedJobs) && (job in t.held <==> job in s.held)
  {
  }

  lemma OwnClaims(max: nat, s: State, step: Step)
    requires Enabled(s, step)
    ensures OpenClaims(Next(max, s, step), step.job) == OpenClaims(s, step.job)
      + (if step.Begin? && s.active < max then 1 else 0) - (if step.Insert? || step.RollBack? then 1 else 0)
  {
  }

  lemma {:induction false} AloneIsSingle(max: nat, steps: seq<Step>, job: JobId)
    requires Lawful(max, steps) && ClaimsAlone(max, steps, job)
    ensures Single(Run(max, steps), job)
  {
    hide Next, Enabled, CallOpen;
    if steps != [] {
      var before := steps[..|steps| - 1];
      AloneIsSingle(max, before, job);
      NextIsSingle(max, Run(max, before), steps[|steps| - 1], job);
    }
  }

  /**
   Whatever the marketplace grants: an insert is double only if some claim of the job was let in
   while another call of it was under way or the job was in the set.
   */
  lemma DoubleInsertNeedsOverlap(max: nat, steps: seq<Step>, step: Step)
    requires Lawful(max, steps) && step.Insert? && Enabled(Run(max, steps), step)
          && step.job in Run(max, steps).claimedJobs
    ensures !ClaimsAlone(max, steps, step.job)
  {
    hide Run, Lawful, ClaimsAlone;
    if ClaimsAlone(max, steps, step.job) { AloneIsSingle(max, steps, step.job); }
  }

  /** So if every claim of every job comes alone, no insert is double, and the counter is tight. */
  lemma {:induction false} ClaimsAloneMeansNoDoubles(max: nat, steps: seq<Step>)
    requires Lawful(max, steps) && forall j :: ClaimsAlone(max, steps, j)
    ensures DoubleInserts(max, steps) == 0
  {
    hide Run, Enabled, CallOpen;
    if steps != [] {
      var before, step := steps[..|steps| - 1], steps[|steps| - 1];
      forall j ensures ClaimsAlone(max, before, j) { assert ClaimsAlone(max, steps, j); }
      ClaimsAloneMeansNoDoubles(max, before);
      if Doubled(Run(max, before), step) == 1 { DoubleInsertNeedsOverlap(max, before, step); }
    }
  }

  // ---------------------------------------------------------------- a marketplace that is asked before it grants

  /** No two calls of the job are under way at once. */
  predicate NoOverlap(max: nat, steps: seq<Step>, job: JobId)
    requires Lawful(max, steps)
  {
    steps == [] ||
    (var before, step := steps[..|steps| - 1], steps[|steps| - 1];
     var s := Run(max, before);
     NoOverlap(max, before, job)
     && ((step == Begin(job) && s.active < max) || step == BeginUnclaim(job) ==> !CallOpen(s, job)))
  }

  ghost predicate OneCall(s: State, job: JobId) {
    && OpenClaims(s, job) <= 1 && (OpenClaims(s, job) == 1 ==> !UnclaimOpen(s, job))
    && (job in s.passed || job in s.granted ==> job !in s.claimedJobs)
    && (job in s.passed ==> job !in s.held) && (job in s.granted ==> job in s.held)
    && (job in s.claimedJobs && job !in s.released ==> job in s.held)
    && !(job in s.asking && job in s.released)
  }

  lemma NextIsOneCall(max: nat, s: State, step: Step, job: JobId)
    requires Enabled(s, step) && OneCall(s, job) && (step == Pass(job) ==> job !in s.held)
    requires (step == Begin(job) && s.active < max) || step == BeginUnclaim(job) ==> !CallOpen(s, job)
    ensures OneCall(Next(max, s, step), job)
  {
    if step.job != job {
      OtherJob(max, s, step, job);
    } else {
      OwnClaims(max, s, step);
    }
  }

  lemma {:induction false} NoOverlapIsOneCall(max: nat, steps: seq<Step>, job: JobId)
    requires Lawful(max, steps) && Truthful(max, steps) && NoOverlap(max, steps, job)
    ensures OneCall(Run(max, steps), job)
  {
    hide Next, Enabled, CallOpen, OneCall;
    if steps == [] {
      IdleIsOneCall(job);
    } else {
      var before := steps[..|steps| - 1];
      NoOverlapIsOneCall(max, before, job);
      NextIsOneCall(max, Run(max, before), steps[|steps| - 1], job);
    }
  }

  lemma IdleIsOneCall(job: JobId)
    ensures OneCall(IDLE, job)
  {
  }

  /** With the marketplace of this file every double insert is of a job two of whose calls were under way at once. */
  lemma TruthfulDoubleInsertNeedsOverlap(max: nat, steps: seq<Step>, step: Step)
    requires Lawful(max, steps) && Truthful(max, steps)
    requires step.Insert? && Enabled(Run(max, steps), step) && step.job in Run(max, steps).claimedJobs
    ensures !NoOverlap(max, steps, step.job)
  {
    hide Run, Lawful, Truthful, NoOverlap;
    if NoOverlap(max, steps, step.job) { NoOverlapIsOneCall(max, steps, step.job); }
  }

  /** Two claims of one job, both told that it is free before either is granted. */
  function TwoClaims(job: JobId): seq<Step> {
    [Begin(job), Begin(job), Pass(job), Pass(job), Grant(job), Grant(job), Insert(job), Insert(job)]
  }

  /** They lose a slot without any unclaim: one job held, two counted. */
  lemma TwoClaimsLoseASlot(max: nat, job: JobId)
    requires max >= 2
    ensures Lawful(max, TwoClaims(job)) && Truthful(max, TwoClaims(job))
    ensures Run(max, TwoClaims(job)) == IDLE.(active := 2, claimedJobs := {job}, held := {job})
    ensures DoubleInserts(max, TwoClaims(job)) == 1
  {
    hide Run, Lawful, Truthful, DoubleInserts;
    var steps := BothPass(max, job);
    steps := Extend(max, steps, Grant(job));
    steps := Extend(max, steps, Grant(job));
    assert Run(max, steps) == IDLE.(active := 2, granted := multiset{job, job}, held := {job});
    steps := Extend(max, steps, Insert(job));
    steps := Extend(max, steps, Insert(job));
    assert steps == TwoClaims(job);
  }

  lemma BothPass(max: nat, job: JobId) returns (steps: seq<Step>)
    requires max >= 2
    ensures steps == TwoClaims(job)[..4] && Lawful(max, steps) && Truthful(max, steps)
    ensures Run(max, steps) == IDLE.(active := 2, passed := multiset{job, job})
    ensures DoubleInserts(max, steps) == 0
  {
    hide Run, Lawful, Truthful, DoubleInserts, Next, Enabled;
    NoSteps(max);
    PassingStates(max, job);
    steps := Extend(max, [], Begin(job));
    steps := Extend(max, steps, Begin(job));
    steps := Extend(max, steps, Pass(job));
    steps := Extend(max, steps, Pass(job));
  }

  lemma PassingStates(max: nat, job: JobId)
    requires max >= 2
    ensures var a, b, c := IDLE.(active := 1, trying := multiset{job}),
          IDLE.(active := 2, trying := multiset{job, job}),
        IDLE.(active := 2, trying := multiset{job}, passed := multiset{job});
      && Enabled(IDLE, Begin(job)) && Next(max, IDLE, Begin(job)) == a
      && Enabled(a, Begin(job)) && Next(max, a, Begin(job)) == b
      && Enabled(b, Pass(job)) && Next(max, b, Pass(job)) == c
      && Enabled(c, Pass(job)) && Next(max, c, Pass(job)) == IDLE.(active := 2, passed := multiset{job, job})
  {
  }

  /** A claim, a whole unclaim and another claim, one after the other. */
  function OneAfterAnother(job: JobId): seq<Step> {
    [Begin(job), Pass(job), Grant(job), Insert(job), BeginUnclaim(job), Release(job), Remove(job), Decrement(job),
     Begin(job)]
  }

  /** Calls that follow one another are alone and do not overlap, so they lose no slot. */
  lemma SequentialCallsAreAlone(max: nat, job: JobId)
    requires max >= 1
    ensures var steps := OneAfterAnother(job);
            && Lawful(max, steps) && Truthful(max, steps) && ClaimsAlone(max, steps, job) && NoOverlap(max, steps, job)
            && Run(max, steps) == IDLE.(active := 1, trying := multiset{job})
  {
    hide Run, Lawful, Truthful, ClaimsAlone, NoOverlap, Next, Enabled, CallOpen;
    var steps := ClaimAlone(max, job);
    UnclaimStates(max, job);
    steps := Follow(max, steps, BeginUnclaim(job), job);
    steps := Follow(max, steps, Release(job), job);
    steps := Follow(max, steps, Remove(job), job);
    steps := Follow(max, steps, Decrement(job), job);
    steps := Follow(max, steps, Begin(job), job);
    assert steps == OneAfterAnother(job);
  }

  lemma ClaimAlone(max: nat, job: JobId) returns (steps: seq<Step>)
    requires max >= 1
    ensures steps == OneAfterAnother(job)[..4] && Lawful(max, steps) && Truthful(max, steps)
    ensures ClaimsAlone(max, steps, job) && NoOverlap(max, steps, job)
    ensures Run(max, steps) == IDLE.(active := 1, claimedJobs := {job}, held := {job})
  {
    hide Run, Lawful, Truthful, ClaimsAlone, NoOverlap, Next, Enabled, CallOpen;
    NoSteps(max);
    NobodyCalls(max, job);
    ClaimStates(max, job);
    steps := Follow(max, [], Begin(job), job);
    steps := Follow(max, steps, Pass(job), job);
    steps := Follow(max, steps, Grant(job), job);
    steps := Follow(max, steps, Insert(job), job);
  }

  lemma ClaimStates(max: nat, job: JobId)
    requires max >= 1
    ensures var a, b := IDLE.(active := 1, trying := multiset{job}), IDLE.(active := 1, passed := multiset{job});
      var c := IDLE.(active := 1, granted := multiset{job}, held := {job});
      && !CallOpen(IDLE, job) && Enabled(IDLE, Begin(job)) && Next(max, IDLE, Begin(job)) == a
      && Enabled(a, Pass(job)) && Next(max, a, Pass(job)) == b
      && Enabled(b, Grant(job)) && Next(max, b, Grant(job)) == c
      && Enabled(c, Insert(job)) && Next(max, c, Insert(job)) == IDLE.(active := 1, claimedJobs := {job}, held := {job})
  {
  }

  lemma UnclaimStates(max: nat, job: JobId)
    requires max >= 1
    ensures var c := IDLE.(active := 1, claimedJobs := {job}, held := {job});
      var d, e := c.(asking := {job}), IDLE.(active := 1, claimedJobs := {job}, released := {job});
      var f := IDLE.(active := 1, removed := {job});
      && !CallOpen(c, job) && Enabled(c, BeginUnclaim(job)) && Next(max, c, BeginUnclaim(job)) == d
      && Enabled(d, Release(job)) && Next(max, d, Release(job)) == e
      && Enabled(e, Remove(job)) && Next(max, e, Remove(job)) == f
      && Enabled(f, Decrement(job)) && Next(max, f, Decrement(job)) == IDLE
      && !CallOpen(IDLE, job) && Enabled(IDLE, Begin(job))
      && Next(max, IDLE, Begin(job)) == IDLE.(active := 1, trying := multiset{job})
  {
  }

  lemma NobodyCalls(max: nat, job: JobId)
    ensures Lawful(max, []) && ClaimsAlone(max, [], job) && NoOverlap(max, [], job)
  {
  }

  lemma Follow(max: nat, steps: seq<Step>, step: Step, job: JobId) returns (longer: seq<Step>)
    requires Lawful(max, steps) && Enabled(Run(max, steps), step) && Truthful(max, steps)
    requires ClaimsAlone(max, steps, job) && NoOverlap(max, steps, job)
    requires step.Pass? ==> step.job !in Run(max, steps).held
    requires step == Begin(job) || step == BeginUnclaim(job) ==> !CallOpen(Run(max, steps), job)
    requires step == Begin(job) ==> job !in Run(max, steps).claimedJobs
    ensures longer == steps + [step] && Lawful(max, longer) && Truthful(max, longer)
    ensures ClaimsAlone(max, longer, job) && NoOverlap(max, longer, job)
    ensures Run(max, longer) == Next(max, Run(max, steps), step)
  {
    hide Next, Enabled, CallOpen;
    longer := Extend(max, steps, step);
    assert longer[..|steps|] == steps;
  }
}
