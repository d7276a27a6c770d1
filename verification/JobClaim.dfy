/**
 Claiming jobs (src/job_claim.rs), one call at a time: the checks a job must pass, the retry loop,
 the batch and the filter that lists what could be claimed. Amounts are unbounded naturals.
 */
module JobClaim {
  import opened Common

  type JobId = string

  const PRICE_PRECISION: nat := 1000

  datatype ClaimError =
    | NodeNotRegistered
    | JobNotFound
    | JobAlreadyClaimed
    | GasPriceTooHigh
    | BelowMinimumThreshold
    | UnsupportedModel
    | InvalidJob
    | ContractError(message: string)
    | Other(message: string)

  datatype JobRequest = JobRequest(jobId: JobId, modelId: string, maxTokens: nat, paymentAmount: nat)

  datatype ClaimConfig = ClaimConfig(
    nodeAddress: string,
    maxConcurrentJobs: nat,
    claimRetryAttempts: nat,
    supportedModels: seq<string>,
    minPaymentPerToken: nat)

  type ClaimResult = Result<(), ClaimError>

  // ---------------------------------------------------------------- the checks

  function ValidateJob(c: ClaimConfig, job: JobRequest): ClaimResult {
    if c.supportedModels != [] && job.modelId !in c.supportedModels then Err(UnsupportedModel)
    else if job.maxTokens == 0 then Err(InvalidJob)
    else if job.paymentAmount * PRICE_PRECISION / job.maxTokens < c.minPaymentPerToken then Err(BelowMinimumThreshold)
    else Ok(())
  }

  predicate IsProfitable(job: JobRequest, gasCost: nat, gasPrice: nat) {
    job.paymentAmount > gasCost * gasPrice + job.paymentAmount / 10
  }

  lemma DivisionTest(a: nat, b: nat, m: nat)
    requires b > 0
    ensures a / b < m <==> a < m * b
  {
    var q := a / b;
    assert a == q * b + a % b;
    if q < m {
      assert (q + 1) * b <= m * b;
    } else {
      assert m * b <= q * b;
    }
  }

  /** The rounded price test and the rounded profit test lose nothing to the rounding. */
  lemma JobTestsAreExact(c: ClaimConfig, job: JobRequest, gasCost: nat, gasPrice: nat)
    ensures ValidateJob(c, job).Ok? <==>
      && (c.supportedModels == [] || job.modelId in c.supportedModels)
      && job.maxTokens > 0
      && job.paymentAmount * 1000 >= c.minPaymentPerToken * job.maxTokens
    ensures IsProfitable(job, gasCost, gasPrice) <==> 9 * job.paymentAmount > 10 * (gasCost * gasPrice)
  {
    if job.maxTokens > 0 {
      DivisionTest(job.paymentAmount * PRICE_PRECISION, job.maxTokens, c.minPaymentPerToken);
    }
  }

  /** What the marketplace answers during one attempt at one job. */
  datatype Answers = Answers(
    registered: bool,
    job: Option<JobRequest>,
    alreadyClaimed: bool,
    gas: Result<nat, string>,
    gasPrice: Result<nat, string>,
    claim: ClaimResult)

  /** `try_claim_job` up to the marketplace claim: the error it stops with, if it stops. */
  function Checks(c: ClaimConfig, a: Answers): ClaimResult {
    if !a.registered then Err(NodeNotRegistered)
    else if a.job.None? then Err(JobNotFound)
    else if a.alreadyClaimed then Err(JobAlreadyClaimed)
    else if ValidateJob(c, a.job.value).Err? then ValidateJob(c, a.job.value)
    else if a.gas.Err? then Err(Other(a.gas.error))
    else if a.gasPrice.Err? then Err(Other(a.gasPrice.error))
    else if !IsProfitable(a.job.value, a.gas.value, a.gasPrice.value) then Err(Other("Job not profitable"))
    else Ok(())
  }

  function TryClaim(c: ClaimConfig, a: Answers): ClaimResult {
    if Checks(c, a).Err? then Checks(c, a) else a.claim
  }

  /** The node's own record: the counter and the jobs it holds. */
  datatype Record = Record(active: int, claimedJobs: set<JobId>)

  function ClaimOutcome(c: ClaimConfig, r: Record, a: Answers): ClaimResult {
    if r.active >= c.maxConcurrentJobs then Err(Other("Max concurrent jobs reached")) else TryClaim(c, a)
  }

  function AfterClaim(r: Record, id: JobId, result: ClaimResult): Record {
    if result.Ok? then Record(r.active + 1, r.claimedJobs + {id}) else r
  }

  // ---------------------------------------------------------------- retrying

  /** The attempt settles the matter: success, or an error that is not retried. */
  predicate Settles(result: ClaimResult) {
    || result.Ok? || result == Err(NodeNotRegistered) || result == Err(JobNotFound)
    || result == Err(JobAlreadyClaimed) || result == Err(UnsupportedModel)
  }

  /**
   What a retried claim must return: the result of the first attempt that settles the matter,
   otherwise that of the last attempt allowed, and an error of its own if none is allowed.
   */
  ghost predicate IsRetryResult(c: ClaimConfig, r: Record, answers: seq<Answers>, result: ClaimResult)
    requires |answers| == c.claimRetryAttempts
  {
    if |answers| == 0 then result == Err(Other("Unknown error"))
    else exists k :: 0 <= k < |answers| && IsRetryAttempt(c, r, answers, k, result)
  }

  ghost predicate IsRetryAttempt(c: ClaimConfig, r: Record, answers: seq<Answers>, k: nat, result: ClaimResult)
    requires k < |answers|
  {
    && result == ClaimOutcome(c, r, answers[k])
    && (Settles(result) || k == |answers| - 1)
    && (forall i :: 0 <= i < k ==> !Settles(ClaimOutcome(c, r, answers[i])))
  }

  // ---------------------------------------------------------------- the filter

  /** `is_job_claimed`, `estimate_gas` and `get_gas_price` say the job can be claimed. */
  predicate Claimable(c: ClaimConfig, job: JobRequest, a: Answers) {
    && !a.alreadyClaimed
    && ValidateJob(c, job).Ok?
    && a.gas.Ok? && a.gasPrice.Ok?
    && IsProfitable(job, a.gas.value, a.gasPrice.value)
  }

  function ClaimableJobs(c: ClaimConfig, jobs: seq<JobRequest>, answers: JobId -> Answers): seq<JobRequest> {
    if jobs == [] then []
    else
      var last := jobs[|jobs| - 1];
      ClaimableJobs(c, jobs[..|jobs| - 1], answers) + if Claimable(c, last, answers(last.jobId)) then [last] else []
  }

  predicate UniqueIds(jobs: seq<JobRequest>) {
    forall i, j :: 0 <= i < j < |jobs| ==> jobs[i].jobId != jobs[j].jobId
  }

  /** The marketplace that knows exactly `jobs`: `get_job` and `get_all_jobs` agree. */
  ghost predicate Knows(jobs: seq<JobRequest>, answers: JobId -> Answers) {
    && (forall job :: job in jobs ==> answers(job.jobId).job == Some(job))
    && (forall id :: answers(id).job.Some? ==> answers(id).job.value in jobs && answers(id).job.value.jobId == id)
  }

  lemma {:induction false} ListedIffClaimable(c: ClaimConfig, jobs: seq<JobRequest>, answers: JobId -> Answers,
      job: JobRequest)
    ensures job in ClaimableJobs(c, jobs, answers) <==> job in jobs && Claimable(c, job, answers(job.jobId))
  {
    hide Claimable;
    if jobs != [] {
      ListedIffClaimable(c, jobs[..|jobs| - 1], answers, job);
      assert jobs == jobs[..|jobs| - 1] + [jobs[|jobs| - 1]];
    }
  }

  /**
   Filter agrees with action: for a registered node, the list holds a job of this id exactly when
   an attempt at the id reaches the marketplace claim; and then it is the job so attempted.
   */
  lemma FilterAgreesWithAction(c: ClaimConfig, jobs: seq<JobRequest>, answers: JobId -> Answers, id: JobId)
    requires Knows(jobs, answers) && answers(id).registered
    ensures Checks(c, answers(id)).Ok? <==> exists job :: job in ClaimableJobs(c, jobs, answers) && job.jobId == id
    ensures Checks(c, answers(id)).Ok? ==> answers(id).job.value in ClaimableJobs(c, jobs, answers)
  {
    hide ClaimableJobs, ValidateJob, IsProfitable;
    forall job
      ensures job in ClaimableJobs(c, jobs, answers) <==> job in jobs && Claimable(c, job, answers(job.jobId))
    {
      ListedIffClaimable(c, jobs, answers, job);
    }
    if Checks(c, answers(id)).Ok? {
      assert answers(id).job.value in ClaimableJobs(c, jobs, answers);
    }
  }

  /** The list repeats nothing and adds nothing. */
  lemma {:induction false} ListRepeatsNothing(c: ClaimConfig, jobs: seq<JobRequest>, answers: JobId -> Answers)
    requires UniqueIds(jobs)
    ensures UniqueIds(ClaimableJobs(c, jobs, answers))
    ensures forall job :: job in ClaimableJobs(c, jobs, answers) ==> job in jobs
  {
    hide Claimable;
    if jobs != [] {
      var before, last := jobs[..|jobs| - 1], jobs[|jobs| - 1];
      ListRepeatsNothing(c, before, answers);
      assert jobs == before + [last];
      assert forall job :: job in before ==> job.jobId != last.jobId;
      var listed := ClaimableJobs(c, before, answers);
      assert forall i :: 0 <= i < |listed| ==> listed[i] in before;
    }
  }

  // ---------------------------------------------------------------- the reference marketplace

  const MOCK_GAS: nat := 100_000
  const MOCK_GAS_PRICE: nat := 20_000_000_000

  datatype Market = Market(registeredNodes: set<string>, jobs: map<JobId, JobRequest>, claimed: set<JobId>)

  /** `MockMarketplace` as it answers this node; it grants every claim. */
  function MockAnswers(node: string, m: Market, id: JobId): Answers {
    Answers(node in m.registeredNodes, if id in m.jobs then Some(m.jobs[id]) else None, id in m.claimed,
            Ok(MOCK_GAS), Ok(MOCK_GAS_PRICE), Ok(()))
  }

  /** What the reference marketplace lets a registered node claim, in figures. */
  lemma MockClaimableIff(c: ClaimConfig, m: Market, id: JobId)
    ensures Checks(c, MockAnswers(c.nodeAddress, m, id)).Ok? <==>
      && c.nodeAddress in m.registeredNodes && id in m.jobs && id !in m.claimed
      && (c.supportedModels == [] || m.jobs[id].modelId in c.supportedModels)
      && m.jobs[id].maxTokens > 0
      && m.jobs[id].paymentAmount * 1000 >= c.minPaymentPerToken * m.jobs[id].maxTokens
      && 9 * m.jobs[id].paymentAmount > 20_000_000_000_000_000
  {
    hide ValidateJob, IsProfitable;
    if id in m.jobs { JobTestsAreExact(c, m.jobs[id], MOCK_GAS, MOCK_GAS_PRICE); }
  }

  function AllAnswers(node: string, m: Market): JobId -> Answers {
    id => MockAnswers(node, m, id)
  }

  datatype Batch = Batch(market: Market, record: Record, results: seq<ClaimResult>)

  function ClaimNext(c: ClaimConfig, b: Batch, id: JobId): Batch {
    var result := ClaimOutcome(c, b.record, MockAnswers(c.nodeAddress, b.market, id));
    Batch(if result.Ok? then b.market.(claimed := b.market.claimed + {id}) else b.market,
          AfterClaim(b.record, id, result), b.results + [result])
  }

  /** `claim_batch`: one claim after the other. */
  function BatchOutcome(c: ClaimConfig, m: Market, r: Record, ids: seq<JobId>): Batch {
    if ids == [] then Batch(m, r, [])
    else ClaimNext(c, BatchOutcome(c, m, r, ids[..|ids| - 1]), ids[|ids| - 1])
  }

  function Min(a: int, b: int): int { if a < b then a else b }

  function Room(c: ClaimConfig, r: Record): nat {
    if r.active >= c.maxConcurrentJobs then 0 else c.maxConcurrentJobs - r.active
  }

  function IdSet(ids: seq<JobId>): set<JobId> { set id | id in ids }

  /** The first `k` of `ids` are claimed and the rest refused for want of room. */
  ghost predicate ClaimsPrefix(b: Batch, m: Market, r: Record, ids: seq<JobId>, k: nat) {
    && k <= |ids| && |b.results| == |ids|
    && (forall i :: 0 <= i < |ids| ==> b.results[i] == if i < k then Ok(())
        else Err(Other("Max concurrent jobs reached")))
    && b.record == Record(r.active + k, r.claimedJobs + IdSet(ids[..k]))
    && b.market == m.(claimed := m.claimed + IdSet(ids[..k]))
  }

  lemma {:induction false} BatchClaimsAPrefix(c: ClaimConfig, m: Market, r: Record, ids: seq<JobId>)
    requires forall i, j :: 0 <= i < j < |ids| ==> ids[i] != ids[j]
    requires forall i :: 0 <= i < |ids| ==> Checks(c, MockAnswers(c.nodeAddress, m, ids[i])).Ok?
    ensures ClaimsPrefix(BatchOutcome(c, m, r, ids), m, r, ids, Min(|ids|, Room(c, r)))
  {
    hide Checks, MockAnswers, ClaimOutcome, ClaimsPrefix;
    if ids == [] {
      NothingClaimed(c, m, r);
    } else {
      var before, last := ids[..|ids| - 1], ids[|ids| - 1];
      BatchClaimsAPrefix(c, m, r, before);
      PrefixGrows(c, BatchOutcome(c, m, r, before), m, r, before, last);
      assert before + [last] == ids;
    }
  }

  lemma NothingClaimed(c: ClaimConfig, m: Market, r: Record)
    ensures ClaimsPrefix(BatchOutcome(c, m, r, []), m, r, [], 0)
  {
  }

  lemma PrefixGrows(c: ClaimConfig, b: Batch, m: Market, r: Record, ids: seq<JobId>, id: JobId)
    requires ClaimsPrefix(b, m, r, ids, Min(|ids|, Room(c, r))) && id !in ids
    requires Checks(c, MockAnswers(c.nodeAddress, m, id)).Ok?
    ensures ClaimsPrefix(ClaimNext(c, b, id), m, r, ids + [id], Min(|ids| + 1, Room(c, r)))
  {
    hide Checks;
    var k := Min(|ids|, Room(c, r));
    assert (ids + [id])[..k] == ids[..k];
    assert forall x :: x in ids[..k] ==> x in ids;
    assert MockAnswers(c.nodeAddress, b.market, id) == MockAnswers(c.nodeAddress, m, id);
    if k < Room(c, r) {
      assert k == |ids| && ids[..k] == ids && (ids + [id])[..k + 1] == ids + [id];
      assert IdSet(ids + [id]) == IdSet(ids) + {id};
    }
  }

  function Ids(jobs: seq<JobRequest>): (r: seq<JobId>)
    ensures |r| == |jobs| && forall i :: 0 <= i < |jobs| ==> r[i] == jobs[i].jobId
  {
    seq(|jobs|, i requires 0 <= i < |jobs| => jobs[i].jobId)
  }

  /** A listing of the marketplace's jobs, in whatever order its map yields them. */
  ghost predicate Lists(m: Market, jobs: seq<JobRequest>) {
    && UniqueIds(jobs)
    && (forall job :: job in jobs ==> job.jobId in m.jobs && m.jobs[job.jobId] == job)
    && (forall id :: id in m.jobs ==> m.jobs[id].jobId == id && m.jobs[id] in jobs)
  }

  /** Batch-claiming what the filter lists succeeds on exactly the first min(n, max - active) jobs. */
  lemma BatchOfListedJobs(c: ClaimConfig, m: Market, r: Record, jobs: seq<JobRequest>)
    requires c.nodeAddress in m.registeredNodes && Lists(m, jobs)
    ensures var ids := Ids(ClaimableJobs(c, jobs, AllAnswers(c.nodeAddress, m)));
      ClaimsPrefix(BatchOutcome(c, m, r, ids), m, r, ids, Min(|ids|, Room(c, r)))
  {
    hide Checks, BatchOutcome, ClaimsPrefix, ClaimableJobs;
    var answers := AllAnswers(c.nodeAddress, m);
    var listed := ClaimableJobs(c, jobs, answers);
    ListRepeatsNothing(c, jobs, answers);
    forall i | 0 <= i < |listed|
      ensures Checks(c, MockAnswers(c.nodeAddress, m, listed[i].jobId)).Ok?
    {
      assert listed[i] in listed;
      FilterAgreesWithAction(c, jobs, answers, listed[i].jobId);
      assert answers(listed[i].jobId) == MockAnswers(c.nodeAddress, m, listed[i].jobId);
    }
    BatchClaimsAPrefix(c, m, r, Ids(listed));
  }

  // ---------------------------------------------------------------- the objects

  class MockMarketplace {
    const registeredNodes: set<string>
    const jobs: map<JobId, JobRequest>
    var claimed: set<JobId>

    constructor (registeredNodes: set<string>, jobs: map<JobId, JobRequest>)
      ensures View() == Market(registeredNodes, jobs, {})
    {
      this.registeredNodes, this.jobs, this.claimed := registeredNodes, jobs, {};
    }

    function View(): Market
      reads this
    {
      Market(registeredNodes, jobs, claimed)
    }

    method Claim(id: JobId)
      modifies this
      ensures View() == old(View()).(claimed := old(claimed) + {id})
    {
      claimed := claimed + {id};
    }
  }

  class JobClaimer {
    const config: ClaimConfig
    var claimedJobs: set<JobId>
    var activeClaims: int

    constructor (config: ClaimConfig)
      ensures this.config == config && View() == Record(0, {})
    {
      this.config, claimedJobs, activeClaims := config, {}, 0;
    }

    ghost function View(): Record
      reads this
    {
      Record(activeClaims, claimedJobs)
    }

    /** `validate_job`. */
    method Validate(job: JobRequest) returns (result: ClaimResult)
      ensures result == ValidateJob(config, job)
    {
      if config.supportedModels != [] && job.modelId !in config.supportedModels {
        return Err(UnsupportedModel);
      }
      if job.maxTokens == 0 {
        return Err(InvalidJob);
      }
      var pricePerToken := job.paymentAmount * 1000 / job.maxTokens;
      if pricePerToken < config.minPaymentPerToken {
        return Err(BelowMinimumThreshold);
      }
      result := Ok(());
    }

    /** `try_claim_job`: the checks in their order, then the marketplace. */
    method TryClaimJob(a: Answers) returns (result: ClaimResult)
      ensures result == TryClaim(config, a)
    {
      hide ValidateJob;
      if !a.registered {
        return Err(NodeNotRegistered);
      }
      if a.job.None? {
        return Err(JobNotFound);
      }
      if a.alreadyClaimed {
        return Err(JobAlreadyClaimed);
      }
      var valid := Validate(a.job.value);
      if valid.Err? {
        return valid;
      }
      if a.gas.Err? {
        return Err(Other(a.gas.error));
      }
      if a.gasPrice.Err? {
        return Err(Other(a.gasPrice.error));
      }
      var payment := a.job.value.paymentAmount;
      if payment <= a.gas.value * a.gasPrice.value + payment / 10 {
        return Err(Other("Job not profitable"));
      }
      result := a.claim;
    }

    /** `claim_job`: count first, and uncount if the attempt fails. */
    method ClaimJob(id: JobId, answers: Answers) returns (result: ClaimResult)
      modifies this
      ensures result == ClaimOutcome(config, old(View()), answers)
      ensures View() == AfterClaim(old(View()), id, result)
      ensures activeClaims == old(activeClaims) + if result.Ok? then 1 else 0
    {
      if activeClaims >= config.maxConcurrentJobs {
        return Err(Other("Max concurrent jobs reached"));
      }
      activeClaims := activeClaims + 1;
      result := TryClaimJob(answers);
      if result.Ok? {
        claimedJobs := claimedJobs + {id};
      } else {
        activeClaims := activeClaims - 1;
      }
    }

    /** `claim_job_with_retry`, run alone: one more active claim on success, nothing changed on failure. */
    method ClaimJobWithRetry(id: JobId, answers: seq<Answers>) returns (result: ClaimResult)
      requires |answers| == config.claimRetryAttempts
      modifies this
      ensures IsRetryResult(config, old(View()), answers, result)
      ensures View() == AfterClaim(old(View()), id, result)
      ensures activeClaims == old(activeClaims) + if result.Ok? then 1 else 0
    {
      var attempts, lastError := 0, None;
      while attempts < config.claimRetryAttempts
        invariant attempts <= |answers| && View() == old(View())
        invariant forall i :: 0 <= i < attempts ==> !Settles(ClaimOutcome(config, old(View()), answers[i]))
        invariant attempts == 0 ==> lastError.None?
        invariant attempts > 0 ==>
                lastError.Some? && ClaimOutcome(config, old(View()), answers[attempts - 1]) == Err(lastError.value)
      {
        result := this.ClaimJob(id, answers[attempts]);
        if result.Ok? {
          assert IsRetryAttempt(config, old(View()), answers, attempts, result);
          return;
        }
        lastError := Some(result.error);
        match result.error
        case NodeNotRegistered | JobNotFound | JobAlreadyClaimed | UnsupportedModel =>
          assert IsRetryAttempt(config, old(View()), answers, attempts, result);
          return;
        case _ =>
        attempts := attempts + 1;
      }
      result := Err(if lastError.Some? then lastError.value else Other("Unknown error"));
      if attempts > 0 {
        assert IsRetryAttempt(config, old(View()), answers, attempts - 1, result);
      }
    }

    method ClaimBatch(market: MockMarketplace, ids: seq<JobId>) returns (results: seq<ClaimResult>)
      modifies this, market
      ensures Batch(market.View(), View(), results) == BatchOutcome(config, old(market.View()), old(View()), ids)
    {
      results := [];
      for i := 0 to |ids|
        invariant Batch(market.View(), View(), results)
              == BatchOutcome(config, old(market.View()), old(View()), ids[..i])
      {
        assert ids[..i + 1][..i] == ids[..i];
        var result := this.ClaimJob(ids[i], MockAnswers(config.nodeAddress, market.View(), ids[i]));
        if result.Ok? {
          market.Claim(ids[i]);
        }
        results := results + [result];
      }
      assert ids[..|ids|] == ids;
    }

    method GetClaimableJobs(jobs: seq<JobRequest>, answers: JobId -> Answers) returns (listed: seq<JobRequest>)
      ensures listed == ClaimableJobs(config, jobs, answers)
    {
      listed := [];
      for i := 0 to |jobs|
        invariant listed == ClaimableJobs(config, jobs[..i], answers)
      {
        assert jobs[..i + 1][..i] == jobs[..i];
        var job := jobs[i];
        var a := answers(job.jobId);
        if !a.alreadyClaimed && ValidateJob(config, job).Ok? && a.gas.Ok? && a.gasPrice.Ok? {
          if IsProfitable(job, a.gas.value, a.gasPrice.value) {
            listed := listed + [job];
          }
        }
      }
      assert jobs[..|jobs|] == jobs;
    }

    /** `unclaim_job`: nothing changes if the marketplace refuses. */
    method UnclaimJob(id: JobId, answer: ClaimResult) returns (result: ClaimResult)
      modifies this
      ensures result == answer
      ensures View() == if answer.Ok? then Record(old(activeClaims) - 1, old(claimedJobs) - {id}) else old(View())
    {
      if answer.Ok? {
        claimedJobs := claimedJobs - {id};
        activeClaims := activeClaims - 1;
      }
      result := answer;
    }
  }
}
