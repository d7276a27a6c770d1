/**
 Payments (src/payment_claim.rs): splitting an amount, accumulating jobs and claiming them
 together, and the statistics. The payment system may answer anything; what an honest one and the
 reference one of that file come to is stated apart. Amounts are unbounded naturals.
 */
module Payment {
  import opened Common

  type JobId = string

  const BASIS: nat := 10_000
  const U256_MAX: nat := 0xFFFFFFFF_FFFFFFFF_FFFFFFFF_FFFFFFFF_FFFFFFFF_FFFFFFFF_FFFFFFFF_FFFFFFFF

  // ---------------------------------------------------------------- splitting

  /** Shares in hundredths of a percent; the constructor insists on the sum. */
  datatype Splitter = Splitter(host: nat, treasury: nat, stakers: nat) {
    predicate Valid() { host + treasury + stakers == BASIS }
  }

  const DEFAULT_SPLITTER := Splitter(8500, 1000, 500)

  function CalculateSplits(s: Splitter, amount: nat): (nat, nat, nat) {
    (amount * s.host / BASIS, amount * s.treasury / BASIS, amount * s.stakers / BASIS)
  }

  /** The three shares lose at most two units, and none exactly when every share is whole. */
  lemma SplitsConserve(s: Splitter, amount: nat)
    requires s.Valid()
    ensures var (h, t, k) := CalculateSplits(s, amount); amount - 2 <= h + t + k <= amount
    ensures var (h, t, k) := CalculateSplits(s, amount);
      h + t + k == amount <==>
          amount * s.host % BASIS == 0 && amount * s.treasury % BASIS == 0 && amount * s.stakers % BASIS == 0
  {
    var (h, t, k) := CalculateSplits(s, amount);
    var a, b, c := amount * s.host, amount * s.treasury, amount * s.stakers;
    assert a + b + c == amount * BASIS by {
      assert amount * (s.host + s.treasury + s.stakers) == a + b + c;
    }
    assert BASIS * (h + t + k) == amount * BASIS - (a % BASIS + b % BASIS + c % BASIS);
  }

  /** Each share is the floor of its own percentage of the amount. */
  lemma SharesAreFloors(s: Splitter, amount: nat)
    ensures var (h, t, k) := CalculateSplits(s, amount);
      && h * 10000 <= amount * s.host < (h + 1) * 10000
      && t * 10000 <= amount * s.treasury < (t + 1) * 10000
      && k * 10000 <= amount * s.stakers < (k + 1) * 10000
  {
  }

  /** The default host share is 85 percent, rounded down. */
  lemma HostShareIs85Percent(amount: nat)
    ensures HostShare(amount) * 10000 <= amount * 8500 < (HostShare(amount) + 1) * 10000
    ensures DEFAULT_SPLITTER.Valid() && DEFAULT_SPLITTER.treasury == 1000 && DEFAULT_SPLITTER.stakers == 500
  {
    SharesAreFloors(DEFAULT_SPLITTER, amount);
  }

  function HostShare(amount: nat): nat {
    CalculateSplits(DEFAULT_SPLITTER, amount).0
  }

  // ---------------------------------------------------------------- statistics

  datatype Stats = Stats(totalJobsPaid: nat, totalEarned: nat, averagePayment: nat, largestPayment: nat,
      smallestPayment: nat)

  const NO_STATS := Stats(0, 0, 0, 0, U256_MAX)

  function Mean(sum: nat, n: nat): nat
    requires n > 0
  {
    sum / n
  }

  function UpdateStatistics(s: Stats, amount: nat): Stats {
    Stats(
      s.totalJobsPaid + 1,
      s.totalEarned + amount,
      Mean(s.totalEarned + amount, s.totalJobsPaid + 1),
      if amount > s.largestPayment then amount else s.largestPayment,
      if amount < s.smallestPayment then amount else s.smallestPayment)
  }

  function StatsOf(payments: seq<nat>): Stats {
    if payments == [] then NO_STATS
    else UpdateStatistics(StatsOf(payments[..|payments| - 1]), payments[|payments| - 1])
  }

  function Sum(xs: seq<nat>): nat {
    if xs == [] then 0 else Sum(xs[..|xs| - 1]) + xs[|xs| - 1]
  }

  /** `average` is sum / n, rounded down. */
  ghost predicate IsFloorOfMean(average: nat, sum: nat, n: nat) {
    average * n <= sum < average * n + n
  }

  lemma MeanIsFloor(sum: nat, n: nat)
    requires n > 0
    ensures IsFloorOfMean(Mean(sum, n), sum, n)
  {
    assert sum == sum / n * n + sum % n;
  }

  /** The largest amount is 2^256 - 1. */
  lemma LargestAmount()
    ensures var word := 0x1_0000_0000_0000_0000;
            U256_MAX + 1 == word * word * word * word
  {
  }

  /** The statistics are those of the payments: their number, sum, mean, maximum and minimum. */
  ghost predicate Describes(s: Stats, payments: seq<nat>) {
    && s.totalJobsPaid == |payments| && s.totalEarned == Sum(payments)
    && (payments != [] ==> IsFloorOfMean(s.averagePayment, Sum(payments), |payments|))
    && (payments == [] ==> s.averagePayment == 0 && s.largestPayment == 0 && s.smallestPayment == U256_MAX)
    && (payments != [] ==> s.smallestPayment in payments && s.largestPayment in payments)
    && AllBetween(payments, s.smallestPayment, s.largestPayment)
  }

  ghost predicate AllBetween(xs: seq<nat>, low: nat, high: nat) {
    forall i :: 0 <= i < |xs| ==> low <= xs[i] <= high
  }

  lemma {:induction false} SumIsBetween(xs: seq<nat>, low: nat, high: nat)
    requires AllBetween(xs, low, high)
    ensures |xs| * low <= Sum(xs) <= |xs| * high
  {
    if xs != [] {
      SumIsBetween(xs[..|xs| - 1], low, high);
      Distributes(|xs| - 1, 0, low);
      Distributes(|xs| - 1, 0, high);
    }
  }

  lemma QuotientIsBetween(sum: nat, n: nat, low: nat, high: nat)
    requires n > 0 && n * low <= sum <= n * high
    ensures low <= Mean(sum, n) <= high
  {
    var q := Mean(sum, n);
    assert sum == q * n + sum % n;
    Spaced(q, low, n);
    Spaced(high, q, n);
  }

  lemma Spaced(a: nat, b: nat, n: nat)
    ensures a < b ==> a * n + n <= b * n
  {
    if a < b {
      var d: nat := b - a - 1;
      Distributes(a, d, n);
    }
  }

  lemma Distributes(a: nat, d: nat, n: nat)
    ensures (a + 1 + d) * n == a * n + n + d * n && d * n >= 0
  {
  }

  lemma ExtremesAreKept(s: Stats, payments: seq<nat>, amount: nat)
    requires amount <= U256_MAX && Describes(s, payments) && (payments == [] ==> s == NO_STATS)
    ensures Describes(UpdateStatistics(s, amount), payments + [amount])
  {
    hide Mean;
    var all, after := payments + [amount], UpdateStatistics(s, amount);
    MeanIsFloor(s.totalEarned + amount, s.totalJobsPaid + 1);
    assert all[..|payments|] == payments && all[|payments|] == amount;
    hide Sum;
    forall i | 0 <= i < |all|
      ensures after.smallestPayment <= all[i] <= after.largestPayment
    {
      if i < |payments| { assert all[i] == payments[i]; }
    }
  }

  /** Over any payments the statistics describe them, and smallest <= average <= largest. */
  lemma {:induction false} StatisticsDescribe(payments: seq<nat>)
    requires AllBetween(payments, 0, U256_MAX)
    ensures Describes(StatsOf(payments), payments)
    ensures payments != [] ==>
      StatsOf(payments).smallestPayment <= StatsOf(payments).averagePayment <= StatsOf(payments).largestPayment
  {
    if payments != [] {
      var before, last := payments[..|payments| - 1], payments[|payments| - 1];
      assert payments == before + [last];
      assert AllBetween(before, 0, U256_MAX) && last <= U256_MAX;
      StatisticsDescribe(before);
      hide Mean, Sum, UpdateStatistics, AllBetween;
      var s := StatsOf(payments);
      ExtremesAreKept(StatsOf(before), before, last);
      SumIsBetween(payments, s.smallestPayment, s.largestPayment);
      QuotientIsBetween(Sum(payments), |payments|, s.smallestPayment, s.largestPayment);
    }
  }

  // ---------------------------------------------------------------- one claim

  datatype PaymentError =
    | JobNotPayable
    | NoEscrowBalance
    | BelowMinimumThreshold
    | WithdrawalFailed
    | InsufficientBalance
    | ContractError(message: string)
    | Other(message: string)

  datatype Config = Config(
    minClaimAmount: nat,
    maxGasPrice: nat,
    enableAccumulation: bool,
    accumulationThreshold: nat,
    trackStats: bool)

  /** What the payment system answers during one claim. */
  datatype Answers = Answers(
    payable: bool,
    escrow: Option<nat>,
    gas: Result<nat, string>,
    gasPrice: Result<nat, string>,
    payment: Result<nat, PaymentError>)

  function ClaimOutcome(c: Config, a: Answers): Result<nat, PaymentError> {
    if !a.payable then Err(JobNotPayable)
    else if a.escrow.None? then Err(NoEscrowBalance)
    else
      var share := HostShare(a.escrow.value);
      if share < c.minClaimAmount then Err(BelowMinimumThreshold)
      else if a.gas.Err? then Err(Other(a.gas.error))
      else if a.gasPrice.Err? then Err(Other(a.gasPrice.error))
      else if a.gasPrice.value > c.maxGasPrice || share <= a.gas.value * a.gasPrice.value
      then Err(Other("Not profitable after gas costs"))
      else a.payment
  }

  datatype Paid = Paid(id: JobId, amount: nat)

  /** The payments received, the accumulator and the statistics. */
  datatype World = World(paid: seq<Paid>, accumulatedJobs: seq<JobId>, accumulatedAmount: nat, stats: Stats)

  const NEW_WORLD := World([], [], 0, NO_STATS)

  function AfterClaim(c: Config, w: World, id: JobId, outcome: Result<nat, PaymentError>): World {
    if outcome.Err? then w
    else w.(
      paid := w.paid + [Paid(id, outcome.value)],
      stats := if c.trackStats then UpdateStatistics(w.stats, outcome.value) else w.stats)
  }

  // ---------------------------------------------------------------- the accumulator

  function AddToAccumulator(c: Config, w: World, id: JobId, escrow: Option<nat>): World {
    if c.enableAccumulation && escrow.Some?
    then w.(accumulatedJobs := w.accumulatedJobs + [id],
        accumulatedAmount := w.accumulatedAmount + HostShare(escrow.value))
    else w
  }

  /** The claims of a list of jobs in turn; `answers` gives what each of them meets. */
  function ClaimAll(c: Config, w: World, jobs: seq<JobId>, answers: nat -> Answers): World {
    if jobs == [] then w
    else
      var n := |jobs| - 1;
      AfterClaim(c, ClaimAll(c, w, jobs[..n], answers), jobs[n], ClaimOutcome(c, answers(n)))
  }

  predicate CanClaimAccumulated(c: Config, w: World) {
    w.accumulatedJobs != [] && w.accumulatedAmount >= c.accumulationThreshold
  }

  function ClaimAccumulated(c: Config, w: World, answers: nat -> Answers): World {
    if CanClaimAccumulated(c, w)
    then ClaimAll(c, w, w.accumulatedJobs, answers).(accumulatedJobs := [], accumulatedAmount := 0)
    else w
  }

  // ---------------------------------------------------------------- runs, with any payment system

  datatype Op =
    | Add(id: JobId, escrow: Option<nat>)
    | Claim(id: JobId, answers: Answers)
    | ClaimTogether(all: nat -> Answers)

  function Next(c: Config, w: World, op: Op): World {
    match op
    case Add(id, escrow) => AddToAccumulator(c, w, id, escrow)
    case Claim(id, a) => AfterClaim(c, w, id, ClaimOutcome(c, a))
    case ClaimTogether(all) => ClaimAccumulated(c, w, all)
  }

  function Run(c: Config, ops: seq<Op>): World {
    if ops == [] then NEW_WORLD else Next(c, Run(c, ops[..|ops| - 1]), ops[|ops| - 1])
  }

  /** The jobs added since they were last claimed together, with their host shares at the time. */
  function Pending(c: Config, ops: seq<Op>): seq<Paid> {
    if ops == [] then []
    else
      var before, op := ops[..|ops| - 1], ops[|ops| - 1];
      match op
      case Add(id, escrow) =>
        Pending(c, before) + if c.enableAccumulation && escrow.Some? then [Paid(id, HostShare(escrow.value))] else []
      case Claim(_, _) => Pending(c, before)
      case ClaimTogether(_) => if CanClaimAccumulated(c, Run(c, before)) then [] else Pending(c, before)
  }

  function Ids(ps: seq<Paid>): (r: seq<JobId>)
    ensures |r| == |ps| && forall i :: 0 <= i < |ps| ==> r[i] == ps[i].id
  {
    seq(|ps|, i requires 0 <= i < |ps| => ps[i].id)
  }

  function Amounts(ps: seq<Paid>): (r: seq<nat>)
    ensures |r| == |ps| && forall i :: 0 <= i < |ps| ==> r[i] == ps[i].amount
  {
    seq(|ps|, i requires 0 <= i < |ps| => ps[i].amount)
  }

  function Total(ps: seq<Paid>): nat {
    Sum(Amounts(ps))
  }

  lemma OfMore(ps: seq<Paid>, p: Paid)
    ensures Ids(ps + [p]) == Ids(ps) + [p.id] && Amounts(ps + [p]) == Amounts(ps) + [p.amount]
    ensures Total(ps + [p]) == Total(ps) + p.amount
  {
    var xs := Amounts(ps);
    assert Amounts(ps + [p]) == xs + [p.amount];
    assert (xs + [p.amount])[..|xs|] == xs;
  }

  /**
   The books balance: the accumulator is its pending jobs and the sum of their shares, the statistics
   are those of the payments.
   */
  ghost predicate Balanced(c: Config, w: World, pending: seq<Paid>) {
    && w.accumulatedJobs == Ids(pending) && w.accumulatedAmount == Total(pending)
    && w.stats == (if c.trackStats then StatsOf(Amounts(w.paid)) else NO_STATS)
  }

  lemma ClaimBalances(c: Config, w: World, id: JobId, outcome: Result<nat, PaymentError>, pending: seq<Paid>)
    requires Balanced(c, w, pending)
    ensures Balanced(c, AfterClaim(c, w, id, outcome), pending)
  {
    hide Total, Ids, UpdateStatistics, StatsOf;
    if outcome.Ok? {
      OfMore(w.paid, Paid(id, outcome.value));
      StatsOfMore(Amounts(w.paid), outcome.value);
    }
  }

  lemma StatsOfMore(payments: seq<nat>, amount: nat)
    ensures StatsOf(payments + [amount]) == UpdateStatistics(StatsOf(payments), amount)
  {
    assert (payments + [amount])[..|payments|] == payments;
  }

  lemma {:induction false} ClaimAllBalances(c: Config, w: World, jobs: seq<JobId>, answers: nat -> Answers,
      pending: seq<Paid>)
    requires Balanced(c, w, pending)
    ensures Balanced(c, ClaimAll(c, w, jobs, answers), pending)
  {
    hide Balanced, AfterClaim, ClaimOutcome;
    if jobs != [] {
      var n := |jobs| - 1;
      ClaimAllBalances(c, w, jobs[..n], answers, pending);
      ClaimBalances(c, ClaimAll(c, w, jobs[..n], answers), jobs[n], ClaimOutcome(c, answers(n)), pending);
    }
  }

  /** Whatever the payment system answers, every run balances. */
  lemma {:induction false} EveryRunBalances(c: Config, ops: seq<Op>)
    ensures Balanced(c, Run(c, ops), Pending(c, ops))
  {
    hide AfterClaim, ClaimOutcome, ClaimAll, HostShare, StatsOf, Ids, Total;
    if ops == [] {
      NothingBalances(c);
    } else {
      var before, op := ops[..|ops| - 1], ops[|ops| - 1];
      var w, pending := Run(c, before), Pending(c, before);
      EveryRunBalances(c, before);
      match op
      case Add(id, escrow) =>
        if escrow.Some? { OfMore(pending, Paid(id, HostShare(escrow.value))); }
        assert pending + [] == pending;
      case Claim(id, a) => ClaimBalances(c, w, id, ClaimOutcome(c, a), pending);
      case ClaimTogether(all) =>
        ClaimAllBalances(c, w, w.accumulatedJobs, all, pending);
        NothingBalances(c);
    }
  }

  lemma NothingBalances(c: Config)
    ensures Balanced(c, NEW_WORLD, []) && Ids([]) == [] && Total([]) == 0
  {
  }

  /**
   In every run that tracks statistics they describe the payments received; once there is one,
   smallest <= average <= largest.
   */
  lemma RunStatisticsDescribe(c: Config, ops: seq<Op>)
    requires c.trackStats && AllBetween(Amounts(Run(c, ops).paid), 0, U256_MAX)
    ensures var w := Run(c, ops);
      && Describes(w.stats, Amounts(w.paid)) && w.stats.totalEarned == Total(w.paid)
      && (w.paid != [] ==> w.stats.smallestPayment <= w.stats.averagePayment <= w.stats.largestPayment)
  {
    hide Run, StatsOf, Pending, Ids;
    EveryRunBalances(c, ops);
    StatisticsDescribe(Amounts(Run(c, ops).paid));
  }

  // ---------------------------------------------------------------- an honest payment system

  type Escrow = map<JobId, nat>

  function BalanceOf(e: Escrow, id: JobId): Option<nat> {
    if id in e then Some(e[id]) else None
  }

  function Share(e: Escrow, id: JobId): nat {
    if id in e then HostShare(e[id]) else 0
  }

  /** The escrow is as it was, a job already paid is not payable, and a payment is at most the host share. */
  predicate Honest(e: Escrow, w: World, id: JobId, a: Answers) {
    && a.escrow == BalanceOf(e, id)
    && (a.payable ==> id !in Ids(w.paid))
    && (a.payment.Ok? ==> a.payment.value <= Share(e, id))
  }

  predicate HonestAll(c: Config, e: Escrow, w: World, jobs: seq<JobId>, answers: nat -> Answers) {
    jobs == [] ||
    (var n := |jobs| - 1;
     HonestAll(c, e, w, jobs[..n], answers) && Honest(e, ClaimAll(c, w, jobs[..n], answers), jobs[n], answers(n)))
  }

  predicate HonestStep(c: Config, e: Escrow, w: World, op: Op) {
    match op
    case Add(id, escrow) => escrow == BalanceOf(e, id)
    case Claim(id, a) => Honest(e, w, id, a)
    case ClaimTogether(all) => HonestAll(c, e, w, w.accumulatedJobs, all)
  }

  predicate HonestRun(c: Config, e: Escrow, ops: seq<Op>) {
    ops == [] ||
    (HonestRun(c, e, ops[..|ops| - 1]) && HonestStep(c, e, Run(c, ops[..|ops| - 1]), ops[|ops| - 1]))
  }

  ghost predicate NoRepeats(jobs: seq<JobId>) {
    forall i, j :: 0 <= i < j < |jobs| ==> jobs[i] != jobs[j]
  }

  /** No job is paid twice, and none more than its host share. */
  ghost predicate PaidOnce(e: Escrow, ps: seq<Paid>) {
    NoRepeats(Ids(ps)) && forall i :: 0 <= i < |ps| ==> ps[i].amount <= Share(e, ps[i].id)
  }

  lemma ClaimPaysOnce(c: Config, e: Escrow, w: World, id: JobId, a: Answers)
    requires PaidOnce(e, w.paid) && Honest(e, w, id, a)
    ensures PaidOnce(e, AfterClaim(c, w, id, ClaimOutcome(c, a)).paid)
  {
    hide UpdateStatistics, HostShare, Share;
    if ClaimOutcome(c, a).Ok? { OfMore(w.paid, Paid(id, a.payment.value)); }
  }

  function TotalShare(e: Escrow, jobs: seq<JobId>): nat {
    if jobs == [] then 0 else TotalShare(e, jobs[..|jobs| - 1]) + Share(e, jobs[|jobs| - 1])
  }

  /** The payments that joined are of the jobs listed. */
  ghost predicate Receives(before: seq<Paid>, after: seq<Paid>, jobs: seq<JobId>) {
    before <= after && forall i :: |before| <= i < |after| ==> after[i].id in jobs
  }

  lemma ReceivesMore(a: seq<Paid>, b: seq<Paid>, c: seq<Paid>, jobs: seq<JobId>, id: JobId)
    requires Receives(a, b, jobs) && Receives(b, c, [id])
    ensures Receives(a, c, jobs + [id])
  {
    assert forall i :: 0 <= i < |b| ==> c[i] == b[i];
  }

  /** Claiming a list: each payment appended, once and within the shares of the list. */
  lemma {:induction false} ClaimAllIsBounded(c: Config, e: Escrow, w: World, jobs: seq<JobId>, answers: nat -> Answers)
    requires PaidOnce(e, w.paid) && HonestAll(c, e, w, jobs, answers)
    ensures var after := ClaimAll(c, w, jobs, answers);
      && PaidOnce(e, after.paid) && Receives(w.paid, after.paid, jobs)
      && Total(after.paid) <= Total(w.paid) + TotalShare(e, jobs)
  {
    hide PaidOnce, Share, Total, Honest, AfterClaim, ClaimOutcome, Receives;
    if jobs == [] {
      ReceivesNothing(w.paid);
    } else {
      var n := |jobs| - 1;
      var mid := ClaimAll(c, w, jobs[..n], answers);
      assert jobs == jobs[..n] + [jobs[n]];
      ClaimAllIsBounded(c, e, w, jobs[..n], answers);
      ClaimIsBounded(c, e, mid, jobs[n], answers(n));
      ReceivesMore(w.paid, mid.paid, ClaimAll(c, w, jobs, answers).paid, jobs[..n], jobs[n]);
    }
  }

  lemma ReceivesNothing(ps: seq<Paid>)
    ensures Receives(ps, ps, [])
  {
  }

  lemma ClaimIsBounded(c: Config, e: Escrow, w: World, id: JobId, a: Answers)
    requires PaidOnce(e, w.paid) && Honest(e, w, id, a)
    ensures var after := AfterClaim(c, w, id, ClaimOutcome(c, a));
      && PaidOnce(e, after.paid) && Receives(w.paid, after.paid, [id])
      && Total(after.paid) <= Total(w.paid) + Share(e, id)
  {
    hide PaidOnce, Share, Total, HostShare, UpdateStatistics;
    ClaimPaysOnce(c, e, w, id, a);
    if ClaimOutcome(c, a).Ok? { OfMore(w.paid, Paid(id, a.payment.value)); }
  }

  /**
   With an honest system, no run pays a job twice or more than its share, and the accumulator is the
   sum of its jobs' shares.
   */
  lemma {:induction false} HonestRunsPayOnce(c: Config, e: Escrow, ops: seq<Op>)
    requires HonestRun(c, e, ops)
    ensures PaidOnce(e, Run(c, ops).paid)
    ensures Run(c, ops).accumulatedAmount == TotalShare(e, Run(c, ops).accumulatedJobs)
  {
    hide PaidOnce, ClaimAll, AfterClaim, Honest, HonestAll, ClaimOutcome, HostShare;
    if ops == [] {
      NobodyPaid(e);
    } else {
      var before, op := ops[..|ops| - 1], ops[|ops| - 1];
      var w := Run(c, before);
      HonestRunsPayOnce(c, e, before);
      match op
      case Add(id, escrow) =>
        assert (w.accumulatedJobs + [id])[..|w.accumulatedJobs|] == w.accumulatedJobs;
      case Claim(id, a) =>
        ClaimPaysOnce(c, e, w, id, a);
        ClaimKeepsAccumulator(c, w, id, ClaimOutcome(c, a));
      case ClaimTogether(all) =>
        ClaimAllIsBounded(c, e, w, w.accumulatedJobs, all);
    }
  }

  lemma NobodyPaid(e: Escrow)
    ensures PaidOnce(e, [])
  {
  }

  lemma ClaimKeepsAccumulator(c: Config, w: World, id: JobId, outcome: Result<nat, PaymentError>)
    ensures var after := AfterClaim(c, w, id, outcome);
      after.accumulatedJobs == w.accumulatedJobs && after.accumulatedAmount == w.accumulatedAmount
  {
  }

  /**
   In every run with an honest system a claim of the accumulated jobs receives at most the
   accumulated amount, from accumulated jobs never paid before.
   */
  lemma AccumulatedClaimIsBounded(c: Config, e: Escrow, ops: seq<Op>, answers: nat -> Answers)
    requires HonestRun(c, e, ops + [ClaimTogether(answers)]) && CanClaimAccumulated(c, Run(c, ops))
    ensures var w := Run(c, ops);
      var after := ClaimAccumulated(c, w, answers);
      && Receives(w.paid, after.paid, w.accumulatedJobs) && PaidOnce(e, after.paid)
      && 0 <= Total(after.paid) - Total(w.paid) <= w.accumulatedAmount
      && after.accumulatedJobs == [] && after.accumulatedAmount == 0
  {
    hide Run, PaidOnce, ClaimAll, HonestAll, Total, TotalShare;
    assert (ops + [ClaimTogether(answers)])[..|ops|] == ops;
    var w := Run(c, ops);
    HonestRunsPayOnce(c, e, ops);
    ClaimAllIsBounded(c, e, w, w.accumulatedJobs, answers);
    TotalGrows(w.paid, ClaimAll(c, w, w.accumulatedJobs, answers).paid);
  }

  lemma {:induction false} TotalGrows(ps: seq<Paid>, qs: seq<Paid>)
    requires ps <= qs
    ensures Total(ps) <= Total(qs)
    decreases |qs|
  {
    hide Total;
    if ps != qs {
      var n := |qs| - 1;
      assert qs == qs[..n] + [qs[n]];
      TotalGrows(ps, qs[..n]);
      OfMore(qs[..n], qs[n]);
    }
  }

  // ---------------------------------------------------------------- the reference payment system

  const GAS: nat := 100_000
  const GAS_PRICE: nat := 20_000_000_000

  /** A job is payable once it is completed, in escrow and not yet paid, and pays its host share. */
  function ReferenceAnswers(e: Escrow, completed: set<JobId>, w: World, id: JobId): Answers {
    Answers(id in completed && id !in Ids(w.paid) && id in e, BalanceOf(e, id), Ok(GAS), Ok(GAS_PRICE),
            if id in e then Ok(Share(e, id)) else Err(NoEscrowBalance))
  }

  lemma ReferenceIsHonest(e: Escrow, completed: set<JobId>, w: World, id: JobId)
    ensures Honest(e, w, id, ReferenceAnswers(e, completed, w, id))
  {
  }

  /** Every claim of the list is answered by the reference system as it then is. */
  /** What the reference system pays: a completed job in escrow that is not yet paid, if its share covers all costs. */
  lemma ReferencePays(c: Config, e: Escrow, completed: set<JobId>, w: World, id: JobId)
    ensures Claimable(c, e, completed, w, id) <==>
      && id in completed && id in e && id !in Ids(w.paid)
      && HostShare(e[id]) >= c.minClaimAmount
      && c.maxGasPrice >= 20_000_000_000 && HostShare(e[id]) > 2_000_000_000_000_000
    ensures Claimable(c, e, completed, w, id) ==>
      ClaimOutcome(c, ReferenceAnswers(e, completed, w, id)) == Ok(HostShare(e[id]))
  {
    hide HostShare;
  }

  predicate ByReference(c: Config, e: Escrow, completed: set<JobId>, w: World, jobs: seq<JobId>,
      answers: nat -> Answers) {
    jobs == [] ||
    (var n := |jobs| - 1;
     && ByReference(c, e, completed, w, jobs[..n], answers)
     && answers(n) == ReferenceAnswers(e, completed, ClaimAll(c, w, jobs[..n], answers), jobs[n]))
  }

  /** A list claimed from the reference system is claimed from an honest one. */
  lemma {:induction false} ByReferenceIsHonest(c: Config, e: Escrow, completed: set<JobId>, w: World, jobs: seq<JobId>,
      answers: nat -> Answers)
    requires ByReference(c, e, completed, w, jobs, answers)
    ensures HonestAll(c, e, w, jobs, answers)
  {
    hide ClaimAll, Honest, ReferenceAnswers;
    if jobs != [] {
      var n := |jobs| - 1;
      ByReferenceIsHonest(c, e, completed, w, jobs[..n], answers);
      ReferenceIsHonest(e, completed, ClaimAll(c, w, jobs[..n], answers), jobs[n]);
    }
  }

  predicate Claimable(c: Config, e: Escrow, completed: set<JobId>, w: World, id: JobId) {
    ClaimOutcome(c, ReferenceAnswers(e, completed, w, id)).Ok?
  }

  /** The jobs of the list that are paid when the list is claimed in order. */
  function PaidBy(c: Config, e: Escrow, completed: set<JobId>, w: World, jobs: seq<JobId>): seq<Paid> {
    if jobs == [] then []
    else
      WithPayment(c, e, completed, w, PaidBy(c, e, completed, w, jobs[..|jobs| - 1]), jobs[|jobs| - 1])
  }

  /** Each of the jobs listed that can be claimed, once, and no other. */
  ghost predicate PaysExactly(c: Config, e: Escrow, completed: set<JobId>, w: World, jobs: seq<JobId>,
      paid: seq<Paid>) {
    && NoRepeats(Ids(paid))
    && (forall id :: id in Ids(paid) <==> id in jobs && Claimable(c, e, completed, w, id))
    && (forall i :: 0 <= i < |paid| ==> paid[i].amount == Share(e, paid[i].id))
  }

  /**
   With the reference system exactly the jobs that could be claimed to begin with are paid their
   share, each once, however often listed.
   */
  lemma {:induction false} ClaimAllPaysOnce(c: Config, e: Escrow, completed: set<JobId>, w: World, jobs: seq<JobId>,
      answers: nat -> Answers)
    requires ByReference(c, e, completed, w, jobs, answers)
    ensures ClaimAll(c, w, jobs, answers).paid == w.paid + PaidBy(c, e, completed, w, jobs)
    ensures PaysExactly(c, e, completed, w, jobs, PaidBy(c, e, completed, w, jobs))
  {
    hide Claimable, ReferenceAnswers, AfterClaim, ClaimOutcome, Share, NoRepeats, Ids, PaysExactly, WithPayment;
    if jobs == [] {
      NobodyListed(c, e, completed, w);
    } else {
      var n := |jobs| - 1;
      var before := PaidBy(c, e, completed, w, jobs[..n]);
      assert jobs == jobs[..n] + [jobs[n]];
      ClaimAllPaysOnce(c, e, completed, w, jobs[..n], answers);
      PaysMore(c, e, completed, w, ClaimAll(c, w, jobs[..n], answers), before, jobs[n]);
      PaysExactlyMore(c, e, completed, w, jobs[..n], before, jobs[n]);
    }
  }

  lemma NobodyListed(c: Config, e: Escrow, completed: set<JobId>, w: World)
    ensures PaysExactly(c, e, completed, w, [], [])
  {
  }

  function WithPayment(c: Config, e: Escrow, completed: set<JobId>, w: World, before: seq<Paid>, id: JobId): seq<Paid> {
    if Claimable(c, e, completed, w, id) && id !in Ids(before) then before + [Paid(id, Share(e, id))] else before
  }

  lemma PaysMore(c: Config, e: Escrow, completed: set<JobId>, w: World, later: World, before: seq<Paid>, id: JobId)
    requires later.paid == w.paid + before
    ensures AfterClaim(c, later, id, ClaimOutcome(c, ReferenceAnswers(e, completed, later, id))).paid
         == w.paid + WithPayment(c, e, completed, w, before, id)
  {
    hide Claimable, ReferenceAnswers, UpdateStatistics, ClaimOutcome, Share;
    ClaimLater(c, e, completed, w, later, before, id);
    assert (w.paid + before) + [Paid(id, Share(e, id))] == w.paid + (before + [Paid(id, Share(e, id))]);
  }

  lemma PaysExactlyMore(c: Config, e: Escrow, completed: set<JobId>, w: World, jobs: seq<JobId>, before: seq<Paid>,
      id: JobId)
    requires PaysExactly(c, e, completed, w, jobs, before)
    ensures PaysExactly(c, e, completed, w, jobs + [id], WithPayment(c, e, completed, w, before, id))
  {
    hide Claimable, Share;
    OfMore(before, Paid(id, Share(e, id)));
    assert forall x :: x in jobs + [id] <==> x in jobs || x == id;
  }

  /** A later claim goes as it would have gone first, unless the job has been paid since. */
  lemma ClaimLater(c: Config, e: Escrow, completed: set<JobId>, w: World, later: World, paid: seq<Paid>, id: JobId)
    requires later.paid == w.paid + paid
    ensures ClaimOutcome(c, ReferenceAnswers(e, completed, later, id)) ==
      if Claimable(c, e, completed, w, id) && id !in Ids(paid) then Ok(Share(e, id))
      else ClaimOutcome(c, ReferenceAnswers(e, completed, later, id))
    ensures ClaimOutcome(c, ReferenceAnswers(e, completed, later, id)).Ok? <==>
            Claimable(c, e, completed, w, id) && id !in Ids(paid)
  {
    hide Share, HostShare;
    IdsOfBoth(w.paid, paid);
  }

  lemma IdsOfBoth(ps: seq<Paid>, qs: seq<Paid>)
    ensures forall id :: id in Ids(ps + qs) <==> id in Ids(ps) || id in Ids(qs)
  {
    assert Ids(ps + qs) == Ids(ps) + Ids(qs);
  }

  /** The shares of the listed jobs whose claim fails, or that were paid earlier in the list. */
  function LostShare(c: Config, e: Escrow, completed: set<JobId>, w: World, jobs: seq<JobId>): nat {
    if jobs == [] then 0
    else
      var before, id := jobs[..|jobs| - 1], jobs[|jobs| - 1];
      LostShare(c, e, completed, w, before) +
      if Claimable(c, e, completed, w, id) && id !in Ids(PaidBy(c, e, completed, w, before)) then 0 else Share(e, id)
  }

  lemma {:induction false} ReceivedAndLost(c: Config, e: Escrow, completed: set<JobId>, w: World, jobs: seq<JobId>)
    ensures Total(PaidBy(c, e, completed, w, jobs)) + LostShare(c, e, completed, w, jobs) == TotalShare(e, jobs)
  {
    hide Claimable, Share, Total, Ids;
    if jobs == [] {
      NothingReceived();
    } else {
      var before, id := jobs[..|jobs| - 1], jobs[|jobs| - 1];
      ReceivedAndLost(c, e, completed, w, before);
      OfMore(PaidBy(c, e, completed, w, before), Paid(id, Share(e, id)));
    }
  }

  lemma NothingReceived()
    ensures Total([]) == 0
  {
  }

  lemma {:induction false} TotalOfBoth(ps: seq<Paid>, qs: seq<Paid>)
    ensures Total(ps + qs) == Total(ps) + Total(qs)
    decreases |qs|
  {
    hide Total;
    if qs == [] {
      NothingReceived();
      assert ps + qs == ps;
    } else {
      var n := |qs| - 1;
      TotalOfBoth(ps, qs[..n]);
      OfMore(qs[..n], qs[n]);
      OfMore(ps + qs[..n], qs[n]);
      assert qs == qs[..n] + [qs[n]] && ps + qs == ps + qs[..n] + [qs[n]];
    }
  }

  /**
   A claim of the accumulated jobs from the reference system receives the accumulated amount if and
   only if no share is lost to a failed or repeated claim; the accumulator is emptied all the same,
   and of its jobs exactly those that could not be claimed and had not been paid are dropped unpaid.
   */
  lemma AccumulatedClaimIsExactIff(c: Config, e: Escrow, completed: set<JobId>, ops: seq<Op>, answers: nat -> Answers)
    requires HonestRun(c, e, ops) && CanClaimAccumulated(c, Run(c, ops))
    requires ByReference(c, e, completed, Run(c, ops), Run(c, ops).accumulatedJobs, answers)
    ensures var w := Run(c, ops);
      var jobs, after := w.accumulatedJobs, ClaimAccumulated(c, w, answers);
      var lost := LostShare(c, e, completed, w, jobs);
      && Total(after.paid) - Total(w.paid) == w.accumulatedAmount - lost
      && (Total(after.paid) - Total(w.paid) == w.accumulatedAmount <==> lost == 0)
      && after.accumulatedJobs == []
      && forall id :: id in jobs ==>
           (id !in Ids(after.paid) <==> id !in Ids(w.paid) && !Claimable(c, e, completed, w, id))
  {
    hide Run, ClaimAll, HonestRun, ByReference, Total, TotalShare, LostShare, PaidBy, Claimable, Ids, Share;
    var w := Run(c, ops);
    var paid := PaidBy(c, e, completed, w, w.accumulatedJobs);
    HonestRunsPayOnce(c, e, ops);
    ClaimAllPaysOnce(c, e, completed, w, w.accumulatedJobs, answers);
    ReceivedAndLost(c, e, completed, w, w.accumulatedJobs);
    TotalOfBoth(w.paid, paid);
    IdsOfBoth(w.paid, paid);
  }

  // ---------------------------------------------------------------- the claimer object

  class PaymentClaimer {
    const config: Config
    var paid: seq<Paid>
    var accumulatedJobs: seq<JobId>
    var accumulatedAmount: nat
    var stats: Stats

    constructor (config: Config)
      ensures this.config == config && View() == NEW_WORLD
    {
      this.config := config;
      paid, accumulatedJobs, accumulatedAmount, stats := [], [], 0, NO_STATS;
    }

    function View(): World
      reads this
    {
      World(paid, accumulatedJobs, accumulatedAmount, stats)
    }

    method RecordPayment(amount: nat)
      modifies this`stats
      ensures stats == UpdateStatistics(old(stats), amount)
    {
      var count, earned := stats.totalJobsPaid + 1, stats.totalEarned + amount;
      stats := stats.(totalJobsPaid := count, totalEarned := earned, averagePayment := Mean(earned, count));
      if amount > stats.largestPayment {
        stats := stats.(largestPayment := amount);
      }
      if amount < stats.smallestPayment {
        stats := stats.(smallestPayment := amount);
      }
    }

    method ClaimPayment(id: JobId, a: Answers) returns (result: Result<nat, PaymentError>)
      modifies this`paid, this`stats
      ensures result == ClaimOutcome(config, a)
      ensures View() == AfterClaim(config, old(View()), id, result)
    {
      hide UpdateStatistics, HostShare;
      if !a.payable {
        return Err(JobNotPayable);
      }
      if a.escrow.None? {
        return Err(NoEscrowBalance);
      }
      var share := HostShare(a.escrow.value);
      if share < config.minClaimAmount {
        return Err(BelowMinimumThreshold);
      }
      if a.gas.Err? {
        return Err(Other(a.gas.error));
      }
      if a.gasPrice.Err? {
        return Err(Other(a.gasPrice.error));
      }
      if a.gasPrice.value > config.maxGasPrice || share <= a.gas.value * a.gasPrice.value {
        return Err(Other("Not profitable after gas costs"));
      }
      result := a.payment;
      if result.Ok? {
        paid := paid + [Paid(id, result.value)];
        if config.trackStats {
          RecordPayment(result.value);
        }
      }
    }

    method AddJob(id: JobId, escrow: Option<nat>)
      modifies this`accumulatedJobs, this`accumulatedAmount
      ensures View() == AddToAccumulator(config, old(View()), id, escrow)
    {
      if config.enableAccumulation && escrow.Some? {
        accumulatedJobs := accumulatedJobs + [id];
        accumulatedAmount := accumulatedAmount + HostShare(escrow.value);
      }
    }

    /** `claim_accumulated`: what it returns is what was received. */
    method ClaimAllAccumulated(answers: nat -> Answers) returns (result: Result<nat, PaymentError>)
      modifies this
      ensures View() == ClaimAccumulated(config, old(View()), answers)
      ensures result.Ok? <==> CanClaimAccumulated(config, old(View()))
      ensures result.Ok? ==> result.value == Total(paid) - Total(old(paid))
      ensures result.Err? ==> result.error == if old(accumulatedJobs) == [] then Other("No accumulated payments")
            else BelowMinimumThreshold
    {
      hide ClaimOutcome, Total;
      var jobs := accumulatedJobs;
      if jobs == [] {
        return Err(Other("No accumulated payments"));
      }
      if accumulatedAmount < config.accumulationThreshold {
        return Err(BelowMinimumThreshold);
      }
      var total := 0;
      for i := 0 to |jobs|
        invariant View() == ClaimAll(config, old(View()), jobs[..i], answers)
        invariant total == Total(paid) - Total(old(paid))
      {
        assert jobs[..i + 1][..i] == jobs[..i];
        ghost var before := paid;
        var received := ClaimPayment(jobs[i], answers(i));
        if received.Ok? {
          OfMore(before, Paid(jobs[i], received.value));
          total := total + received.value;
        }
      }
      assert jobs[..|jobs|] == jobs;
      accumulatedJobs := [];
      accumulatedAmount := 0;
      result := Ok(total);
    }
  }
}
