/** Failure review: bounded re-execution of a failed check, and the durable budgets that
    bound it across checks and across runs. */
module Retries {

  datatype Status = Failed | Passed | Skipped | Waived | Blocked

  /** `err` stands for a non-nil Err; `attempts` counts the test attempts the result itself
      reports. */
  datatype Result = Result(status: Status, err: bool, attempts: nat)

  predicate Green(r: Result) {
    r.status == Passed && !r.err
  }

  datatype Settings = Settings(maxRetries: int, maxRunRetries: int)

  function Key(identity: string): string {
    "inputs:" + identity
  }

  function Spent(used: map<string, nat>, key: string): nat {
    if key in used then used[key] else 0
  }

  /** The upsert: a first charge always goes through, a later one only below the limit. */
  predicate MayCharge(used: map<string, nat>, key: string, limit: int) {
    key !in used || used[key] < limit
  }

  function Charge(used: map<string, nat>, key: string): map<string, nat> {
    used[key := Spent(used, key) + 1]
  }

  function ChargesOf(q: Request, key: string): nat {
    (if q.run == key then 1 else 0) + if q.Evidence? && Key(q.identity) == key then 1 else 0
  }

  function ChargesTo(granted: seq<Request>, key: string): nat {
    if granted == [] then 0
    else ChargesTo(granted[..|granted| - 1], key) + ChargesOf(granted[|granted| - 1], key)
  }

  /** The counters are the numbers of charges made by one call and by everybody else. */
  ghost predicate Balanced(used: map<string, nat>, own: seq<Request>, others: seq<Request>) {
    forall key :: Spent(used, key) == ChargesTo(own, key) + ChargesTo(others, key)
  }

  lemma BalancedGrant(used: map<string, nat>, own: seq<Request>, others: seq<Request>, q: Request)
    requires Balanced(used, own, others)
    ensures Balanced(AfterGrant(used, q), own + [q], others) && Balanced(AfterGrant(used, q), own, others + [q])
  {
    assert (own + [q])[..|own|] == own && (others + [q])[..|others|] == others;
    assert forall key :: Spent(AfterGrant(used, q), key) == Spent(used, key) + ChargesOf(q, key);
  }

  class History {
    var used: map<string, nat>

    // Who was charged: the call at hand, and every other call.
    ghost var own: seq<Request>
    ghost var others: seq<Request>

    constructor ()
      ensures used == map[] && own == [] && others == [] && Valid()
    {
      used, own, others := map[], [], [];
    }

    ghost predicate Valid()
      reads this
    {
      Balanced(used, own, others)
    }

    method Reserve(run: string, limit: int) returns (ok: bool)
      modifies this`used
      ensures ok <==> MayCharge(old(used), run, limit)
      ensures used == if ok then Charge(old(used), run) else old(used)
    {
      if run !in used {
        used := used[run := 1];
        return true;
      }
      if used[run] < limit {
        used := used[run := used[run] + 1];
        return true;
      }
      return false;
    }

    /** Both budgets or neither: a refused second charge rolls back the first. */
    method ReserveEvidence(run: string, identity: string, runLimit: int, inputLimit: int) returns (ok: bool)
      modifies this`used
      ensures ok <==> Grants(old(used), Evidence(run, identity), runLimit, inputLimit)
      ensures used == if ok then AfterGrant(old(used), Evidence(run, identity)) else old(used)
    {
      var before := used;
      ok := Reserve(run, runLimit);
      if ok { ok := Reserve(Key(identity), inputLimit); }
      if !ok { used := before; }
    }

    /** Asks the store for one charge, as the request and the settings say. */
    method Ask(q: Request, s: Settings) returns (ok: bool)
      modifies this`used
      ensures ok <==> Grants(old(used), q, s.maxRunRetries, s.maxRetries)
      ensures used == if ok then AfterGrant(old(used), q) else old(used)
    {
      match q
      case Plain(run) => ok := Reserve(run, s.maxRunRetries);
      case Evidence(run, identity) => ok := ReserveEvidence(run, identity, s.maxRunRetries, s.maxRetries);
    }

    /** Any other checks, of this run and of others, charge the same store. */
    method OthersCharge(s: Settings)
      requires Valid()
      modifies this`used, this`others
      ensures Valid()
    {
      var rounds: nat := *;
      while rounds > 0
        invariant Valid()
      {
        var q: Request := *;
        BalancedGrant(used, own, others, q);
        var ok := Ask(q, s);
        if ok { others := others + [q]; }
        rounds := rounds - 1;
      }
    }

    /** This call's charge. The store may fail, even after it has taken the charge. */
    method ChargeRetry(q: Request, s: Settings) returns (granted: bool)
      requires Valid()
      modifies this`used, this`own
      ensures Valid() && (own == old(own) || own == old(own) + [q])
      ensures granted ==> own == old(own) + [q]
    {
      var reachable: bool, answered: bool := *, *;
      if !reachable { return false; }
      BalancedGrant(used, own, others, q);
      granted := Ask(q, s);
      if granted { own := own + [q]; }
      if !answered { granted := false; }
    }

    /** Runs the check again for as long as everyone agrees, and never past the budget, with
        any other checks charging the same budgets meanwhile. The executions are listed in
        order; `res` is what is reported. Every re-execution is charged, and at most one
        charge more, if the store took it without answering. A failure is only left standing
        if the context died (`cut`), somebody disagreed, or the retries are used up. */
    method Run(s: Settings, run: string, identity: string, eligible: bool)
      returns (res: Result, executed: seq<Result>, reviews: seq<Review>, cut: bool)
      requires Valid()
      modifies this
      ensures Valid() && |executed| >= 1
      ensures !eligible || executed[0].err || executed[0].status != Failed ==> res == executed[0] && |executed| == 1
      ensures |executed| - 1 <= MaxReruns(s, executed[0])
      ensures OneRerunPerAgreement(reviews, |executed| - 1)
      ensures eligible && !cut && executed[0].status == Failed && !executed[0].err && res.status == Failed && !res.err ==>
                |executed| - 1 == MaxReruns(s, executed[0]) || |reviews| == |executed|
      ensures Green(res) ==> Green(executed[|executed| - 1])
      ensures executed[0].status == Failed ==> !(res.status == Skipped && !res.err)
      ensures s.maxRunRetries <= 0 ==> own == old(own)
      ensures s.maxRunRetries > 0 ==>
                && |executed| - 1 <= |own| - |old(own)| <= |executed|
                && own == old(own) + Copies(RequestOf(run, identity), |own| - |old(own)|)
    {
      res := *;
      executed, reviews := [res], [];
      cut := *;
      if !eligible || res.err || res.status != Failed || cut { return; }
      var attempt := if res.attempts == 0 then 1 else res.attempts;
      var q := RequestOf(run, identity);
      var go := true;
      while go
        invariant Valid() && |executed| >= 1
        invariant executed[0].status == Failed && !executed[0].err
        invariant attempt == (if executed[0].attempts == 0 then 1 else executed[0].attempts) + |executed| - 1
        invariant |executed| > 1 ==> attempt <= s.maxRetries + 1
        invariant |executed| == 1 ==> res == executed[0]
        invariant OneRerunPerAgreement(reviews, |executed| - 1) && (go ==> |reviews| == |executed| - 1)
        invariant !go && !cut && res.status == Failed && !res.err ==> attempt > s.maxRetries || |reviews| == |executed|
        invariant Green(res) ==> Green(executed[|executed| - 1])
        invariant !(res.status == Skipped && !res.err)
        invariant s.maxRunRetries <= 0 ==> own == old(own)
        invariant s.maxRunRetries > 0 ==>
                    && |executed| - 1 <= |own| - |old(own)| <= |executed|
                    && (go ==> |own| - |old(own)| == |executed| - 1)
                    && own == old(own) + Copies(q, |own| - |old(own)|)
        decreases go, s.maxRetries + 1 - attempt
      {
        OthersCharge(s);
        cut := *;
        if res.err || res.status != Failed || cut || attempt > s.maxRetries {
          go := false;
        } else {
          var review := ReviewFailure(q, s);
          reviews := reviews + [review];
          if Agreed(review) {
            res, executed := Rerun(executed);
            attempt := attempt + 1;
          } else {
            go := false;
          }
        }
      }
    }

    /** One review: a decision, the policy's permission, and then the budget's. */
    method ReviewFailure(q: Request, s: Settings) returns (review: Review)
      requires Valid()
      modifies this`used, this`own
      ensures Valid() && (own == old(own) || own == old(own) + [q])
      ensures s.maxRunRetries <= 0 ==> own == old(own)
      ensures s.maxRunRetries > 0 && Agreed(review) ==> own == old(own) + [q]
    {
      var decided: bool, allowed: bool := *, *;
      if !decided || !allowed { return Review(decided, allowed, false); }
      var granted := true;
      if s.maxRunRetries > 0 { granted := ChargeRetry(q, s); }
      return Review(true, true, granted);
    }

    /** One re-execution: incomplete coverage or a skip cannot clear the failure. */
    method Rerun(before: seq<Result>) returns (res: Result, executed: seq<Result>)
      ensures |executed| == |before| + 1 && before <= executed
      ensures Green(res) ==> Green(executed[|before|])
      ensures !(res.status == Skipped && !res.err)
    {
      res := *;
      executed := before + [res];
      var uncovered: bool := *;
      if uncovered && !res.err { res := res.(status := Failed); }
      if !res.err && res.status == Skipped { res := res.(status := Failed); }
    }
  }

  /** One review of a failure: a valid decision, the policy's permission, the budget. */
  datatype Review = Review(decided: bool, allowed: bool, granted: bool)

  predicate Agreed(r: Review) {
    r.decided && r.allowed && r.granted
  }

  /** Each re-execution follows a review in which everyone agreed; the first disagreement
      ends it. */
  predicate OneRerunPerAgreement(reviews: seq<Review>, reruns: int) {
    && reruns <= |reviews| <= reruns + 1
    && (forall k :: 0 <= k < |reviews| ==> (Agreed(reviews[k]) <==> k < reruns))
  }

  /** How often a check may run again after its first failure. */
  function MaxReruns(s: Settings, first: Result): nat {
    var used := if first.attempts == 0 then 1 else first.attempts;
    if s.maxRetries + 1 > used then s.maxRetries + 1 - used else 0
  }

  // ---------------------------------------------------------------- budgets over all checks

  datatype Request = Plain(run: string) | Evidence(run: string, identity: string)

  /** A check with a verification identity is charged under both. */
  function RequestOf(run: string, identity: string): Request {
    if identity == "" then Plain(run) else Evidence(run, identity)
  }

  function Copies(q: Request, n: int): seq<Request> {
    if n <= 0 then [] else Copies(q, n - 1) + [q]
  }

  /** Whether the store lets a request through, and what it then holds. */
  predicate Grants(used: map<string, nat>, q: Request, runLimit: int, inputLimit: int) {
    && MayCharge(used, q.run, runLimit)
    && (q.Evidence? ==> MayCharge(Charge(used, q.run), Key(q.identity), inputLimit))
  }

  function AfterGrant(used: map<string, nat>, q: Request): map<string, nat> {
    var charged := Charge(used, q.run);
    if q.Evidence? then Charge(charged, Key(q.identity)) else charged
  }

  datatype Ledger = Ledger(used: map<string, nat>, granted: seq<Request>)

  /** The requests of any number of concurrent checks, in the order the store serves them. */
  function Serve(requests: seq<Request>, runLimit: int, inputLimit: int): Ledger {
    if requests == [] then Ledger(map[], [])
    else
      var l := Serve(requests[..|requests| - 1], runLimit, inputLimit);
      var q := requests[|requests| - 1];
      if Grants(l.used, q, runLimit, inputLimit) then Ledger(AfterGrant(l.used, q), l.granted + [q]) else l
  }

  function GrantedToRun(granted: seq<Request>, run: string): nat {
    if granted == [] then 0
    else GrantedToRun(granted[..|granted| - 1], run) + if granted[|granted| - 1].run == run then 1 else 0
  }

  function GrantedToInputs(granted: seq<Request>, identity: string): nat {
    if granted == [] then 0
    else
      var q := granted[|granted| - 1];
      GrantedToInputs(granted[..|granted| - 1], identity) + if q.Evidence? && q.identity == identity then 1 else 0
  }

  predicate RunIdsAreNotKeys(requests: seq<Request>) {
    forall k :: 0 <= k < |requests| ==> !("inputs:" <= requests[k].run)
  }

  lemma KeysAreDistinct(x: string, y: string, run: string)
    ensures Key(x) == Key(y) ==> x == y
    ensures !("inputs:" <= run) ==> run != Key(x)
  {
    assert Key(x)[7..] == x && Key(y)[7..] == y;
  }

  lemma GrantSpends(used: map<string, nat>, q: Request, run: string, identity: string)
    requires !("inputs:" <= run) && !("inputs:" <= q.run)
    ensures Spent(AfterGrant(used, q), run) == Spent(used, run) + if q.run == run then 1 else 0
    ensures Spent(AfterGrant(used, q), Key(identity))
            == Spent(used, Key(identity)) + if q.Evidence? && q.identity == identity then 1 else 0
  {
    KeysAreDistinct(identity, identity, q.run);
    if q.Evidence? {
      KeysAreDistinct(q.identity, identity, run);
      KeysAreDistinct(q.identity, identity, q.run);
    }
  }

  /** A charge is granted exactly while the run is below its limit, and the identity below
      its own if there is one: refused at the limit, and never below it. */
  lemma GrantedExactlyBelow(used: map<string, nat>, q: Request, runLimit: int, inputLimit: int)
    requires runLimit >= 1 && inputLimit >= 1 && !("inputs:" <= q.run)
    ensures Grants(used, q, runLimit, inputLimit) <==>
            && (if q.run in used then used[q.run] else 0) < runLimit
            && (q.Evidence? ==>
                  (if "inputs:" + q.identity in used then used["inputs:" + q.identity] else 0) < inputLimit)
  {
    if q.Evidence? { KeysAreDistinct(q.identity, q.identity, q.run); }
  }

  lemma GrantWithinLimits(used: map<string, nat>, q: Request, runLimit: int, inputLimit: int)
    requires runLimit >= 1 && inputLimit >= 1 && !("inputs:" <= q.run)
    requires Grants(used, q, runLimit, inputLimit)
    ensures Spent(used, q.run) < runLimit
    ensures q.Evidence? ==> Spent(used, Key(q.identity)) < inputLimit
  {
    if q.Evidence? { KeysAreDistinct(q.identity, q.identity, q.run); }
  }

  /** The store's counters are the numbers of grants, and those never pass the limits:
      however checks and runs interleave, a run gets at most its run-wide budget of
      re-executions, and a verification identity at most its own across all runs. */
  lemma {:induction false} BudgetsHold(requests: seq<Request>, runLimit: int, inputLimit: int, run: string, identity: string)
    requires runLimit >= 1 && inputLimit >= 1
    requires RunIdsAreNotKeys(requests) && !("inputs:" <= run)
    ensures var l := Serve(requests, runLimit, inputLimit);
            && GrantedToRun(l.granted, run) == Spent(l.used, run) <= runLimit
            && GrantedToInputs(l.granted, identity) == Spent(l.used, Key(identity)) <= inputLimit
  {
    if requests != [] {
      var n := |requests| - 1;
      BudgetsHold(requests[..n], runLimit, inputLimit, run, identity);
      var l, q := Serve(requests[..n], runLimit, inputLimit), requests[n];
      if Grants(l.used, q, runLimit, inputLimit) {
        GrantSpends(l.used, q, run, identity);
        GrantWithinLimits(l.used, q, runLimit, inputLimit);
        assert (l.granted + [q])[..|l.granted|] == l.granted;
      }
    }
  }

  // ---------------------------------------------------------------- known flakes

  /** One recorded review of this exact failure, newest first in a list. */
  datatype Observation = Observation(run: string, error: bool, retried: bool, passed: bool)

  predicate Retried(o: Observation) {
    !o.error && o.retried
  }

  predicate Recovered(o: Observation, job: string) {
    Retried(o) && o.passed && o.run != "" && o.run != job
  }

  /** Two distinct other runs recovered from this failure, and no retry since the older of
      the two has failed. */
  ghost predicate TwiceRecovered(rows: seq<Observation>, job: string, n: nat) {
    exists i, j :: 0 <= i < j < n && j < |rows|
      && Recovered(rows[i], job) && Recovered(rows[j], job) && rows[i].run != rows[j].run
      && forall k :: 0 <= k <= j && Retried(rows[k]) ==> rows[k].passed
  }

  /** runs holds exactly the other runs that recovered in the first k rows. */
  ghost predicate RecoveredRuns(rows: seq<Observation>, job: string, k: nat, runs: set<string>)
    requires k <= |rows|
  {
    && (forall m :: 0 <= m < k && Recovered(rows[m], job) ==> rows[m].run in runs)
    && (forall r :: r in runs ==> exists m :: 0 <= m < k && Recovered(rows[m], job) && rows[m].run == r)
  }

  lemma TwoMembers(runs: set<string>, x: string, y: string)
    requires x in runs && y in runs && x != y
    ensures |runs| >= 2
  {
    assert runs == {x, y} + (runs - {x, y});
  }

  lemma NoPair(rows: seq<Observation>, job: string, k: nat, runs: set<string>)
    requires k <= |rows| && RecoveredRuns(rows, job, k, runs) && |runs| <= 1
    ensures !TwiceRecovered(rows, job, k)
  {
    if TwiceRecovered(rows, job, k) {
      var i, j :| 0 <= i < j < k && j < |rows| && Recovered(rows[i], job) && Recovered(rows[j], job) && rows[i].run != rows[j].run;
      TwoMembers(runs, rows[i].run, rows[j].run);
    }
  }

  method KnownFlake(rows: seq<Observation>, job: string) returns (known: bool)
    ensures known <==> TwiceRecovered(rows, job, |rows|)
  {
    var runs: set<string> := {};
    for k := 0 to |rows|
      invariant forall m :: 0 <= m < k && Retried(rows[m]) ==> rows[m].passed
      invariant RecoveredRuns(rows, job, k, runs) && |runs| <= 1
    {
      var o := rows[k];
      if Retried(o) {
        if !o.passed {
          NoPair(rows, job, k, runs);
          return false;
        }
        if o.run != "" && o.run != job {
          if o.run !in runs && |runs| == 1 {
            var r :| r in runs;
            assert Recovered(rows[k], job);
            return true;
          }
          AtMostOne(runs, o.run);
          AddRecovered(rows, job, k, runs);
          runs := runs + {o.run};
        }
      }
    }
    NoPair(rows, job, |rows|, runs);
    return false;
  }

  lemma AddRecovered(rows: seq<Observation>, job: string, k: nat, runs: set<string>)
    requires k < |rows| && RecoveredRuns(rows, job, k, runs) && Recovered(rows[k], job)
    ensures RecoveredRuns(rows, job, k + 1, runs + {rows[k].run})
  {
  }

  lemma AtMostOne(runs: set<string>, r: string)
    requires |runs| <= 1 && !(r !in runs && |runs| == 1)
    ensures |runs + {r}| <= 1
  {
    if r in runs { assert runs + {r} == runs; }
  }
}
