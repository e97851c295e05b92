/** Publishing notes on one shared remote ref: any number of publishers, each in its own
    clone, each running fetch / check / add / compare-and-swap at most four times. */
module Notes {

  type Sha = string
  type Payload = seq<bv8>

  /** A notes commit names its whole history, so a tip determines its notes for ever.
      `stamp` stands for author, time and signature. */
  datatype Tip = NoRef | Commit(parent: Tip, sha: Sha, payload: Payload, stamp: nat)

  function NotesAt(tip: Tip): map<Sha, Payload> {
    match tip
    case NoRef => map[]
    case Commit(parent, sha, payload, _) => NotesAt(parent)[sha := payload]
  }

  const MAX_ATTEMPTS: nat := 4

  datatype Outcome = Published | AlreadyPublished | Conflict | EmptyPayload | Transport | Exhausted

  /** A call: not yet begun, between attempts, holding a fetched tip, holding a commit made
      on top of a fetched tip, or finished. `attempt` counts stale pushes so far. */
  datatype Pc =
    | Idle
    | Fetching(attempt: nat)
    | Fetched(attempt: nat, tip: Tip)
    | Pushing(attempt: nat, tip: Tip, made: Tip)
    | Done(outcome: Outcome)

  /** One call of PublishNote; `others` counts the remote updates other calls landed
      since this one began. */
  datatype Call = Call(sha: Sha, payload: Payload, pc: Pc, others: nat)

  /** `updates` lists the calls that landed, in order. */
  datatype State = State(remote: Tip, calls: seq<Call>, updates: seq<nat>)

  /** Fail: a transport error that left the remote alone. PushUnanswered: the remote took
      the push, but its answer was lost, which the call sees as a transport error. */
  datatype Step =
    | Begin(p: nat)
    | Fetch(p: nat)
    | Check(p: nat, stamp: nat)
    | Push(p: nat)
    | PushUnanswered(p: nat)
    | Fail(p: nat)

  predicate Enabled(s: State, step: Step) {
    && step.p < |s.calls|
    && var pc := s.calls[step.p].pc;
       match step
       case Begin(_) => pc.Idle?
       case Fetch(_) => pc.Fetching?
       case Check(_, _) => pc.Fetched?
       case Push(_) => pc.Pushing?
       case PushUnanswered(_) => pc.Pushing? && s.remote == pc.tip
       case Fail(_) => pc.Fetching? || pc.Fetched? || pc.Pushing?
  }

  function Goto(s: State, p: nat, pc: Pc): State
    requires p < |s.calls|
  {
    s.(calls := s.calls[p := s.calls[p].(pc := pc)])
  }

  /** What reading the fetched notes leads to. */
  function AfterCheck(c: Call, attempt: nat, tip: Tip, stamp: nat): Pc {
    if c.sha in NotesAt(tip) then
      if NotesAt(tip)[c.sha] == c.payload then Done(AlreadyPublished) else Done(Conflict)
    else Pushing(attempt, tip, Commit(tip, c.sha, c.payload, stamp))
  }

  function Bump(calls: seq<Call>, p: nat): seq<Call> {
    seq(|calls|, q requires 0 <= q < |calls| =>
          if q == p || calls[q].pc.Idle? || calls[q].pc.Done? then calls[q] else calls[q].(others := calls[q].others + 1))
  }

  function Apply(s: State, step: Step): State
    requires Enabled(s, step)
  {
    var p := step.p;
    var c := s.calls[p];
    match step
    case Begin(_) => Goto(s, p, if c.payload == [] then Done(EmptyPayload) else Fetching(0))
    case Fetch(_) => Goto(s, p, Fetched(c.pc.attempt, s.remote))
    case Check(_, stamp) => Goto(s, p, AfterCheck(c, c.pc.attempt, c.pc.tip, stamp))
    case Push(_) =>
      if s.remote == c.pc.tip then Land(s, p, Published)
      else if c.pc.attempt + 1 < MAX_ATTEMPTS then Goto(s, p, Fetching(c.pc.attempt + 1))
      else Goto(s, p, Done(Exhausted))
    case PushUnanswered(_) => Land(s, p, Transport)
    case Fail(_) => Goto(s, p, Done(Transport))
  }

  /** The remote moves to the call's commit, and the call ends with what it made of it. */
  function Land(s: State, p: nat, outcome: Outcome): State
    requires p < |s.calls| && s.calls[p].pc.Pushing?
  {
    Goto(s.(remote := s.calls[p].pc.made, calls := Bump(s.calls, p), updates := s.updates + [p]), p, Done(outcome))
  }

  /** Publishers may find any notes already on the remote. */
  ghost predicate IsInit(s: State) {
    s.updates == [] && forall p :: 0 <= p < |s.calls| ==> s.calls[p].pc.Idle? && s.calls[p].others == 0
  }

  ghost predicate IsRun(states: seq<State>, steps: seq<Step>) {
    && |states| == |steps| + 1 && IsInit(states[0])
    && forall k :: 0 <= k < |steps| ==> Enabled(states[k], steps[k]) && states[k + 1] == Apply(states[k], steps[k])
  }

  // ---------------------------------------------------------------- the remote only gains notes

  /** Every note of a is in b, with the same payload. */
  predicate KeptIn(a: map<Sha, Payload>, b: map<Sha, Payload>) {
    forall k :: k in a ==> k in b && a[k] == b[k]
  }

  /** What a call knows: its commit adds a note its fetched tip lacks, its fetched notes
      are still on the remote, its verdict is true of the remote and stays true, and every
      stale push was caused by an update somebody else landed meanwhile. */
  ghost predicate CallOk(s: State, p: nat)
    requires p < |s.calls|
  {
    var c := s.calls[p];
    && (c.pc.Pushing? ==> c.sha !in NotesAt(c.pc.tip) && NotesAt(c.pc.made) == NotesAt(c.pc.tip)[c.sha := c.payload])
    && (c.pc.Fetched? || c.pc.Pushing? ==>
          KeptIn(NotesAt(c.pc.tip), NotesAt(s.remote))
          && c.others >= c.pc.attempt + if s.remote == c.pc.tip then 0 else 1)
    && (c.pc.Fetching? ==> c.others >= c.pc.attempt)
    && (c.pc.Fetching? || c.pc.Fetched? || c.pc.Pushing? ==> c.pc.attempt < MAX_ATTEMPTS)
    && (c.pc.Done? ==> VerdictOk(s, c))
    && (p in s.updates ==> c.pc == Done(Published) || c.pc == Done(Transport))
    && (c.pc == Done(Published) ==> p in s.updates)
    && c.others <= |s.updates|
    && (c.payload == [] ==> c.pc.Idle? || c.pc == Done(EmptyPayload))
  }

  ghost predicate VerdictOk(s: State, c: Call)
    requires c.pc.Done?
  {
    match c.pc.outcome
    case Published => c.sha in NotesAt(s.remote) && NotesAt(s.remote)[c.sha] == c.payload
    case AlreadyPublished => c.sha in NotesAt(s.remote) && NotesAt(s.remote)[c.sha] == c.payload
    case Conflict => c.sha in NotesAt(s.remote) && NotesAt(s.remote)[c.sha] != c.payload
    case EmptyPayload => c.payload == []
    case Exhausted => c.others >= MAX_ATTEMPTS
    case Transport => true
  }

  ghost predicate UpdatesOk(s: State) {
    && (forall i, j :: 0 <= i < j < |s.updates| ==> s.updates[i] != s.updates[j])
    && (forall i :: 0 <= i < |s.updates| ==> s.updates[i] < |s.calls|)
  }

  ghost predicate Inv(s: State) {
    UpdatesOk(s) && forall p: nat :: p < |s.calls| ==> CallOk(s, p)
  }

  /** A step leaves the remote alone, or adds exactly one note, to a sha that had none. */
  ghost predicate AddsOneNote(s: State, step: Step, t: State)
    requires step.p < |s.calls|
  {
    var c := s.calls[step.p];
    || (t.remote == s.remote && t.updates == s.updates)
    || ((step.Push? || step.PushUnanswered?) && c.sha !in NotesAt(s.remote)
        && NotesAt(t.remote) == NotesAt(s.remote)[c.sha := c.payload] && t.updates == s.updates + [step.p])
  }

  lemma RemoteStep(s: State, step: Step)
    requires Inv(s) && Enabled(s, step)
    ensures AddsOneNote(s, step, Apply(s, step))
    ensures KeptIn(NotesAt(s.remote), NotesAt(Apply(s, step).remote))
  {
    assert CallOk(s, step.p);
  }

  lemma OwnCallStep(s: State, step: Step)
    requires UpdatesOk(s) && Enabled(s, step) && CallOk(s, step.p)
    requires AddsOneNote(s, step, Apply(s, step)) && KeptIn(NotesAt(s.remote), NotesAt(Apply(s, step).remote))
    ensures |Apply(s, step).calls| == |s.calls| && CallOk(Apply(s, step), step.p)
  {
  }

  /** Seen from another call, a step changes nothing or adds a note to the remote. */
  lemma OtherCallFrame(s: State, step: Step, p: nat)
    requires Enabled(s, step) && p < |s.calls| && p != step.p
    ensures var t := Apply(s, step);
            && |t.calls| == |s.calls| && (p in t.updates <==> p in s.updates)
            && if t.remote == s.remote && t.updates == s.updates then t.calls[p] == s.calls[p]
               else t.calls[p] == Bump(s.calls, step.p)[p]
  {
  }

  lemma CallStep(s: State, step: Step, p: nat)
    requires UpdatesOk(s) && Enabled(s, step) && p < |s.calls|
    requires CallOk(s, p) && CallOk(s, step.p)
    requires AddsOneNote(s, step, Apply(s, step)) && KeptIn(NotesAt(s.remote), NotesAt(Apply(s, step).remote))
    ensures |Apply(s, step).calls| == |s.calls| && CallOk(Apply(s, step), p)
  {
    if p == step.p { OwnCallStep(s, step); } else { OtherCallFrame(s, step, p); }
  }

  lemma InvStep(s: State, step: Step)
    requires Inv(s) && Enabled(s, step)
    ensures Inv(Apply(s, step))
  {
    RemoteStep(s, step);
    assert CallOk(s, step.p);
    forall p: nat | p < |s.calls| ensures |Apply(s, step).calls| == |s.calls| && CallOk(Apply(s, step), p) {
      CallStep(s, step, p);
    }
  }

  lemma {:induction false} EveryRunKeepsInv(states: seq<State>, steps: seq<Step>, k: nat)
    requires IsRun(states, steps) && k < |states|
    ensures Inv(states[k])
  {
    if k > 0 {
      EveryRunKeepsInv(states, steps, k - 1);
      InvStep(states[k - 1], steps[k - 1]);
    }
  }

  // ---------------------------------------------------------------- theorems

  /** For every interleaving: a note once on the remote stays there unchanged, and each
      step that changes the remote adds exactly one note to a sha that had none. */
  lemma {:induction false} NotesAreNeverLost(states: seq<State>, steps: seq<Step>, lo: nat, hi: nat)
    requires IsRun(states, steps) && lo <= hi < |states|
    ensures KeptIn(NotesAt(states[lo].remote), NotesAt(states[hi].remote))
    ensures forall k :: lo <= k < hi ==> AddsOneNote(states[k], steps[k], states[k + 1])
    decreases hi
  {
    if lo < hi {
      NotesAreNeverLost(states, steps, lo, hi - 1);
      EveryRunKeepsInv(states, steps, hi - 1);
      RemoteStep(states[hi - 1], steps[hi - 1]);
    }
  }

  /** What a finished call's answer means, in that state and, notes never being lost, for
      ever after: Published only when this call landed the update; AlreadyPublished when the
      same payload is there, Conflict when another is, Exhausted after four updates by
      others, all without any change by this call. A call that landed the update says so,
      unless the remote's answer was lost and it reports a transport error. */
  lemma AnswersAreTrue(states: seq<State>, steps: seq<Step>, k: nat, p: nat)
    requires IsRun(states, steps) && k < |states| && p < |states[k].calls| && states[k].calls[p].pc.Done?
    ensures var s, c := states[k], states[k].calls[p];
            && (c.pc.outcome == Published ==> p in s.updates)
            && (p in s.updates ==> c.pc.outcome == Published || c.pc.outcome == Transport)
            && VerdictOk(s, c)
            && (c.pc.outcome == Exhausted ==> |s.updates| >= c.others >= 4)
            && (c.pc.outcome == EmptyPayload <==> c.payload == [])
  {
    EveryRunKeepsInv(states, steps, k);
    assert CallOk(states[k], p);
  }

  lemma {:induction false} DistinctBelow(xs: seq<nat>, n: nat)
    requires forall i, j :: 0 <= i < j < |xs| ==> xs[i] != xs[j]
    requires forall i :: 0 <= i < |xs| ==> xs[i] < n
    ensures |xs| <= n
    decreases n
  {
    assert |xs| > 0 ==> xs[0] < n;
    if n > 0 && n - 1 in xs {
      var i :| 0 <= i < |xs| && xs[i] == n - 1;
      DistinctBelow(xs[..i] + xs[i + 1..], n - 1);
    } else if n > 0 {
      DistinctBelow(xs, n - 1);
    }
  }

  /** A call that gave up landed nothing and was beaten by at least four different calls. */
  lemma ExhaustionNeedsFiveCalls(s: State, p: nat)
    requires Inv(s) && p < |s.calls| && s.calls[p].pc == Done(Exhausted)
    ensures p !in s.updates && |s.updates| >= 4
    ensures forall i, j :: 0 <= i < j < |s.updates| ==> s.updates[i] != s.updates[j]
    ensures |s.calls| > 4
  {
    assert CallOk(s, p);
    var xs := s.updates + [p];
    DistinctBelow(xs, |s.calls|);
  }

  /** A sha of ours is on the remote only because we put it there. */
  ghost predicate OnlyOurs(s: State) {
    forall p: nat :: p < |s.calls| && s.calls[p].sha in NotesAt(s.remote) ==> p in s.updates
  }

  ghost predicate DistinctShas(s: State) {
    forall p, q :: 0 <= p < q < |s.calls| ==> s.calls[p].sha != s.calls[q].sha
  }

  lemma SameRequests(s: State, step: Step, p: nat)
    requires Enabled(s, step) && p < |s.calls|
    ensures var t := Apply(s, step);
            |t.calls| == |s.calls| && t.calls[p].sha == s.calls[p].sha && t.calls[p].payload == s.calls[p].payload
  {
  }

  lemma OnlyOursStep(s: State, step: Step)
    requires Inv(s) && OnlyOurs(s) && DistinctShas(s) && Enabled(s, step)
    ensures OnlyOurs(Apply(s, step)) && DistinctShas(Apply(s, step))
  {
    var t := Apply(s, step);
    RemoteStep(s, step);
    forall p: nat | p < |s.calls| ensures t.calls[p].sha == s.calls[p].sha && |t.calls| == |s.calls| {
      SameRequests(s, step, p);
    }
    if t.updates != s.updates { assert step.p in t.updates; }
  }

  /** Nobody fails: no transport error, and every payload is there. */
  ghost predicate Healthy(s: State) {
    forall p :: 0 <= p < |s.calls| ==>
      s.calls[p].payload != []
      && (s.calls[p].pc.Done? ==> s.calls[p].pc.outcome == Published || s.calls[p].pc.outcome == Exhausted)
  }

  lemma HealthyStep(s: State, step: Step)
    requires Inv(s) && OnlyOurs(s) && Healthy(s) && Enabled(s, step) && !step.Fail? && !step.PushUnanswered?
    ensures Healthy(Apply(s, step))
  {
    var c := s.calls[step.p];
    assert CallOk(s, step.p);
    assert step.Check? ==> step.p !in s.updates;
    assert step.Check? ==> c.sha !in NotesAt(s.remote);
    forall p: nat | p < |s.calls| ensures |Apply(s, step).calls| == |s.calls| && Apply(s, step).calls[p].payload != [] {
      SameRequests(s, step, p);
    }
  }

  lemma {:induction false} DistinctPublishersStayHealthy(states: seq<State>, steps: seq<Step>, k: nat)
    requires IsRun(states, steps) && k < |states|
    requires DistinctShas(states[0]) && OnlyOurs(states[0]) && Healthy(states[0])
    requires forall m :: 0 <= m < |steps| ==> !steps[m].Fail? && !steps[m].PushUnanswered?
    ensures DistinctShas(states[k]) && OnlyOurs(states[k]) && Healthy(states[k])
    ensures |states[k].calls| == |states[0].calls|
  {
    if k > 0 {
      DistinctPublishersStayHealthy(states, steps, k - 1);
      EveryRunKeepsInv(states, steps, k - 1);
      OnlyOursStep(states[k - 1], steps[k - 1]);
      HealthyStep(states[k - 1], steps[k - 1]);
    }
  }

  /** Up to four concurrent publishers of distinct new shas never fail each other: every
      call that has finished has published, and once no call has a step left to take but
      one of failing, all of them have. */
  lemma FourPublishersAllSucceed(states: seq<State>, steps: seq<Step>, k: nat, p: nat)
    requires IsRun(states, steps) && k < |states|
    requires DistinctShas(states[0]) && OnlyOurs(states[0]) && Healthy(states[0])
    requires forall m :: 0 <= m < |steps| ==> !steps[m].Fail? && !steps[m].PushUnanswered?
    requires |states[0].calls| <= 4 && p < |states[k].calls|
    ensures states[k].calls[p].pc.Done? ==> states[k].calls[p].pc.outcome == Published
    ensures AllDone(states[k]) ==> states[k].calls[p].pc == Done(Published)
  {
    DistinctPublishersStayHealthy(states, steps, k);
    EveryRunKeepsInv(states, steps, k);
    if states[k].calls[p].pc == Done(Exhausted) {
      ExhaustionNeedsFiveCalls(states[k], p);
    }
    if AllDone(states[k]) { NobodyIsStuck(states[k], p); }
  }

  /** Nothing is left to happen, except perhaps for a transport error. */
  ghost predicate AllDone(s: State) {
    forall step :: Enabled(s, step) ==> step.Fail? || step.PushUnanswered?
  }

  lemma NobodyIsStuck(s: State, p: nat)
    requires AllDone(s) && p < |s.calls|
    ensures s.calls[p].pc.Done?
  {
    assert !Enabled(s, Begin(p)) && !Enabled(s, Fetch(p)) && !Enabled(s, Check(p, 0)) && !Enabled(s, Push(p));
  }

  // ---------------------------------------------------------------- every call finishes

  function StepsLeft(pc: Pc): nat {
    match pc
    case Idle => 3 * MAX_ATTEMPTS + 1
    case Fetching(a) => if a < MAX_ATTEMPTS then 3 * (MAX_ATTEMPTS - a) else 0
    case Fetched(a, _) => if a < MAX_ATTEMPTS then 3 * (MAX_ATTEMPTS - a) - 1 else 0
    case Pushing(a, _, _) => if a < MAX_ATTEMPTS then 3 * (MAX_ATTEMPTS - a) - 2 else 0
    case Done(_) => 0
  }

  function AllStepsLeft(calls: seq<Call>): nat {
    if calls == [] then 0 else AllStepsLeft(calls[..|calls| - 1]) + StepsLeft(calls[|calls| - 1].pc)
  }

  /** Changing one call's position, and nothing but counters elsewhere. */
  lemma {:induction false} StepsLeftUpdate(was: seq<Call>, now: seq<Call>, p: nat)
    requires |was| == |now| && p < |was|
    requires forall q :: 0 <= q < |was| && q != p ==> now[q].pc == was[q].pc
    ensures AllStepsLeft(now) == AllStepsLeft(was) - StepsLeft(was[p].pc) + StepsLeft(now[p].pc)
    decreases |was|
  {
    var k := |was| - 1;
    if p < k {
      StepsLeftUpdate(was[..k], now[..k], p);
    } else {
      SamePositions(was[..k], now[..k]);
    }
  }

  lemma {:induction false} SamePositions(was: seq<Call>, now: seq<Call>)
    requires |was| == |now| && forall q :: 0 <= q < |was| ==> now[q].pc == was[q].pc
    ensures AllStepsLeft(now) == AllStepsLeft(was)
  {
    if was != [] { SamePositions(was[..|was| - 1], now[..|now| - 1]); }
  }

  /** Every step uses up a step of the bounded total. */
  lemma {:induction false} StepsAreSpent(states: seq<State>, steps: seq<Step>, k: nat)
    requires IsRun(states, steps) && k < |states|
    ensures k + AllStepsLeft(states[k].calls) <= AllStepsLeft(states[0].calls)
  {
    if k > 0 {
      StepsAreSpent(states, steps, k - 1);
      EveryRunKeepsInv(states, steps, k - 1);
      StepUsesOne(states[k - 1], steps[k - 1]);
    }
  }

  lemma {:induction false} ThirteenEach(calls: seq<Call>)
    requires forall p :: 0 <= p < |calls| ==> calls[p].pc.Idle?
    ensures AllStepsLeft(calls) == 13 * |calls|
  {
    if calls != [] { ThirteenEach(calls[..|calls| - 1]); }
  }

  /** Every call finishes: no run is longer than thirteen steps a call, one to begin and three
      for each of four attempts. */
  lemma RunsAreBounded(states: seq<State>, steps: seq<Step>, k: nat)
    requires IsRun(states, steps) && k < |states|
    ensures k <= 13 * |states[0].calls|
  {
    StepsAreSpent(states, steps, k);
    ThirteenEach(states[0].calls);
  }

  lemma StepUsesOne(s: State, step: Step)
    requires Inv(s) && Enabled(s, step)
    ensures AllStepsLeft(Apply(s, step).calls) < AllStepsLeft(s.calls)
  {
    assert CallOk(s, step.p);
    StepsLeftUpdate(s.calls, Apply(s, step).calls, step.p);
  }

  // ---------------------------------------------------------------- the loop itself

  /** How many updates a tip is made of. */
  function Height(tip: Tip): nat {
    match tip
    case NoRef => 0
    case Commit(parent, _, _, _) => Height(parent) + 1
  }

  /** The remote as one publisher sees it: how many of its updates were the publisher's own
      and how many were not. */
  class Remote {
    var tip: Tip
    ghost var own: nat
    ghost var others: nat

    /** The two counts together are the remote's whole history. */
    ghost predicate Valid()
      reads this
    {
      Height(tip) == own + others
    }

    /** Other publishers land any number of notes, each on a sha that has none. */
    method OthersPublish()
      requires Valid()
      modifies this
      ensures Valid() && own == old(own) && others >= old(others)
      ensures KeptIn(old(NotesAt(tip)), NotesAt(tip))
      ensures tip != old(tip) ==> others > old(others)
    {
      var rounds: nat := *;
      while rounds > 0
        invariant Valid() && own == old(own) && others >= old(others)
        invariant KeptIn(old(NotesAt(tip)), NotesAt(tip))
        invariant tip != old(tip) ==> others > old(others)
      {
        var sha: Sha, payload: Payload, stamp: nat := *, *, *;
        if sha !in NotesAt(tip) {
          tip := Commit(tip, sha, payload, stamp);
          others := others + 1;
        }
        rounds := rounds - 1;
      }
    }

    /** Compare-and-swap by this publisher. The push may be lost, and so may its answer. */
    method CasUpdate(was: Tip, made: Tip) returns (answer: Answer)
      requires Valid() && Height(made) == Height(was) + 1
      modifies this
      ensures Valid() && others == old(others)
      ensures tip == if own == old(own) then old(tip) else made
      ensures own == old(own) || (own == old(own) + 1 && old(tip) == was)
      ensures answer == Accepted ==> own == old(own) + 1
      ensures answer == Stale ==> own == old(own) && old(tip) != was
    {
      var lost: bool, answered: bool := *, *;
      if lost { return Broken; }
      var matches := tip == was;
      if matches { tip, own := made, own + 1; }
      if !answered { return Broken; }
      return if matches then Accepted else Stale;
    }
  }

  datatype Answer = Accepted | Stale | Broken

  /** The whole call, with any number of others at work on the remote. Published means this
      call's one update landed; without an answer it may have; in every other case the call
      changed nothing. */
  method PublishNote(remote: Remote, sha: Sha, payload: Payload) returns (outcome: Outcome)
    requires remote.Valid()
    modifies remote
    ensures remote.Valid() && old(remote.own) <= remote.own <= old(remote.own) + 1
    ensures outcome == Published ==> remote.own == old(remote.own) + 1
    ensures outcome != Published && outcome != Transport ==> remote.own == old(remote.own)
    ensures KeptIn(old(NotesAt(remote.tip)), NotesAt(remote.tip))
    ensures outcome == Published || outcome == AlreadyPublished || remote.own > old(remote.own) ==>
              sha in NotesAt(remote.tip) && NotesAt(remote.tip)[sha] == payload
    ensures remote.own > old(remote.own) ==> sha !in old(NotesAt(remote.tip))
    ensures outcome == Conflict ==> sha in NotesAt(remote.tip) && NotesAt(remote.tip)[sha] != payload
    ensures outcome == EmptyPayload <==> payload == []
    ensures outcome == Exhausted ==> remote.others >= old(remote.others) + 4
  {
    if payload == [] { return EmptyPayload; }
    for attempt := 0 to MAX_ATTEMPTS
      invariant remote.Valid() && remote.own == old(remote.own)
      invariant KeptIn(old(NotesAt(remote.tip)), NotesAt(remote.tip))
      invariant remote.others >= old(remote.others) + attempt
    {
      remote.OthersPublish();
      var fetched: bool := *;
      if !fetched { return Transport; }
      var tip := remote.tip;
      remote.OthersPublish();
      if sha in NotesAt(tip) {
        return if NotesAt(tip)[sha] == payload then AlreadyPublished else Conflict;
      }
      var stamp: nat := *;
      var made := Commit(tip, sha, payload, stamp);
      remote.OthersPublish();
      var answer := remote.CasUpdate(tip, made);
      match answer
      case Accepted => return Published;
      case Broken => return Transport;
      case Stale =>
    }
    return Exhausted;
  }
}
