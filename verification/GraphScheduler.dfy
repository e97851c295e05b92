/** The deploy node-graph scheduler as a transition system: Run's own loop, one goroutine
    per started node, the result channel, execution slots and cancellation, interleaved
    in every possible order. */
module GraphScheduler {
  import opened Options
  import opened DeploySpec

  datatype Status = Failed | Passed | Skipped | Blocked | Waived

  /** `err` stands for a non-nil Err; `output` for everything else a result carries. */
  datatype CheckResult = CheckResult(
    name: string, seqNo: nat, status: Status, err: bool, blockedBy: seq<string>, output: string)

  predicate NodeGreen(r: CheckResult) {
    !r.err && (r.status == Passed || r.status == Skipped)
  }

  datatype Graph = Graph(nodes: seq<Node>, maxParallel: int)

  /** Where a node's goroutine stands. */
  datatype Phase = Unstarted | WaitingForSlot | Executing | CommandDone | InChannel | Received

  datatype NodeDone = NodeDone(idx: nat, res: CheckResult)

  datatype RunError = NoError | Cancelled | Unsatisfiable

  /** Where Run itself stands in its loop. */
  datatype Pc =
    | LoopHead
    | Starting(next: nat)
    | Receiving
    | Draining
    | Culling
    | Returned(rows: seq<CheckResult>, culprit: string, err: RunError)

  /** `returned` remembers what each node's command reported; `cancelled` is the caller's
      context, `killed` the run's own, which the cull cancels. */
  datatype State = State(
    phase: seq<Phase>,
    holders: set<nat>,
    done: seq<NodeDone>,
    returned: map<nat, CheckResult>,
    results: map<string, CheckResult>,
    inflight: int,
    culprit: string,
    cancelled: bool,
    killed: bool,
    pc: Pc)

  datatype Step =
    | Enter
    | Scan
    | Conclude
    | Receive
    | DrainEnd
    | Cull
    | GetSlot(i: nat)
    | SlotWaitFails(i: nat)
    | CommandReturns(i: nat, res: CheckResult)
    | Deliver(i: nat)
    | ReleaseSlot(i: nat)
    | Cancel

  function Init(g: Graph): State {
    State(seq(|g.nodes|, _ => Unstarted), {}, [], map[], map[], 0, "", false, false, LoopHead)
  }

  function Cap(g: Graph): nat {
    if g.maxParallel < 1 then 1 else g.maxParallel
  }

  /** Results are recorded, and nodes started, only while the run has not concluded. */
  predicate Keep(s: State) {
    s.culprit == "" && !s.cancelled
  }

  predicate DepGreen(results: map<string, CheckResult>, dep: string) {
    dep in results && NodeGreen(results[dep])
  }

  predicate Ready(g: Graph, s: State, i: nat)
    requires i < |g.nodes|
  {
    forall dep :: dep in g.nodes[i].after ==> DepGreen(s.results, dep)
  }

  predicate IsRed(g: Graph, results: map<string, CheckResult>, i: nat)
    requires i < |g.nodes|
  {
    g.nodes[i].name in results && !NodeGreen(results[g.nodes[i].name])
  }

  /** The first node in spec order, from k on, whose recorded result is not green. */
  function FirstRed(g: Graph, results: map<string, CheckResult>, k: nat): (c: nat)
    requires k <= |g.nodes|
    ensures k <= c <= |g.nodes|
    ensures c < |g.nodes| ==> IsRed(g, results, c)
    ensures forall i :: k <= i < c ==> !IsRed(g, results, i)
    decreases |g.nodes| - k
  {
    if k == |g.nodes| || IsRed(g, results, k) then k else FirstRed(g, results, k + 1)
  }

  /** The scheduler owns node identity: the reported name is replaced. */
  function Named(g: Graph, i: nat, r: CheckResult): CheckResult
    requires i < |g.nodes|
  {
    r.(name := g.nodes[i].name)
  }

  function SlotWaitError(g: Graph, i: nat): CheckResult
    requires i < |g.nodes|
  {
    CheckResult(g.nodes[i].name, 0, Failed, true, [], "waiting for an execution slot")
  }

  function Unsatisfied(after: seq<string>, results: map<string, CheckResult>): seq<string> {
    if after == [] then []
    else
      var d := after[|after| - 1];
      Unsatisfied(after[..|after| - 1], results) + if DepGreen(results, d) then [] else [d]
  }

  /** The row a node gets, if it gets one. */
  function Row(g: Graph, results: map<string, CheckResult>, culprit: string, i: nat): Option<CheckResult>
    requires i < |g.nodes|
  {
    var n := g.nodes[i];
    if n.name in results then Some(results[n.name].(seqNo := i + 1))
    else if culprit == "" then None
    else
      var blockers := Unsatisfied(n.after, results);
      Some(CheckResult(n.name, i + 1, Blocked, false, if blockers == [] then [culprit] else blockers, ""))
  }

  function Somes(rows: seq<Option<CheckResult>>): seq<CheckResult> {
    if rows == [] then []
    else
      var last := rows[|rows| - 1];
      Somes(rows[..|rows| - 1]) + if last.Some? then [last.value] else []
  }

  function RowsByNode(g: Graph, results: map<string, CheckResult>, culprit: string): seq<Option<CheckResult>> {
    seq(|g.nodes|, i requires 0 <= i < |g.nodes| => Row(g, results, culprit, i))
  }

  /** The rows of all nodes, in spec order. */
  function Rows(g: Graph, results: map<string, CheckResult>, culprit: string): seq<CheckResult> {
    Somes(RowsByNode(g, results, culprit))
  }

  /** What Run returns: an outside cancellation beats a culprit, and a graph with nodes
      left over but nothing to run is an error. */
  function Outcome(g: Graph, s: State): Pc {
    if s.cancelled then Returned(Rows(g, s.results, ""), "", Cancelled)
    else if s.culprit == "" && |s.results| != |g.nodes| then Returned(Rows(g, s.results, ""), "", Unsatisfiable)
    else Returned(Rows(g, s.results, s.culprit), s.culprit, NoError)
  }

  predicate Sized(g: Graph, s: State) {
    |s.phase| == |g.nodes|
  }

  predicate InPhase(s: State, i: nat, p: Phase) {
    i < |s.phase| && s.phase[i] == p
  }

  predicate Enabled(g: Graph, s: State, step: Step) {
    && Sized(g, s)
    && match step
       case Enter => s.pc.LoopHead?
       case Scan => s.pc.Starting?
       case Conclude => s.pc.Receiving? && s.inflight == 0
       case Receive =>
         && (s.pc.Draining? || (s.pc.Receiving? && s.inflight != 0))
         && s.done != [] && s.done[0].idx < |g.nodes|
       case DrainEnd => s.pc.Draining? && s.done == []
       case Cull => s.pc.Culling?
       case GetSlot(i) => InPhase(s, i, WaitingForSlot)
       case SlotWaitFails(i) => InPhase(s, i, WaitingForSlot) && (s.cancelled || s.killed) && |s.done| < |g.nodes|
       case CommandReturns(i, _) => InPhase(s, i, Executing)
       case Deliver(i) => InPhase(s, i, CommandDone) && i in s.returned && |s.done| < |g.nodes|
       case ReleaseSlot(i) => i in s.holders && (InPhase(s, i, InChannel) || InPhase(s, i, Received))
       case Cancel => !s.cancelled && !s.pc.Returned?
  }

  function Apply(g: Graph, s: State, step: Step): State
    requires Enabled(g, s, step)
  {
    match step
    case Enter => s.(pc := if Keep(s) then Starting(0) else Receiving)
    case Scan => ScanOne(g, s)
    case Conclude => s.(pc := Outcome(g, s))
    case Receive =>
      var f := s.done[0];
      s.(done := s.done[1..], inflight := s.inflight - 1, phase := s.phase[f.idx := Received], pc := Draining,
         results := if Keep(s) then s.results[g.nodes[f.idx].name := f.res] else s.results)
    case DrainEnd => s.(pc := Culling)
    case Cull =>
      var c := FirstRed(g, s.results, 0);
      if Keep(s) && c < |g.nodes| then s.(pc := LoopHead, culprit := g.nodes[c].name, killed := true)
      else s.(pc := LoopHead)
    case GetSlot(i) => s.(phase := s.phase[i := Executing], holders := s.holders + {i})
    case SlotWaitFails(i) =>
      s.(phase := s.phase[i := InChannel], done := s.done + [NodeDone(i, SlotWaitError(g, i))])
    case CommandReturns(i, res) => s.(phase := s.phase[i := CommandDone], returned := s.returned[i := res])
    case Deliver(i) =>
      s.(phase := s.phase[i := InChannel], done := s.done + [NodeDone(i, Named(g, i, s.returned[i]))])
    case ReleaseSlot(i) => s.(holders := s.holders - {i})
    case Cancel => s.(cancelled := true)
  }

  /** One turn of the start loop: stop at the cap, skip what is started or not ready,
      otherwise start the node. */
  function ScanOne(g: Graph, s: State): State
    requires Sized(g, s) && s.pc.Starting?
  {
    var i := s.pc.next;
    if i >= |g.nodes| || s.inflight >= Cap(g) then s.(pc := Receiving)
    else if s.phase[i] != Unstarted || !Ready(g, s, i) then s.(pc := Starting(i + 1))
    else s.(phase := s.phase[i := WaitingForSlot], inflight := s.inflight + 1, pc := Starting(i + 1))
  }

  /** A finite run: states[0] is initial and each step leads to the next state. */
  ghost predicate IsRun(g: Graph, states: seq<State>, steps: seq<Step>) {
    && |states| == |steps| + 1
    && states[0] == Init(g)
    && forall k :: 0 <= k < |steps| ==> Enabled(g, states[k], steps[k]) && states[k + 1] == Apply(g, states[k], steps[k])
  }

  // ---------------------------------------------------------------- invariant

  predicate Flying(p: Phase) {
    p.WaitingForSlot? || p.Executing? || p.CommandDone? || p.InChannel?
  }

  function InFlight(phase: seq<Phase>): set<nat> {
    set i: nat | i < |phase| && Flying(phase[i])
  }

  /** "" is Run's encoding of "no culprit". */
  ghost predicate AllNamed(g: Graph) {
    forall i :: 0 <= i < |g.nodes| ==> g.nodes[i].name != ""
  }

  ghost predicate Counts(g: Graph, s: State) {
    && Sized(g, s)
    && s.inflight == |InFlight(s.phase)|
    && s.inflight <= Cap(g)
  }

  /** A slot is held from before the command starts until after its result is sent. */
  predicate HoldsRightly(p: Phase, holder: bool, reported: bool) {
    && (holder ==> p != Unstarted && p != WaitingForSlot)
    && (p == Executing || p == CommandDone ==> holder)
    && (p == CommandDone ==> reported)
  }

  ghost predicate Holding(s: State) {
    && (forall i :: i in s.holders ==> i < |s.phase|)
    && (forall i: nat :: i < |s.phase| ==> HoldsRightly(s.phase[i], i in s.holders, i in s.returned))
  }

  /** The run's own context dies with the first culprit, and lives on without one unless
      the culprit's name reads as "no culprit". */
  ghost predicate KillOk(g: Graph, s: State) {
    (s.culprit != "" ==> s.killed) && (s.killed ==> s.culprit != "" || !AllNamed(g))
  }

  /** The channel holds exactly one message per node in InChannel, and while results are
      still kept a message is one that may be recorded. */
  ghost predicate Channel(g: Graph, s: State) {
    && Sized(g, s)
    && (forall k :: 0 <= k < |s.done| ==> InPhase(s, s.done[k].idx, InChannel))
    && (forall k, m :: 0 <= k < m < |s.done| ==> s.done[k].idx != s.done[m].idx)
    && (forall i: nat {:trigger HasMessage(s.done, i)} ::
          i < |s.phase| && s.phase[i] == InChannel ==> HasMessage(s.done, i))
    && (Keep(s) ==> forall k :: 0 <= k < |s.done| ==> Recordable(g, s, s.done[k].idx, s.done[k].res))
  }

  ghost predicate HasMessage(done: seq<NodeDone>, i: nat) {
    exists k :: 0 <= k < |done| && done[k].idx == i
  }

  /** r is what node i's command reported, under the node's own name. */
  ghost predicate Reported(g: Graph, s: State, i: nat, r: CheckResult) {
    && i < |g.nodes| && i in s.returned && r.name == g.nodes[i].name
    && var said := s.returned[i];
       && r.seqNo == said.seqNo && r.status == said.status && r.err == said.err
       && r.blockedBy == said.blockedBy && r.output == said.output
  }

  /** What node i may be recorded with: its command's report. Only in a graph with an
      unnamed node can it also be a slot wait given up, because only there can the run's
      context be dead while results are still kept. */
  ghost predicate Recordable(g: Graph, s: State, i: nat, r: CheckResult) {
    Reported(g, s, i, r) || (!AllNamed(g) && i < |g.nodes| && r == SlotWaitError(g, i))
  }

  ghost predicate KeysOk(g: Graph, s: State) {
    s.results.Keys <= NamesOf(g.nodes)
  }

  /** With distinct names, a name's result is its one node's. */
  ghost predicate Stored(g: Graph, s: State) {
    && Sized(g, s)
    && (forall i: nat :: i < |g.nodes| && g.nodes[i].name in s.results ==>
          s.phase[i] == Received && Recordable(g, s, i, s.results[g.nodes[i].name]))
    && (Keep(s) ==> forall i: nat :: i < |s.phase| && s.phase[i] == Received ==> g.nodes[i].name in s.results)
  }

  ghost predicate StartedAreReady(g: Graph, s: State) {
    Sized(g, s) && forall i: nat :: i < |g.nodes| && s.phase[i] != Unstarted ==> Ready(g, s, i)
  }

  ghost predicate CulpritIsFirstRed(g: Graph, s: State) {
    s.culprit != "" ==>
      var c := FirstRed(g, s.results, 0);
      c < |g.nodes| && s.culprit == g.nodes[c].name
  }

  /** Outside the drain-to-cull window, a run that has not concluded holds only green
      results, or its first red one has no name to be blamed by. */
  ghost predicate NoHiddenRed(g: Graph, s: State) {
    Keep(s) && !s.pc.Draining? && !s.pc.Culling? ==>
      var c := FirstRed(g, s.results, 0);
      c == |g.nodes| || g.nodes[c].name == ""
  }

  ghost predicate NothingToStart(g: Graph, s: State, k: nat)
    requires Sized(g, s)
  {
    forall j: nat :: j < k && j < |g.nodes| ==> s.phase[j] != Unstarted || !Ready(g, s, j)
  }

  ghost predicate AtPc(g: Graph, s: State) {
    && Sized(g, s)
    && (s.pc.Starting? ==> s.culprit == "" && NothingToStart(g, s, s.pc.next))
    && (s.pc.Receiving? ==> !Keep(s) || s.inflight >= Cap(g) || NothingToStart(g, s, |g.nodes|))
    && (s.pc.Returned? ==>
          s.inflight == 0 && s.pc == Outcome(g, s) && (!Keep(s) || NothingToStart(g, s, |g.nodes|)))
  }

  ghost predicate Inv(g: Graph, s: State) {
    && Counts(g, s)
    && Holding(s)
    && KillOk(g, s)
    && Channel(g, s)
    && KeysOk(g, s)
    && (DistinctNames(g.nodes) ==> Stored(g, s) && StartedAreReady(g, s))
    && CulpritIsFirstRed(g, s)
    && NoHiddenRed(g, s)
    && AtPc(g, s)
  }

  lemma InitInv(g: Graph)
    ensures Inv(g, Init(g))
  {
    assert InFlight(Init(g).phase) == {};
  }

  function Bit(p: Phase): nat {
    if Flying(p) then 1 else 0
  }

  lemma FlyingUpdate(phase: seq<Phase>, i: nat, p: Phase)
    requires i < |phase|
    ensures |InFlight(phase[i := p])| == |InFlight(phase)| - Bit(phase[i]) + Bit(p)
  {
    var was, now := InFlight(phase), InFlight(phase[i := p]);
    assert now == if Flying(p) then was + {i} else was - {i};
  }

  lemma CountsScan(g: Graph, s: State)
    requires Counts(g, s) && Enabled(g, s, Scan)
    ensures Counts(g, Apply(g, s, Scan))
  {
    if s.pc.next < |g.nodes| { FlyingUpdate(s.phase, s.pc.next, WaitingForSlot); }
  }

  lemma CountsReceive(g: Graph, s: State)
    requires Counts(g, s) && Channel(g, s) && Enabled(g, s, Receive)
    ensures Counts(g, Apply(g, s, Receive))
  {
    assert InPhase(s, s.done[0].idx, InChannel);
    FlyingUpdate(s.phase, s.done[0].idx, Received);
  }

  lemma CountsStep(g: Graph, s: State, step: Step)
    requires Counts(g, s) && Channel(g, s) && Enabled(g, s, step)
    ensures Counts(g, Apply(g, s, step))
  {
    match step
    case Scan => CountsScan(g, s);
    case Receive => CountsReceive(g, s);
    case GetSlot(i) => FlyingUpdate(s.phase, i, Executing);
    case SlotWaitFails(i) => FlyingUpdate(s.phase, i, InChannel);
    case CommandReturns(i, _) => FlyingUpdate(s.phase, i, CommandDone);
    case Deliver(i) => FlyingUpdate(s.phase, i, InChannel);
    case _ =>
  }

  /** Steps of Run itself that touch neither nodes nor results. */
  predicate PlainStep(step: Step) {
    step.Enter? || step.Conclude? || step.DrainEnd? || step.Cull? || step.Cancel?
  }

  lemma PlainStepFrame(g: Graph, s: State, step: Step)
    requires Enabled(g, s, step) && PlainStep(step)
    ensures var t := Apply(g, s, step);
            && t.phase == s.phase && t.holders == s.holders && t.done == s.done
            && t.returned == s.returned && t.results == s.results && (Keep(t) ==> Keep(s))
  {
  }

  /** Node i moves on; every other node keeps its place and its slot. */
  lemma HoldingUpdate(s: State, t: State, i: nat)
    requires Holding(s) && i < |s.phase| == |t.phase|
    requires forall j :: j in t.holders ==> j in s.holders || j == i
    requires forall j: nat :: j < |s.phase| && j != i ==>
               t.phase[j] == s.phase[j] && (j in t.holders <==> j in s.holders) && (j in s.returned ==> j in t.returned)
    requires HoldsRightly(t.phase[i], i in t.holders, i in t.returned)
    ensures Holding(t)
  {
    forall j: nat | j < |t.phase| ensures HoldsRightly(t.phase[j], j in t.holders, j in t.returned) {
      if j != i { assert HoldsRightly(s.phase[j], j in s.holders, j in s.returned); }
    }
  }

  lemma HoldingScan(g: Graph, s: State)
    requires Holding(s) && Enabled(g, s, Scan)
    ensures Holding(Apply(g, s, Scan))
  {
    var i := s.pc.next;
    if i < |g.nodes| {
      assert HoldsRightly(s.phase[i], i in s.holders, i in s.returned);
      HoldingUpdate(s, Apply(g, s, Scan), i);
    }
  }

  lemma HoldingNode(g: Graph, s: State, step: Step, i: nat)
    requires Holding(s) && Channel(g, s) && Enabled(g, s, step) && !PlainStep(step) && !step.Scan?
    requires i == if step.Receive? then s.done[0].idx else step.i
    ensures Holding(Apply(g, s, step))
  {
    if step.Receive? { assert InPhase(s, i, InChannel); }
    assert HoldsRightly(s.phase[i], i in s.holders, i in s.returned);
    HoldingUpdate(s, Apply(g, s, step), i);
  }

  lemma HoldingStep(g: Graph, s: State, step: Step)
    requires Holding(s) && Channel(g, s) && Enabled(g, s, step)
    ensures Holding(Apply(g, s, step))
  {
    if PlainStep(step) {
      PlainStepFrame(g, s, step);
    } else if step.Scan? {
      HoldingScan(g, s);
    } else {
      HoldingNode(g, s, step, if step.Receive? then s.done[0].idx else step.i);
    }
  }

  lemma ChannelReceive(g: Graph, s: State)
    requires Channel(g, s) && Enabled(g, s, Receive)
    ensures Channel(g, Apply(g, s, Receive))
  {
    var t := Apply(g, s, Receive);
    forall i: nat | i < |t.phase| && t.phase[i] == InChannel ensures HasMessage(t.done, i) {
      assert HasMessage(s.done, i);
      var k :| 0 <= k < |s.done| && s.done[k].idx == i;
      assert t.done[k - 1].idx == i;
    }
  }

  lemma ChannelAppend(g: Graph, s: State, t: State, msg: NodeDone)
    requires Channel(g, s) && msg.idx < |s.phase| && s.phase[msg.idx] != InChannel
    requires t.phase == s.phase[msg.idx := InChannel] && t.done == s.done + [msg] && t.returned == s.returned
    requires Keep(t) ==> Keep(s) && Recordable(g, s, msg.idx, msg.res)
    ensures Channel(g, t)
  {
    forall i: nat | i < |t.phase| && t.phase[i] == InChannel ensures HasMessage(t.done, i) {
      if i == msg.idx {
        assert t.done[|s.done|].idx == i;
      } else {
        assert HasMessage(s.done, i);
        var k :| 0 <= k < |s.done| && s.done[k].idx == i;
        assert t.done[k].idx == i;
      }
    }
  }

  lemma ChannelSend(g: Graph, s: State, step: Step)
    requires KillOk(g, s) && Channel(g, s) && Enabled(g, s, step) && (step.SlotWaitFails? || step.Deliver?)
    ensures Channel(g, Apply(g, s, step))
  {
    var t := Apply(g, s, step);
    ChannelAppend(g, s, t, t.done[|s.done|]);
  }

  lemma ChannelFrame(g: Graph, s: State, t: State)
    requires Channel(g, s) && Sized(g, t) && t.done == s.done && (Keep(t) ==> Keep(s))
    requires forall i: nat :: i < |s.phase| ==> (t.phase[i] == InChannel <==> s.phase[i] == InChannel)
    requires forall i: nat :: i < |s.phase| && s.phase[i] == InChannel && i in s.returned ==>
                i in t.returned && t.returned[i] == s.returned[i]
    ensures Channel(g, t)
  {
    forall k | 0 <= k < |t.done| ensures InPhase(t, t.done[k].idx, InChannel) {
      assert InPhase(s, s.done[k].idx, InChannel);
    }
    forall i: nat | i < |t.phase| && t.phase[i] == InChannel ensures HasMessage(t.done, i) {
      assert HasMessage(s.done, i);
    }
  }

  lemma KillStep(g: Graph, s: State, step: Step)
    requires KillOk(g, s) && Enabled(g, s, step)
    ensures KillOk(g, Apply(g, s, step))
  {
  }

  lemma KeysStep(g: Graph, s: State, step: Step)
    requires KeysOk(g, s) && Enabled(g, s, step)
    ensures KeysOk(g, Apply(g, s, step))
  {
    if step.Receive? { assert g.nodes[s.done[0].idx].name in NamesOf(g.nodes); }
  }

  lemma ChannelStep(g: Graph, s: State, step: Step)
    requires KillOk(g, s) && Channel(g, s) && Enabled(g, s, step)
    ensures Channel(g, Apply(g, s, step))
  {
    if PlainStep(step) {
      PlainStepFrame(g, s, step);
      ChannelFrame(g, s, Apply(g, s, step));
    } else if step.Receive? {
      ChannelReceive(g, s);
    } else if step.SlotWaitFails? || step.Deliver? {
      ChannelSend(g, s, step);
    } else {
      ChannelFrame(g, s, Apply(g, s, step));
    }
  }

  lemma StoredReceive(g: Graph, s: State)
    requires DistinctNames(g.nodes) && Channel(g, s) && Stored(g, s) && Enabled(g, s, Receive)
    ensures Stored(g, Apply(g, s, Receive))
  {
    assert InPhase(s, s.done[0].idx, InChannel);
  }

  lemma StoredFrame(g: Graph, s: State, t: State)
    requires Stored(g, s) && Sized(g, t)
    requires t.results == s.results && (Keep(t) ==> Keep(s))
    requires forall i: nat :: i < |s.phase| ==> (t.phase[i] == Received <==> s.phase[i] == Received)
    requires forall i: nat :: i < |s.phase| && s.phase[i] == Received && i in s.returned ==>
                i in t.returned && t.returned[i] == s.returned[i]
    ensures Stored(g, t)
  {
  }

  /** Node steps other than a receive leave results and received nodes as they are. */
  lemma NodeStepFrame(g: Graph, s: State, step: Step)
    requires Enabled(g, s, step) && !PlainStep(step) && !step.Receive?
    ensures var t := Apply(g, s, step);
            && Sized(g, t) && t.results == s.results && (Keep(t) ==> Keep(s))
            && (forall i: nat :: i < |s.phase| ==> (t.phase[i] == Received <==> s.phase[i] == Received))
  {
  }

  lemma NodeStepReports(g: Graph, s: State, step: Step)
    requires Enabled(g, s, step) && !PlainStep(step) && !step.Receive?
    ensures var t := Apply(g, s, step);
            forall i: nat :: i < |s.phase| && s.phase[i] == Received && i in s.returned ==>
              i in t.returned && t.returned[i] == s.returned[i]
  {
  }

  lemma StoredStep(g: Graph, s: State, step: Step)
    requires DistinctNames(g.nodes) && Channel(g, s) && Stored(g, s) && Enabled(g, s, step)
    ensures Stored(g, Apply(g, s, step))
  {
    if PlainStep(step) {
      PlainStepFrame(g, s, step);
      StoredFrame(g, s, Apply(g, s, step));
    } else if step.Receive? {
      StoredReceive(g, s);
    } else {
      NodeStepFrame(g, s, step);
      NodeStepReports(g, s, step);
      StoredFrame(g, s, Apply(g, s, step));
    }
  }

  lemma ReadyFrame(g: Graph, s: State, t: State)
    requires StartedAreReady(g, s) && Sized(g, t)
    requires forall n :: n in s.results ==> n in t.results && t.results[n] == s.results[n]
    requires forall i: nat :: i < |g.nodes| && t.phase[i] != Unstarted ==> s.phase[i] != Unstarted || Ready(g, s, i)
    ensures StartedAreReady(g, t)
  {
    forall i: nat | i < |g.nodes| && t.phase[i] != Unstarted ensures Ready(g, t, i) {
      assert Ready(g, s, i);
    }
  }

  /** Only a ready node gets started. */
  lemma StartsReadyNodes(g: Graph, s: State, step: Step)
    requires Channel(g, s) && Enabled(g, s, step)
    ensures var t := Apply(g, s, step);
            && Sized(g, t)
            && forall i: nat :: i < |g.nodes| && t.phase[i] != Unstarted ==> s.phase[i] != Unstarted || Ready(g, s, i)
  {
    if step.Receive? { assert InPhase(s, s.done[0].idx, InChannel); }
  }

  lemma ReadyStep(g: Graph, s: State, step: Step)
    requires DistinctNames(g.nodes) && Channel(g, s) && Stored(g, s) && StartedAreReady(g, s) && Enabled(g, s, step)
    ensures StartedAreReady(g, Apply(g, s, step))
  {
    ResultsOnlyGrow(g, s, step);
    StartsReadyNodes(g, s, step);
    ReadyFrame(g, s, Apply(g, s, step));
  }

  /** A recorded result is never overwritten or dropped. */
  lemma ResultsOnlyGrow(g: Graph, s: State, step: Step)
    requires Channel(g, s) && Stored(g, s) && Enabled(g, s, step)
    ensures forall n :: n in s.results ==>
              n in Apply(g, s, step).results && Apply(g, s, step).results[n] == s.results[n]
  {
    if step.Receive? {
      assert InPhase(s, s.done[0].idx, InChannel);
      assert g.nodes[s.done[0].idx].name !in s.results;
    }
  }

  lemma VerdictStep(g: Graph, s: State, step: Step)
    requires CulpritIsFirstRed(g, s) && NoHiddenRed(g, s) && Enabled(g, s, step)
    ensures CulpritIsFirstRed(g, Apply(g, s, step)) && NoHiddenRed(g, Apply(g, s, step))
  {
  }

  lemma PcScan(g: Graph, s: State)
    requires AtPc(g, s) && Enabled(g, s, Scan)
    ensures AtPc(g, Apply(g, s, Scan))
  {
  }

  /** Between Run's own steps its position, its counter and the results stand still, and
      no node gets started. */
  lemma PcFrame(g: Graph, s: State, t: State)
    requires AtPc(g, s) && Sized(g, t) && !s.pc.Returned?
    requires t.pc == s.pc && t.inflight == s.inflight && t.results == s.results && t.culprit == s.culprit
    requires s.cancelled ==> t.cancelled
    requires forall j: nat :: j < |g.nodes| ==> (t.phase[j] == Unstarted <==> s.phase[j] == Unstarted)
    ensures AtPc(g, t)
  {
    assert forall j: nat :: j < |g.nodes| ==> (Ready(g, t, j) <==> Ready(g, s, j));
  }

  lemma PcStep(g: Graph, s: State, step: Step)
    requires AtPc(g, s) && Enabled(g, s, step)
    ensures AtPc(g, Apply(g, s, step))
  {
    if step.Scan? {
      PcScan(g, s);
    } else if PlainStep(step) {
      PcPlain(g, s, step);
    } else if !step.Receive? && !s.pc.Returned? {
      PcFrame(g, s, Apply(g, s, step));
    }
  }

  lemma PcPlain(g: Graph, s: State, step: Step)
    requires AtPc(g, s) && Enabled(g, s, step) && PlainStep(step)
    ensures AtPc(g, Apply(g, s, step))
  {
  }

  lemma InvStep(g: Graph, s: State, step: Step)
    requires Inv(g, s) && Enabled(g, s, step)
    ensures Inv(g, Apply(g, s, step))
  {
    CountsStep(g, s, step);
    HoldingStep(g, s, step);
    KillStep(g, s, step);
    ChannelStep(g, s, step);
    KeysStep(g, s, step);
    if DistinctNames(g.nodes) {
      StoredStep(g, s, step);
      ReadyStep(g, s, step);
    }
    VerdictStep(g, s, step);
    PcStep(g, s, step);
  }

  /** Every state of every run, under every interleaving, satisfies the invariant. */
  lemma {:induction false} EveryRunKeepsInv(g: Graph, states: seq<State>, steps: seq<Step>)
    requires IsRun(g, states, steps)
    ensures forall k :: 0 <= k < |states| ==> Inv(g, states[k])
  {
    InitInv(g);
    var k := 0;
    while k < |steps|
      invariant 0 <= k <= |steps|
      invariant forall m :: 0 <= m <= k ==> Inv(g, states[m])
    {
      InvStep(g, states[k], steps[k]);
      k := k + 1;
    }
  }

  lemma KeepsInvAt(g: Graph, states: seq<State>, steps: seq<Step>, k: nat)
    requires IsRun(g, states, steps) && k < |states|
    ensures Inv(g, states[k])
  {
    EveryRunKeepsInv(g, states, steps);
  }

  lemma ExtendRun(g: Graph, states: seq<State>, steps: seq<Step>, step: Step)
    requires IsRun(g, states, steps) && Enabled(g, states[|steps|], step)
    ensures IsRun(g, states + [Apply(g, states[|steps|], step)], steps + [step])
  {
  }
}
