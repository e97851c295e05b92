/** Run as the program it is: its loops and local variables, with the node goroutines and
    the context left free to move between any two of its steps. Every execution is shown
    to be a run of the transition system, so every theorem about runs is about Run. */
module SchedulerRun {
  import opened DeploySpec
  import opened GraphScheduler
  import opened GraphVerdict
  import opened GraphDrain

  class Scheduler {
    const g: Graph

    // Run's own variables.
    var results: map<string, CheckResult>
    var started: seq<bool>
    var inflight: int
    var culprit: string
    var killed: bool

    // What the node goroutines, the slot pool and the context own.
    var phase: seq<Phase>
    var holders: set<nat>
    var done: seq<NodeDone>
    var returned: map<nat, CheckResult>
    var cancelled: bool

    // Where Run stands, and the run taken so far.
    ghost var pc: Pc
    ghost var states: seq<State>
    ghost var steps: seq<Step>

    constructor (g: Graph)
      ensures this.g == g && Valid() && pc == LoopHead
    {
      this.g := g;
      results, started, inflight, culprit, killed := map[], seq(|g.nodes|, _ => false), 0, "", false;
      phase, holders, done, returned, cancelled := seq(|g.nodes|, _ => Unstarted), {}, [], map[], false;
      pc := LoopHead;
      states, steps := [Init(g)], [];
    }

    ghost function Now(): State
      reads this
    {
      State(phase, holders, done, returned, results, inflight, culprit, cancelled, killed, pc)
    }

    ghost predicate Valid()
      reads this
    {
      && IsRun(g, states, steps)
      && states[|steps|] == Now()
      && |started| == |g.nodes| == |phase|
      && forall i :: 0 <= i < |started| ==> (started[i] <==> phase[i] != Unstarted)
    }

    /** The recorded run keeps the scheduler's invariant. */
    lemma Holds()
      requires Valid()
      ensures Inv(g, Now())
    {
      KeepsInvAt(g, states, steps, |steps|);
    }

    /** Append the step just taken to the recorded run. */
    ghost method Log(step: Step)
      requires IsRun(g, states, steps)
      requires Enabled(g, states[|steps|], step) && Now() == Apply(g, states[|steps|], step)
      requires |started| == |g.nodes| == |phase|
      requires forall i :: 0 <= i < |started| ==> (started[i] <==> phase[i] != Unstarted)
      modifies this`states, this`steps
      ensures Valid() && steps == old(steps) + [step]
      ensures Measure(g, Now()) < old(Measure(g, states[|steps|]))
    {
      KeepsInvAt(g, states, steps, |steps|);
      StepDecreases(g, states[|steps|], step);
      ExtendRun(g, states, steps, step);
      states, steps := states + [Now()], steps + [step];
    }

    lemma GoroutineFacts(i: nat)
      requires Valid() && i < |phase|
      ensures i < |g.nodes|
      ensures phase[i] == CommandDone ==> i in returned
      ensures phase[i] != InChannel ==> |done| < |g.nodes|
      ensures i in holders ==> phase[i] != Unstarted && phase[i] != WaitingForSlot
    {
      Holds();
      assert HoldsRightly(phase[i], i in holders, i in returned);
      if phase[i] != InChannel { SendFits(g, Now(), i); }
    }

    lemma MessageFacts()
      requires Valid() && done != []
      ensures done[0].idx < |g.nodes| == |phase|
      ensures phase[done[0].idx] == InChannel
    {
      Holds();
      assert InPhase(Now(), done[0].idx, InChannel);
    }

    lemma FlightFacts() returns (i: nat)
      requires Valid() && inflight != 0 && done == []
      ensures i < |phase| && Flying(phase[i]) && phase[i] != InChannel
    {
      Holds();
      i :| i in InFlight(phase);
      assert !HasMessage(done, i);
    }

    /** Waiting for capacity ends with a slot, or with a dead context. */
    method LeaveSlotQueue(i: nat)
      requires Valid() && i < |phase| && phase[i] == WaitingForSlot
      modifies this`phase, this`holders, this`done, this`states, this`steps
      ensures Valid() && old(done) <= done && Measure(g, Now()) < old(Measure(g, Now()))
    {
      GoroutineFacts(i);
      var giveUp: bool := *;
      if giveUp && (cancelled || killed) {
        phase, done := phase[i := InChannel], done + [NodeDone(i, SlotWaitError(g, i))];
        Log(SlotWaitFails(i));
      } else {
        phase, holders := phase[i := Executing], holders + {i};
        Log(GetSlot(i));
      }
    }

    /** The command reports something; its result is sent under the node's name. */
    method ReportOrSend(i: nat)
      requires Valid() && i < |phase| && (phase[i] == Executing || phase[i] == CommandDone)
      modifies this`phase, this`done, this`returned, this`states, this`steps
      ensures Valid() && old(done) <= done && Measure(g, Now()) < old(Measure(g, Now()))
    {
      GoroutineFacts(i);
      if phase[i] == Executing {
        var res: CheckResult := *;
        phase, returned := phase[i := CommandDone], returned[i := res];
        Log(CommandReturns(i, res));
      } else {
        phase, done := phase[i := InChannel], done + [NodeDone(i, Named(g, i, returned[i]))];
        Log(Deliver(i));
      }
    }

    /** The next action of node i's goroutine, if it has one: take a slot (or give up
        waiting on a dead context), run the command, send the result, release the slot. */
    method Advance(i: nat)
      requires Valid() && i < |phase|
      modifies this`phase, this`holders, this`done, this`returned, this`states, this`steps
      ensures Valid() && old(done) <= done
      ensures Measure(g, Now()) <= old(Measure(g, Now()))
      ensures old(Flying(phase[i]) && phase[i] != InChannel) ==> Measure(g, Now()) < old(Measure(g, Now()))
    {
      GoroutineFacts(i);
      if phase[i] == WaitingForSlot {
        LeaveSlotQueue(i);
      } else if phase[i] == Executing || phase[i] == CommandDone {
        ReportOrSend(i);
      } else if phase[i] != Unstarted && i in holders {
        holders := holders - {i};
        Log(ReleaseSlot(i));
      }
    }

    /** Anything the other goroutines and the context may do meanwhile. */
    method World()
      requires Valid() && !pc.Returned?
      modifies this`phase, this`holders, this`done, this`returned, this`cancelled, this`states, this`steps
      ensures Valid() && old(done) <= done
      ensures Measure(g, Now()) <= old(Measure(g, Now()))
    {
      var rounds: nat := *;
      while rounds > 0
        invariant Valid() && old(done) <= done
        invariant Measure(g, Now()) <= old(Measure(g, Now()))
      {
        var cancel: bool, i: nat := *, *;
        if cancel && !cancelled {
          cancelled := true;
          Log(Cancel);
        } else if i < |phase| {
          Advance(i);
        }
        rounds := rounds - 1;
      }
    }

    /** The blocking receive: some node in flight gets to send. */
    method AwaitResult()
      requires Valid() && pc == Receiving && inflight != 0
      modifies this`phase, this`holders, this`done, this`returned, this`cancelled, this`states, this`steps
      ensures Valid() && done != []
      ensures Measure(g, Now()) <= old(Measure(g, Now()))
    {
      while done == []
        invariant Valid()
        invariant Measure(g, Now()) <= old(Measure(g, Now()))
        decreases Measure(g, Now())
      {
        ghost var j := FlightFacts();
        var i: nat :| i < |phase| && Flying(phase[i]) && phase[i] != InChannel;
        Advance(i);
        World();
      }
    }

    method ReceiveOne()
      requires Valid() && done != [] && (pc == Draining || (pc == Receiving && inflight != 0))
      modifies this`done, this`inflight, this`phase, this`results, this`pc, this`states, this`steps
      ensures Valid() && pc == Draining && steps == old(steps) + [Receive]
      ensures Measure(g, Now()) < old(Measure(g, Now()))
    {
      var f := done[0];
      MessageFacts();
      Store(f);
      done, phase, inflight, pc := done[1..], phase[f.idx := Received], inflight - 1, Draining;
      Log(Receive);
    }

    /** A run that has concluded keeps nothing further. */
    method Store(f: NodeDone)
      requires f.idx < |g.nodes|
      modifies this`results
      ensures results == if culprit == "" && !cancelled then old(results)[g.nodes[f.idx].name := f.res] else old(results)
    {
      if culprit == "" && !cancelled { results := results[g.nodes[f.idx].name := f.res]; }
    }

    /** One node of the start loop: skipped if started or not ready, else started. */
    method StartIfReady(i: nat)
      requires Valid() && pc == Starting(i) && i < |g.nodes| && inflight < Cap(g)
      modifies this`started, this`inflight, this`phase, this`pc, this`states, this`steps
      ensures steps == old(steps) + [Scan]
      ensures Valid() && pc == Starting(i + 1) && Measure(g, Now()) < old(Measure(g, Now()))
    {
      var ready := AllDepsGreen(i);
      if !started[i] && ready {
        started := started[i := true];
        inflight := inflight + 1;
        phase := phase[i := WaitingForSlot];
      }
      pc := Starting(i + 1);
      Log(Scan);
    }

    /** Step 1: start every ready node in spec order, up to the cap. */
    method StartReady()
      requires Valid() && pc == Starting(0)
      modifies this`started, this`inflight, this`phase, this`holders, this`done, this`returned, this`cancelled,
               this`pc, this`states, this`steps
      ensures Valid() && pc == Receiving
      ensures Measure(g, Now()) <= old(Measure(g, Now()))
    {
      var maxParallel := if g.maxParallel < 1 then 1 else g.maxParallel;
      var i := 0;
      while i < |g.nodes| && inflight < maxParallel
        invariant i <= |g.nodes|
        invariant Valid() && pc == Starting(i)
        invariant Measure(g, Now()) <= old(Measure(g, Now()))
      {
        StartIfReady(i);
        World();
        i := i + 1;
      }
      pc := Receiving;
      Log(Scan);
    }

    method AllDepsGreen(i: nat) returns (ready: bool)
      requires i < |g.nodes|
      ensures ready <==> Ready(g, Now(), i)
    {
      var after := g.nodes[i].after;
      for k := 0 to |after|
        invariant forall d :: d in after[..k] ==> DepGreen(results, d)
      {
        assert after[k] in after;
        if after[k] !in results || !NodeGreen(results[after[k]]) { return false; }
        assert after[..k + 1] == after[..k] + [after[k]];
      }
      assert after[..|after|] == after;
      return true;
    }

    /** Step 3: the first non-green result in spec order becomes the culprit. */
    method CullFirstRed()
      requires Valid() && pc == Culling
      modifies this`culprit, this`killed, this`pc, this`states, this`steps
      ensures Valid() && pc == LoopHead && steps == old(steps) + [Cull]
      ensures Measure(g, Now()) < old(Measure(g, Now()))
    {
      if culprit == "" && !cancelled {
        var i := 0;
        while i < |g.nodes| && !(g.nodes[i].name in results && !NodeGreen(results[g.nodes[i].name]))
          invariant i <= |g.nodes|
          invariant FirstRed(g, results, 0) == FirstRed(g, results, i)
        {
          i := i + 1;
        }
        if i < |g.nodes| { culprit, killed := g.nodes[i].name, true; }
      }
      pc := LoopHead;
      Log(Cull);
    }

    /** Step 4: one row per node, in spec order. */
    method Materialize(blame: string) returns (out: seq<CheckResult>)
      ensures out == Rows(g, results, blame)
    {
      ghost var all := RowsByNode(g, results, blame);
      out := [];
      for i := 0 to |g.nodes|
        invariant out == Somes(all[..i])
      {
        var n := g.nodes[i];
        assert all[..i + 1][..i] == all[..i] && all[..i + 1][i] == Row(g, results, blame, i);
        if n.name in results {
          out := out + [results[n.name].(seqNo := i + 1)];
        } else if blame != "" {
          var blockedBy := BlockersOf(n.after);
          if blockedBy == [] { blockedBy := [blame]; }
          out := out + [CheckResult(n.name, i + 1, Blocked, false, blockedBy, "")];
        }
      }
      assert all[..|g.nodes|] == all;
    }

    method BlockersOf(after: seq<string>) returns (blockedBy: seq<string>)
      ensures blockedBy == Unsatisfied(after, results)
    {
      blockedBy := [];
      for k := 0 to |after|
        invariant blockedBy == Unsatisfied(after[..k], results)
      {
        assert after[..k + 1][..k] == after[..k];
        if after[k] !in results || !NodeGreen(results[after[k]]) { blockedBy := blockedBy + [after[k]]; }
      }
      assert after[..|after|] == after;
    }

    /** Step 2: one blocking receive, then everything else already sent. */
    method Drain()
      requires Valid() && pc == Receiving && inflight != 0
      modifies this`done, this`inflight, this`phase, this`results, this`holders, this`returned, this`cancelled,
               this`pc, this`states, this`steps
      ensures Valid() && pc == Culling
      ensures Measure(g, Now()) < old(Measure(g, Now()))
    {
      AwaitResult();
      ReceiveOne();
      World();
      while done != []
        invariant Valid() && pc == Draining
        invariant Measure(g, Now()) < old(Measure(g, Now()))
        decreases Measure(g, Now())
      {
        ReceiveOne();
        World();
      }
      pc := Culling;
      Log(DrainEnd);
    }

    /** One turn of the loop; `concluded` says nothing is left in flight. */
    method Turn() returns (concluded: bool)
      requires Valid() && pc == LoopHead
      modifies this
      ensures Valid()
      ensures if concluded then pc == Receiving && inflight == 0
              else pc == LoopHead && Measure(g, Now()) < old(Measure(g, Now()))
    {
      World();
      var keep := culprit == "" && !cancelled;
      pc := if keep then Starting(0) else Receiving;
      Log(Enter);
      if keep { StartReady(); }
      World();
      if inflight == 0 { return true; }
      Drain();
      World();
      CullFirstRed();
      return false;
    }

    /** The whole run. It always returns, whatever the goroutines and the context do, what
        it returns is what the transition system returns, and that verdict is exact. */
    method Run() returns (rows: seq<CheckResult>, blame: string, err: RunError)
      requires Valid() && pc == LoopHead
      modifies this
      ensures Valid() && pc == Returned(rows, blame, err)
      ensures DistinctNames(g.nodes) && UnnamedAreAwaited(g) ==> Exact(g, Now())
      ensures DistinctNames(g.nodes) ==> ArrivedIsKept(g, states, Now())
      ensures UnnamedAreAwaited(g) && err == NoError && blame == "" ==> AllGreen(g, Now(), rows)
      ensures Schedulable(g.nodes) ==> err != Unsatisfiable
    {
      var concluded := false;
      while !concluded
        invariant Valid()
        invariant if concluded then pc == Receiving && inflight == 0 else pc == LoopHead
        decreases !concluded, Measure(g, Now())
      {
        concluded := Turn();
      }
      World();
      rows, blame, err := Conclude();
      Holds();
      if UnnamedAreAwaited(g) {
        if DistinctNames(g.nodes) { ReturnIsExact(g, Now()); }
        if err == NoError && blame == "" { GreenReturn(g, Now()); }
      }
      if DistinctNames(g.nodes) { NothingArrivedIsLost(g, states, steps); }
      if Schedulable(g.nodes) { SchedulableIsSatisfiable(g, Now()); }
    }

    /** The final switch: an outside cancellation drops the culprit. */
    method Conclude() returns (rows: seq<CheckResult>, blame: string, err: RunError)
      requires Valid() && pc == Receiving && inflight == 0
      modifies this`pc, this`states, this`steps
      ensures Valid() && pc == Returned(rows, blame, err) && steps == old(steps) + [Step.Conclude]
    {
      if cancelled {
        blame, err := "", Cancelled;
      } else if culprit == "" && |results| != |g.nodes| {
        blame, err := "", Unsatisfiable;
      } else {
        blame, err := culprit, NoError;
      }
      rows := Materialize(blame);
      pc := Returned(rows, blame, err);
      Log(Step.Conclude);
    }
  }
}
