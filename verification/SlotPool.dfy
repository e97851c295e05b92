/** The daemon-wide execution slots: a counter with a reserve for urgent work, and a
    channel that is closed and replaced by every release to wake the waiters. */
module SlotPool {

  /** The most slots that may be in use after an acquire of this kind. */
  function LimitFor(limit: nat, reserve: nat, urgent: bool): int {
    if urgent then limit else limit - reserve
  }

  // ---------------------------------------------------------------- any number of clients

  datatype Client = Idle | Entering | Asleep(chan: nat) | Ordinary | Urgent

  datatype Pool = Pool(limit: nat, reserve: nat, used: int, changed: nat, clients: map<nat, Client>)

  datatype Step =
    | Try(c: nat, urgent: bool)
    | Call(c: nat)
    | Locked(c: nat, dead: bool)
    | Wake(c: nat)
    | ContextDone(c: nat)
    | Release(c: nat)

  function At(p: Pool, c: nat): Client {
    if c in p.clients then p.clients[c] else Idle
  }

  predicate Enabled(p: Pool, step: Step) {
    match step
    case Try(c, _) => At(p, c) == Idle
    case Call(c) => At(p, c) == Idle
    case Locked(c, _) => At(p, c) == Entering
    case Wake(c) => At(p, c).Asleep? && At(p, c).chan < p.changed
    case ContextDone(c) => At(p, c).Asleep?
    case Release(c) => At(p, c) == Ordinary || At(p, c) == Urgent
  }

  function Move(p: Pool, c: nat, to: Client): Pool {
    p.(clients := p.clients[c := to])
  }

  function Apply(p: Pool, step: Step): Pool
    requires Enabled(p, step)
  {
    match step
    case Try(c, urgent) =>
      if p.used < LimitFor(p.limit, p.reserve, urgent)
      then Move(p, c, if urgent then Urgent else Ordinary).(used := p.used + 1) else p
    case Call(c) => Move(p, c, Entering)
    case Locked(c, dead) =>
      if dead then Move(p, c, Idle)
      else if p.used < LimitFor(p.limit, p.reserve, false) then Move(p, c, Ordinary).(used := p.used + 1)
      else Move(p, c, Asleep(p.changed))
    case Wake(c) => Move(p, c, Entering)
    case ContextDone(c) => Move(p, c, Idle)
    case Release(c) => Move(p, c, Idle).(used := p.used - 1, changed := p.changed + 1)
  }

  ghost predicate IsRun(pools: seq<Pool>, steps: seq<Step>) {
    && |pools| == |steps| + 1
    && pools[0].reserve < pools[0].limit && pools[0].used == 0 && pools[0].clients == map[]
    && forall k :: 0 <= k < |steps| ==> Enabled(pools[k], steps[k]) && pools[k + 1] == Apply(pools[k], steps[k])
  }

  function Holders(p: Pool, kind: Client): set<nat> {
    set c | c in p.clients && p.clients[c] == kind
  }

  ghost predicate Inv(p: Pool) {
    && p.reserve < p.limit
    && p.used == |Holders(p, Ordinary)| + |Holders(p, Urgent)| <= p.limit
    && |Holders(p, Ordinary)| <= p.limit - p.reserve
    && forall c :: c in p.clients && p.clients[c].Asleep? ==>
         p.clients[c].chan <= p.changed
         && (p.clients[c].chan == p.changed ==> p.used >= p.limit - p.reserve)
  }

  lemma MoveHolders(p: Pool, c: nat, to: Client, kind: Client)
    requires kind == Ordinary || kind == Urgent
    ensures |Holders(Move(p, c, to), kind)|
            == |Holders(p, kind)| - (if At(p, c) == kind then 1 else 0) + (if to == kind then 1 else 0)
  {
    var was, now := Holders(p, kind), Holders(Move(p, c, to), kind);
    assert now == if to == kind then was + {c} else was - {c};
  }

  lemma InvStep(p: Pool, step: Step)
    requires Inv(p) && Enabled(p, step)
    ensures Inv(Apply(p, step))
  {
    var q := Apply(p, step);
    var to := At(q, step.c);
    MoveHolders(p, step.c, to, Ordinary);
    MoveHolders(p, step.c, to, Urgent);
    if q != p {
      assert q.clients == Move(p, step.c, to).clients;
      assert Holders(q, Ordinary) == Holders(Move(p, step.c, to), Ordinary);
      assert Holders(q, Urgent) == Holders(Move(p, step.c, to), Urgent);
    }
  }

  /** In every state of every run: ordinary holders stay below the reserve line; an urgent
      request is granted whenever fewer urgent slots are out than were reserved; a client
      asleep on a channel nobody has closed is asleep because ordinary capacity is full,
      and then somebody holds a slot whose release will wake it; and a holder's release
      never finds the counter at zero. */
  lemma {:induction false} SlotsAreSafe(pools: seq<Pool>, steps: seq<Step>, k: nat, c: nat)
    requires IsRun(pools, steps) && k < |pools|
    ensures var p := pools[k];
            && |Holders(p, Ordinary)| <= p.limit - p.reserve
            && (|Holders(p, Urgent)| < p.reserve ==> p.used < LimitFor(p.limit, p.reserve, true))
            && (At(p, c).Asleep? && At(p, c).chan == p.changed ==>
                  p.used >= p.limit - p.reserve && exists h :: Enabled(p, Release(h)))
            && (Enabled(p, Release(c)) ==> p.used > 0)
  {
    RunKeepsInv(pools, steps, k);
    var p := pools[k];
    if Enabled(p, Release(c)) {
      assert c in Holders(p, Ordinary) || c in Holders(p, Urgent);
    }
    if At(p, c).Asleep? && At(p, c).chan == p.changed { SomebodyHolds(p); }
  }

  /** Full ordinary capacity has a holder. */
  lemma SomebodyHolds(p: Pool)
    requires Inv(p) && p.used >= p.limit - p.reserve
    ensures exists h :: Enabled(p, Release(h))
  {
    assert Holders(p, Ordinary) != {} || Holders(p, Urgent) != {};
    var h :| h in Holders(p, Ordinary) || h in Holders(p, Urgent);
    assert Enabled(p, Release(h));
  }

  lemma {:induction false} RunKeepsInv(pools: seq<Pool>, steps: seq<Step>, k: nat)
    requires IsRun(pools, steps) && k < |pools|
    ensures Inv(pools[k])
  {
    if k == 0 {
      assert Holders(pools[0], Ordinary) == {} && Holders(pools[0], Urgent) == {};
    } else {
      RunKeepsInv(pools, steps, k - 1);
      InvStep(pools[k - 1], steps[k - 1]);
    }
  }

  // ---------------------------------------------------------------- the object itself

  datatype Turn = GaveUp | GotSlot | SleepOn(chan: nat)

  /** Every call is made on behalf of a client, and the calls together are a run of the
      clients' transition system. */
  class Slots {
    const limit: nat
    const reserve: nat
    var used: nat

    /** The channel `changed`, as the number of releases before it was made. */
    var changed: nat

    // What the calling goroutines are doing.
    var clients: map<nat, Client>

    // The run taken so far.
    ghost var pools: seq<Pool>
    ghost var steps: seq<Step>

    constructor (n: nat, reserve: nat)
      requires reserve < n
      ensures limit == n && this.reserve == reserve && used == 0 && Valid() && clients == map[]
    {
      this.limit, this.reserve := n, reserve;
      used, changed, clients := 0, 0, map[];
      pools, steps := [Pool(n, reserve, 0, 0, map[])], [];
    }

    ghost function Now(): Pool
      reads this
    {
      Pool(limit, reserve, used, changed, clients)
    }

    ghost predicate Valid()
      reads this
    {
      IsRun(pools, steps) && pools[|steps|] == Now()
    }

    /** Append the step just taken to the recorded run. */
    ghost method Log(step: Step)
      requires IsRun(pools, steps) && Enabled(pools[|steps|], step) && Now() == Apply(pools[|steps|], step)
      modifies this`pools, this`steps
      ensures Valid() && steps == old(steps) + [step]
    {
      pools, steps := pools + [Now()], steps + [step];
    }

    /** Where a caller stands. */
    function Where(c: nat): Client
      reads this
    {
      if c in clients then clients[c] else Idle
    }

    /** The locked core of every acquire. */
    method Take(urgent: bool) returns (ok: bool)
      modifies this`used
      ensures ok <==> old(used) < LimitFor(limit, reserve, urgent)
      ensures used == old(used) + if ok then 1 else 0
    {
      var cap: int := limit;
      if !urgent { cap := cap - reserve; }
      if used >= cap { return false; }
      used := used + 1;
      return true;
    }

    method TryAcquirePriority(urgent: bool, c: nat) returns (ok: bool)
      requires Valid() && Where(c) == Idle
      modifies this
      ensures Valid() && steps == old(steps) + [Try(c, urgent)] && changed == old(changed)
      ensures ok <==> old(used) < LimitFor(limit, reserve, urgent)
      ensures used == old(used) + if ok then 1 else 0
      ensures Where(c) == if !ok then Idle else if urgent then Urgent else Ordinary
      ensures forall d :: d != c ==> Where(d) == old(Where(d))
    {
      ok := Take(urgent);
      if ok { clients := clients[c := if urgent then Urgent else Ordinary]; }
      Log(Try(c, urgent));
    }

    /** One locked turn of the blocking acquire: give up, get a slot, or note the channel
        to sleep on. */
    method AcquireTurn(dead: bool, c: nat) returns (r: Turn)
      requires Valid() && Where(c) == Entering
      modifies this
      ensures Valid() && steps == old(steps) + [Locked(c, dead)] && changed == old(changed)
      ensures r == GaveUp <==> dead
      ensures r == GotSlot <==> !dead && old(used) < LimitFor(limit, reserve, false)
      ensures r == GotSlot ==> used == old(used) + 1 && used <= limit - reserve && Where(c) == Ordinary
      ensures r == GaveUp ==> used == old(used) && Where(c) == Idle
      ensures r.SleepOn? ==> r.chan == changed && used == old(used) && used >= limit - reserve && Where(c) == Asleep(changed)
      ensures forall d :: d != c ==> Where(d) == old(Where(d))
    {
      if dead {
        clients := clients[c := Idle];
        r := GaveUp;
      } else {
        var ok := Take(false);
        clients := clients[c := if ok then Ordinary else Asleep(changed)];
        r := if ok then GotSlot else SleepOn(changed);
      }
      Log(Locked(c, dead));
    }

    /** Only a holder releases, so the counter is never at zero. */
    method Release(c: nat)
      requires Valid() && (Where(c) == Ordinary || Where(c) == Urgent)
      modifies this
      ensures Valid() && steps == old(steps) + [Step.Release(c)]
      ensures old(used) > 0 && used == old(used) - 1 && changed == old(changed) + 1
      ensures forall d :: Where(d) == if d == c then Idle else old(Where(d))
    {
      SlotsAreSafe(pools, steps, |steps|, c);
      used := used - 1;
      changed := changed + 1;
      clients := clients[c := Idle];
      Log(Step.Release(c));
    }

    /** Whether ordinary capacity is full: exactly then an ordinary client that looks now is
        put to sleep. When it is not, everybody asleep has been woken; when it is, somebody
        holds a slot whose release will wake whoever sleeps. */
    method Saturated() returns (r: bool)
      requires Valid()
      ensures r <==> |Holders(Now(), Ordinary)| + |Holders(Now(), Urgent)| >= limit - reserve
      ensures forall c :: Where(c) == Entering ==> (r <==> At(Apply(Now(), Locked(c, false)), c).Asleep?)
      ensures !r ==> forall c :: Where(c).Asleep? ==> Enabled(Now(), Wake(c))
      ensures r ==> exists h :: Enabled(Now(), Step.Release(h))
    {
      RunKeepsInv(pools, steps, |steps|);
      r := used >= limit - reserve;
      if r { SomebodyHolds(Now()); }
    }

    /** Anything the other clients may do. */
    method OthersAct(c: nat)
      requires Valid()
      modifies this
      ensures Valid() && Where(c) == old(Where(c)) && changed >= old(changed)
    {
      var rounds: nat := *;
      while rounds > 0
        invariant Valid() && Where(c) == old(Where(c)) && changed >= old(changed)
      {
        var d: nat := *;
        if d != c { Act(d); }
        rounds := rounds - 1;
      }
    }

    /** Client d's next move, whatever it is. */
    method Act(d: nat)
      requires Valid()
      modifies this
      ensures Valid() && changed >= old(changed) && forall c :: c != d ==> Where(c) == old(Where(c))
    {
      var choice: bool, urgent: bool := *, *;
      match Where(d)
      case Idle =>
        if choice { var ok := TryAcquirePriority(urgent, d); } else { Enter(d); }
      case Entering => var r := AcquireTurn(choice, d);
      case Asleep(chan) => var awake := WakeUp(d, choice);
      case Ordinary => Release(d);
      case Urgent => Release(d);
    }

    /** A client calls the blocking acquire. */
    method Enter(c: nat)
      requires Valid() && Where(c) == Idle
      modifies this
      ensures Valid() && Where(c) == Entering && changed == old(changed)
      ensures forall d :: d != c ==> Where(d) == old(Where(d))
    {
      clients := clients[c := Entering];
      Log(Call(c));
    }

    /** The sleep ends when the channel has been closed, or with the context. */
    method WakeUp(c: nat, closed: bool) returns (awake: bool)
      requires Valid() && Where(c).Asleep?
      modifies this
      ensures Valid() && changed == old(changed)
      ensures Where(c) == if awake then Entering else Idle
      ensures forall d :: d != c ==> Where(d) == old(Where(d))
    {
      awake := closed && Where(c).chan < changed;
      clients := clients[c := if awake then Entering else Idle];
      Log(if awake then Wake(c) else ContextDone(c));
    }

    /** The blocking acquire, for a context that dies after some number of wake-ups at the
        latest: it comes back with a slot below the reserve line, or without one. */
    method Acquire(c: nat) returns (ok: bool)
      requires Valid() && Where(c) == Idle
      modifies this
      ensures Valid() && Where(c) == if ok then Ordinary else Idle
    {
      Enter(c);
      var patience: nat := *;
      while true
        invariant Valid() && Where(c) == Entering
        decreases patience
      {
        OthersAct(c);
        var dead: bool, closed: bool := *, *;
        var turn := AcquireTurn(dead || patience == 0, c);
        if !turn.SleepOn? { return turn.GotSlot?; }
        OthersAct(c);
        var awake := WakeUp(c, closed);
        if !awake { return false; }
        patience := patience - 1;
      }
    }
  }
}
