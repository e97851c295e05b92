/** The installation-token cache: one shared exchange at a time, and an invalidated token
    that never comes back. */
module TokenCache {
  import opened Options

  type Token = string

  /** One exchange with the issuer, as its waiters share it. */
  datatype Exchange = Pending | Minted(token: Token) | Refused

  datatype Mint = Mint(result: Exchange, closed: bool)

  /** Where one call of Token stands. */
  datatype Pc =
    | Idle
    | Entering
    | Waiting(m: nat)
    | Exchanging(m: nat)
    | Installing(m: nat)
    | Closing(m: nat)
    | Returned(token: Token)
    | Failed

  /** `barred` remembers the tokens that were already invalidated when the call started. */
  datatype Call = Call(pc: Pc, barred: set<Token>)

  /** `issued`, `handed` and `dead` remember the tokens the issuer made, those some call
      returned, and those a caller invalidated. */
  datatype State = State(
    token: Token, minting: Option<nat>, mints: seq<Mint>, calls: seq<Call>,
    issued: set<Token>, handed: set<Token>, dead: set<Token>)

  datatype Step =
    | Start(c: nat)
    | Lock(c: nat, current: bool)
    | Issue(c: nat, result: Exchange)
    | Install(c: nat)
    | Close(c: nat)
    | WaitOver(c: nat)
    | GiveUp(c: nat)
    | Invalidate(c: nat)

  predicate Enabled(s: State, step: Step) {
    && step.c < |s.calls|
    && var pc := s.calls[step.c].pc;
       match step
       case Start(_) => pc.Idle?
       case Lock(_, _) => pc.Entering?
       case Issue(_, r) =>
         && pc.Exchanging? && pc.m < |s.mints| && !r.Pending?
         // The issuer never repeats a token.
         && (r.Minted? ==> r.token != "" && r.token !in s.issued)
       case Install(_) => pc.Installing? && pc.m < |s.mints|
       case Close(_) => pc.Closing? && pc.m < |s.mints|
       case WaitOver(_) => pc.Waiting? && pc.m < |s.mints| && s.mints[pc.m].closed
       case GiveUp(_) => pc.Waiting?
       case Invalidate(_) => pc.Returned?
  }

  function Goto(s: State, c: nat, pc: Pc): State
    requires c < |s.calls|
  {
    s.(calls := s.calls[c := s.calls[c].(pc := pc)])
  }

  /** Ending a call with a mint's shared result. */
  function Answer(s: State, c: nat, r: Exchange): State
    requires c < |s.calls|
  {
    if r.Minted? then Goto(s, c, Returned(r.token)).(handed := s.handed + {r.token}) else Goto(s, c, Failed)
  }

  function Apply(s: State, step: Step): State
    requires Enabled(s, step)
  {
    var c := step.c;
    var pc := s.calls[c].pc;
    match step
    case Start(_) => s.(calls := s.calls[c := Call(Entering, s.dead)])
    case Lock(_, current) =>
      if s.token != "" && current then Answer(s, c, Minted(s.token))
      else if s.minting.Some? then Goto(s, c, Waiting(s.minting.value))
      else Goto(s, c, Exchanging(|s.mints|)).(minting := Some(|s.mints|), mints := s.mints + [Mint(Pending, false)])
    case Issue(_, r) =>
      Goto(s, c, Installing(pc.m)).(mints := s.mints[pc.m := Mint(r, false)],
                                    issued := if r.Minted? then s.issued + {r.token} else s.issued)
    case Install(_) =>
      var r := s.mints[pc.m].result;
      Goto(s, c, Closing(pc.m)).(token := if r.Minted? then r.token else s.token, minting := None)
    case Close(_) => Answer(s.(mints := s.mints[pc.m := s.mints[pc.m].(closed := true)]), c, s.mints[pc.m].result)
    case WaitOver(_) => Answer(s, c, s.mints[pc.m].result)
    case GiveUp(_) => Goto(s, c, Failed)
    case Invalidate(_) =>
      s.(token := if s.token == pc.token then "" else s.token, dead := s.dead + {pc.token})
  }

  ghost predicate IsRun(states: seq<State>, steps: seq<Step>) {
    && |states| == |steps| + 1
    && states[0] == State("", None, [], states[0].calls, {}, {}, {})
    && (forall c :: 0 <= c < |states[0].calls| ==> states[0].calls[c] == Call(Idle, {}))
    && forall k :: 0 <= k < |steps| ==> Enabled(states[k], steps[k]) && states[k + 1] == Apply(states[k], steps[k])
  }

  // ---------------------------------------------------------------- invariant

  predicate InExchange(pc: Pc) {
    pc.Exchanging? || pc.Installing?
  }

  /** The call's mint, if it has one, will not give it a barred token. */
  ghost predicate CallOk(s: State, c: Call) {
    && c.barred <= s.dead
    && (c.pc.Waiting? || c.pc.Exchanging? || c.pc.Installing? || c.pc.Closing? ==>
          c.pc.m < |s.mints| && (s.mints[c.pc.m].result.Minted? ==> s.mints[c.pc.m].result.token !in c.barred))
    && (c.pc.Exchanging? ==> s.mints[c.pc.m].result.Pending?)
    && (InExchange(c.pc) ==> s.minting == Some(c.pc.m))
    && (c.pc.Closing? ==> s.minting != Some(c.pc.m))
    && (c.pc.Returned? ==> c.pc.token !in c.barred && c.pc.token in s.handed)
  }

  ghost predicate TokensOk(s: State) {
    && s.dead <= s.handed <= s.issued && "" !in s.issued
    && (s.token != "" ==> s.token in s.issued && s.token !in s.dead)
    && (forall m :: 0 <= m < |s.mints| && s.mints[m].result.Minted? ==> s.mints[m].result.token in s.issued)
    && (s.minting.Some? ==> Unshared(s, s.minting.value))
  }

  /** Nobody but the call that asked for it can know the result of an open exchange. */
  ghost predicate Unshared(s: State, m: nat) {
    && m < |s.mints| && !s.mints[m].closed
    && (s.mints[m].result.Minted? ==>
          && s.mints[m].result.token !in s.handed && s.mints[m].result.token != s.token
          && forall n :: 0 <= n < |s.mints| && n != m ==> s.mints[n].result != s.mints[m].result)
  }

  ghost predicate Inv(s: State) {
    && TokensOk(s)
    && (forall c :: 0 <= c < |s.calls| ==> CallOk(s, s.calls[c]))
    && (forall c, d :: 0 <= c < d < |s.calls| ==> !(InExchange(s.calls[c].pc) && InExchange(s.calls[d].pc)))
  }

  lemma TokensStep(s: State, step: Step)
    requires TokensOk(s) && Enabled(s, step) && CallOk(s, s.calls[step.c])
    ensures TokensOk(Apply(s, step))
  {
  }

  lemma OwnCallStep(s: State, step: Step)
    requires TokensOk(s) && Enabled(s, step) && CallOk(s, s.calls[step.c])
    ensures |Apply(s, step).calls| == |s.calls| && CallOk(Apply(s, step), Apply(s, step).calls[step.c])
  {
  }

  lemma CallStep(s: State, step: Step, c: nat)
    requires TokensOk(s) && Enabled(s, step) && c < |s.calls|
    requires CallOk(s, s.calls[step.c]) && CallOk(s, s.calls[c])
    requires c != step.c ==> !(InExchange(s.calls[c].pc) && InExchange(s.calls[step.c].pc))
    ensures |Apply(s, step).calls| == |s.calls| && CallOk(Apply(s, step), Apply(s, step).calls[c])
  {
    if c == step.c { OwnCallStep(s, step); }
  }

  lemma InvStep(s: State, step: Step)
    requires Inv(s) && Enabled(s, step)
    ensures Inv(Apply(s, step))
  {
    TokensStep(s, step);
    forall c: nat | c < |s.calls| ensures |Apply(s, step).calls| == |s.calls| && CallOk(Apply(s, step), Apply(s, step).calls[c]) {
      CallStep(s, step, c);
    }
  }

  lemma {:induction false} EveryRunKeepsInv(states: seq<State>, steps: seq<Step>, k: nat)
    requires IsRun(states, steps) && k < |states|
    ensures Inv(states[k])
  {
    if k > 0 {
      EveryRunKeepsInv(states, steps, k - 1);
      InvStep(states[k - 1], steps[k - 1]);
    }
  }

  // ---------------------------------------------------------------- theorems

  /** At most one exchange with the issuer is ever in flight. */
  lemma OneExchangeAtATime(states: seq<State>, steps: seq<Step>, k: nat, c: nat, d: nat)
    requires IsRun(states, steps) && k < |states| && c < |states[k].calls| && d < |states[k].calls|
    requires InExchange(states[k].calls[c].pc) && InExchange(states[k].calls[d].pc)
    ensures c == d
  {
    EveryRunKeepsInv(states, steps, k);
  }

  lemma BarredStep(s: State, step: Step, c: nat, t: Token)
    requires Enabled(s, step) && c < |s.calls| && t in s.dead
    requires s.calls[c].pc.Idle? || t in s.calls[c].barred
    ensures var n := Apply(s, step);
            |n.calls| == |s.calls| && t in n.dead && (n.calls[c].pc.Idle? || t in n.calls[c].barred)
  {
  }

  lemma {:induction false} StaysBarred(states: seq<State>, steps: seq<Step>, c: nat, t: Token, lo: nat, hi: nat)
    requires IsRun(states, steps) && lo <= hi < |states| && c < |states[lo].calls|
    requires t in states[lo].dead && states[lo].calls[c].pc.Idle?
    ensures |states[hi].calls| == |states[lo].calls| && t in states[hi].dead
    ensures states[hi].calls[c].pc.Idle? || t in states[hi].calls[c].barred
    decreases hi
  {
    if lo < hi {
      StaysBarred(states, steps, c, t, lo, hi - 1);
      BarredStep(states[hi - 1], steps[hi - 1], c, t);
    }
  }

  /** A token that a caller received and invalidated is never returned by a call that had
      not started by then. */
  lemma InvalidatedNeverReturns(states: seq<State>, steps: seq<Step>, c: nat, t: Token, lo: nat, hi: nat)
    requires IsRun(states, steps) && lo <= hi < |states| && c < |states[lo].calls|
    requires t in states[lo].dead && states[lo].calls[c].pc.Idle?
    ensures |states[hi].calls| == |states[lo].calls| && states[hi].calls[c].pc != Returned(t)
  {
    StaysBarred(states, steps, c, t, lo, hi);
    EveryRunKeepsInv(states, steps, hi);
    assert CallOk(states[hi], states[hi].calls[c]);
  }

  // ---------------------------------------------------------------- the cache is used

  /** Nobody invalidates this token, and no other exchange installs one. */
  predicate LeavesToken(s: State, step: Step, t: Token) {
    && (step.Invalidate? && step.c < |s.calls| && s.calls[step.c].pc.Returned? ==> s.calls[step.c].pc.token != t)
    && !step.Install?
  }

  lemma TokenStep(s: State, step: Step)
    requires Enabled(s, step) && LeavesToken(s, step, s.token)
    ensures Apply(s, step).token == s.token
  {
  }

  /** A token stays cached until it is invalidated itself or another is installed: that an
      older token is invalidated does not touch it. */
  lemma {:induction false} TokenStaysCached(states: seq<State>, steps: seq<Step>, lo: nat, hi: nat)
    requires IsRun(states, steps) && lo <= hi < |states|
    requires forall k :: lo <= k < hi ==> LeavesToken(states[k], steps[k], states[lo].token)
    ensures states[hi].token == states[lo].token
    decreases hi
  {
    if lo < hi {
      TokenStaysCached(states, steps, lo, hi - 1);
      TokenStep(states[hi - 1], steps[hi - 1]);
    }
  }

  /** What an exchange brings is cached when it is installed, and a failed one leaves the
      cached token alone. */
  lemma InstalledIsCached(states: seq<State>, steps: seq<Step>, k: nat)
    requires IsRun(states, steps) && k < |steps| && steps[k].Install? && steps[k].c < |states[k].calls|
    ensures var pc := states[k].calls[steps[k].c].pc;
            && pc.Installing? && pc.m < |states[k].mints| && states[k + 1].minting == None
            && var r := states[k].mints[pc.m].result;
               states[k + 1].token == if r.Minted? then r.token else states[k].token
  {
    EveryRunKeepsInv(states, steps, k);
    assert CallOk(states[k], states[k].calls[steps[k].c]);
  }

  /** A caller that finds a current token gets that token, without an exchange; one that
      finds an exchange under way joins it; only one that finds neither starts one. */
  lemma LockServes(states: seq<State>, steps: seq<Step>, k: nat)
    requires IsRun(states, steps) && k < |steps| && steps[k].Lock? && steps[k].c < |states[k].calls|
    ensures var s, t, c := states[k], states[k + 1], steps[k].c;
            && |t.calls| == |s.calls|
            && if s.token != "" && steps[k].current then t.calls[c].pc == Returned(s.token) && t.mints == s.mints
               else if s.minting.Some? then t.calls[c].pc == Waiting(s.minting.value) && t.mints == s.mints
               else t.calls[c].pc == Exchanging(|s.mints|) && |t.mints| == |s.mints| + 1 && t.minting == Some(|s.mints|)
  {
  }

  /** Whoever joined an exchange ends with what it brought. */
  lemma WaitersShare(states: seq<State>, steps: seq<Step>, k: nat)
    requires IsRun(states, steps) && k < |steps| && steps[k].c < |states[k].calls|
    requires steps[k].WaitOver? || steps[k].Close?
    ensures var s, t, c := states[k], states[k + 1], steps[k].c;
            && |t.calls| == |s.calls| && (s.calls[c].pc.Waiting? || s.calls[c].pc.Closing?)
            && s.calls[c].pc.m < |s.mints|
            && t.calls[c].pc == match s.mints[s.calls[c].pc.m].result
                                case Minted(token) => Returned(token)
                                case _ => Pc.Failed
  {
    EveryRunKeepsInv(states, steps, k);
    assert CallOk(states[k], states[k].calls[steps[k].c]);
  }
}
