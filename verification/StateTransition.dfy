/** Applying a message to the state (core/state_transition.go) and all messages of a
    block (core/state_processor.go): gas is bought, used, refunded and paid for.
    Running the message is an arbitrary step that returns no more gas than it got.
 */
module StateTransitions {
  import opened Ledger
  import opened GasPools
  import opened Options

  const REFUND_QUOTIENT: nat := 2
  const REFUND_QUOTIENT_EIP3529: nat := 5
  const MAX_UINT256: nat := 0xFFFF_FFFF_FFFF_FFFF_FFFF_FFFF_FFFF_FFFF_FFFF_FFFF_FFFF_FFFF_FFFF_FFFF_FFFF_FFFF

  /** The bytes of "wormholes:". */
  const TAG: seq<nat> := [119, 111, 114, 109, 104, 111, 108, 101, 115, 58]

  datatype Message = Message(from: Account, create: bool, nonce: nat, gas: nat, gasPrice: nat, feeCap: Option<nat>,
                             tipCap: nat, value: int, fake: bool, data: seq<nat>, addresses: nat, keys: nat,
                             kind: nat)   // the type the tagged data asks for

  datatype Env = Env(coinbase: Account, baseFee: int, london: bool, homestead: bool, istanbul: bool, noBaseFee: bool)

  datatype State = State(balances: Balances, nonces: map<Account, nat>, contracts: set<Account>)

  /** What running a message leaves: the state, the gas left, the refund counter. */
  datatype Executed = Executed(state: State, gas: nat, refund: nat, failed: bool)

  type Evm = (State, nat) -> Executed

  ghost predicate Frugal(evm: Evm) {
    forall s, g :: evm(s, g).gas <= g
  }

  datatype Error =
    | NonceTooHigh | NonceTooLow | SenderNoEOA | FeeCapVeryHigh | TipVeryHigh | TipAboveFeeCap | FeeCapTooLow
    | InsufficientFunds | GasLimitReached | GasUintOverflow | IntrinsicGasTooLow | InsufficientFundsForTransfer

  datatype Result = Done(used: nat, failed: bool) | Invalid(error: Error) | Panicked

  /** The errors that come up only when the gas has been bought. */
  predicate AfterPurchase(e: Error) {
    e in {GasUintOverflow, IntrinsicGasTooLow, InsufficientFundsForTransfer}
  }

  predicate IsWormholes(m: Message) {
    |m.data| > 10 && m.data[..10] == TAG
  }

  function NonceOf(s: State, a: Account): nat {
    if a in s.nonces then s.nonces[a] else 0
  }

  /** The checks before gas is bought. */
  function PreCheck(m: Message, env: Env, s: State): (error: Option<Error>)
    requires env.london ==> m.feeCap.Some?
    ensures error.Some? ==> !AfterPurchase(error.value)
    ensures error.None? && !m.fake ==> NonceOf(s, m.from) == m.nonce && m.from !in s.contracts
    ensures error.None? && env.london && !env.noBaseFee ==> m.tipCap <= m.feeCap.value && env.baseFee <= m.feeCap.value
  {
    if !m.fake && NonceOf(s, m.from) < m.nonce then Some(NonceTooHigh)
    else if !m.fake && NonceOf(s, m.from) > m.nonce then Some(NonceTooLow)
    else if !m.fake && m.from in s.contracts then Some(SenderNoEOA)
    else if env.london && (!env.noBaseFee || m.feeCap.value > 0 || m.tipCap > 0) then
      if m.feeCap.value > MAX_UINT256 then Some(FeeCapVeryHigh)
      else if m.tipCap > MAX_UINT256 then Some(TipVeryHigh)
      else if m.feeCap.value < m.tipCap then Some(TipAboveFeeCap)
      else if m.feeCap.value < env.baseFee then Some(FeeCapTooLow)
      else None
    else None
  }

  /** What the sender has to own before gas is bought. */
  function BalanceCheck(m: Message): int {
    if m.feeCap.Some? then Cost(m.gas, m.feeCap.value) + m.value else Cost(m.gas, m.gasPrice)
  }

  function Min(a: nat, b: nat): nat { if a < b then a else b }

  /** What an amount of gas costs. */
  function Cost(gas: nat, price: nat): int { gas * price }

  lemma CostSplits(gas: nat, left: nat, price: nat)
    requires left <= gas
    ensures Cost(left, price) + Cost(gas - left, price) == Cost(gas, price)
  {
  }

  /** The refund for gas used: the counter, but at most a fraction of the gas. */
  function Refund(used: nat, quotient: nat, counter: nat): (r: nat)
    requires quotient > 0
    ensures r <= used / quotient && r <= used && r <= counter
  {
    QuotientBound(used, quotient);
    Min(used / quotient, counter)
  }

  lemma QuotientBound(used: nat, quotient: nat)
    requires quotient > 0
    ensures 0 <= used / quotient <= used
  {
    ProductGrows(used / quotient, quotient);
  }

  lemma ProductGrows(d: int, q: nat)
    requires q > 0
    ensures d >= 0 ==> d <= d * q
    ensures d < 0 ==> d * q + q <= 0
  {
  }

  function Quotient(env: Env): (q: nat)
    ensures q > 0
  {
    if env.london then REFUND_QUOTIENT_EIP3529 else REFUND_QUOTIENT
  }

  /** The gas a message pays before it runs. */
  function Intrinsic(m: Message, env: Env): nat {
    IntrinsicCost(m.data, m.addresses, m.keys, m.create, env.homestead, env.istanbul)
  }

  /** Who gets the fee: the sender of a successful type 6 message, otherwise the coinbase. */
  function Payee(m: Message, env: Env, failed: bool): Account {
    if IsWormholes(m) && m.kind == 6 && !failed then m.from else env.coinbase
  }

  /** The fee is paid a second time, to the sender, for type 30. */
  predicate PaidTwice(m: Message) {
    IsWormholes(m) && m.kind == 30
  }

  /** The state with the gas of a message bought. */
  function Bought(s: State, m: Message): State {
    s.(balances := Credit(s.balances, m.from, -Cost(m.gas, m.gasPrice)))
  }

  /** The cost of the data does not fit 64 bits. */
  predicate Overflows(m: Message, env: Env) {
    m.data != [] && DataGas(m.data, m.create, env.homestead, env.istanbul) > MAX_UINT64
  }

  predicate CanTransfer(s: State, m: Message) {
    m.value > 0 ==> BalanceOf(Bought(s, m).balances, m.from) >= m.value
  }

  /** A message that is applied: its nonce is the sender's, who has no code; its fees are in
      order; the sender can pay, the block has the gas, the gas covers what is needed
      before running, and the value is left after the gas was bought. */
  predicate Admissible(m: Message, env: Env, s: State, available: nat)
    requires env.london ==> m.feeCap.Some?
  {
    && PreCheck(m, env, s).None? && BalanceOf(s.balances, m.from) >= BalanceCheck(m) && m.gas <= available
    && !Overflows(m, env) && Intrinsic(m, env) <= m.gas && CanTransfer(s, m)
  }

  /** Why any other message is not, whichever check fails first. */
  function Refusal(m: Message, env: Env, s: State, available: nat): (error: Option<Error>)
    requires env.london ==> m.feeCap.Some?
    ensures error.None? <==> Admissible(m, env, s, available)
  {
    if PreCheck(m, env, s).Some? then PreCheck(m, env, s)
    else if BalanceOf(s.balances, m.from) < BalanceCheck(m) then Some(InsufficientFunds)
    else if available < m.gas then Some(GasLimitReached)
    else if Overflows(m, env) then Some(GasUintOverflow)
    else if m.gas < Intrinsic(m, env) then Some(IntrinsicGasTooLow)
    else if !CanTransfer(s, m) then Some(InsufficientFundsForTransfer)
    else None
  }

  /** The state a message runs in: its gas is bought, and the nonce of the sender is raised
      unless running a creation will do that. */
  function Given(m: Message, s: State): State {
    var bought := Bought(s, m);
    if m.create then bought else bought.(nonces := bought.nonces[m.from := NonceOf(bought, m.from) + 1])
  }

  /** The balances after what is left was paid back and the fee was paid. */
  function Settlement(b: Balances, m: Message, env: Env, used: nat, failed: bool): Balances
    requires used <= m.gas
  {
    var paid := Credit(Credit(b, m.from, Cost(m.gas - used, m.gasPrice)), Payee(m, env, failed),
                       Cost(used, m.gasPrice));
    if PaidTwice(m) then Credit(paid, m.from, Cost(used, m.gasPrice)) else paid
  }

  /** What applying a message comes to. */
  datatype Effect = Effect(state: State, used: nat, failed: bool)

  /** The gas a run has used up, after the refund. */
  function Used(m: Message, env: Env, ran: Executed): (used: nat)
    requires ran.gas <= m.gas
    ensures used <= m.gas - ran.gas
  {
    m.gas - ran.gas - Refund(m.gas - ran.gas, Quotient(env), ran.refund)
  }

  ghost function Applied(m: Message, env: Env, s: State, evm: Evm): (e: Effect)
    requires Frugal(evm) && Intrinsic(m, env) <= m.gas
    ensures e.used <= m.gas
  {
    var ran := evm(Given(m, s), m.gas - Intrinsic(m, env));
    var used := Used(m, env, ran);
    Effect(ran.state.(balances := Settlement(ran.state.balances, m, env, used, ran.failed)), used, ran.failed)
  }

  /** Leftover gas goes back to the sender and the fee to the payee. */
  ghost predicate Settled(b: Balances, b': Balances, m: Message, env: Env, used: nat, failed: bool)
    requires used <= m.gas
  {
    && Total(b') == Total(b) + Cost(m.gas, m.gasPrice) + (if PaidTwice(m) then Cost(used, m.gasPrice) else 0)
    && forall a :: BalanceOf(b', a) == BalanceOf(b, a)
         + (if a == m.from then Cost(m.gas - used, m.gasPrice) else 0)
         + (if a == Payee(m, env, failed) then Cost(used, m.gasPrice) else 0)
         + (if a == m.from && PaidTwice(m) then Cost(used, m.gasPrice) else 0)
  }

  class StateTransition {
    const gp: GasPool
    const msg: Message
    const env: Env
    var gas: nat
    var initialGas: nat
    var state: State

    ghost predicate Ready()
      reads this, gp
    {
      gp.Valid() && msg.gas <= MAX_UINT64 && gas == 0 && (env.london ==> msg.feeCap.Some?)
    }

    constructor (gp: GasPool, msg: Message, env: Env, state: State)
      ensures this.gp == gp && this.msg == msg && this.env == env && this.state == state && gas == 0
    {
      this.gp, this.msg, this.env, this.state, gas, initialGas := gp, msg, env, state, 0, 0;
    }

    /** buyGas: on failure nothing changes. */
    method BuyGas() returns (error: Option<Error>)
      requires Ready()
      modifies this, gp
      ensures gp.Valid()
      ensures error == if BalanceOf(old(state).balances, msg.from) < BalanceCheck(msg) then Some(InsufficientFunds)
                       else if old(gp.gas) < msg.gas then Some(GasLimitReached) else None
      ensures error.Some? ==> gp.gas == old(gp.gas) && state == old(state) && gas == 0
      ensures error.None? ==> gp.gas == old(gp.gas) - msg.gas && gas == initialGas == msg.gas
      ensures error.None? ==>
                state == old(state).(balances := Credit(old(state).balances, msg.from, -Cost(msg.gas, msg.gasPrice)))
    {
      if BalanceOf(state.balances, msg.from) < BalanceCheck(msg) {
        return Some(InsufficientFunds);
      }
      var ok := gp.SubGas(msg.gas);
      if !ok {
        return Some(GasLimitReached);
      }
      gas := gas + msg.gas;
      initialGas := msg.gas;
      state := state.(balances := Credit(state.balances, msg.from, -Cost(msg.gas, msg.gasPrice)));
      return None;
    }

    /** refundGas: the refund is at most the used gas over the quotient, and the gas
        left is paid back and returned to the block. */
    method RefundGas(quotient: nat, counter: nat) returns (panics: bool)
      requires quotient > 0 && gp.Valid() && gas <= initialGas <= MAX_UINT64
      modifies this`gas, this`state, gp
      ensures gp.Valid() && gas == old(gas) + Refund(initialGas - old(gas), quotient, counter) <= initialGas
      ensures state == old(state).(balances := Credit(old(state).balances, msg.from, Cost(gas, msg.gasPrice)))
      ensures panics == (old(gp.gas) + gas > MAX_UINT64) && gp.gas == old(gp.gas) + if panics then 0 else gas
    {
      QuotientBound(initialGas - gas, quotient);
      var refund := (initialGas - gas) / quotient;
      if refund > counter {
        refund := counter;
      }
      assert refund == Refund(initialGas - gas, quotient, counter);
      gas := gas + refund;
      state := state.(balances := Credit(state.balances, msg.from, Cost(gas, msg.gasPrice)));
      panics := gp.AddGas(gas);
    }

    /** The second half of TransitionDb: runs the message with the gas that is left,
        refunds and pays. */
    method Execute(evm: Evm) returns (r: Result, ghost ran: Executed)
      requires Frugal(evm) && gp.Valid() && gas <= initialGas == msg.gas && gp.gas + msg.gas <= MAX_UINT64
      modifies this`gas, this`state, gp
      ensures gp.Valid() && r.Done? && ran == evm(old(state), old(gas)) && r.failed == ran.failed
      ensures r.used == msg.gas - ran.gas - Refund(msg.gas - ran.gas, Quotient(env), ran.refund)
      ensures r.used <= msg.gas && gp.gas == old(gp.gas) + msg.gas - r.used
      ensures Settled(ran.state.balances, state.balances, msg, env, r.used, r.failed)
      ensures state == ran.state.(balances := Settlement(ran.state.balances, msg, env, r.used, r.failed))
    {
      hide Cost, Refund, Settled, Credit;
      var out := evm(state, gas);
      ran := out;
      state, gas := out.state, out.gas;
      var panics := RefundGas(Quotient(env), out.refund);
      if panics {
        return Panicked, ran;
      }
      var paid := PayFee(state.balances, msg, env, initialGas - gas, out.failed, out.state.balances);
      state := state.(balances := paid);
      r := Done(initialGas - gas, out.failed);
    }

    /** TransitionDb. `given` is the state the message ran in and `ran` what it left. */
    method TransitionDb(evm: Evm) returns (r: Result, ghost given: State, ghost ran: Executed)
      requires Ready() && Frugal(evm)
      modifies this, gp
      ensures gp.Valid() && r != Panicked
      ensures r.Done? <==> Admissible(msg, env, old(state), old(gp.gas))
      ensures r.Invalid? ==> Refusal(msg, env, old(state), old(gp.gas)) == Some(r.error)
      ensures r.Invalid? && AfterPurchase(r.error) ==>
                gp.gas == old(gp.gas) - msg.gas && state == Bought(old(state), msg)
      ensures r.Invalid? && !AfterPurchase(r.error) ==> gp.gas == old(gp.gas) && state == old(state)
      ensures r.Done? ==> r.used <= msg.gas && gp.gas == old(gp.gas) - r.used
      ensures r.Done? ==> Effect(state, r.used, r.failed) == Applied(msg, env, old(state), evm)
      ensures r.Done? ==> given == Given(msg, old(state)) && ran == evm(given, msg.gas - Intrinsic(msg, env))
      ensures r.Done? ==> Settled(ran.state.balances, state.balances, msg, env, r.used, r.failed)
    {
      hide Cost, Refund, Settled, PreCheck, DataGas, IntrinsicCost, Settlement, BalanceCheck, Credit, BalanceOf;
      given, ran := state, Executed(state, 0, 0, true);
      var error := PreCheck(msg, env, state);
      if error.Some? {
        return Invalid(error.value), given, ran;
      }
      error := BuyGas();
      if error.Some? {
        return Invalid(error.value), given, ran;
      }
      var needed := IntrinsicGas(msg.data, msg.addresses, msg.keys, msg.create, env.homestead, env.istanbul);
      if needed.Failed? {
        return Invalid(GasUintOverflow), given, ran;
      }
      if gas < needed.value {
        return Invalid(IntrinsicGasTooLow), given, ran;
      }
      gas := gas - needed.value;
      if msg.value > 0 && BalanceOf(state.balances, msg.from) < msg.value {
        return Invalid(InsufficientFundsForTransfer), given, ran;
      }
      if !msg.create {
        state := state.(nonces := state.nonces[msg.from := NonceOf(state, msg.from) + 1]);
      }
      given := state;
      r, ran := Execute(evm);
    }
  }

  /** Pays for the gas used, after what was left was paid back on top of `before`. */
  method PayFee(b: Balances, m: Message, env: Env, used: nat, failed: bool, ghost before: Balances)
    returns (b': Balances)
    requires used <= m.gas && b == Credit(before, m.from, Cost(m.gas - used, m.gasPrice))
    ensures Settled(before, b', m, env, used, failed) && b' == Settlement(before, m, env, used, failed)
  {
    hide Cost, Total, Credit, Settled;
    var fee := Cost(used, m.gasPrice);
    SettlementSettles(before, m, env, used, failed);
    if IsWormholes(m) {
      if m.kind == 6 && !failed {
        b' := Credit(b, m.from, fee);
      } else {
        b' := Credit(b, env.coinbase, fee);
      }
      if m.kind == 30 {
        b' := Credit(b', m.from, fee);
      }
    } else {
      b' := Credit(b, env.coinbase, fee);
    }
  }

  /** If running the message conserves the total, so does the whole transition, except
      that a type 30 message creates exactly the fee. */
  lemma FeesZeroSum(before: Balances, given: Balances, ran: Balances, after: Balances, m: Message, env: Env, used: nat,
                    failed: bool)
    requires used <= m.gas && given == Credit(before, m.from, -Cost(m.gas, m.gasPrice))
    requires Total(ran) == Total(given) && Settled(ran, after, m, env, used, failed)
    ensures Total(after) == Total(before) + if PaidTwice(m) then Cost(used, m.gasPrice) else 0
    ensures Total(after) == Total(before) <==> !PaidTwice(m) || used == 0 || m.gasPrice == 0
  {
    hide Cost, Total, Credit;
    TotalCredit(before, m.from, -Cost(m.gas, m.gasPrice));
    CostZero(used, m.gasPrice);
  }

  lemma CostZero(gas: nat, price: nat)
    ensures Cost(gas, price) == 0 <==> gas == 0 || price == 0
  {
  }

  /** A sender that passes the balance check can pay for all the gas. */
  lemma PurchaseCovered(b: Balances, m: Message)
    requires NonNegative(b) && BalanceOf(b, m.from) >= BalanceCheck(m) && m.value >= 0
    requires m.feeCap.Some? ==> m.gasPrice <= m.feeCap.value
    ensures NonNegative(Credit(b, m.from, -Cost(m.gas, m.gasPrice)))
    ensures m.feeCap.Some? ==> BalanceOf(Credit(b, m.from, -Cost(m.gas, m.gasPrice)), m.from) >= m.value
  {
    if m.feeCap.Some? {
      assert Cost(m.gas, m.gasPrice) <= Cost(m.gas, m.feeCap.value);
    }
  }

  datatype Job = Job(msg: Message, evm: Evm)

  datatype Receipt = Receipt(gasUsed: nat, cumulative: nat, failed: bool)

  datatype BlockResult = Processed(receipts: seq<Receipt>, used: nat, state: State) | BadBlock(index: nat, error: Error)

  function GasOf(receipts: seq<Receipt>): nat {
    if receipts == [] then 0 else GasOf(receipts[..|receipts| - 1]) + receipts[|receipts| - 1].gasUsed
  }

  /** Every receipt has the gas used up to and including it. */
  ghost predicate Cumulates(receipts: seq<Receipt>) {
    forall i :: 0 <= i < |receipts| ==> receipts[i].cumulative == GasOf(receipts[..i + 1])
  }

  lemma CumulatesMore(receipts: seq<Receipt>, r: Receipt)
    requires Cumulates(receipts) && r.cumulative == GasOf(receipts) + r.gasUsed
    ensures Cumulates(receipts + [r]) && GasOf(receipts + [r]) == r.cumulative
  {
    var all := receipts + [r];
    assert all[..|receipts|] == receipts && all[..|all|] == all;
    forall i | 0 <= i < |receipts| ensures all[i].cumulative == GasOf(all[..i + 1]) {
      assert all[..i + 1] == receipts[..i + 1];
    }
  }

  /** One message of a block: it is admissible with the gas the block has left, and state
      and receipt are what applying it comes to. */
  ghost predicate Step(job: Job, env: Env, available: int, s: State, s': State, receipt: Receipt)
    requires Frugal(job.evm) && (env.london ==> job.msg.feeCap.Some?)
  {
    && available >= 0 && Admissible(job.msg, env, s, available)
    && Effect(s', receipt.gasUsed, receipt.failed) == Applied(job.msg, env, s, job.evm)
  }

  ghost predicate JobsOk(jobs: seq<Job>, env: Env) {
    forall j :: j in jobs ==> Frugal(j.evm) && j.msg.gas <= MAX_UINT64 && (env.london ==> j.msg.feeCap.Some?)
  }

  /** The messages of a block up to |receipts|, one after the other; states[i] is the state
      before the i-th. */
  ghost predicate Followed(jobs: seq<Job>, env: Env, gasLimit: nat, states: seq<State>, receipts: seq<Receipt>)
    requires JobsOk(jobs, env)
  {
    && |receipts| <= |jobs| && |states| == |receipts| + 1
    && forall i :: 0 <= i < |receipts| ==> StepAt(jobs, env, gasLimit, states, receipts, i)
  }

  ghost predicate StepAt(jobs: seq<Job>, env: Env, gasLimit: nat, states: seq<State>, receipts: seq<Receipt>, i: nat)
    requires JobsOk(jobs, env) && i < |receipts| <= |jobs| && |states| == |receipts| + 1
  {
    assert jobs[i] in jobs;
    Step(jobs[i], env, gasLimit - GasOf(receipts[..i]), states[i], states[i + 1], receipts[i])
  }

  lemma FollowedMore(jobs: seq<Job>, env: Env, gasLimit: nat, states: seq<State>, receipts: seq<Receipt>, s: State,
                     r: Receipt)
    requires JobsOk(jobs, env) && Followed(jobs, env, gasLimit, states, receipts) && |receipts| < |jobs|
    requires jobs[|receipts|] in jobs
    requires Step(jobs[|receipts|], env, gasLimit - GasOf(receipts), states[|receipts|], s, r)
    ensures Followed(jobs, env, gasLimit, states + [s], receipts + [r])
  {
    hide Step;
    var ss, rs := states + [s], receipts + [r];
    forall i | 0 <= i < |rs| ensures StepAt(jobs, env, gasLimit, ss, rs, i) {
      if i < |receipts| {
        assert rs[..i] == receipts[..i];
        assert StepAt(jobs, env, gasLimit, states, receipts, i);
      } else {
        assert rs[..i] == receipts;
      }
    }
  }

  /** Process: applies the messages of a block in turn until one is not admissible. What
      they use and what is left of the block's gas add up to its limit; no receipt exceeds
      its message's gas; the pool never panics. */
  method Process(jobs: seq<Job>, env: Env, gasLimit: nat, state: State)
    returns (r: BlockResult, gp: GasPool, ghost states: seq<State>, ghost receipts: seq<Receipt>)
    requires gasLimit <= MAX_UINT64 && JobsOk(jobs, env)
    ensures Followed(jobs, env, gasLimit, states, receipts) && states[0] == state
    ensures r.Processed? ==> r.receipts == receipts && r.state == states[|receipts|]
    ensures r.Processed? ==> |r.receipts| == |jobs| && Cumulates(r.receipts) && r.used == GasOf(r.receipts)
    ensures r.Processed? ==> r.used + gp.gas == gasLimit && r.used <= MAX_UINT64
    ensures r.Processed? ==> forall i :: 0 <= i < |jobs| ==> r.receipts[i].gasUsed <= jobs[i].msg.gas
    ensures r.BadBlock? ==> r.index == |receipts| < |jobs| && GasOf(receipts) <= gasLimit
    ensures r.BadBlock? ==>
      assert jobs[r.index] in jobs;
      Refusal(jobs[r.index].msg, env, states[r.index], gasLimit - GasOf(receipts)) == Some(r.error)
  {
    hide Cost, Refund, Settled, Intrinsic, Credit, NonceOf, Applied, Admissible, Refusal, Followed, GasOf;
    gp := new GasPool();
    var panics := gp.AddGas(gasLimit);
    var rs, used, s := [], 0, state;
    states := [state];
    FollowedNone(jobs, env, gasLimit, state);
    for i := 0 to |jobs|
      invariant gp.Valid() && fresh(gp) && used + gp.gas == gasLimit
      invariant |rs| == i && Cumulates(rs) && used == GasOf(rs)
      invariant |states| == i + 1 && states[0] == state && states[i] == s && Followed(jobs, env, gasLimit, states, rs)
      invariant forall k :: 0 <= k < i ==> rs[k].gasUsed <= jobs[k].msg.gas
    {
      assert jobs[i] in jobs;
      var st := new StateTransition(gp, jobs[i].msg, env, s);
      var done, given, ran := st.TransitionDb(jobs[i].evm);
      if done.Invalid? {
        return BadBlock(i, done.error), gp, states, rs;
      }
      var receipt := Receipt(done.used, used + done.used, done.failed);
      FollowedMore(jobs, env, gasLimit, states, rs, st.state, receipt);
      CumulatesMore(rs, receipt);
      s, used, rs, states := st.state, used + done.used, rs + [receipt], states + [st.state];
    }
    receipts := rs;
    r := Processed(rs, used, s);
  }

  lemma FollowedNone(jobs: seq<Job>, env: Env, gasLimit: nat, s: State)
    requires JobsOk(jobs, env)
    ensures Followed(jobs, env, gasLimit, [s], []) && GasOf([]) == 0 && Cumulates([])
  {
  }

  /** Running the message creates and destroys nothing. */
  ghost predicate Conserves(evm: Evm) {
    forall s, g :: Total(evm(s, g).state.balances) == Total(s.balances)
  }

  /** What the messages of type 30 among the first ones got on top. */
  function CreatedFees(jobs: seq<Job>, receipts: seq<Receipt>): int
    requires |receipts| <= |jobs|
  {
    if receipts == [] then 0
    else
      var k := |receipts| - 1;
      CreatedFees(jobs, receipts[..k])
      + if PaidTwice(jobs[k].msg) then Cost(receipts[k].gasUsed, jobs[k].msg.gasPrice) else 0
  }

  /** Applying one message. */
  lemma EffectTotal(m: Message, env: Env, s: State, evm: Evm)
    requires Frugal(evm) && Conserves(evm) && Intrinsic(m, env) <= m.gas
    ensures var e := Applied(m, env, s, evm);
      Total(e.state.balances) == Total(s.balances) + if PaidTwice(m) then Cost(e.used, m.gasPrice) else 0
  {
    hide Cost, Credit, Total, Intrinsic, Refund, Settled;
    var e := Applied(m, env, s, evm);
    var given := Given(m, s);
    var ran := evm(given, m.gas - Intrinsic(m, env));
    SettlementSettles(ran.state.balances, m, env, e.used, e.failed);
    FeesZeroSum(s.balances, given.balances, ran.state.balances, e.state.balances, m, env, e.used, e.failed);
  }

  lemma SettlementSettles(b: Balances, m: Message, env: Env, used: nat, failed: bool)
    requires used <= m.gas
    ensures Settled(b, Settlement(b, m, env, used, failed), m, env, used, failed)
  {
    hide Cost, Total;
    var fee := Cost(used, m.gasPrice);
    var back := Credit(b, m.from, Cost(m.gas - used, m.gasPrice));
    var paid := Credit(back, Payee(m, env, failed), fee);
    CostSplits(m.gas, m.gas - used, m.gasPrice);
    TotalCredit(b, m.from, Cost(m.gas - used, m.gasPrice));
    TotalCredit(back, Payee(m, env, failed), fee);
    TotalCredit(paid, m.from, fee);
  }

  /** Over a block in which every run conserves the total, it grows by exactly the fees of
      the messages of type 30. */
  lemma {:induction false} BlockTotal(jobs: seq<Job>, env: Env, gasLimit: nat, states: seq<State>,
                                      receipts: seq<Receipt>)
    requires JobsOk(jobs, env) && Followed(jobs, env, gasLimit, states, receipts)
    requires forall j :: j in jobs ==> Conserves(j.evm)
    ensures Total(states[|receipts|].balances) == Total(states[0].balances) + CreatedFees(jobs, receipts)
    decreases |receipts|
  {
    hide Cost, Total, Applied, Intrinsic, PreCheck, BalanceCheck, Overflows, CanTransfer;
    if |receipts| > 0 {
      var k := |receipts| - 1;
      FollowedLess(jobs, env, gasLimit, states, receipts);
      BlockTotal(jobs, env, gasLimit, states[..k + 1], receipts[..k]);
      assert jobs[k] in jobs;
      assert StepAt(jobs, env, gasLimit, states, receipts, k);
      EffectTotal(jobs[k].msg, env, states[k], jobs[k].evm);
    }
  }

  lemma FollowedLess(jobs: seq<Job>, env: Env, gasLimit: nat, states: seq<State>, receipts: seq<Receipt>)
    requires JobsOk(jobs, env) && Followed(jobs, env, gasLimit, states, receipts) && |receipts| > 0
    ensures Followed(jobs, env, gasLimit, states[..|receipts|], receipts[..|receipts| - 1])
  {
    hide Step;
    var rs := receipts[..|receipts| - 1];
    forall i | 0 <= i < |rs| ensures StepAt(jobs, env, gasLimit, states[..|receipts|], rs, i) {
      assert rs[..i] == receipts[..i];
      assert StepAt(jobs, env, gasLimit, states, receipts, i);
    }
  }

  /** Running the message leaves no account in debt that was not before. */
  ghost predicate Solvent(evm: Evm) {
    forall s: State, g :: NonNegative(s.balances) ==> NonNegative(evm(s, g).state.balances)
  }

  /** The gas price never exceeds the fee cap, and no message moves a negative value. */
  ghost predicate Priced(m: Message) {
    m.value >= 0 && (m.feeCap.Some? ==> m.gasPrice <= m.feeCap.value)
  }

  lemma EffectSolvent(m: Message, env: Env, s: State, evm: Evm, available: nat)
    requires Frugal(evm) && Solvent(evm) && Priced(m) && (env.london ==> m.feeCap.Some?)
    requires Admissible(m, env, s, available) && NonNegative(s.balances)
    ensures NonNegative(Applied(m, env, s, evm).state.balances)
  {
    hide Cost, Intrinsic, Refund, PreCheck, Overflows, CanTransfer;
    PurchaseCovered(s.balances, m);
    var e := Applied(m, env, s, evm);
    var ran := evm(Given(m, s), m.gas - Intrinsic(m, env));
    assert NonNegative(Given(m, s).balances);
    SettlementSettles(ran.state.balances, m, env, e.used, e.failed);
    CostPositive(e.used, m.gasPrice);
    CostPositive(m.gas - e.used, m.gasPrice);
  }

  lemma CostPositive(gas: nat, price: nat)
    ensures Cost(gas, price) >= 0
  {
  }

  /** A block in which every run is solvent leaves nobody in debt. */
  lemma {:induction false} BlockSolvent(jobs: seq<Job>, env: Env, gasLimit: nat, states: seq<State>,
                                        receipts: seq<Receipt>)
    requires JobsOk(jobs, env) && Followed(jobs, env, gasLimit, states, receipts)
    requires (forall j :: j in jobs ==> Solvent(j.evm) && Priced(j.msg)) && NonNegative(states[0].balances)
    ensures NonNegative(states[|receipts|].balances)
    decreases |receipts|
  {
    hide Applied, Admissible, NonNegative;
    if |receipts| > 0 {
      var k := |receipts| - 1;
      FollowedLess(jobs, env, gasLimit, states, receipts);
      BlockSolvent(jobs, env, gasLimit, states[..k + 1], receipts[..k]);
      assert jobs[k] in jobs;
      assert StepAt(jobs, env, gasLimit, states, receipts, k);
      EffectSolvent(jobs[k].msg, env, states[k], jobs[k].evm, gasLimit - GasOf(receipts[..k]));
    }
  }

  /** A message of type 30 that asks for nothing and uses only what it pays up front. */
  method LivenessPaysTwice() returns (before: Balances, after: Balances)
    ensures Total(after) > Total(before)
  {
    hide Total, Refund, Credit, IntrinsicCost, DataGas;
    before := map[1 := 1000000000];
    var m := Message(1, false, 0, 100000, 2, None, 0, 0, false, TAG + [123], 0, 0, 30);
    var env := Env(2, 0, false, true, true, false);
    var gp := new GasPool();
    var panics := gp.AddGas(30000000);
    var idle: Evm := (s: State, g: nat) => Executed(s, g, 0, false);
    var st := new StateTransition(gp, m, env, State(before, map[], {}));
    TagCost(m, env);
    var r, given, ran := st.TransitionDb(idle);
    after := st.state.balances;
    EffectTotal(m, env, State(before, map[], {}), idle);
  }

  lemma TagCost(m: Message, env: Env)
    requires |m.data| == 11 && m.addresses == m.keys == 0 && !m.create && env.istanbul
    ensures TX_GAS <= Intrinsic(m, env) <= 22000 && !Overflows(m, env)
  {
  }
}
