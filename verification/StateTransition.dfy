/** Applying one transaction: buying gas, executing, refunding and paying the miner. */
module Transitions {
  import opened Options
  import opened WorldState
  import opened IntrinsicGas
  import opened Uint64

  const REFUND_QUOTIENT: nat := 2
  const REFUND_QUOTIENT_EIP3529: nat := 5
  const MAX_INIT_CODE_SIZE: nat := 49152
  const TWO_TO_256: nat := 0x1_0000_0000_0000_0000_0000_0000_0000_0000_0000_0000_0000_0000_0000_0000_0000_0000

  datatype Fees = Legacy(gasPrice: nat) | Dynamic(tipCap: nat, feeCap: nat)

  /** A transaction; `sender` is what the signature recovers to. */
  datatype Tx = Tx(sender: Option<Address>, nonce: nat, gas: nat, fees: Fees,
                   to: Option<Address>, value: nat, data: seq<Byte>, accessList: AccessList)

  datatype Message = Message(from: Address, nonce: nat, gasLimit: nat, gasPrice: nat, feeCap: nat, tipCap: nat,
                             to: Option<Address>, value: nat, data: seq<Byte>, accessList: AccessList,
                             skipAccountChecks: bool)

  /** Fields that are 64-bit in the source. */
  predicate Fits(m: Message)
  {
    m.nonce <= MAX_UINT64 && m.gasLimit <= MAX_UINT64 && |m.data| <= MAX_UINT64
  }

  function Min(a: nat, b: nat): (r: nat)
  {
    if a <= b then a else b
  }

  function TransactionToMessage(tx: Tx, baseFee: Option<nat>): (r: Option<Message>)
  {
    var (price, tip, cap) := match tx.fees
                             case Legacy(p) => (p, p, p)
                             case Dynamic(t, c) => (c, t, c);
    var effective := if baseFee.Some? then Min(tip + baseFee.value, cap) else price;
    if tx.sender.None? then None
    else Some(Message(tx.sender.value, tx.nonce, tx.gas, effective, cap, tip, tx.to, tx.value, tx.data, tx.accessList, false))
  }

  /** The block's environment; after London the base fee is present, by header validation. */
  datatype Env = Env(rules: Rules, baseFee: Option<nat>, coinbase: Address, noBaseFee: bool)
  {
    ghost predicate Valid()
    {
      rules.london ==> baseFee.Some?
    }
  }

  datatype Error =
    | NonceTooHigh | NonceTooLow | NonceMax | SenderNoEOA
    | FeeCapVeryHigh | TipVeryHigh | TipAboveFeeCap | FeeCapTooLow
    | InsufficientFunds | GasLimitReached | GasUintOverflow | NotEnoughIntrinsicGas
    | InsufficientFundsForTransfer | MaxInitCodeSizeExceeded | BadSignature

  datatype Result<+T> = Ok(value: T) | Err(error: Error)

  // ----- the virtual machine, by contract

  /** What running a message does: the new accounts, the gas left, the refund counter, whether it
      failed, and wei destroyed on the way. */
  datatype VmResult = VmResult(world: World, gasLeft: nat, refund: nat, failed: bool, burnt: nat)

  /** A machine never returns more gas than it was given. */
  type Evm = f: (World, Message, nat) -> VmResult |
    forall w: World, m: Message, g: nat :: f(w, m, g).gasLeft <= g
    witness (w: World, m: Message, g: nat) => VmResult(w, 0, 0, false, 0)

  /** It moves wei without making any, overdraws nobody, and touches the nonces of key-controlled
      accounts only to count a creation by its sender, unless that nonce is already the largest. */
  ghost predicate GoodEvm(evm: Evm, keys: set<Address>)
  {
    forall w: World, m: Message, g: nat {:trigger evm(w, m, g)} :: Solvent(w) && Balance(w, m.from) >= m.value ==>
      && Total(evm(w, m, g).world) + evm(w, m, g).burnt == Total(w) && Solvent(evm(w, m, g).world)
      && forall a :: a in keys ==>
           Nonce(evm(w, m, g).world, a) ==
             Nonce(w, a) + (if m.to.None? && a == m.from && Nonce(w, a) < MAX_UINT64 then 1 else 0)
  }

  // ----- the checks before execution

  function PreCheck(env: Env, w: World, m: Message): (r: Option<Error>)
    requires env.Valid()
  {
    if !m.skipAccountChecks && Nonce(w, m.from) < m.nonce then Some(NonceTooHigh)
    else if !m.skipAccountChecks && Nonce(w, m.from) > m.nonce then Some(NonceTooLow)
    else if !m.skipAccountChecks && Nonce(w, m.from) >= MAX_UINT64 then Some(NonceMax)
    else if !m.skipAccountChecks && m.from in w.code then Some(SenderNoEOA)
    else if !env.rules.london || (env.noBaseFee && m.feeCap == 0 && m.tipCap == 0) then None
    else if m.feeCap >= TWO_TO_256 then Some(FeeCapVeryHigh)
    else if m.tipCap >= TWO_TO_256 then Some(TipVeryHigh)
    else if m.feeCap < m.tipCap then Some(TipAboveFeeCap)
    else if m.feeCap < env.baseFee.value then Some(FeeCapTooLow)
    else None
  }

  function BuyGas(w: World, pool: nat, m: Message): (r: Result<(World, nat)>)
  {
    if Balance(w, m.from) < m.gasLimit * m.feeCap + m.value then Err(InsufficientFunds)
    else if pool < m.gasLimit then Err(GasLimitReached)
    else Ok((AddBalance(w, m.from, -(m.gasLimit * m.gasPrice)), pool - m.gasLimit))
  }

  function Intrinsic(rules: Rules, m: Message): (r: Option<nat>)
  {
    var cost := DataCost(m.data, m.to.None?, rules);
    if cost > MAX_UINT64 then None else Some((cost + AccessCost(m.accessList)) % TWO_TO_64)
  }

  /** The checks between buying gas and running the message. */
  function PostCheck(env: Env, w: World, m: Message): (r: Result<nat>)
  {
    var gas := Intrinsic(env.rules, m);
    if gas.None? then Err(GasUintOverflow)
    else if m.gasLimit < gas.value then Err(NotEnoughIntrinsicGas)
    else if m.value > 0 && Balance(w, m.from) < m.value then Err(InsufficientFundsForTransfer)
    else if env.rules.shanghai && m.to.None? && |m.data| > MAX_INIT_CODE_SIZE then Err(MaxInitCodeSizeExceeded)
    else Ok(gas.value)
  }

  // ----- execution and settlement

  function Execute(evm: Evm, w: World, m: Message, gas: nat): (r: VmResult)
    ensures r.gasLeft <= gas
  {
    evm(if m.to.Some? then BumpNonce(w, m.from) else w, m, gas)
  }

  function Quotient(rules: Rules): (q: nat)
    ensures q > 0
  {
    if rules.london then REFUND_QUOTIENT_EIP3529 else REFUND_QUOTIENT
  }

  /** Gas left after the capped refund. */
  function Remaining(rules: Rules, gasLimit: nat, r: VmResult): (left: nat)
    requires r.gasLeft <= gasLimit
    ensures r.gasLeft <= left <= gasLimit && left - r.gasLeft <= r.refund
    ensures (left - r.gasLeft) * Quotient(rules) <= gasLimit - r.gasLeft
  {
    var cap := (gasLimit - r.gasLeft) / Quotient(rules);
    r.gasLeft + Min(cap, r.refund)
  }

  function EffectiveTip(env: Env, m: Message): (tip: int)
    requires env.Valid()
  {
    if env.rules.london then
      (if m.tipCap <= m.feeCap - env.baseFee.value then m.tipCap else m.feeCap - env.baseFee.value)
    else m.gasPrice
  }

  /** Fee payment is skipped for free calls when the base fee is disabled. */
  predicate FeeSkipped(env: Env, m: Message)
  {
    env.noBaseFee && m.feeCap == 0 && m.tipCap == 0
  }

  function Settle(env: Env, w: World, m: Message, left: nat): (r: World)
    requires env.Valid() && left <= m.gasLimit
  {
    var refunded := AddBalance(w, m.from, left * m.gasPrice);
    if FeeSkipped(env, m) then refunded
    else AddBalance(refunded, env.coinbase, (m.gasLimit - left) * EffectiveTip(env, m))
  }

  datatype Outcome = Outcome(world: World, pool: nat, usedGas: nat, failed: bool, burnt: nat)

  /** Running a paid message with the gas left for it, refund and tip included. */
  function Finish(env: Env, evm: Evm, w: World, pool: nat, m: Message, gas: nat): (o: Outcome)
    requires env.Valid() && gas <= m.gasLimit
  {
    var vm := Execute(evm, w, m, gas);
    var left := Remaining(env.rules, m.gasLimit, vm);
    Outcome(Settle(env, vm.world, m, left), pool + left, m.gasLimit - left, vm.failed, vm.burnt)
  }

  /** A transition once gas is bought. */
  function Bought(env: Env, evm: Evm, w: World, pool: nat, m: Message): (r: Result<Outcome>)
    requires env.Valid()
  {
    var post := PostCheck(env, w, m);
    if post.Err? then Err(post.error) else Ok(Finish(env, evm, w, pool, m, m.gasLimit - post.value))
  }

  /** `TransitionDb` from accounts and gas pool to accounts and gas pool. */
  function Transition(env: Env, evm: Evm, w: World, pool: nat, m: Message): (r: Result<Outcome>)
    requires env.Valid()
  {
    var pre, bought := PreCheck(env, w, m), BuyGas(w, pool, m);
    if pre.Some? then Err(pre.value)
    else if bought.Err? then Err(bought.error)
    else Bought(env, evm, bought.value.0, bought.value.1, m)
  }

  /** What a failing transition leaves: gas is bought before the later checks, and stays bought. */
  function AfterError(env: Env, w: World, pool: nat, m: Message): (r: (World, nat))
    requires env.Valid()
  {
    var bought := BuyGas(w, pool, m);
    if PreCheck(env, w, m).Some? || bought.Err? then (w, pool) else bought.value
  }

  // ----- what one transaction keeps

  lemma PriceWithinCap(tx: Tx, baseFee: Option<nat>, m: Message)
    requires TransactionToMessage(tx, baseFee) == Some(m)
    ensures m.gasPrice <= m.feeCap
  {
  }

  /** The balance check covers the purchase and the transfer that follows. */
  lemma BuyGasCovers(w: World, pool: nat, m: Message)
    requires m.gasPrice <= m.feeCap && BuyGas(w, pool, m).Ok?
    ensures var (w1, pool1) := BuyGas(w, pool, m).value;
            && Balance(w1, m.from) >= m.value && Total(w1) == Total(w) - m.gasLimit * m.gasPrice
            && (Solvent(w) ==> Solvent(w1)) && w1.nonces == w.nonces && w1.code == w.code
            && pool1 + m.gasLimit == pool
  {
    var cost := m.gasLimit * m.gasPrice;
    assert cost <= m.gasLimit * m.feeCap;
    AddBalanceTotal(w, m.from, -cost);
    if Solvent(w) {
      AddBalanceSolvent(w, m.from, -cost);
    }
  }

  /** Hence, for a message built from a transaction, the transfer check never fails. */
  lemma TransferCheckRedundant(env: Env, evm: Evm, w: World, pool: nat, tx: Tx, m: Message)
    requires env.Valid() && TransactionToMessage(tx, env.baseFee) == Some(m)
    ensures Transition(env, evm, w, pool, m) != Err(InsufficientFundsForTransfer)
  {
    PriceWithinCap(tx, env.baseFee, m);
    if BuyGas(w, pool, m).Ok? {
      BuyGasCovers(w, pool, m);
    }
  }

  /** If every stage succeeds, so does the transition. */
  lemma Succeeds(env: Env, evm: Evm, w: World, pool: nat, m: Message, w1: World, pool1: nat, gas: nat, o: Outcome)
    requires env.Valid() && PreCheck(env, w, m).None? && BuyGas(w, pool, m) == Ok((w1, pool1))
    requires PostCheck(env, w1, m) == Ok(gas) && gas <= m.gasLimit && o == Finish(env, evm, w1, pool1, m, m.gasLimit - gas)
    ensures Transition(env, evm, w, pool, m) == Ok(o)
  {
  }

  /** The intermediate results of a transition that succeeded. */
  lemma Stages(env: Env, evm: Evm, w: World, pool: nat, m: Message) returns (w1: World, pool1: nat, gas: nat)
    requires env.Valid() && Transition(env, evm, w, pool, m).Ok?
    ensures PreCheck(env, w, m).None? && BuyGas(w, pool, m) == Ok((w1, pool1)) && PostCheck(env, w1, m).Ok?
    ensures gas <= m.gasLimit && gas == m.gasLimit - PostCheck(env, w1, m).value
    ensures Transition(env, evm, w, pool, m) == Ok(Finish(env, evm, w1, pool1, m, gas))
  {
    w1, pool1 := BuyGas(w, pool, m).value.0, BuyGas(w, pool, m).value.1;
    gas := m.gasLimit - PostCheck(env, w1, m).value;
  }

  /** Gas bought is gas used plus gas returned: the pool loses exactly what was used, never less
      than nothing and never more than the limit. */
  lemma GasAccounts(env: Env, evm: Evm, w: World, pool: nat, m: Message)
    requires env.Valid() && Transition(env, evm, w, pool, m).Ok?
    ensures var o := Transition(env, evm, w, pool, m).value;
            o.pool + o.usedGas == pool && o.usedGas <= m.gasLimit <= pool
  {
    var w1, pool1, gas := Stages(env, evm, w, pool, m);
  }

  /** The price is the miner's tip plus the base fee. */
  lemma PriceSplits(env: Env, tx: Tx, w: World, m: Message)
    requires env.Valid() && TransactionToMessage(tx, env.baseFee) == Some(m) && PreCheck(env, w, m).None?
    ensures FeeSkipped(env, m) ==> m.gasPrice == 0
    ensures !FeeSkipped(env, m) ==>
              EffectiveTip(env, m) >= 0 && m.gasPrice == EffectiveTip(env, m) + (if env.rules.london then env.baseFee.value else 0)
  {
  }

  function BaseFeeOf(env: Env): (f: nat)
    requires env.Valid()
  {
    if env.rules.london then env.baseFee.value else 0
  }

  lemma SettleTotal(env: Env, w: World, m: Message, left: nat)
    requires env.Valid() && left <= m.gasLimit
    ensures Total(Settle(env, w, m, left)) ==
            Total(w) + left * m.gasPrice + (if FeeSkipped(env, m) then 0 else (m.gasLimit - left) * EffectiveTip(env, m))
    ensures Settle(env, w, m, left).nonces == w.nonces
  {
    AddBalanceTotal(w, m.from, left * m.gasPrice);
    AddBalanceTotal(AddBalance(w, m.from, left * m.gasPrice), env.coinbase, (m.gasLimit - left) * EffectiveTip(env, m));
  }

  lemma SettleSolvent(env: Env, w: World, m: Message, left: nat)
    requires env.Valid() && left <= m.gasLimit && Solvent(w)
    requires FeeSkipped(env, m) || EffectiveTip(env, m) >= 0
    ensures Solvent(Settle(env, w, m, left))
  {
    assert left * m.gasPrice >= 0;
    AddBalanceSolvent(w, m.from, left * m.gasPrice);
    if !FeeSkipped(env, m) {
      assert (m.gasLimit - left) * EffectiveTip(env, m) >= 0;
      AddBalanceSolvent(AddBalance(w, m.from, left * m.gasPrice), env.coinbase, (m.gasLimit - left) * EffectiveTip(env, m));
    }
  }

  lemma Distribute(limit: nat, left: nat, price: nat, tip: int, base: nat)
    requires left <= limit && price == tip + base
    ensures limit * price - left * price - (limit - left) * tip == (limit - left) * base
  {
    calc {
      limit * price - left * price - (limit - left) * tip;
      (limit - left) * price - (limit - left) * tip;
      (limit - left) * (price - tip);
      (limit - left) * base;
    }
  }

  /** Settlement returns all that was paid for gas except the base fee of the gas used. */
  lemma SettleNet(env: Env, w: World, m: Message, left: nat)
    requires env.Valid() && left <= m.gasLimit
    requires FeeSkipped(env, m) ==> m.gasPrice == 0
    requires !FeeSkipped(env, m) ==> m.gasPrice == EffectiveTip(env, m) + BaseFeeOf(env)
    ensures Total(Settle(env, w, m, left)) ==
            Total(w) + m.gasLimit * m.gasPrice - (if FeeSkipped(env, m) then 0 else (m.gasLimit - left) * BaseFeeOf(env))
  {
    SettleTotal(env, w, m, left);
    if !FeeSkipped(env, m) {
      Distribute(m.gasLimit, left, m.gasPrice, EffectiveTip(env, m), BaseFeeOf(env));
    }
  }

  /** Wei are conserved: what disappears is the base fee of the gas used, plus what the machine
      itself destroyed.  No account is overdrawn. */
  lemma Conservation(env: Env, evm: Evm, keys: set<Address>, w: World, pool: nat, tx: Tx, m: Message)
    requires env.Valid() && GoodEvm(evm, keys) && Solvent(w)
    requires TransactionToMessage(tx, env.baseFee) == Some(m) && Transition(env, evm, w, pool, m).Ok?
    ensures var o := Transition(env, evm, w, pool, m).value;
            && Solvent(o.world)
            && Total(w) == Total(o.world) + o.burnt + (if FeeSkipped(env, m) then 0 else o.usedGas * BaseFeeOf(env))
  {
    var w1, pool1, gas := Stages(env, evm, w, pool, m);
    PriceWithinCap(tx, env.baseFee, m);
    BuyGasCovers(w, pool, m);
    PriceSplits(env, tx, w, m);
    FinishConserves(env, evm, keys, w1, pool1, m, gas);
  }

  lemma FinishConserves(env: Env, evm: Evm, keys: set<Address>, w: World, pool: nat, m: Message, gas: nat)
    requires env.Valid() && GoodEvm(evm, keys) && Solvent(w) && Balance(w, m.from) >= m.value && gas <= m.gasLimit
    requires FeeSkipped(env, m) ==> m.gasPrice == 0
    requires !FeeSkipped(env, m) ==> EffectiveTip(env, m) >= 0 && m.gasPrice == EffectiveTip(env, m) + BaseFeeOf(env)
    ensures var o := Finish(env, evm, w, pool, m, gas);
            && Solvent(o.world)
            && Total(w) + m.gasLimit * m.gasPrice ==
               Total(o.world) + o.burnt + (if FeeSkipped(env, m) then 0 else o.usedGas * BaseFeeOf(env))
  {
    var vm := Execute(evm, w, m, gas);
    var left := Remaining(env.rules, m.gasLimit, vm);
    MachineKeeps(evm, keys, w, m, gas);
    SettleNet(env, vm.world, m, left);
    SettleSolvent(env, vm.world, m, left);
  }

  lemma MachineKeeps(evm: Evm, keys: set<Address>, w: World, m: Message, gas: nat)
    requires GoodEvm(evm, keys) && Solvent(w) && Balance(w, m.from) >= m.value
    ensures var vm := Execute(evm, w, m, gas);
            && Total(vm.world) + vm.burnt == Total(w) && Solvent(vm.world)
            && (Nonce(w, m.from) < MAX_UINT64 ==>
                  forall a :: a in keys ==> Nonce(vm.world, a) == Nonce(w, a) + (if a == m.from then 1 else 0))
  {
    var w' := if m.to.Some? then BumpNonce(w, m.from) else w;
    assert w'.balances == w.balances;
    assert forall a: Address :: Balance(w', a) == Balance(w, a);
    var _ := evm(w', m, gas);
  }

  lemma FeeLaw(gone: int, used: nat, fee: nat, skipped: bool)
    requires gone == if skipped then 0 else used * fee
    ensures gone == used * fee <==> !skipped || used == 0 || fee == 0
  {
    assert used * fee == 0 <==> used == 0 || fee == 0;
  }

  /** The intrinsic gas does not wrap around. */
  predicate NoWrap(rules: Rules, m: Message)
  {
    DataCost(m.data, m.to.None?, rules) + AccessCost(m.accessList) <= MAX_UINT64
  }

  lemma IntrinsicNoWrap(rules: Rules, m: Message)
    requires NoWrap(rules, m)
    ensures Intrinsic(rules, m) == Some(DataCost(m.data, m.to.None?, rules) + AccessCost(m.accessList))
  {
  }

  /** Unless the intrinsic gas wraps around, a transaction always uses gas, whatever is refunded. */
  lemma GasIsUsed(env: Env, evm: Evm, w: World, pool: nat, m: Message)
    requires env.Valid() && NoWrap(env.rules, m) && Transition(env, evm, w, pool, m).Ok?
    ensures Transition(env, evm, w, pool, m).value.usedGas > 0
  {
    var w1, pool1, gas := Stages(env, evm, w, pool, m);
    assert gas < m.gasLimit by {
      IntrinsicNoWrap(env.rules, m);
    }
    RefundLeaves(env.rules, m.gasLimit, Execute(evm, w1, m, gas));
  }

  lemma RefundLeaves(rules: Rules, gasLimit: nat, vm: VmResult)
    requires vm.gasLeft < gasLimit
    ensures Remaining(rules, gasLimit, vm) < gasLimit
  {
    var cap := (gasLimit - vm.gasLeft) / Quotient(rules);
    assert cap < gasLimit - vm.gasLeft by {
      if rules.london {
        assert cap == (gasLimit - vm.gasLeft) / 5;
      } else {
        assert cap == (gasLimit - vm.gasLeft) / 2;
      }
    }
  }

  /** The law "before equals after plus gas used times base fee" (and what the machine destroyed). */
  ghost predicate BaseFeeLaw(env: Env, w: World, o: Outcome)
    requires env.Valid()
  {
    Total(w) == Total(o.world) + o.burnt + o.usedGas * BaseFeeOf(env)
  }

  /** The law holds exactly when the fee is not skipped, or there is no base fee. */
  lemma BaseFeeLawExact(env: Env, evm: Evm, keys: set<Address>, w: World, pool: nat, tx: Tx, m: Message)
    requires env.Valid() && GoodEvm(evm, keys) && Solvent(w) && NoWrap(env.rules, m)
    requires TransactionToMessage(tx, env.baseFee) == Some(m) && Transition(env, evm, w, pool, m).Ok?
    ensures BaseFeeLaw(env, w, Transition(env, evm, w, pool, m).value) <==> !FeeSkipped(env, m) || BaseFeeOf(env) == 0
  {
    BaseFeeLawWrapped(env, evm, keys, w, pool, tx, m);
    GasIsUsed(env, evm, w, pool, m);
  }

  /** If the intrinsic gas wraps around, a transaction may use no gas at all, and then owes nothing. */
  lemma BaseFeeLawWrapped(env: Env, evm: Evm, keys: set<Address>, w: World, pool: nat, tx: Tx, m: Message)
    requires env.Valid() && GoodEvm(evm, keys) && Solvent(w)
    requires TransactionToMessage(tx, env.baseFee) == Some(m) && Transition(env, evm, w, pool, m).Ok?
    ensures var o := Transition(env, evm, w, pool, m).value;
            BaseFeeLaw(env, w, o) <==> !FeeSkipped(env, m) || BaseFeeOf(env) == 0 || o.usedGas == 0
  {
    var o, fee := Transition(env, evm, w, pool, m).value, BaseFeeOf(env);
    FeeLaw(Total(w) - Total(o.world) - o.burnt, o.usedGas, fee, FeeSkipped(env, m)) by {
      Conservation(env, evm, keys, w, pool, tx, m);
    }
  }

  /** With account checks on, a transaction carries its sender's nonce and raises it by one; other
      key-controlled accounts keep theirs. */
  lemma NonceStep(env: Env, evm: Evm, keys: set<Address>, w: World, pool: nat, tx: Tx, m: Message)
    requires env.Valid() && GoodEvm(evm, keys) && Solvent(w)
    requires TransactionToMessage(tx, env.baseFee) == Some(m) && Transition(env, evm, w, pool, m).Ok?
    ensures m.nonce == Nonce(w, m.from)
    ensures forall a :: a in keys ==>
              Nonce(Transition(env, evm, w, pool, m).value.world, a) == Nonce(w, a) + (if a == m.from then 1 else 0)
  {
    var w1, pool1, gas := Stages(env, evm, w, pool, m);
    PriceWithinCap(tx, env.baseFee, m);
    BuyGasCovers(w, pool, m);
    FinishNonces(env, evm, keys, w1, pool1, m, gas);
  }

  lemma FinishNonces(env: Env, evm: Evm, keys: set<Address>, w: World, pool: nat, m: Message, gas: nat)
    requires env.Valid() && GoodEvm(evm, keys) && Solvent(w) && Balance(w, m.from) >= m.value && gas <= m.gasLimit
    requires Nonce(w, m.from) < MAX_UINT64
    ensures forall a :: a in keys ==>
              Nonce(Finish(env, evm, w, pool, m, gas).world, a) == Nonce(w, a) + (if a == m.from then 1 else 0)
  {
    var vm := Execute(evm, w, m, gas);
    MachineKeeps(evm, keys, w, m, gas);
    SettleTotal(env, vm.world, m, Remaining(env.rules, m.gasLimit, vm));
  }
}
