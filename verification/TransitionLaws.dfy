/** What a transaction costs whom, account by account, and when it is accepted. */
module TransitionLaws {
  import opened Options
  import opened WorldState
  import opened IntrinsicGas
  import opened Uint64
  import opened Transitions
  import opened StateProcessor

  // ----- conversion

  /** Conversion copies the transaction; a legacy transaction pays its price, and a dynamic-fee one
      pays tip plus base fee up to its fee cap (before there is a base fee, its fee cap). */
  lemma ConversionExact(tx: Tx, baseFee: Option<nat>)
    ensures TransactionToMessage(tx, baseFee).Some? <==> tx.sender.Some?
    ensures tx.sender.Some? ==>
              var m := TransactionToMessage(tx, baseFee).value;
              && m.from == tx.sender.value && m.nonce == tx.nonce && m.gasLimit == tx.gas && m.to == tx.to && m.value == tx.value
              && m.data == tx.data && m.accessList == tx.accessList && !m.skipAccountChecks
              && (tx.fees.Legacy? ==> m.gasPrice == m.feeCap == m.tipCap == tx.fees.gasPrice)
              && (tx.fees.Dynamic? ==> m.feeCap == tx.fees.feeCap && m.tipCap == tx.fees.tipCap)
              && Converted(baseFee, m)
  {
  }

  /** The price is the one conversion computes. */
  predicate Converted(baseFee: Option<nat>, m: Message)
  {
    if baseFee.None? then m.gasPrice == m.feeCap
    else if m.tipCap + baseFee.value <= m.feeCap then m.gasPrice == m.tipCap + baseFee.value
    else m.gasPrice == m.feeCap
  }

  // ----- who pays and who is paid

  /** The accounts as the machine gets them: the sender has bought all the gas at the price, and for
      a call its nonce is raised. */
  function Prepared(w: World, m: Message): (given: World)
  {
    w.(balances := w.balances[m.from := Balance(w, m.from) - m.gasLimit * m.gasPrice],
       nonces := if m.to.Some? then w.nonces[m.from := Nonce(w, m.from) + 1] else w.nonces)
  }

  /** What follows the machine's result: the refund is capped at a fifth of the gas used since London
      and at half before, the gas not used returns to the pool, and in wei at the price to the sender,
      and the coinbase gets, per gas used, the price less the base fee; nobody else is touched. */
  ghost predicate Charged(env: Env, m: Message, vm: VmResult, pool: nat, o: Outcome)
    requires env.Valid() && vm.gasLeft <= m.gasLimit
  {
    var spent := m.gasLimit - vm.gasLeft;
    var cap := if env.rules.london then spent / 5 else spent / 2;
    var base := if env.rules.london then env.baseFee.value else 0;
    && o.usedGas == spent - (if vm.refund < cap then vm.refund else cap)
    && o.pool == pool + m.gasLimit - o.usedGas && o.failed == vm.failed && o.burnt == vm.burnt
    && o.world.nonces == vm.world.nonces && o.world.code == vm.world.code
    && forall a: Address :: Balance(o.world, a) == Balance(vm.world, a)
         + (if a == m.from then (m.gasLimit - o.usedGas) * m.gasPrice else 0)
         + (if a == env.coinbase && !(env.noBaseFee && m.feeCap == 0 && m.tipCap == 0) then o.usedGas * (m.gasPrice - base) else 0)
  }

  /** A whole transition: the machine runs on the prepared accounts with the gas left after the
      intrinsic cost, and the result is charged. */
  ghost predicate Paid(env: Env, evm: Evm, w: World, pool: nat, m: Message, o: Outcome)
    requires env.Valid()
  {
    && m.gasLimit <= pool && Intrinsic(env.rules, m).Some? && Intrinsic(env.rules, m).value <= m.gasLimit
    && Charged(env, m, evm(Prepared(w, m), m, m.gasLimit - Intrinsic(env.rules, m).value), pool - m.gasLimit, o)
  }

  /** The tip paid is the price less the base fee, unless nothing is paid at all. */
  lemma TipIsPriceLessBaseFee(env: Env, m: Message)
    requires env.Valid() && Converted(env.baseFee, m)
    ensures EffectiveTip(env, m) == m.gasPrice - BaseFeeOf(env)
  {
  }

  lemma SettleBalances(env: Env, w: World, m: Message, left: nat, a: Address)
    requires env.Valid() && Converted(env.baseFee, m) && left <= m.gasLimit
    ensures Balance(Settle(env, w, m, left), a) == Balance(w, a)
            + (if a == m.from then left * m.gasPrice else 0)
            + (if a == env.coinbase && !FeeSkipped(env, m) then (m.gasLimit - left) * (m.gasPrice - BaseFeeOf(env)) else 0)
  {
    TipIsPriceLessBaseFee(env, m);
  }

  lemma FinishCharges(env: Env, evm: Evm, w: World, pool: nat, m: Message, gas: nat)
    requires env.Valid() && Converted(env.baseFee, m) && gas <= m.gasLimit
    ensures Charged(env, m, Execute(evm, w, m, gas), pool, Finish(env, evm, w, pool, m, gas))
  {
    var vm, o := Execute(evm, w, m, gas), Finish(env, evm, w, pool, m, gas);
    var left := Remaining(env.rules, m.gasLimit, vm);
    forall a: Address
      ensures Balance(o.world, a) == Balance(vm.world, a)
              + (if a == m.from then left * m.gasPrice else 0)
              + (if a == env.coinbase && !FeeSkipped(env, m) then (m.gasLimit - left) * (m.gasPrice - BaseFeeOf(env)) else 0)
    {
      SettleBalances(env, vm.world, m, left, a);
    }
  }

  /** The same once gas is bought: the machine runs with the gas left after the intrinsic cost, and
      for a call with the sender's nonce raised. */
  ghost predicate BoughtCharged(env: Env, evm: Evm, w: World, pool: nat, m: Message, o: Outcome)
    requires env.Valid()
  {
    && Intrinsic(env.rules, m).Some? && Intrinsic(env.rules, m).value <= m.gasLimit
    && Charged(env, m, evm(if m.to.Some? then BumpNonce(w, m.from) else w, m, m.gasLimit - Intrinsic(env.rules, m).value), pool, o)
  }

  lemma BoughtCharges(env: Env, evm: Evm, w: World, pool: nat, m: Message)
    requires env.Valid() && Converted(env.baseFee, m) && Bought(env, evm, w, pool, m).Ok?
    ensures BoughtCharged(env, evm, w, pool, m, Bought(env, evm, w, pool, m).value)
  {
    FinishCharges(env, evm, w, pool, m, m.gasLimit - Intrinsic(env.rules, m).value);
  }

  /** Every transition that succeeds charges exactly that. */
  lemma TransitionPays(env: Env, evm: Evm, w: World, pool: nat, m: Message)
    requires env.Valid() && Converted(env.baseFee, m) && Transition(env, evm, w, pool, m).Ok?
    ensures Paid(env, evm, w, pool, m, Transition(env, evm, w, pool, m).value)
  {
    var w1, pool1, gas := Stages(env, evm, w, pool, m);
    BoughtCharges(env, evm, w1, pool1, m);
    var given := if m.to.Some? then BumpNonce(w1, m.from) else w1;
    assert given == Prepared(w, m);
  }

  /** One transaction of a block was charged, and its receipt, the last one, tells the gas it used and
      whether the machine failed. */
  ghost predicate TxPaid(env: Env, evm: Evm, s: Progress, tx: Tx, r: Progress)
    requires env.Valid()
  {
    && tx.sender.Some? && r.receipts != [] && r.burnt >= s.burnt
    && Paid(env, evm, s.world, s.pool, TransactionToMessage(tx, env.baseFee).value,
            Outcome(r.world, r.pool, LastReceipt(r).gasUsed, LastReceipt(r).failed, r.burnt - s.burnt))
  }

  lemma TxPays(env: Env, evm: Evm, s: Progress, tx: Tx)
    requires env.Valid() && StepOf(env, evm)(s, tx).Ok?
    ensures TxPaid(env, evm, s, tx, StepOf(env, evm)(s, tx).value)
  {
    var m := TransactionToMessage(tx, env.baseFee).value;
    ConversionExact(tx, env.baseFee);
    TransitionPays(env, evm, s.world, s.pool, m);
  }

  /** Every transaction of a block is charged so. */
  lemma BlockPays(env: Env, evm: Evm, w: World, gasLimit: nat, txs: seq<Tx>, i: nat)
    requires env.Valid() && i < |txs| && ApplyAll(env, evm, w, gasLimit, txs).Ok?
    ensures var step, start := StepOf(env, evm), Start(w, gasLimit);
            var before, after := Fold(step, start, txs, i), Fold(step, start, txs, i + 1);
            before.Ok? && after.Ok? && TxPaid(env, evm, before.value, txs[i], after.value)
  {
    BlockGas(env, evm, w, gasLimit, txs, i);
    BlockGas(env, evm, w, gasLimit, txs, i + 1);
    TxPays(env, evm, Fold(StepOf(env, evm), Start(w, gasLimit), txs, i).value, txs[i]);
  }

  /** An error found before gas is bought leaves everything alone; after one found later the sender has
      paid for all the gas, and the pool has lost it. */
  lemma ErrorLeaves(env: Env, evm: Evm, w: World, pool: nat, m: Message, a: Address)
    requires env.Valid() && Transition(env, evm, w, pool, m).Err?
    ensures var e, left := Transition(env, evm, w, pool, m).error, AfterError(env, w, pool, m);
            if e in {GasUintOverflow, NotEnoughIntrinsicGas, InsufficientFundsForTransfer, MaxInitCodeSizeExceeded} then
              && left.1 == pool - m.gasLimit && left.0.nonces == w.nonces && left.0.code == w.code
              && Balance(left.0, a) == Balance(w, a) - (if a == m.from then m.gasLimit * m.gasPrice else 0)
            else left == (w, pool)
  {
  }

  // ----- when a transaction is accepted

  /** The sender's account is in order: the right nonce, not the last one, and no code. */
  predicate SenderOk(w: World, m: Message)
  {
    m.skipAccountChecks || (m.nonce == Nonce(w, m.from) && m.nonce < MAX_UINT64 && m.from !in w.code)
  }

  /** Since London the fees are sane and cover the base fee, except for free calls with the base fee
      disabled. */
  predicate FeesOk(env: Env, m: Message)
    requires env.Valid()
  {
    env.rules.london && !(env.noBaseFee && m.feeCap == 0 && m.tipCap == 0) ==>
      m.tipCap <= m.feeCap && m.feeCap < TWO_TO_256 && env.baseFee.value <= m.feeCap
  }

  /** A converted transaction is accepted exactly when its sender is in order, its fees are, the
      sender could pay for all the gas at the fee cap and for the value, the block has the gas, the
      gas covers the intrinsic cost, and no init code is too long. */
  lemma AcceptedExactly(env: Env, evm: Evm, w: World, pool: nat, m: Message)
    requires env.Valid() && Converted(env.baseFee, m)
    ensures Transition(env, evm, w, pool, m).Ok? <==>
              && SenderOk(w, m) && FeesOk(env, m)
              && Balance(w, m.from) >= m.gasLimit * m.feeCap + m.value && pool >= m.gasLimit
              && Intrinsic(env.rules, m).Some? && Intrinsic(env.rules, m).value <= m.gasLimit
              && !(env.rules.shanghai && m.to.None? && |m.data| > 49152)
  {
    if BuyGas(w, pool, m).Ok? {
      BuyGasCovers(w, pool, m);
    }
  }
}
