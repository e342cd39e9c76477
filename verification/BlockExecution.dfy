/** The objects that execute a block: gas pool, account state, state transition, and the loop
    over the transactions. */
module BlockExecution {
  import opened Options
  import opened WorldState
  import opened IntrinsicGas
  import opened Uint64
  import opened Transitions
  import opened StateProcessor
  import opened TransitionLaws

  /** Gas available to the transactions of a block, a 64-bit counter. */
  class GasPool {
    var gas: nat

    constructor ()
      ensures gas == 0
    {
      gas := 0;
    }

    /** Panics exactly on overflow. */
    method AddGas(amount: nat) returns (panic: bool)
      modifies this
      ensures panic <==> old(gas) + amount > MAX_UINT64
      ensures gas == if panic then old(gas) else old(gas) + amount
    {
      if gas > MAX_UINT64 - amount {
        return true;
      }
      gas := gas + amount;
      return false;
    }

    method SubGas(amount: nat) returns (ok: bool)
      modifies this
      ensures ok <==> old(gas) >= amount
      ensures gas == if ok then old(gas) - amount else old(gas)
    {
      if gas < amount {
        return false;
      }
      gas := gas - amount;
      return true;
    }
  }

  class StateDB {
    var world: World
    var refund: nat

    constructor (world: World)
      ensures this.world == world && refund == 0
    {
      this.world, refund := world, 0;
    }

    method SubBalance(a: Address, amount: int)
      modifies this`world
      ensures world == AddBalance(old(world), a, -amount)
    {
      world := world.(balances := world.balances[a := Balance(world, a) - amount]);
    }

    method Credit(a: Address, amount: int)
      modifies this`world
      ensures world == AddBalance(old(world), a, amount)
    {
      world := world.(balances := world.balances[a := Balance(world, a) + amount]);
    }
  }

  lemma DivAtMost(a: nat, q: nat)
    requires q == REFUND_QUOTIENT || q == REFUND_QUOTIENT_EIP3529
    ensures 0 <= a / q <= a
  {
    if q == REFUND_QUOTIENT {
      assert a / 2 <= a;
    } else {
      assert a / 5 <= a;
    }
  }

  class StateTransition {
    const gp: GasPool
    const state: StateDB
    const msg: Message
    var gasRemaining: nat
    var initialGas: nat

    constructor (gp: GasPool, state: StateDB, msg: Message)
      ensures this.gp == gp && this.state == state && this.msg == msg && gasRemaining == 0 && initialGas == 0
    {
      this.gp, this.state, this.msg := gp, state, msg;
      gasRemaining, initialGas := 0, 0;
    }

    function GasUsed(): (g: int)
      reads this
    {
      initialGas - gasRemaining
    }

    method Buy() returns (err: Option<Error>)
      requires gasRemaining == 0
      modifies this, gp, state`world
      ensures match Transitions.BuyGas(old(state.world), old(gp.gas), msg)
              case Err(e) => err == Some(e) && state.world == old(state.world) && gp.gas == old(gp.gas)
              case Ok(bought) =>
                && err == None && state.world == bought.0 && gp.gas == bought.1
                && gasRemaining == initialGas == msg.gasLimit
    {
      var mgval := msg.gasLimit * msg.gasPrice;
      var balanceCheck := msg.gasLimit * msg.feeCap + msg.value;
      if Balance(state.world, msg.from) < balanceCheck {
        return Some(InsufficientFunds);
      }
      var ok := gp.SubGas(msg.gasLimit);
      if !ok {
        return Some(GasLimitReached);
      }
      gasRemaining := gasRemaining + msg.gasLimit;
      initialGas := msg.gasLimit;
      state.SubBalance(msg.from, mgval);
      return None;
    }

    method RefundGas(quotient: nat)
      requires quotient == REFUND_QUOTIENT || quotient == REFUND_QUOTIENT_EIP3529
      requires gasRemaining <= initialGas && gp.gas + initialGas <= MAX_UINT64
      modifies this`gasRemaining, gp, state`world
      ensures gasRemaining == old(gasRemaining) + Min((initialGas - old(gasRemaining)) / quotient, state.refund)
      ensures gasRemaining <= initialGas && gp.gas == old(gp.gas) + gasRemaining
      ensures state.world == AddBalance(old(state.world), msg.from, gasRemaining * msg.gasPrice)
    {
      DivAtMost(initialGas - gasRemaining, quotient);
      var refund := GasUsed() / quotient;
      if refund > state.refund {
        refund := state.refund;
      }
      gasRemaining := gasRemaining + refund;
      state.Credit(msg.from, gasRemaining * msg.gasPrice);
      var panic := gp.AddGas(gasRemaining);
      assert !panic;
    }

    /** The checks after buying gas, with the intrinsic gas as result. */
    method CheckIntrinsic(env: Env) returns (r: Result<nat>)
      requires Fits(msg) && gasRemaining == msg.gasLimit
      ensures r == PostCheck(env, state.world, msg)
    {
      var ok, gas := ComputeIntrinsicGas(msg.data, msg.accessList, msg.to.None?, env.rules);
      if !ok {
        return Err(GasUintOverflow);
      }
      if gasRemaining < gas {
        return Err(NotEnoughIntrinsicGas);
      }
      if msg.value > 0 && Balance(state.world, msg.from) < msg.value {
        return Err(InsufficientFundsForTransfer);
      }
      if env.rules.shanghai && msg.to.None? && |msg.data| > MAX_INIT_CODE_SIZE {
        return Err(MaxInitCodeSizeExceeded);
      }
      return Ok(gas);
    }

    /** Run the message, refund, and pay the miner. */
    method ExecuteAndSettle(env: Env, evm: Evm) returns (failed: bool, ghost burnt: nat)
      requires env.Valid() && gasRemaining <= initialGas == msg.gasLimit && gp.gas + initialGas <= MAX_UINT64
      modifies this`gasRemaining, gp, state
      ensures gasRemaining <= initialGas
      ensures Outcome(state.world, gp.gas, initialGas - gasRemaining, failed, burnt) ==
              Finish(env, evm, old(state.world), old(gp.gas), msg, old(gasRemaining))
    {
      if msg.to.Some? {
        state.world := BumpNonce(state.world, msg.from);
      }
      var vm := evm(state.world, msg, gasRemaining);
      assert vm == Execute(evm, old(state.world), msg, old(gasRemaining));
      state.world, state.refund, gasRemaining := vm.world, vm.refund, vm.gasLeft;
      RefundGas(Quotient(env.rules));
      assert gasRemaining == Remaining(env.rules, msg.gasLimit, vm);
      if !FeeSkipped(env, msg) {
        state.Credit(env.coinbase, GasUsed() * EffectiveTip(env, msg));
      }
      failed, burnt := vm.failed, vm.burnt;
    }

    /** `preCheck`, which ends by buying the gas. */
    method CheckAndBuy(env: Env) returns (err: Option<Error>)
      requires env.Valid() && gasRemaining == 0
      modifies this, gp, state`world
      ensures err.Some? <==>
                PreCheck(env, old(state.world), msg).Some? || Transitions.BuyGas(old(state.world), old(gp.gas), msg).Err?
      ensures err.Some? ==>
                && err.value == (if PreCheck(env, old(state.world), msg).Some? then PreCheck(env, old(state.world), msg).value
                                 else Transitions.BuyGas(old(state.world), old(gp.gas), msg).error)
                && state.world == old(state.world) && gp.gas == old(gp.gas)
      ensures err.None? ==>
                && (state.world, gp.gas) == Transitions.BuyGas(old(state.world), old(gp.gas), msg).value
                && gasRemaining == initialGas == msg.gasLimit
    {
      var pre := PreCheck(env, state.world, msg);
      if pre.Some? {
        return pre;
      }
      err := Buy();
    }

    /** What follows once gas is bought: the remaining checks, execution and settlement, with the
        charges of `BoughtCharges`. */
    method RunBought(env: Env, evm: Evm) returns (r: Result<(nat, bool)>, ghost burnt: nat)
      requires env.Valid() && Fits(msg) && gasRemaining == initialGas == msg.gasLimit && gp.gas + initialGas <= MAX_UINT64
      modifies this`gasRemaining, gp, state
      ensures Transitioned(Bought(env, evm, old(state.world), old(gp.gas), msg), r, state.world, gp.gas, burnt)
      ensures r.Err? ==> state.world == old(state.world) && gp.gas == old(gp.gas)
    {
      burnt := 0;
      var gas := CheckIntrinsic(env);
      if gas.Err? {
        r := Err(gas.error);
      } else {
        gasRemaining := gasRemaining - gas.value;
        var failed;
        failed, burnt := ExecuteAndSettle(env, evm);
        r := Ok((initialGas - gasRemaining, failed));
      }
    }

    /** Apply the message.  Accounts and pool are exactly those of the specification, on success and
        after an error, and the pool never overflows when unused gas is returned. */
    method TransitionDb(env: Env, evm: Evm) returns (r: Result<(nat, bool)>, ghost burnt: nat)
      requires env.Valid() && Fits(msg) && gasRemaining == 0 && gp.gas <= MAX_UINT64
      modifies this, gp, state
      ensures Transitioned(Transition(env, evm, old(state.world), old(gp.gas), msg), r, state.world, gp.gas, burnt)
      ensures r.Err? ==> (state.world, gp.gas) == AfterError(env, old(state.world), old(gp.gas), msg)
      ensures r.Ok? && Converted(env.baseFee, msg) ==>
                Paid(env, evm, old(state.world), old(gp.gas), msg, Outcome(state.world, gp.gas, r.value.0, r.value.1, burnt))
    {
      if Converted(env.baseFee, msg) && Transition(env, evm, state.world, gp.gas, msg).Ok? {
        TransitionPays(env, evm, state.world, gp.gas, msg);
      }
      burnt := 0;
      var err := CheckAndBuy(env);
      if err.Some? {
        r := Err(err.value);
      } else {
        r, burnt := RunBought(env, evm);
      }
    }
  }

  /** The specification gave the same error, or the same gas used, failure, accounts and pool. */
  ghost predicate Transitioned(expected: Result<Outcome>, r: Result<(nat, bool)>, world: World, pool: nat, burnt: nat)
  {
    match expected
    case Err(e) => r == Err(e)
    case Ok(o) => r == Ok((o.usedGas, o.failed)) && world == o.world && pool == o.pool && burnt == o.burnt
  }

  /** Objects and running totals agree with the specification's progress. */
  ghost predicate Tracks(statedb: StateDB, gp: GasPool, usedGas: nat, s: Progress)
    reads statedb, gp
  {
    statedb.world == s.world && gp.gas == s.pool && usedGas == s.usedGas
  }

  /** The specification's step gave the same error, or `next` with the receipt returned. */
  ghost predicate Applied(expected: Result<Progress>, s: Progress, r: Result<Receipt>, next: Progress)
  {
    match expected
    case Err(e) => r == Err(e)
    case Ok(n) => r.Ok? && n == next && next.receipts == s.receipts + [r.value]
  }

  /** Convert and apply one transaction, and write its receipt. */
  method ApplyTransaction(env: Env, evm: Evm, gp: GasPool, statedb: StateDB, tx: Tx, usedGas: nat, ghost s: Progress)
    returns (r: Result<Receipt>, ghost next: Progress)
    requires env.Valid() && tx.nonce <= MAX_UINT64 && tx.gas <= MAX_UINT64 && |tx.data| <= MAX_UINT64
    requires Tracks(statedb, gp, usedGas, s) && gp.gas <= MAX_UINT64
    modifies gp, statedb
    ensures Applied(ApplyTx(env, evm, s, tx), s, r, next)
    ensures r.Ok? ==> Tracks(statedb, gp, usedGas + r.value.gasUsed, next) && gp.gas <= old(gp.gas)
    ensures r.Err? ==> (statedb.world, gp.gas) == TxAfterError(env, s, tx)
  {
    next := s;
    var msg := TransactionToMessage(tx, env.baseFee);
    if msg.None? {
      return Err(BadSignature), next;
    }
    if Transition(env, evm, s.world, s.pool, msg.value).Ok? {
      GasAccounts(env, evm, s.world, s.pool, msg.value);
    }
    var st := new StateTransition(gp, statedb, msg.value);
    var result;
    ghost var burnt: nat;
    result, burnt := st.TransitionDb(env, evm);
    if result.Err? {
      return Err(result.error), next;
    }
    var receipt := Receipt(result.value.0, usedGas + result.value.0, result.value.1);
    next := Progress(statedb.world, gp.gas, usedGas + result.value.0, s.receipts + [receipt], s.burnt + burnt);
    return Ok(receipt), next;
  }

  /** The same as one step of the loop, which discards the state after an error. */
  method ApplyNext(env: Env, evm: Evm, gp: GasPool, statedb: StateDB, tx: Tx, usedGas: nat, ghost s: Progress)
    returns (r: Result<Receipt>, ghost next: Progress)
    requires env.Valid() && tx.nonce <= MAX_UINT64 && tx.gas <= MAX_UINT64 && |tx.data| <= MAX_UINT64
    requires Tracks(statedb, gp, usedGas, s) && gp.gas <= MAX_UINT64
    modifies gp, statedb
    ensures Applied(StepOf(env, evm)(s, tx), s, r, next)
    ensures r.Ok? ==> Tracks(statedb, gp, usedGas + r.value.gasUsed, next) && gp.gas <= old(gp.gas)
  {
    r, next := ApplyTransaction(env, evm, gp, statedb, tx, usedGas, s);
  }

  /** The specification's fold gave the same error, or the receipts and gas returned. */
  ghost predicate Processed(expected: Result<Progress>, r: Result<(seq<Receipt>, nat)>)
  {
    match expected
    case Err(e) => r == Err(e)
    case Ok(s) => r == Ok((s.receipts, s.usedGas))
  }

  /** The transaction loop of `Process`: the result is the specification's fold, so all its laws
      hold of the receipts, the used gas and the final state; the first error is returned. */
  method Process(env: Env, evm: Evm, statedb: StateDB, gasLimit: nat, txs: seq<Tx>)
    returns (r: Result<(seq<Receipt>, nat)>)
    requires env.Valid() && gasLimit <= MAX_UINT64
    requires forall i :: 0 <= i < |txs| ==> txs[i].nonce <= MAX_UINT64 && txs[i].gas <= MAX_UINT64 && |txs[i].data| <= MAX_UINT64
    modifies statedb
    ensures Processed(ApplyAll(env, evm, old(statedb.world), gasLimit, txs), r)
    ensures r.Ok? ==> statedb.world == ApplyAll(env, evm, old(statedb.world), gasLimit, txs).value.world && r.value.1 <= gasLimit
  {
    ghost var w := statedb.world;
    ghost var start, step := Start(w, gasLimit), StepOf(env, evm);
    ghost var s := start;
    var gp := new GasPool();
    var panic := gp.AddGas(gasLimit);
    assert !panic;
    var receipts: seq<Receipt>, usedGas: nat := [], 0;
    for i := 0 to |txs|
      invariant Fold(step, start, txs, i) == Ok(s)
      invariant Tracks(statedb, gp, usedGas, s) && receipts == s.receipts
      invariant gp.gas <= gasLimit && fresh(gp)
    {
      var receipt;
      receipt, s := ApplyNext(env, evm, gp, statedb, txs[i], usedGas, s);
      if receipt.Err? {
        FirstError(step, start, txs, i + 1, |txs|);
        return Err(receipt.error);
      }
      usedGas := usedGas + receipt.value.gasUsed;
      receipts := receipts + [receipt.value];
    }
    BlockGas(env, evm, w, gasLimit, txs, |txs|);
    return Ok((receipts, usedGas));
  }
}
