/** Processing a block: every transaction in turn, one gas pool, cumulative receipts. */
module StateProcessor {
  import opened Options
  import opened WorldState
  import opened Transitions

  // ----- the block as a fold of transitions

  datatype Receipt = Receipt(gasUsed: nat, cumulativeGasUsed: nat, failed: bool)

  /** Progress through a block; `burnt` is what the machine destroyed so far. */
  datatype Progress = Progress(world: World, pool: nat, usedGas: nat, receipts: seq<Receipt>, burnt: nat)

  function ApplyTx(env: Env, evm: Evm, s: Progress, tx: Tx): (r: Result<Progress>)
    requires env.Valid()
  {
    var m := TransactionToMessage(tx, env.baseFee);
    if m.None? then Err(BadSignature) else
    match Transition(env, evm, s.world, s.pool, m.value)
    case Err(e) => Err(e)
    case Ok(o) =>
      var used := s.usedGas + o.usedGas;
      Ok(Progress(o.world, o.pool, used, s.receipts + [Receipt(o.usedGas, used, o.failed)], s.burnt + o.burnt))
  }

  /** Accounts and pool after a transaction that fails: untouched if there is no sender. */
  function TxAfterError(env: Env, s: Progress, tx: Tx): (r: (World, nat))
    requires env.Valid()
  {
    var m := TransactionToMessage(tx, env.baseFee);
    if m.None? then (s.world, s.pool) else AfterError(env, s.world, s.pool, m.value)
  }

  type Stepper = (Progress, Tx) -> Result<Progress>

  function StepOf(env: Env, evm: Evm): (step: Stepper)
    requires env.Valid()
  {
    (s: Progress, tx: Tx) => ApplyTx(env, evm, s, tx)
  }

  /** The first `n` transactions, one after the other; the first error ends it. */
  function Fold(step: Stepper, start: Progress, txs: seq<Tx>, n: nat): (r: Result<Progress>)
    requires n <= |txs|
  {
    if n == 0 then Ok(start)
    else
      match Fold(step, start, txs, n - 1)
      case Err(e) => Err(e)
      case Ok(s) => step(s, txs[n - 1])
  }

  function Start(w: World, gasLimit: nat): (s: Progress)
  {
    Progress(w, gasLimit, 0, [], 0)
  }

  /** A whole block. */
  function ApplyAll(env: Env, evm: Evm, w: World, gasLimit: nat, txs: seq<Tx>): (r: Result<Progress>)
    requires env.Valid()
  {
    Fold(StepOf(env, evm), Start(w, gasLimit), txs, |txs|)
  }

  /** The first error of a fold is its result; hence a processed block has processed prefixes. */
  lemma {:induction false} FirstError(step: Stepper, start: Progress, txs: seq<Tx>, i: nat, n: nat)
    requires i <= n <= |txs| && Fold(step, start, txs, i).Err?
    ensures Fold(step, start, txs, n) == Fold(step, start, txs, i)
    decreases n
  {
    if i < n {
      FirstError(step, start, txs, i, n - 1);
    }
  }

  // ----- gas

  function GasSum(receipts: seq<Receipt>, n: nat): (g: nat)
    requires n <= |receipts|
  {
    if n == 0 then 0 else GasSum(receipts, n - 1) + receipts[n - 1].gasUsed
  }

  lemma {:induction false} GasSumSame(receipts: seq<Receipt>, more: seq<Receipt>, n: nat)
    requires n <= |receipts| <= |more| && more[..|receipts|] == receipts
    ensures GasSum(more, n) == GasSum(receipts, n)
  {
    if n > 0 {
      GasSumSame(receipts, more, n - 1);
      assert more[n - 1] == more[..|receipts|][n - 1];
    }
  }

  /** Pool and used gas make up the limit, and the cumulative values are prefix sums. */
  ghost predicate GasBooks(gasLimit: nat, n: nat, s: Progress)
  {
    && s.pool + s.usedGas == gasLimit && |s.receipts| == n && s.usedGas == GasSum(s.receipts, n)
    && forall i :: 0 <= i < n ==> CumulativeAt(s.receipts, i)
  }

  predicate CumulativeAt(receipts: seq<Receipt>, i: nat)
    requires i < |receipts|
  {
    receipts[i].cumulativeGasUsed == GasSum(receipts, i + 1)
  }

  /** One more receipt, with what it used taken from the pool. */
  ghost predicate GasStep(s: Progress, r: Progress)
  {
    && r.receipts != [] && r.receipts[..|r.receipts| - 1] == s.receipts && r.usedGas == s.usedGas + LastReceipt(r).gasUsed
    && LastReceipt(r).cumulativeGasUsed == r.usedGas && r.pool + LastReceipt(r).gasUsed == s.pool
  }

  function LastReceipt(s: Progress): (r: Receipt)
    requires s.receipts != []
  {
    s.receipts[|s.receipts| - 1]
  }

  ghost predicate KeepsGas(step: Stepper)
  {
    forall s: Progress, tx: Tx {:trigger step(s, tx)} :: step(s, tx).Ok? ==> GasStep(s, step(s, tx).value)
  }

  lemma GasBooksStep(gasLimit: nat, n: nat, s: Progress, r: Progress)
    requires GasBooks(gasLimit, n, s) && GasStep(s, r)
    ensures GasBooks(gasLimit, n + 1, r)
  {
    GasSumSame(s.receipts, r.receipts, n);
    forall i | 0 <= i < n ensures CumulativeAt(r.receipts, i) {
      assert CumulativeAt(s.receipts, i) && r.receipts[i] == r.receipts[..n][i];
      GasSumSame(s.receipts, r.receipts, i + 1);
    }
  }

  lemma {:induction false} FoldGas(step: Stepper, w: World, gasLimit: nat, txs: seq<Tx>, n: nat)
    requires KeepsGas(step) && n <= |txs| && Fold(step, Start(w, gasLimit), txs, n).Ok?
    ensures GasBooks(gasLimit, n, Fold(step, Start(w, gasLimit), txs, n).value)
    decreases n
  {
    if n > 0 {
      FoldGas(step, w, gasLimit, txs, n - 1);
      var s := Fold(step, Start(w, gasLimit), txs, n - 1).value;
      GasBooksStep(gasLimit, n - 1, s, step(s, txs[n - 1]).value);
    }
  }

  lemma TxKeepsGas(env: Env, evm: Evm)
    requires env.Valid()
    ensures KeepsGas(StepOf(env, evm))
  {
    forall s: Progress, tx: Tx | StepOf(env, evm)(s, tx).Ok? ensures GasStep(s, StepOf(env, evm)(s, tx).value) {
      GasAccounts(env, evm, s.world, s.pool, TransactionToMessage(tx, env.baseFee).value);
    }
  }

  /** After every transaction of a block the pool and the used gas make up the block's gas limit,
      and the receipts' cumulative values are the prefix sums of their gas used. */
  lemma BlockGas(env: Env, evm: Evm, w: World, gasLimit: nat, txs: seq<Tx>, n: nat)
    requires env.Valid() && n <= |txs| && ApplyAll(env, evm, w, gasLimit, txs).Ok?
    ensures var s := Fold(StepOf(env, evm), Start(w, gasLimit), txs, n);
            s.Ok? && GasBooks(gasLimit, n, s.value) && s.value.usedGas <= gasLimit
  {
    if Fold(StepOf(env, evm), Start(w, gasLimit), txs, n).Err? {
      FirstError(StepOf(env, evm), Start(w, gasLimit), txs, n, |txs|);
    }
    TxKeepsGas(env, evm);
    FoldGas(StepOf(env, evm), w, gasLimit, txs, n);
  }

  // ----- wei

  /** The transaction pays no fee, because the base fee is disabled and it offers none. */
  predicate Skips(env: Env, tx: Tx)
  {
    var m := TransactionToMessage(tx, env.baseFee);
    m.Some? && FeeSkipped(env, m.value)
  }

  /** The base fees of the first `n` transactions: gas used times base fee, of those that pay. */
  function BaseFees(env: Env, txs: seq<Tx>, receipts: seq<Receipt>, n: nat): (wei: nat)
    requires env.Valid() && n <= |txs| && n <= |receipts|
  {
    if n == 0 then 0
    else BaseFees(env, txs, receipts, n - 1) + (if Skips(env, txs[n - 1]) then 0 else receipts[n - 1].gasUsed * BaseFeeOf(env))
  }

  lemma {:induction false} BaseFeesSame(env: Env, txs: seq<Tx>, receipts: seq<Receipt>, more: seq<Receipt>, n: nat)
    requires env.Valid() && n <= |txs| && n <= |receipts| <= |more| && more[..|receipts|] == receipts
    ensures BaseFees(env, txs, more, n) == BaseFees(env, txs, receipts, n)
  {
    if n > 0 {
      BaseFeesSame(env, txs, receipts, more, n - 1);
      assert more[n - 1] == more[..|receipts|][n - 1];
    }
  }

  /** With the base fee enabled everybody pays: the base fees are the gas used times the base fee. */
  lemma {:induction false} FeesEnabled(env: Env, txs: seq<Tx>, receipts: seq<Receipt>, n: nat)
    requires env.Valid() && n <= |txs| && n <= |receipts| && !env.noBaseFee
    ensures BaseFees(env, txs, receipts, n) == GasSum(receipts, n) * BaseFeeOf(env)
  {
    if n > 0 {
      FeesEnabled(env, txs, receipts, n - 1);
      Distributes(GasSum(receipts, n - 1), receipts[n - 1].gasUsed, BaseFeeOf(env));
    }
  }

  lemma Distributes(a: nat, b: nat, c: nat)
    ensures (a + b) * c == a * c + b * c
  {
  }

  /** One transaction: nobody overdrawn, and what disappeared is its base fee and what the machine
      destroyed. */
  ghost predicate WeiStep(env: Env, s: Progress, tx: Tx, r: Progress)
    requires env.Valid()
  {
    && Solvent(r.world) && r.receipts != []
    && Total(s.world) ==
       Total(r.world) + (r.burnt - s.burnt) + (if Skips(env, tx) then 0 else LastReceipt(r).gasUsed * BaseFeeOf(env))
  }

  ghost predicate KeepsWei(env: Env, step: Stepper)
    requires env.Valid()
  {
    forall s: Progress, tx: Tx {:trigger step(s, tx)} ::
      Solvent(s.world) && step(s, tx).Ok? ==> WeiStep(env, s, tx, step(s, tx).value)
  }

  /** From `w`, over the first `n` transactions: nobody was overdrawn, and the wei that disappeared
      are the base fees, plus what the machine destroyed. */
  ghost predicate Conserved(env: Env, w: World, txs: seq<Tx>, n: nat, s: Progress)
    requires env.Valid() && n <= |txs|
  {
    Solvent(s.world) && |s.receipts| == n && Total(w) == Total(s.world) + s.burnt + BaseFees(env, txs, s.receipts, n)
  }

  lemma {:induction false} FoldConserves(env: Env, step: Stepper, w: World, gasLimit: nat, txs: seq<Tx>, n: nat)
    requires env.Valid() && KeepsGas(step) && KeepsWei(env, step) && Solvent(w)
    requires n <= |txs| && Fold(step, Start(w, gasLimit), txs, n).Ok?
    ensures Conserved(env, w, txs, n, Fold(step, Start(w, gasLimit), txs, n).value)
    decreases n
  {
    if n > 0 {
      FoldConserves(env, step, w, gasLimit, txs, n - 1);
      var s := Fold(step, Start(w, gasLimit), txs, n - 1).value;
      var r := step(s, txs[n - 1]).value;
      BaseFeesSame(env, txs, s.receipts, r.receipts, n - 1);
    }
  }

  lemma TxConserves(env: Env, evm: Evm, keys: set<Address>)
    requires env.Valid() && GoodEvm(evm, keys)
    ensures KeepsWei(env, StepOf(env, evm))
  {
    forall s: Progress, tx: Tx | Solvent(s.world) && StepOf(env, evm)(s, tx).Ok?
      ensures WeiStep(env, s, tx, StepOf(env, evm)(s, tx).value)
    {
      Conservation(env, evm, keys, s.world, s.pool, tx, TransactionToMessage(tx, env.baseFee).value);
    }
  }

  /** Over a whole block wei are conserved up to the base fees, whoever pays them. */
  lemma BlockConservation(env: Env, evm: Evm, keys: set<Address>, w: World, gasLimit: nat, txs: seq<Tx>)
    requires env.Valid() && GoodEvm(evm, keys) && Solvent(w)
    requires ApplyAll(env, evm, w, gasLimit, txs).Ok?
    ensures Conserved(env, w, txs, |txs|, ApplyAll(env, evm, w, gasLimit, txs).value)
  {
    TxKeepsGas(env, evm);
    TxConserves(env, evm, keys);
    FoldConserves(env, StepOf(env, evm), w, gasLimit, txs, |txs|);
  }

  // ----- nonces

  /** How many of the first `n` transactions `a` sent. */
  function SentBy(txs: seq<Tx>, a: Address, n: nat): (k: nat)
    requires n <= |txs|
  {
    if n == 0 then 0 else SentBy(txs, a, n - 1) + (if txs[n - 1].sender == Some(a) then 1 else 0)
  }

  /** A transaction of `a` carries its nonce and raises it by one; others leave it alone. */
  ghost predicate NonceOk(s: Progress, tx: Tx, a: Address, r: Progress)
  {
    && Solvent(r.world) && Nonce(r.world, a) == Nonce(s.world, a) + (if tx.sender == Some(a) then 1 else 0)
    && (tx.sender == Some(a) ==> tx.nonce == Nonce(s.world, a))
  }

  ghost predicate KeepsNonces(step: Stepper, a: Address)
  {
    forall s: Progress, tx: Tx {:trigger step(s, tx)} ::
      Solvent(s.world) && step(s, tx).Ok? ==> NonceOk(s, tx, a, step(s, tx).value)
  }

  /** Every transaction of `a` carries the nonce `a` started with plus the number it sent before. */
  ghost predicate Consecutive(start: nat, txs: seq<Tx>, a: Address, n: nat)
    requires n <= |txs|
  {
    forall i :: 0 <= i < n && txs[i].sender == Some(a) ==> txs[i].nonce == start + SentBy(txs, a, i)
  }

  lemma {:induction false} FoldNonces(step: Stepper, start: Progress, txs: seq<Tx>, a: Address, n: nat)
    requires KeepsNonces(step, a) && Solvent(start.world) && n <= |txs| && Fold(step, start, txs, n).Ok?
    ensures var s := Fold(step, start, txs, n).value;
            Solvent(s.world) && Nonce(s.world, a) == Nonce(start.world, a) + SentBy(txs, a, n)
    ensures Consecutive(Nonce(start.world, a), txs, a, n)
    decreases n
  {
    if n > 0 {
      FoldNonces(step, start, txs, a, n - 1);
      assert NonceOk(Fold(step, start, txs, n - 1).value, txs[n - 1], a, Fold(step, start, txs, n).value);
    }
  }

  lemma TxNonces(env: Env, evm: Evm, keys: set<Address>, a: Address)
    requires env.Valid() && GoodEvm(evm, keys) && a in keys
    ensures KeepsNonces(StepOf(env, evm), a)
  {
    forall s: Progress, tx: Tx | Solvent(s.world) && StepOf(env, evm)(s, tx).Ok?
      ensures NonceOk(s, tx, a, StepOf(env, evm)(s, tx).value)
    {
      var m := TransactionToMessage(tx, env.baseFee).value;
      NonceStep(env, evm, keys, s.world, s.pool, tx, m);
      Conservation(env, evm, keys, s.world, s.pool, tx, m);
    }
  }

  /** After a block each key-controlled account's nonce has grown by the number of transactions it
      sent, and each transaction carried the nonce its sender had reached. */
  lemma BlockNonces(env: Env, evm: Evm, keys: set<Address>, w: World, gasLimit: nat, txs: seq<Tx>, a: Address)
    requires env.Valid() && GoodEvm(evm, keys) && Solvent(w) && a in keys
    requires ApplyAll(env, evm, w, gasLimit, txs).Ok?
    ensures Nonce(ApplyAll(env, evm, w, gasLimit, txs).value.world, a) == Nonce(w, a) + SentBy(txs, a, |txs|)
    ensures Consecutive(Nonce(w, a), txs, a, |txs|)
  {
    TxNonces(env, evm, keys, a);
    FoldNonces(StepOf(env, evm), Start(w, gasLimit), txs, a, |txs|);
  }

  lemma {:induction false} SentByGrows(txs: seq<Tx>, a: Address, i: nat, j: nat)
    requires i < j <= |txs| && txs[i].sender == Some(a)
    ensures SentBy(txs, a, i) < SentBy(txs, a, j)
    decreases j
  {
    if i + 1 < j {
      SentByGrows(txs, a, i, j - 1);
    }
  }

  /** Hence no (sender, nonce) pair executes twice in a block. */
  lemma NoReplay(env: Env, evm: Evm, keys: set<Address>, w: World, gasLimit: nat, txs: seq<Tx>, i: nat, j: nat)
    requires env.Valid() && GoodEvm(evm, keys) && Solvent(w)
    requires ApplyAll(env, evm, w, gasLimit, txs).Ok?
    requires i < j < |txs| && txs[i].sender.Some? && txs[i].sender == txs[j].sender && txs[i].sender.value in keys
    ensures txs[i].nonce < txs[j].nonce
  {
    var a := txs[i].sender.value;
    BlockNonces(env, evm, keys, w, gasLimit, txs, a);
    SentByGrows(txs, a, i, j);
  }
}
