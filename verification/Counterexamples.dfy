/** Inputs on which a law that one might expect fails; the exact conditions are proved elsewhere. */
module Counterexamples {
  import opened Options
  import opened ChainTree
  import opened ChainDb
  import opened CanonicalIndex
  import opened HeaderImport
  import opened BlockChains
  import opened AncestorLookup
  import opened StateRewind
  import opened RewindTrace
  import opened SetHead
  import opened HeaderChains
  import opened WorldState
  import opened IntrinsicGas
  import opened Uint64
  import opened Transitions

  /** The header at a height of the example chain, with its state root. */
  function At(number: nat, root: Hash): (h: Header)
  {
    Header(number + 1, number, number, 1, 0, root)
  }

  /** Genesis and two blocks on it, with their total difficulties. */
  function Three(): (headers: Store)
  {
    map[1 := At(0, 0), 2 := At(1, 0), 3 := At(2, 0)]
  }

  lemma ThreeIsSound()
    ensures Sound(Tables(Three(), map[1 := 1, 2 := 2, 3 := 3])) && Rooted(Three(), 1)
    ensures IsPath(Three(), map[0 := 1, 1 := 2, 2 := 3], At(2, 0))
    ensures Ancestor(Three(), At(2, 0), 0) == Some(At(0, 0)) && Ancestor(Three(), At(2, 0), 1) == Some(At(1, 0))
  {
    var headers := Three();
    assert Parent(headers, At(1, 0)) == Some(At(0, 0)) && Parent(headers, At(2, 0)) == Some(At(1, 0));
    assert TotalDifficulty(headers, At(0, 0)) == 1;
    assert TotalDifficulty(headers, At(1, 0)) == 2;
    assert TotalDifficulty(headers, At(2, 0)) == 3;
  }

  /** The block head is genesis while header and snap head stand two blocks above it, as after a
      rewind to a block with state.  Writing the first of these blocks again as the head leaves the
      second in the index, and the database is no longer consistent. */
  lemma StaleIndex() returns (h: Heads, root: Hash, block: Header)
    ensures Stands(h, root) && Stored(h.db.headers, block) && block.parentHash == h.block.hash && block.hash in h.db.bodies
    ensures !Consistent(WithHead(h.db, block), root, block)
  {
    var genesis, top := At(0, 0), At(2, 0);
    var bodies: map<Hash, seq<Hash>> := map[1 := [], 2 := [], 3 := []];
    var db := Db(Three(), bodies, map[1 := 1, 2 := 2, 3 := 3], map[0 := 1, 1 := 2, 2 := 3], map[], 3, 3, 1);
    h, root, block := Heads(db, top, genesis, top), 1, At(1, 0);
    ThreeIsSound();
    StandsCovers(h, root);
    BlocksAreHeaders(db);
    ExtendHead(h, root, block);
  }

  /** A block with base fee 7, executed with the base fee disabled. */
  function FreeEnv(): (env: Env)
    ensures env.Valid()
  {
    Env(Rules(true, true, true, true), Some(7), 1, true)
  }

  /** A transfer of nothing that offers nothing for its gas. */
  function FreeTx(): (tx: Tx)
  {
    Tx(Some(2), 0, TX_GAS, Legacy(0), Some(3), 0, [], NoList)
  }

  function FreeMessage(): (m: Message)
    ensures TransactionToMessage(FreeTx(), FreeEnv().baseFee) == Some(m)
  {
    Message(2, 0, TX_GAS, 0, 0, 0, Some(3), 0, [], NoList, false)
  }

  lemma FreeIsIntrinsic()
    ensures DataCost(FreeMessage().data, false, FreeEnv().rules) == TX_GAS && NoWrap(FreeEnv().rules, FreeMessage())
  {
    assert NonZero(FreeMessage().data) == 0;
  }

  lemma FreeBuys(w: World)
    requires Balance(w, 2) == 0
    ensures BuyGas(w, TX_GAS, FreeMessage()) == Ok((AddBalance(w, 2, 0), 0))
  {
    assert TX_GAS * 0 == 0;
  }

  lemma FreePasses(w: World)
    ensures PostCheck(FreeEnv(), w, FreeMessage()) == Ok(TX_GAS)
  {
    FreeIsIntrinsic();
    IntrinsicNoWrap(FreeEnv().rules, FreeMessage());
  }

  /** With the base fee disabled, a transaction that offers nothing uses gas at a positive base fee,
      and no wei disappear; for every machine. */
  lemma FreeCall(evm: Evm, keys: set<Address>)
    requires GoodEvm(evm, keys)
    ensures var w := World(map[], map[], {});
            && Solvent(w) && Transition(FreeEnv(), evm, w, TX_GAS, FreeMessage()).Ok?
            && !BaseFeeLaw(FreeEnv(), w, Transition(FreeEnv(), evm, w, TX_GAS, FreeMessage()).value)
  {
    var env, m, w := FreeEnv(), FreeMessage(), World(map[], map[], {});
    var w1 := AddBalance(w, 2, 0);
    assert PreCheck(env, w, m).None?;
    FreeBuys(w);
    FreePasses(w1);
    FreeIsIntrinsic();
    Succeeds(env, evm, w, TX_GAS, m, w1, 0, TX_GAS, Finish(env, evm, w1, 0, m, 0));
    BaseFeeLawExact(env, evm, keys, w, TX_GAS, FreeTx(), m);
  }

  /** Nobody has the all-zero hash, and yet above the head it has an ancestor. */
  method ZeroHash() returns (db: Db, genesis: Header, answer: Hash)
    ensures Consistent(db, genesis.hash, genesis)
    ensures NthParent(db.headers, NO_HASH, 2, 2).None? && answer != NO_HASH
  {
    genesis := At(0, 0);
    db := Db(map[1 := genesis], map[1 := []], map[1 := 1], map[0 := 1], map[], 1, 1, 1);
    assert Parent(db.headers, genesis).None? && TotalDifficulty(db.headers, genesis) == 1;
    var r, _, _ := GetAncestor(db, NO_HASH, 2, 2, 0, genesis);
    answer := r;
  }

  /** A root is requested that no block has, and the only stored block has its state but no stored
      parent. */
  method RewindCrash() returns (blocks: Store, start: Header, q: Request, r: Option<Header>)
    ensures Stored(blocks, start) && CrashAt(blocks, start, q, start.number) && r.None?
  {
    start := At(1, 5);
    blocks, q := map[2 := start], Request(9, None, {5});
    assert CrashAt(blocks, start, q, 1);
    var end, _, _ := RewindLoop(blocks, At(0, 4), start, q);
    r := end;
  }

  /** The block of the header is missing and genesis has no state: the new head has no state. */
  method StatelessHead() returns (genesis: Header, r: Option<Header>, states: set<Hash>)
    ensures r == Some(genesis) && genesis.root !in states
  {
    genesis := At(0, 4);
    r, states := HeadBlockFor(map[], genesis, At(1, 5), Request(NO_HASH, None, {}));
  }

  /** A chain whose head has no stored parent, with a block of a fork at the height below. */
  function Gapped(): (db: Db)
  {
    var fork := Header(9, 8, 2, 1, 0, 0);
    Db(map[1 := At(0, 0), 4 := At(3, 0), 9 := fork], map[1 := [], 4 := [], 9 := []], map[], map[0 := 1, 3 := 4], map[], 4, 4, 4)
  }

  lemma GapIsMissed(marks: seq<Mark>, hole: nat, now: Heads, q: Request)
    requires marks != [] && marks[0] == Mark(Heads(Gapped(), At(3, 0), At(3, 0), At(3, 0)), q.states)
    requires Flushed(marks, hole, now, At(0, 0), Target(1, 0), q)
    ensures now.header == At(0, 0) && !HighestDone(Gapped().headers, At(3, 0), Target(1, 0), now.header) && 9 in now.db.headers
  {
    var headers, head, t, n := Gapped().headers, At(3, 0), Target(1, 0), |marks| - 1;
    assert Parent(headers, head).None?;
    forall k: nat ensures !DoneAt(headers, head, t, k) {
    }
    GapExact(marks, At(0, 0), q, t);
    if n > 1 {
      OnTheWay(marks, At(0, 0), q, t, 1);
    }
    SweepExact(marks, At(0, 0), q, t, hole, n);
    TablesStay(marks, At(0, 0), q, n);
  }

  /** Past a gap in the headers a rewind to block 1 ends on genesis, and the fork's block above the
      target is left. */
  method GapRewind() returns (bc: BlockChain, crashed: bool)
    ensures !crashed && bc.hc.currentHeader == At(0, 0) && 9 in bc.hc.db.headers && bc.hc.db.headers[9].number == 2
  {
    var hc := new HeaderChain(Gapped(), At(0, 0), At(3, 0));
    bc := new BlockChain(hc);
    ghost var q := Request(NO_HASH, None, {0});
    var crit, failed, states, marks, hole := Rewind(bc, Target(1, 0), Request(NO_HASH, None, {0}));
    crashed := failed;
    if !crashed {
      GapIsMissed(marks, hole, bc.Now(), q);
      TablesStay(marks, At(0, 0), q, |marks| - 1);
    }
  }

  /** A long enough access list, within the length of a slice, costs nothing. */
  lemma FreeAccessList(rules: Rules) returns (list: AccessList)
    ensures list.AccessList? && list.addresses < 0x8000_0000_0000_0000 && list.storageKeys == 0
    ensures AccessCost(list) > 0 && (DataCost([], false, rules) + AccessCost(list)) % TWO_TO_64 == DataCost([], false, rules)
  {
    list := AccessList(0x0800_0000_0000_0000, 0);
    assert DataCost([], false, rules) == TX_GAS;
    assert AccessCost(list) == 75 * TWO_TO_64;
  }
}
