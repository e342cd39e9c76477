# The canonical chain of go-ethereum, and the machinery around it, in Dafny

A model of the parts of go-ethereum whose correctness rests on invariants over whole runs, with
proofs that those invariants hold.

**The chain store.** A database of parent-linked blocks, a number-to-hash canonical index, total
difficulties, a transaction lookup index and three head markers. `HeaderChain` and `BlockChain` are
classes; every write goes through a batch, and every loop reads the database while its writes still
sit in the batch, as in the source. Two facts drive the proofs: the store is closed under parents,
and the index is exactly the ancestor path of its head (`ChainDb.IsPath`). Hashes are numbers, with
zero for the all-zero hash; equal hashes mean equal headers and bodies. At block level the model is
full sync: every header has its body.

**The chain indexer.** A background worker that gives up its lock while it processes a section. It
is modelled as a state machine in which every step reads its own view of the chain, so the chain
may change arbitrarily between any two steps, and as a class whose methods are the steps.

**The event feed.** Subscribe, unsubscribe and send as interleaved steps, and `Send` itself on the
backing array, where the cases still to be served are a prefix of the send list.  What the channels
answer, which of them a waiting send is woken by, and the removals that come in are an input
(`SendLoop.Environment`); the loop is proved to be a run of the protocol.

**Gas and wei.** Buying gas, intrinsic gas, refunds, the tip, and the transaction loop of a block.
The virtual machine is a parameter: it returns no more gas than it was given, makes no wei, overdraws
nobody, and touches the nonce of a key-controlled sender only when it creates a contract. What it
destroys itself (`burnt`) is part of its result. This is the "Specification" section of EIP-1559 and
of EIP-3529, and section 6.2 of the Ethereum Yellow Paper.

**Fast forms.** The memoised BLOCKHASH walk, the index shortcut of `GetAncestor`, and the parser and
printer of derivation paths (section "Path levels" of BIP-44).

The tie-breaking coin of the fork choice, the local-block callback, the order in which channels
accept a value, the moments at which removals arrive, and the state roots that are available are
parameters or free choices; every theorem holds for all of them.

Some laws fail on some inputs; for these the exact condition is proved, and the module
`Counterexamples` holds an input for each:

- A block that extends the current block is written without a reorganisation. If the index reached
  above the current block, the result is the new block's path exactly when nothing was indexed above
  the new block (`ExtensionExact`); the next reorganisation repairs it (`ReorganisedIsExact`).
- A rewind ends on the highest ancestor that meets the target exactly when a stored ancestor does;
  past a gap in the headers it ends on genesis, and what lies between stays (`GapExact`,
  `SweepExact`).
- "Total before equals total after plus gas used times base fee" fails exactly when the fee is
  skipped at a positive base fee (`BaseFeeLawExact`), the wrap-around of the intrinsic gas aside.
- `GetAncestor` on the all-zero hash answers as if it were canonical above the head (`GetAncestor`).
- The head block of a rewind has its state, unless the block of the header is missing and genesis
  has no state (`HeadBlockFor`); with a requested root the loop crashes exactly when it steps over a
  stateful block to a missing parent (`RewindLoop`).
- The access list terms of the intrinsic gas wrap around in 64 bits (`ComputeIntrinsicGas`).

`Sections` reports the largest 64-bit number when nothing is stored.  The comment on
`ParseDerivationPath` says that whitespace is ignored; the code ignores it only around components
and before the hardening mark, and the model follows the code.

The lookup theorems assume that no transaction occurs twice in one chain; within a block this is
`NoReplay`.

## Model

| member | source | states |
|---|---|---|
| ForkWalk.WalkDown | go-ethereum/core/blockchain.go:2085-2104 | walking the longer chain down ends at its ancestor at the other's height, or nowhere exactly when a block is missing, and gathers that branch and its transactions |
| ForkWalk.FindFork | go-ethereum/core/blockchain.go:2078-2129 | a fork is found if and only if the old head is stored and the two chains share a stored block; the result is the highest shared block, both branches and exactly the transactions of the old branch |
| CanonicalIndex.WriteHeadBatch | go-ethereum/core/blockchain.go:888-909 | one batch sets the index entry, the lookup entries of the block's transactions and all three markers, and nothing else |
| CanonicalIndex.BranchIndexAt | go-ethereum/core/blockchain.go:2156-2164 | writing a branch in ascending order maps each of its heights to the ancestor there and no other height |
| CanonicalIndex.BranchLookupAt | go-ethereum/core/blockchain.go:2156-2164 | the lookup entries written are those of the transactions of the branch, with the height of a block that holds each |
| CanonicalIndex.HashDifference | go-ethereum/core/types/transaction.go:483-498 | the loops keep, in order and with repetitions, exactly the hashes of the first list that are not in the second |
| CanonicalIndex.Without | go-ethereum/core/types/transaction.go:483-498 | a hash is kept if and only if it is in the first list and not in the second |
| CanonicalIndex.QueueDrops | go-ethereum/core/blockchain.go:2180-2186 | the loop ends, and the batch removes exactly the index entries from a height up to the first hole of the database |
| CanonicalIndex.DropIndexes | go-ethereum/core/blockchain.go:2168-2189 | the clean-up batch removes the stale lookup entries and the index entries up to the first hole, and nothing else |
| ReorgEffect.IndexAfterReorg | go-ethereum/core/blockchain.go:2069-2189 | after a reorganisation the index is exactly the ancestor path of the new head or, if that is still to be written, of its parent, whichever chain was longer and whatever was left over in the index above the old head |
| ReorgEffect.LastWritten | go-ethereum/core/blockchain.go:2156-2164 | the loop that writes the new chain ends on its last block below the head, or writes nothing if that is on the old chain |
| ReorgEffect.PathCovers | go-ethereum/core/blockchain.go:2176-2186 | the path of a higher head is the path of every block on it with leftovers above |
| ReorgEffect.LookupSound | go-ethereum/core/blockchain.go:2156-2171 | every lookup entry left points to a block of the kept chain that holds the transaction |
| ReorgEffect.LookupComplete | go-ethereum/core/blockchain.go:2156-2171 | every transaction of the kept chain still has its entry, also if it moved between the branches |
| ReorgEffect.LookupAfterReorg | go-ethereum/core/blockchain.go:2085-2171 | if no chain holds a transaction twice, the lookup index maps exactly the transactions of the kept chain to their heights |
| ReorgEffect.HeadOnPath | go-ethereum/core/blockchain.go:888-909 | writing a head on its parent's path, or again on its own, gives exactly the path of the head |
| ReorgEffect.LookupOnHead | go-ethereum/core/blockchain.go:888-909 | likewise for the lookup index, including transactions that reappear only in the head block |
| ReorgEffect.ExtensionExact | go-ethereum/core/blockchain.go:1322-1331 | writing a child of the current block without a reorganisation leaves its path with leftovers above, and exactly its path if and only if nothing was indexed above the child |
| ReorgEffect.AlwaysMeet | go-ethereum/core/blockchain.go:2105-2129 | in a parent-closed store with one root any two chains share a block, so a reorganisation cannot fail |
| BlockChains.BlockChain.WriteHeadBlock | go-ethereum/core/blockchain.go:888-915 | database and in-memory heads all move to the block, and nothing else changes |
| BlockChains.BlockChain.WriteBranch | go-ethereum/core/blockchain.go:2154-2164 | the new branch without its head is written, the transactions collected are exactly those of the blocks written, and heads and markers are left on the last of them |
| BlockChains.BlockChain.Reorg | go-ethereum/core/blockchain.go:2069-2189 | succeeds if and only if the old head is stored and the chains meet; an error changes nothing; otherwise index and lookup index end at the new head or its parent, and heads and markers at the last block written, if any |
| BlockChains.BlockChain.WriteKnownBlock | go-ethereum/core/blockchain.go:1322-1331 | in any database with exact tables it succeeds; all heads and markers move to the block, stored data is untouched and the lookup index stays exact; an index that covers the old head covers the new one, and is exactly its path if and only if a reorganisation ran or nothing was indexed above the block |
| BlockChains.ExtendHead | go-ethereum/core/blockchain.go:1324-1329 | for a child of the block head the index is the child's path if and only if nothing was indexed above it |
| BlockChains.StandsCovers | go-ethereum/core/blockchain.go:627-691 | after a rewind that left the block head below the header head, the index covers the block head; it is exact if and only if the heights agree |
| BlockChains.ExactStands | go-ethereum/core/blockchain.go:888-915 | a state with one head is consistent if and only if its index is exactly the head's path |
| BlockChains.ReorganisedIsExact | go-ethereum/core/blockchain.go:2173-2189 | an import that reorganises repairs the index, whatever was left over in it |
| BlockChains.StoreBlock | go-ethereum/core/blockchain.go:1348-1355 | one batch stores header, body and total difficulty, and nothing else |
| BlockChains.StoreSound | go-ethereum/core/blockchain.go:1335-1355 | storing a block above its parent's total difficulty keeps every stored total difficulty exact, also if its header was known |
| BlockChains.BlockChain.WriteBlockWithState | go-ethereum/core/blockchain.go:1335-1355 | fails, changing nothing, exactly on an unknown parent; otherwise stores the block and keeps all total difficulties exact, also over headers without bodies |
| BlockChains.BlockChain.WriteBlockAndSetHead | go-ethereum/core/blockchain.go:1429-1452 | in any database with exact tables the only failure is an unknown ancestor; the status is what the fork choice says; heads, markers, tables, lookup index and index after every status are stated; without a terminal total difficulty the head never gets lighter; by weight, a strictly heavier block always becomes the head and, before the merge, a strictly lighter one never does |
| BlockChains.BlockChain.ImportRun | go-ethereum/core/blockchain.go:1429-1452 | over any run of imports and any draws, from any state with exact tables: each state follows from the one before by the import of the next block, so every block with a known parent is stored; between any two states the laws of `RunsKeep` hold; the last head is at least as heavy as every block imported |
| BlockChains.RunsKeep | go-ethereum/core/blockchain.go:1429-1452 | from any state of a run to any later one: tables stay exact, no head is lighter, an index that covers the head still does, one that is exact still is, and, if no chain repeats a transaction, an exact lookup index stays exact |
| BlockChains.HeavierWins | go-ethereum/core/blockchain.go:1439-1452 | in terms of total difficulty: the heavier block wins, the lighter loses before the merge, and the head left is at least as heavy as the block |
| BlockChains.HeaviestBlock | go-ethereum/core/blockchain.go:1429-1452 | at every later point of a run the head is at least as heavy as a block imported before |
| SideChain.SideBlock | go-ethereum/core/blockchain.go:1888-1924 | one side-chain block: an attack is reported if and only if another canonical block at its height, not above the current block, has its state root; otherwise the running total after it is its exact total difficulty, whether it was re-imported, known or new |
| SideChain.RepeatsOnChain | go-ethereum/core/blockchain.go:1890-1916 | where the index covers the current block, a block is an attack if and only if the ancestor of the current block at its height is another block with the same state root |
| SideChain.ExtendSide | go-ethereum/core/blockchain.go:1911-1924 | a block off the canonical chain is stored unless known, on the running total or, if there is none, on its parent's |
| SideChain.InsertSideChain | go-ethereum/core/blockchain.go:1888-1933 | exactly the blocks before the first that repeats a canonical state root are stored, with their bodies, and every total difficulty is exact; each of them is found again under its hash, with its transactions |
| DifficultyRuns.ImportAny | go-ethereum/core/headerchain.go:204-256 | one import of headers, a block or a side chain with a known parent stores exactly what it should, keeps every total difficulty exact and loses nothing; a head move leaves the tables alone |
| DifficultyRuns.ImportMixed | go-ethereum/core/blockchain.go:1888-1933 | over any run that mixes header batches, blocks, side chains and arbitrary moves of index and current block, each moment follows from the one before, and all tables are exact |
| ForkChoice.ReorgNeeded | go-ethereum/core/forkchoice.go:77-113 | an error exactly on a missing total difficulty; after the merge every head is accepted; before it a heavier head wins and a lighter one loses, and between equal weights the lower height wins, then a preserved current head stays, a preserved external one wins, and otherwise the coin decides |
| ForkChoice.CoinOnlyBreaksTies | go-ethereum/core/forkchoice.go:98-112 | the coin matters if and only if total difficulty and height are equal, neither block is preserved and the merge has not happened |
| HeaderReorg.ContiguousAncestor | go-ethereum/core/headerchain.go:218-227 | in a contiguous stored batch every header is the ancestor of every later one |
| HeaderReorg.Rewire | go-ethereum/core/headerchain.go:157-175 | the backward walk succeeds if and only if it meets the index or height zero inside the store; the cross link it ends at is the highest, and the batch then sets exactly the heights above it to the ancestors of the first header |
| HeaderReorg.Pile | go-ethereum/core/headerchain.go:177-188 | the batch sets exactly the heights of the headers and leaves the head marker on the last |
| HeaderReorg.RewiredIsPath | go-ethereum/core/headerchain.go:148-188 | dropping, rewiring and piling together give exactly the path of the last header, although all reads saw the old database |
| HeaderReorg.ExtendedIsPath | go-ethereum/core/headerchain.go:177-188 | piling onto the head gives exactly the path of the last header |
| HeaderReorg.SwitchBatch | go-ethereum/core/headerchain.go:148-188 | the batch for headers off the head exists if and only if the walk back meets the index inside the store, and moves exactly index and marker |
| HeaderReorg.ReorgBatch | go-ethereum/core/headerchain.go:134-192 | the same for both branches |
| HeaderChains.HeaderChain.Open | go-ethereum/core/headerchain.go:79-108 | without a genesis header there is no chain; otherwise it stands on the stored head block's header, or on genesis |
| HeaderChains.HeaderChain.Reorg | go-ethereum/core/headerchain.go:134-198 | fails, changing nothing, exactly when the walk back leaves the store before it meets the index; otherwise the index is exactly the path of the last header and marker and memory name it |
| HeaderImport.KnownPrefix | go-ethereum/core/headerchain.go:231-244 | in a parent-closed store the known headers of a contiguous batch are a prefix, so skipping until the first unknown one is right |
| HeaderImport.StoreHeaderSound | go-ethereum/core/headerchain.go:229-243 | storing one header keeps the tables closed and exact, and storing a known one changes nothing |
| HeaderImport.StoreAllSound | go-ethereum/core/headerchain.go:218-245 | storing a contiguous batch above its parent's total difficulty keeps the tables closed and every total difficulty exact |
| HeaderImport.QueueHeaders | go-ethereum/core/headerchain.go:212-255 | the loop skips exactly the known headers, counts the others and stores them with the running total |
| HeaderChains.HeaderChain.WriteHeaders | go-ethereum/core/headerchain.go:204-256 | fails exactly on an unknown parent; otherwise the store gains exactly the batch, the count is that of the unknown headers, and every total difficulty is exact |
| HeaderChains.HeaderChain.WriteHeadersAndSetHead | go-ethereum/core/headerchain.go:265-301 | the only failure is an unknown ancestor, which changes nothing; otherwise the store gains exactly the batch; the head moves if and only if the fork choice prefers the last header and the index does not hold it, and the status says side chain if and only if the fork choice refuses a new header; by weight, a strictly heavier last header always becomes the head with exactly its path as index, and before the merge a strictly lighter one leaves head, marker and index alone |
| HeaderChains.HeaderChain.ChooseHead | go-ethereum/core/headerchain.go:281-300 | the second half: ask the fork choice, skip what the index already holds, reorganise otherwise; the status and the whole new state are those of the import |
| HeaderChains.HeaderChain.ImportRun | go-ethereum/core/headerchain.go:265-301 | over any run of batches and any draws, each state follows from the one before by the import of the next batch, so every batch with a known parent is stored; all states are valid, the head never gets lighter, and the last head is at least as heavy as every last header imported |
| HeaderChains.NeverLighter | go-ethereum/core/headerchain.go:265-301 | along a run the total difficulty of the head never decreases |
| HeaderChains.WeightDecides | go-ethereum/core/headerchain.go:281-300 | in terms of total difficulty: the heavier batch becomes the canonical chain, and before the merge the lighter one changes nothing and the head left is at least as heavy |
| HeaderChains.HeaviestWins | go-ethereum/core/headerchain.go:265-301 | at every later point of a run the head is at least as heavy as a last header imported before |
| AncestorLookup.NthParentIsAncestor | go-ethereum/core/headerchain.go:405-415 | the parent-by-parent walk agrees with the ancestor in the tree |
| AncestorLookup.ShortcutIsParent | go-ethereum/core/headerchain.go:398-403 | for a block on the index, the entry `k` heights below is its `k`-th parent |
| AncestorLookup.GetAncestor | go-ethereum/core/headerchain.go:386-418 | any answer is the true ancestor, and there is one if and only if the allowance covers the distance to the canonical chain or to the ancestor; the allowance left is exact with and without an answer; the all-zero hash has its own exact condition |
| AncestorLookup.ReachesOnChain | go-ethereum/core/headerchain.go:397-415 | from a stored block the walk can answer after `j` steps if and only if its `j`-th ancestor is the one asked for or an ancestor of the head |
| AncestorLookup.AnswerExact | go-ethereum/core/headerchain.go:397-417 | hence from a stored block it can answer if and only if the ancestor is within the allowance, or the ancestor at the end of the allowance is on the canonical chain; the answer is the ancestor in the tree |
| StateRewind.RewindLoop | go-ethereum/core/blockchain.go:636-682 | terminates; crashes exactly when a stateful block above the requested root has no stored parent; otherwise ends at the highest eligible block it can reach, or at genesis with its state recommitted, and at or below the requested root |
| StateRewind.NothingBelow | go-ethereum/core/blockchain.go:647-661 | when the walk ends at a stateless block, no block it could reach was eligible |
| StateRewind.NoCrash | go-ethereum/core/blockchain.go:662-680 | where the walk ends without a crash, no reachable height would crash |
| StateRewind.RewoundUnique | go-ethereum/core/blockchain.go:636-682 | the specification of the rewind admits one result only |
| StateRewind.LandsExactly | go-ethereum/core/blockchain.go:640-681 | a rewind ends on a block above genesis if and only if that block has its state and is at or below the requested root, and every block above it either has no state and is above the pivot, or has its state but not the requested root at or above it |
| StateRewind.PlainLands | go-ethereum/core/blockchain.go:642-681 | without a requested root or a pivot the rewind ends on the highest block with its state, if there is one |
| Deletions.HeightsToClear | go-ethereum/core/headerchain.go:624-633 | a round clears the head's height and, in the first round, every occupied height above it up to the first empty one |
| Deletions.QueueLevels | go-ethereum/core/headerchain.go:635-651 | the batch erases exactly what the heights hold on all forks, the head's hash where they hold nothing, and their index entries |
| Deletions.SweptIs | go-ethereum/core/headerchain.go:635-649 | what a round erases is every block between its heights, plus the head's hash if and only if some height is empty |
| Deletions.NothingAboveHole | go-ethereum/core/headerchain.go:624-632 | in a parent-closed store nothing lives above the first empty height |
| Deletions.TruncationSound | go-ethereum/core/headerchain.go:643-649 | keeping exactly the headers up to a height keeps the tables closed and the total difficulties exact |
| Deletions.TruncationPath | go-ethereum/core/headerchain.go:635-656 | and the index, cut there, is exactly the path of the new head |
| SetHead.HeadBlockFor | go-ethereum/core/blockchain.go:631-691 | the head block for a header is where the rewind must end, or genesis if the block is missing; it crashes exactly when the loop does; it has its state if and only if the block was found or genesis has its state |
| RewindTrace.PlainRewind | go-ethereum/core/blockchain.go:642-681 | without a requested root or a pivot, no block between the result and the start has its state |
| RewindTrace.GapExact | go-ethereum/core/headerchain.go:584-598 | in any store the rewind ends on the highest ancestor that meets the target if and only if some stored ancestor does; past a gap in the headers it ends on genesis; every head before the last is younger than the target time, or above the target number, and the last is not |
| RewindTrace.TimeModeTarget | go-ethereum/core/headerchain.go:584-587 | in time mode the new head is not younger than the target time, and every ancestor of the old head above it is stored and younger |
| RewindTrace.BlockModeTarget | go-ethereum/core/headerchain.go:588-589 | in block mode the new head is the ancestor of the old head at the target number, or the old head if that is lower |
| RewindTrace.RewoundBelowRoot | go-ethereum/core/blockchain.go:640-681 | with a requested root the result is genesis, or at or below a block of the chain with that root |
| RewindTrace.RoundKeeps | go-ethereum/core/blockchain.go:683-707 | with nothing missing, one round goes to the parent, keeps the block heads on its path, and its markers name stored blocks |
| RewindTrace.TraceHolds | go-ethereum/core/headerchain.go:590-622 | after `i` rounds the header head is the ancestor `i` below, the tables are untouched, the markers name stored blocks, the snap block has come down with the header, and the block head is stateful, not above the requested root and, in a plain rewind, the highest such |
| SetHead.UpdateHeads | go-ethereum/core/blockchain.go:627-720 | for any header the callback crashes exactly when the rewind loop does; otherwise it lowers the block head to where the rewind must end and the snap block to the header, both to genesis if the block is missing, adds no state but that of genesis, and queues exactly their markers |
| SetHead.Repair | go-ethereum/core/blockchain.go:742-745 | the repair call lowers the block heads to a stateful block without touching header head or tables |
| SetHead.MoveHeads | go-ethereum/core/headerchain.go:590-622 | one write is one round: the header head moves to its parent, or to genesis if that is missing, the block heads follow and the markers name them |
| SetHead.Rounds | go-ethereum/core/headerchain.go:590-652 | in any database the loop terminates; its rounds go on exactly until the target is met or an update crashes, and the batch holds exactly what they queued; every head left behind is younger than the target time or above the target number, and the last is not |
| SetHead.FullReaches | go-ethereum/core/headerchain.go:584-590 | in a full-sync database the rounds end on the highest ancestor that meets the target |
| SetHead.SweepExact | go-ethereum/core/headerchain.go:624-656 | in any database the rounds delete exactly the blocks of all forks and the index entries from the last height left up to the first empty height above the old head |
| SetHead.Rewind | go-ethereum/core/headerchain.go:565-661 | in any database: refuses exactly a time before genesis; otherwise crashes exactly when an update does, or ends where `GapExact` says after deleting what `SweepExact` says; the new head is not younger than the target time, or not above the target number |
| SetHead.RewindFullSync | go-ethereum/core/headerchain.go:565-661 | in a full-sync database nothing crashes; the rewind ends on the highest canonical header that meets the target; nothing above it is left on any fork and everything at or below is kept; total difficulties and index stay exact; every state in between is the one of `TraceHolds`, so after each write, the flush included, the markers name existing data; said by time and number: to a time, the highest canonical header not younger than it; to a number, the canonical header there |
| SetHead.RewoundMeans | go-ethereum/core/blockchain.go:627-745 | exactly the headers, bodies and total difficulties at or below the new head are left, and the index up to it; the snap block comes down to the head if it was above; and without a requested root or a pivot no block between the new block head and the new head has its state |
| ChainIndexer.WalkBackCanon | go-ethereum/core/chain_indexer.go:397-412 | along a canonical chain, following `k` parent links is reading the index `k` lower |
| ChainIndexer.VerifiedIsLongestPrefix | go-ethereum/core/chain_indexer.go:422-429 | for hash-linked sections, testing only the last head keeps exactly the longest prefix of sections on the canonical chain |
| ChainIndexer.VerifiedKeeps | go-ethereum/core/chain_indexer.go:422-429 | rolling back keeps the sections linked and never revives one while another is being processed |
| ChainIndexer.NewHeadKeeps | go-ethereum/core/chain_indexer.go:243-300 | so does a new head, with or without a reorganisation |
| ChainIndexer.NewHeadSections | go-ethereum/core/chain_indexer.go:243-300 | a new head makes known exactly the sections whose last block has enough confirmations, and no section is forgotten; a reorganisation down to a block keeps, known and stored, exactly the sections that end at or below it |
| ChainIndexer.ReadKeeps | go-ethereum/core/chain_indexer.go:397-412 | the headers read so far lead back to the old section head, although the chain may have changed in between |
| ChainIndexer.FinishKeeps | go-ethereum/core/chain_indexer.go:348-368 | recording a section only if the head before it is unchanged keeps all sections linked |
| ChainIndexer.FinishEffect | go-ethereum/core/chain_indexer.go:350-368 | if processing gave a head and the section before still has the old one, there is exactly one section more, with that head, and the heads below are unchanged; otherwise the longest prefix on the chain is left and nothing more is known |
| ChainIndexer.StepKeeps | go-ethereum/core/chain_indexer.go:330-367 | every step of every component keeps the invariant |
| ChainIndexer.RunsAreLinked | go-ethereum/core/chain_indexer.go:304-440 | in every state of every run the stored sections form one hash-linked chain, so every query is answered with exactly the longest prefix on the chain of that moment |
| ChainIndexer.ReadsOnChain | go-ethereum/core/chain_indexer.go:397-412 | over one unchanging chain, reading a section header by header from its predecessor succeeds and ends on the section's last block |
| ChainIndexer.UpdateProgress | go-ethereum/core/chain_indexer.go:315-368 | progress: over one unchanging chain that has the blocks of the next section, with a backend that accepts, a pass of the update loop records exactly one more section with the canonical head, if all stored ones are on the chain |
| ChainIndexer.CatchesUp | go-ethereum/core/chain_indexer.go:304-382 | hence as many passes as sections are missing store all known sections, every head on the chain |
| ChainIndexer.Indexer.SetValidSections | go-ethereum/core/chain_indexer.go:479-491 | sets the count and removes exactly the heads above it |
| ChainIndexer.Indexer.VerifyLastHead | go-ethereum/core/chain_indexer.go:422-429 | the loop is the roll-back specified above |
| ChainIndexer.Indexer.NewHead | go-ethereum/core/chain_indexer.go:243-300 | the method is the state machine's step; what becomes known, and what stays stored, is said by the last blocks of the sections |
| ChainIndexer.Indexer.BeginUpdate | go-ethereum/core/chain_indexer.go:329-335 | the first locked part is the state machine's step |
| ChainIndexer.ReadLinked | go-ethereum/core/chain_indexer.go:397-412 | a section read header by header, each from its own view, leads back to the old head by exactly as many links, and its head sits at the section's last height |
| ChainIndexer.Indexer.ProcessSection | go-ethereum/core/chain_indexer.go:388-417 | succeeds if and only if the backend could be reset, every header continued the chain and the backend took and committed them all; the new head is the last header read; a failing reset drops all sections and nothing else changes |
| ChainIndexer.Indexer.FinishUpdate | go-ethereum/core/chain_indexer.go:348-368 | the second locked part is the state machine's step: on success one section more, with the new head and the others unchanged; otherwise known equals stored, the longest prefix on the chain |
| ChainIndexer.Indexer.Sections | go-ethereum/core/chain_indexer.go:434-440 | the count is the longest prefix on the chain, with the canonical hash at its last block; zero sections wrap around |
| CaseList.Find | go-ethereum/event/feed.go:213-220 | the first index of the case, or -1 if and only if it is absent |
| CaseList.DeleteCounts | go-ethereum/event/feed.go:223-225 | deleting takes exactly one occurrence away |
| CaseList.DeletePrefix | go-ethereum/event/feed.go:171-177 | deleting from the list deletes from the active prefix if the entry was active and leaves it alone otherwise |
| CaseList.DeactivateCounts | go-ethereum/event/feed.go:228-232 | deactivating permutes the list and takes exactly one case out of the active prefix |
| CaseList.FindCase | go-ethereum/event/feed.go:213-220 | the loop finds that index |
| CaseList.DeleteCase | go-ethereum/event/feed.go:223-225 | shifting in place deletes that entry |
| CaseList.DeactivateCase | go-ethereum/event/feed.go:228-232 | swapping in place is deactivating |
| FeedProtocol.RemovalFinds | go-ethereum/event/feed.go:116-123 | a pending removal always finds its channel in the send list |
| FeedProtocol.StepKeeps | go-ethereum/event/feed.go:72-190 | every step keeps lists and subscriptions balanced and the books of a running send in order, and deletes nothing that is not there |
| FeedProtocol.RunsAreBalanced | go-ethereum/event/feed.go:72-190 | in every interleaving inbox plus send list hold, as a multiset, exactly the channels of the subscriptions not yet removed, a send that can end is settled, and no next step crashes |
| FeedProtocol.PendingProgress | go-ethereum/event/feed.go:103-124 | a pending removal can always take place, or the send in its way can end; taking place it ends exactly its subscription and takes one occurrence of its channel |
| FeedProtocol.SendProgress | go-ethereum/event/feed.go:154-182 | a send in progress can always deliver or end, and every delivery or removal brings the end nearer |
| FeedProtocol.EndOfSend | go-ethereum/event/feed.go:139-190 | when a send ends, every case present at its start was delivered to exactly once unless it was removed while active, the count is that of the deliveries, and the list is the initial one less the removed |
| FeedProtocol.RemoveAccounts | go-ethereum/event/feed.go:171-177 | a removal during a send keeps the books, whether or not the case was still active |
| FeedProtocol.DeliverAccounts | go-ethereum/event/feed.go:178-181 | a delivery keeps the books |
| SendLoop.TrySends | go-ethereum/event/feed.go:157-163 | the non-blocking pass tries every active channel once, counts one for every channel that answers yes and puts as many aside |
| SendLoop.PassCounts | go-ethereum/event/feed.go:157-163 | a pass makes one try per active channel; count and prefix change by the number of tries that were answered yes |
| SendLoop.PassTries | go-ethereum/event/feed.go:157-163 | the cases tried are exactly the active ones, each once |
| SendLoop.PassTakes | go-ethereum/event/feed.go:157-163 | the deliveries of a pass are exactly to the cases whose channel answered yes |
| SendLoop.PassKeeps | go-ethereum/event/feed.go:157-163 | the cases still active are exactly those whose channel answered no, and the entries before them are untouched |
| SendLoop.PassExtremes | go-ethereum/event/feed.go:157-163 | if every answer is no the pass changes nothing; if every answer is yes no tried case stays active |
| SendLoop.AnsweringCount | go-ethereum/event/feed.go:157-163 | as many cases took the value as there were answers of yes |
| SendLoop.Select | go-ethereum/event/feed.go:168-169 | the wait ends with the case that was chosen whenever that can proceed, and with a removal only if one came in |
| SendLoop.SendAll | go-ethereum/event/feed.go:150-190 | the loop on the backing array leaves exactly the list and the count that the channels' answers, the choices and the removals that come in determine, and does not crash |
| SendLoop.Serve | go-ethereum/event/feed.go:178-181 | one channel takes the value: its case leaves the active prefix, in place |
| SendLoop.Remove | go-ethereum/event/feed.go:170-177 | one removal during a send: its case leaves the list and, if active, the prefix, in place |
| SendLoop.Wait | go-ethereum/event/feed.go:168-181 | the wait ends with the delivery or the removal that was chosen, in place |
| SendLoop.SendSettles | go-ethereum/event/feed.go:128-190 | whatever the channels do, if every removal names a listed case nothing crashes, every case present is served exactly once unless removed while active, and exactly the cases of the removals served are gone; the count is the number of values the channels took, the answers of yes and the waits that chose a channel, and the deliveries are to those channels |
| SendLoop.RoundsCount | go-ethereum/event/feed.go:154-182 | over all rounds the count grows by the answers of yes plus the waits that chose a channel |
| SendLoop.RoundsReceive | go-ethereum/event/feed.go:154-182 | and the deliveries are exactly to the channels that took the value in a try or a wait |
| SendLoop.Undisturbed | go-ethereum/event/feed.go:128-190 | with no removals everybody is served once and the list is only reordered |
| SendRefines.RoundsRefine | go-ethereum/event/feed.go:150-182 | the array loop is the run of exactly its deliveries and removals in the protocol; it does not crash, because pending removals are listed |
| SendRefines.SendRefinesProtocol | go-ethereum/event/feed.go:128-190 | a whole send on the array is the run of its start, its deliveries and removals and its end in the protocol, from idle to idle, settled, with exactly the served subscriptions gone |
| Feed.Feed.constructor | go-ethereum/event/feed.go:60-65 | a new feed lists only the removal channel |
| Feed.Feed.Subscribe | go-ethereum/event/feed.go:72-92 | one more case in the inbox, nothing else |
| Feed.Feed.Unsubscribe | go-ethereum/event/feed.go:103-124 | one occurrence goes, from the inbox first; otherwise the removal is handed over to a send in progress, or the channel taken from the list |
| Feed.Feed.Send | go-ethereum/event/feed.go:128-190 | inbox and list are served together; list and count left are those of the loop, and the send is settled; the count is the number of values the channels took, and the deliveries are to those channels |
| IntrinsicGas.ToWordSize | go-ethereum/core/state_transition.go:117-123 | rounding up to words is exact on the whole 64-bit range |
| IntrinsicGas.DivisionGuard | go-ethereum/core/state_transition.go:90-106 | the division test holds if and only if the addition would leave 64 bits |
| IntrinsicGas.DataGas | go-ethereum/core/state_transition.go:68-108 | an overflow is reported if and only if the unbounded cost of creation and data exceeds 64 bits; otherwise the result is that cost |
| IntrinsicGas.ComputeIntrinsicGas | go-ethereum/core/state_transition.go:67-114 | the same with the access list added modulo 2^64 |
| IntrinsicGas.DataCostSteps | go-ethereum/core/state_transition.go:67-108 | the cost is 21000, or 53000 for a creation since Homestead; each zero byte adds 4, each other byte 16 since Istanbul and 68 before, and each started word of init code 2 since Shanghai |
| IntrinsicGas.AccessCostSteps | go-ethereum/core/state_transition.go:109-112 | each listed address adds 2400 and each storage key 1900 |
| Transitions.PriceWithinCap | go-ethereum/core/state_transition.go:146-166 | the price of a converted transaction is within its fee cap |
| Transitions.BuyGasCovers | go-ethereum/core/state_transition.go:228-248 | after buying gas the sender still has the value to transfer, nobody is overdrawn, and exactly the price left the total |
| Transitions.TransferCheckRedundant | go-ethereum/core/state_transition.go:351-354 | for a converted transaction the later transfer check cannot fail |
| Transitions.GasAccounts | go-ethereum/core/state_transition.go:407-427 | the pool loses exactly the gas used, which is within the limit |
| Transitions.GasIsUsed | go-ethereum/core/state_transition.go:341-349 | unless the intrinsic gas wraps around, a transaction uses gas, whatever is refunded |
| Transitions.PriceSplits | go-ethereum/core/state_transition.go:385-398 | the price is the tip plus the base fee, and the tip is not negative |
| Transitions.SettleNet | go-ethereum/core/state_transition.go:378-422 | refund and tip together return all that was paid except the base fee of the gas used; who gets what is `SettleBalances` |
| Transitions.Conservation | go-ethereum/core/state_transition.go:228-422 | total balance before is total after, plus what the machine destroyed, plus gas used times base fee unless the fee is skipped; nobody is overdrawn |
| Transitions.BaseFeeLawExact | go-ethereum/core/state_transition.go:385-398 | unless the intrinsic gas wraps around, the law without the exception holds if and only if the fee is not skipped or the base fee is zero |
| Transitions.BaseFeeLawWrapped | go-ethereum/core/state_transition.go:385-398 | with wrap-around it also holds when no gas was used |
| Transitions.NonceStep | go-ethereum/core/state_transition.go:250-376 | a transaction carries its sender's nonce and raises it by one, for calls and creations; other key-controlled accounts keep theirs |
| TransitionLaws.ConversionExact | go-ethereum/core/state_transition.go:146-167 | conversion fails exactly without a sender and otherwise copies the transaction; a legacy transaction pays its price, and a dynamic-fee one tip plus base fee up to its fee cap |
| TransitionLaws.TipIsPriceLessBaseFee | go-ethereum/core/state_transition.go:385-388 | the tip of a converted transaction is its price less the base fee |
| TransitionLaws.SettleBalances | go-ethereum/core/state_transition.go:385-422 | account by account: the sender gets the gas left at the price, the coinbase the gas used at the price less the base fee unless the fee is skipped, and nobody else anything |
| TransitionLaws.BoughtCharges | go-ethereum/core/state_transition.go:341-422 | once gas is bought: the machine runs with the gas left after the intrinsic cost; the refund is capped at a fifth of the gas spent since London and at half before; pool, gas used, failure and every balance are exact |
| TransitionLaws.TransitionPays | go-ethereum/core/state_transition.go:228-422 | a whole transition: the machine runs on accounts in which the sender has paid for all the gas at the price and, for a call, its nonce is raised; everything after is charged as above |
| TransitionLaws.AcceptedExactly | go-ethereum/core/state_transition.go:228-363 | a converted transaction is accepted if and only if its sender has the right nonce, not the last one, and no code, its fees are sane and cover the base fee, the sender can pay for all the gas at the fee cap and for the value, the block has the gas, the gas covers the intrinsic cost and no init code is too long |
| TransitionLaws.ErrorLeaves | go-ethereum/core/state_transition.go:228-363 | an error found before the purchase leaves accounts and pool alone; one found later leaves the sender, and only the sender, charged for all the gas |
| StateProcessor.BlockGas | go-ethereum/core/state_processor.go:80-134 | after every transaction of a block pool plus used gas is the block's limit, and cumulative gas values are the prefix sums |
| StateProcessor.BlockConservation | go-ethereum/core/state_processor.go:80-92 | over a block the wei that disappear are the base fees of the transactions that pay them plus what the machine destroyed, with the base fee enabled or disabled; nobody is overdrawn |
| StateProcessor.FeesEnabled | go-ethereum/core/state_processor.go:80-92 | with the base fee enabled those fees are the gas used times the base fee |
| StateProcessor.BlockNonces | go-ethereum/core/state_processor.go:80-92 | each sender's nonces are consecutive from its starting nonce, and its final nonce is start plus count |
| StateProcessor.NoReplay | go-ethereum/core/state_processor.go:80-92 | no sender and nonce pair executes twice in a block |
| StateProcessor.FirstError | go-ethereum/core/state_processor.go:80-92 | the first error is the result of the whole block, so a processed block has processed prefixes |
| TransitionLaws.BlockPays | go-ethereum/core/state_processor.go:80-134 | every transaction of a block is charged so, and its receipt has the gas used and whether the machine failed |
| BlockExecution.GasPool.AddGas | go-ethereum/core/gaspool.go:29-35 | panics exactly when the sum leaves 64 bits; otherwise the pool grows by the amount |
| BlockExecution.GasPool.SubGas | go-ethereum/core/gaspool.go:39-45 | fails, changing nothing, exactly when the pool holds less |
| BlockExecution.StateTransition.Buy | go-ethereum/core/state_transition.go:228-248 | the object's purchase is the specified one, with the initial and remaining gas set |
| BlockExecution.StateTransition.CheckAndBuy | go-ethereum/core/state_transition.go:250-299 | the checks and the purchase, in the order of the source; an error changes nothing |
| BlockExecution.StateTransition.RunBought | go-ethereum/core/state_transition.go:341-405 | what follows once gas is bought: an error leaves accounts and pool alone, success is the specified outcome, charged as in `BoughtCharges` |
| BlockExecution.StateTransition.RefundGas | go-ethereum/core/state_transition.go:407-422 | the refund never lifts the remaining gas above the initial gas, and returning it cannot overflow the pool |
| BlockExecution.StateTransition.TransitionDb | go-ethereum/core/state_transition.go:311-405 | error for error and account for account the specified transition; after an error gas stays bought exactly when the error came after the purchase; for a converted transaction who pays and who is paid, account by account, the capped refund and the gas used are stated outright |
| BlockExecution.ApplyTransaction | go-ethereum/core/state_processor.go:104-134 | one transaction with its receipt is one step of the specified fold; accounts and pool after an error are exact |
| BlockExecution.Process | go-ethereum/core/state_processor.go:60-102 | the loop returns the specified fold: the first error, or its receipts, used gas and accounts, never using more than the limit |
| BlockHash.CacheSurvives | go-ethereum/core/evm.go:82-98 | headers that arrive between queries do not invalidate the cache |
| BlockHash.HashFn.GetHash | go-ethereum/core/evm.go:81-117 | a query terminates and equals a fresh parent-by-parent walk, also after one that stopped at a missing header; at the reference height and above the answer is the zero hash, just below it the parent hash |
| BlockHash.HashFn.Queries | go-ethereum/core/evm.go:81-117 | the same for every sequence of queries on one closure while the chain grows |
| BlockHash.FreshWalkIsAncestor | go-ethereum/core/evm.go:99-115 | in a parent-closed chain the answer is the true ancestor's hash |
| BlockHash.FreshWalkSteps | go-ethereum/core/evm.go:86-115 | the fresh walk by its steps: nothing at the reference height and above, the parent hash just below, then the parent hash of the header found one higher, and nothing from the first missing header on |
| DerivationPath.ScanDecimal | go-ethereum/accounts/hd.go:101-104 | scanning the decimal digits of a positive number gives the number |
| DerivationPath.ScanExact | go-ethereum/accounts/hd.go:101-104 | scanning accepts exactly the digits of the base with single underscores between them, and gives the positional value |
| DerivationPath.MagnitudeForms | go-ethereum/accounts/hd.go:101-104 | the value of hexadecimal, binary and octal numbers by prefix, of octal ones by a leading zero, and of decimal ones, and exactly when they are accepted |
| DerivationPath.ComponentRange | go-ethereum/accounts/hd.go:94-114 | a number is accepted exactly up to the 32-bit limit, less the hardening offset for a hardened one; negative ones are out of range |
| DerivationPath.WhitespaceIgnored | go-ethereum/accounts/hd.go:91-92 | whitespace around a component is ignored |
| DerivationPath.ReadsHardened | go-ethereum/accounts/hd.go:95-99 | an apostrophe hardens the number before it, and whitespace between them is ignored |
| DerivationPath.ComponentRoundTrip | go-ethereum/accounts/hd.go:90-115 | a printed component, hardened or not, parses to itself |
| DerivationPath.RoundTrip | go-ethereum/accounts/hd.go:68-136 | parsing a printed path gives the path back if it is not empty, and the empty-path error otherwise |
| DerivationPath.PrintNormalises | go-ethereum/accounts/hd.go:68-136 | the printed form of any accepted input parses to the same path |
| DerivationPath.ParseBelow | go-ethereum/accounts/hd.go:68-118 | components written after a printed path extend that path, with the same first error |
| DerivationPath.RelativeToRoot | go-ethereum/accounts/hd.go:72-88 | a relative path means that path below the default root |
| DerivationPath.DefaultRootPrinted | go-ethereum/accounts/hd.go:31-31 | the default root prints as m/44'/60'/0'/0 |
| DerivationPath.AppendComponents | go-ethereum/accounts/hd.go:90-117 | the loop appends every component, or returns the first component's error |
| DerivationPath.ParseDerivationPath | go-ethereum/accounts/hd.go:68-118 | the method is the parser the laws are about |
| DerivationPath.PrintDerivationPath | go-ethereum/accounts/hd.go:122-136 | the loop is the printer the laws are about |
| Counterexamples.StaleIndex | go-ethereum/core/blockchain.go:1324-1329 | a consistent chain, its block head below its header head, in which writing a child of the block head leaves a stale index entry |
| Counterexamples.FreeCall | go-ethereum/core/state_transition.go:390-398 | a converted transaction that uses gas at a positive base fee while no wei disappear, on every machine |
| Counterexamples.ZeroHash | go-ethereum/core/headerchain.go:397-404 | a consistent database in which the all-zero hash, which nobody has, gets an ancestor |
| Counterexamples.RewindCrash | go-ethereum/core/blockchain.go:679-680 | a rewind with a requested root that steps off a gap |
| Counterexamples.StatelessHead | go-ethereum/core/blockchain.go:632-636 | a missing block and a stateless genesis leave a head without state |
| Counterexamples.GapRewind | go-ethereum/core/headerchain.go:594-597 | past a gap in the headers a rewind ends on genesis and leaves a block above the target |
| Counterexamples.FreeAccessList | go-ethereum/core/state_transition.go:109-112 | an access list, no longer than a slice can be, whose cost wraps around to nothing |

## Left out

- SetHead.RewindFullSync: transaction lookup entries above the new head stay, as in the source; the freezer's forced wipe is not modelled.
- The ancient store, snap sync, `InsertReceiptChain` and the maintenance of the transaction index tail.
- All caches, interrupts and write errors of the database; batches are atomic.
- Finalized and safe markers, `loadLastState`, `recoverAncestors`, future blocks and events of `BlockChain`.
- The head over the whole of `insertChain`, which sets known blocks as head without asking the fork choice.
- Runs in which header head and block head move independently; only the total difficulties are covered there.
- Block rewards, withdrawals and the DAO fork; conservation covers the transaction loop.
- The interpreter, tries, snapshots, RLP, signatures and hashing; a signature is a given sender, a hash a given number.
- Messages without a fee cap, which only callers outside block processing build.
- Checkpoints, child indexers, throttling and shutdown of the chain indexer.
- The element type check of the feed, and `FeedOf`, which repeats the algorithm.
- JSON forms and iterators of derivation paths, and the wording of error messages.
- Networking, consoles, APIs, the light client and the remaining packages.
