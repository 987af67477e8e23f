# A verified model of hybrid_vault

`hybrid_vault` is a Solana program that sells blind draws. A collection has `N` assets and a fungible
token. A user pays `ratio` tokens for a *capture*, or hands in an asset for a *re-roll*; a randomness
account is committed, later revealed, and the request then *settles* on an asset drawn from the pool.
Requests settle strictly in order. A request whose oracles never answer *expires* and gives its principal
back. Whoever owns an asset can *unwrap* it for exactly `ratio` tokens at any time. Assets are minted the
first time they are drawn.

The project models the vault program completely enough to prove its promises over every run: any callers,
any interleaving, any arguments.

| file | contents |
|---|---|
| `Base`, `Arithmetic` | fixed-width numbers, errors and `Result`; products and remainders by repeated addition and subtraction, proved equal to `*` and `%` |
| `LittleEndian`, `PoolLayout`, `PoolView` | the pool account as one byte buffer changed in place |
| `Pool` | what the bytes mean: pool, FIFO of returned indices with tags, set of minted indices |
| `Selection` | rejection sampling and its exact distribution |
| `Oracle` | the choice of the oracle that serves a commit |
| `Merkle`, `Leaf` | the art commitment and the mint-time check |
| `Launch` | launch parameters and supply arithmetic |
| `Vault` | the program as a state machine: `Core`, `Apply` (with the final check), `Next` (errors change nothing), `Exec` (runs) |
| `Accounting`, `Invariant`, `Preservation` | the invariant `Inv` and its preservation by every step |
| `Runs`, `History`, `Progress`, `BlindDraw`, `Payments` | the theorems about steps and runs |
| `Head`, `Liveness` | what the head of the queue depends on, exactly when a revealed head can leave, and how every pending request comes to its end |
| `Rules` | every instruction in numbers: what it refuses in a reachable state, in which order, and its whole effect |
| `Lifetime` | what the lifetime counters count, and that the vault opens once, after graduation |
| `Handlers` | the instruction handlers in their imperative form, on the byte buffer, proved to compute the steps of `Vault` |

A `Step` is a vault instruction with all that its caller and the runtime supply, or something that others do
to the same accounts: the clock advances, an asset is moved or burnt by its holder, tokens are donated, a
mint escrow is funded in advance, unrelated balances and randomness accounts change. What was sent to the
address of an asset before its mint is an argument of the settlement that mints it. A `State` holds the
vault counters, the pool, the pending requests and their locks, the randomness accounts, the owner of each
existing asset, the balances and the clock. Token, asset, system and oracle programs appear as changes to
these maps with their own conditions for success.

Theorems that start from a state rather than from a launch require `Inv`, which `Runs.LaunchedVaultIsSound`
gives for every state a launched vault can reach.

SHA-256 is a parameter `sha`, an arbitrary function from byte strings to 32-byte digests. No such function is
injective, so soundness is never proved from that assumption: a result says "equal, or these two explicit
sets of hashed strings contain a collision" (`Merkle.Collides`).

## Model

| member | source | states |
|---|---|---|
| PoolBuffer.Init | programs/hybrid_vault/src/pool.rs:48-59 | accepts exactly a buffer of the right size whose first eight bytes are zero; a zeroed buffer becomes the full pool with every index drawable once; a refused buffer is unchanged |
| PoolBuffer.PoolView.Load | programs/hybrid_vault/src/pool.rs:68-75 | accepts exactly the buffers of this vault with the right discriminator and size, and says which error a refused one gives |
| PoolBuffer.PoolView.PoolGet | programs/hybrid_vault/src/pool.rs:98-103 | a zero word means the slot's own position, any other word is the index plus one |
| PoolBuffer.PoolView.PoolPush | programs/hybrid_vault/src/pool.rs:129-136 | on the bytes: appends one index to the pool, or changes nothing; queue, bitmap and header bytes are framed, stale slot words do not matter, nothing overflows |
| PoolBuffer.PoolView.PoolSwapRemove | programs/hybrid_vault/src/pool.rs:139-147 | on the bytes: returns the index at a position and lets the last one take its place, or changes nothing |
| PoolBuffer.PoolView.IncomingPush | programs/hybrid_vault/src/pool.rs:150-164 | on the bytes: appends an entry to the ring across its wrap-around, refuses a full account and a decreasing tag |
| PoolBuffer.PoolView.IncomingBackTag | programs/hybrid_vault/src/pool.rs:152-157 | on the bytes: the tag of the newest entry of the ring across its wrap-around, if any |
| PoolBuffer.PoolView.IncomingFrontTag | programs/hybrid_vault/src/pool.rs:167-173 | the tag of the oldest entry of the ring, if any |
| PoolBuffer.PoolView.PopIncoming | programs/hybrid_vault/src/pool.rs:181-185 | on the bytes: the oldest entry leaves the ring, the head wraps around |
| PoolBuffer.PoolView.Merge | programs/hybrid_vault/src/pool.rs:176-193 | the loop over the bytes computes the specified merge, including the state an error leaves behind |
| PoolBuffer.PoolView.IsMinted | programs/hybrid_vault/src/pool.rs:112-114 | the bit test decides membership in the minted set |
| PoolBuffer.PoolView.MarkMinted | programs/hybrid_vault/src/pool.rs:116-122 | sets exactly one bit once; a second time, or out of range, it is an error that changes nothing |
| PoolBuffer.PoolView.MintedPopcount | programs/hybrid_vault/src/pool.rs:124-127 | the sum of the byte counts is the size of the minted set, so no bit past the last index is set |
| Pool.PoolRefuses | programs/hybrid_vault/src/pool.rs:116-164 | which index or tag the pool operations refuse, with which error: a full account before an index out of range, a tag below any tag in the queue |
| Pool.MergeMoves | programs/hybrid_vault/src/pool.rs:176-193 | a merge moves exactly the oldest entries with a small enough tag, at most `max` of them, in order, and cannot fail on a queue of valid indices |
| Pool.MergeStopsAtBadIndex | programs/hybrid_vault/src/pool.rs:176-193 | a merge that meets an index out of range has moved exactly the entries before it, and the bad entry has left the queue |
| Pool.EligibleIsAllSmallTags | programs/hybrid_vault/src/pool.rs:149-164 | since tags never decrease, the mergeable entries at the front are all the entries with a small enough tag |
| Pool.AdvanceContents | programs/hybrid_vault/src/pool.rs:176-193 | merging moves indices between pool and queue and loses or duplicates none |
| PoolLayout.WriteSlot | programs/hybrid_vault/src/pool.rs:104-107 | writing a slot word sets that position only and leaves ring and bitmap alone |
| PoolLayout.WriteEntry | programs/hybrid_vault/src/pool.rs:158-161 | writing a ring entry leaves the other entries, the pool and the bitmap alone |
| PoolLayout.WriteBit | programs/hybrid_vault/src/pool.rs:116-122 | setting a bit adds one index to the minted set and leaves pool and ring alone |
| PoolLayout.BytesMean | programs/hybrid_vault/src/pool.rs:5-16 | the account in literal offsets: lengths and ring head at 40 to 56, slots of four bytes from 64, ring entries of twelve bytes behind them read round from the head, one bit an index, and not a byte more |
| PoolLayout.MarkIsWritten | programs/hybrid_vault/src/pool.rs:26-28 | the discriminator is the eight characters `hvpool02` |
| LittleEndian.RoundTrip | programs/hybrid_vault/src/pool.rs:34-45 | a word reads back as it was written, at any offset and width |
| LittleEndian.EncodedBytes | programs/hybrid_vault/src/pool.rs:34-45 | a number is written as its base-256 digits, the least significant first |
| LittleEndian.WordOfBytes | programs/hybrid_vault/src/pool.rs:34-45 | a word is the sum of its bytes weighted by powers of 256, the first byte lowest |
| Selection.UniformBelow | programs/hybrid_vault/src/selection.rs:14-29 | the sampling loop over words and rehashed blocks returns the remainder of the first word below the largest multiple of `n`, block after block and word after word, up to a budget of rehashes |
| Selection.ZoneIsLargestMultiple | programs/hybrid_vault/src/selection.rs:17-18 | for every `n` the accepted words are exactly those below the largest multiple of `n` not above 2^64 |
| Selection.AcceptedWordsPerResult | programs/hybrid_vault/src/selection.rs:22-24 | every result below `n` comes from the same number of accepted words |
| Selection.ExactlyUniform | programs/hybrid_vault/src/selection.rs:12-29 | over all four-word blocks every result below `n` is hit equally often |
| Selection.EveryAssetEquallyLikely | programs/hybrid_vault/src/pool.rs:138-147 | in a pool without repetition every asset is picked by the same number of blocks |
| Selection.BudgetOnlyAddsAnswers | programs/hybrid_vault/src/selection.rs:20-28 | allowing more rehashing never changes a result already reached |
| Selection.UniformIsLoopResult | programs/hybrid_vault/src/selection.rs:19-28 | an answer within the budget is exactly the answer of the unbounded loop: that of the first block of the hash chain with an accepted word |
| Selection.UniformIsFirstWordBelow | programs/hybrid_vault/src/selection.rs:14-29 | an answer within the budget is `x % n` for the first word `x` of the chain, in the order of blocks and of words, below the largest multiple of `n`; conversely such a word decides the answer |
| Selection.ChainHashes | programs/hybrid_vault/src/selection.rs:27-27 | each further block is the hash of `hybrid_vault:resample` and the block before it |
| Selection.SharedBlockBinds | programs/hybrid_vault/src/selection.rs:6-10 | a value cannot be replayed: two requests share a block only if value, vault and number agree, or the two written strings collide |
| Selection.BlocksAreWords | programs/hybrid_vault/src/selection.rs:21-22 | the four words of a block determine the block |
| Selection.EveryWordBlockExists | programs/hybrid_vault/src/selection.rs:21-22 | every four words are the words of some block |
| Oracle.SelectOracleIn | programs/hybrid_vault/src/randomness.rs:238-257 | the scan loop returns the first key, from the sum of rotation index, request hash and number of uses on, that is not zero, not used and not proved stale |
| Oracle.SelectIsFirstSelectable | programs/hybrid_vault/src/randomness.rs:236-257 | succeeds exactly when a selectable key exists, and then returns the first one in cyclic order; every place of the list is visited |
| Oracle.SelectIsFirstTurn | programs/hybrid_vault/src/randomness.rs:246-256 | the chosen key stands at `(curr + hash + uses + step) % len` for the least `step` whose key is not zero, not used and not proved stale, the hash being the first word of the hashed domain, vault and number |
| Oracle.CommitUsesFirstLive | programs/hybrid_vault/src/randomness.rs:221-234 | whatever proofs the caller supplies, an accepted commit uses the first unused live oracle in cyclic order |
| Oracle.CommitAcceptsExactly | programs/hybrid_vault/src/randomness.rs:109-114 | a commit is accepted exactly for the first key in turn that is not zero, used or proved an hour dead, when it is an oracle account with a heartbeat at most an hour old; and which error it gives otherwise |
| Oracle.FreshForAnHour | programs/hybrid_vault/src/randomness.rs:216-219 | a heartbeat is fresh exactly when it is at most 3,600 seconds old, over unbounded integers |
| Oracle.CallerCannotChoose | programs/hybrid_vault/src/randomness.rs:221-224 | two accepted commits for the same request at the same time use the same oracle |
| Oracle.FreshProofIsIgnored | programs/hybrid_vault/src/randomness.rs:227-231 | a fresh oracle supplied as a proof, in front of, between or behind the others, changes neither the oracle chosen nor whether a commit is accepted |
| Oracle.FirstLiveIsReachable | programs/hybrid_vault/src/randomness.rs:110-116 | the first live oracle can be used exactly when no unused listed key before it lacks an oracle account; supplying the list itself as proofs is then enough, and otherwise every commit fails |
| Merkle.DepthFor | programs/hybrid_vault/src/merkle.rs:38-44 | the loop computes the specified depth |
| Merkle.DepthIsLeast | programs/hybrid_vault/src/merkle.rs:38-44 | the depth is the least `d` with `size <= 2^d` |
| Merkle.Verify | programs/hybrid_vault/src/merkle.rs:47-58 | accepts exactly an index in range with a proof of the exact depth that folds to the root |
| Merkle.VerifiesExactly | programs/hybrid_vault/src/merkle.rs:46-58 | a proof is accepted exactly when the index is in range, its length is the least `d` with `size <= 2^d`, and the walk that bit `k` of the index steers ends in the root |
| Merkle.Build | programs/hybrid_vault/src/merkle.rs:62-81 | the level-by-level builder returns the recursively defined root and, for each leaf, its recursively defined proof |
| Merkle.TreeByLevels | programs/hybrid_vault/src/merkle.rs:62-70 | each level is half as long as the one below, rounded up; its node `j` hashes nodes `2j` and `2j + 1` below behind a byte 1, an odd last one with itself; the last level is the root |
| Merkle.ProofByLevels | programs/hybrid_vault/src/merkle.rs:71-80 | entry `k` of a proof is the partner of node `i / 2^k` on level `k` |
| Merkle.Complete | programs/hybrid_vault/src/merkle.rs:62-81 | for every number of leaves, each built proof has the exact depth and folds to the root, odd levels included |
| Merkle.Sound | programs/hybrid_vault/src/merkle.rs:46-58 | a proof accepted at position `i` is for leaf `i` and is the built proof, or it exhibits a hash collision |
| Leaf.TraitsHash | programs/hybrid_vault/src/merkle.rs:18-24 | the buffer filled two bytes at a time is the encoding of all eight trait values |
| Leaf.LeafHashBinds | programs/hybrid_vault/src/merkle.rs:18-32 | equal leaf hashes at one index come from equal preimages, or exhibit a collision |
| Leaf.LeafIsNoNode | programs/hybrid_vault/src/merkle.rs:30-36 | no leaf is hashed from the same bytes as an inner node |
| Leaf.CheckLeafProof | programs/hybrid_vault/src/asset_source.rs:39-57 | the check as it runs agrees with its specification, error by error |
| Leaf.CheckLeafExactly | programs/hybrid_vault/src/asset_source.rs:38-57 | which leaf is refused, for which reason first, and which is accepted: one with a walk from its written hash to the root, of exact length and at most 17 |
| Leaf.LeafHashIsWritten | programs/hybrid_vault/src/merkle.rs:5-8 | the leaf hash in literal bytes: tag 0, domain, launch, four bytes of the index, hash of schema and eight two-byte traits, hash of salt, image, metadata and URI |
| Leaf.UriRule | programs/hybrid_vault/src/asset_source.rs:16-18 | a URI is acceptable exactly when it starts with `ipfs://` or `ar://` and at least one byte follows |
| Leaf.LeafBinding | programs/hybrid_vault/src/asset_source.rs:38-57 | only the committed traits, salt, image, metadata and URI, with the built proof, are accepted at an index, or a collision is exhibited |
| Leaf.CommittedLeafAccepted | programs/hybrid_vault/src/asset_source.rs:47-55 | the committed art is accepted exactly when its URI is acceptable and the collection has at most 2^17 assets |
| Launch.ValidateAcceptsExactly | programs/hybrid_launch/src/validation.rs:63-92 | acceptance is exactly: decimals, ratio and threshold allowed, and a size between 100 and the maximum for the ratio; no overflow guard rejects anything else |
| Launch.AcceptedFitsSupply | programs/hybrid_launch/src/validation.rs:68-84 | an accepted launch satisfies `N * ratio_base <= total supply <= 10^18` |
| Launch.WholeTokens | programs/hybrid_launch/src/validation.rs:73-75 | without decimals the supply is 1,000,000,000 and the ratio the chosen one |
| Launch.DecimalsScale | programs/hybrid_launch/src/validation.rs:73-84 | one decimal more multiplies every amount of the same launch by exactly ten and changes neither acceptance nor fee |
| Launch.ValidateFollowsTable | programs/hybrid_launch/src/validation.rs:63-92 | which launch is refused, for which reason first, and the fee of an accepted one, read off a table of seven ratios with their largest collections and fees |
| Invariant.InitialInv | programs/hybrid_vault/src/instructions/init_vault.rs:77-132 | a new vault satisfies the invariant |
| Invariant.CheckNeverRejects | programs/hybrid_vault/src/invariants.rs:18-42 | under the invariant the final check succeeds and the required amount does not overflow |
| Invariant.CheckAcceptsExactly | programs/hybrid_vault/src/invariants.rs:18-42 | the check accepts exactly when `ratio` times all units owed is covered, pool, queue, hand-ins and outside add up to `N`, and what is held or outside is minted; insolvency is reported exactly when the debt exceeds the tokens |
| Invariant.PoolFloorIsLeast | programs/hybrid_vault/src/instructions/request.rs:157-163 | the floor is the least number that is at least 5 and at least a fiftieth of the collection |
| Invariant.ReserveAfterRequest | programs/hybrid_vault/src/instructions/request.rs:165-176 | the admission check reserves, for the request at queue position `k`, at least `k + 1` drawable entries on top of the floor |
| Invariant.ReserveAfterDraw | programs/hybrid_vault/src/instructions/settle.rs:92-108 | serving the head leaves every later request its reserve |
| Accounting.DrawIsDrawn | programs/hybrid_vault/src/instructions/settle.rs:92-110 | a draw takes one index out of pool and queue and puts the hand-in in, and merges only entries the request may draw |
| Preservation.SettleKeepsInv | programs/hybrid_vault/src/instructions/settle.rs:81-181 | settling keeps the invariant |
| Preservation.CaptureKeepsInv | programs/hybrid_vault/src/instructions/request.rs:237-278 | requesting a capture keeps the invariant |
| Preservation.RerollKeepsInv | programs/hybrid_vault/src/instructions/request.rs:280-330 | requesting a re-roll keeps the invariant |
| Preservation.RevealKeepsInv | programs/hybrid_vault/src/instructions/randomness_ix.rs:130-162 | recording a value keeps the invariant |
| Preservation.RecommitKeepsInv | programs/hybrid_vault/src/instructions/randomness_ix.rs:190-230 | a re-commit keeps the invariant, in particular pairwise different oracles |
| Preservation.CoreKeepsInv | programs/hybrid_vault/src/invariants.rs:1-13 | every step that its own guards accept keeps the invariant |
| Preservation.CheckIsRedundant | programs/hybrid_vault/src/invariants.rs:28-42 | in a reachable state the final check changes no outcome of any step |
| Preservation.SuccessIsChecked | programs/hybrid_vault/src/invariants.rs:1-13 | even from a state that no run reaches, an instruction that ends with the check leaves a solvent vault with every index accounted for |
| Preservation.ExecKeepsInv | programs/hybrid_vault/src/invariants.rs:1-13 | the invariant holds after every run |
| Rules.OpenExactly | programs/hybrid_vault/src/instructions/open_vault.rs:38-62 | opening succeeds exactly once, for a collection that the vault owns with exactly its own mints, and with a graduation proof; the whole new state and each error |
| Rules.CaptureExactly | programs/hybrid_vault/src/instructions/request.rs:165-278 | a capture succeeds exactly when the vault is open, the floor of five and a fiftieth stays, the user can pay tokens, fee and escrow, and the commit is right; the whole new state, and each error in order |
| Rules.RerollExactly | programs/hybrid_vault/src/instructions/request.rs:280-330 | a re-roll succeeds exactly for the owner of the asset under the same conditions, without tokens; the whole new state, and each error in order |
| Rules.InitRandomnessExactly | programs/hybrid_vault/src/instructions/randomness_ix.rs:64-84 | a new randomness account is taken exactly under the authority and queue of the vault |
| Rules.RevealExactly | programs/hybrid_vault/src/instructions/randomness_ix.rs:130-162 | the whole new state of a reveal, and each error in order |
| Rules.RecommitExactly | programs/hybrid_vault/src/instructions/randomness_ix.rs:190-230 | the whole new state of a re-commit, with the deadline 9,000 slots on, and each error in order |
| Rules.UnwrapExactly | programs/hybrid_vault/src/instructions/unwrap.rs:63-102 | the whole new state of an unwrap, with the next request number as the tag, and each error in order |
| Rules.MergeExactly | programs/hybrid_vault/src/instructions/admin.rs:16-23 | the crank moves the oldest entries that the head may draw into the pool, at most `max` and at most 1,024, and nothing else; it never fails |
| Rules.SettleExactly | programs/hybrid_vault/src/instructions/settle.rs:81-181 | a settle call succeeds exactly for a revealed head with at most 32 waiting entries, for the asset sampled among pool and waiting entries from the written hash, with its mint conditions; the whole new state, order of the pool included, and each error in order |
| Rules.ExpireExactly | programs/hybrid_vault/src/instructions/expire.rs:107-144 | an expiry succeeds exactly for an unrevealed head with four commits and 216,000 slots past its deadline; the whole new state, and each error in order |
| Rules.BatchSucceedsExactly | programs/hybrid_vault/src/instructions/expire.rs:208-266 | a batch succeeds exactly when its one to seven groups name the requests from the head on with their own accounts and each of these may expire now |
| Rules.BatchRefuses | programs/hybrid_vault/src/instructions/expire.rs:208-266 | a batch fails with the reason of its first group that does not fit |
| Runs.LaunchedVaultIsSound | programs/hybrid_vault/src/invariants.rs:1-13 | a vault of any accepted launch is sound and exactly solvent after every run, and no final check ever stops it |
| Runs.ExactPartition | programs/hybrid_vault/src/invariants.rs:9-13 | each index is in exactly one of pool, queue, held hand-ins and outside; sizes equal counters; what is outside or held is minted; minted indices inside belong to the vault |
| Runs.RerollNeverReturnsHandIn | programs/hybrid_vault/src/instructions/settle.rs:103-107 | a re-roll never returns its own hand-in, which becomes drawable afterwards |
| Runs.SurplusOverRun | programs/hybrid_vault/src/invariants.rs:3-8 | tokens beyond what is owed change by the donations of the run and by nothing else |
| Runs.ExactSolvency | programs/hybrid_vault/src/invariants.rs:3-8 | after every run the vault holds exactly `ratio` tokens per unit owed plus all donations, and owes at most `N` units |
| Runs.FloorOverRun | programs/hybrid_vault/src/instructions/request.rs:165-176 | a floor once kept is kept over every run, with requests pending or not |
| Runs.LaunchedVaultKeepsFloor | programs/hybrid_vault/src/instructions/request.rs:157-163 | nobody corners the pool: after every run of a launched vault, when every pending request has taken its index there remain at least five indices and at least a fiftieth of the collection |
| Lifetime.CountersOverRun | programs/hybrid_vault/src/state.rs:32-46 | over a run each lifetime counter grows by exactly the number of successful instructions it is named after, the fees by the flat fee of each request, and the head by all resolutions |
| Lifetime.OpenedOnce | programs/hybrid_vault/src/instructions/open_vault.rs:38-62 | a vault is open exactly when one step of its run opened it; there is only one, and the slot on record is its slot |
| Lifetime.NoRequestBeforeGraduation | programs/hybrid_vault/src/instructions/request.rs:165-166 | no request is accepted before an opening with a graduation proof |
| History.ResolvedOnceInOrder | programs/hybrid_vault/src/state.rs:57-59 | the k-th resolution of a run resolves the k-th request of the queue: none skipped, none twice |
| History.RevealedIsSettled | programs/hybrid_vault/src/instructions/expire.rs:110-114 | a revealed request never expires; it settles for its own user with the value first recorded |
| History.ExpiryTakesADay | programs/hybrid_vault/src/instructions/expire.rs:115-117 | a request that expires does so at least 252,004 slots after it was made and after commits by four different oracles |
| History.WaitStarts | programs/hybrid_vault/src/instructions/request.rs:203-205 | the wait of a new request starts in the slot of its instruction |
| History.RequestWaitsADay | programs/hybrid_vault/src/instructions/expire.rs:115-117 | from the instruction that makes a request to its expiry there are at least 252,004 slots and commits by four different oracles |
| History.MintedOnce | programs/hybrid_vault/src/instructions/settle.rs:112-156 | over a run the minted indices are pairwise different and new, they are all the minted set gains, and its size is the counter |
| History.RandomnessLifecycle | programs/hybrid_vault/src/state.rs:87-90 | pending requests never share a randomness account, and each mirrors the seed slot, the revealed flag and the value of its own |
| Progress.ExitNeverFails | programs/hybrid_vault/src/instructions/unwrap.rs:63-102 | `unwrap` succeeds exactly for the owner of the asset and pays exactly `ratio` |
| Progress.HeadFindsAsset | programs/hybrid_vault/src/instructions/request.rs:167-175 | by the reservation a pending head always finds an index that it may draw |
| Progress.HeadDrawIsFair | programs/hybrid_vault/src/instructions/settle.rs:99-102 | every asset of the pool that a pending head finds is picked by the same number of random blocks, since no reachable pool repeats an index |
| Progress.DrawGivesEqually | programs/hybrid_vault/src/instructions/settle.rs:92-110 | the draw itself, for a pending head with a small backlog, hands out each asset of its pool for the same number of four-word blocks that decide alone |
| Progress.PendingBlocksDiffer | programs/hybrid_vault/src/selection.rs:6-7 | two pending requests never draw from the same block, unless their hashed strings collide |
| Progress.SettleSucceedsExactly | programs/hybrid_vault/src/instructions/settle.rs:81-181 | a settle call succeeds exactly when the backlog is at most 32 entries and its arguments are right; that the pool is not empty and that no accounting error occurs is proved, not assumed |
| Progress.CranksMerge | programs/hybrid_vault/src/instructions/admin.rs:16-23 | `n` calls of the merge crank merge up to 1,024 entries each and touch nothing else |
| Progress.RevealedHeadCanSettle | programs/hybrid_vault/src/instructions/settle.rs:94-100 | after enough merge calls for the length of the queue, a settle call made from the committed art succeeds for every revealed head whose drawn asset exists already or has a committed URI that passes the mint-time check: the reservation provides the asset, the escrow the cost of a first mint |
| Progress.ExpireSucceedsExactly | programs/hybrid_vault/src/instructions/expire.rs:107-144 | an expire call succeeds exactly for an unrevealed head with all commits used and its time up; the principal can always be returned |
| Progress.BatchIsIteration | programs/hybrid_vault/src/instructions/expire.rs:208-266 | a batch succeeds exactly when its single calls with the same accounts do in turn, with the same result, and otherwise changes nothing |
| Head.RunKeepsHead | programs/hybrid_vault/src/instructions/settle.rs:92-100 | while the head has not moved, no run changes the pool it will draw from, the minted set, its value once revealed or its settlement counters, shrinks its escrow or grows its backlog |
| Head.SettlementCannotBeHeldBack | programs/hybrid_vault/src/instructions/settle.rs:1-2 | nobody can hold a settlement back: a settle call that was right stays right over every run that resolves nothing, and succeeds after enough merge calls |
| Head.RevealedHeadLeavesExactly | programs/hybrid_vault/src/asset_source.rs:47-55 | a revealed head can leave, by some run without a hash collision, exactly when its sampling ends, its counter has room, and the asset it draws exists already or has a committed URI that passes the mint-time check |
| Head.StuckForEver | programs/hybrid_vault/src/instructions/expire.rs:110-114 | a revealed head that fails this condition stays at the head over every run, whatever anybody does: it cannot settle, and a revealed request never expires |
| Head.EmptyUrisJamTheQueue | programs/hybrid_vault/src/instructions/init_vault.rs:77-132 | the failing input: in a vault whose art was committed with empty URIs, a revealed head never leaves once it is reached with nothing minted, as it is at the first request |
| Liveness.RevealSucceedsExactly | programs/hybrid_vault/src/instructions/randomness_ix.rs:130-162 | a reveal succeeds exactly for an unrevealed request whose latest seed slot is answered by a later slot, and records the value once |
| Liveness.RecommitSucceedsExactly | programs/hybrid_vault/src/instructions/randomness_ix.rs:190-230 | a re-commit succeeds exactly for an overdue unrevealed request with a commit left and the oracle that the rules select; its randomness account never refuses |
| Liveness.UnrevealedHeadCanLeave | programs/hybrid_vault/src/instructions/expire.rs:104-144 | while the network lists four live oracles, an unrevealed head leaves after its remaining re-commits and an expiry, all of them calls anyone may make |
| Liveness.HeadCanLeave | programs/hybrid_vault/src/state.rs:57-59 | calls that anyone may make resolve a pending head: an unrevealed one by its re-commits and an expiry, a revealed one by merges and a settlement unless it drew an asset that can never be minted; the others keep their place and at most three re-commits are spent |
| Liveness.RequestCanLeave | programs/hybrid_vault/src/state.rs:57-59 | with a collection whose URIs all pass, any pending request is resolved, behind all those before it, by calls that anyone may make |
| Liveness.JamIsReachable | programs/hybrid_vault/src/instructions/init_vault.rs:77-132 | the jammed state is reached from a new vault by opening it, creating a randomness account, one capture and its reveal |
| Payments.Conserved | programs/hybrid_vault/src/invariants.rs:5-7 | over a run the tokens grow by exactly the donations, and wallets and escrows together by exactly the lamports sent in advance less those spent on first mints |
| Payments.SettlementDelivers | programs/hybrid_vault/src/instructions/settle.rs:114-164 | a settlement gives the user of the request the drawn asset and the mint escrow of at least 6,338,100 lamports, whole for an existing asset; for a new one less at most the present mint cost, plus what was sent to its address in advance; it touches no token |
| Payments.ExpiryRefunds | programs/hybrid_vault/src/instructions/expire.rs:104-134 | an expiry returns exactly `ratio` tokens or the very asset handed in, and the whole mint escrow |
| Payments.CaptureCosts | programs/hybrid_vault/src/instructions/request.rs:246-249 | a capture costs exactly `ratio` tokens, the fee and the mint escrow, each to its own account; the fee recipient pays its fee to itself |
| Payments.RerollCosts | programs/hybrid_vault/src/instructions/request.rs:288-300 | a re-roll costs the asset, the fee and the mint escrow, and no token |
| BlindDraw.RunFollowsFate | programs/hybrid_vault/src/pool.rs:18-21 | the pool a request will draw from moves along every run only with the endings of earlier requests |
| BlindDraw.QuietKeepsFate | programs/hybrid_vault/src/instructions/admin.rs:16-23 | unwraps, requests, reveals, re-commits, merges and everything outside the vault leave that pool as it is |
| BlindDraw.BlindDraw | programs/hybrid_vault/src/pool.rs:18-21 | when a request reaches the head, its pool is a function of what it saw when it was made and of how the earlier ones ended |
| BlindDraw.BlindAsset | programs/hybrid_vault/src/instructions/settle.rs:99-104 | and if the request is settled next, its asset is the one that its recorded value picks in that simulated pool |
| BlindDraw.DrawsOnlyWhatIsSeen | programs/hybrid_vault/src/pool.rs:18-21 | a request draws only from the pool, the queue entries up to its number and earlier hand-ins as they were when it saw them |
| BlindDraw.LaterDepositsNeverDrawn | programs/hybrid_vault/src/pool.rs:18-21 | an asset that is outside while a request is pending, and so deposited after it was made, is never the asset it settles with, after any run |
| BlindDraw.SameEndingsSameAsset | programs/hybrid_vault/src/instructions/settle.rs:92-110 | two runs in which the earlier requests end alike and the value is the same settle the request with the same asset |
| Handlers.Accounts.HandleInitVault | programs/hybrid_vault/src/instructions/init_vault.rs:77-132 | accepts exactly a collection name and URI of allowed form, a queue that is not the zero key and a fresh pool account, with the error of the first check that fails; the result is the initial state |
| Handlers.VaultAccount.CountNew | programs/hybrid_vault/src/instructions/request.rs:213-221 | the counters of a new request, updated in place |
| Handlers.VaultAccount.CountSettlement | programs/hybrid_vault/src/instructions/settle.rs:166-176 | the counters of a settlement, updated in place |
| Handlers.VaultAccount.CountExpiry | programs/hybrid_vault/src/instructions/expire.rs:135-142 | the counters of an expiry, updated in place |
| Handlers.VaultAccount.CountUnwrap | programs/hybrid_vault/src/instructions/unwrap.rs:94-96 | the counters of a returned asset, updated in place |
| Handlers.Accounts.CheckInvariants | programs/hybrid_vault/src/invariants.rs:28-42 | the check read from the vault account and the pool bytes is the specified one |
| Handlers.Accounts.MintedPopcount | programs/hybrid_vault/src/pool.rs:124-127 | in a reachable state the bitmap marks exactly as many indices as `minted_count` says |
| Handlers.Accounts.CanRequest | programs/hybrid_vault/src/instructions/request.rs:165-176 | the admission check read from the vault account and the pool bytes is the specified one: it accepts exactly when the vault is open and, after this draw and all pending ones, five indices and a fiftieth of the collection remain |
| Handlers.Accounts.CommitForRequest | programs/hybrid_vault/src/randomness.rs:92-141 | checks before and after the commit call together accept exactly the specified commits |
| Handlers.Accounts.CheckOracle | programs/hybrid_vault/src/randomness.rs:108-114 | the oracle checks of a commit on the list actually scanned agree with their specification |
| Handlers.Accounts.CreateRequest | programs/hybrid_vault/src/instructions/request.rs:178-222 | commit, request, lock and counters together compute the specified creation |
| Handlers.Accounts.HandleRequestCapture | programs/hybrid_vault/src/instructions/request.rs:237-278 | the handler computes its step, error by error |
| Handlers.Accounts.HandleRequestReroll | programs/hybrid_vault/src/instructions/request.rs:280-330 | the handler computes its step, error by error |
| Handlers.Accounts.HandleReveal | programs/hybrid_vault/src/instructions/randomness_ix.rs:130-162 | the handler computes its step, error by error |
| Handlers.Accounts.HandleRecommit | programs/hybrid_vault/src/instructions/randomness_ix.rs:190-230 | the handler computes its step, error by error |
| Handlers.Accounts.DrawAsset | programs/hybrid_vault/src/instructions/settle.rs:91-110 | merge, selection, removal and push-back on the pool bytes compute the specified draw; the drawn position is sampled from the hash of the written string of value, vault and number |
| Handlers.Accounts.MarkAsset | programs/hybrid_vault/src/instructions/settle.rs:151-152 | the bit of a first mint is set once on the pool bytes |
| Handlers.Accounts.MintNew | programs/hybrid_vault/src/instructions/settle.rs:133-156 | leaf check, escrow check, drain, mint, bitmap bit and counter compute the specified first mint, error by error |
| Handlers.Accounts.GiveAsset | programs/hybrid_vault/src/instructions/settle.rs:114-156 | transfer of an existing asset or first mint, with its bitmap bit and the lamports drained from its address, computes the specified hand-over |
| Handlers.Accounts.HandleSettle | programs/hybrid_vault/src/instructions/settle.rs:81-181 | the handler computes its step, error by error |
| Handlers.Accounts.ExpireHead | programs/hybrid_vault/src/instructions/expire.rs:107-144 | one expiry on a working copy of the vault account computes the specified one |
| Handlers.Accounts.HandleExpire | programs/hybrid_vault/src/instructions/expire.rs:146-176 | the handler computes its step, error by error |
| Handlers.Accounts.HandleExpireBatch | programs/hybrid_vault/src/instructions/expire.rs:208-266 | the loop over the groups on one working copy computes the specified batch |
| Handlers.Accounts.QueueAsset | programs/hybrid_vault/src/instructions/unwrap.rs:88-93 | the returned index joins the queue on the pool bytes with the next sequence number as its tag |
| Handlers.Accounts.HandleUnwrap | programs/hybrid_vault/src/instructions/unwrap.rs:63-102 | the handler computes its step, error by error |
| Handlers.Accounts.HandleMergeIncoming | programs/hybrid_vault/src/instructions/admin.rs:17-23 | the handler computes its step |
| Handlers.Accounts.HandleOpenVault | programs/hybrid_vault/src/instructions/open_vault.rs:38-62 | the handler computes its step, error by error, the checks of the collection account included |
| Handlers.Accounts.Dispatch | programs/hybrid_vault/src/lib.rs:63-119 | every instruction reaches the handler that computes its step |
| Handlers.Accounts.Execute | programs/hybrid_vault/src/lib.rs:63-119 | an instruction run as a transaction on the mutable accounts moves them by `Next` and keeps the invariant; the rollback of a failed one is what the runtime does |

## A queue that jams

`programs/hybrid_vault/src/state.rs:57-59` says that a request is closed only by a settlement or an expiry; nothing
says that one of the two is always possible, and for one family of inputs neither is. `init_vault` takes any trait
root and never looks at a leaf. If a revealed head draws an asset that was never minted and whose committed URI is
longer than the limit, or starts with neither `ipfs://` nor `ar://`, then `check_leaf` refuses its settlement and
`expire_one` refuses a revealed request. It stays at the head for ever, with every later request behind it.

`Head.RevealedHeadLeavesExactly` gives the exact condition and `Head.StuckForEver` the negative half over all runs.
`Head.EmptyUrisJamTheQueue` names a concrete input, a collection committed with empty URIs, and
`Liveness.JamIsReachable` the instructions that lead there. Whether a collection can jam can be checked before its
root is committed: `Liveness.RequestCanLeave` shows that it cannot when all its URIs pass.

## Where the code and its comments differ

The model follows the code in each case.

- `programs/hybrid_vault/src/invariants.rs:1` says that every mutating instruction ends with the check; reveal, re-commit, `init_randomness` and `merge_incoming` do not run it. The invariant survives them all the same.
- `programs/hybrid_vault/src/pool.rs:18-21` says that entries are merged only when a request settles; `merge_incoming` merges them too, up to the head of the queue. `BlindDraw.QuietKeepsFate` shows that this changes no draw.
- `programs/hybrid_vault/src/selection.rs:17` says that words below the zone are accepted; the code also accepts the zone itself, and exactly that makes the draw uniform.
- `programs/hybrid_vault/src/state.rs:16` says that the collection is fully minted before the vault opens; the code only compares the mint count with the asset program's.
- `programs/hybrid_vault/src/instructions/request.rs:224` says that the mint escrow sits in the request account; it sits in an account of its own.

## Left out

- Selection.UniformBelow: rehashing stops at a budget, as a transaction's compute does, with the error `ComputeExceeded`; within it the result is that of the unbounded loop (`Selection.UniformIsLoopResult`), and that the hash chain ends at all is not claimed.
- Handlers.Accounts.CommitForRequest: the oracle program's own checks and signatures are not modelled; its effect on the account is a parameter, restricted only by the checks the vault makes.
- Handlers.Accounts.HandleInitVault: the asset program's creation of the collection either succeeds or fails the instruction; the launch configuration, read as constants, is not parsed.
- Handlers.Accounts.HandleOpenVault: whether the launch has graduated is a parameter, and the graduation proof is not parsed.
- Handlers.Accounts.HandleExpireBatch: the checks that accounts are writable and that their data decode are not modelled; they give the error of the other account checks.
- Progress.RevealedHeadCanSettle: the lifetime counter has room and the sampling ends within the budget of one transaction; the live mint cost does not exceed the constant that requests escrow. That the drawn asset can be minted is part of the exact condition of `Head.RevealedHeadLeavesExactly`, not a simplification.
- Liveness.HeadCanLeave: a revealed head meets the condition of `Head.RevealedHeadLeavesExactly`, without which it never leaves; for an unrevealed one slots and counters have room, and in every slot every listed key is an oracle account and four of them are live.
- Liveness.RequestCanLeave: all URIs of the collection pass; the network is as for Liveness.HeadCanLeave, samplings end within the budget, and slots and counters have room for every request up to this one.
- Head.SettlementCannotBeHeldBack: the lifetime counter and the live mint cost are those of the settle call; the crank is assumed to be called.
- Head.StuckForEver: for runs in which no settle call forges a leaf, that is, exhibits a hash collision with the committed art.
- Payments.SettlementDelivers: the asset program is taken to charge at most the live mint cost that the vault computes.
- Progress.ExitNeverFails: the lifetime unwrap counter is assumed below 2^64 - 1, and the user's token account to exist.
- Payments.Conserved: excludes only the payments between other programs' users that a step declares as unrelated, whose amounts are arbitrary.
- Handlers.Accounts.Execute: the clock does not move within a transaction, and steps of other programs are not executed by it.
- Accounts lists, signatures, owner and address checks: a step names the accounts it uses, derived addresses are the keys they are derived from, and an instruction that names a missing account fails with `AccountConstraint`.
- Rent and the closing of accounts: a closed request or lock leaves its map, its rent is not counted.
- The field `mint_escrow_lamports`, which only mirrors the escrow.
- The raw byte layout of queue, oracle and randomness accounts; a queue is its list of keys, length and rotation index.
- Graduation, the bonding-curve reader and the raw configuration reader: offset reads and equality checks.
- The two tier-fee look-ups of the request instructions: the fee is a constant of the configuration, the table is in `Launch`.
- Scripts, the client, the test suites and the `shelved` programs.
