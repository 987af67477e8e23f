/**
 The rules of every instruction in numbers: what it refuses in a reachable state, in which order, and all that it
 changes when it succeeds. None of the errors that the accounting could raise is among them.
 */
module Rules {
  import opened Base
  import opened Pool
  import opened Vault
  import opened Accounting
  import opened Invariant
  import opened Preservation
  import opened Progress
  import History
  import Leaf
  import Liveness
  import Oracle
  import Payments
  import Runs
  import Selection

  // ----- opening the vault

  function OpenRule(c: Config, s: State, collection: Collection, graduated: bool): Status {
    if s.vault.open then Err(VaultAlreadyOpen)
    else if !collection.ownedByCore || collection.updateAuthority != c.authority then Err(AssetStateMismatch)
    else if collection.numMinted != |s.pool.minted| || collection.currentSize != |s.pool.minted| then
      Err(AssetAccountingBroken)
    else if !graduated then Err(GraduationNotVerified)
    else Ok(())
  }

  /** The vault opens once, for a collection of its own in which all that is minted was minted by it. */
  lemma OpenExactly(c: Config, s: State, collection: Collection, graduated: bool)
    requires Inv(c, s)
    ensures Apply(c, s, DoOpen(collection, graduated))
            == match OpenRule(c, s, collection, graduated)
               case Ok(_) => Ok(s.(vault := s.vault.(open := true, openedAtSlot := s.slot)))
               case Err(e) => Err(e)
  {
    hide Inv, Apply, FifoOk, AssetsOk, ReserveOk, RandOk, EscrowOk, Wf, QueueInRange;
    CheckIsRedundant(c, s, DoOpen(collection, graduated));
    History.MintedCounted(c, s);
    Runs.InvParts(c, s);
  }

  // ----- requesting

  /** An index stays for every pending request, for this one, and at least five and a fiftieth of all on top. */
  function AdmissionRule(c: Config, s: State, user: Key, env: CommitEnv): Status {
    var left := |s.pool.slots| + |s.pool.queue| - s.vault.pendingCaptures - s.vault.pendingRerolls - 1;
    if user == c.authority || env.randomness in s.locks then Err(AccountConstraint)
    else if !s.vault.open then Err(VaultNotOpen)
    else if left < 5 || 50 * left < c.n then Err(NoAssetAvailable)
    else Ok(())
  }

  /** The fee goes to its recipient, the mint escrow of 6,338,100 lamports to the request. */
  function PurseRule(c: Config, s: State, user: Key, liveMintCost: nat): Status {
    var purse := Balance(s.lamports, user);
    if purse < c.fee then Err(CpiFailed)
    else if liveMintCost > 6_338_100 then Err(MintCostConstantStale)
    else if (if user == c.feeRecipient then purse else purse - c.fee) < 6_338_100 then Err(CpiFailed)
    else Ok(())
  }

  /** The commit of request `q`, in this slot and by the oracle whose turn it is. */
  function CommitRule(c: Config, s: State, env: CommitEnv, q: u64, used: seq<Key>): Status {
    var turn := Oracle.CommitOracle(c.sha, env.queue, c.vaultKey, q, used, env.proofs, env.heartbeats, env.now,
                                    env.oracle);
    if env.queueKey != c.queue then Err(WrongQueue)
    else if turn.Err? then turn
    else if env.randomness !in s.rand then Err(InvalidRandomnessAccount)
    else if s.rand[env.randomness].authority != c.randomnessAuthority then Err(RandomnessAuthorityMismatch)
    else if s.rand[env.randomness].queue != c.queue then Err(WrongQueue)
    else if env.seedSlot + 1 != s.slot || env.revealSlot > env.seedSlot then Err(RandomnessNotFresh)
    else Ok(())
  }

  function RoomRule(c: Config, s: State): Status {
    if s.slot + 9_000 > U64_MAX || s.vault.nextSeq == U64_MAX || s.vault.totalFeeLamports + c.fee > U64_MAX then
      Err(MathOverflow)
    else
      Ok(())
  }

  function CaptureRule(c: Config, s: State, user: Key, liveMintCost: nat, env: CommitEnv): Status {
    var _ :- AdmissionRule(c, s, user, env);
    var _ :- if Balance(s.tokens, user) < c.ratio then Err(CpiFailed) else Ok(());
    var _ :- PurseRule(c, s, user, liveMintCost);
    var _ :- CommitRule(c, s, env, s.vault.nextSeq, []);
    RoomRule(c, s)
  }

  function RerollRule(c: Config, s: State, user: Key, index: u32, liveMintCost: nat, env: CommitEnv): Status {
    var _ :- AdmissionRule(c, s, user, env);
    var _ :- if index >= c.n then Err(IndexOutOfRange) else Ok(());
    var _ :- if index !in s.owner || s.owner[index] != user then Err(CpiFailed) else Ok(());
    var _ :- PurseRule(c, s, user, liveMintCost);
    var _ :- CommitRule(c, s, env, s.vault.nextSeq, []);
    RoomRule(c, s)
  }

  /** What both kinds of request do. */
  ghost predicate Requested(c: Config, s: State, s': State, kind: Kind, user: Key, handedIn: u32, env: CommitEnv) {
    var q, purse := s.vault.nextSeq, Balance(s.lamports, user);
    && q in s'.requests
    && var r := s'.requests[q];
    && r == Request(kind, q, user, env.randomness, env.seedSlot, r.deadlineSlot, 1, [env.oracle, 0, 0, 0], false,
                    r.value, handedIn)
    && r.deadlineSlot == s.slot + 9_000 && (forall k :: 0 <= k < 32 ==> r.value[k] == 0)
    && s'.requests == s.requests[q := r] && s'.locks == s.locks[env.randomness := q]
    && s'.rand == s.rand[env.randomness := Randomness(c.randomnessAuthority, c.queue, env.seedSlot, env.revealSlot,
                                                      env.value)]
    && s'.escrow == s.escrow[q := Balance(s.escrow, q) + 6_338_100]
    && (if user == c.feeRecipient then purse >= 6_338_100 && s'.lamports == s.lamports[user := purse - 6_338_100]
        else
          && purse >= c.fee + 6_338_100
          && s'.lamports == s.lamports[user := purse - c.fee - 6_338_100]
                              [c.feeRecipient := Balance(s.lamports, c.feeRecipient) + c.fee])
    && s'.pool == s.pool && s'.slot == s.slot
    && s'.vault.nextSeq == s.vault.nextSeq + 1
    && s'.vault.totalFeeLamports == s.vault.totalFeeLamports + c.fee
  }

  ghost predicate Captured(c: Config, s: State, s': State, user: Key, env: CommitEnv) {
    && Requested(c, s, s', Capture, user, U32_MAX, env)
    && c.ratio <= Balance(s.tokens, user)
    && s'.tokens == s.tokens[user := Balance(s.tokens, user) - c.ratio] && s'.vaultTokens == s.vaultTokens + c.ratio
    && s'.owner == s.owner
    && s'.vault.pendingCaptures == s.vault.pendingCaptures + 1
    && s'.vault == s.vault.(nextSeq := s'.vault.nextSeq, totalFeeLamports := s'.vault.totalFeeLamports,
                            pendingCaptures := s'.vault.pendingCaptures)
  }

  ghost predicate Rerolled(c: Config, s: State, s': State, user: Key, index: u32, env: CommitEnv) {
    && Requested(c, s, s', Reroll, user, index, env)
    && s'.tokens == s.tokens && s'.vaultTokens == s.vaultTokens && s'.owner == s.owner[index := c.authority]
    && s'.vault.pendingRerolls == s.vault.pendingRerolls + 1 && s'.vault.assetsOutside == s.vault.assetsOutside - 1
    && s'.vault == s.vault.(nextSeq := s'.vault.nextSeq, totalFeeLamports := s'.vault.totalFeeLamports,
                            pendingRerolls := s'.vault.pendingRerolls, assetsOutside := s'.vault.assetsOutside)
  }

  /** The counters that a request reads fit their types, and its number is new. */
  lemma RequestFacts(c: Config, s: State)
    requires Inv(c, s)
    ensures s.vault.nextSeq !in s.requests
    ensures s.vault.pendingCaptures + s.vault.pendingRerolls <= s.vault.nextSeq
  {
    hide PoolOk, ReserveOk, RandOk, EscrowOk, Solvent, ConfigOk, Singles, OwnersOk;
  }

  lemma AdmissionIs(c: Config, s: State, user: Key, env: CommitEnv)
    requires Inv(c, s)
    ensures AdmissionRule(c, s, user, env)
            == if CanCreateRequest(c, s, user, env).Err? then CanCreateRequest(c, s, user, env)
               else CheckCanRequest(c, s.vault, s.pool)
  {
    hide Inv, PoolFloor;
    RequestFacts(c, s);
    var free := |s.pool.slots| + |s.pool.queue| - s.vault.pendingCaptures - s.vault.pendingRerolls;
    if free >= 1 {
      PoolFloorIsLeast(c.n, free - 1);
    }
  }

  lemma PurseIs(c: Config, s: State, user: Key, liveMintCost: nat)
    ensures var r := PayLamports(c, s, user, liveMintCost);
            match PurseRule(c, s, user, liveMintCost)
            case Err(e) => r == Err(e)
            case Ok(_) =>
              && r.Ok? && r.value == s.(lamports := r.value.lamports, escrow := r.value.escrow)
              && var q, purse := s.vault.nextSeq, Balance(s.lamports, user);
              && r.value.escrow == s.escrow[q := Balance(s.escrow, q) + 6_338_100]
              && (if user == c.feeRecipient then
                    purse >= 6_338_100 && r.value.lamports == s.lamports[user := purse - 6_338_100]
                  else
                    && purse >= c.fee + 6_338_100
                    && r.value.lamports == s.lamports[user := purse - c.fee - 6_338_100]
                                             [c.feeRecipient := Balance(s.lamports, c.feeRecipient) + c.fee])
  {
  }

  lemma CommitIs(c: Config, s: State, env: CommitEnv, q: u64, used: seq<Key>)
    ensures Commit(c, s, env, q, used)
            == match CommitRule(c, s, env, q, used)
               case Err(e) => Err(e)
               case Ok(_) => Ok(Randomness(c.randomnessAuthority, c.queue, env.seedSlot, env.revealSlot, env.value))
  {
    hide Oracle.CommitOracle;
  }

  /** The end of both kinds of request, once the payments are made. */
  lemma FinishIs(c: Config, s: State, paid: State, kind: Kind, user: Key, handedIn: u32, env: CommitEnv)
    requires paid.vault == s.vault && paid.slot == s.slot && paid.rand == s.rand
    requires s.vault.pendingCaptures + s.vault.pendingRerolls <= s.vault.nextSeq
    requires kind == Reroll ==> s.vault.assetsOutside >= 1
    ensures var r := FinishRequest(c, paid, kind, user, handedIn, env);
            var commit, room := CommitRule(c, s, env, s.vault.nextSeq, []), RoomRule(c, s);
            if commit.Err? then r == Err(commit.error) else if room.Err? then r == Err(room.error) else r.Ok?
  {
    hide Commit, CommitRule;
    CommitIs(c, paid, env, s.vault.nextSeq, []);
    CommitReads(c, s, paid, env, s.vault.nextSeq, []);
  }

  lemma CommitReads(c: Config, s: State, paid: State, env: CommitEnv, q: u64, used: seq<Key>)
    requires paid.slot == s.slot && paid.rand == s.rand
    ensures CommitRule(c, paid, env, q, used) == CommitRule(c, s, env, q, used)
  {
    hide Oracle.CommitOracle;
  }

  lemma FinishDoes(c: Config, s: State, paid: State, kind: Kind, user: Key, handedIn: u32, env: CommitEnv)
    requires FinishRequest(c, paid, kind, user, handedIn, env).Ok?
    requires paid.vault == s.vault && paid.slot == s.slot && paid.rand == s.rand && paid.pool == s.pool
             && paid.requests == s.requests && paid.locks == s.locks
    requires PurseRule(c, s, user, 0).Ok?
    requires var q, purse := s.vault.nextSeq, Balance(s.lamports, user);
             && paid.escrow == s.escrow[q := Balance(s.escrow, q) + 6_338_100]
             && (if user == c.feeRecipient then paid.lamports == s.lamports[user := purse - 6_338_100]
                 else paid.lamports == s.lamports[user := purse - c.fee - 6_338_100]
                                         [c.feeRecipient := Balance(s.lamports, c.feeRecipient) + c.fee])
    ensures var s' := FinishRequest(c, paid, kind, user, handedIn, env).value;
            && Requested(c, s, s', kind, user, handedIn, env)
            && s'.tokens == paid.tokens && s'.vaultTokens == paid.vaultTokens && s'.owner == paid.owner
            && s'.vault == s.vault.(nextSeq := s'.vault.nextSeq, totalFeeLamports := s'.vault.totalFeeLamports,
                                    pendingCaptures := s'.vault.pendingCaptures,
                                    pendingRerolls := s'.vault.pendingRerolls,
                                    assetsOutside := s'.vault.assetsOutside)
            && s'.vault.pendingCaptures == s.vault.pendingCaptures + (if kind == Capture then 1 else 0)
            && s'.vault.pendingRerolls == s.vault.pendingRerolls + (if kind == Reroll then 1 else 0)
            && s'.vault.assetsOutside == s.vault.assetsOutside - (if kind == Reroll then 1 else 0)
  {
    hide Commit, CommitRule;
    CommitIs(c, paid, env, s.vault.nextSeq, []);
  }

  /** The state once the tokens of a capture have been paid. */
  function TokensPaid(c: Config, s: State, user: Key): State
    requires c.ratio <= Balance(s.tokens, user)
  {
    s.(tokens := s.tokens[user := Balance(s.tokens, user) - c.ratio], vaultTokens := s.vaultTokens + c.ratio)
  }

  lemma CaptureChain(c: Config, s: State, user: Key, liveMintCost: nat, env: CommitEnv)
    requires CanCreateRequest(c, s, user, env).Ok? && CheckCanRequest(c, s.vault, s.pool).Ok?
    ensures RequestCapture(c, s, user, liveMintCost, env)
            == if Balance(s.tokens, user) < c.ratio then Err(CpiFailed)
               else
                 var paid := PayLamports(c, TokensPaid(c, s, user), user, liveMintCost);
                 if paid.Err? then Err(paid.error) else FinishRequest(c, paid.value, Capture, user, NO_HANDED_IN, env)
  {
    hide CheckCanRequest, PayLamports, FinishRequest;
  }

  lemma CaptureIs(c: Config, s: State, user: Key, liveMintCost: nat, env: CommitEnv)
    requires Inv(c, s)
    ensures var r := RequestCapture(c, s, user, liveMintCost, env);
            match CaptureRule(c, s, user, liveMintCost, env)
            case Ok(_) => r.Ok? && Captured(c, s, r.value, user, env)
            case Err(e) => r == Err(e)
  {
    hide Inv, CheckCanRequest, PayLamports, FinishRequest, AdmissionRule, CommitRule, RoomRule, CanCreateRequest,
         Requested;
    AdmissionIs(c, s, user, env);
    RequestFacts(c, s);
    if AdmissionRule(c, s, user, env).Ok? {
      CaptureChain(c, s, user, liveMintCost, env);
      hide RequestCapture;
      if Balance(s.tokens, user) >= c.ratio {
        var s1 := TokensPaid(c, s, user);
        PurseIs(c, s1, user, liveMintCost);
        if PurseRule(c, s, user, liveMintCost).Ok? {
          var s2 := PayLamports(c, s1, user, liveMintCost).value;
          FinishIs(c, s, s2, Capture, user, NO_HANDED_IN, env);
          if FinishRequest(c, s2, Capture, user, NO_HANDED_IN, env).Ok? {
            FinishDoes(c, s, s2, Capture, user, NO_HANDED_IN, env);
          }
        }
      }
    }
  }

  /** A capture succeeds exactly for a user who can pay, while the floor stays, and changes nothing but this. */
  lemma CaptureExactly(c: Config, s: State, user: Key, liveMintCost: nat, env: CommitEnv)
    requires Inv(c, s)
    ensures var r := Apply(c, s, DoCapture(user, liveMintCost, env));
            match CaptureRule(c, s, user, liveMintCost, env)
            case Ok(_) => r.Ok? && Captured(c, s, r.value, user, env)
            case Err(e) => r == Err(e)
  {
    hide Inv, Apply, RequestCapture, CaptureRule, Captured;
    CheckIsRedundant(c, s, DoCapture(user, liveMintCost, env));
    CaptureIs(c, s, user, liveMintCost, env);
  }

  lemma RerollIs(c: Config, s: State, user: Key, index: u32, liveMintCost: nat, env: CommitEnv)
    requires Inv(c, s)
    ensures var r := RequestReroll(c, s, user, index, liveMintCost, env);
            match RerollRule(c, s, user, index, liveMintCost, env)
            case Ok(_) => r.Ok? && Rerolled(c, s, r.value, user, index, env)
            case Err(e) => r == Err(e)
  {
    hide Inv, CheckCanRequest, PayLamports, FinishRequest, AdmissionRule, CommitRule, RoomRule, Requested;
    AdmissionIs(c, s, user, env);
    RequestFacts(c, s);
    if user != c.authority && index in s.owner && s.owner[index] == user {
      OwnedOutside(c, s, user, index);
      var s1 := s.(owner := s.owner[index := c.authority]);
      PurseIs(c, s1, user, liveMintCost);
      if PurseRule(c, s, user, liveMintCost).Ok? {
        var s2 := PayLamports(c, s1, user, liveMintCost).value;
        FinishIs(c, s, s2, Reroll, user, index, env);
        if FinishRequest(c, s2, Reroll, user, index, env).Ok? {
          FinishDoes(c, s, s2, Reroll, user, index, env);
        }
      }
    }
  }

  /** A re-roll succeeds exactly for the owner of the asset, while the floor stays, and changes nothing but this. */
  lemma RerollExactly(c: Config, s: State, user: Key, index: u32, liveMintCost: nat, env: CommitEnv)
    requires Inv(c, s)
    ensures var r := Apply(c, s, DoReroll(user, index, liveMintCost, env));
            match RerollRule(c, s, user, index, liveMintCost, env)
            case Ok(_) => r.Ok? && Rerolled(c, s, r.value, user, index, env)
            case Err(e) => r == Err(e)
  {
    hide Inv, Apply, RequestReroll, RerollRule, Rerolled;
    CheckIsRedundant(c, s, DoReroll(user, index, liveMintCost, env));
    RerollIs(c, s, user, index, liveMintCost, env);
  }

  // ----- randomness

  /** A new randomness account is taken only under the vault's own authority and queue. */
  lemma InitRandomnessExactly(c: Config, s: State, key: Key, account: Randomness)
    requires Inv(c, s)
    ensures Apply(c, s, DoInitRandomness(key, account))
            == if key in s.rand || account.queue != c.queue then Err(CpiFailed)
               else if account.authority != c.randomnessAuthority then Err(RandomnessAuthorityMismatch)
               else Ok(s.(rand := s.rand[key := account]))
  {
    hide Inv;
  }

  function RevealRule(s: State, q: u64, seedSlot: u64, revealSlot: u64): Status {
    if q !in s.requests then Err(AccountConstraint)
    else if s.requests[q].revealed then Err(RandomnessAlreadyRevealed)
    else if seedSlot != s.requests[q].seedSlot || revealSlot <= seedSlot then Err(RandomnessNotRevealed)
    else Ok(())
  }

  /** A reveal writes the value into the request and its account, and touches nothing else. */
  lemma RevealExactly(c: Config, s: State, q: u64, seedSlot: u64, revealSlot: u64, value: Digest)
    requires Inv(c, s)
    ensures q in s.requests ==> s.requests[q].randomness in s.rand
    ensures Apply(c, s, DoReveal(q, seedSlot, revealSlot, value))
            == match RevealRule(s, q, seedSlot, revealSlot)
               case Err(e) => Err(e)
               case Ok(_) =>
                 var r := s.requests[q];
                 Ok(s.(requests := s.requests[q := r.(revealed := true, value := value)],
                       rand := s.rand[r.randomness := Randomness(c.randomnessAuthority, c.queue, seedSlot, revealSlot,
                                                                 value)]))
  {
    hide Inv, PoolOk, FifoOk, AssetsOk, ReserveOk, EscrowOk, CommitsOk;
    Runs.InvParts(c, s);
    if q in s.requests {
      assert RequestOk(c, s.requests[q], s.rand, s.locks);
    }
  }

  function RecommitRule(c: Config, s: State, q: u64, env: CommitEnv): Status {
    if q !in s.requests || env.randomness != s.requests[q].randomness then Err(AccountConstraint)
    else
      var r := s.requests[q];
      if r.revealed then Err(RandomnessAlreadyRevealed)
      else if s.slot <= r.deadlineSlot then Err(DeadlineNotReached)
      else if r.commits > 3 then Err(RecommitsExhausted)
      else if env.oracle in r.oracles[..r.commits] then Err(OracleReused)
      else
        var _ :- CommitRule(c, s, env, q, r.oracles[..r.commits]);
        if s.slot + 9_000 > U64_MAX || s.vault.totalRecommits == U64_MAX then Err(MathOverflow) else Ok(())
  }

  /** A re-commit starts a new wait of 9,000 slots with one more oracle. */
  ghost predicate Recommitted(c: Config, s: State, s': State, q: u64, env: CommitEnv) {
    && q in s.requests && q in s'.requests
    && var r, r' := s.requests[q], s'.requests[q];
    && r.commits < 4
    && r' == r.(seedSlot := env.seedSlot, deadlineSlot := r'.deadlineSlot, commits := r.commits + 1,
                oracles := r.oracles[r.commits := env.oracle])
    && r'.deadlineSlot == s.slot + 9_000
    && s'.vault == s.vault.(totalRecommits := s'.vault.totalRecommits)
    && s'.vault.totalRecommits == s.vault.totalRecommits + 1
    && s' == s.(vault := s'.vault, requests := s.requests[q := r'],
                rand := s.rand[env.randomness := Randomness(c.randomnessAuthority, c.queue, env.seedSlot,
                                                            env.revealSlot, env.value)])
  }

  lemma OverdueIs(c: Config, s: State, q: u64, env: CommitEnv)
    requires Inv(c, s)
    ensures OverdueRequest(s, q, env)
            == if q !in s.requests || env.randomness != s.requests[q].randomness then Err(AccountConstraint)
               else if s.requests[q].revealed then Err(RandomnessAlreadyRevealed)
               else if s.slot <= s.requests[q].deadlineSlot then Err(DeadlineNotReached)
               else if s.requests[q].commits > 3 then Err(RecommitsExhausted)
               else if env.oracle in s.requests[q].oracles[..s.requests[q].commits] then Err(OracleReused)
               else Ok(s.requests[q])
  {
    hide Inv, UnrevealedAccount;
    if q in s.requests {
      Liveness.WaitsForItsValue(c, s, q);
    }
  }

  lemma RecommitExactly(c: Config, s: State, q: u64, env: CommitEnv)
    requires Inv(c, s)
    ensures var r := Apply(c, s, DoRecommit(q, env));
            match RecommitRule(c, s, q, env)
            case Ok(_) => r.Ok? && Recommitted(c, s, r.value, q, env)
            case Err(e) => r == Err(e)
  {
    hide Inv, OverdueRequest, Commit, CommitRule;
    OverdueIs(c, s, q, env);
    if q in s.requests && s.requests[q].commits <= 3 {
      CommitIs(c, s, env, q, s.requests[q].oracles[..s.requests[q].commits]);
    }
  }

  // ----- leaving the vault, and merging

  function UnwrapRule(c: Config, s: State, user: Key, index: u32): Status {
    if user == c.authority then Err(AccountConstraint)
    else if index >= c.n then Err(IndexOutOfRange)
    else if index !in s.owner || s.owner[index] != user then Err(CpiFailed)
    else if s.vault.totalUnwraps == U64_MAX then Err(MathOverflow)
    else Ok(())
  }

  /** Unwrapping pays `ratio` tokens for the asset, which joins the queue with the next request number as its tag. */
  ghost predicate Unwrapped(c: Config, s: State, s': State, user: Key, index: u32) {
    && c.ratio <= s.vaultTokens && s.vault.assetsOutside >= 1
    && s' == s.(vault := s'.vault, owner := s.owner[index := c.authority], vaultTokens := s.vaultTokens - c.ratio,
                tokens := s.tokens[user := Balance(s.tokens, user) + c.ratio],
                pool := s.pool.(queue := s.pool.queue + [Entry(index, s.vault.nextSeq)]))
    && s'.vault == s.vault.(assetsOutside := s.vault.assetsOutside - 1, totalUnwraps := s'.vault.totalUnwraps)
    && s'.vault.totalUnwraps == s.vault.totalUnwraps + 1
  }

  lemma UnwrapExactly(c: Config, s: State, user: Key, index: u32)
    requires Inv(c, s)
    ensures var r := Apply(c, s, DoUnwrap(user, index));
            match UnwrapRule(c, s, user, index)
            case Ok(_) => r.Ok? && Unwrapped(c, s, r.value, user, index)
            case Err(e) => r == Err(e)
  {
    hide Inv, Apply, Unwrap, UnwrapRule, Unwrapped;
    CheckIsRedundant(c, s, DoUnwrap(user, index));
    UnwrapIs(c, s, user, index);
  }

  lemma UnwrapIs(c: Config, s: State, user: Key, index: u32)
    requires Inv(c, s)
    ensures var r := Unwrap(c, s, user, index);
            match UnwrapRule(c, s, user, index)
            case Ok(_) => r.Ok? && Unwrapped(c, s, r.value, user, index)
            case Err(e) => r == Err(e)
  {
    hide Inv, Solvent, IncomingPush;
    if user != c.authority && index in s.owner && s.owner[index] == user {
      OwnedOutside(c, s, user, index);
      InvSolvent(c, s);
      OneIsAffordable(c, s.vault, s.vaultTokens);
      PushSucceeds(c, s, index);
      PushIs(s.pool, index, s.vault.nextSeq);
    }
  }

  lemma InvSolvent(c: Config, s: State)
    requires Inv(c, s)
    ensures Solvent(c, s.vault, s.vaultTokens)
  {
  }

  lemma PushIs(pool: PoolState, index: u32, tag: u64)
    requires IncomingPush(pool, index, tag).Ok?
    ensures IncomingPush(pool, index, tag) == Ok(pool.(queue := pool.queue + [Entry(index, tag)]))
  {
  }

  /** How many entries of the queue carry a tag of at most `t`, wherever they stand. */
  ghost function Waiting(queue: seq<Entry>, t: u64): (n: nat)
    ensures n <= |queue|
  {
    CountAtMost(queue, t, |queue|);
    |set k: nat | k < |queue| && queue[k].tag <= t|
  }

  lemma {:induction false} CountAtMost(queue: seq<Entry>, t: u64, m: nat)
    requires m <= |queue|
    ensures |set k: nat | k < m && queue[k].tag <= t| <= m
  {
    if m > 0 {
      CountAtMost(queue, t, m - 1);
      var before := set k: nat | k < m - 1 && queue[k].tag <= t;
      assert (set k: nat | k < m && queue[k].tag <= t) == if queue[m - 1].tag <= t then before + {m - 1} else before;
    }
  }

  lemma {:induction false} CountPrefix(queue: seq<Entry>, t: u64, n: nat, m: nat)
    requires n <= |queue| && m <= |queue| && forall k :: 0 <= k < |queue| ==> (queue[k].tag <= t <==> k < n)
    ensures |set k: nat | k < m && queue[k].tag <= t| == if m < n then m else n
  {
    if m > 0 {
      CountPrefix(queue, t, n, m - 1);
      var before := set k: nat | k < m - 1 && queue[k].tag <= t;
      assert (set k: nat | k < m && queue[k].tag <= t) == if m - 1 < n then before + {m - 1} else before;
    }
  }

  lemma WaitingIsEligible(queue: seq<Entry>, t: u64)
    requires SortedTags(queue)
    ensures Waiting(queue, t) == Eligible(queue, t)
  {
    hide Eligible, SortedTags;
    EligibleIsAllSmallTags(queue, t);
    CountPrefix(queue, t, Eligible(queue, t), |queue|);
  }

  /** The pool with the `e` oldest entries of the queue behind it, oldest first. */
  function Joined(pool: PoolState, e: nat): (slots: seq<u32>)
    requires e <= |pool.queue|
    ensures |slots| == |pool.slots| + e
  {
    pool.slots + seq(e, k requires 0 <= k < e => pool.queue[k].index)
  }

  lemma JoinedIsAdvance(pool: PoolState, e: nat)
    requires e <= |pool.queue|
    ensures Advance(pool, e) == pool.(slots := Joined(pool, e), queue := pool.queue[e..])
  {
    assert Advance(pool, e).slots == Joined(pool, e);
  }

  /** The crank moves the oldest entries that the head may draw, at most `max` and at most 1,024, and nothing else. */
  lemma MergeExactly(c: Config, s: State, max: u32)
    requires Inv(c, s)
    ensures var waiting := Waiting(s.pool.queue, s.vault.nextSettleSeq);
            var e := if waiting <= max && waiting <= 1_024 then waiting else if max <= 1_024 then max else 1_024;
            && e <= |s.pool.queue|
            && Apply(c, s, DoMerge(max))
               == Ok(s.(pool := s.pool.(slots := Joined(s.pool, e), queue := s.pool.queue[e..])))
  {
    hide Inv, MergeIncoming, Advance, Eligible, Waiting, Joined, SortedTags;
    PoolIsWf(c, s);
    MergeKeepsInv(c, s, max);
    WaitingIsEligible(s.pool.queue, s.vault.nextSettleSeq);
    JoinedIsAdvance(s.pool, Min(Min(max, MAX_MERGE_PER_CRANK), Eligible(s.pool.queue, s.vault.nextSettleSeq)));
  }

  // ----- settling

  /** The position drawn among `n`: rejection sampling that starts from the hash of value, vault and number. */
  function Sampled(c: Config, value: Digest, q: u64, n: u32): Option<u32>
    requires n > 0
  {
    Selection.Uniform(c.sha, c.sha(Selection.RequestString(value, c.vaultKey, q)), n, c.budget)
  }

  lemma PositionIsSampled(c: Config, value: Digest, q: u64, n: u32)
    requires n > 0
    ensures Position(c, value, q, n) == Sampled(c, value, q, n)
  {
    hide Selection.Uniform, Selection.RequestRandomness, Selection.RequestString;
    Selection.BlockIsHashOfString(c.sha, value, c.vaultKey, q);
  }

  /** What request `q` draws from: the pool, and behind it the queue entries with a tag of at most `q`. */
  ghost function Candidates(s: State, q: u64): seq<u32> {
    Joined(s.pool, Waiting(s.pool.queue, q))
  }

  /** The place among the candidates that the pending request `q` draws. */
  ghost function DrawnPlace(c: Config, s: State, q: u64): (place: Option<u32>)
    requires q in s.requests
    ensures place.Some? ==> place.value < |Candidates(s, q)|
  {
    var n := |Candidates(s, q)|;
    if 0 < n <= U32_MAX then Sampled(c, s.requests[q].value, q, n) else None
  }

  /** A first mint: committed art, an escrow that covers the live cost, and a price within that cost. */
  function MintRule(c: Config, s: State, args: SettleArgs): Status {
    if args.mint.None? then Err(MintArgsMissing)
    else
      var leaf := Leaf.CheckLeaf(c.sha, Art(c), args.asset, args.mint.value.leaf, args.mint.value.proof);
      if leaf.Err? then leaf
      else if args.liveMintCost > Balance(s.escrow, args.seqNo) then Err(MintEscrowShort)
      else if args.mintSpent > args.liveMintCost then Err(CpiFailed)
      else Ok(())
  }

  ghost function SettleRule(c: Config, s: State, args: SettleArgs): Status {
    if args.seqNo !in s.requests then Err(AccountConstraint)
    else
      var r := s.requests[args.seqNo];
      if r.kind != args.kind then Err(WrongRequestKind)
      else if args.seqNo != s.vault.nextSettleSeq then Err(OutOfOrder)
      else if !r.revealed then Err(RandomnessNotRevealed)
      else if Waiting(s.pool.queue, args.seqNo) > 32 then Err(MergeBacklog)
      else
        var place := DrawnPlace(c, s, args.seqNo);
        if place.None? then Err(ComputeExceeded)
        else if args.asset != Candidates(s, args.seqNo)[place.value] then Err(WrongAsset)
        else
          var _ :- if args.asset in s.pool.minted then Ok(()) else MintRule(c, s, args);
          if (if r.kind == Capture then s.vault.totalCaptures else s.vault.totalRerolls) == U64_MAX then
            Err(MathOverflow)
          else
            Ok(())
  }

  /** The head is gone: its request, its lock and its escrow, which is paid out with `added` and less `taken`. */
  ghost predicate Closed(s: State, s': State, q: u64, taken: nat, added: nat) {
    && q in s.requests
    && var r := s.requests[q];
    && taken <= Balance(s.escrow, q)
    && s'.lamports == s.lamports[r.user := Balance(s.lamports, r.user) + Balance(s.escrow, q) + added - taken]
    && s'.requests == s.requests - {q} && s'.locks == s.locks - {r.randomness} && s'.escrow == s.escrow - {q}
    && s'.rand == s.rand && s'.slot == s.slot
    && s'.vault.nextSettleSeq == s.vault.nextSettleSeq + 1
  }

  /** The drawn asset goes to the user, the last candidate takes its place, and a hand-in joins the pool behind it. */
  ghost predicate Settled(c: Config, s: State, s': State, args: SettleArgs) {
    var q := args.seqNo;
    && q in s.requests && DrawnPlace(c, s, q).Some?
    && var r, slots, place := s.requests[q], Candidates(s, q), DrawnPlace(c, s, q).value;
       var first, n := args.asset !in s.pool.minted, |slots| - 1;
    && args.asset == slots[place]
    && Closed(s, s', q, if first then args.mintSpent else 0, if first then args.prefunded else 0)
    && s'.owner == s.owner[args.asset := r.user] && s'.tokens == s.tokens && s'.vaultTokens == s.vaultTokens
    && |s'.pool.slots| == (if r.kind == Reroll then n + 1 else n)
    && (forall k :: 0 <= k < n ==> s'.pool.slots[k] == if k == place then slots[n] else slots[k])
    && (r.kind == Reroll ==> s'.pool.slots[n] == r.handedIn)
    && s'.pool == PoolState(s.pool.cap, s'.pool.slots, s.pool.queue[Waiting(s.pool.queue, q)..],
                            s.pool.minted + {args.asset})
    && s'.vault.assetsOutside == s.vault.assetsOutside + 1
    && s'.vault.mintedCount == s.vault.mintedCount + (if first then 1 else 0)
    && (if r.kind == Capture then
          && s'.vault.pendingCaptures == s.vault.pendingCaptures - 1
          && s'.vault.totalCaptures == s.vault.totalCaptures + 1
          && s'.vault.pendingRerolls == s.vault.pendingRerolls && s'.vault.totalRerolls == s.vault.totalRerolls
        else
          && s'.vault.pendingRerolls == s.vault.pendingRerolls - 1
          && s'.vault.totalRerolls == s.vault.totalRerolls + 1
          && s'.vault.pendingCaptures == s.vault.pendingCaptures && s'.vault.totalCaptures == s.vault.totalCaptures)
    && s'.vault == s.vault.(nextSettleSeq := s'.vault.nextSettleSeq, assetsOutside := s'.vault.assetsOutside,
                            mintedCount := s'.vault.mintedCount,
                            pendingCaptures := s'.vault.pendingCaptures, totalCaptures := s'.vault.totalCaptures,
                            pendingRerolls := s'.vault.pendingRerolls, totalRerolls := s'.vault.totalRerolls)
  }

  lemma SettleHeadIs(c: Config, s: State, args: SettleArgs)
    requires Inv(c, s)
    ensures SettleHead(s, args)
            == if args.seqNo !in s.requests then Err(AccountConstraint)
               else if s.requests[args.seqNo].kind != args.kind then Err(WrongRequestKind)
               else if args.seqNo != s.vault.nextSettleSeq then Err(OutOfOrder)
               else if !s.requests[args.seqNo].revealed then Err(RandomnessNotRevealed)
               else Ok(s.requests[args.seqNo])
  {
    hide Inv, PoolOk, FifoOk, AssetsOk, ReserveOk, EscrowOk, CommitsOk, Mirrors;
    Runs.InvParts(c, s);
    if args.seqNo in s.requests {
      assert RequestOk(c, s.requests[args.seqNo], s.rand, s.locks);
    }
  }

  lemma CandidatesAreReady(c: Config, s: State, q: u64)
    requires Inv(c, s)
    ensures Waiting(s.pool.queue, q) == Eligible(s.pool.queue, q)
    ensures Ready(s.pool, q) == s.pool.(slots := Candidates(s, q), queue := s.pool.queue[Waiting(s.pool.queue, q)..])
  {
    hide Inv, Eligible, Waiting, Joined, SortedTags;
    PoolIsWf(c, s);
    WaitingIsEligible(s.pool.queue, q);
    JoinedIsAdvance(s.pool, Eligible(s.pool.queue, q));
  }

  /** The head is in range, and a re-roll's hand-in can be put back. */
  lemma HeadFacts(c: Config, s: State)
    requires Inv(c, s) && s.vault.nextSettleSeq in s.requests
    ensures s.requests[s.vault.nextSettleSeq].seqNo == s.vault.nextSettleSeq
    ensures s.requests[s.vault.nextSettleSeq].kind == Reroll ==> s.requests[s.vault.nextSettleSeq].handedIn < c.n
    ensures PoolOk(c, s.pool) && 0 < |Ready(s.pool, s.vault.nextSettleSeq).slots| <= U32_MAX
  {
    hide Inv, PoolOk, AssetsOk, ReserveOk, RandOk, EscrowOk, Ready;
    Runs.InvParts(c, s);
    History.FifoHead(s.vault, s.requests);
    HeadFindsAsset(c, s);
    if s.requests[s.vault.nextSettleSeq].kind == Reroll {
      HeadHandIn(c, s.vault, s.pool, s.requests, s.owner);
    }
  }

  lemma DrawErrs(c: Config, pool: PoolState, r: Request)
    requires PoolOk(c, pool) && 0 < |Ready(pool, r.seqNo).slots| <= U32_MAX
    ensures Eligible(pool.queue, r.seqNo) > 32 ==> Draw(c, pool, r) == Err(MergeBacklog)
    ensures Eligible(pool.queue, r.seqNo) <= 32 && Position(c, r.value, r.seqNo, |Ready(pool, r.seqNo).slots|).None?
            ==> Draw(c, pool, r) == Err(ComputeExceeded)
  {
    hide Position, Merge, Eligible, SortedTags, Ready;
    MergeForDraw(pool, r.seqNo);
  }

  lemma DrawIs(c: Config, s: State)
    requires Inv(c, s) && s.vault.nextSettleSeq in s.requests
    ensures Ready(s.pool, s.vault.nextSettleSeq).slots == Candidates(s, s.vault.nextSettleSeq)
    ensures var q := s.vault.nextSettleSeq;
            var r := s.requests[q];
            if Waiting(s.pool.queue, q) > 32 then Draw(c, s.pool, r) == Err(MergeBacklog)
            else if DrawnPlace(c, s, q).None? then Draw(c, s.pool, r) == Err(ComputeExceeded)
            else
              var place := DrawnPlace(c, s, q).value;
              Draw(c, s.pool, r) == Ok((AfterDraw(Ready(s.pool, q), place, r), Candidates(s, q)[place]))
  {
    hide Inv, Draw, Position, Sampled, Eligible, Ready, Waiting, Candidates, PoolOk, AfterDraw;
    var q := s.vault.nextSettleSeq;
    var r := s.requests[q];
    HeadFacts(c, s);
    CandidatesAreReady(c, s, q);
    PositionIsSampled(c, r.value, q, |Candidates(s, q)|);
    DrawErrs(c, s.pool, r);
    if Waiting(s.pool.queue, q) <= 32 && DrawnPlace(c, s, q).Some? {
      DrawSucceeds(c, s.pool, r);
      DrawShapes(c, s.pool, r);
    }
  }

  lemma DrawShapes(c: Config, pool: PoolState, r: Request)
    requires PoolOk(c, pool) && (r.kind == Reroll ==> r.handedIn < c.n) && Draw(c, pool, r).Ok?
    ensures var ready := Ready(pool, r.seqNo);
            && 0 < |ready.slots| <= U32_MAX && Position(c, r.value, r.seqNo, |ready.slots|).Some?
            && var pos := Position(c, r.value, r.seqNo, |ready.slots|).value;
               Draw(c, pool, r) == Ok((AfterDraw(ready, pos, r), ready.slots[pos]))
  {
    hide Draw, Position, Ready, AfterDraw, Wf, QueueInRange;
    DrawShape(c, pool, r);
  }

  /** Under the invariant a hand-over fails only for the reasons of a first mint. */
  lemma HandOverIs(c: Config, s: State, args: SettleArgs, after: PoolState)
    requires Inv(c, s) && args.seqNo in s.requests && s.requests[args.seqNo].seqNo == args.seqNo
    requires after.minted == s.pool.minted && after.cap == c.n && args.asset in Contents(s.pool)
    ensures var r := HandOver(c, s.(pool := after), s.requests[args.seqNo], args.asset, args);
            if args.asset in s.pool.minted || MintRule(c, s, args).Ok? then r.Ok?
            else r == Err(MintRule(c, s, args).error)
  {
    hide Inv, PoolOk, FifoOk, AssetsOk, Contents;
    Runs.InvParts(c, s);
    InvConfig(c, s);
    if args.asset in s.pool.minted || MintRule(c, s, args).Ok? {
      MintRuleIsReady(c, s, args);
      hide HandOver, MintRule, MintReady;
      HandOverSucceeds(c, s, args, after);
    } else {
      hide Leaf.CheckLeaf;
    }
  }

  lemma MintRuleIsReady(c: Config, s: State, args: SettleArgs)
    ensures MintRule(c, s, args).Ok? <==> MintReady(c, s, args)
  {
    hide Leaf.CheckLeaf;
  }

  /** Counting the head fails only when its lifetime counter is full. */
  lemma CountIs(c: Config, s: State, minted: u32)
    requires Inv(c, s) && s.vault.nextSettleSeq in s.requests
    ensures var r := s.requests[s.vault.nextSettleSeq];
            var v := CountSettled(s.vault.(mintedCount := minted), r);
            if (if r.kind == Capture then s.vault.totalCaptures else s.vault.totalRerolls) == U64_MAX then
              v == Err(MathOverflow)
            else
              v.Ok?
  {
    hide Inv;
    HeadNumberIs(c, s);
    PendingCounted(c, s);
  }

  lemma HeadNumberIs(c: Config, s: State)
    requires Inv(c, s) && s.vault.nextSettleSeq in s.requests
    ensures s.requests[s.vault.nextSettleSeq].seqNo == s.vault.nextSettleSeq
  {
    hide Inv, PoolOk, AssetsOk, ReserveOk, RandOk, EscrowOk;
    Runs.InvParts(c, s);
  }

  /** The rule from the draw on, for a revealed head with a small backlog. */
  lemma SettleTail(c: Config, s: State, args: SettleArgs)
    requires Inv(c, s) && args.seqNo in s.requests && args.seqNo == s.vault.nextSettleSeq
    requires Draw(c, s.pool, s.requests[args.seqNo]).Ok?
             && args.asset == Draw(c, s.pool, s.requests[args.seqNo]).value.1
    requires SettleHead(s, args) == Ok(s.requests[args.seqNo])
    ensures var r := s.requests[args.seqNo];
            if args.asset !in s.pool.minted && MintRule(c, s, args).Err? then
              Settle(c, s, args) == Err(MintRule(c, s, args).error)
            else if (if r.kind == Capture then s.vault.totalCaptures else s.vault.totalRerolls) == U64_MAX then
              Settle(c, s, args) == Err(MathOverflow)
            else
              Settle(c, s, args).Ok?
  {
    hide Inv, SettleHead, Draw, HandOver, CountSettled, MintRule, Contents, PoolOk, Ready, Position;
    var r := s.requests[args.seqNo];
    var after := Draw(c, s.pool, r).value.0;
    HeadFacts(c, s);
    HeadNumberIs(c, s);
    DrawShapes(c, s.pool, r);
    PickedShape(c, s, r);
    HandOverIs(c, s, args, after);
    if HandOver(c, s.(pool := after), r, args.asset, args).Ok? {
      HandOverShape(c, s.(pool := after), r, args.asset, args);
      CountIs(c, s, HandOver(c, s.(pool := after), r, args.asset, args).value.vault.mintedCount);
    }
  }

  lemma SettleRefuses(c: Config, s: State, args: SettleArgs)
    requires Inv(c, s)
    ensures var r := Settle(c, s, args);
            match SettleRule(c, s, args)
            case Ok(_) => r.Ok?
            case Err(e) => r == Err(e)
  {
    hide Inv, SettleHead, Draw, HandOver, CountSettled, MintRule, DrawnPlace, Candidates, Waiting, AfterDraw, Ready;
    SettleHeadIs(c, s, args);
    if SettleHead(s, args).Ok? {
      DrawIs(c, s);
      if Draw(c, s.pool, s.requests[args.seqNo]).Ok?
         && args.asset == Draw(c, s.pool, s.requests[args.seqNo]).value.1 {
        SettleTail(c, s, args);
        hide Settle;
      }
    }
  }

  lemma AfterDrawIs(ready: PoolState, place: nat, r: Request)
    requires place < |ready.slots|
    ensures var after, n := AfterDraw(ready, place, r), |ready.slots| - 1;
            && after == ready.(slots := after.slots) && |after.slots| == (if r.kind == Reroll then n + 1 else n)
            && (forall k :: 0 <= k < n ==> after.slots[k] == if k == place then ready.slots[n] else ready.slots[k])
            && (r.kind == Reroll ==> after.slots[n] == r.handedIn)
  {
  }

  /** The counters that settling moves. */
  lemma SettleCounters(c: Config, s: State, args: SettleArgs)
    requires Inv(c, s) && Settle(c, s, args).Ok? && args.seqNo in s.requests
    requires Draw(c, s.pool, s.requests[args.seqNo]).Ok?
             && Draw(c, s.pool, s.requests[args.seqNo]).value.0.minted == s.pool.minted
    ensures var v', r := Settle(c, s, args).value.vault, s.requests[args.seqNo];
            && v'.nextSettleSeq == s.vault.nextSettleSeq + 1
            && v'.assetsOutside == s.vault.assetsOutside + 1
            && v'.mintedCount == s.vault.mintedCount + (if args.asset in s.pool.minted then 0 else 1)
            && (if r.kind == Capture then
                  && v'.pendingCaptures == s.vault.pendingCaptures - 1 && v'.totalCaptures == s.vault.totalCaptures + 1
                  && v'.pendingRerolls == s.vault.pendingRerolls && v'.totalRerolls == s.vault.totalRerolls
                else
                  && v'.pendingRerolls == s.vault.pendingRerolls - 1 && v'.totalRerolls == s.vault.totalRerolls + 1
                  && v'.pendingCaptures == s.vault.pendingCaptures && v'.totalCaptures == s.vault.totalCaptures)
            && v' == s.vault.(nextSettleSeq := v'.nextSettleSeq, assetsOutside := v'.assetsOutside,
                              mintedCount := v'.mintedCount,
                              pendingCaptures := v'.pendingCaptures, totalCaptures := v'.totalCaptures,
                              pendingRerolls := v'.pendingRerolls, totalRerolls := v'.totalRerolls)
  {
    hide Inv, Draw, HandOver;
    var r := s.requests[args.seqNo];
    HandOverShape(c, s.(pool := Draw(c, s.pool, r).value.0), r, args.asset, args);
  }

  lemma SettleDoes(c: Config, s: State, args: SettleArgs)
    requires Inv(c, s) && SettleRule(c, s, args).Ok? && Settle(c, s, args).Ok?
    ensures Settled(c, s, Settle(c, s, args).value, args)
  {
    hide Inv, Settle, Draw, MintRule, DrawnPlace, Candidates, Waiting, AfterDraw, Ready, FifoOk, PoolOk, AssetsOk,
         ReserveOk, RandOk, EscrowOk;
    var q := args.seqNo;
    var r := s.requests[q];
    DrawIs(c, s);
    CandidatesAreReady(c, s, q);
    AfterDrawIs(Ready(s.pool, q), DrawnPlace(c, s, q).value, r);
    Runs.InvParts(c, s);
    SettleShape(c, s, args);
    Payments.SettleMoney(c, s, args);
    SettleCounters(c, s, args);
  }

  /**
   A settle call succeeds exactly for a revealed head with at most 32 entries to merge and the asset that its hash
   samples among the candidates, and changes nothing but this.
   */
  lemma SettleExactly(c: Config, s: State, args: SettleArgs)
    requires Inv(c, s)
    ensures var r := Apply(c, s, DoSettle(args));
            match SettleRule(c, s, args)
            case Ok(_) => r.Ok? && Settled(c, s, r.value, args)
            case Err(e) => r == Err(e)
  {
    hide Inv, Apply, Settle, SettleRule, Settled;
    CheckIsRedundant(c, s, DoSettle(args));
    SettleRefuses(c, s, args);
    if SettleRule(c, s, args).Ok? {
      SettleDoes(c, s, args);
    }
  }

  // ----- expiring

  function ExpireRule(s: State, q: u64, asset: u32): Status {
    if q !in s.requests then Err(AccountConstraint)
    else
      var r := s.requests[q];
      if q != s.vault.nextSettleSeq then Err(OutOfOrder)
      else if r.revealed then Err(RandomnessAlreadyRevealed)
      else if r.commits < 4 then Err(RecommitsRemaining)
      else if r.deadlineSlot + 216_000 > U64_MAX then Err(MathOverflow)
      else if s.slot <= r.deadlineSlot + 216_000 then Err(ExpiryNotReached)
      else if r.kind == Reroll && asset != r.handedIn then Err(WrongAsset)
      else if s.vault.totalExpired == U64_MAX then Err(MathOverflow)
      else Ok(())
  }

  /** The principal is back with the user: the tokens of a capture, the hand-in of a re-roll. */
  ghost predicate Expired(c: Config, s: State, s': State, q: u64) {
    && Closed(s, s', q, 0, 0)
    && var r := s.requests[q];
    && s'.pool == s.pool
    && (if r.kind == Capture then
          && c.ratio <= s.vaultTokens && s'.vaultTokens == s.vaultTokens - c.ratio
          && s'.tokens == s.tokens[r.user := Balance(s.tokens, r.user) + c.ratio] && s'.owner == s.owner
          && s'.vault.pendingCaptures == s.vault.pendingCaptures - 1
          && s'.vault.pendingRerolls == s.vault.pendingRerolls && s'.vault.assetsOutside == s.vault.assetsOutside
        else
          && s'.vaultTokens == s.vaultTokens && s'.tokens == s.tokens && s'.owner == s.owner[r.handedIn := r.user]
          && s'.vault.pendingRerolls == s.vault.pendingRerolls - 1
          && s'.vault.assetsOutside == s.vault.assetsOutside + 1
          && s'.vault.pendingCaptures == s.vault.pendingCaptures)
    && s'.vault.totalExpired == s.vault.totalExpired + 1
    && s'.vault == s.vault.(nextSettleSeq := s'.vault.nextSettleSeq, totalExpired := s'.vault.totalExpired,
                            pendingCaptures := s'.vault.pendingCaptures, pendingRerolls := s'.vault.pendingRerolls,
                            assetsOutside := s'.vault.assetsOutside)
  }

  lemma ExpirableIs(c: Config, s: State, q: u64)
    requires Inv(c, s)
    ensures ExpirableHead(s, q)
            == if q !in s.requests then Err(AccountConstraint)
               else
                 var r := s.requests[q];
                 if q != s.vault.nextSettleSeq then Err(OutOfOrder)
                 else if r.revealed then Err(RandomnessAlreadyRevealed)
                 else if r.commits < 4 then Err(RecommitsRemaining)
                 else if r.deadlineSlot + 216_000 > U64_MAX then Err(MathOverflow)
                 else if s.slot <= r.deadlineSlot + 216_000 then Err(ExpiryNotReached)
                 else Ok(r)
  {
    hide Inv, PoolOk, FifoOk, AssetsOk, ReserveOk, EscrowOk, CommitsOk;
    Runs.InvParts(c, s);
    if q in s.requests {
      assert RequestOk(c, s.requests[q], s.rand, s.locks);
    }
  }

  lemma ExpiryTail(c: Config, s: State, q: u64, asset: u32)
    requires Inv(c, s) && q in s.requests && ExpirableHead(s, q) == Ok(s.requests[q]) && q == s.vault.nextSettleSeq
    ensures var r := s.requests[q];
            if r.kind == Reroll && asset != r.handedIn then ExpireOne(c, s, q, asset) == Err(WrongAsset)
            else if s.vault.totalExpired == U64_MAX then ExpireOne(c, s, q, asset) == Err(MathOverflow)
            else ExpireOne(c, s, q, asset).Ok?
  {
    hide Inv, ExpirableHead;
    var r := s.requests[q];
    HeadNumberIs(c, s);
    if r.kind == Capture || asset == r.handedIn {
      PrincipalAvailable(c, s, asset);
      PendingCounted(c, s);
      hide ReturnPrincipal;
    }
  }

  lemma ExpiryDoes(c: Config, s: State, q: u64, asset: u32)
    requires Inv(c, s) && ExpireOne(c, s, q, asset).Ok?
    ensures Expired(c, s, ExpireOne(c, s, q, asset).value, q)
  {
    hide Inv, ExpireOne, PoolOk, AssetsOk, ReserveOk, RandOk, EscrowOk;
    Runs.InvParts(c, s);
    ExpireShape(c, s, q, asset);
    ExpiryCounters(c, s, q, asset);
  }

  lemma ExpiryCounters(c: Config, s: State, q: u64, asset: u32)
    requires ExpireOne(c, s, q, asset).Ok? && q in s.requests
    ensures var v' := ExpireOne(c, s, q, asset).value.vault;
            && v'.totalExpired == s.vault.totalExpired + 1
            && v' == s.vault.(nextSettleSeq := v'.nextSettleSeq, totalExpired := v'.totalExpired,
                              pendingCaptures := v'.pendingCaptures, pendingRerolls := v'.pendingRerolls,
                              assetsOutside := v'.assetsOutside)
  {
    hide ExpirableHead, ReturnPrincipal;
    Liveness.ReturnKeepsVault(c, s, ExpirableHead(s, q).value, asset);
  }

  /** An expire call succeeds exactly for an unrevealed head whose time is up, and changes nothing but this. */
  lemma ExpireExactly(c: Config, s: State, q: u64, asset: u32)
    requires Inv(c, s)
    ensures var r := Apply(c, s, DoExpire(q, asset));
            match ExpireRule(s, q, asset)
            case Ok(_) => r.Ok? && Expired(c, s, r.value, q)
            case Err(e) => r == Err(e)
  {
    hide Inv, Apply, ExpireOne, Expired;
    CheckIsRedundant(c, s, DoExpire(q, asset));
    ExpirableIs(c, s, q);
    if ExpirableHead(s, q).Ok? {
      ExpiryTail(c, s, q, asset);
    } else {
      ExpiryHeadErrs(c, s, q, asset);
    }
    if ExpireOne(c, s, q, asset).Ok? {
      ExpiryDoes(c, s, q, asset);
    }
  }

  lemma ExpiryHeadErrs(c: Config, s: State, q: u64, asset: u32)
    requires ExpirableHead(s, q).Err?
    ensures ExpireOne(c, s, q, asset) == Err(ExpirableHead(s, q).error)
  {
    hide ExpirableHead;
  }

  /** Group `g` must name request `q` with its own accounts, and that request must be able to expire now. */
  function GroupRule(s: State, g: Group, q: int): Status {
    if g.seqNo != q || g.seqNo !in s.requests then Err(ExpireBatchAccountMismatch)
    else
      var r := s.requests[g.seqNo];
      if g != Group(g.seqNo, r.user, r.randomness, r.randomness, r.user, g.seqNo, g.asset) then
        Err(ExpireBatchAccountMismatch)
      else if r.revealed then Err(RandomnessAlreadyRevealed)
      else if r.commits < 4 then Err(RecommitsRemaining)
      else if r.deadlineSlot + 216_000 > U64_MAX then Err(MathOverflow)
      else if s.slot <= r.deadlineSlot + 216_000 then Err(ExpiryNotReached)
      else if r.kind == Reroll && g.asset != r.handedIn then Err(WrongAsset)
      else Ok(())
  }

  /** One group of a batch, at the head of the queue. */
  lemma FirstGroupIs(c: Config, s: State, g: Group)
    requires Inv(c, s)
    ensures var rule := GroupRule(s, g, s.vault.nextSettleSeq);
            var r := ExpireOne(c, s, g.seqNo, g.asset);
            var fit := g.seqNo == s.vault.nextSettleSeq && AccountsFit(s, g);
            && (!fit ==> rule == Err(ExpireBatchAccountMismatch))
            && (fit ==> if rule.Err? then r == Err(rule.error)
                        else if s.vault.totalExpired == U64_MAX then r == Err(MathOverflow)
                        else r.Ok?)
  {
    hide Inv, ExpireOne, PoolOk, FifoOk, AssetsOk, ReserveOk, EscrowOk, Mirrors, CommitsOk;
    Runs.InvParts(c, s);
    if g.seqNo in s.requests {
      assert RequestOk(c, s.requests[g.seqNo], s.rand, s.locks);
      if g.seqNo == s.vault.nextSettleSeq {
        ExpirableIs(c, s, g.seqNo);
        if ExpirableHead(s, g.seqNo).Ok? {
          ExpiryTail(c, s, g.seqNo, g.asset);
        } else {
          ExpiryHeadErrs(c, s, g.seqNo, g.asset);
        }
      }
    }
  }

  /** Expiring the head leaves the requests behind it as they are. */
  lemma GroupsBehind(c: Config, s: State, q: u64, asset: u32, g: Group, p: int)
    requires Inv(c, s) && ExpireOne(c, s, q, asset).Ok? && p > s.vault.nextSettleSeq
    ensures GroupRule(ExpireOne(c, s, q, asset).value, g, p) == GroupRule(s, g, p)
  {
    hide Inv, ExpireOne;
    ExpiryDoes(c, s, q, asset);
    HeadOfExpiry(c, s, q, asset);
  }

  lemma HeadOfExpiry(c: Config, s: State, q: u64, asset: u32)
    requires Inv(c, s) && ExpireOne(c, s, q, asset).Ok?
    ensures q == s.vault.nextSettleSeq
  {
    hide Inv, ExpireOne, PoolOk, AssetsOk, ReserveOk, RandOk, EscrowOk;
    Runs.InvParts(c, s);
    ExpireShape(c, s, q, asset);
  }

  lemma ExpiryMoves(c: Config, s: State, q: u64, asset: u32)
    requires Inv(c, s) && ExpireOne(c, s, q, asset).Ok?
    ensures var v' := ExpireOne(c, s, q, asset).value.vault;
            v'.nextSettleSeq == s.vault.nextSettleSeq + 1 && v'.totalExpired == s.vault.totalExpired + 1
  {
    hide Inv, ExpireOne;
    ExpiryDoes(c, s, q, asset);
  }

  /** The groups name the requests from `q` on, and each of the first `k` may expire. */
  ghost predicate GroupsFit(s: State, groups: seq<Group>, q: int, k: nat)
    requires k <= |groups|
  {
    forall j :: 0 <= j < k ==> GroupRule(s, groups[j], q + j).Ok?
  }

  lemma {:induction false} GroupsExpire(c: Config, s: State, groups: seq<Group>, k: nat)
    requires Inv(c, s) && k <= |groups| && s.vault.totalExpired + k <= U64_MAX
    requires GroupsFit(s, groups, s.vault.nextSettleSeq, k)
    ensures k == |groups| ==> ExpireGroups(c, s, groups).Ok?
    ensures k < |groups| && GroupRule(s, groups[k], s.vault.nextSettleSeq + k).Err? ==>
              ExpireGroups(c, s, groups) == Err(GroupRule(s, groups[k], s.vault.nextSettleSeq + k).error)
    ensures k < |groups| && GroupRule(s, groups[k], s.vault.nextSettleSeq + k).Ok?
            && s.vault.totalExpired + k == U64_MAX ==>
              ExpireGroups(c, s, groups) == Err(MathOverflow)
    decreases k
  {
    hide Inv, ExpireOne, AccountsFit, GroupRule;
    if groups != [] {
      var g, rest, q := groups[0], groups[1..], s.vault.nextSettleSeq as int;
      FirstGroupIs(c, s, g);
      if k > 0 {
        assert GroupRule(s, groups[0], q + 0).Ok?;
        var s1 := ExpireOne(c, s, g.seqNo, g.asset).value;
        ExpireOneKeepsInv(c, s, g.seqNo, g.asset);
        ExpiryMoves(c, s, g.seqNo, g.asset);
        forall j | 0 <= j < |rest|
          ensures GroupRule(s1, rest[j], q + 1 + j) == GroupRule(s, groups[j + 1], q + (j + 1))
        {
          GroupsBehind(c, s, g.seqNo, g.asset, rest[j], q + 1 + j);
        }
        GroupsExpire(c, s1, rest, k - 1);
      }
    }
  }

  /**
   A batch succeeds exactly when it names one to seven requests from the head on, each with its own accounts, and every
   one of them may expire now; it ends as if they were expired one by one (`Progress.BatchIsIteration`).
   */
  lemma BatchSucceedsExactly(c: Config, s: State, count: nat, groups: seq<Group>)
    requires Inv(c, s)
    ensures Apply(c, s, DoExpireBatch(count, groups)).Ok?
            <==> && 1 <= count <= 7 && |groups| == count && s.vault.totalExpired + count <= U64_MAX
                 && GroupsFit(s, groups, s.vault.nextSettleSeq, count)
    ensures !(1 <= count <= 7 && |groups| == count) ==>
              Apply(c, s, DoExpireBatch(count, groups)) == Err(ExpireBatchInvalid)
  {
    hide Inv, Apply, ExpireGroups, GroupRule;
    CheckIsRedundant(c, s, DoExpireBatch(count, groups));
    if 1 <= count <= 7 && |groups| == count {
      var k := FirstMisfit(c, s, groups, 0);
      GroupsExpire(c, s, groups, k);
    }
  }

  /** The first group that stops the batch, or their number. */
  lemma FirstMisfit(c: Config, s: State, groups: seq<Group>, from: nat) returns (k: nat)
    requires from <= |groups| && GroupsFit(s, groups, s.vault.nextSettleSeq, from)
    requires s.vault.totalExpired + from <= U64_MAX
    ensures from <= k <= |groups| && GroupsFit(s, groups, s.vault.nextSettleSeq, k)
            && s.vault.totalExpired + k <= U64_MAX
    ensures k < |groups| ==>
              GroupRule(s, groups[k], s.vault.nextSettleSeq + k).Err? || s.vault.totalExpired + k == U64_MAX
    decreases |groups| - from
  {
    hide GroupRule;
    k := from;
    if from < |groups| && GroupRule(s, groups[from], s.vault.nextSettleSeq + from).Ok?
       && s.vault.totalExpired + from < U64_MAX {
      k := FirstMisfit(c, s, groups, from + 1);
    }
  }

  /** A batch of the right size fails with the reason of the first group that does not fit. */
  lemma BatchRefuses(c: Config, s: State, groups: seq<Group>, k: nat)
    requires Inv(c, s) && k < |groups| <= 7 && s.vault.totalExpired + k <= U64_MAX
    requires GroupsFit(s, groups, s.vault.nextSettleSeq, k)
    requires GroupRule(s, groups[k], s.vault.nextSettleSeq + k).Err?
    ensures Apply(c, s, DoExpireBatch(|groups|, groups))
            == Err(GroupRule(s, groups[k], s.vault.nextSettleSeq + k).error)
  {
    hide Inv, Apply, ExpireGroups, GroupRule;
    CheckIsRedundant(c, s, DoExpireBatch(|groups|, groups));
    GroupsExpire(c, s, groups, k);
  }
}
