/** Who pays whom: what each instruction costs and returns, and that no step creates or destroys tokens or lamports. */
module Payments {
  import opened Base
  import opened Pool
  import opened Vault
  import opened Accounting
  import opened Invariant
  import opened Preservation
  import History
  import Leaf
  import Runs

  // ----- totals

  ghost function Total<K(!new)>(m: map<K, nat>): nat
    decreases m.Keys
  {
    if m == map[] then 0
    else
      var k :| k in m;
      m[k] + Total(m - {k})
  }

  lemma {:induction false} TotalWithout<K(!new)>(m: map<K, nat>, k: K)
    ensures Total(m) == Balance(m, k) + Total(m - {k})
    decreases m.Keys
  {
    if k !in m {
      assert m - {k} == m;
    } else {
      var j :| j in m && Total(m) == m[j] + Total(m - {j});
      if j != k {
        TotalWithout(m - {j}, k);
        TotalWithout(m - {k}, j);
        assert m - {j} - {k} == m - {k} - {j};
      }
    }
  }

  lemma TotalWith<K(!new)>(m: map<K, nat>, k: K, amount: nat)
    ensures Total(m[k := amount]) == Total(m) - Balance(m, k) + amount
  {
    TotalWithout(m, k);
    TotalWithout(m[k := amount], k);
    assert m[k := amount] - {k} == m - {k};
  }

  lemma TotalAfterCredit<K(!new)>(m: map<K, nat>, k: K, amount: nat)
    ensures Total(Credit(m, k, amount)) == Total(m) + amount
  {
    TotalWith(m, k, Balance(m, k) + amount);
  }

  lemma TotalAfterDebit<K(!new)>(m: map<K, nat>, k: K, amount: nat)
    requires Debit(m, k, amount).Ok?
    ensures Total(Debit(m, k, amount).value) == Total(m) - amount
  {
    TotalWith(m, k, Balance(m, k) - amount);
  }

  /** All tokens: the users' and the vault's. */
  ghost function Tokens(s: State): nat {
    Total(s.tokens) + s.vaultTokens
  }

  /** All lamports: the wallets' and the mint escrows'. */
  ghost function Lamports(s: State): nat {
    Total(s.lamports) + Total(s.escrow)
  }

  /** A settlement that mints its asset. */
  ghost predicate FirstMint(c: Config, s: State, step: Step) {
    step.DoSettle? && step.args.asset !in s.pool.minted && Apply(c, s, step).Ok?
  }

  /** What a step spends on minting: it leaves the modelled accounts for the asset program. */
  ghost function MintCost(c: Config, s: State, step: Step): nat {
    if FirstMint(c, s, step) then step.args.mintSpent else 0
  }

  /** Lamports that come in from outside: sent to an escrow, or found at the address of a new asset. */
  ghost function Prefunded(c: Config, s: State, step: Step): nat {
    if step.Prefund? then step.amount else if FirstMint(c, s, step) then step.args.prefunded else 0
  }

  // ----- settling

  /** What the mint takes from the escrow and adds to it. */
  function Taken(minted: set<u32>, args: SettleArgs): nat {
    if args.asset in minted then 0 else args.mintSpent
  }

  function Added(minted: set<u32>, args: SettleArgs): nat {
    if args.asset in minted then 0 else args.prefunded
  }

  lemma MintMoney(c: Config, s: State, r: Request, args: SettleArgs)
    requires MintAsset(c, s, r, args.asset, args).Ok?
    ensures var s' := MintAsset(c, s, r, args.asset, args).value;
            && args.mintSpent <= Balance(s.escrow, r.seqNo) && args.mintSpent <= args.liveMintCost
            && Balance(s'.escrow, r.seqNo) == Balance(s.escrow, r.seqNo) + args.prefunded - args.mintSpent
            && s'.escrow - {r.seqNo} == s.escrow - {r.seqNo}
            && s'.lamports == s.lamports && s'.requests == s.requests && s'.locks == s.locks
  {
    hide Leaf.CheckLeaf, MarkMinted;
  }

  lemma HandOverMoney(c: Config, s: State, r: Request, args: SettleArgs)
    requires HandOver(c, s, r, args.asset, args).Ok?
    ensures var s' := HandOver(c, s, r, args.asset, args).value;
            var taken, added := Taken(s.pool.minted, args), Added(s.pool.minted, args);
            && taken <= Balance(s.escrow, r.seqNo) && taken <= args.liveMintCost
            && Balance(s'.escrow, r.seqNo) == Balance(s.escrow, r.seqNo) + added - taken
            && s'.escrow - {r.seqNo} == s.escrow - {r.seqNo}
            && s'.lamports == s.lamports && s'.requests == s.requests && s'.locks == s.locks
  {
    hide MintAsset;
    if args.asset !in s.pool.minted {
      MintMoney(c, s, r, args);
    }
  }

  /** Settling moves the asset and returns what minting left of the escrow. */
  lemma SettleMoney(c: Config, s: State, args: SettleArgs)
    requires Inv(c, s) && Settle(c, s, args).Ok?
    ensures args.seqNo in s.requests
    ensures var s', r := Settle(c, s, args).value, s.requests[args.seqNo];
            var taken, added := Taken(s.pool.minted, args), Added(s.pool.minted, args);
            && s'.owner == s.owner[args.asset := r.user]
            && s'.tokens == s.tokens && s'.vaultTokens == s.vaultTokens
            && taken <= Balance(s.escrow, args.seqNo) && taken <= args.liveMintCost
            && s'.lamports == Credit(s.lamports, r.user, Balance(s.escrow, args.seqNo) + added - taken)
            && s'.escrow == s.escrow - {args.seqNo}
  {
    hide Inv, Draw, HandOver, PoolOk, AssetsOk, ReserveOk, RandOk, EscrowOk, ConfigOk;
    Runs.InvParts(c, s);
    SettleShape(c, s, args);
    var r := s.requests[args.seqNo];
    if r.kind == Reroll {
      HeadHandIn(c, s.vault, s.pool, s.requests, s.owner);
    }
    History.DrawMinted(c, s, r);
    HandOverMoney(c, s.(pool := Draw(c, s.pool, r).value.0), r, args);
  }

  // ----- every step

  lemma RequestMoney(c: Config, s: State, paid: State, user: Key, liveMintCost: nat)
    requires PayLamports(c, s, user, liveMintCost) == Ok(paid)
    ensures paid == s.(lamports := paid.lamports, escrow := paid.escrow)
    ensures Lamports(paid) == Lamports(s)
  {
    hide Total;
    TotalAfterDebit(s.lamports, user, c.fee);
    var m := Debit(s.lamports, user, c.fee).value;
    TotalAfterCredit(m, c.feeRecipient, c.fee);
    m := Credit(m, c.feeRecipient, c.fee);
    TotalAfterDebit(m, user, MINT_ESCROW_LAMPORTS);
    TotalAfterCredit(s.escrow, s.vault.nextSeq, MINT_ESCROW_LAMPORTS);
  }

  lemma FinishMoney(c: Config, s: State, kind: Kind, user: Key, handedIn: u32, env: CommitEnv)
    requires FinishRequest(c, s, kind, user, handedIn, env).Ok?
    ensures var s' := FinishRequest(c, s, kind, user, handedIn, env).value;
            s'.tokens == s.tokens && s'.vaultTokens == s.vaultTokens && s'.lamports == s.lamports
              && s'.escrow == s.escrow && s'.owner == s.owner
            && s'.pool == s.pool
  {
    hide Commit;
  }

  lemma CaptureConserves(c: Config, s: State, user: Key, liveMintCost: nat, env: CommitEnv)
    requires RequestCapture(c, s, user, liveMintCost, env).Ok?
    ensures var s' := RequestCapture(c, s, user, liveMintCost, env).value;
            Tokens(s') == Tokens(s) && Lamports(s') == Lamports(s)
  {
    hide Total, CheckCanRequest, PayLamports, FinishRequest;
    TotalAfterDebit(s.tokens, user, c.ratio);
    var s1 := s.(tokens := Debit(s.tokens, user, c.ratio).value, vaultTokens := s.vaultTokens + c.ratio);
    var s2 := PayLamports(c, s1, user, liveMintCost).value;
    RequestMoney(c, s1, s2, user, liveMintCost);
    FinishMoney(c, s2, Capture, user, NO_HANDED_IN, env);
  }

  lemma RerollConserves(c: Config, s: State, user: Key, index: u32, liveMintCost: nat, env: CommitEnv)
    requires RequestReroll(c, s, user, index, liveMintCost, env).Ok?
    ensures var s' := RequestReroll(c, s, user, index, liveMintCost, env).value;
            Tokens(s') == Tokens(s) && Lamports(s') == Lamports(s)
  {
    hide Total, CheckCanRequest, PayLamports, FinishRequest;
    var s1 := s.(owner := Transfer(s.owner, index, user, c.authority).value);
    var s2 := PayLamports(c, s1, user, liveMintCost).value;
    RequestMoney(c, s1, s2, user, liveMintCost);
    FinishMoney(c, s2, Reroll, user, index, env);
  }

  lemma CloseConserves(s: State, r: Request, taken: nat, added: nat, lamports: map<Key, nat>, escrow: map<u64, nat>)
    requires taken <= Balance(s.escrow, r.seqNo) && escrow == s.escrow - {r.seqNo}
    requires lamports == Credit(s.lamports, r.user, Balance(s.escrow, r.seqNo) + added - taken)
    ensures Total(lamports) + Total(escrow) + taken == Lamports(s) + added
  {
    hide Total;
    TotalAfterCredit(s.lamports, r.user, Balance(s.escrow, r.seqNo) + added - taken);
    TotalWithout(s.escrow, r.seqNo);
  }

  lemma ExpireConserves(c: Config, s: State, seqNo: u64, asset: u32)
    requires Inv(c, s) && ExpireOne(c, s, seqNo, asset).Ok?
    ensures var s' := ExpireOne(c, s, seqNo, asset).value; Tokens(s') == Tokens(s) && Lamports(s') == Lamports(s)
  {
    hide Inv, Total, ExpireOne, PoolOk, AssetsOk, ReserveOk, RandOk, EscrowOk, ConfigOk, FifoOk;
    Runs.InvParts(c, s);
    ExpireShape(c, s, seqNo, asset);
    var s' := ExpireOne(c, s, seqNo, asset).value;
    var r := s.requests[s.vault.nextSettleSeq];
    CloseConserves(s, r, 0, 0, s'.lamports, s'.escrow);
    TotalAfterCredit(s.tokens, r.user, c.ratio);
  }

  lemma {:induction false} GroupsConserve(c: Config, s: State, groups: seq<Group>)
    requires Inv(c, s) && ExpireGroups(c, s, groups).Ok?
    ensures var s' := ExpireGroups(c, s, groups).value; Tokens(s') == Tokens(s) && Lamports(s') == Lamports(s)
    decreases |groups|
  {
    hide Inv, Total, ExpireOne, Tokens, Lamports;
    if groups != [] {
      var g := groups[0];
      ExpireConserves(c, s, g.seqNo, g.asset);
      ExpireOneKeepsInv(c, s, g.seqNo, g.asset);
      GroupsConserve(c, ExpireOne(c, s, g.seqNo, g.asset).value, groups[1..]);
    }
  }

  lemma SettleConserves(c: Config, s: State, args: SettleArgs)
    requires Inv(c, s) && Settle(c, s, args).Ok?
    ensures var s' := Settle(c, s, args).value;
            && Tokens(s') == Tokens(s)
            && Lamports(s') + Taken(s.pool.minted, args) == Lamports(s) + Added(s.pool.minted, args)
  {
    hide Inv, Total, Settle;
    SettleMoney(c, s, args);
    RequestNumber(c, s, args);
    var s', r := Settle(c, s, args).value, s.requests[args.seqNo];
    CloseConserves(s, r, Taken(s.pool.minted, args), Added(s.pool.minted, args), s'.lamports, s'.escrow);
  }

  lemma RequestNumber(c: Config, s: State, args: SettleArgs)
    requires Inv(c, s) && args.seqNo in s.requests
    ensures s.requests[args.seqNo].seqNo == args.seqNo
  {
    hide PoolOk, AssetsOk, ReserveOk, EscrowOk, ConfigOk, Solvent;
  }

  lemma UnwrapConserves(c: Config, s: State, user: Key, index: u32)
    requires Unwrap(c, s, user, index).Ok?
    ensures var s' := Unwrap(c, s, user, index).value; Tokens(s') == Tokens(s) && Lamports(s') == Lamports(s)
  {
    hide Total, Unwrap, IncomingPush;
    UnwrapShape(c, s, user, index);
    TotalAfterCredit(s.tokens, user, c.ratio);
  }

  /** The steps that move no token and no lamport. */
  lemma OthersConserve(c: Config, s: State, step: Step)
    requires Core(c, s, step).Ok?
    requires step.DoOpen? || step.DoReveal? || step.DoRecommit? || step.DoMerge? || step.DoInitRandomness?
             || step.Tick? || step.MoveAsset? || step.BurnAsset? || step.OtherRandomness?
    ensures var s' := Core(c, s, step).value;
            s'.tokens == s.tokens && s'.vaultTokens == s.vaultTokens && s'.lamports == s.lamports
              && s'.escrow == s.escrow
  {
    hide Commit, Merge, UnrevealedAccount, OverdueRequest;
  }

  /** Every step but payments that have nothing to do with the vault. */
  predicate Closed(step: Step) {
    !step.OtherBalances?
  }

  /** Gifts of tokens and lamports from outside. */
  lemma GiftsAddUp(c: Config, s: State, step: Step)
    requires (step.Donate? || step.Prefund?) && Core(c, s, step).Ok?
    ensures var s' := Core(c, s, step).value;
            && Tokens(s') == Tokens(s) + Runs.DonatedBy(step)
            && Lamports(s') == Lamports(s) + (if step.Prefund? then step.amount else 0)
  {
    hide Total, RequestCapture, RequestReroll, Reveal, Recommit, Settle, ExpireOne, ExpireBatch, Unwrap, MergeIncoming,
         OpenVault, InitRandomness;
    if step.Prefund? {
      TotalAfterCredit(s.escrow, step.seqNo, step.amount);
    }
  }

  lemma CoreConserves(c: Config, s: State, step: Step)
    requires Inv(c, s) && Closed(step) && Core(c, s, step).Ok?
    ensures var s' := Core(c, s, step).value;
            && Tokens(s') == Tokens(s) + Runs.DonatedBy(step)
            && Lamports(s') + MintCost(c, s, step) == Lamports(s) + Prefunded(c, s, step)
  {
    hide Inv, RequestCapture, RequestReroll, Settle, ExpireOne, ExpireGroups, Unwrap, Recommit, Reveal, MergeIncoming,
         OpenVault, InitRandomness, Outside, Check;
    CheckIsRedundant(c, s, step);
    match step
    case DoCapture(user, liveMintCost, env) => CaptureConserves(c, s, user, liveMintCost, env);
    case DoReroll(user, index, liveMintCost, env) => RerollConserves(c, s, user, index, liveMintCost, env);
    case DoSettle(args) => SettleConserves(c, s, args);
    case DoExpire(seqNo, asset) => ExpireConserves(c, s, seqNo, asset);
    case DoExpireBatch(count, groups) => GroupsConserve(c, s, groups);
    case DoUnwrap(user, index) => UnwrapConserves(c, s, user, index);
    case Donate(_) => GiftsAddUp(c, s, step);
    case Prefund(_, _) => GiftsAddUp(c, s, step);
    case _ => OthersConserve(c, s, step);
  }

  /** What a run spends on minting. */
  ghost function MintCosts(c: Config, s: State, steps: seq<Step>): nat
    decreases |steps|
  {
    if steps == [] then 0 else MintCost(c, s, steps[0]) + MintCosts(c, Next(c, s, steps[0]), steps[1..])
  }

  ghost function AllPrefunded(c: Config, s: State, steps: seq<Step>): nat
    decreases |steps|
  {
    if steps == [] then 0 else Prefunded(c, s, steps[0]) + AllPrefunded(c, Next(c, s, steps[0]), steps[1..])
  }

  /**
   Conservation: over a run the tokens change by the donations alone, and the lamports by what is sent in advance
   and by what first mints cost.
   */
  lemma {:induction false} Conserved(c: Config, s: State, steps: seq<Step>)
    requires Inv(c, s) && forall k :: 0 <= k < |steps| ==> Closed(steps[k])
    ensures Tokens(Exec(c, s, steps)) == Tokens(s) + Runs.Donated(steps)
    ensures Lamports(Exec(c, s, steps)) + MintCosts(c, s, steps) == Lamports(s) + AllPrefunded(c, s, steps)
    decreases |steps|
  {
    hide Inv, Core, Check, Tokens, Lamports, Closed, FirstMint, Runs.DonatedBy;
    if steps != [] {
      CheckIsRedundant(c, s, steps[0]);
      NextKeepsInv(c, s, steps[0]);
      if Core(c, s, steps[0]).Ok? {
        CoreConserves(c, s, steps[0]);
      } else {
        NothingMoves(c, s, steps[0]);
      }
      assert forall k :: 0 <= k < |steps[1..]| ==> steps[1..][k] == steps[k + 1];
      Conserved(c, Next(c, s, steps[0]), steps[1..]);
    }
  }

  lemma NothingMoves(c: Config, s: State, step: Step)
    requires Core(c, s, step).Err?
    ensures MintCost(c, s, step) == 0 && Prefunded(c, s, step) == 0 && Runs.DonatedBy(step) == 0
  {
  }

  // ----- what each user gets

  /**
   A settlement gives the user of the request the drawn asset and what is left of the mint escrow: all of it when the
   asset exists already; otherwise all but at most the present cost of a mint, and what was sent to the asset's address
   in advance on top. It touches no token.
   */
  lemma SettlementDelivers(c: Config, s: State, args: SettleArgs)
    requires Inv(c, s) && Settle(c, s, args).Ok?
    ensures args.seqNo in s.requests
    ensures var s', r := Settle(c, s, args).value, s.requests[args.seqNo];
            var taken, added := Taken(s.pool.minted, args), Added(s.pool.minted, args);
            && s'.owner == s.owner[args.asset := r.user]
            && Balance(s'.lamports, r.user)
               == Balance(s.lamports, r.user) + Balance(s.escrow, args.seqNo) + added - taken
            && taken <= args.liveMintCost && Balance(s.escrow, args.seqNo) >= MINT_ESCROW_LAMPORTS
            && args.seqNo !in s'.escrow && args.seqNo !in s'.requests
            && s'.tokens == s.tokens && s'.vaultTokens == s.vaultTokens
  {
    hide Inv, Settle;
    SettleMoney(c, s, args);
    SettleGone(c, s, args);
    EscrowFunded(c, s, args.seqNo);
  }

  lemma EscrowFunded(c: Config, s: State, q: u64)
    requires Inv(c, s) && q in s.requests
    ensures Balance(s.escrow, q) >= MINT_ESCROW_LAMPORTS
  {
    hide PoolOk, FifoOk, AssetsOk, ReserveOk, RandOk, Solvent, ConfigOk;
  }

  lemma SettleGone(c: Config, s: State, args: SettleArgs)
    requires Inv(c, s) && Settle(c, s, args).Ok?
    ensures args.seqNo !in Settle(c, s, args).value.requests
  {
    hide Inv, Settle, Draw, PoolOk, AssetsOk, ReserveOk, RandOk, EscrowOk, ConfigOk;
    Runs.InvParts(c, s);
    SettleShape(c, s, args);
  }

  /**
   An expiry returns the principal, either exactly `ratio` tokens or the very asset handed in, and the whole mint
   escrow.
   */
  lemma ExpiryRefunds(c: Config, s: State, seqNo: u64, asset: u32)
    requires Inv(c, s) && ExpireOne(c, s, seqNo, asset).Ok?
    ensures seqNo in s.requests
    ensures var s', r := ExpireOne(c, s, seqNo, asset).value, s.requests[seqNo];
            && Balance(s'.lamports, r.user) == Balance(s.lamports, r.user) + Balance(s.escrow, seqNo)
            && Balance(s.escrow, seqNo) >= MINT_ESCROW_LAMPORTS
            && seqNo !in s'.escrow && seqNo !in s'.requests
            && (r.kind == Capture
                ==> Balance(s'.tokens, r.user) == Balance(s.tokens, r.user) + c.ratio && s'.owner == s.owner)
            && (r.kind == Reroll ==> s'.owner == s.owner[r.handedIn := r.user] && s'.tokens == s.tokens)
  {
    hide Inv, ExpireOne, PoolOk, AssetsOk, ReserveOk, RandOk, ConfigOk;
    Runs.InvParts(c, s);
    ExpireShape(c, s, seqNo, asset);
  }

  /** A capture costs its user exactly `ratio` tokens, the fee and the mint escrow. */
  lemma CaptureCosts(c: Config, s: State, user: Key, liveMintCost: nat, env: CommitEnv)
    requires RequestCapture(c, s, user, liveMintCost, env).Ok?
    ensures var s' := RequestCapture(c, s, user, liveMintCost, env).value;
            && Balance(s'.tokens, user) == Balance(s.tokens, user) - c.ratio
               && s'.vaultTokens == s.vaultTokens + c.ratio
            && Balance(s'.lamports, user)
               == Balance(s.lamports, user) - MINT_ESCROW_LAMPORTS - (if user == c.feeRecipient then 0 else c.fee)
            && (user != c.feeRecipient
                ==> Balance(s'.lamports, c.feeRecipient) == Balance(s.lamports, c.feeRecipient) + c.fee)
            && Balance(s'.escrow, s.vault.nextSeq) == Balance(s.escrow, s.vault.nextSeq) + MINT_ESCROW_LAMPORTS
            && s'.owner == s.owner && s'.pool == s.pool
  {
    hide CheckCanRequest, FinishRequest;
    var s1 := s.(tokens := Debit(s.tokens, user, c.ratio).value, vaultTokens := s.vaultTokens + c.ratio);
    var s2 := PayLamports(c, s1, user, liveMintCost).value;
    FinishMoney(c, s2, Capture, user, NO_HANDED_IN, env);
  }

  /** A re-roll costs its user the asset, the fee and the mint escrow, but no token. */
  lemma RerollCosts(c: Config, s: State, user: Key, index: u32, liveMintCost: nat, env: CommitEnv)
    requires RequestReroll(c, s, user, index, liveMintCost, env).Ok?
    ensures var s' := RequestReroll(c, s, user, index, liveMintCost, env).value;
            && index in s.owner && s.owner[index] == user && s'.owner == s.owner[index := c.authority]
            && Balance(s'.lamports, user)
               == Balance(s.lamports, user) - MINT_ESCROW_LAMPORTS - (if user == c.feeRecipient then 0 else c.fee)
            && (user != c.feeRecipient
                ==> Balance(s'.lamports, c.feeRecipient) == Balance(s.lamports, c.feeRecipient) + c.fee)
            && Balance(s'.escrow, s.vault.nextSeq) == Balance(s.escrow, s.vault.nextSeq) + MINT_ESCROW_LAMPORTS
            && s'.tokens == s.tokens && s'.vaultTokens == s.vaultTokens && s'.pool == s.pool
  {
    hide CheckCanRequest, FinishRequest;
    var s1 := s.(owner := Transfer(s.owner, index, user, c.authority).value);
    var s2 := PayLamports(c, s1, user, liveMintCost).value;
    FinishMoney(c, s2, Reroll, user, index, env);
  }
}
