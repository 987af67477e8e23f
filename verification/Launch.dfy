/** Launch parameters: which are accepted, and why no later amount can overflow. */
module Launch {
  import opened Base
  import opened Arithmetic

  const TOTAL_SUPPLY_WHOLE_TOKENS: u64 := 1_000_000_000
  const MAX_DECIMALS: nat := 9
  const MIN_COLLECTION_SIZE: u64 := 100
  const MAX_COLLECTION_SIZE: u64 := 10_000
  const MIN_FEE_LAMPORTS: u64 := 2_000_000
  const MAX_FEE_LAMPORTS: u64 := 10_000_000
  const MIN_GRADUATION_THRESHOLD_LAMPORTS: u64 := 10_000_000_000
  const MAX_GRADUATION_THRESHOLD_LAMPORTS: u64 := 100_000_000_000_000

  datatype LaunchError =
    | InvalidDecimals | RatioNotAllowed | ZeroCollectionSize | CollectionBelowMinimum | CollectionAboveCap
    | SolFeeOutOfRange | GraduationThresholdOutOfRange | MathOverflow | CollectionTooLargeForSupply

  datatype Outcome<+T> = Accepted(value: T) | Rejected(error: LaunchError) {
    predicate IsFailure() {
      Rejected?
    }

    function PropagateFailure<U>(): Outcome<U>
      requires Rejected?
    {
      Rejected(error)
    }

    function Extract(): T
      requires Accepted?
    {
      value
    }
  }

  datatype LaunchParams = LaunchParams(decimals: nat, ratio: u64, collectionSize: u64, threshold: u64)
  datatype Derived = Derived(totalSupplyBase: u64, ratioBase: u64, maxTokensInNftForm: u64, feeLamports: u64)

  function Require(condition: bool, error: LaunchError): Outcome<()> {
    if condition then Accepted(()) else Rejected(error)
  }

  function Checked(x: nat, error: LaunchError): (r: Outcome<u64>) {
    if x <= U64_MAX then Accepted(x) else Rejected(error)
  }

  function Pow10(k: nat): nat {
    if k == 0 then 1 else 10 * Pow10(k - 1)
  }

  predicate AllowedRatio(ratio: u64) {
    ratio == 50_000 || ratio == 100_000 || ratio == 200_000 || ratio == 500_000
    || ratio == 1_000_000 || ratio == 2_500_000 || ratio == 5_000_000
  }

  /** The flat fee table, one row per allowed ratio. */
  function FeeForRatio(ratio: u64): Option<u64> {
    if ratio == 50_000 then Some(2_000_000)
    else if ratio == 100_000 || ratio == 200_000 then Some(5_000_000)
    else if AllowedRatio(ratio) then Some(10_000_000)
    else None
  }

  function TierFee(ratio: u64): Option<u64> {
    match FeeForRatio(ratio)
    case Some(f) => if f != 0 && MIN_FEE_LAMPORTS <= f <= MAX_FEE_LAMPORTS then Some(f) else None
    case None => None
  }

  function CheckedFeeForRatio(ratio: u64): Outcome<u64> {
    var _ :- Require(FeeForRatio(ratio).Some?, RatioNotAllowed);
    var _ :- Require(TierFee(ratio).Some?, SolFeeOutOfRange);
    Accepted(TierFee(ratio).value)
  }

  function Validate(p: LaunchParams): Outcome<Derived> {
    var _ :- Require(p.decimals <= MAX_DECIMALS, InvalidDecimals);
    var _ :- Require(AllowedRatio(p.ratio), RatioNotAllowed);
    var _ :- Require(p.collectionSize >= 1, ZeroCollectionSize);
    var _ :- Require(p.collectionSize >= MIN_COLLECTION_SIZE, CollectionBelowMinimum);
    var _ :- Require(p.collectionSize <= MAX_COLLECTION_SIZE, CollectionAboveCap);
    var fee :- CheckedFeeForRatio(p.ratio);
    var _ :- Require(MIN_GRADUATION_THRESHOLD_LAMPORTS <= p.threshold <= MAX_GRADUATION_THRESHOLD_LAMPORTS,
                     GraduationThresholdOutOfRange);
    var scale :- Checked(Pow10(p.decimals), LaunchError.MathOverflow);
    var totalSupplyBase :- Checked(TOTAL_SUPPLY_WHOLE_TOKENS * scale, LaunchError.MathOverflow);
    var ratioBase :- Checked(Times(p.ratio, scale), LaunchError.MathOverflow);
    var _ :- Require(ratioBase != 0 && Remainder(totalSupplyBase, ratioBase) == 0, RatioNotAllowed);
    var maxTokens :- Checked(Times(ratioBase, p.collectionSize), CollectionTooLargeForSupply);
    var _ :- Require(maxTokens <= totalSupplyBase, CollectionTooLargeForSupply);
    Accepted(Derived(totalSupplyBase, ratioBase, maxTokens, fee))
  }

  function MaxCollectionSize(ratio: u64): Option<u64> {
    if AllowedRatio(ratio) then Some(Min(TOTAL_SUPPLY_WHOLE_TOKENS / ratio, MAX_COLLECTION_SIZE)) else None
  }

  /** The parameters a launch accepts, said without the arithmetic of `Validate`. */
  predicate Acceptable(p: LaunchParams) {
    && p.decimals <= MAX_DECIMALS
    && AllowedRatio(p.ratio)
    && MIN_GRADUATION_THRESHOLD_LAMPORTS <= p.threshold <= MAX_GRADUATION_THRESHOLD_LAMPORTS
    && MIN_COLLECTION_SIZE <= p.collectionSize <= MaxCollectionSize(p.ratio).value
  }

  lemma ScaleBound(decimals: nat)
    requires decimals <= MAX_DECIMALS
    ensures 1 <= Pow10(decimals) <= 1_000_000_000
  {
    assert Pow10(4) == 10_000;
    Pow10Grows(decimals, 9);
    assert Pow10(9) == 1_000_000_000 by {
      assert Pow10(7) == 10_000_000;
    }
  }

  lemma {:induction false} Pow10Grows(a: nat, b: nat)
    requires a <= b
    ensures 1 <= Pow10(a) <= Pow10(b)
    decreases b
  {
    if a < b {
      Pow10Grows(a, b - 1);
    } else if a > 0 {
      Pow10Grows(a - 1, b - 1);
    }
  }

  lemma ScaledDivides(a: nat, b: nat, scale: nat)
    requires a > 0 && scale > 0 && b % a == 0
    ensures a * scale > 0 && (b * scale) % (a * scale) == 0
  {
    AtLeastOnce(a, scale);
    ModUnique(b * scale, b / a, a * scale, 0);
  }

  /** All allowed ratios divide the supply. */
  lemma RatioDividesSupply(ratio: u64)
    requires AllowedRatio(ratio)
    ensures 0 < ratio <= TOTAL_SUPPLY_WHOLE_TOKENS && TOTAL_SUPPLY_WHOLE_TOKENS % ratio == 0
    ensures forall n: nat :: n * ratio <= TOTAL_SUPPLY_WHOLE_TOKENS <==> n <= TOTAL_SUPPLY_WHOLE_TOKENS / ratio
  {
  }

  lemma Amounts(p: LaunchParams)
    requires p.decimals <= MAX_DECIMALS && AllowedRatio(p.ratio)
    ensures var scale := Pow10(p.decimals);
            && 1 <= scale <= 1_000_000_000
            && TOTAL_SUPPLY_WHOLE_TOKENS * scale <= 1_000_000_000_000_000_000
            && 0 < p.ratio * scale <= TOTAL_SUPPLY_WHOLE_TOKENS * scale
            && (TOTAL_SUPPLY_WHOLE_TOKENS * scale) % (p.ratio * scale) == 0
            && (p.collectionSize * (p.ratio * scale) <= TOTAL_SUPPLY_WHOLE_TOKENS * scale
                <==> p.collectionSize <= TOTAL_SUPPLY_WHOLE_TOKENS / p.ratio)
            && (p.collectionSize <= TOTAL_SUPPLY_WHOLE_TOKENS / p.ratio
                <==> p.collectionSize * p.ratio <= TOTAL_SUPPLY_WHOLE_TOKENS)
  {
    hide Pow10, AllowedRatio;
    var scale := Pow10(p.decimals);
    ScaleBound(p.decimals);
    RatioDividesSupply(p.ratio);
    ScaledDivides(p.ratio, TOTAL_SUPPLY_WHOLE_TOKENS, scale);
    ScaledFit(p.collectionSize, p.ratio, TOTAL_SUPPLY_WHOLE_TOKENS, scale);
    ScaledFit(1, p.ratio, TOTAL_SUPPLY_WHOLE_TOKENS, scale);
  }

  /** The amounts as `Validate` computes them. */
  lemma SpecAmounts(p: LaunchParams)
    requires p.ratio > 0 && Pow10(p.decimals) > 0
    ensures var scale := Pow10(p.decimals);
            && Times(p.ratio, scale) == p.ratio * scale
            && Remainder(TOTAL_SUPPLY_WHOLE_TOKENS * scale, p.ratio * scale)
               == (TOTAL_SUPPLY_WHOLE_TOKENS * scale) % (p.ratio * scale)
            && Times(p.ratio * scale, p.collectionSize) == p.collectionSize * (p.ratio * scale)
  {
    hide Pow10, Times, Remainder;
    var scale := Pow10(p.decimals);
    TimesIsProduct(p.ratio, scale);
    RemainderIsMod(TOTAL_SUPPLY_WHOLE_TOKENS * scale, p.ratio * scale);
    TimesIsProduct(p.ratio * scale, p.collectionSize);
  }

  lemma ScaledFit(n: nat, a: nat, b: nat, scale: nat)
    requires scale > 0
    ensures n * (a * scale) <= b * scale <==> n * a <= b
  {
    ProductOrder(n * a, b, scale);
    Regroup(n, a, scale);
  }

  lemma Regroup(a: int, b: int, c: int)
    ensures a * (b * c) == a * b * c
  {
  }

  /** `Validate` accepts exactly the acceptable parameters; its overflow guards reject nothing else. */
  lemma ValidateAcceptsExactly(p: LaunchParams)
    ensures Validate(p).Accepted? <==> Acceptable(p)
    ensures Validate(p) != Rejected(LaunchError.MathOverflow)
    ensures Validate(p) == Rejected(CollectionTooLargeForSupply)
            ==> p.collectionSize * p.ratio > TOTAL_SUPPLY_WHOLE_TOKENS
  {
    hide Pow10, Times, Remainder;
    if p.decimals <= MAX_DECIMALS && AllowedRatio(p.ratio) {
      Amounts(p);
      SpecAmounts(p);
    }
  }

  /** Every accepted launch fits in its supply, and its supply is far below 2^64. */
  lemma AcceptedFitsSupply(p: LaunchParams)
    requires Validate(p).Accepted?
    ensures var d := Validate(p).value;
            && d.maxTokensInNftForm == Times(d.ratioBase, p.collectionSize)
            && 0 < d.ratioBase && d.maxTokensInNftForm <= d.totalSupplyBase <= 1_000_000_000_000_000_000
            && MIN_COLLECTION_SIZE <= p.collectionSize <= MAX_COLLECTION_SIZE
            && MIN_FEE_LAMPORTS <= d.feeLamports <= MAX_FEE_LAMPORTS
  {
    hide Pow10, Times, Remainder;
    Amounts(p);
    SpecAmounts(p);
  }

  // ----- the derived amounts

  lemma AcceptedAmounts(p: LaunchParams)
    requires Validate(p).Accepted?
    ensures var d := Validate(p).value;
            && d.totalSupplyBase == TOTAL_SUPPLY_WHOLE_TOKENS * Pow10(p.decimals)
            && d.ratioBase == p.ratio * Pow10(p.decimals)
            && d.maxTokensInNftForm == p.collectionSize * d.ratioBase
  {
    hide Pow10, Times, Remainder;
    Amounts(p);
    SpecAmounts(p);
  }

  /** Without decimals the amounts of an accepted launch are whole tokens. */
  lemma WholeTokens(p: LaunchParams)
    requires Validate(p).Accepted? && p.decimals == 0
    ensures Validate(p).value.totalSupplyBase == 1_000_000_000 && Validate(p).value.ratioBase == p.ratio
  {
    hide Times, Remainder;
    AcceptedAmounts(p);
  }

  /** One decimal more makes every amount of the same launch exactly ten times as large, and changes nothing else. */
  lemma DecimalsScale(p: LaunchParams)
    requires Validate(p).Accepted? && p.decimals < 9
    ensures var q := p.(decimals := p.decimals + 1);
            && Validate(q).Accepted?
            && Validate(q).value.totalSupplyBase == 10 * Validate(p).value.totalSupplyBase
            && Validate(q).value.ratioBase == 10 * Validate(p).value.ratioBase
            && Validate(q).value.maxTokensInNftForm == 10 * Validate(p).value.maxTokensInNftForm
            && Validate(q).value.feeLamports == Validate(p).value.feeLamports
  {
    var q := p.(decimals := p.decimals + 1);
    assert Pow10(q.decimals) == 10 * Pow10(p.decimals);
    hide Pow10, Times, Remainder, Validate;
    ValidateAcceptsExactly(p);
    ValidateAcceptsExactly(q);
    AcceptedAmounts(p);
    AcceptedAmounts(q);
    Regroup(p.ratio, 10, Pow10(p.decimals));
    Regroup(10, p.ratio, Pow10(p.decimals));
    Regroup(p.collectionSize, 10, Validate(p).value.ratioBase);
    Regroup(10, p.collectionSize, Validate(p).value.ratioBase);
    SameFee(p, q);
  }

  lemma SameFee(p: LaunchParams, q: LaunchParams)
    requires Validate(p).Accepted? && Validate(q).Accepted? && p.ratio == q.ratio
    ensures Validate(p).value.feeLamports == Validate(q).value.feeLamports
  {
    hide Pow10, Times, Remainder;
  }

  /** The launch table: for each allowed ratio the largest collection and the flat fee. */
  function Tier(ratio: u64): Option<(u64, u64)> {
    match ratio
    case 50_000 => Some((10_000, 2_000_000))
    case 100_000 => Some((10_000, 5_000_000))
    case 200_000 => Some((5_000, 5_000_000))
    case 500_000 => Some((2_000, 10_000_000))
    case 1_000_000 => Some((1_000, 10_000_000))
    case 2_500_000 => Some((400, 10_000_000))
    case 5_000_000 => Some((200, 10_000_000))
    case _ => None
  }

  /**
   What a launch is refused for, and what it costs, read off the table: no other guard rejects anything, and no
   other fee is charged.
   */
  lemma ValidateFollowsTable(p: LaunchParams)
    ensures var tier := Tier(p.ratio);
            match Validate(p)
            case Rejected(e) =>
              if p.decimals > 9 then e == InvalidDecimals
              else if tier.None? then e == RatioNotAllowed
              else if p.collectionSize == 0 then e == ZeroCollectionSize
              else if p.collectionSize < 100 then e == CollectionBelowMinimum
              else if p.collectionSize > 10_000 then e == CollectionAboveCap
              else if !(10_000_000_000 <= p.threshold <= 100_000_000_000_000) then e == GraduationThresholdOutOfRange
              else p.collectionSize > tier.value.0 && e == CollectionTooLargeForSupply
            case Accepted(d) =>
              && p.decimals <= 9 && tier.Some? && 100 <= p.collectionSize <= tier.value.0
              && 10_000_000_000 <= p.threshold <= 100_000_000_000_000
              && d.feeLamports == tier.value.1
  {
    hide Pow10, Times, Remainder;
    if p.decimals <= MAX_DECIMALS && AllowedRatio(p.ratio) {
      Amounts(p);
      SpecAmounts(p);
    }
  }
}
