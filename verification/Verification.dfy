/** The payment verification engine (app/domain/payments/verification.py): whether an
    observed transfer may be credited to an expectation, and which of several
    candidates answers it best. */
module Verification {
  import opened Wrappers
  import opened Rounding
  import opened Decimals
  import opened Money

  datatype Network =
    | Trc20 | Bep20 | Erc20 | Ton | Sol | Avaxc | Arbitrum | Polygon | Btc | Ltc | ExchangeInternal

  datatype Outcome =
    | VerifiedOutcome | NotFound | PendingConfirmations | UnderpaidOutcome | OverpaidOutcome | WrongNetwork | WrongAsset
    | WrongReceiver | Duplicate | FailedTransaction | OutsideWindow | ProviderError | Unsupported | MemoMismatch
  {
    /** Money likely arrived but cannot be credited without a human. */
    predicate NeedsReview() {
      this in {UnderpaidOutcome, OverpaidOutcome, WrongNetwork, WrongAsset, WrongReceiver, Duplicate, OutsideWindow,
               MemoMismatch, Unsupported}
    }
  }

  /** Empty strings stand for absent texts, as the truth tests of the source treat them. */
  datatype Expectation = Expectation(
    network: Network, asset: string, assetDecimals: int, expectedAmount: Decimal, expectedUnits: int,
    destination: string, tokenContract: string, memo: string, requiredConfirmations: int,
    createdAt: int, expiresAt: int)

  /** What makes a transfer one and the same: provider, network, normalised id, index. */
  datatype Transfer = Transfer(provider: nat, network: Network, externalId: string, logIndex: int)

  datatype Observed = Observed(
    transfer: Transfer, network: Network, asset: string, amountUnits: int, decimals: int, toAddress: string,
    toAddressNormalized: string, successful: bool, tokenContract: string, memo: string, reference: string,
    confirmations: int, timestamp: int)
  {
    /** The amount for people, derived from the authoritative base units. */
    function Amount(): Decimal {
      FromBaseUnits(amountUnits, decimals)
    }
  }

  datatype Policy = Policy(underpaymentTolerance: Decimal, overpaymentTolerance: Decimal, lateGrace: int)

  datatype Decision = Decision(outcome: Outcome, missingConfirmations: int)

  // --------------------------------------------------------------- texts

  function LowerChar(c: char): char {
    if 'A' <= c <= 'Z' then c - 'A' + 'a' else c
  }

  function UpperChar(c: char): char {
    if 'a' <= c <= 'z' then c - 'a' + 'A' else c
  }

  function Lower(s: string): string {
    seq(|s|, i requires 0 <= i < |s| => LowerChar(s[i]))
  }

  function Upper(s: string): string {
    seq(|s|, i requires 0 <= i < |s| => UpperChar(s[i]))
  }

  function Strip(s: string): string {
    if s != "" && s[0] in " \t\n\r" then Strip(s[1..])
    else if s != "" && s[|s| - 1] in " \t\n\r" then Strip(s[..|s| - 1])
    else s
  }

  function Or(s: string, fallback: string): string {
    if s != "" then s else fallback
  }

  function UrlSafeChar(c: char): char {
    if c == '+' then '-' else if c == '/' then '_' else c
  }

  function UrlSafe(s: string): string {
    seq(|s|, i requires 0 <= i < |s| => UrlSafeChar(s[i]))
  }

  /** A comparison-safe form of an address: hex and Bech32 addresses fold case, TON
      addresses use one base64 alphabet, all others are only stripped. */
  function NormalizeAddress(address: string, network: Network): string {
    var value := Strip(address);
    if network in {Bep20, Erc20, Avaxc, Arbitrum, Polygon} || "0x" <= value then Lower(value)
    else if network == Ton then UrlSafe(value)
    else if network in {Btc, Ltc} && ("bc1" <= Lower(value) || "ltc1" <= Lower(value) || "tb1" <= Lower(value))
    then Lower(value)
    else value
  }

  // -------------------------------------------------------------- checks

  /** The nine checks, in the order the engine makes them. */
  datatype Check =
    | Succeeded | OnNetwork | OfAsset | OfContract | ToReceiver | WithMemo | OfAmount | InWindow | Confirmed

  function AmountVerdict(e: Expectation, tx: Observed, policy: Policy): Result<AmountMatch, MoneyError> {
    if tx.decimals == e.assetDecimals && tx.amountUnits == e.expectedUnits then Success(Exact)
    else CompareAmounts(e.expectedAmount, tx.Amount(), policy.underpaymentTolerance, policy.overpaymentTolerance)
  }

  predicate ContractMatches(e: Expectation, tx: Observed) {
    var observed := NormalizeAddress(tx.tokenContract, tx.network);
    observed != "" && observed == NormalizeAddress(e.tokenContract, e.network)
  }

  function Receiver(tx: Observed): string {
    Or(tx.toAddressNormalized, NormalizeAddress(tx.toAddress, tx.network))
  }

  predicate MemoMatches(e: Expectation, tx: Observed) {
    Upper(Strip(Or(tx.memo, tx.reference))) == Upper(Strip(e.memo))
  }

  /** The earliest and the latest moment a payment may have been sent. */
  predicate SentInWindow(e: Expectation, tx: Observed, policy: Policy) {
    e.createdAt - 600 <= tx.timestamp <= e.expiresAt + policy.lateGrace
  }

  function RequiredConfirmations(e: Expectation): int {
    if e.requiredConfirmations > 0 then e.requiredConfirmations else 0
  }

  predicate Passes(check: Check, e: Expectation, tx: Observed, policy: Policy) {
    match check
    case Succeeded => tx.successful
    case OnNetwork => tx.network == e.network
    case OfAsset => Upper(tx.asset) == Upper(e.asset)
    case OfContract => e.tokenContract != "" ==> ContractMatches(e, tx)
    case ToReceiver => Receiver(tx) == e.destination
    case WithMemo => e.memo != "" ==> MemoMatches(e, tx)
    case OfAmount => AmountVerdict(e, tx, policy) == Success(Exact)
    case InWindow => SentInWindow(e, tx, policy)
    case Confirmed => tx.confirmations >= RequiredConfirmations(e)
  }

  /** `verify_transaction`: the first failing check decides. */
  function VerifyTransaction(e: Expectation, tx: Observed, policy: Policy): Result<Decision, MoneyError> {
    if !tx.successful then Success(Decision(FailedTransaction, 0))
    else if tx.network != e.network then Success(Decision(WrongNetwork, 0))
    else if Upper(tx.asset) != Upper(e.asset) then Success(Decision(WrongAsset, 0))
    else if e.tokenContract != "" && !ContractMatches(e, tx) then Success(Decision(WrongAsset, 0))
    else if Receiver(tx) != e.destination then Success(Decision(WrongReceiver, 0))
    else if e.memo != "" && !MemoMatches(e, tx) then Success(Decision(MemoMismatch, 0))
    else
      var verdict :- AmountVerdict(e, tx, policy);
      if verdict == Underpaid then Success(Decision(UnderpaidOutcome, 0))
      else if verdict == Overpaid then Success(Decision(OverpaidOutcome, 0))
      else if !SentInWindow(e, tx, policy) then Success(Decision(OutsideWindow, 0))
      else if tx.confirmations < RequiredConfirmations(e) then
        Success(Decision(PendingConfirmations, RequiredConfirmations(e) - tx.confirmations))
      else Success(Decision(VerifiedOutcome, 0))
  }

  /** A transfer is verified exactly when all nine checks pass. */
  lemma VerifiedIffAllPass(e: Expectation, tx: Observed, policy: Policy)
    ensures VerifyTransaction(e, tx, policy) == Success(Decision(VerifiedOutcome, 0))
       <==> forall check: Check :: Passes(check, e, tx, policy)
    ensures var result := VerifyTransaction(e, tx, policy);
            result.Success? && result.value.outcome == VerifiedOutcome ==> result.value.missingConfirmations == 0
  {
    if VerifyTransaction(e, tx, policy) == Success(Decision(VerifiedOutcome, 0)) {
      forall check: Check
        ensures Passes(check, e, tx, policy)
      {
      }
    }
    if forall check: Check :: Passes(check, e, tx, policy) {
      AllPassVerifies(e, tx, policy);
    }
  }

  lemma AllPassVerifies(e: Expectation, tx: Observed, policy: Policy)
    requires forall check: Check :: Passes(check, e, tx, policy)
    ensures VerifyTransaction(e, tx, policy) == Success(Decision(VerifiedOutcome, 0))
  {
    assert Passes(Succeeded, e, tx, policy) && Passes(OnNetwork, e, tx, policy) && Passes(OfAsset, e, tx, policy);
    assert Passes(OfContract, e, tx, policy) && Passes(ToReceiver, e, tx, policy) && Passes(WithMemo, e, tx, policy);
    assert Passes(OfAmount, e, tx, policy) && Passes(InWindow, e, tx, policy) && Passes(Confirmed, e, tx, policy);
  }

  /** The outcome that reports each check as the first failing one. */
  function OutcomeOf(check: Check, e: Expectation, tx: Observed, policy: Policy): Outcome {
    match check
    case Succeeded => FailedTransaction
    case OnNetwork => WrongNetwork
    case OfAsset => WrongAsset
    case OfContract => WrongAsset
    case ToReceiver => WrongReceiver
    case WithMemo => MemoMismatch
    case OfAmount => if AmountVerdict(e, tx, policy) == Success(Underpaid) then UnderpaidOutcome else OverpaidOutcome
    case InWindow => OutsideWindow
    case Confirmed => PendingConfirmations
  }

  function Position(check: Check): nat {
    match check
    case Succeeded => 0
    case OnNetwork => 1
    case OfAsset => 2
    case OfContract => 3
    case ToReceiver => 4
    case WithMemo => 5
    case OfAmount => 6
    case InWindow => 7
    case Confirmed => 8
  }

  /** The first failing check names the outcome. A payment is only left waiting for
      confirmations once everything else about it is right. */
  lemma FirstFailureDecides(e: Expectation, tx: Observed, policy: Policy, check: Check)
    requires !Passes(check, e, tx, policy)
    requires forall earlier: Check :: Position(earlier) < Position(check) ==> Passes(earlier, e, tx, policy)
    ensures check == OfAmount && AmountVerdict(e, tx, policy).Failure? ==> VerifyTransaction(e, tx, policy).Failure?
    ensures check != OfAmount || AmountVerdict(e, tx, policy).Success? ==>
              && VerifyTransaction(e, tx, policy).Success?
              && VerifyTransaction(e, tx, policy).value
                 == Decision(OutcomeOf(check, e, tx, policy),
                             if check == Confirmed then RequiredConfirmations(e) - tx.confirmations else 0)
  {
    EarlierPass(e, tx, policy, check, Succeeded);
    EarlierPass(e, tx, policy, check, OnNetwork);
    EarlierPass(e, tx, policy, check, OfAsset);
    EarlierPass(e, tx, policy, check, OfContract);
    EarlierPass(e, tx, policy, check, ToReceiver);
    EarlierPass(e, tx, policy, check, WithMemo);
    EarlierPass(e, tx, policy, check, OfAmount);
    EarlierPass(e, tx, policy, check, InWindow);
  }

  /** A payment that is right in everything else waits for exactly the confirmations it lacks. */
  lemma WaitsForTheRest(e: Expectation, tx: Observed, policy: Policy)
    requires forall check: Check :: Passes(check, e, tx, policy) <==> check != Confirmed
    ensures VerifyTransaction(e, tx, policy)
         == Success(Decision(PendingConfirmations, RequiredConfirmations(e) - tx.confirmations))
    ensures tx.confirmations < RequiredConfirmations(e)
  {
    assert !Passes(Confirmed, e, tx, policy);
    assert Passes(Succeeded, e, tx, policy) && Passes(OnNetwork, e, tx, policy) && Passes(OfAsset, e, tx, policy);
    assert Passes(OfContract, e, tx, policy) && Passes(ToReceiver, e, tx, policy) && Passes(WithMemo, e, tx, policy);
    assert Passes(OfAmount, e, tx, policy) && Passes(InWindow, e, tx, policy);
  }

  lemma EarlierPass(e: Expectation, tx: Observed, policy: Policy, check: Check, earlier: Check)
    requires forall c: Check :: Position(c) < Position(check) ==> Passes(c, e, tx, policy)
    ensures Position(earlier) < Position(check) ==> Passes(earlier, e, tx, policy)
  {
  }

  // ------------------------------------------------- choosing a candidate

  /** The preference among candidates. A transfer to another address is another
      customer's payment and ranks with the hopeless ones. */
  function Rank(outcome: Outcome): nat {
    if outcome == VerifiedOutcome then 0
    else if outcome == PendingConfirmations then 1
    else if outcome == WrongReceiver then 3
    else if outcome.NeedsReview() then 2
    else 3
  }

  /** A candidate with its judgement, as the engine lists them. */
  datatype Candidate = Candidate(rank: nat, tx: Observed, decision: Decision)
  {
    /** A better rank, or the larger amount at the same rank. */
    predicate Beats(other: Candidate) {
      rank < other.rank || (rank == other.rank && tx.amountUnits > other.tx.amountUnits)
    }
  }

  datatype Choice = Choice(tx: Option<Observed>, decision: Decision)

  function Judged(e: Expectation, tx: Observed, policy: Policy): Candidate
    requires VerifyTransaction(e, tx, policy).Success?
  {
    var decision := VerifyTransaction(e, tx, policy).value;
    Candidate(Rank(decision.outcome), tx, decision)
  }

  predicate IsJudged(candidate: Candidate, e: Expectation, tx: Observed, policy: Policy) {
    VerifyTransaction(e, tx, policy).Success? && candidate == Judged(e, tx, policy)
  }

  predicate AllJudged(e: Expectation, txs: seq<Observed>, policy: Policy) {
    forall i :: 0 <= i < |txs| ==> VerifyTransaction(e, txs[i], policy).Success?
  }

  /** `txs[k]` is the first of the candidates that no other one beats. */
  ghost predicate IsBest(e: Expectation, txs: seq<Observed>, policy: Policy, k: nat)
    requires AllJudged(e, txs, policy)
  {
    && k < |txs|
    && (forall i :: 0 <= i < |txs| ==> !Judged(e, txs[i], policy).Beats(Judged(e, txs[k], policy)))
    && (forall i :: 0 <= i < k ==> Judged(e, txs[k], policy).Beats(Judged(e, txs[i], policy)))
  }

  /** Some candidate waits for confirmations, and none is verified. */
  ghost predicate OnlyPending(e: Expectation, txs: seq<Observed>, policy: Policy)
    requires AllJudged(e, txs, policy)
  {
    && (exists i :: 0 <= i < |txs| && Judged(e, txs[i], policy).decision.outcome == PendingConfirmations)
    && (forall i :: 0 <= i < |txs| ==> Judged(e, txs[i], policy).decision.outcome != VerifiedOutcome)
  }

  /** `select_best_candidate`: the first of the most preferred candidates, or none when
      no candidate is attributable to the expectation. It reports a verified payment
      exactly when one of the candidates verifies. */
  method SelectBestCandidate(e: Expectation, txs: seq<Observed>, policy: Policy)
    returns (best: Result<Choice, MoneyError>)
    ensures best.Success? <==> AllJudged(e, txs, policy)
    ensures best.Success? && best.value.tx.Some? ==>
              exists k: nat :: && IsBest(e, txs, policy, k) && Judged(e, txs[k], policy).rank < 3
                               && best.value == Choice(Some(txs[k]), Judged(e, txs[k], policy).decision)
    ensures best.Success? ==>
              (best.value.decision.outcome == VerifiedOutcome
               <==> exists i :: 0 <= i < |txs| && Judged(e, txs[i], policy).decision.outcome == VerifiedOutcome)
    ensures best.Success? ==> (best.value.decision.outcome == PendingConfirmations <==> OnlyPending(e, txs, policy))
    ensures best.Success? && best.value.tx.Some? ==>
              && best.value.decision.outcome !in {WrongReceiver, FailedTransaction}
              && forall i :: 0 <= i < |txs| ==>
                   || Judged(e, txs[i], policy).decision.outcome != best.value.decision.outcome
                   || txs[i].amountUnits <= best.value.tx.value.amountUnits
    ensures best.Success? && best.value.tx.None? ==>
              && best.value.decision == Decision(NotFound, 0)
              && forall i :: 0 <= i < |txs| ==>
                   Judged(e, txs[i], policy).decision.outcome in {WrongReceiver, FailedTransaction}
  {
    var ranked := JudgeAll(e, txs, policy);
    if ranked.Failure? {
      return Failure(ranked.error);
    }
    if txs == [] {
      return Success(Choice(None, Decision(NotFound, 0)));
    }
    var k := FirstUnbeaten(ranked.value);
    var first := ranked.value[k];
    assert IsBest(e, txs, policy, k);
    if first.rank == 3 {
      return Success(Choice(None, Decision(NotFound, 0)));
    }
    best := Success(Choice(Some(first.tx), first.decision));
  }

  /** Every candidate with its rank; one whose amount cannot be computed stops it all. */
  method JudgeAll(e: Expectation, txs: seq<Observed>, policy: Policy)
    returns (ranked: Result<seq<Candidate>, MoneyError>)
    ensures ranked.Success? <==> AllJudged(e, txs, policy)
    ensures ranked.Success? ==>
              && |ranked.value| == |txs|
              && forall i :: 0 <= i < |txs| ==> ranked.value[i] == Judged(e, txs[i], policy)
  {
    var list: seq<Candidate> := [];
    for n := 0 to |txs|
      invariant |list| == n
      invariant forall i :: 0 <= i < n ==> IsJudged(list[i], e, txs[i], policy)
    {
      var decision := VerifyTransaction(e, txs[n], policy);
      if decision.Failure? {
        return Failure(decision.error);
      }
      list := list + [Candidate(Rank(decision.value.outcome), txs[n], decision.value)];
    }
    ranked := Success(list);
  }

  /** The head of the list once stably sorted by rank and falling amount. */
  method FirstUnbeaten(ranked: seq<Candidate>) returns (k: nat)
    requires ranked != []
    ensures k < |ranked|
    ensures forall i :: 0 <= i < |ranked| ==> !ranked[i].Beats(ranked[k])
    ensures forall i :: 0 <= i < k ==> ranked[k].Beats(ranked[i])
  {
    k := 0;
    for n := 1 to |ranked|
      invariant k < n
      invariant forall i :: 0 <= i < n ==> !ranked[i].Beats(ranked[k])
      invariant forall i :: 0 <= i < k ==> ranked[k].Beats(ranked[i])
    {
      if ranked[n].Beats(ranked[k]) {
        k := n;
      }
    }
  }

  // --------------------------------------------------- the amount check

  /** What `create_intent` stores: the amount and the same amount in base units. */
  predicate Consistent(e: Expectation) {
    SameValue(e.expectedAmount, Units(e.expectedUnits, -e.assetDecimals)) && 0 <= e.expectedUnits
  }

  function NoTolerance(): Policy {
    Policy(Decimal(false, 0, 0), Decimal(false, 0, 0), 86_400)
  }

  /** Base units counted in units of 10^-8, rounded half up. */
  function AtEight(units: nat, decimals: int): nat {
    if decimals <= 8 then units * Pow10(8 - decimals) else HalfUp(units, Pow10(decimals - 8))
  }

  /** What the quantisation makes of an amount worth `n` base units. */
  lemma QuantizedUnits(d: Decimal, n: nat, decimals: int)
    requires SameValue(d, Units(n, 0 - decimals)) && 0 <= d.Signed()
    ensures Decimal(d.negative, QuantizedDigits(d, 8), -8).Signed() == AtEight(n, decimals)
  {
    if decimals <= 8 {
      CoarseUnits(d, n, decimals);
    } else {
      FineUnits(d, n, decimals);
    }
  }

  lemma CoarseUnits(d: Decimal, n: nat, decimals: int)
    requires decimals <= 8 && SameValue(d, Units(n, 0 - decimals)) && 0 <= d.Signed()
    ensures Decimal(d.negative, QuantizedDigits(d, 8), -8).Signed() == n * Pow10(8 - decimals)
  {
    var e := Min(d.exp, -8);
    CompareAt(d, Units(n, 0 - decimals), e);
    AtScaleShift(Units(n, 0 - decimals), -8, e);
    QuantizeAtScale(d, 8, e);
    NonNegativeProduct(n, Pow10(8 - decimals));
    NonNegativeProduct(n * Pow10(8 - decimals), Pow10(-8 - e));
    HalfUpExact(n * Pow10(8 - decimals), Pow10(-8 - e));
  }

  lemma FineUnits(d: Decimal, n: nat, decimals: nat)
    requires 8 < decimals && SameValue(d, Units(n, 0 - decimals)) && 0 <= d.Signed()
    ensures Decimal(d.negative, QuantizedDigits(d, 8), -8).Signed() == HalfUp(n, Pow10(decimals - 8))
  {
    var e := Min(d.exp, 0 - decimals);
    CompareAt(d, Units(n, 0 - decimals), e);
    QuantizeAtScale(d, 8, e);
    NonNegativeProduct(n, Pow10(0 - decimals - e));
    Pow10Add(decimals - 8, 0 - decimals - e);
    HalfUpScaled(n, Pow10(decimals - 8), Pow10(0 - decimals - e));
  }

  lemma SameValueIsSigned(a: Decimal, n: nat, exp: int)
    requires SameValue(a, Units(n, exp))
    ensures 0 <= a.Signed()
  {
    var e := Min(a.exp, exp);
    NonNegativeProduct(n, Pow10(exp - e));
    if a.Signed() < 0 {
      StrictMul(a.Signed(), 0, Pow10(a.exp - e));
    }
  }

  lemma AmountOfUnits(tx: Observed)
    requires 0 <= tx.amountUnits < LIMIT
    ensures 0 <= tx.Amount().Signed()
    ensures Decimal(tx.Amount().negative, QuantizedDigits(tx.Amount(), 8), -8).Signed()
         == AtEight(tx.amountUnits, tx.decimals)
  {
    FromBaseUnitsValue(tx.amountUnits, tx.decimals);
    RoundSignedExact(tx.amountUnits);
    SameValueIsSigned(tx.Amount(), tx.amountUnits, 0 - tx.decimals);
    QuantizedUnits(tx.Amount(), tx.amountUnits, tx.decimals);
  }

  /** The amount check passes exactly when the base units agree, or else when the amounts
      differ, at eight decimals, by no more than the tolerance of their side. */
  lemma AmountCheckByTolerance(e: Expectation, tx: Observed, policy: Policy)
    requires Consistent(e) && 0 <= tx.amountUnits < LIMIT && 0 <= e.expectedAmount.Signed()
    requires AmountVerdict(e, tx, policy).Success?
    ensures var delta := AtEight(tx.amountUnits, tx.decimals) - AtEight(e.expectedUnits, e.assetDecimals);
            AmountVerdict(e, tx, policy).value
            == if tx.decimals == e.assetDecimals && tx.amountUnits == e.expectedUnits then Exact
               else if delta < 0 - Allowance(policy.underpaymentTolerance) then Underpaid
               else if delta > Allowance(policy.overpaymentTolerance) then Overpaid
               else Exact
  {
    if tx.decimals != e.assetDecimals || tx.amountUnits != e.expectedUnits {
      AmountOfUnits(tx);
      QuantizedUnits(e.expectedAmount, e.expectedUnits, e.assetDecimals);
      VerdictByTolerance(e.expectedAmount, tx.Amount(), policy.underpaymentTolerance, policy.overpaymentTolerance);
    }
  }

  /** Without tolerance the amount check passes exactly when both amounts agree at eight
      decimals, whatever the precisions of the asset and of the provider. */
  lemma AmountCheckExactly(e: Expectation, tx: Observed)
    requires Consistent(e) && 0 <= tx.amountUnits < LIMIT && 0 <= e.expectedAmount.Signed()
    requires AmountVerdict(e, tx, NoTolerance()).Success?
    ensures AmountVerdict(e, tx, NoTolerance()).value == Exact
       <==> AtEight(tx.amountUnits, tx.decimals) == AtEight(e.expectedUnits, e.assetDecimals)
  {
    if tx.decimals != e.assetDecimals || tx.amountUnits != e.expectedUnits {
      AmountOfUnits(tx);
      QuantizedUnits(e.expectedAmount, e.expectedUnits, e.assetDecimals);
      ZeroTolerance(e.expectedAmount, tx.Amount(), Decimal(false, 0, 0));
    }
  }

  /** For an asset of at most eight decimals that is to say: exactly when the base units agree. */
  lemma AmountCheckIsExact(e: Expectation, tx: Observed)
    requires Consistent(e) && tx.decimals == e.assetDecimals <= 8
    requires 0 <= tx.amountUnits < LIMIT && 0 <= e.expectedAmount.Signed()
    requires AmountVerdict(e, tx, NoTolerance()).Success?
    ensures AmountVerdict(e, tx, NoTolerance()).value == Exact <==> tx.amountUnits == e.expectedUnits
  {
    AmountCheckExactly(e, tx);
    EqualProducts(tx.amountUnits, e.expectedUnits, Pow10(8 - e.assetDecimals));
  }

  /** For a finer asset: exactly when the base units round to the same eight decimals. */
  lemma FineAmountCheck(e: Expectation, tx: Observed)
    requires Consistent(e) && tx.decimals == e.assetDecimals > 8
    requires 0 <= tx.amountUnits < LIMIT && 0 <= e.expectedAmount.Signed()
    requires AmountVerdict(e, tx, NoTolerance()).Success?
    ensures AmountVerdict(e, tx, NoTolerance()).value == Exact
       <==> HalfUp(tx.amountUnits, Pow10(e.assetDecimals - 8)) == HalfUp(e.expectedUnits, Pow10(e.assetDecimals - 8))
  {
    AmountCheckExactly(e, tx);
  }

  /** An 18-decimal amount one base unit short of 1 rounds to 1 as well: the amount check
      passes although the base units differ. */
  lemma AmountCheckCanMissAUnit(e: Expectation, tx: Observed)
    requires e.assetDecimals == 18 && e.expectedAmount == Decimal(false, 1, 0)
    requires e.expectedUnits == 1_000_000_000_000_000_000
    requires tx.decimals == 18 && tx.amountUnits == 999_999_999_999_999_999
    ensures Consistent(e)
    ensures AmountVerdict(e, tx, NoTolerance()) == Success(Exact)
  {
    Pow18();
    assert Pow10(0) == 1;
    OneIsComputed(tx);
    AmountCheckExactly(e, tx);
    assert HalfUp(999_999_999_999_999_999, 10_000_000_000) == HalfUp(1_000_000_000_000_000_000, 10_000_000_000);
  }

  lemma OneIsComputed(tx: Observed)
    requires tx.decimals == 18 && tx.amountUnits == 999_999_999_999_999_999
    ensures CompareAmounts(Decimal(false, 1, 0), tx.Amount(), Decimal(false, 0, 0), Decimal(false, 0, 0)).Success?
  {
    Pow18();
    AmountOfUnits(tx);
    ZeroQuantizes(Decimal(false, 0, 0));
    assert Pow10(0) == 1;
  }

  lemma Pow18()
    ensures Pow10(8) == 100_000_000 && Pow10(10) == 10_000_000_000 && Pow10(18) == 1_000_000_000_000_000_000
  {
    assert Pow10(4) == 10_000;
    Pow10Add(4, 4);
    Pow10Add(8, 2);
    assert Pow10(2) == 100;
    Pow10Add(8, 10);
  }

  /** What a credit without tolerance stands for: a successful transfer of the expected
      asset to the shop's own address, sent in time and settled, worth the expected
      amount at eight decimals. */
  lemma VerifiedMeansPaid(e: Expectation, tx: Observed)
    requires Consistent(e) && 0 <= tx.amountUnits < LIMIT && 0 <= e.expectedAmount.Signed()
    requires VerifyTransaction(e, tx, NoTolerance()).Success?
    requires VerifyTransaction(e, tx, NoTolerance()).value.outcome == VerifiedOutcome
    ensures tx.successful && tx.network == e.network && Upper(tx.asset) == Upper(e.asset)
    ensures Or(tx.toAddressNormalized, NormalizeAddress(tx.toAddress, tx.network)) == e.destination
    ensures AtEight(tx.amountUnits, tx.decimals) == AtEight(e.expectedUnits, e.assetDecimals)
    ensures e.createdAt - 600 <= tx.timestamp <= e.expiresAt + 86_400 && e.requiredConfirmations <= tx.confirmations
  {
    VerifiedIffAllPass(e, tx, NoTolerance());
    assert Passes(OfAmount, e, tx, NoTolerance());
    AmountCheckExactly(e, tx);
    assert Passes(Succeeded, e, tx, NoTolerance()) && Passes(OnNetwork, e, tx, NoTolerance());
    assert Passes(OfAsset, e, tx, NoTolerance()) && Passes(ToReceiver, e, tx, NoTolerance());
    assert Passes(InWindow, e, tx, NoTolerance()) && Passes(Confirmed, e, tx, NoTolerance());
  }
}
