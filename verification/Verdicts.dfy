/** What the engine's answers (app/domain/payments/verification.py) mean for the texts, the
    times and the amounts of a transfer. */
module Verdicts {
  import opened Wrappers
  import opened Rounding
  import opened Decimals
  import opened Money
  import opened Verification
  import opened Fingerprint

  // --------------------------------------------------------------- texts

  predicate IsSpace(c: char) {
    c in " \t\n\r"
  }

  /** Stripping a text leaves the part between the space around it. */
  lemma {:induction false} StripIsTheMiddle(s: string) returns (lo: nat, hi: nat)
    ensures lo <= hi <= |s| && Strip(s) == s[lo..hi] && Bare(Strip(s))
    ensures forall i :: 0 <= i < lo || hi <= i < |s| ==> IsSpace(s[i])
    decreases |s|
  {
    StripLeavesNoSpace(s);
    if s != "" && s[0] in " \t\n\r" {
      var from, to := StripIsTheMiddle(s[1..]);
      lo, hi := from + 1, to + 1;
      assert s[1..][from..to] == s[lo..hi];
      forall i | 0 <= i < lo || hi <= i < |s|
        ensures IsSpace(s[i])
      {
        assert i > 0 ==> s[i] == s[1..][i - 1];
      }
    } else if s != "" && s[|s| - 1] in " \t\n\r" {
      lo, hi := StripIsTheMiddle(s[..|s| - 1]);
      assert s[..|s| - 1][lo..hi] == s[lo..hi];
      forall i | 0 <= i < lo || hi <= i < |s|
        ensures IsSpace(s[i])
      {
        assert i < |s| - 1 ==> s[i] == s[..|s| - 1][i];
      }
    } else {
      lo, hi := 0, |s|;
    }
  }

  lemma NothingIsLeftOfSpaceOnly(address: string, network: Network)
    ensures NormalizeAddress(address, network) == "" <==> Strip(address) == ""
  {
    assert NormalizeAddress("", network) == "";
    NormalizingTellsAddressesApart(address, "", network);
  }

  // ------------------------------------------------- one check at a time

  /** The transfer shows a contract, and it is the declared one. */
  predicate ShowsContract(e: Expectation, tx: Observed) {
    Strip(tx.tokenContract) != "" && SameAddress(Strip(tx.tokenContract), Strip(e.tokenContract), e.network)
  }

  /** The receiver, as the provider normalised it, or else as an address of the shop's own. */
  predicate Reaches(tx: Observed, destination: string, network: Network) {
    if tx.toAddressNormalized != "" then tx.toAddressNormalized == NormalizeAddress(destination, network)
    else SameAddress(Strip(tx.toAddress), Strip(destination), network)
  }

  /** The memo, or the reference of a transfer that has none. */
  predicate ShowsMemo(e: Expectation, tx: Observed) {
    SameIgnoringCase(Strip(if tx.memo != "" then tx.memo else tx.reference), Strip(e.memo))
  }

  lemma ContractIsCompared(e: Expectation, tx: Observed)
    requires tx.network == e.network
    ensures Passes(OfContract, e, tx, NoTolerance()) <==> e.tokenContract == "" || ShowsContract(e, tx)
  {
    NothingIsLeftOfSpaceOnly(tx.tokenContract, tx.network);
    NormalizingTellsAddressesApart(tx.tokenContract, e.tokenContract, e.network);
  }

  lemma ReceiverIsCompared(e: Expectation, tx: Observed, destination: string)
    requires tx.network == e.network && e.destination == NormalizeAddress(destination, e.network)
    ensures Passes(ToReceiver, e, tx, NoTolerance()) <==> Reaches(tx, destination, e.network)
  {
    NormalizingTellsAddressesApart(tx.toAddress, destination, e.network);
  }

  lemma MemoIsCompared(e: Expectation, tx: Observed)
    ensures Passes(WithMemo, e, tx, NoTolerance()) <==> e.memo == "" || ShowsMemo(e, tx)
  {
    FoldingIgnoresCase(Strip(if tx.memo != "" then tx.memo else tx.reference), Strip(e.memo));
  }

  /** A successful transfer on the network is refused for its asset exactly when the symbol
      differs, or the declared contract is another one or not shown at all. */
  lemma WrongAssetExactly(e: Expectation, tx: Observed, policy: Policy)
    requires tx.successful && tx.network == e.network
    ensures VerifyTransaction(e, tx, policy) == Success(Decision(WrongAsset, 0))
       <==> !SameIgnoringCase(tx.asset, e.asset) || (e.tokenContract != "" && !ShowsContract(e, tx))
  {
    FoldingIgnoresCase(tx.asset, e.asset);
    ContractIsCompared(e, tx);
  }

  /** One of the right asset is refused for its receiver exactly when that is not the address
      the shop has given out. */
  lemma WrongReceiverExactly(e: Expectation, tx: Observed, policy: Policy, destination: string)
    requires tx.successful && tx.network == e.network && e.destination == NormalizeAddress(destination, e.network)
    requires SameIgnoringCase(tx.asset, e.asset) && (e.tokenContract != "" ==> ShowsContract(e, tx))
    ensures VerifyTransaction(e, tx, policy) == Success(Decision(WrongReceiver, 0))
       <==> !Reaches(tx, destination, e.network)
  {
    FoldingIgnoresCase(tx.asset, e.asset);
    ContractIsCompared(e, tx);
    ReceiverIsCompared(e, tx, destination);
  }

  /** One that reached the shop is refused for its memo exactly when a memo is asked for and
      another one is shown. */
  lemma MemoMismatchExactly(e: Expectation, tx: Observed, policy: Policy, destination: string)
    requires tx.successful && tx.network == e.network && e.destination == NormalizeAddress(destination, e.network)
    requires SameIgnoringCase(tx.asset, e.asset) && (e.tokenContract != "" ==> ShowsContract(e, tx))
    requires Reaches(tx, destination, e.network)
    ensures VerifyTransaction(e, tx, policy) == Success(Decision(MemoMismatch, 0))
       <==> e.memo != "" && !ShowsMemo(e, tx)
  {
    FoldingIgnoresCase(tx.asset, e.asset);
    ContractIsCompared(e, tx);
    ReceiverIsCompared(e, tx, destination);
    MemoIsCompared(e, tx);
  }

  // ------------------------------------------------------- all of them

  /** The amount is the expected one to the base unit, or within tolerance at eight decimals. */
  predicate Pays(e: Expectation, tx: Observed, policy: Policy)
    requires 0 <= tx.amountUnits && 0 <= e.expectedUnits
  {
    var delta := AtEight(tx.amountUnits, tx.decimals) - AtEight(e.expectedUnits, e.assetDecimals);
    || (tx.decimals == e.assetDecimals && tx.amountUnits == e.expectedUnits)
    || 0 - Allowance(policy.underpaymentTolerance) <= delta <= Allowance(policy.overpaymentTolerance)
  }

  /** A transfer is verified exactly when it succeeded, on the network, in the asset and the
      declared contract, to the address of the shop, with the memo asked for, of the right
      amount, from ten minutes before the payment was opened to the end of the grace, and
      has the confirmations it needs. */
  lemma VerifiedExactly(e: Expectation, tx: Observed, policy: Policy, destination: string)
    requires Consistent(e) && 0 <= tx.amountUnits < LIMIT && 0 <= e.expectedAmount.Signed()
    requires e.destination == NormalizeAddress(destination, e.network)
    requires AmountVerdict(e, tx, policy).Success?
    ensures VerifyTransaction(e, tx, policy) == Success(Decision(VerifiedOutcome, 0))
       <==> && tx.successful && tx.network == e.network
            && SameIgnoringCase(tx.asset, e.asset) && (e.tokenContract != "" ==> ShowsContract(e, tx))
            && Reaches(tx, destination, e.network) && (e.memo != "" ==> ShowsMemo(e, tx))
            && Pays(e, tx, policy)
            && e.createdAt - 600 <= tx.timestamp <= e.expiresAt + policy.lateGrace
            && 0 <= tx.confirmations && e.requiredConfirmations <= tx.confirmations
  {
    FoldingIgnoresCase(tx.asset, e.asset);
    MemoIsCompared(e, tx);
    AmountCheckByTolerance(e, tx, policy);
    AllowanceIsNotNegative(policy.underpaymentTolerance);
    AllowanceIsNotNegative(policy.overpaymentTolerance);
    if tx.network == e.network {
      ContractIsCompared(e, tx);
      ReceiverIsCompared(e, tx, destination);
    }
  }

  lemma AllowanceIsNotNegative(tolerance: Decimal)
    ensures 0 <= Allowance(tolerance)
  {
  }
}
