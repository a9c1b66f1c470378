/** Quotes returned by peers, and the choice of the best one: the lowest
    `sender.amount`, the earliest entry winning ties. */
module Selection {
  import opened Wrappers

  /** The value `new BigNumber(x)` gives a payload's amount field: an
      integer in atomic units, or NaN when the field is not numeric. */
  datatype BigNum = Finite(n: int) | NaN

  /** `BigNumber.prototype.lt`: false whenever either side is NaN. */
  predicate Lt(a: BigNum, b: BigNum) {
    a.Finite? && b.Finite? && a.n < b.n
  }

  datatype Party = Party(wallet: string, token: string, amount: BigNum)

  /** A peer's offer: the signer delivers `signer.amount` of `signer.token`
      in exchange for `sender.amount` of `sender.token`. */
  datatype Quote = Quote(signer: Party, sender: Party, expiry: int, signature: Option<string>)

  /** An entry of the results list: the quote and the peer that sent it. */
  datatype Found = Found(locator: string, order: Quote)

  /** An entry of the errors list. */
  datatype PeerError = PeerError(locator: string, message: string)

  /** The three arguments of the aggregation callback. */
  datatype Verdict = Verdict(order: Option<Quote>, locator: Option<string>, errors: seq<PeerError>)

  function Amount(f: Found): BigNum {
    f.order.sender.amount
  }

  predicate AllNumeric(results: seq<Found>) {
    forall i :: 0 <= i < |results| ==> Amount(results[i]).Finite?
  }

  /** `k` is the winner among `results[..j]`: no numeric amount there is
      lower, every earlier numeric amount is strictly higher, and a
      non-numeric winner is only possible as the first entry when no
      amount is numeric. */
  predicate IsBest(results: seq<Found>, j: nat, k: nat)
    requires j <= |results|
  {
    && k < j
    && (forall i :: 0 <= i < j && Amount(results[i]).Finite? ==>
          Amount(results[k]).Finite? && Amount(results[k]).n <= Amount(results[i]).n)
    && (forall i :: 0 <= i < k && Amount(results[i]).Finite? ==>
          Amount(results[k]).Finite? && Amount(results[k]).n < Amount(results[i]).n)
    && (Amount(results[k]).NaN? ==> k == 0)
  }

  /** The scan exactly as written: `results[j]` replaces the lowest so far
      when `results[j].amount.lt(lowest.amount)`. It ends on the last entry
      that replaced the lowest, or on the starting one: every entry after
      the winner was compared with it and was not strictly lower, which a
      NaN on either side never is. */
  function ScanAsWritten(results: seq<Found>, j: nat, lowest: nat): (k: nat)
    requires lowest < j <= |results|
    ensures lowest <= k < |results|
    ensures k == lowest || j <= k
    ensures forall i :: j <= i < |results| && k < i ==> !Lt(Amount(results[i]), Amount(results[k]))
    decreases |results| - j
  {
    if j == |results| then lowest
    else ScanAsWritten(results, j + 1, if Lt(Amount(results[j]), Amount(results[lowest])) then j else lowest)
  }

  /** Whether `a` should replace the lowest so far, `best`: a numeric amount
      beats a non-numeric one and any strictly higher one. */
  predicate Improves(a: BigNum, best: BigNum) {
    a.Finite? && (best.NaN? || a.n < best.n)
  }

  /** The corrected scan. It differs from the one as written only in that a
      numeric amount replaces a non-numeric lowest. */
  function Scan(results: seq<Found>, j: nat, lowest: nat): (k: nat)
    requires lowest < j <= |results|
    requires IsBest(results, j, lowest)
    ensures IsBest(results, |results|, k)
    decreases |results| - j
  {
    if j == |results| then lowest
    else Scan(results, j + 1, if Improves(Amount(results[j]), Amount(results[lowest])) then j else lowest)
  }

  /** On a list whose amounts are all numeric the two scans agree. */
  lemma {:induction false} ScanAgreesOnNumeric(results: seq<Found>, j: nat, lowest: nat)
    requires lowest < j <= |results|
    requires IsBest(results, j, lowest)
    requires AllNumeric(results)
    ensures ScanAsWritten(results, j, lowest) == Scan(results, j, lowest)
    decreases |results| - j
  {
    if j < |results| {
      var next := if Improves(Amount(results[j]), Amount(results[lowest])) then j else lowest;
      assert next == if Lt(Amount(results[j]), Amount(results[lowest])) then j else lowest;
      ScanAgreesOnNumeric(results, j + 1, next);
    }
  }

  /** Two results, the first with a non-numeric amount: the scan as written
      keeps the first although the second carries a number. */
  lemma ScanAsWrittenKeepsNaNFirst(q0: Quote, q1: Quote)
    requires q0.sender.amount == NaN && q1.sender.amount == Finite(5)
    ensures ScanAsWritten([Found("a", q0), Found("b", q1)], 1, 0) == 0
    ensures !IsBest([Found("a", q0), Found("b", q1)], 2, 0)
    ensures Scan([Found("a", q0), Found("b", q1)], 1, 0) == 1
  {
  }

  /** The selection run once every peer has answered: no winner for an empty
      list, otherwise the best entry and its locator; the errors list is
      passed through whole. */
  function Select(results: seq<Found>, errors: seq<PeerError>): (v: Verdict)
    ensures v.errors == errors
    ensures v.order.None? <==> |results| == 0
    ensures v.locator.None? <==> |results| == 0
    ensures |results| > 0 ==>
      exists k :: 0 <= k < |results| && IsBest(results, |results|, k)
        && v.order == Some(results[k].order) && v.locator == Some(results[k].locator)
  {
    if |results| == 0 then Verdict(None, None, errors)
    else
      assert IsBest(results, 1, 0);
      var k := Scan(results, 1, 0);
      Verdict(Some(results[k].order), Some(results[k].locator), errors)
  }

  /** The winner's amount is at most every numeric amount in the list, and
      every earlier entry's numeric amount is strictly higher (first-seen
      wins ties). */
  lemma SelectIsLowestFirst(results: seq<Found>, errors: seq<PeerError>)
    requires AllNumeric(results)
    requires |results| > 0
    ensures var v := Select(results, errors);
      v.order.Some? && v.order.value.sender.amount.Finite?
      && (forall i :: 0 <= i < |results| ==>
            v.order.value.sender.amount.n <= Amount(results[i]).n)
      && (exists k :: 0 <= k < |results| && v.order == Some(results[k].order)
            && v.locator == Some(results[k].locator)
            && forall i :: 0 <= i < k ==> Amount(results[i]).n > Amount(results[k]).n)
  {
  }
}
