/** Whole rounds on concrete peers: a mixed round in which an error
    arrives first and the cheaper of two quotes wins, a round in which
    every peer is unreachable, an order that fails validation, and a round
    with nothing to dispatch. */
module Scenarios {
  import opened Wrappers
  import opened Text
  import opened Peer
  import opened Selection
  import opened Aggregate

  const P1: string := "http://peer1"
  const P2: string := "https://peer2"
  const P3: string := "http://peer3"

  const QUOTE_METHOD: string := "getSenderSideQuote"
  const ORDER_METHOD: string := "getSenderSideOrder"

  /** A quote asking the caller to pay `amount`. */
  function Offer(amount: int): Quote {
    Quote(Party("0xmaker", "0xdai", Finite(10)), Party("0xtaker", "0xweth", Finite(amount)), 0, None)
  }

  function Ok(q: Quote): Reply<Quote> {
    Reply(None, None, q)
  }

  function Unreachable(err: string): Reply<Quote> {
    Reply(Some(err), None, Offer(0))
  }

  lemma QuoteMethodSkipsValidation()
    ensures !ValidatesOrders(QUOTE_METHOD)
  {
    assert forall i :: 0 <= i < |QUOTE_METHOD| ==> QUOTE_METHOD[i] != 'O';
    NotContainsWithoutFirst(QUOTE_METHOD, "Order");
  }

  /** The validator of a round whose method skips validation; never
      consulted. */
  predicate NeverValid(q: Quote) {
    false
  }

  const MIXED: seq<Option<string>> := [Some(P1), Some(P2), Some(P3)]

  lemma MixedDispatchesAll()
    ensures |Dispatched(MIXED)| == 3
  {
    DispatchedAllTruthy(MIXED);
  }

  const FAILURE: PeerError := PeerError(P3, ConnectionErrorMessage(P3, "ECONNREFUSED"))
  const C1: Completion := Completion(2, Unreachable("ECONNREFUSED"))
  const C2: Completion := Completion(0, Ok(Offer(100)))
  const C3: Completion := Completion(1, Ok(Offer(50)))
  const MIXED_ORDER: seq<Completion> := [C1, C2, C3]

  lemma MixedEntries()
    ensures EntryOf(MIXED, QUOTE_METHOD, NeverValid, C1) == Rejected(FAILURE)
    ensures EntryOf(MIXED, QUOTE_METHOD, NeverValid, C2) == Accepted(Found(P1, Offer(100)))
    ensures EntryOf(MIXED, QUOTE_METHOD, NeverValid, C3) == Accepted(Found(P2, Offer(50)))
  {
    QuoteMethodSkipsValidation();
  }

  lemma MixedSelection()
    ensures Select([Found(P1, Offer(100)), Found(P2, Offer(50))], [FAILURE])
      == Verdict(Some(Offer(50)), Some(P2), [FAILURE])
  {
  }

  const FOUND1: Found := Found(P1, Offer(100))
  const FOUND2: Found := Found(P2, Offer(50))

  lemma MixedFirst()
    ensures AllInFlight(MIXED, [C1])
    ensures Collect(MIXED, QUOTE_METHOD, NeverValid, [C1]) == Round(3, 1, [], [FAILURE], [])
  {
    assert AllInFlight(MIXED, [C1]);
    CollectFirst(MIXED, QUOTE_METHOD, NeverValid, C1);
    MixedDispatchesAll();
    MixedEntries();
  }

  lemma MixedSecond()
    ensures AllInFlight(MIXED, [C1, C2])
    ensures Collect(MIXED, QUOTE_METHOD, NeverValid, [C1, C2]) == Round(3, 2, [FOUND1], [FAILURE], [])
  {
    assert [C1] + [C2] == [C1, C2];
    assert AllInFlight(MIXED, [C1, C2]);
    assert Collect(MIXED, QUOTE_METHOD, NeverValid, [C1, C2])
        == Record(Round(3, 1, [], [FAILURE], []), Accepted(FOUND1)) by {
      MixedFirst();
      MixedEntries();
      CollectSnoc(MIXED, QUOTE_METHOD, NeverValid, [C1], C2);
    }
  }

  /** The third completion brings the count to three and runs the
      selection. */
  lemma MixedLast()
    ensures Record(Round(3, 2, [FOUND1], [FAILURE], []), Accepted(FOUND2)).verdicts
         == [Verdict(Some(Offer(50)), Some(P2), [FAILURE])]
  {
    assert Record(Round(3, 2, [FOUND1], [FAILURE], []), Accepted(FOUND2)).verdicts
        == [Select([FOUND1, FOUND2], [FAILURE])];
    MixedSelection();
  }

  /** Three peers: the first asks 100, the second 50, the third cannot be
      reached and completes first. The second peer's quote wins and the
      third peer's connection error is reported under its locator. */
  lemma MixedRound()
    ensures AllInFlight(MIXED, MIXED_ORDER)
    ensures Collect(MIXED, QUOTE_METHOD, NeverValid, MIXED_ORDER).verdicts
         == [Verdict(Some(Offer(50)), Some(P2), [FAILURE])]
  {
    assert MIXED_ORDER == [C1, C2] + [C3];
    assert AllInFlight(MIXED, MIXED_ORDER);
    assert Collect(MIXED, QUOTE_METHOD, NeverValid, MIXED_ORDER)
        == Record(Round(3, 2, [FOUND1], [FAILURE], []), Accepted(FOUND2)) by {
      MixedSecond();
      MixedEntries();
      CollectSnoc(MIXED, QUOTE_METHOD, NeverValid, [C1, C2], C3);
    }
    MixedLast();
  }

  /** When every peer is unreachable, the round still completes: no winner,
      and one error per requested peer. This holds for every locator list
      and every completion order. */
  lemma {:induction false} AllUnreachable(decoded: seq<Option<string>>, methodName: string, isValidOrder: Quote -> bool, order: seq<Completion>)
    requires IsCompletionOrder(decoded, order)
    requires |Dispatched(decoded)| > 0
    requires forall k :: 0 <= k < |order| ==> order[k].reply.err.Some?
    ensures AllInFlight(decoded, order)
    ensures var r := Collect(decoded, methodName, isValidOrder, order);
      && |r.errors| == |Dispatched(decoded)|
      && r.verdicts == [Verdict(None, None, r.errors)]
  {
    CompletionOrderInFlight(decoded, order);
    CollectFiresOnLast(decoded, methodName, isValidOrder, order);
    NoAnswerNoResults(decoded, methodName, isValidOrder, order);
  }

  const ORDER_PEER: seq<Option<string>> := [Some(P1)]
  const FORGED: Completion := Completion(0, Ok(Offer(1)))

  lemma OrderMethodValidates()
    ensures ValidatesOrders(ORDER_METHOD)
  {
    assert OccursAt(ORDER_METHOD, "Order", 13);
  }

  lemma ForgedDispatched()
    ensures Dispatched(ORDER_PEER) == [0]
  {
  }

  /** A single peer answers an order request with an order whose signature
      does not check out: it is filed as an error under its locator with
      the invalid-order message, and there is no winner. */
  lemma InvalidSignatureRound()
    ensures AllInFlight(ORDER_PEER, [FORGED])
    ensures Collect(ORDER_PEER, ORDER_METHOD, NeverValid, [FORGED]).verdicts
      == [Verdict(None, None, [PeerError(P1, INVALID_ORDER)])]
  {
    assert AllInFlight(ORDER_PEER, [FORGED]);
    CollectFirst(ORDER_PEER, ORDER_METHOD, NeverValid, FORGED);
    ForgedDispatched();
    OrderMethodValidates();
    var rejected := PeerError(P1, INVALID_ORDER);
    assert EntryOf(ORDER_PEER, ORDER_METHOD, NeverValid, FORGED) == Rejected(rejected);
    assert Record(Round(1, 0, [], [], []), Rejected(rejected))
      == Round(1, 1, [], [rejected], [Select([], [rejected])]);
  }

  /** Locators that fail to decode or decode to the empty string are never
      dispatched: the only completion order is the empty one, and the
      aggregation callback is never called. */
  lemma NothingToDispatch(order: seq<Completion>)
    requires IsCompletionOrder([None, Some("")], order)
    ensures AllInFlight([None, Some("")], order)
    ensures order == []
    ensures Collect([None, Some("")], QUOTE_METHOD, NeverValid, order).verdicts == []
  {
    var decoded: seq<Option<string>> := [None, Some("")];
    assert Dispatched(decoded) == [] by {
      assert decoded[..1] == [None];
      assert decoded[..1][..0] == [];
    }
    CompletionOrderInFlight(decoded, order);
  }
}
