/** The fan-out round of `multiPeerCall`: decoding the indexer's locators,
    dispatching one peer call per truthy locator, recording each outcome as
    it completes, and running the selection when the last one is in.

    The callbacks of the source run in whatever order the peers answer. Here
    that order is an explicit argument: a sequence of completions, each the
    slot of a dispatched locator paired with the reply its peer gave. Every
    property below is proved for every such order. */
module Aggregate {
  import opened Wrappers
  import opened Text
  import opened Peer
  import opened Selection

  /** A locator as the indexer stores it. */
  type Bytes32 = b: seq<bv8> | |b| == 32 witness seq(32, _ => 0 as bv8)

  /** Decoding every locator; `None` stands for the `false` a throwing
      `parseBytes32String` leaves in the slot. */
  function DecodeAll(raw: seq<Bytes32>, parse: Bytes32 -> Option<string>): (decoded: seq<Option<string>>)
    ensures |decoded| == |raw|
    ensures forall i :: 0 <= i < |raw| ==> decoded[i] == parse(raw[i])
  {
    seq(|raw|, i requires 0 <= i < |raw| => parse(raw[i]))
  }

  /** Decoding one more locator appends its decoding. */
  lemma DecodeAllSnoc(raw: seq<Bytes32>, parse: Bytes32 -> Option<string>, i: nat)
    requires i < |raw|
    ensures DecodeAll(raw[..i + 1], parse) == DecodeAll(raw[..i], parse) + [parse(raw[i])]
  {
  }

  /** JavaScript truthiness of a decoded slot: decoding succeeded and gave a
      non-empty string. */
  predicate Truthy(decoded: Option<string>) {
    decoded.Some? && decoded.value != ""
  }

  /** The slots a peer call is dispatched for, in dispatch order. */
  function Dispatched(decoded: seq<Option<string>>): (slots: seq<nat>)
    ensures forall i: int :: i in slots <==> 0 <= i < |decoded| && Truthy(decoded[i])
    ensures forall a, b :: 0 <= a < b < |slots| ==> slots[a] < slots[b]
    decreases |decoded|
  {
    if |decoded| == 0 then []
    else
      var last := |decoded| - 1;
      var earlier := Dispatched(decoded[..last]);
      assert forall a :: 0 <= a < |earlier| ==> earlier[a] in earlier;
      earlier + (if Truthy(decoded[last]) then [last] else [])
  }

  /** One more decoded locator is dispatched after the others exactly when
      it is truthy. */
  lemma DispatchedSnoc(decoded: seq<Option<string>>, d: Option<string>)
    ensures Dispatched(decoded + [d]) == Dispatched(decoded) + (if Truthy(d) then [|decoded|] else [])
  {
    assert (decoded + [d])[..|decoded|] == decoded;
  }

  /** When every locator decodes to a non-empty string, every one is
      dispatched. */
  lemma {:induction false} DispatchedAllTruthy(decoded: seq<Option<string>>)
    requires forall i :: 0 <= i < |decoded| ==> Truthy(decoded[i])
    ensures |Dispatched(decoded)| == |decoded|
    decreases |decoded|
  {
    if |decoded| > 0 {
      DispatchedAllTruthy(decoded[..|decoded| - 1]);
    }
  }

  /** The dispatch loop: each locator is decoded in place, and `requested`
      counts those that come out truthy, each of which gets a peer call. */
  method DecodeLocators(raw: seq<Bytes32>, parse: Bytes32 -> Option<string>)
    returns (decoded: seq<Option<string>>, dispatched: seq<nat>, requested: nat)
    ensures |decoded| == |raw|
    ensures forall i :: 0 <= i < |raw| ==> decoded[i] == parse(raw[i])
    ensures forall i: int :: i in dispatched <==> 0 <= i < |raw| && Truthy(parse(raw[i]))
    ensures forall a, b :: 0 <= a < b < |dispatched| ==> dispatched[a] < dispatched[b]
    ensures dispatched == Dispatched(DecodeAll(raw, parse))
    ensures requested == |dispatched|
  {
    decoded, dispatched, requested := [], [], 0;
    for i := 0 to |raw|
      invariant |decoded| == i
      invariant decoded == DecodeAll(raw[..i], parse)
      invariant dispatched == Dispatched(decoded)
      invariant requested == |dispatched|
    {
      var locator := parse(raw[i]);
      DecodeAllSnoc(raw, parse, i);
      DispatchedSnoc(decoded, locator);
      decoded := decoded + [locator];
      if Truthy(locator) {
        requested := requested + 1;
        dispatched := dispatched + [i];
      }
    }
    assert raw[..|raw|] == raw;
  }

  /** One peer's completion: the slot of its locator and its reply. */
  datatype Completion = Completion(slot: nat, reply: Reply<Quote>)

  function Slots(order: seq<Completion>): (slots: seq<nat>)
    ensures |slots| == |order|
    ensures forall k :: 0 <= k < |order| ==> slots[k] == order[k].slot
  {
    seq(|order|, k requires 0 <= k < |order| => order[k].slot)
  }

  /** A possible completion order: every dispatched call completes exactly
      once. */
  predicate IsCompletionOrder(decoded: seq<Option<string>>, order: seq<Completion>) {
    multiset(Slots(order)) == multiset(Dispatched(decoded))
  }

  /** Every completion belongs to a dispatched call. */
  predicate AllInFlight(decoded: seq<Option<string>>, order: seq<Completion>) {
    forall k :: 0 <= k < |order| ==> order[k].slot < |decoded| && Truthy(decoded[order[k].slot])
  }

  /** A completion order completes only dispatched calls, and as many as
      were requested. */
  lemma CompletionOrderInFlight(decoded: seq<Option<string>>, order: seq<Completion>)
    requires IsCompletionOrder(decoded, order)
    ensures AllInFlight(decoded, order)
    ensures |order| == |Dispatched(decoded)|
  {
    forall k | 0 <= k < |order|
      ensures order[k].slot < |decoded| && Truthy(decoded[order[k].slot])
    {
      assert Slots(order)[k] in multiset(Slots(order));
      assert order[k].slot in multiset(Dispatched(decoded));
      assert order[k].slot in Dispatched(decoded);
    }
    assert |multiset(Slots(order))| == |multiset(Dispatched(decoded))|;
  }

  /** `locators[i]` once the dispatch loop has decoded it. */
  function LocatorAt(decoded: seq<Option<string>>, slot: nat): string {
    if slot < |decoded| && decoded[slot].Some? then decoded[slot].value else ""
  }

  /** What one completion adds to the round. */
  datatype Entry = Accepted(found: Found) | Rejected(error: PeerError)

  const INVALID_ORDER: string := "Got an invalid order or signature "

  /** Methods whose name mentions `Order` return signed orders, which must
      pass validation. */
  predicate ValidatesOrders(methodName: string) {
    Contains(methodName, "Order")
  }

  /** Where a peer's outcome goes: an error outcome to `errors` as is; a
      success to `results`, unless the method returns orders and this one
      fails validation, in which case to `errors` as an invalid order. */
  function Settle(methodName: string, isValidOrder: Quote -> bool, locator: string, outcome: Outcome<Quote>): (e: Entry)
    ensures e.Accepted? <==> outcome.Answered? && (ValidatesOrders(methodName) ==> isValidOrder(outcome.payload))
    ensures e.Accepted? ==> e.found == Found(locator, outcome.payload)
    ensures e.Rejected? ==> e.error.locator == locator
    ensures e.Rejected? && outcome.Failed? ==> e.error.message == outcome.message
    ensures e.Rejected? && outcome.Answered? ==> e.error.message == INVALID_ORDER
  {
    match outcome
    case Failed(message) => Rejected(PeerError(locator, message))
    case Answered(order) =>
      if ValidatesOrders(methodName) && !isValidOrder(order) then Rejected(PeerError(locator, INVALID_ORDER))
      else Accepted(Found(locator, order))
  }

  /** The entry a completion produces: its peer call's outcome, settled. */
  function EntryOf(decoded: seq<Option<string>>, methodName: string, isValidOrder: Quote -> bool, c: Completion): Entry {
    var locator := LocatorAt(decoded, c.slot);
    Settle(methodName, isValidOrder, locator, Classify(locator, c.reply))
  }

  /** The collector shared by the callbacks, together with the calls made so
      far to the aggregation callback. */
  datatype Round = Round(
    requested: nat,
    completed: nat,
    results: seq<Found>,
    errors: seq<PeerError>,
    verdicts: seq<Verdict>)

  /** One callback: append the entry, count the completion, and when the
      count reaches `requested` run the selection on the lists as they now
      stand. */
  function Record(r: Round, e: Entry): (r': Round)
    ensures r'.requested == r.requested && r'.completed == r.completed + 1
    ensures |r'.results| + |r'.errors| == |r.results| + |r.errors| + 1
    ensures r'.results == r.results + (if e.Accepted? then [e.found] else [])
    ensures r'.errors == r.errors + (if e.Rejected? then [e.error] else [])
    ensures r'.verdicts == r.verdicts + (if r'.completed == r.requested then [Select(r'.results, r'.errors)] else [])
  {
    var results := if e.Accepted? then r.results + [e.found] else r.results;
    var errors := if e.Rejected? then r.errors + [e.error] else r.errors;
    var completed := r.completed + 1;
    var verdicts := if completed == r.requested then r.verdicts + [Select(results, errors)] else r.verdicts;
    Round(r.requested, completed, results, errors, verdicts)
  }

  /** The round after the completions in `order` have run, in that order.
      However many have run, results and errors together hold one entry per
      completion, and the aggregation callback has run once if and only if
      the count has reached a non-zero `requested`. */
  function Collect(decoded: seq<Option<string>>, methodName: string, isValidOrder: Quote -> bool, order: seq<Completion>): (r: Round)
    requires AllInFlight(decoded, order)
    ensures r.requested == |Dispatched(decoded)|
    ensures r.completed == |order| == |r.results| + |r.errors|
    ensures |r.verdicts| == if 0 < r.requested <= |order| then 1 else 0
    decreases |order|
  {
    if |order| == 0 then Round(|Dispatched(decoded)|, 0, [], [], [])
    else
      var last := order[|order| - 1];
      Record(Collect(decoded, methodName, isValidOrder, order[..|order| - 1]), EntryOf(decoded, methodName, isValidOrder, last))
  }

  /** When the last requested completion has run, the single call to the
      aggregation callback carried the selection over the final lists. */
  lemma {:induction false} CollectFiresOnLast(decoded: seq<Option<string>>, methodName: string, isValidOrder: Quote -> bool, order: seq<Completion>)
    requires AllInFlight(decoded, order)
    requires 0 < |Dispatched(decoded)| == |order|
    ensures var r := Collect(decoded, methodName, isValidOrder, order);
      r.verdicts == [Select(r.results, r.errors)]
  {
    var prefix, last := order[..|order| - 1], order[|order| - 1];
    var r0 := Collect(decoded, methodName, isValidOrder, prefix);
    assert r0.verdicts == [];
    assert Collect(decoded, methodName, isValidOrder, order) == Record(r0, EntryOf(decoded, methodName, isValidOrder, last));
  }

  /** Running one more completion is one more callback. */
  lemma CollectSnoc(decoded: seq<Option<string>>, methodName: string, isValidOrder: Quote -> bool, order: seq<Completion>, c: Completion)
    requires AllInFlight(decoded, order + [c])
    ensures AllInFlight(decoded, order)
    ensures Collect(decoded, methodName, isValidOrder, order + [c])
      == Record(Collect(decoded, methodName, isValidOrder, order), EntryOf(decoded, methodName, isValidOrder, c))
  {
    assert (order + [c])[..|order|] == order;
    assert forall k :: 0 <= k < |order| ==> order[k] == (order + [c])[k];
  }

  /** The first completion is the first callback on an empty collector. */
  lemma CollectFirst(decoded: seq<Option<string>>, methodName: string, isValidOrder: Quote -> bool, c: Completion)
    requires AllInFlight(decoded, [c])
    ensures Collect(decoded, methodName, isValidOrder, [c])
      == Record(Round(|Dispatched(decoded)|, 0, [], [], []), EntryOf(decoded, methodName, isValidOrder, c))
  {
  }

  /** The entries of a completion order, in completion order. */
  function Entries(decoded: seq<Option<string>>, methodName: string, isValidOrder: Quote -> bool, order: seq<Completion>): (es: seq<Entry>)
    ensures |es| == |order|
    ensures forall k :: 0 <= k < |order| ==> es[k] == EntryOf(decoded, methodName, isValidOrder, order[k])
  {
    seq(|order|, k requires 0 <= k < |order| => EntryOf(decoded, methodName, isValidOrder, order[k]))
  }

  /** One more completion appends its entry. */
  lemma EntriesSnoc(decoded: seq<Option<string>>, methodName: string, isValidOrder: Quote -> bool, order: seq<Completion>, c: Completion)
    ensures Entries(decoded, methodName, isValidOrder, order + [c])
      == Entries(decoded, methodName, isValidOrder, order) + [EntryOf(decoded, methodName, isValidOrder, c)]
  {
  }

  /** The accepted entries, in order. */
  function AcceptedOf(es: seq<Entry>): seq<Found>
    decreases |es|
  {
    if |es| == 0 then []
    else
      var e := es[|es| - 1];
      AcceptedOf(es[..|es| - 1]) + (if e.Accepted? then [e.found] else [])
  }

  /** The rejected entries, in order. */
  function RejectedOf(es: seq<Entry>): seq<PeerError>
    decreases |es|
  {
    if |es| == 0 then []
    else
      var e := es[|es| - 1];
      RejectedOf(es[..|es| - 1]) + (if e.Rejected? then [e.error] else [])
  }

  /** The filters keep exactly the entries of their kind. */
  lemma {:induction false} FilterMembers(es: seq<Entry>)
    ensures forall f :: f in AcceptedOf(es) <==> Accepted(f) in es
    ensures forall x :: x in RejectedOf(es) <==> Rejected(x) in es
    decreases |es|
  {
    if |es| > 0 {
      var e := es[|es| - 1];
      assert es == es[..|es| - 1] + [e];
      FilterMembers(es[..|es| - 1]);
    }
  }

  lemma FilterSnoc(es: seq<Entry>, e: Entry)
    ensures AcceptedOf(es + [e]) == AcceptedOf(es) + (if e.Accepted? then [e.found] else [])
    ensures RejectedOf(es + [e]) == RejectedOf(es) + (if e.Rejected? then [e.error] else [])
  {
    assert (es + [e])[..|es|] == es;
  }

  /** The collected lists are exactly the completion-order filter of the
      entries: `results` the accepted ones, `errors` the rejected ones. */
  lemma {:induction false} CollectIsFilter(decoded: seq<Option<string>>, methodName: string, isValidOrder: Quote -> bool, order: seq<Completion>)
    requires AllInFlight(decoded, order)
    ensures Collect(decoded, methodName, isValidOrder, order).results == AcceptedOf(Entries(decoded, methodName, isValidOrder, order))
    ensures Collect(decoded, methodName, isValidOrder, order).errors == RejectedOf(Entries(decoded, methodName, isValidOrder, order))
    decreases |order|
  {
    if |order| > 0 {
      var prefix, last := order[..|order| - 1], order[|order| - 1];
      assert order == prefix + [last];
      CollectIsFilter(decoded, methodName, isValidOrder, prefix);
      CollectSnoc(decoded, methodName, isValidOrder, prefix, last);
      EntriesSnoc(decoded, methodName, isValidOrder, prefix, last);
      FilterSnoc(Entries(decoded, methodName, isValidOrder, prefix), EntryOf(decoded, methodName, isValidOrder, last));
    }
  }

  /** `f` is what completion `c` puts in results: its peer's locator and
      the order its peer answered with, with no error of either kind, and
      validated when the method returns orders. */
  predicate AcceptedFrom(decoded: seq<Option<string>>, methodName: string, isValidOrder: Quote -> bool, f: Found, c: Completion) {
    && f.locator == LocatorAt(decoded, c.slot)
    && c.reply.err.None? && c.reply.error.None? && f.order == c.reply.result
    && (ValidatesOrders(methodName) ==> isValidOrder(f.order))
  }

  /** `x` is what completion `c` puts in errors: its peer's locator with
      either the classified error message or, for an order that fails
      validation, the invalid-order message. */
  predicate RejectedFrom(decoded: seq<Option<string>>, methodName: string, isValidOrder: Quote -> bool, x: PeerError, c: Completion) {
    && x.locator == LocatorAt(decoded, c.slot)
    && (|| Classify(x.locator, c.reply) == Failed(x.message)
        || (ValidatesOrders(methodName) && x.message == INVALID_ORDER && !isValidOrder(c.reply.result)))
  }

  /** Each completion's entry traces back to that completion. */
  lemma EntryOfTraces(decoded: seq<Option<string>>, methodName: string, isValidOrder: Quote -> bool, c: Completion)
    ensures var e := EntryOf(decoded, methodName, isValidOrder, c);
      e.Accepted? ==> AcceptedFrom(decoded, methodName, isValidOrder, e.found, c)
    ensures var e := EntryOf(decoded, methodName, isValidOrder, c);
      e.Rejected? ==> RejectedFrom(decoded, methodName, isValidOrder, e.error, c)
  {
  }

  /** Every result is a success some peer returned, under that peer's own
      locator, and for an order method it passed validation; every error
      carries its peer's locator and either that peer's error message or the
      invalid-order message. */
  lemma {:induction false} EntriesTraceToReplies(decoded: seq<Option<string>>, methodName: string, isValidOrder: Quote -> bool, order: seq<Completion>)
    requires AllInFlight(decoded, order)
    ensures var r := Collect(decoded, methodName, isValidOrder, order);
      forall f :: f in r.results ==>
        exists k :: 0 <= k < |order| && AcceptedFrom(decoded, methodName, isValidOrder, f, order[k])
    ensures var r := Collect(decoded, methodName, isValidOrder, order);
      forall x :: x in r.errors ==>
        exists k :: 0 <= k < |order| && RejectedFrom(decoded, methodName, isValidOrder, x, order[k])
  {
    CollectIsFilter(decoded, methodName, isValidOrder, order);
    var es := Entries(decoded, methodName, isValidOrder, order);
    FilterMembers(es);
    forall f | Accepted(f) in es
      ensures exists k :: 0 <= k < |order| && AcceptedFrom(decoded, methodName, isValidOrder, f, order[k])
    {
      var k :| 0 <= k < |es| && es[k] == Accepted(f);
      EntryOfTraces(decoded, methodName, isValidOrder, order[k]);
    }
    forall x | Rejected(x) in es
      ensures exists k :: 0 <= k < |order| && RejectedFrom(decoded, methodName, isValidOrder, x, order[k])
    {
      var k :| 0 <= k < |es| && es[k] == Rejected(x);
      EntryOfTraces(decoded, methodName, isValidOrder, order[k]);
    }
  }

  /** A round in which no peer could be reached collects no result. */
  lemma {:induction false} NoAnswerNoResults(decoded: seq<Option<string>>, methodName: string, isValidOrder: Quote -> bool, order: seq<Completion>)
    requires AllInFlight(decoded, order)
    requires forall k :: 0 <= k < |order| ==> order[k].reply.err.Some?
    ensures Collect(decoded, methodName, isValidOrder, order).results == []
    decreases |order|
  {
    if |order| > 0 {
      var prefix, last := order[..|order| - 1], order[|order| - 1];
      assert prefix + [last] == order;
      CollectSnoc(decoded, methodName, isValidOrder, prefix, last);
      NoAnswerNoResults(decoded, methodName, isValidOrder, prefix);
      assert EntryOf(decoded, methodName, isValidOrder, last).Rejected?;
    }
  }

  function FoundLocators(rs: seq<Found>): seq<string> {
    seq(|rs|, i requires 0 <= i < |rs| => rs[i].locator)
  }

  function ErrorLocators(es: seq<PeerError>): seq<string> {
    seq(|es|, i requires 0 <= i < |es| => es[i].locator)
  }

  function SlotLocators(decoded: seq<Option<string>>, slots: seq<nat>): seq<string> {
    seq(|slots|, i requires 0 <= i < |slots| => LocatorAt(decoded, slots[i]))
  }

  /** The locator an entry is filed under. */
  function EntryLocator(e: Entry): string {
    if e.Accepted? then e.found.locator else e.error.locator
  }

  /** One callback adds its entry's locator to results or errors. */
  lemma RecordLocators(r: Round, e: Entry)
    ensures var r' := Record(r, e);
      multiset(FoundLocators(r'.results)) + multiset(ErrorLocators(r'.errors))
        == multiset(FoundLocators(r.results)) + multiset(ErrorLocators(r.errors)) + multiset{EntryLocator(e)}
  {
    var r' := Record(r, e);
    if e.Accepted? {
      assert FoundLocators(r'.results) == FoundLocators(r.results) + [e.found.locator];
    } else {
      assert ErrorLocators(r'.errors) == ErrorLocators(r.errors) + [e.error.locator];
    }
  }

  lemma SlotLocatorsAppend(decoded: seq<Option<string>>, order: seq<Completion>)
    requires |order| > 0
    ensures SlotLocators(decoded, Slots(order))
      == SlotLocators(decoded, Slots(order[..|order| - 1])) + [LocatorAt(decoded, order[|order| - 1].slot)]
  {
  }

  /** After any prefix of completions, the locators in results and errors
      are, as a multiset, those of the completed slots. */
  lemma {:induction false} CollectLocators(decoded: seq<Option<string>>, methodName: string, isValidOrder: Quote -> bool, order: seq<Completion>)
    requires AllInFlight(decoded, order)
    ensures var r := Collect(decoded, methodName, isValidOrder, order);
      multiset(FoundLocators(r.results)) + multiset(ErrorLocators(r.errors))
        == multiset(SlotLocators(decoded, Slots(order)))
    decreases |order|
  {
    if |order| > 0 {
      var prefix := order[..|order| - 1];
      var last := order[|order| - 1];
      CollectLocators(decoded, methodName, isValidOrder, prefix);
      var e := EntryOf(decoded, methodName, isValidOrder, last);
      var r0 := Collect(decoded, methodName, isValidOrder, prefix);
      assert Collect(decoded, methodName, isValidOrder, order) == Record(r0, e);
      RecordLocators(r0, e);
      assert EntryLocator(e) == LocatorAt(decoded, last.slot);
      SlotLocatorsAppend(decoded, order);
    }
  }

  lemma SlotLocatorsConcat(decoded: seq<Option<string>>, s: seq<nat>, t: seq<nat>)
    ensures SlotLocators(decoded, s + t) == SlotLocators(decoded, s) + SlotLocators(decoded, t)
  {
  }

  /** Removing one occurrence of `x` from a multiset-equal pair keeps them
      multiset-equal. */
  lemma RemoveLast(a: seq<nat>, b: seq<nat>, j: nat)
    requires |a| > 0 && j < |b| && b[j] == a[|a| - 1]
    requires multiset(a) == multiset(b)
    ensures multiset(a[..|a| - 1]) == multiset(b[..j] + b[j + 1..])
  {
    var x := b[j];
    assert a == a[..|a| - 1] + [x];
    assert b == b[..j] + [x] + b[j + 1..];
    assert multiset(b) == multiset(b[..j]) + multiset{x} + multiset(b[j + 1..]);
    assert multiset(b[..j] + b[j + 1..]) == multiset(b[..j]) + multiset(b[j + 1..]);
    assert multiset(a) == multiset(a[..|a| - 1]) + multiset{x};
    var left, right := multiset(a[..|a| - 1]), multiset(b[..j] + b[j + 1..]);
    assert left + multiset{x} == right + multiset{x};
    forall y
      ensures left[y] == right[y]
    {
      assert (left + multiset{x})[y] == (right + multiset{x})[y];
    }
  }

  /** Taking the slot at position `j` out of a slot list takes its locator
      out of the looked-up multiset. */
  lemma SlotLocatorsRemove(decoded: seq<Option<string>>, b: seq<nat>, j: nat)
    requires j < |b|
    ensures multiset(SlotLocators(decoded, b))
      == multiset(SlotLocators(decoded, b[..j] + b[j + 1..])) + multiset{LocatorAt(decoded, b[j])}
  {
    var front, back := b[..j], b[j + 1..];
    assert b == front + [b[j]] + back;
    SlotLocatorsConcat(decoded, front + [b[j]], back);
    SlotLocatorsConcat(decoded, front, [b[j]]);
    SlotLocatorsConcat(decoded, front, back);
    assert SlotLocators(decoded, [b[j]]) == [LocatorAt(decoded, b[j])];
  }

  /** Looking up locators respects permutation of the slots. */
  lemma {:induction false} SlotLocatorsPermute(decoded: seq<Option<string>>, a: seq<nat>, b: seq<nat>)
    requires multiset(a) == multiset(b)
    ensures multiset(SlotLocators(decoded, a)) == multiset(SlotLocators(decoded, b))
    decreases |a|
  {
    if |a| > 0 {
      var last := |a| - 1;
      assert a[last] in multiset(b);
      var j :| 0 <= j < |b| && b[j] == a[last];
      RemoveLast(a, b, j);
      assert a[..last] == a[..last] + a[last + 1..];
      SlotLocatorsPermute(decoded, a[..last] + a[last + 1..], b[..j] + b[j + 1..]);
      SlotLocatorsRemove(decoded, a, last);
      SlotLocatorsRemove(decoded, b, j);
    }
  }

  /** For every completion order, each dispatched locator ends up in
      exactly one entry of results or errors, and no other locator does:
      neither a failed decode nor an empty string ever produces an entry. */
  lemma {:induction false} EveryDispatchedPeerAccountedOnce(decoded: seq<Option<string>>, methodName: string, isValidOrder: Quote -> bool, order: seq<Completion>)
    requires IsCompletionOrder(decoded, order)
    ensures AllInFlight(decoded, order)
    ensures var r := Collect(decoded, methodName, isValidOrder, order);
      multiset(FoundLocators(r.results)) + multiset(ErrorLocators(r.errors))
        == multiset(SlotLocators(decoded, Dispatched(decoded)))
  {
    CompletionOrderInFlight(decoded, order);
    CollectLocators(decoded, methodName, isValidOrder, order);
    SlotLocatorsPermute(decoded, Slots(order), Dispatched(decoded));
  }

  /** The whole round: the calls made to the aggregation callback. With
      peers requested it is called exactly once, after the last completion,
      with the selection over everything collected; with none requested it
      is never called. */
  function MultiPeerCall(raw: seq<Bytes32>, parse: Bytes32 -> Option<string>, methodName: string,
                         isValidOrder: Quote -> bool, order: seq<Completion>): (verdicts: seq<Verdict>)
    requires IsCompletionOrder(DecodeAll(raw, parse), order)
    ensures AllInFlight(DecodeAll(raw, parse), order)
    ensures |Dispatched(DecodeAll(raw, parse))| == 0 ==> verdicts == []
    ensures |Dispatched(DecodeAll(raw, parse))| > 0 ==>
      var r := Collect(DecodeAll(raw, parse), methodName, isValidOrder, order);
      && |r.results| + |r.errors| == |Dispatched(DecodeAll(raw, parse))|
      && verdicts == [Select(r.results, r.errors)]
  {
    var decoded := DecodeAll(raw, parse);
    CompletionOrderInFlight(decoded, order);
    if |order| > 0 then
      CollectFiresOnLast(decoded, methodName, isValidOrder, order);
      Collect(decoded, methodName, isValidOrder, order).verdicts
    else
      Collect(decoded, methodName, isValidOrder, order).verdicts
  }
}
