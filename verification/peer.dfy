/** One remote-procedure exchange with a single peer (`peerCall`): the choice
    of transport from the locator's scheme, and the classification of the
    reply into exactly one outcome. */
module Peer {
  import opened Wrappers
  import opened Text

  /** The JSON-RPC client the locator selects. */
  datatype Transport = Http | Https

  /** Characters Node's legacy URL parser accepts in a scheme. */
  predicate SchemeChar(c: char) {
    || 'a' <= c <= 'z' || 'A' <= c <= 'Z' || '0' <= c <= '9'
    || c == '.' || c == '+' || c == '-'
  }

  /** Length of the longest run of scheme characters at the start of `s`. */
  function SchemeLength(s: string): (n: nat)
    ensures n <= |s|
    ensures forall i :: 0 <= i < n ==> SchemeChar(s[i])
    ensures n < |s| ==> !SchemeChar(s[n])
  {
    if |s| == 0 || !SchemeChar(s[0]) then 0 else 1 + SchemeLength(s[1..])
  }

  /** `url.parse(locator).protocol`: a non-empty run of scheme characters
      followed by a colon, lower-cased, colon included; absent otherwise. */
  function Protocol(locator: string): Option<string> {
    var n := SchemeLength(locator);
    if 0 < n < |locator| && locator[n] == ':' then Some(Lower(locator[..n + 1])) else None
  }

  function SelectTransport(locator: string): Transport {
    if Protocol(locator) == Some("https:") then Https else Http
  }

  /** The https client is chosen exactly for locators that begin with
      `https:` in any letter case; every other locator, whatever its scheme
      or lack of one, gets the plain http client. */
  lemma TransportIsHttpsIff(locator: string)
    ensures SelectTransport(locator) == Https
        <==> |locator| >= 6 && Lower(locator[..6]) == "https:"
  {
    var n := SchemeLength(locator);
    if |locator| >= 6 && Lower(locator[..6]) == "https:" {
      assert forall i :: 0 <= i < 5 ==> LowerChar(locator[i]) == "https:"[i];
      assert forall i :: 0 <= i < 5 ==> SchemeChar(locator[i]);
      assert locator[5] == ':';
      assert n == 5;
    }
    if SelectTransport(locator) == Https {
      assert |Lower(locator[..n + 1])| == 6;
      assert locator[..n + 1] == locator[..6];
    }
  }

  /** The application-level error object of a JSON-RPC reply. */
  datatype MakerFault = MakerFault(message: string)

  /** The three arguments jayson hands to the request callback: a transport
      error, an application error and the result payload. */
  datatype Reply<P> = Reply(err: Option<string>, error: Option<MakerFault>, result: P)

  /** What `peerCall` passes on: an error message, or the payload. */
  datatype Outcome<P> = Failed(message: string) | Answered(payload: P)

  const CONNECTION_ERROR: string := "Connection Error"
  const MAKER_ERROR: string := "Maker Error"

  function ConnectionErrorMessage(locator: string, err: string): string {
    "\n" + CONNECTION_ERROR + ": " + locator + " \n " + err
  }

  function MakerErrorMessage(message: string): string {
    "\n" + MAKER_ERROR + ": " + message + "\n"
  }

  /** Classifies one reply. The transport error is checked first, then the
      application error; only a reply with neither is a success. */
  function Classify<P>(locator: string, reply: Reply<P>): (r: Outcome<P>)
    ensures r.Answered? <==> reply.err.None? && reply.error.None?
    ensures r.Answered? ==> r.payload == reply.result
    ensures reply.err.Some? ==>
      && r.Failed?
      && StartsWith(r.message, "\n" + CONNECTION_ERROR)
      && Contains(r.message, locator)
      && Contains(r.message, reply.err.value)
    ensures reply.err.None? && reply.error.Some? ==>
      && r.Failed?
      && StartsWith(r.message, "\n" + MAKER_ERROR)
      && Contains(r.message, reply.error.value.message)
  {
    match reply
    case Reply(Some(err), _, _) =>
      var m := ConnectionErrorMessage(locator, err);
      assert OccursAt(m, locator, 1 + |CONNECTION_ERROR| + 2);
      assert OccursAt(m, err, |m| - |err|);
      assert m[..1 + |CONNECTION_ERROR|] == "\n" + CONNECTION_ERROR;
      Failed(m)
    case Reply(None, Some(fault), _) =>
      var m := MakerErrorMessage(fault.message);
      assert OccursAt(m, fault.message, 1 + |MAKER_ERROR| + 2);
      Failed(m)
    case Reply(None, None, result) =>
      Answered(result)
  }

  /** A connection error can never be mistaken for a maker error: the two
      messages differ in their second character. */
  lemma ErrorKindsDistinct(locator: string, err: string, message: string)
    ensures ConnectionErrorMessage(locator, err) != MakerErrorMessage(message)
  {
    assert ConnectionErrorMessage(locator, err)[1] == 'C';
    assert MakerErrorMessage(message)[1] == 'M';
  }
}
