/** Building the request sent to every peer (`getRequest`), from the side
    answer (`promptSide`), the amount, and two token answers
    (`promptToken`). Prompting itself is left out: the answers are inputs. */
module Request {
  import opened Wrappers
  import opened Text

  datatype Side = Buy | Sell

  /** A token entry of the local metadata. */
  datatype Token = Token(addr: string, name: string, decimals: nat)

  /** The local token metadata, indexed by address and by symbol. */
  datatype Metadata = Metadata(byAddress: map<string, Token>, bySymbol: map<string, Token>)

  /** A non-negative or negative decimal: `mantissa / 10^scale`, the exact
      value `new BigNumber(amount)` holds. */
  datatype Decimal = Decimal(mantissa: int, scale: nat)

  /** The RPC parameters; exactly one of the two amounts is present. */
  datatype Params = Params(
    signerToken: string,
    senderToken: string,
    senderWallet: Option<string>,
    signerAmount: Option<int>,
    senderAmount: Option<int>)

  datatype Request = Request(side: Side, signerToken: Token, senderToken: Token, methodName: string, params: Params)

  /** Why no request is built: the side answer is neither buy nor sell (the
      source exits the process), or a token answer matches no metadata entry
      (the source throws). */
  datatype RequestError = UnknownSide | TokenNotFound(value: string)

  /** `promptSide` on the user's answer: upper-case it, shorten a leading
      `B` or `S` to that letter, and reject anything else. */
  function ParseSide(answer: string): Option<Side> {
    var side := Upper(answer);
    var side := if StartsWith(side, "B") then "B" else side;
    var side := if StartsWith(side, "S") then "S" else side;
    if side == "B" then Some(Buy) else if side == "S" then Some(Sell) else None
  }

  /** Only the first letter of the answer matters, in either case. */
  lemma ParseSideByFirstLetter(answer: string)
    ensures ParseSide(answer) == Some(Buy) <==> |answer| > 0 && (answer[0] == 'b' || answer[0] == 'B')
    ensures ParseSide(answer) == Some(Sell) <==> |answer| > 0 && (answer[0] == 's' || answer[0] == 'S')
    ensures ParseSide(answer) == None
        <==> |answer| == 0 || answer[0] !in {'b', 'B', 's', 'S'}
  {
  }

  /** `promptToken` on the user's answer: a valid address present in the
      address index gives that entry; otherwise the upper-cased answer is
      looked up in the symbol index. `isAddress` stands for
      `ethers.utils.getAddress` not throwing. */
  function LookupToken(metadata: Metadata, value: string, isAddress: string -> bool): (r: Option<Token>)
    ensures r.None? <==> !(isAddress(value) && value in metadata.byAddress) && Upper(value) !in metadata.bySymbol
    ensures isAddress(value) && value in metadata.byAddress ==> r == Some(metadata.byAddress[value])
    ensures !(isAddress(value) && value in metadata.byAddress) && r.Some? ==>
      Upper(value) in metadata.bySymbol && r == Some(metadata.bySymbol[Upper(value)])
  {
    if isAddress(value) && value in metadata.byAddress then Some(metadata.byAddress[value])
    else if Upper(value) in metadata.bySymbol then Some(metadata.bySymbol[Upper(value)])
    else None
  }

  /** Every token found is an entry of the metadata. */
  lemma LookupTokenFromMetadata(metadata: Metadata, value: string, isAddress: string -> bool)
    ensures LookupToken(metadata, value, isAddress).Some? ==>
      LookupToken(metadata, value, isAddress).value in metadata.byAddress.Values + metadata.bySymbol.Values
  {
  }

  function Pow10(n: nat): (p: nat)
    ensures p > 0
  {
    if n == 0 then 1 else 10 * Pow10(n - 1)
  }

  /** `amount × 10^decimals` rounded toward negative infinity, in atomic
      units. */
  function AtomicAmount(amount: Decimal, decimals: nat): (a: int)
    ensures a * Pow10(amount.scale) <= amount.mantissa * Pow10(decimals) < (a + 1) * Pow10(amount.scale)
  {
    var scaled, unit := amount.mantissa * Pow10(decimals), Pow10(amount.scale);
    var a := scaled / unit;
    assert scaled == unit * a + scaled % unit;
    a
  }

  /** A whole amount is scaled exactly; a non-negative one stays
      non-negative. */
  lemma AtomicAmountExact(amount: Decimal, decimals: nat)
    ensures amount.scale == 0 ==> AtomicAmount(amount, decimals) == amount.mantissa * Pow10(decimals)
    ensures amount.mantissa >= 0 ==> AtomicAmount(amount, decimals) >= 0
  {
    var a, unit, scaled := AtomicAmount(amount, decimals), Pow10(amount.scale), amount.mantissa * Pow10(decimals);
    if amount.scale == 0 {
      FloorByOne(a, unit, scaled);
    }
    if amount.mantissa >= 0 {
      MulNonNegative(amount.mantissa, Pow10(decimals));
      FloorOfNonNegative(a, unit, scaled);
    }
  }

  lemma FloorByOne(a: int, unit: int, x: int)
    requires unit == 1 && a * unit <= x < (a + 1) * unit
    ensures a == x
  {
  }

  lemma FloorOfNonNegative(a: int, unit: int, x: int)
    requires unit > 0 && 0 <= x < (a + 1) * unit
    ensures a >= 0
  {
    if a < 0 {
      MulNonPositive(a + 1, unit);
    }
  }

  lemma MulNonNegative(x: int, y: int)
    requires x >= 0 && y >= 0
    ensures x * y >= 0
  {
  }

  lemma MulNonPositive(x: int, y: int)
    requires x <= 0 && y >= 0
    ensures x * y <= 0
  {
  }

  /** The request for a side, an amount, and the two tokens in the order the
      user named them. A buy asks the peer for the sender side of a trade in
      which the signer delivers `first`; a sell asks for the signer side of a
      trade in which the sender delivers `first`. The amount is always in
      units of `first`. */
  function BuildRequest(side: Side, amount: Decimal, first: Token, second: Token, kind: string, wallet: string): (q: Request)
    ensures q.side == side
    ensures side == Buy ==>
      && q.signerToken == first && q.senderToken == second
      && q.methodName == "getSenderSide" + kind
      && q.params.signerAmount == Some(AtomicAmount(amount, first.decimals))
      && q.params.senderAmount.None?
    ensures side == Sell ==>
      && q.signerToken == second && q.senderToken == first
      && q.methodName == "getSignerSide" + kind
      && q.params.senderAmount == Some(AtomicAmount(amount, first.decimals))
      && q.params.signerAmount.None?
    ensures q.params.signerToken == q.signerToken.addr && q.params.senderToken == q.senderToken.addr
    ensures q.params.senderWallet == if kind == "Order" then Some(wallet) else None
  {
    var (signerToken, senderToken) := if side == Buy then (first, second) else (second, first);
    var wallet' := if kind == "Order" then Some(wallet) else None;
    var atomic := AtomicAmount(amount, first.decimals);
    match side
    case Buy =>
      Request(side, signerToken, senderToken, "getSenderSide" + kind,
        Params(signerToken.addr, senderToken.addr, wallet', Some(atomic), None))
    case Sell =>
      Request(side, signerToken, senderToken, "getSignerSide" + kind,
        Params(signerToken.addr, senderToken.addr, wallet', None, Some(atomic)))
  }

  /** Buying and selling the same amount of `first` for `second` mirror each
      other: the tokens swap roles, the atomic amount is the same, and it
      lands in the parameter of the party that delivers `first`. */
  lemma BuyAndSellMirror(amount: Decimal, first: Token, second: Token, kind: string, wallet: string)
    ensures var b := BuildRequest(Buy, amount, first, second, kind, wallet);
      var s := BuildRequest(Sell, amount, first, second, kind, wallet);
      && b.params.signerToken == s.params.senderToken
      && b.params.senderToken == s.params.signerToken
      && b.params.signerAmount == s.params.senderAmount
      && b.params.signerAmount.Some? && s.params.signerAmount.None?
      && b.params.senderWallet == s.params.senderWallet
  {
  }

  /** For the two request kinds the commands use, the method name asks for
      order validation exactly when the kind is `Order`. */
  lemma MethodValidatesOnlyOrders(side: Side, amount: Decimal, first: Token, second: Token, kind: string, wallet: string)
    requires kind == "Order" || kind == "Quote"
    ensures Contains(BuildRequest(side, amount, first, second, kind, wallet).methodName, "Order") <==> kind == "Order"
  {
    var m := BuildRequest(side, amount, first, second, kind, wallet).methodName;
    if kind == "Order" {
      assert OccursAt(m, "Order", 13);
    } else {
      assert forall i :: 0 <= i < |m| ==> m[i] != 'O';
      NotContainsWithoutFirst(m, "Order");
    }
  }

  /** `getRequest`: the side first, then the first and the second token; the
      first failure ends the construction. */
  function GetRequest(sideAnswer: string, amount: Decimal, firstAnswer: string, secondAnswer: string,
                      metadata: Metadata, isAddress: string -> bool, kind: string, wallet: string): (r: Result<Request, RequestError>)
    ensures r.Success? <==>
      && ParseSide(sideAnswer).Some?
      && LookupToken(metadata, firstAnswer, isAddress).Some?
      && LookupToken(metadata, secondAnswer, isAddress).Some?
    ensures r == Failure(UnknownSide) <==> ParseSide(sideAnswer).None?
    ensures ParseSide(sideAnswer).Some? && LookupToken(metadata, firstAnswer, isAddress).None? ==>
      r == Failure(TokenNotFound(firstAnswer))
    ensures && ParseSide(sideAnswer).Some?
            && LookupToken(metadata, firstAnswer, isAddress).Some?
            && LookupToken(metadata, secondAnswer, isAddress).None? ==>
      r == Failure(TokenNotFound(secondAnswer))
    ensures r.Success? ==>
      r.value == BuildRequest(ParseSide(sideAnswer).value, amount,
        LookupToken(metadata, firstAnswer, isAddress).value,
        LookupToken(metadata, secondAnswer, isAddress).value, kind, wallet)
  {
    match ParseSide(sideAnswer)
    case None => Failure(UnknownSide)
    case Some(side) =>
      match LookupToken(metadata, firstAnswer, isAddress)
      case None => Failure(TokenNotFound(firstAnswer))
      case Some(first) =>
        match LookupToken(metadata, secondAnswer, isAddress)
        case None => Failure(TokenNotFound(secondAnswer))
        case Some(second) => Success(BuildRequest(side, amount, first, second, kind, wallet))
  }
}
