/** Normalisation of one upstream event into a Record. */
module Utils {
  import opened Common
  import opened Decimal
  import opened Externals
  import opened Response
  import opened Record

  /** The sender of a mint. */
  const ZeroAddress := "0x0000000000000000000000000000000000000000"

  /** A counterparty's display name. */
  function ToName(account: Account, lib: Library): (name: string)
    ensures account.user.username != [] ==> name == account.user.username + "(" + lib.shortAddress(account.address) + ")"
    ensures account.user.username == [] ==> name == lib.shortAddress(account.address)
  {
    var addr := lib.shortAddress(account.address);
    if account.user.username != [] then account.user.username + "(" + addr + ")" else addr
  }

  /** The two renderings of an account agree everywhere. */
  lemma NameIsAccountString(account: Account, lib: Library)
    ensures ToName(account, lib) == account.String(lib.shortAddress)
  {
  }

  /** The display name reads only the username and the address. */
  lemma NameIgnoresProfile(a: Account, b: Account, lib: Library)
    requires a.user.username == b.user.username && a.address == b.address
    ensures ToName(a, lib) == ToName(b, lib) && a.String(lib.shortAddress) == b.String(lib.shortAddress)
  {
  }

  /** The occurrence time as a local wall-clock time, or the input verbatim
      when it does not parse. */
  function ToBeijingTime(date: string, lib: Library): (r: string)
    ensures lib.parseTime(date).None? ==> r == date
    ensures lib.parseTime(date).Some? ==> r == lib.formatLocalTime(lib.parseTime(date).value)
  {
    match lib.parseTime(date)
    case None => date
    case Some(t) => lib.formatLocalTime(t)
  }

  /** A price in the token's smallest unit, shown in whole tokens followed
      by one space and the token symbol; unparsable text is kept verbatim. */
  function ToEther(price: string, payment: PaymentToken, lib: Library): (r: string)
    ensures lib.parseDecimal(price).None? ==> r == price
    ensures lib.parseDecimal(price).Some? ==>
      var amount := ToString(QuotientByPow10(lib.parseDecimal(price).value, Int32(payment.decimals)));
      && r == amount + " " + payment.symbol
      && (forall i :: 0 <= i < |amount| ==> amount[i] != ' ')
  {
    match lib.parseDecimal(price)
    case None => price
    case Some(d) =>
      var unit := Int32(payment.decimals);
      ToString(QuotientByPow10(d, unit)) + " " + payment.symbol
  }

  /** When the quotient needs at most sixteen fractional digits it is
      printed exactly: with |coefficient| * 10^k = a * 10^16 + b, the amount
      is the sign, the digits of a, and b's sixteen digits with trailing
      zeros dropped. */
  lemma ToEtherExact(price: string, payment: PaymentToken, lib: Library, a: nat, b: nat)
    requires lib.parseDecimal(price).Some?
    requires var d := lib.parseDecimal(price).value;
      var k := d.exponent - Int32(payment.decimals) + DivisionPrecision;
      && k >= 0
      && b < Pow10(DivisionPrecision)
      && Abs(d.coefficient) * Pow10(k) == a * Pow10(DivisionPrecision) + b
    ensures var d := lib.parseDecimal(price).value;
      ToEther(price, payment, lib)
        == Sign(d.coefficient) + (Digits(a) + PointAndFraction(Padded(b, DivisionPrecision))) + " " + payment.symbol
  {
    var d := lib.parseDecimal(price).value;
    var k := d.exponent - Int32(payment.decimals) + DivisionPrecision;
    var q := QuotientByPow10(d, Int32(payment.decimals));
    assert q == d.coefficient * Pow10(k);
    ScaledSign(d.coefficient, Pow10(k));
    FormatDenotes(q, DivisionPrecision, a, b);
  }

  /** 2500000000000000000 in a token with 18 decimals and symbol ETH is
      shown as "2.5 ETH". */
  lemma ToEtherExample(price: string, token: PaymentToken, lib: Library)
    requires price == "2500000000000000000" && token == PaymentToken("ETH", 18)
    requires lib.parseDecimal(price) == Some(Decimal(2500000000000000000, 0))
    ensures ToEther(price, token, lib) == "2.5 ETH"
  {
    var d := lib.parseDecimal(price).value;
    var e := Int32(token.decimals);
    var k: nat := 15;
    TwoAndAHalfQuotient(d, e, k);
    var q := QuotientByPow10(d, e);
    TwoAndAHalf(q, k);
    var amount := ToString(q);
    assert ToEther(price, token, lib) == amount + " " + token.symbol;
    assert amount + " " + token.symbol == "2.5 ETH";
  }

  /** 2500000000000000000 divided by 10^18 is two and a half. */
  lemma TwoAndAHalfQuotient(d: Decimal, e: int, k: nat)
    requires d == Decimal(2500000000000000000, 0) && e == 18 && k == 15
    ensures QuotientByPow10(d, e) == 2 * Pow10(k + 1) + 5 * Pow10(k)
  {
    assert Pow10(2) == 100;
    assert RoundMagnitude(2500000000000000000, 100) == 25000000000000000;
    Pow10Sixteen();
    assert Pow10(DivisionPrecision) == 10 * Pow10(15);
  }

  /** Two and a half at sixteen fractional digits prints as "2.5". */
  lemma TwoAndAHalf(q: int, k: nat)
    requires k + 1 == DivisionPrecision
    requires q == 2 * Pow10(k + 1) + 5 * Pow10(k)
    ensures ToString(q) == "2.5"
  {
    var b := 5 * Pow10(k);
    FormatDenotes(q, k + 1, 2, b);
    HalfFraction(k);
    assert Digits(2) == "2";
    assert Sign(q) == "";
  }

  /** Five followed by k zeros, as a fraction, prints as ".5". */
  lemma HalfFraction(k: nat)
    ensures PointAndFraction(Padded(5 * Pow10(k), k + 1)) == ".5"
  {
    LeadingDigit(5, k);
    TrimZerosAppended("5", k);
    assert [DigitChar(5)] + Zeros(k) == "5" + Zeros(k);
  }

  /** A digit d followed by k zeros, in k + 1 places. */
  lemma LeadingDigit(d: nat, k: nat)
    requires d < 10
    ensures Padded(d * Pow10(k), k + 1) == [DigitChar(d)] + Zeros(k)
  {
    PaddedConcat(d, 0, 1, k);
    assert d * Pow10(k) + 0 == d * Pow10(k) && 1 + k == k + 1;
    PaddedZero(k);
    assert d / 10 == 0 && d % 10 == d;
    assert Padded(d / 10, 0) == [];
    assert Padded(d, 1) == [] + [DigitChar(d)];
    assert [] + [DigitChar(d)] == [DigitChar(d)];
  }

  /** One upstream event as a Record. The sender must be present: the
      conversion reads its address and name unconditionally. The Go code
      hands the sender's pointer to `toName`, whose parameter is an account
      value, which does not type-check as written; the account it points to
      is what is named here. `createdAt` is the clock reading taken while
      the record is built. */
  function ToRecord(ae: AssetEvent, createdAt: int, lib: Library): (r: Record)
    requires ae.fromAccount.Some?
    // fields copied whatever the event kind
    ensures r.collection == ae.asset.collection.name && r.name == ae.asset.name
    ensures r.id == ae.asset.tokenId && r.imagePreviewUrl == ae.asset.imagePreviewUrl
    ensures r.contract == lib.checksum(ae.asset.assetContract.address)
    ensures r.from == ToName(ae.fromAccount.value, lib) && r.to == []
    ensures r.date == ToBeijingTime(ae.createdDate, lib) && r.createdAt == createdAt
    // the event label and the price field it reads
    ensures ae.eventType == EventTypeTransfer ==>
      && r.event == (if ae.fromAccount.value.address == ZeroAddress then Mint.Text() else Transfer.Text())
      && r.price == []
    ensures ae.eventType == EventTypeList ==>
      r.event == List.Text() && r.price == ToEther(ae.endingPrice, ae.paymentToken, lib)
    ensures ae.eventType == EventTypeBid ==>
      r.event == Bid.Text() && r.price == ToEther(ae.bidAmount, ae.paymentToken, lib)
    ensures ae.eventType == EventTypeBidCancel ==>
      r.event == BidCancel.Text() && r.price == ToEther(ae.totalPrice, ae.paymentToken, lib)
    ensures ae.eventType == EventTypeSale ==>
      r.event == Sale.Text() && r.price == ToEther(ae.totalPrice, ae.paymentToken, lib)
    ensures ae.eventType == EventTypeOffer ==>
      r.event == Offer.Text() && r.price == ToEther(ae.bidAmount, ae.paymentToken, lib)
    ensures ae.eventType !in EventTypes() ==> r.event == ae.eventType && r.price == []
  {
    var sender := ae.fromAccount.value;
    var r := Record(
      collection := ae.asset.collection.name,
      contract := lib.checksum(ae.asset.assetContract.address),
      name := ae.asset.name,
      id := ae.asset.tokenId,
      event := [],
      price := [],
      from := ToName(sender, lib),
      to := [],
      date := ToBeijingTime(ae.createdDate, lib),
      imagePreviewUrl := ae.asset.imagePreviewUrl,
      createdAt := createdAt);
    var token := ae.paymentToken;
    if ae.eventType == EventTypeTransfer then
      r.(event := if sender.address == ZeroAddress then Mint.Text() else Transfer.Text())
    else if ae.eventType == EventTypeList then
      r.(event := List.Text(), price := ToEther(ae.endingPrice, token, lib))
    else if ae.eventType == EventTypeBid then
      r.(event := Bid.Text(), price := ToEther(ae.bidAmount, token, lib))
    else if ae.eventType == EventTypeBidCancel then
      r.(event := BidCancel.Text(), price := ToEther(ae.totalPrice, token, lib))
    else if ae.eventType == EventTypeSale then
      r.(event := Sale.Text(), price := ToEther(ae.totalPrice, token, lib))
    else if ae.eventType == EventTypeOffer then
      r.(event := Offer.Text(), price := ToEther(ae.bidAmount, token, lib))
    else
      r.(event := ae.eventType)
  }

  /** A record labelled Mint or Transfer never carries a price, whatever
      tag it came from. */
  lemma MintAndTransferCarryNoPrice(ae: AssetEvent, createdAt: int, lib: Library)
    requires ae.fromAccount.Some?
    ensures var r := ToRecord(ae, createdAt, lib);
      r.event in {Mint.Text(), Transfer.Text()} ==> r.price == []
  {
    var r := ToRecord(ae, createdAt, lib);
    if ae.eventType in EventTypes() && ae.eventType != EventTypeTransfer {
      assert r.event in {List.Text(), Bid.Text(), BidCancel.Text(), Sale.Text(), Offer.Text()};
    }
  }

  /** The tag decides only the event and the price: two events that differ
      in nothing else give records that differ in nothing else. */
  lemma TagDecidesOnlyEventAndPrice(ae: AssetEvent, tag: string, createdAt: int, lib: Library)
    requires ae.fromAccount.Some?
    ensures var r, s := ToRecord(ae, createdAt, lib), ToRecord(ae.(eventType := tag), createdAt, lib);
      r.(event := [], price := []) == s.(event := [], price := [])
  {
  }
}
