/** The upstream marketplace payloads: events, accounts and collections. */
module Response {
  import opened Common

  datatype User = User(username: string)

  datatype Account = Account(user: User, profileImgUrl: string, address: string, config: string)
  {
    /** The display name: "username(short address)" when the account has a
        username, the short address alone otherwise. */
    function String(shortAddress: string -> string): (s: string)
      ensures user.username != [] ==> s == user.username + "(" + shortAddress(address) + ")"
      ensures user.username == [] ==> s == shortAddress(address)
    {
      var addr := shortAddress(address);
      if user.username != [] then user.username + "(" + addr + ")" else addr
    }
  }

  datatype PaymentToken = PaymentToken(symbol: string, decimals: int)

  datatype AssetContract = AssetContract(address: string, name: string)

  datatype AssetCollection = AssetCollection(name: string)

  datatype Asset = Asset(
    tokenId: string,
    name: string,
    assetContract: AssetContract,
    collection: AssetCollection,
    imagePreviewUrl: string)

  /** One upstream event. The account fields are optional in the payload. */
  datatype AssetEvent = AssetEvent(
    asset: Asset,
    eventType: string,
    bidAmount: string,
    endingPrice: string,
    totalPrice: string,
    createdDate: string,
    fromAccount: Option<Account>,
    toAccount: Option<Account>,
    owner: Option<Account>,
    seller: Option<Account>,
    winnerAccount: Option<Account>,
    paymentToken: PaymentToken)

  /** The event-type tags of the upstream feed. */
  const EventTypeTransfer := "transfer"
  const EventTypeList := "created"
  const EventTypeBid := "bid_entered"
  const EventTypeBidCancel := "bid_withdrawn"
  const EventTypeSale := "successful"
  const EventTypeOffer := "offer_entered"

  function EventTypes(): (tags: seq<string>) {
    [EventTypeTransfer, EventTypeList, EventTypeBid, EventTypeBidCancel, EventTypeSale, EventTypeOffer]
  }

  /** No two tags coincide, so at most one case of a switch on the tag applies. */
  lemma EventTypesDistinct()
    ensures forall i, j :: 0 <= i < j < |EventTypes()| ==> EventTypes()[i] != EventTypes()[j]
  {
  }

  /** The seven-day statistics of a collection are floating-point figures;
      the only use made of them is the comparison of the seven-day volume
      with 100, which is kept here as its outcome. */
  datatype RawStat = RawStat(sevenDayVolumeBelow100: bool)

  datatype RawAssetContract = RawAssetContract(address: string, name: string)

  datatype RawCollection = RawCollection(
    name: string,
    description: string,
    primaryAssetContracts: seq<RawAssetContract>,
    stats: RawStat,
    createdDate: string)
}
