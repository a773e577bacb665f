/** The canonical notification record and the stored entities. */
module Record {
  import opened Response

  /** The seven event labels a record can carry for a recognised tag. */
  datatype EventLabel = Sale | Offer | Bid | BidCancel | Transfer | Mint | List
  {
    function Text(): (text: string) {
      match this
      case Sale => "Sale"
      case Offer => "Offer"
      case Bid => "Bid"
      case BidCancel => "Bid Cancel"
      case Transfer => "Transfer"
      case Mint => "Mint"
      case List => "List"
    }
  }

  /** One normalised marketplace event. `createdAt` is an instant in
      nanoseconds since the Unix epoch. */
  datatype Record = Record(
    collection: string,
    contract: string,
    name: string,
    id: string,
    event: string,
    price: string,
    from: string,
    to: string,
    date: string,
    imagePreviewUrl: string,
    createdAt: int)

  /** One marketplace collection as the ranking job stores it. */
  datatype Item = Item(name: string, address: string, stats: RawStat)

  /** A tracked collection as stored in the projects collection. */
  datatype Project = Project(index: int, name: string, address: string)
}
