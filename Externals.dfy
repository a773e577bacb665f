/** Library code the monitor calls but whose behaviour is not modelled:
    each is a deterministic function about which nothing else is assumed. */
module Externals {
  import opened Common
  import opened Decimal

  datatype Library = Library(
    /** convert.ShortAddress: the abbreviated display form of an address. */
    shortAddress: string -> string,
    /** common.HexToAddress(s).Hex(): the EIP-55 mixed-case checksum
        encoding of the 20-byte address that s denotes. */
    checksum: string -> string,
    /** decimal.NewFromString: None when the text does not parse. */
    parseDecimal: string -> Option<Decimal>,
    /** time.Parse with the layout "2006-01-02T15:04:05.999999": the instant
        in nanoseconds since the Unix epoch, or None on a parse error. */
    parseTime: string -> Option<int>,
    /** t.Local().Format("15:04:05"), which depends on the process's zone. */
    formatLocalTime: int -> string
  )
}
