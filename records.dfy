/** The rows the scrapers produce. */
module Records {

  /** The HTTP-like code written to the Status column. */
  datatype Status = Success | BadRequest | NotFound | RequestTimeout | ServerError
  {
    function Code(): string {
      match this
      case Success => "200"
      case BadRequest => "400"
      case NotFound => "404"
      case RequestTimeout => "408"
      case ServerError => "500"
    }
  }

  /** One output row of the batch scraper. */
  datatype Record = Record(
    urlNo: nat,
    url: string,
    sellerNames: string,
    sellerIds: string,
    delivery: string,
    status: Status,
    notes: string)
}
