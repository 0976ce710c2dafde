/** The network as the fetch loops see it: URLs, responses and a client that does not follow redirects. */
module Http {
  import opened Base64
  import opened Wrappers

  datatype Host = Domain(name: string) | Ipv4(address: nat) | Ipv6(address: nat)

  /** A parsed URL; `text` is its serialization, `hostText` that of its host, and `port` an explicit port in decimal. */
  datatype Url = Url(text: string, scheme: string, host: Option<Host>, hostText: string, port: Option<string>)

  /** The parts of the URL library and of the safety check that the loops rely on, left uninterpreted. */
  datatype UrlRules = UrlRules(
    parse: string -> Option<Url>,
    join: (Url, string) -> Option<Url>,
    safe: string -> bool)

  /** A header is missing, is not readable as text, or has a text. */
  datatype Header = Missing | Unreadable | Text(text: string)

  /** One read from a body stream. */
  datatype Chunk = Data(bytes: seq<Byte>) | ReadFailed

  datatype Response = Response(status: nat, location: Header, body: seq<Chunk>)

  /** What a request comes to: a response, or a send error or timeout. */
  datatype Exchange = Answered(response: Response) | SendFailed

  /**
   A client together with the rest of the network. What a request gets may depend on every
   URL requested so far, so the servers behind it are arbitrary.
   */
  class Client {
    const network: seq<string> -> Exchange
    var requested: seq<string>

    constructor (network: seq<string> -> Exchange)
      ensures this.network == network && requested == []
    {
      this.network := network;
      requested := [];
    }

    method Get(url: string) returns (exchange: Exchange)
      modifies this
      ensures requested == old(requested) + [url]
      ensures exchange == network(requested)
    {
      requested := requested + [url];
      exchange := network(requested);
    }
  }
}
