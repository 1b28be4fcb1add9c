/**
 * The boundary to the HTTP transport: the request the client hands it and the
 * outcome the transport later passes to the request callback.
 */
module Http {
  import opened Wrappers

  datatype Verb = Get | Post

  /** One request as the client issues it: verb, full URL, headers and optional body text. */
  datatype Request = Request(verb: Verb, url: string, headers: map<string, string>, body: Option<string>)

  /** What a successful exchange yields: the `set-cookie` response header and the raw body text. */
  datatype Response = Response(setCookie: string, body: string)

  /** The transport's answer: a response, or the error the callback receives as `err`. */
  datatype Transport = Delivered(response: Response) | Failed(cause: string)
}
