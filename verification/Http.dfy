/** Requests and response headers as the cache and the limiter see them. */
module Http {

  /** Header lines by canonical name, in order of appearance. */
  type Headers = map<string, seq<string>>

  /** `http.Header.Get`: the first line of that name, or the empty string. */
  function HeaderGet(headers: Headers, name: string): string {
    if name in headers && headers[name] != [] then headers[name][0] else ""
  }

  /** Only the first line of a name counts, and a name without lines reads as empty. */
  lemma HeaderGetIs(headers: Headers, name: string, first: string, rest: seq<string>)
    ensures HeaderGet(headers[name := [first] + rest], name) == first
    ensures HeaderGet(headers[name := []], name) == HeaderGet(headers - {name}, name) == ""
  {
  }

  /** A request as `handleWithCache` receives it. */
  datatype Request = Request(verb: string, host: string, path: string, query: string, headers: Headers)
}
