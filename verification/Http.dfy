/** HTTP responses: a status, a header multimap keyed by lower-case name, and a text body. */
module Http {
  type HeaderMap = map<string, seq<string>>

  datatype Response = Response(status: nat, headers: HeaderMap, body: string)

  // `HeaderMap::insert`: the new value replaces every earlier value of that name.
  function Insert(headers: HeaderMap, name: string, value: string): HeaderMap {
    headers[name := [value]]
  }

  // Every value of that name, in order; `HeaderMap::get` is the first.
  function Get(headers: HeaderMap, name: string): seq<string> {
    if name in headers then headers[name] else []
  }
}
