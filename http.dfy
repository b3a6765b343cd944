/**
 * The part of the Fetch API the distribution client relies on: requests,
 * responses, URLs with their search parameters, and a server that answers
 * requests one by one. The server's answers are an oracle: a sequence of
 * responses fixed in advance and consumed in order. Running out of answers
 * stands for a request that could not be sent or received.
 */
module Http {
  import opened Common

  datatype Method = GET | HEAD | POST | PUT | PATCH

  /**
   * A URL given as a reference resolved against a base URL, plus the search parameters the
   * client sets on it afterwards. How the reference resolves against the base
   * is not modelled; two URLs are the same when these three parts are.
   */
  datatype Url = Url(reference: string, base: string, query: seq<(string, string)>)

  /** The request headers the client sets, kept structured rather than rendered as text. */
  datatype Header =
    | Accept(mediaType: string)
    | Authorization(credentials: string)
    | ContentType(mediaType: string)
    | ContentLength(length: int)
    | ContentRange(first: int, last: int)

  datatype Request = Request(verb: Method, url: Url, headers: seq<Header>, body: seq<Byte>)

  /** A response: its status and its `Location` header, when it has one. */
  datatype Response = Response(status: int, location: Option<string>)
  {
    /** `Response.ok`: the status is in the range 200-299. */
    predicate Ok()
    {
      200 <= status <= 299
    }
  }

  /** A request together with the response the server gave to it. */
  datatype Exchange = Exchange(request: Request, response: Response)

  /** The values given to `name` in a query, in order (`URLSearchParams.getAll`). */
  function ValuesOf(query: seq<(string, string)>, name: string): seq<string>
  {
    if query == [] then []
    else (if query[0].0 == name then [query[0].1] else []) + ValuesOf(query[1..], name)
  }

  /** Replaces the first pair named `name` (unless `seen`) and drops every later one. */
  function ReplaceFirst(query: seq<(string, string)>, name: string, value: string, seen: bool): seq<(string, string)>
  {
    if query == [] then []
    else if query[0].0 == name then
      (if seen then [] else [(name, value)]) + ReplaceFirst(query[1..], name, value, true)
    else [query[0]] + ReplaceFirst(query[1..], name, value, seen)
  }

  lemma {:induction false} ReplaceFirstValues(query: seq<(string, string)>, name: string, value: string, seen: bool, other: string)
    ensures other != name ==> ValuesOf(ReplaceFirst(query, name, value, seen), other) == ValuesOf(query, other)
    ensures ValuesOf(ReplaceFirst(query, name, value, seen), name) ==
      if seen || ValuesOf(query, name) == [] then [] else [value]
  {
    if query != [] {
      var rest := ReplaceFirst(query[1..], name, value, if query[0].0 == name then true else seen);
      ReplaceFirstValues(query[1..], name, value, if query[0].0 == name then true else seen, other);
      if query[0].0 == name {
        assert ReplaceFirst(query, name, value, seen) == (if seen then [] else [(name, value)]) + rest;
        ValuesOfAppend(if seen then [] else [(name, value)], rest, name);
        ValuesOfAppend(if seen then [] else [(name, value)], rest, other);
      } else {
        assert ReplaceFirst(query, name, value, seen) == [query[0]] + rest;
        ValuesOfAppend([query[0]], rest, name);
        ValuesOfAppend([query[0]], rest, other);
      }
    }
  }

  lemma {:induction false} ValuesOfAppend(a: seq<(string, string)>, b: seq<(string, string)>, name: string)
    ensures ValuesOf(a + b, name) == ValuesOf(a, name) + ValuesOf(b, name)
  {
    if a != [] {
      assert (a + b)[0] == a[0] && (a + b)[1..] == a[1..] + b;
      ValuesOfAppend(a[1..], b, name);
      var head := if a[0].0 == name then [a[0].1] else [];
      calc {
        ValuesOf(a + b, name);
        head + ValuesOf(a[1..] + b, name);
        head + (ValuesOf(a[1..], name) + ValuesOf(b, name));
        (head + ValuesOf(a[1..], name)) + ValuesOf(b, name);
      }
    } else {
      assert a + b == b;
    }
  }

  /**
   * Sets one search parameter: the first pair named `name` gets the
   * new value and the others are removed; without such a pair, one is appended.
   */
  function SetParam(url: Url, name: string, value: string): (r: Url)
    ensures r.reference == url.reference && r.base == url.base
    ensures ValuesOf(r.query, name) == [value]
    ensures forall other :: other != name ==> ValuesOf(r.query, other) == ValuesOf(url.query, other)
  {
    SetQueryValues(url.query, name, value);
    Url(url.reference, url.base, SetQuery(url.query, name, value))
  }

  function SetQuery(query: seq<(string, string)>, name: string, value: string): seq<(string, string)>
  {
    if ValuesOf(query, name) != [] then ReplaceFirst(query, name, value, false) else query + [(name, value)]
  }

  lemma SetQueryValues(query: seq<(string, string)>, name: string, value: string)
    ensures ValuesOf(SetQuery(query, name, value), name) == [value]
    ensures forall other :: other != name ==> ValuesOf(SetQuery(query, name, value), other) == ValuesOf(query, other)
  {
    if ValuesOf(query, name) != [] {
      ReplaceFirstValues(query, name, value, false, name);
    } else {
      ValuesOfAppend(query, [(name, value)], name);
    }
    forall other | other != name
      ensures ValuesOf(SetQuery(query, name, value), other) == ValuesOf(query, other)
    {
      ReplaceFirstValues(query, name, value, false, other);
      ValuesOfAppend(query, [(name, value)], other);
    }
  }

  /**
   * The remote end of the connection. `replies` are the answers still to come;
   * `exchanges` records every request that reached the server with its answer.
   */
  class Server {
    var replies: seq<Response>
    var exchanges: seq<Exchange>

    constructor (replies: seq<Response>)
      ensures this.replies == replies && exchanges == []
    {
      this.replies := replies;
      exchanges := [];
    }

    /** Sends one request; `None` when no answer comes back. */
    method Send(request: Request) returns (response: Option<Response>)
      modifies this
      ensures old(replies) == [] ==>
        response == None && replies == old(replies) && exchanges == old(exchanges)
      ensures old(replies) != [] ==>
        && response == Some(old(replies)[0])
        && replies == old(replies)[1..]
        && exchanges == old(exchanges) + [Exchange(request, old(replies)[0])]
    {
      if replies == [] {
        response := None;
      } else {
        response := Some(replies[0]);
        exchanges := exchanges + [Exchange(request, replies[0])];
        replies := replies[1..];
      }
    }
  }
}
