/**
 * `WebNoteStore`, the client of the remote notes API. The server itself is
 * an oracle: `onPost` and `onGet` say what `fetch` yields for a request.
 * What the model keeps is how a request's URL is built, how its outcome is
 * mapped (`#request`: any failure becomes `"no_network"`), and the log of
 * requests issued.
 */
module Remote {
  import opened Wrappers
  import opened Notes
  import opened Strings

  /**
   * What `fetch` produced: a thrown transport fault, or a response with its
   * `ok` flag and its body (`None` when the body is not valid JSON).
   */
  datatype Http<T> = TransportFault | Response(ok: bool, body: Option<T>)

  /**
   * What a call into the client settles to: the parsed body, the
   * `"no_network"` sentinel, or a rejected promise.
   */
  datatype Reply<T> = Value(value: T) | NoNetwork | Rejected

  /**
   * `#request`: a thrown fault or a non-`ok` status becomes `"no_network"`;
   * an `ok` response settles to its JSON body. `response.json()` is returned
   * from inside the `try` without being awaited, so a body that does not
   * parse is not caught: the call rejects.
   */
  function Settle<T>(h: Http<T>): (r: Reply<T>)
    ensures r.NoNetwork? <==> h.TransportFault? || !h.ok
    ensures r.Value? <==> h.Response? && h.ok && h.body.Some?
    ensures r.Value? ==> r.value == h.body.value
    ensures r.Rejected? <==> h.Response? && h.ok && h.body.None?
  {
    match h
    case TransportFault => NoNetwork
    case Response(ok, body) =>
      if !ok then NoNetwork
      else if body.Some? then Value(body.value)
      else Rejected
  }

  /** One `name=value` pair of a query string. */
  datatype Param = Param(name: string, value: string)

  /** The value of the first parameter called `name`, as `URLSearchParams.get` gives it. */
  function Lookup(ps: seq<Param>, name: string): Option<string>
  {
    if ps == [] then None
    else if ps[0].name == name then Some(ps[0].value)
    else Lookup(ps[1..], name)
  }

  /**
   * The parameters `all(lastSync, includeDeleted)` appends: `since` only when
   * `lastSync > 0`, `deleted=true` only when `includeDeleted`.
   */
  function ListParams(lastSync: Option<int>, includeDeleted: bool): (ps: seq<Param>)
    ensures |ps| == (if Positive(lastSync) then 1 else 0) + (if includeDeleted then 1 else 0)
    ensures Lookup(ps, "since") == if Positive(lastSync) then Some(NatToString(lastSync.value)) else None
    ensures Lookup(ps, "deleted") == if includeDeleted then Some("true") else None
  {
    (if Positive(lastSync) then [Param("since", NatToString(lastSync.value))] else [])
    + (if includeDeleted then [Param("deleted", "true")] else [])
  }

  /** `name=value` */
  function EncodeParam(p: Param): string
  {
    p.name + "=" + p.value
  }

  /** `params.toString()`: the pairs joined with `&`. */
  function EncodeParams(ps: seq<Param>): string
  {
    Join(seq(|ps|, i requires 0 <= i < |ps| => EncodeParam(ps[i])), "&")
  }

  /** `params.size > 0 ? "?" + params.toString() : ""` */
  function QuerySuffix(ps: seq<Param>): string
  {
    if |ps| > 0 then "?" + EncodeParams(ps) else ""
  }

  /** `endpoint || "/"`: an empty endpoint falls back to the site root. */
  function EndpointOrRoot(endpoint: string): (e: string)
    ensures e != ""
    ensures endpoint == "" ==> e == "/"
    ensures endpoint != "" ==> e == endpoint
  {
    if endpoint == "" then "/" else endpoint
  }

  /** The collection URL that notes are posted to. */
  function NotesUrl(endpoint: string): string
  {
    endpoint + "api/notes"
  }

  /** The URL `all(lastSync, includeDeleted)` fetches. */
  function ListUrl(endpoint: string, lastSync: Option<int>, includeDeleted: bool): (url: string)
    ensures |url| >= |NotesUrl(endpoint)| && url[..|NotesUrl(endpoint)|] == NotesUrl(endpoint)
    ensures !Positive(lastSync) && !includeDeleted ==> url == NotesUrl(endpoint)
  {
    NotesUrl(endpoint) + QuerySuffix(ListParams(lastSync, includeDeleted))
  }

  // How the server reads a query string back (form-urlencoded parsing
  // without percent-decoding, which the parameters here never need).

  /** The query part of a URL as a server cuts it: from the first `?` on, or `""` when there is none. */
  function QueryOf(url: string): (q: string)
    ensures q == [] || q[0] == '?'
    ensures '?' !in url ==> q == []
  {
    if url == [] then []
    else if url[0] == '?' then url
    else QueryOf(url[1..])
  }

  /** A prefix without `?` is no part of the query. */
  lemma {:induction false} QueryOfAfter(a: string, b: string)
    requires '?' !in a
    ensures QueryOf(a + b) == QueryOf(b)
  {
    if a != [] {
      assert a[0] in a;
      assert (a + b)[1..] == a[1..] + b;
      assert '?' !in a[1..] by {
        assert forall c :: c in a[1..] ==> c in a;
      }
      QueryOfAfter(a[1..], b);
    } else {
      assert a + b == b;
    }
  }

  /**
   * A server cutting the list URL at its first `?` gets exactly the query
   * suffix `all` built, provided the endpoint itself holds no `?`.
   */
  lemma ListUrlQuery(endpoint: string, lastSync: Option<int>, includeDeleted: bool)
    requires '?' !in endpoint
    ensures QueryOf(ListUrl(endpoint, lastSync, includeDeleted)) == QuerySuffix(ListParams(lastSync, includeDeleted))
  {
    assert '?' !in NotesUrl(endpoint);
    QueryOfAfter(NotesUrl(endpoint), QuerySuffix(ListParams(lastSync, includeDeleted)));
  }

  /** A pair is split at its first `=`. */
  function DecodeParam(part: string): Param
  {
    var kv := Split(part, '=');
    Param(kv[0], Join(kv[1..], "="))
  }

  function DecodeParams(s: string): seq<Param>
  {
    var parts := Split(s, '&');
    seq(|parts|, i requires 0 <= i < |parts| => DecodeParam(parts[i]))
  }

  /** The parameters of a query suffix: none for `""`, otherwise those after the `?`. */
  function DecodeQuery(suffix: string): seq<Param>
  {
    if suffix == [] then [] else DecodeParams(suffix[1..])
  }

  /** A name or value that needs no escaping in a query string. */
  predicate Plain(s: string)
  {
    '&' !in s && '=' !in s
  }

  /** Decoding an encoded pair gives the pair back. */
  lemma DecodeEncodeParam(p: Param)
    requires Plain(p.name) && Plain(p.value)
    ensures DecodeParam(EncodeParam(p)) == p
  {
    SplitAtSeparator(p.name, p.value, '=');
    SplitNone(p.value, '=');
    assert EncodeParam(p) == p.name + ['='] + p.value;
    assert Split(EncodeParam(p), '=')[1..] == [p.value];
  }

  /** A query suffix built from plain pairs decodes to exactly those pairs, in order. */
  lemma QueryRoundTrip(ps: seq<Param>)
    requires forall i :: 0 <= i < |ps| ==> Plain(ps[i].name) && Plain(ps[i].value)
    ensures DecodeQuery(QuerySuffix(ps)) == ps
  {
    if |ps| > 0 {
      var pieces := seq(|ps|, i requires 0 <= i < |ps| => EncodeParam(ps[i]));
      forall i | 0 <= i < |pieces|
        ensures '&' !in pieces[i]
      {
        assert pieces[i] == ps[i].name + "=" + ps[i].value;
      }
      SplitJoin(pieces, '&');
      assert QuerySuffix(ps)[1..] == Join(pieces, "&");
      var decoded := DecodeQuery(QuerySuffix(ps));
      assert |decoded| == |ps|;
      forall i | 0 <= i < |ps|
        ensures decoded[i] == ps[i]
      {
        DecodeEncodeParam(ps[i]);
      }
    }
  }

  /** A rendered number is plain: it is all digits. */
  lemma NatToStringPlain(n: nat)
    ensures Plain(NatToString(n))
  {
    var s := NatToString(n);
    assert forall i :: 0 <= i < |s| ==> IsDigit(s[i]);
  }

  /**
   * A server reading the list URL recovers exactly what `all` asked for: a `since` that parses
   * back to `lastSync` when (and only when) `lastSync > 0`, and
   * `deleted=true` when (and only when) `includeDeleted`.
   */
  lemma ListQueryRecovered(endpoint: string, lastSync: Option<int>, includeDeleted: bool)
    requires '?' !in endpoint
    ensures var ps := DecodeQuery(QueryOf(ListUrl(endpoint, lastSync, includeDeleted)));
            && (Lookup(ps, "since").Some? <==> Positive(lastSync))
            && (Positive(lastSync) ==> forall i :: 0 <= i < |Lookup(ps, "since").value| ==> IsDigit(Lookup(ps, "since").value[i]))
            && (Positive(lastSync) ==> ParseDigits(Lookup(ps, "since").value) == lastSync.value)
            && Lookup(ps, "deleted") == (if includeDeleted then Some("true") else None)
  {
    var ps := ListParams(lastSync, includeDeleted);
    if Positive(lastSync) {
      NatToStringPlain(lastSync.value);
      ParseNatToString(lastSync.value);
    }
    QueryRoundTrip(ps);
    ListUrlQuery(endpoint, lastSync, includeDeleted);
  }

  /** A request the client sent, in the order sent. */
  datatype HttpRequest = Post(url: string, body: Note) | Get(url: string)

  class WebNoteStore {
    /** The API root, `endpoint || "/"`. */
    const endpoint: string
    /** What the server answers to a POST of a note. */
    const onPost: Note -> Http<Note>
    /** What the server answers to a GET of a URL. */
    const onGet: string -> Http<seq<Note>>
    /** Every request issued so far. */
    ghost var requests: seq<HttpRequest>

    constructor(endpoint: string, onPost: Note -> Http<Note>, onGet: string -> Http<seq<Note>>)
      ensures this.endpoint == EndpointOrRoot(endpoint) && this.endpoint != ""
      ensures this.onPost == onPost && this.onGet == onGet
      ensures requests == []
    {
      this.endpoint := EndpointOrRoot(endpoint);
      this.onPost := onPost;
      this.onGet := onGet;
      requests := [];
    }

    /** `add(note)`: POSTs the note to the collection; failures settle to `NoNetwork`. */
    method Add(note: Note) returns (r: Reply<Note>)
      modifies this
      ensures requests == old(requests) + [Post(NotesUrl(endpoint), note)]
      ensures r == Settle(onPost(note))
    {
      requests := requests + [Post(NotesUrl(endpoint), note)];
      r := Settle(onPost(note));
    }

    /** `all(lastSync, includeDeleted)`: GETs the collection with the query built from the two flags. */
    method All(lastSync: Option<int>, includeDeleted: bool) returns (r: Reply<seq<Note>>)
      modifies this
      ensures requests == old(requests) + [Get(ListUrl(endpoint, lastSync, includeDeleted))]
      ensures r == Settle(onGet(ListUrl(endpoint, lastSync, includeDeleted)))
    {
      var url := ListUrl(endpoint, lastSync, includeDeleted);
      requests := requests + [Get(url)];
      r := Settle(onGet(url));
    }
  }
}
