/**
 * `Router`: resolves a path to a route from a fixed list, an exact path
 * match first, else the `"*"` catch-all. A route's callback is opaque here:
 * resolving a path means naming the route whose callback would run.
 */
module Routing {
  import opened Wrappers
  import opened Strings

  /** One entry of the route list: a path and the callback it runs. */
  datatype Route<V> = Route(path: string, callback: V)

  /** The path of the catch-all route. */
  const WILDCARD: string := "*"

  /** The message `loadRoute` throws when nothing matches. */
  const NOT_FOUND: string := "Route not found!"

  /** `routes.find((router) => router.path === path)`: the first route with that path. */
  function FindRoute<V>(routes: seq<Route<V>>, path: string): (r: Option<Route<V>>)
    ensures r.None? <==> forall i :: 0 <= i < |routes| ==> routes[i].path != path
    ensures r.Some? ==> r.value in routes && r.value.path == path
  {
    if routes == [] then None
    else if routes[0].path == path then Some(routes[0])
    else
      assert forall i :: 1 <= i < |routes| ==> routes[i] == routes[1..][i - 1];
      FindRoute(routes[1..], path)
  }

  /** Among routes with the same path, the first in list order is the one found. */
  lemma {:induction false} FindRouteFirst<V>(routes: seq<Route<V>>, i: nat)
    requires i < |routes|
    requires forall j :: 0 <= j < i ==> routes[j].path != routes[i].path
    ensures FindRoute(routes, routes[i].path) == Some(routes[i])
  {
    if i > 0 {
      assert routes[1..][i - 1] == routes[i];
      assert forall j :: 0 <= j < i - 1 ==> routes[1..][j] == routes[j + 1];
      FindRouteFirst(routes[1..], i - 1);
    }
  }

  /**
   * `#matchURLToRoute(path)`: the first route with exactly this path;
   * failing that, the first catch-all route; failing that, nothing.
   */
  function MatchURLToRoute<V>(routes: seq<Route<V>>, path: string): (r: Option<Route<V>>)
    ensures r.Some? ==> r.value in routes && (r.value.path == path || r.value.path == WILDCARD)
    ensures (exists i :: 0 <= i < |routes| && routes[i].path == path) ==> r.Some? && r.value.path == path
    ensures r.None? <==> forall i :: 0 <= i < |routes| ==> routes[i].path != path && routes[i].path != WILDCARD
  {
    var found := FindRoute(routes, path);
    if found.None? then FindRoute(routes, WILDCARD) else found
  }

  /** An exact match wins over the catch-all, and the first exact match wins over later ones. */
  lemma MatchExactFirst<V>(routes: seq<Route<V>>, i: nat)
    requires i < |routes|
    requires forall j :: 0 <= j < i ==> routes[j].path != routes[i].path
    ensures MatchURLToRoute(routes, routes[i].path) == Some(routes[i])
  {
    FindRouteFirst(routes, i);
  }

  /** With no exact match, the first catch-all route is chosen. */
  lemma MatchWildcardFirst<V>(routes: seq<Route<V>>, path: string, i: nat)
    requires i < |routes| && routes[i].path == WILDCARD
    requires forall j :: 0 <= j < |routes| ==> routes[j].path != path
    requires forall j :: 0 <= j < i ==> routes[j].path != WILDCARD
    ensures MatchURLToRoute(routes, path) == Some(routes[i])
  {
    FindRouteFirst(routes, i);
  }

  /**
   * `loadRoute(path)`: the route whose callback runs, or the
   * "Route not found!" error when neither an exact nor a catch-all route exists.
   */
  function LoadRoute<V>(routes: seq<Route<V>>, path: string): (r: Result<Route<V>, string>)
    ensures r.Err? <==> forall i :: 0 <= i < |routes| ==> routes[i].path != path && routes[i].path != WILDCARD
    ensures r.Err? ==> r.error == NOT_FOUND
    ensures r.Ok? ==> r.value in routes && (r.value.path == path || r.value.path == WILDCARD)
  {
    match MatchURLToRoute(routes, path)
    case None => Err(NOT_FOUND)
    case Some(route) => Ok(route)
  }

  /**
   * The path `loadInitialRoute` resolves: the pathname split on `/`, its
   * second piece, or `""` when there is only one piece.
   */
  function InitialPath(pathname: string): (path: string)
    ensures '/' !in path
  {
    var parts := Split(pathname, '/');
    if |parts| > 1 then parts[1] else ""
  }

  /** A pathname without `/` resolves to the empty path. */
  lemma InitialPathNoSlash(pathname: string)
    requires '/' !in pathname
    ensures InitialPath(pathname) == ""
  {
    SplitNone(pathname, '/');
  }

  /**
   * The resolved path is the segment between the first and the second `/`
   * (or the end): for `"/notes/1"` it is `"notes"`, for `"/"` it is `""`.
   */
  lemma InitialPathSegment(before: string, segment: string, rest: string)
    requires '/' !in before && '/' !in segment
    requires rest == [] || rest[0] == '/'
    ensures InitialPath(before + "/" + segment + rest) == segment
  {
    assert before + "/" + segment + rest == before + ['/'] + (segment + rest);
    SplitAtSeparator(before, segment + rest, '/');
    SplitPrefix(segment, rest, '/');
    assert Split(rest, '/')[0] == [] by {
      if rest != [] {
        assert rest == [] + ['/'] + rest[1..];
        SplitAtSeparator([], rest[1..], '/');
      }
    }
    assert segment + [] == segment;
  }

  /** What a navigation leaves: the history stack and the outcome of loading the route. */
  datatype Navigation<V> = Navigation(history: seq<string>, loaded: Result<Route<V>, string>)

  /** `redirect(path)`: loads the route without touching history. */
  function Redirect<V>(history: seq<string>, routes: seq<Route<V>>, path: string): (n: Navigation<V>)
    ensures n.history == history
    ensures n.loaded.Err? <==> forall i :: 0 <= i < |routes| ==> routes[i].path != path && routes[i].path != WILDCARD
  {
    Navigation(history, LoadRoute(routes, path))
  }

  /**
   * `navigateTo(path)`: pushes `path` onto the history, then loads the
   * route; the push happens even when no route matches.
   */
  function NavigateTo<V>(history: seq<string>, routes: seq<Route<V>>, path: string): (n: Navigation<V>)
    ensures n.history == history + [path]
    ensures n.loaded.Err? <==> forall i :: 0 <= i < |routes| ==> routes[i].path != path && routes[i].path != WILDCARD
  {
    Navigation(history + [path], LoadRoute(routes, path))
  }

  /** `navigateTo` and `redirect` resolve a path to the same route; only the history differs. */
  lemma NavigateLikeRedirect<V>(history: seq<string>, routes: seq<Route<V>>, path: string)
    ensures NavigateTo(history, routes, path).loaded == Redirect(history, routes, path).loaded
    ensures NavigateTo(history, routes, path).history == Redirect(history, routes, path).history + [path]
  {
  }

  /** `loadInitialRoute()`: loads the route of the pathname's first segment; history is untouched. */
  function LoadInitialRoute<V>(history: seq<string>, routes: seq<Route<V>>, pathname: string): (n: Navigation<V>)
    ensures n.history == history
    ensures n.loaded == LoadRoute(routes, InitialPath(pathname))
  {
    Redirect(history, routes, InitialPath(pathname))
  }
}
