/**
 * The redirect URIs of an SSO client: root paths (`/` and its wildcard form) are
 * placeholders, the callback URI is generated when the client gives no
 * real URI, and authservice clients always carry the callback. The
 * callback URI itself (a hash of host and client id) and URL parsing are
 * parameters.
 */
module RedirectUris {
  import opened Wrappers
  import opened AssocLists
  import opened Crd

  /** The two root paths that stand for "no redirect URI". */
  predicate IsRootPath(uri: string)
  {
    uri == "/" || uri == "/*"
  }

  /** hasRootPaths: some URI is a root path; false without a list. */
  predicate HasRootPaths(redirectUris: Option<seq<string>>)
  {
    redirectUris.Some? && exists i :: 0 <= i < |redirectUris.value| && IsRootPath(redirectUris.value[i])
  }

  /** filterRootPaths: the URIs that are not root paths, in their order. */
  function FilterRootPaths(redirectUris: seq<string>): (r: seq<string>)
    ensures forall u :: u in r <==> u in redirectUris && !IsRootPath(u)
    ensures |r| <= |redirectUris|
    ensures |r| == |redirectUris| <==> forall i :: 0 <= i < |redirectUris| ==> !IsRootPath(redirectUris[i])
  {
    if |redirectUris| == 0 then []
    else
      var rest := FilterRootPaths(redirectUris[1..]);
      assert forall u :: u in redirectUris <==> u == redirectUris[0] || u in redirectUris[1..];
      if IsRootPath(redirectUris[0]) then rest else [redirectUris[0]] + rest
  }

  /** Filtering twice filters once. */
  lemma {:induction false} FilterRootPathsIdempotent(redirectUris: seq<string>)
    ensures FilterRootPaths(FilterRootPaths(redirectUris)) == FilterRootPaths(redirectUris)
  {
    if |redirectUris| > 0 {
      FilterRootPathsIdempotent(redirectUris[1..]);
      var rest := FilterRootPaths(redirectUris[1..]);
      if !IsRootPath(redirectUris[0]) {
        assert ([redirectUris[0]] + rest)[1..] == rest;
      }
    }
  }

  /** Filtering a concatenation filters each part. */
  lemma {:induction false} FilterRootPathsAppend(a: seq<string>, b: seq<string>)
    ensures FilterRootPaths(a + b) == FilterRootPaths(a) + FilterRootPaths(b)
  {
    if |a| > 0 {
      var ab := a + b;
      assert ab[0] == a[0] && ab[1..] == a[1..] + b;
      FilterRootPathsAppend(a[1..], b);
      var rest := FilterRootPaths(a[1..] + b);
      assert FilterRootPaths(ab) == if IsRootPath(a[0]) then rest else [a[0]] + rest;
      assert FilterRootPaths(a) == if IsRootPath(a[0]) then FilterRootPaths(a[1..]) else [a[0]] + FilterRootPaths(a[1..]);
    } else {
      assert a + b == b;
    }
  }

  /** The list holds URIs and every one of them is a root path. */
  predicate OnlyRootPaths(redirectUris: seq<string>)
  {
    |redirectUris| > 0 && forall i :: 0 <= i < |redirectUris| ==> IsRootPath(redirectUris[i])
  }

  /** The guard of processRedirectUris is true exactly for a non-empty list of root paths only. */
  lemma RootOnlyGuard(redirectUris: seq<string>)
    ensures HasRootPaths(Some(redirectUris)) && |FilterRootPaths(redirectUris)| == 0 <==> OnlyRootPaths(redirectUris)
  {
    var f := FilterRootPaths(redirectUris);
    if OnlyRootPaths(redirectUris) {
      assert IsRootPath(redirectUris[0]);
    }
    if |f| == 0 {
      forall i | 0 <= i < |redirectUris|
        ensures IsRootPath(redirectUris[i])
      {
        assert redirectUris[i] in redirectUris;
      }
    }
  }

  /**
   * processRedirectUris: the callback alone when the client gives no URI
   * or only root paths; otherwise the client's URIs, with the callback
   * appended for an authservice client that does not list it yet.
   */
  function ProcessRedirectUris(redirectUris: Option<seq<string>>, callbackUri: string, isAuthserviceClient: bool): (r: seq<string>)
    ensures |r| >= 1
    ensures forall u :: u in r ==> u == callbackUri || (redirectUris.Some? && u in redirectUris.value)
    ensures isAuthserviceClient ==> callbackUri in r
  {
    if redirectUris.None? || |redirectUris.value| == 0 then [callbackUri]
    else
      var uris := redirectUris.value;
      if HasRootPaths(redirectUris) && |FilterRootPaths(uris)| == 0 then [callbackUri]
      else if isAuthserviceClient then
        if callbackUri !in uris then uris + [callbackUri] else uris
      else uris
  }

  /** No list, an empty list or root paths only: the callback is the one URI. */
  lemma ProcessWithoutRealUris(redirectUris: Option<seq<string>>, callbackUri: string, isAuthserviceClient: bool)
    requires redirectUris.None? || |redirectUris.value| == 0 || OnlyRootPaths(redirectUris.value)
    ensures ProcessRedirectUris(redirectUris, callbackUri, isAuthserviceClient) == [callbackUri]
  {
    if redirectUris.Some? {
      RootOnlyGuard(redirectUris.value);
    }
  }

  /**
   * With at least one real URI the client's list is kept as it is, in its
   * order: a non-authservice client gets it back unchanged, an
   * authservice client gets the callback at the end once, and never twice.
   */
  lemma ProcessKeepsClientUris(uris: seq<string>, callbackUri: string, isAuthserviceClient: bool)
    requires exists i :: 0 <= i < |uris| && !IsRootPath(uris[i])
    ensures var r := ProcessRedirectUris(Some(uris), callbackUri, isAuthserviceClient);
      && r[..|uris|] == uris
      && (!isAuthserviceClient ==> r == uris)
      && (isAuthserviceClient && callbackUri in uris ==> r == uris)
      && (isAuthserviceClient && callbackUri !in uris ==> r == uris + [callbackUri])
  {
    RootOnlyGuard(uris);
    var r := ProcessRedirectUris(Some(uris), callbackUri, isAuthserviceClient);
    if r != uris {
      assert r == uris + [callbackUri];
      assert r[..|uris|] == uris;
    }
  }

  /** An authservice client's URIs hold the callback once when the client's own list held it at most once. */
  lemma ProcessCallbackOnce(uris: seq<string>, callbackUri: string)
    requires exists i :: 0 <= i < |uris| && !IsRootPath(uris[i])
    requires forall i, j :: 0 <= i < j < |uris| && uris[i] == callbackUri ==> uris[j] != callbackUri
    ensures var r := ProcessRedirectUris(Some(uris), callbackUri, true);
      forall i, j :: 0 <= i < j < |r| && r[i] == callbackUri ==> r[j] != callbackUri
  {
    ProcessKeepsClientUris(uris, callbackUri, true);
  }

  /** Processing the processed list again changes nothing, unless the callback is itself a root path. */
  lemma ProcessIdempotent(redirectUris: Option<seq<string>>, callbackUri: string, isAuthserviceClient: bool)
    requires !IsRootPath(callbackUri)
    ensures var r := ProcessRedirectUris(redirectUris, callbackUri, isAuthserviceClient);
      ProcessRedirectUris(Some(r), callbackUri, isAuthserviceClient) == r
  {
    var r := ProcessRedirectUris(redirectUris, callbackUri, isAuthserviceClient);
    if r == [callbackUri] {
      assert !IsRootPath(r[0]);
      ProcessKeepsClientUris(r, callbackUri, isAuthserviceClient);
    } else {
      assert redirectUris.Some? && |redirectUris.value| > 0;
      var uris := redirectUris.value;
      RootOnlyGuard(uris);
      var i :| 0 <= i < |uris| && !IsRootPath(uris[i]);
      ProcessKeepsClientUris(uris, callbackUri, isAuthserviceClient);
      assert r[i] == uris[i];
      ProcessKeepsClientUris(r, callbackUri, isAuthserviceClient);
    }
  }

  // ---------------------------------------------------------------------
  // Host names
  // ---------------------------------------------------------------------

  /** Every key of the selector has the same value in the expose entry's selector. */
  predicate ExposeMatches(expose: Expose, selector: Selector)
  {
    forall k :: k in Keys(selector) ==> expose.selector.Some? && Get(expose.selector.value, k) == Get(selector, k)
  }

  /** The index of the first matching expose entry at or after `from`, or -1. */
  function FindExposeFrom(exposes: seq<Expose>, selector: Selector, from: nat): (r: int)
    ensures r == -1 || (from <= r < |exposes| && ExposeMatches(exposes[r], selector))
    ensures r == -1 ==> forall j :: from <= j < |exposes| ==> !ExposeMatches(exposes[j], selector)
    ensures r != -1 ==> forall j :: from <= j < r ==> !ExposeMatches(exposes[j], selector)
    decreases |exposes| - from
  {
    if from >= |exposes| then -1
    else if ExposeMatches(exposes[from], selector) then from
    else FindExposeFrom(exposes, selector, from + 1)
  }

  /** findMatchingExpose: the first expose entry whose selector agrees on every key asked for. */
  function FindMatchingExpose(exposes: seq<Expose>, selector: Selector): (r: Option<Expose>)
    ensures r.Some? ==> ExposeMatches(r.value, selector)
    ensures r.None? <==> forall j :: 0 <= j < |exposes| ==> !ExposeMatches(exposes[j], selector)
    ensures r.Some? ==>
              exists i :: 0 <= i < |exposes| && exposes[i] == r.value && forall j :: 0 <= j < i ==> !ExposeMatches(exposes[j], selector)
  {
    var i := FindExposeFrom(exposes, selector, 0);
    if i < 0 then None else Some(exposes[i])
  }

  /** An empty selector matches every entry, with or without a selector of its own. */
  lemma EmptySelectorMatchesFirst(exposes: seq<Expose>)
    requires |exposes| > 0
    ensures FindMatchingExpose(exposes, []) == Some(exposes[0])
  {
    assert ExposeMatches(exposes[0], []);
  }

  /** The host name of the first URI that is not a root path and parses, at or after `from`. */
  function UriHostnameFrom(redirectUris: seq<string>, from: nat, hostnameOf: string -> Option<string>): (r: Option<string>)
    ensures r.Some? ==> exists i :: from <= i < |redirectUris| && !IsRootPath(redirectUris[i]) && hostnameOf(redirectUris[i]) == r
    ensures r.None? <==> forall i :: from <= i < |redirectUris| && !IsRootPath(redirectUris[i]) ==> hostnameOf(redirectUris[i]).None?
    decreases |redirectUris| - from
  {
    if from >= |redirectUris| then None
    else if !IsRootPath(redirectUris[from]) && hostnameOf(redirectUris[from]).Some? then hostnameOf(redirectUris[from])
    else UriHostnameFrom(redirectUris, from + 1, hostnameOf)
  }

  /**
   * extractHostname: the host of the first redirect URI that is not a root
   * path and parses as a URL (`hostnameOf`, None when `new URL` throws);
   * otherwise, given the package's expose entries and a selector, the host
   * of the first matching entry; otherwise the error, None.
   */
  function ExtractHostname(redirectUris: Option<seq<string>>, exposes: Option<seq<Expose>>, selector: Option<Selector>,
                           hostnameOf: string -> Option<string>): (r: Option<string>)
    ensures r.None? ==> redirectUris.None? || UriHostnameFrom(redirectUris.value, 0, hostnameOf).None?
    ensures r.None? && exposes.Some? && selector.Some? ==> FindMatchingExpose(exposes.value, selector.value).None?
  {
    var fromUris := if redirectUris.Some? then UriHostnameFrom(redirectUris.value, 0, hostnameOf) else None;
    if fromUris.Some? then fromUris
    else if exposes.Some? && selector.Some? then
      var e := FindMatchingExpose(exposes.value, selector.value);
      if e.Some? then Some(e.value.host) else None
    else None
  }

  /** A parseable URI wins over the expose entries; root paths are never used. */
  lemma ExtractHostnamePrefersUris(redirectUris: seq<string>, exposes: Option<seq<Expose>>, selector: Option<Selector>,
                                   hostnameOf: string -> Option<string>, i: nat)
    requires i < |redirectUris| && !IsRootPath(redirectUris[i]) && hostnameOf(redirectUris[i]).Some?
    requires forall j :: 0 <= j < i && !IsRootPath(redirectUris[j]) ==> hostnameOf(redirectUris[j]).None?
    ensures ExtractHostname(Some(redirectUris), exposes, selector, hostnameOf) == hostnameOf(redirectUris[i])
  {
    UriHostnameFirst(redirectUris, 0, hostnameOf, i);
  }

  /** Without a usable redirect URI the first matching expose entry gives the host. */
  lemma ExtractHostnameFallsBack(redirectUris: Option<seq<string>>, exposes: seq<Expose>, selector: Selector,
                                 hostnameOf: string -> Option<string>)
    requires redirectUris.None? || forall i :: 0 <= i < |redirectUris.value| && !IsRootPath(redirectUris.value[i]) ==> hostnameOf(redirectUris.value[i]).None?
    ensures FindMatchingExpose(exposes, selector).Some? ==>
              ExtractHostname(redirectUris, Some(exposes), Some(selector), hostnameOf) == Some(FindMatchingExpose(exposes, selector).value.host)
    ensures FindMatchingExpose(exposes, selector).None? ==> ExtractHostname(redirectUris, Some(exposes), Some(selector), hostnameOf).None?
  {
  }

  lemma {:induction false} UriHostnameFirst(redirectUris: seq<string>, from: nat, hostnameOf: string -> Option<string>, i: nat)
    requires from <= i < |redirectUris| && !IsRootPath(redirectUris[i]) && hostnameOf(redirectUris[i]).Some?
    requires forall j :: from <= j < i && !IsRootPath(redirectUris[j]) ==> hostnameOf(redirectUris[j]).None?
    ensures UriHostnameFrom(redirectUris, from, hostnameOf) == hostnameOf(redirectUris[i])
    decreases i - from
  {
    if from < i {
      UriHostnameFirst(redirectUris, from + 1, hostnameOf, i);
    }
  }
}
