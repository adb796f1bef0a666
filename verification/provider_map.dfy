/**
 * `HybridAuthProviderMap`: routes a request to a provider by its check path
 * and hands out the toolkit's provider adapters, creating the toolkit client
 * lazily, once per map.
 */
module ProviderMap {
  import opened Basics
  import opened PhpArrays
  import opened Toolkit
  import Factory

  /** An incoming request; only `HttpUtils` looks into it. */
  datatype Request = Request(path: string)

  /**
   * `HttpUtils`, reduced to `checkRequestPath(request, path)`, which may match
   * a path or a route name and is left uninterpreted.
   */
  datatype HttpUtils = HttpUtils(checkRequestPath: (Request, string) -> bool)

  /**
   * What the provider map takes from the service container: the
   * `sllh_hybridauth.config` parameter, and the toolkit the client is made in.
   */
  datatype Container = Container(hybridauthConfig: HybridAuthConfig, toolkit: Backend)

  /** What a lookup yields: `null`, an adapter, or an exception from the toolkit. */
  datatype AdapterLookup = NoAdapter | Found(adapter: ProviderAdapter) | Thrown(error: ToolkitError)

  /** The outcome of `authenticate`, passed on as it is, failures included. */
  function FromAuthenticate(r: Result<ProviderAdapter, ToolkitError>): AdapterLookup {
    match r
    case Success(a) => Found(a)
    case Failure(e) => Thrown(e)
  }

  /** The index of the first entry, in insertion order, whose check path matches the request. */
  function FirstMatch(providers: PhpArray, request: Request, matches: (Request, string) -> bool): (k: Option<nat>)
    ensures k.Some? ==> k.value < |providers| && matches(request, providers[k.value].value)
    ensures k.Some? ==> forall j | 0 <= j < k.value :: !matches(request, providers[j].value)
    ensures k.None? <==> forall j | 0 <= j < |providers| :: !matches(request, providers[j].value)
  {
    if providers == [] then None
    else if matches(request, providers[0].value) then Some(0)
    else
      match FirstMatch(providers[1..], request, matches)
      case None => None
      case Some(k) => Some(k + 1)
  }

  /** Matching by exact path, one of the ways `checkRequestPath` can match. */
  predicate PathEquals(request: Request, checkPath: string) {
    request.path == checkPath
  }

  /**
   * With check paths that pass the configuration validator, a request whose
   * path is one provider's check path is routed to that provider, wherever
   * it stands in the configuration.
   */
  lemma UniqueCheckPathsRouteToTheirProvider(providers: PhpArray, request: Request, k: nat)
    requires !Factory.SharesCheckPath(providers)
    requires k < |providers| && providers[k].value == request.path
    ensures FirstMatch(providers, request, PathEquals) == Some(k)
  {
    assert PathEquals(request, providers[k].value);
  }

  /** With `a` at `/login/a` and `b` at `/login/b`, a request to `/login/b` is routed to `b`. */
  lemma RoutingExample()
    ensures var providers := [Entry("a", "/login/a"), Entry("b", "/login/b")];
            var m := FirstMatch(providers, Request("/login/b"), PathEquals);
            m.Some? && providers[m.value].key == "b"
  {
    var providers := [Entry("a", "/login/a"), Entry("b", "/login/b")];
    assert "/login/b" != "/login/a" by { assert "/login/b"[7] != "/login/a"[7]; }
    UniqueCheckPathsRouteToTheirProvider(providers, Request("/login/b"), 1);
  }

  class HybridAuthProviderMap {
    const container: Container
    const httpUtils: HttpUtils
    /** The configured provider name -> check path array; set once, here. */
    const providers: PhpArray
    /** The toolkit client; `null` stands for the `false` "not yet created" marker. */
    var hybridauth: HybridAuthClient?
    /** How many clients this map has created. */
    ghost var constructions: nat

    ghost predicate Valid()
      reads this
    {
      && (hybridauth == null ==> constructions == 0)
      && (hybridauth != null ==>
            && constructions == 1
            && hybridauth.config == container.hybridauthConfig
            && hybridauth.backend == container.toolkit)
    }

    /** The session the client holds, or will start from once created. */
    ghost function Session(): SessionData
      reads this, hybridauth
    {
      if hybridauth == null then container.toolkit.initialSession else hybridauth.session
    }

    /** The calls made on the client so far. */
    ghost function Calls(): seq<ClientCall>
      reads this, hybridauth
    {
      if hybridauth == null then [] else hybridauth.calls
    }

    constructor (container: Container, httpUtils: HttpUtils, providers: PhpArray)
      ensures Valid()
      ensures this.container == container && this.httpUtils == httpUtils && this.providers == providers
      ensures hybridauth == null
    {
      this.container := container;
      this.httpUtils := httpUtils;
      this.providers := providers;
      hybridauth := null;
      constructions := 0;
    }

    /** `getHybridAuth`: creates the client on first use, and returns the same one afterwards. */
    method GetHybridAuth() returns (client: HybridAuthClient)
      requires Valid()
      modifies this`hybridauth, this`constructions
      ensures Valid() && hybridauth == client && constructions == 1
      ensures old(hybridauth) != null ==> client == old(hybridauth)
      ensures old(hybridauth) == null ==> fresh(client)
      ensures client.session == old(Session()) && client.calls == old(Calls())
    {
      if hybridauth == null {
        hybridauth := new HybridAuthClient(container.hybridauthConfig, container.toolkit);
        constructions := constructions + 1;
      }
      client := hybridauth;
    }

    /**
     * `getProviderAdapterByName`: `null` for a provider the toolkit is not
     * configured with, without creating or calling the client; otherwise,
     * when `connected`, the client's adapter if the client reports the
     * provider connected and `null` if not; otherwise what `authenticate`
     * gives, an exception included, the client's session then being the one
     * `authenticate` leaves behind.
     */
    method GetProviderAdapterByName(name: string, connected: bool) returns (r: AdapterLookup)
      requires Valid()
      modifies this`hybridauth, this`constructions, hybridauth
      ensures old(hybridauth) != null ==> hybridauth == old(hybridauth)
      ensures Valid()
      ensures name !in container.hybridauthConfig.providers ==>
                && r == NoAdapter && hybridauth == old(hybridauth) && Calls() == old(Calls())
                && Session() == old(Session())
      ensures name in container.hybridauthConfig.providers && connected ==>
                var isConnected := container.toolkit.isConnected(old(Session()), name);
                && Session() == old(Session())
                && Calls() == old(Calls()) + [IsConnectedWithCall(name)] + (if isConnected then [GetAdapterCall(name)] else [])
                && r == (if isConnected then Found(container.toolkit.adapterOf(name)) else NoAdapter)
      ensures name in container.hybridauthConfig.providers && !connected ==>
                && Calls() == old(Calls()) + [AuthenticateCall(name)]
                && r == FromAuthenticate(container.toolkit.authenticate(old(Session()), name))
                && Session() == container.toolkit.sessionAfterAuthenticate(old(Session()), name)
    {
      if name !in container.hybridauthConfig.providers {
        return NoAdapter;
      }
      if connected {
        var client := GetHybridAuth();
        var isConnected := client.IsConnectedWith(name);
        if isConnected {
          client := GetHybridAuth();
          var adapter := client.GetAdapter(name);
          return Found(adapter);
        }
        return NoAdapter;
      }
      var client := GetHybridAuth();
      var outcome := client.Authenticate(name);
      return FromAuthenticate(outcome);
    }

    /**
     * `getProviderAdapterByRequest`: delegates to `GetProviderAdapterByName`
     * for the first provider, in configuration order, whose check path
     * matches, and returns its answer even when that is `null`; `null`
     * without touching the client when no check path matches.
     */
    method GetProviderAdapterByRequest(request: Request) returns (r: AdapterLookup)
      requires Valid()
      modifies this`hybridauth, this`constructions, hybridauth
      ensures old(hybridauth) != null ==> hybridauth == old(hybridauth)
      ensures Valid()
      ensures FirstMatch(providers, request, httpUtils.checkRequestPath).None? ==>
                && r == NoAdapter && hybridauth == old(hybridauth) && Calls() == old(Calls())
                && Session() == old(Session())
      ensures FirstMatch(providers, request, httpUtils.checkRequestPath).Some? ==>
                var name := providers[FirstMatch(providers, request, httpUtils.checkRequestPath).value].key;
                && (name !in container.hybridauthConfig.providers ==>
                      && r == NoAdapter && hybridauth == old(hybridauth) && Calls() == old(Calls())
                      && Session() == old(Session()))
                && (name in container.hybridauthConfig.providers ==>
                      && Calls() == old(Calls()) + [AuthenticateCall(name)]
                      && r == FromAuthenticate(container.toolkit.authenticate(old(Session()), name))
                      && Session() == container.toolkit.sessionAfterAuthenticate(old(Session()), name))
    {
      for i := 0 to |providers|
        invariant forall j | 0 <= j < i :: !httpUtils.checkRequestPath(request, providers[j].value)
      {
        if httpUtils.checkRequestPath(request, providers[i].value) {
          r := GetProviderAdapterByName(providers[i].key, false);
          return;
        }
      }
      return NoAdapter;
    }

    /** `getConnectedAdapters`: creates the client if need be and passes its list on. */
    method GetConnectedAdapters() returns (names: seq<string>)
      requires Valid()
      modifies this`hybridauth, this`constructions, hybridauth
      ensures old(hybridauth) != null ==> hybridauth == old(hybridauth)
      ensures Valid() && hybridauth != null && Session() == old(Session())
      ensures names == container.toolkit.connectedProviders(old(Session()))
      ensures Calls() == old(Calls()) + [GetConnectedProvidersCall]
    {
      var client := GetHybridAuth();
      names := client.GetConnectedProviders();
    }

    /** `getSessionData`: creates the client if need be and passes its session blob on. */
    method GetSessionData() returns (data: SessionData)
      requires Valid()
      modifies this`hybridauth, this`constructions, hybridauth
      ensures old(hybridauth) != null ==> hybridauth == old(hybridauth)
      ensures Valid() && hybridauth != null && Session() == old(Session())
      ensures data == old(Session())
      ensures Calls() == old(Calls()) + [GetSessionDataCall]
    {
      var client := GetHybridAuth();
      data := client.GetSessionData();
    }

    /** `setSessionData`: creates the client if need be and restores the given blob into it. */
    method SetSessionData(data: SessionData)
      requires Valid()
      modifies this`hybridauth, this`constructions, hybridauth
      ensures old(hybridauth) != null ==> hybridauth == old(hybridauth)
      ensures Valid() && hybridauth != null
      ensures Session() == data
      ensures Calls() == old(Calls()) + [RestoreSessionDataCall(data)]
    {
      var client := GetHybridAuth();
      client.RestoreSessionData(data);
    }
  }

  /**
   * Asking a provider map for its client twice gives the same client, and at
   * most one client is ever created.
   */
  method ClientIsCreatedOnce(m: HybridAuthProviderMap) returns (first: HybridAuthClient, second: HybridAuthClient)
    requires m.Valid()
    modifies m`hybridauth, m`constructions
    ensures first == second && m.hybridauth == first && m.constructions == 1
    ensures old(m.hybridauth) != null ==> first == old(m.hybridauth)
  {
    first := m.GetHybridAuth();
    second := m.GetHybridAuth();
  }
}
