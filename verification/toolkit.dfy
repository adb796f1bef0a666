/**
 * The parts of the HybridAuth toolkit that the bundle calls, reduced to what
 * the bundle can observe. The toolkit's own behaviour (OAuth/OpenID flows,
 * network calls, session encoding) is not modelled: where the bundle asks it
 * something, the answer comes from an oracle fixed when the object is made.
 */
module Toolkit {
  import opened Basics

  /** A scalar as a profile field holds it. */
  datatype PhpScalar = Null | Int(i: int) | Str(s: string)

  /** PHP's `empty()` on the scalars a profile field can hold. */
  predicate IsPhpEmpty(v: PhpScalar) {
    match v
    case Null => true
    case Int(i) => i == 0
    case Str(s) => s == "" || s == "0"
  }

  /** The fields of `Hybrid_User_Profile` the bundle reads. */
  datatype Profile = Profile(
    identifier: string,
    displayName: string,
    email: string,
    firstName: string,
    lastName: string,
    birthDay: PhpScalar,
    birthMonth: PhpScalar,
    birthYear: PhpScalar)

  /** An exception thrown by the toolkit: its message and code. */
  datatype ToolkitError = ToolkitError(message: string, code: int)

  /** The toolkit's session blob; the bundle only stores and restores it. */
  datatype SessionData = SessionData(blob: string)

  /**
   * `Hybrid_Provider_Adapter`: the live session with one provider. What
   * `getUserProfile()` answers is fixed in `profile`; `logoutCount` counts
   * the calls to `logout()`.
   */
  class ProviderAdapter {
    const id: string
    const profile: Result<Profile, ToolkitError>
    var logoutCount: nat

    constructor (id: string, profile: Result<Profile, ToolkitError>)
      ensures this.id == id && this.profile == profile && logoutCount == 0
    {
      this.id := id;
      this.profile := profile;
      logoutCount := 0;
    }

    method GetUserProfile() returns (r: Result<Profile, ToolkitError>)
      ensures r == profile
    {
      r := profile;
    }

    method Logout()
      modifies this`logoutCount
      ensures logoutCount == old(logoutCount) + 1
    {
      logoutCount := logoutCount + 1;
    }
  }

  /** The `sllh_hybridauth.config` parameter, reduced to the names of its `providers`. */
  datatype HybridAuthConfig = HybridAuthConfig(providers: set<string>)

  /**
   * How the toolkit answers, as a function of its session: which providers
   * are connected, the adapter of a provider, the outcome of `authenticate`
   * and the session it leaves behind (it may store tokens or a login in
   * progress), and the list `getConnectedProviders` gives.
   */
  datatype Backend = Backend(
    initialSession: SessionData,
    isConnected: (SessionData, string) -> bool,
    adapterOf: string -> ProviderAdapter,
    authenticate: (SessionData, string) -> Result<ProviderAdapter, ToolkitError>,
    sessionAfterAuthenticate: (SessionData, string) -> SessionData,
    connectedProviders: SessionData -> seq<string>)

  /** One call the bundle makes on a `Hybrid_Auth` client. */
  datatype ClientCall =
    | IsConnectedWithCall(name: string)
    | GetAdapterCall(name: string)
    | AuthenticateCall(name: string)
    | GetConnectedProvidersCall
    | GetSessionDataCall
    | RestoreSessionDataCall(data: SessionData)

  /** `Hybrid_Auth`: the client; `calls` records every call made on it. */
  class HybridAuthClient {
    const config: HybridAuthConfig
    const backend: Backend
    var session: SessionData
    var calls: seq<ClientCall>

    constructor (config: HybridAuthConfig, backend: Backend)
      ensures this.config == config && this.backend == backend
      ensures session == backend.initialSession && calls == []
    {
      this.config := config;
      this.backend := backend;
      session := backend.initialSession;
      calls := [];
    }

    method IsConnectedWith(name: string) returns (b: bool)
      modifies this`calls
      ensures b == backend.isConnected(session, name)
      ensures calls == old(calls) + [IsConnectedWithCall(name)]
    {
      b := backend.isConnected(session, name);
      calls := calls + [IsConnectedWithCall(name)];
    }

    method GetAdapter(name: string) returns (a: ProviderAdapter)
      modifies this`calls
      ensures a == backend.adapterOf(name)
      ensures calls == old(calls) + [GetAdapterCall(name)]
    {
      a := backend.adapterOf(name);
      calls := calls + [GetAdapterCall(name)];
    }

    method Authenticate(name: string) returns (r: Result<ProviderAdapter, ToolkitError>)
      modifies this`session, this`calls
      ensures r == backend.authenticate(old(session), name)
      ensures session == backend.sessionAfterAuthenticate(old(session), name)
      ensures calls == old(calls) + [AuthenticateCall(name)]
    {
      r := backend.authenticate(session, name);
      session := backend.sessionAfterAuthenticate(session, name);
      calls := calls + [AuthenticateCall(name)];
    }

    method GetConnectedProviders() returns (names: seq<string>)
      modifies this`calls
      ensures names == backend.connectedProviders(session)
      ensures calls == old(calls) + [GetConnectedProvidersCall]
    {
      names := backend.connectedProviders(session);
      calls := calls + [GetConnectedProvidersCall];
    }

    method GetSessionData() returns (data: SessionData)
      modifies this`calls
      ensures data == session
      ensures calls == old(calls) + [GetSessionDataCall]
    {
      data := session;
      calls := calls + [GetSessionDataCall];
    }

    method RestoreSessionData(data: SessionData)
      modifies this`session, this`calls
      ensures session == data
      ensures calls == old(calls) + [RestoreSessionDataCall(data)]
    {
      session := data;
      calls := calls + [RestoreSessionDataCall(data)];
    }
  }
}
