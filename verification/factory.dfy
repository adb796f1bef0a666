/**
 * The behaviour of the security factory that turns the `hybridauth` firewall
 * configuration into services: the two configuration validators, the copies
 * of the provider -> check path array handed to the provider map and to the
 * listener, and the id of the user provider service.
 */
module Factory {
  import opened Basics
  import opened PhpArrays

  // ---------------------------------------------------------------------------
  // `providers_check_path`: provider name -> check path

  /** Two distinct providers are configured with the same check path. */
  ghost predicate SharesCheckPath(config: PhpArray) {
    exists i, j | 0 <= i < j < |config| :: config[i].value == config[j].value
  }

  /**
   * The `ifTrue` closure that validates `providers_check_path`: scans the
   * entries in order, remembering every check path seen, and reports `true`
   * (invalid) at the first check path already seen.
   */
  method CheckPathsCollide(config: PhpArray) returns (invalid: bool)
    ensures invalid <==> SharesCheckPath(config)
  {
    var checkPaths: seq<string> := [];
    for k := 0 to |config|
      invariant checkPaths == Values(config[..k])
      invariant Distinct(checkPaths)
    {
      var checkPath := config[k].value;
      if checkPath in checkPaths {
        var i :| 0 <= i < |checkPaths| && checkPaths[i] == checkPath;
        assert config[i].value == config[k].value;
        return true;
      }
      assert config[..k + 1][..k] == config[..k];
      checkPaths := checkPaths + [checkPath];
    }
    assert config[..|config|] == config;
    return false;
  }

  /**
   * The configuration passes the check path validator exactly when there are
   * as many different check paths as providers.
   */
  lemma CheckPathsUniqueIffCardinality(config: PhpArray)
    ensures !SharesCheckPath(config) <==> |Elements(Values(config))| == |config|
  {
    var vs := Values(config);
    DistinctIffCardinality(vs);
    assert Distinct(vs) <==> !SharesCheckPath(config);
  }

  /**
   * `createHybridAuthProviderMap`: the array stored as the provider map's
   * configured providers is rebuilt entry by entry with keyed assignment.
   */
  method ConfiguredProviders(config: PhpArray) returns (providers: PhpArray)
    ensures KeysUnique(providers)
    ensures KeysUnique(config) ==> providers == config
  {
    providers := [];
    for k := 0 to |config|
      invariant KeysUnique(providers)
      invariant KeysUnique(config) ==> providers == config[..k]
    {
      if KeysUnique(config) {
        assert !HasKey(config[..k], config[k].key);
      }
      assert config[..k + 1] == config[..k] + [config[k]];
      providers := Put(providers, config[k].key, config[k].value);
    }
    assert config[..|config|] == config;
  }

  /**
   * `createListener`: the check paths handed to the listener, one per
   * configured provider, in configuration order.
   */
  method ListenerCheckPaths(config: PhpArray) returns (checkPaths: seq<string>)
    ensures |checkPaths| == |config|
    ensures forall i | 0 <= i < |config| :: checkPaths[i] == config[i].value
  {
    checkPaths := [];
    for k := 0 to |config|
      invariant |checkPaths| == k
      invariant forall i | 0 <= i < k :: checkPaths[i] == config[i].value
    {
      checkPaths := checkPaths + [config[k].value];
    }
  }

  // ---------------------------------------------------------------------------
  // `hybridauth_user_provider`

  /**
   * The `ifTrue` closure that validates `hybridauth_user_provider`: invalid
   * unless the array has exactly one entry and its key is `service`. For an
   * array (keys distinct) this is: valid exactly when its keys are `{service}`.
   */
  function UserProviderInvalid(userProvider: PhpArray): (invalid: bool)
    requires KeysUnique(userProvider)
    ensures !invalid <==> KeySet(userProvider) == {"service"}
  {
    var invalid := |userProvider| != 1 || FirstKey(userProvider) != Some("service");
    assert !invalid <==> KeySet(userProvider) == {"service"} by {
      if KeySet(userProvider) == {"service"} {
        var keys := seq(|userProvider|, i requires 0 <= i < |userProvider| => userProvider[i].key);
        assert Elements(keys) == KeySet(userProvider) by {
          forall k | k in KeySet(userProvider) ensures k in Elements(keys) {
            var i :| 0 <= i < |userProvider| && userProvider[i].key == k;
            assert keys[i] == k;
          }
        }
        DistinctIffCardinality(keys);
        assert userProvider[0].key in KeySet(userProvider);
      }
      if !invalid {
        assert userProvider[0].key in KeySet(userProvider);
      }
    }
    invalid
  }

  const UserProviderServicePrefix := "sllh_hybridauth.user.provider.entity."

  /**
   * What `createHybridAuthAwareUserProvider` registers: the id of the user
   * provider service it returns a reference to, and the service that id is
   * made an alias of (none when the first key is not `service`).
   */
  datatype UserProviderWiring = UserProviderWiring(serviceId: string, aliasOf: Option<string>)

  function AwareUserProvider(firewallId: string, userProvider: PhpArray): (w: UserProviderWiring)
    ensures |w.serviceId| == |UserProviderServicePrefix| + |firewallId|
    ensures w.serviceId[..|UserProviderServicePrefix|] == UserProviderServicePrefix
    ensures w.serviceId[|UserProviderServicePrefix|..] == firewallId
    ensures w.aliasOf.Some? <==> userProvider != [] && userProvider[0].key == "service"
    ensures w.aliasOf.Some? ==> w.aliasOf.value == userProvider[0].value
  {
    UserProviderWiring(
      UserProviderServicePrefix + firewallId,
      if FirstKey(userProvider) == Some("service") then Lookup(userProvider, "service") else None)
  }

  /** Distinct firewalls get distinct user provider services, whatever their configuration. */
  lemma ServiceIdIdentifiesFirewall(id1: string, up1: PhpArray, id2: string, up2: PhpArray)
    ensures AwareUserProvider(id1, up1).serviceId == AwareUserProvider(id2, up2).serviceId <==> id1 == id2
  {
  }

  /** A user provider configuration that passes validation is always wired as an alias of its service. */
  lemma AcceptedUserProviderIsAliased(firewallId: string, userProvider: PhpArray)
    requires KeysUnique(userProvider)
    requires !UserProviderInvalid(userProvider)
    ensures |userProvider| == 1
    ensures AwareUserProvider(firewallId, userProvider).aliasOf == Some(userProvider[0].value)
  {
  }
}
