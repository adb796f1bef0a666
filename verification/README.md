# SLLHHybridAuthBundle core, modelled in Dafny

This project models the three parts of SLLHHybridAuthBundle that have behaviour of their own. The bundle connects Symfony security to the HybridAuth social-login toolkit.

- **Security factory** (`factory.dfy`, module `Factory`). It covers the two configuration validators: check paths must be unique across providers, and exactly one user provider, `service`, may be configured. It also covers the loops that copy the `providers_check_path` array for the provider map and for the listener, and the id and alias rule for the user provider service. The validator closure and the copy loops are methods with loop invariants. Each is proved against a specification predicate or function.
- **Provider map** (`provider_map.dfy`, module `ProviderMap`). This is a class whose one mutable field holds the lazily created toolkit client; `null` plays the role of the source's `false` marker. A ghost counter of created clients is tied by the class invariant to whether a client exists; since every public operation keeps an existing client, it never exceeds one. Routing by request is a first-match scan in configuration order, specified by the function `FirstMatch`. Every lookup by name is specified by the calls it makes on the client and by its result.
- **Response adapter** (`response.dfy`, module `Response`). `cleanString` is a byte filter with its characterisation (subsequence, maximality, idempotence, concatenation). `getBirthday` builds the `year-month-day` text handed to `DateTime`, or gives `null`. Construction fetches the profile. On failure it logs the adapter out once and yields the provider-tagged exception. Teardown logs the adapter out.

The supporting modules are:

- `basics.dfy`: `Option`, `Result`, distinctness and its cardinality characterisation.
- `php_arrays.dfy`: PHP's ordered string-keyed arrays, with keyed assignment `Put`, `Lookup`, `FirstKey` and `array_values`.
- `toolkit.dfy`: the HybridAuth toolkit as the bundle sees it.

The toolkit is abstract. A `ProviderAdapter` object has an `id` and a fixed answer to `getUserProfile()`, and it counts `logout()` calls. A `HybridAuthClient` object holds a session blob and records every call made on it. Its answers (connected or not, the adapter, the outcome of `authenticate`, the connected list) and the session `authenticate` leaves behind come from oracle functions in a `Backend` value. The service container supplies the toolkit configuration and that backend. `HttpUtils::checkRequestPath` is an uninterpreted predicate on (request, check path).

A PHP string is modelled as a Dafny `string` whose characters are its bytes. A PHP array is a sequence of key/value entries in insertion order whose keys are distinct.

Three behaviours of `HybridAuthProviderMap` that its own comments leave open are modelled as the code stands:
- A name the toolkit is not configured with yields `null`. The TODO at src/Security/Http/HybridAuthProviderMap.php:68 asks whether this should throw instead; the code does not.
- A failing `authenticate` propagates the toolkit's exception unchanged. The TODO at src/Security/Http/HybridAuthProviderMap.php:70 (catch the error and return `null`) is not implemented. The `catch (Exception $e)` at line 80 names `SLLH\HybridAuthBundle\Security\Http\Exception`, because the file has no `use Exception`, so it never catches anything.
- `getProviderAdapterByRequest` returns what `getProviderAdapterByName` returns, an adapter or `null`, as its `@return null|Hybrid_Provider_Adapter` at src/Security/Http/HybridAuthProviderMap.php:92 says.

## Model

| member | source | states |
|---|---|---|
| `Factory.CheckPathsCollide` | src/DependencyInjection/Security/Factory/HybridAuthFactory.php:174-186 | reports invalid iff two entries share a check path, so false on the empty array and on pairwise-distinct check paths; loop invariant: the paths collected are exactly the values seen so far, with no repetition |
| `Factory.CheckPathsUniqueIffCardinality` | src/DependencyInjection/Security/Factory/HybridAuthFactory.php:174-187 | a configuration passes the check-path validator iff its number of distinct check paths equals its number of providers |
| `Factory.ConfiguredProviders` | src/DependencyInjection/Security/Factory/HybridAuthFactory.php:43-47 | the array given to the provider map always has unique keys, and equals `providers_check_path` (same keys, same values, same order) |
| `Factory.ListenerCheckPaths` | src/DependencyInjection/Security/Factory/HybridAuthFactory.php:142-145 | the listener's check paths have the same length as the configuration, and the i-th is the i-th provider's check path |
| `Factory.UserProviderInvalid` | src/DependencyInjection/Security/Factory/HybridAuthFactory.php:198-201 | the user-provider configuration is accepted iff its set of keys is exactly `{service}` |
| `Factory.AwareUserProvider` | src/DependencyInjection/Security/Factory/HybridAuthFactory.php:101-117 | the service id is always `sllh_hybridauth.user.provider.entity.` followed by the firewall id; an alias is set iff the first key is `service`, and then it targets that entry's value |
| `Factory.ServiceIdIdentifiesFirewall` | src/DependencyInjection/Security/Factory/HybridAuthFactory.php:103 | two firewalls get the same user-provider service id iff their ids are equal |
| `Factory.AcceptedUserProviderIsAliased` | src/DependencyInjection/Security/Factory/HybridAuthFactory.php:105-116 | a configuration the user-provider validator accepts has one entry, and its service id is always aliased to that entry's service |
| `PhpArrays.Put` | src/DependencyInjection/Security/Factory/HybridAuthFactory.php:45 | keyed assignment keeps keys unique, appends when the key is new, and replaces the value in place when it is present |
| `PhpArrays.Lookup` | src/DependencyInjection/Security/Factory/HybridAuthFactory.php:112 | `$config['service']` is present iff some entry has that key, and then it is that entry's value |
| `PhpArrays.FirstKey` | src/DependencyInjection/Security/Factory/HybridAuthFactory.php:105 | `key($config)` is null exactly on the empty array, and otherwise is the key of the first entry in insertion order |
| `ProviderMap.FirstMatch` | src/Security/Http/HybridAuthProviderMap.php:96-101 | the index found matches and no earlier entry matches; there is none iff no entry matches |
| `ProviderMap.UniqueCheckPathsRouteToTheirProvider` | src/Security/Http/HybridAuthProviderMap.php:96-99 | when the check paths pass the uniqueness validator and matching is by exact path, a request at a provider's check path is routed to that provider wherever it stands in the configuration |
| `ProviderMap.RoutingExample` | src/Security/Http/HybridAuthProviderMap.php:96-99 | with `a` at `/login/a` and `b` at `/login/b`, a request to `/login/b` is routed to `b` |
| `ProviderMap.HybridAuthProviderMap.constructor` | src/Security/Http/HybridAuthProviderMap.php:47-53 | stores container, HttpUtils and the provider array (a `const`, never changed afterwards), and starts without a client |
| `ProviderMap.HybridAuthProviderMap.GetHybridAuth` | src/Security/Http/HybridAuthProviderMap.php:129-135 | creates a fresh client only when there is none, otherwise returns the stored one; at most one client is ever created |
| `ProviderMap.HybridAuthProviderMap.GetProviderAdapterByName` | src/Security/Http/HybridAuthProviderMap.php:63-85 | an unconfigured name yields null with no client created or called and the session untouched; connected mode calls `isConnectedWith` and yields the adapter iff connected, never calling `authenticate` and leaving the session as it was; otherwise yields `authenticate`'s outcome, a failure propagated unchanged, and the session becomes the one `authenticate` leaves behind; an existing client is kept, never replaced |
| `ProviderMap.HybridAuthProviderMap.GetProviderAdapterByRequest` | src/Security/Http/HybridAuthProviderMap.php:94-102 | delegates by name, non-connected, only for the first entry whose check path matches, and returns that answer even when it is null, with the session `authenticate` leaves behind; null with the client and session untouched when nothing matches; an existing client is kept, never replaced |
| `ProviderMap.HybridAuthProviderMap.GetConnectedAdapters` | src/Security/Http/HybridAuthProviderMap.php:109-112 | forces the client into existence, then returns its connected list unchanged; an existing client is kept, never replaced |
| `ProviderMap.HybridAuthProviderMap.GetSessionData` | src/Security/Http/HybridAuthProviderMap.php:114-117 | forces the client into existence, then returns its session blob unchanged; an existing client is kept, never replaced |
| `ProviderMap.HybridAuthProviderMap.SetSessionData` | src/Security/Http/HybridAuthProviderMap.php:119-122 | forces the client into existence, then restores exactly the given blob; an existing client is kept, never replaced |
| `ProviderMap.ClientIsCreatedOnce` | src/Security/Http/HybridAuthProviderMap.php:131-134 | two requests for the client return the same instance, and one client exists afterwards |
| `Response.CleanString` | src/HybridAuth/Response/AbstractHybridAuthResponse.php:158-163 | every byte of the result is in `[A-Za-z0-9_]`, and the result is no longer than the input |
| `Response.CleanStringIsSubsequence` | src/HybridAuth/Response/AbstractHybridAuthResponse.php:160-162 | the result is a subsequence of the input, in the input's order, and keeps every word byte of it |
| `Response.CleanStringIsUnique` | src/HybridAuth/Response/AbstractHybridAuthResponse.php:158-163 | any subsequence of word bytes that keeps all of the input's word bytes equals the result: deletion only, no substitution |
| `Response.CleanStringKeepsWordStrings` | src/HybridAuth/Response/AbstractHybridAuthResponse.php:158-163 | a string made only of allowed bytes is returned unchanged |
| `Response.CleanStringIdempotent` | src/HybridAuth/Response/AbstractHybridAuthResponse.php:158-163 | cleaning twice equals cleaning once |
| `Response.CleanStringConcat` | src/HybridAuth/Response/AbstractHybridAuthResponse.php:160-162 | the cleaning of a concatenation is the concatenation of the cleanings, so the order is preserved |
| `Response.CleanStringExample` | src/HybridAuth/Response/AbstractHybridAuthResponse.php:160-162 | the UTF-8 bytes of `Jöhn Doe!` clean to `JhnDoe` |
| `Response.DecimalText` | src/HybridAuth/Response/AbstractHybridAuthResponse.php:104 | PHP's text of a non-negative integer is non-empty, made of decimal digits, denotes that integer, and has no leading zero |
| `Response.Birthday` | src/HybridAuth/Response/AbstractHybridAuthResponse.php:98-107 | null iff day, month or year is PHP-empty (null, 0, `""`, `"0"`) |
| `Response.BirthdayComponents` | src/HybridAuth/Response/AbstractHybridAuthResponse.php:104 | splitting the date text at its dashes gives back year, month and day, in that order |
| `Response.BirthdayExample` | src/HybridAuth/Response/AbstractHybridAuthResponse.php:100-106 | day 5, month 7, year 1990 give the date text `1990-7-5` |
| `Response.HybridAuthResponse.constructor` | src/HybridAuth/Response/AbstractHybridAuthResponse.php:38-40 | the response holds the adapter and the fetched profile, not yet torn down |
| `Response.HybridAuthResponse.Destruct` | src/HybridAuth/Response/AbstractHybridAuthResponse.php:50-53 | teardown calls the adapter's `logout()` exactly once |
| `Response.Construct` | src/HybridAuth/Response/AbstractHybridAuthResponse.php:36-141 | when fetching the profile fails: one `logout()`, then an `AccountNotConnectedException` with the original message, code and exception as previous, and `providerName` equal to the adapter's id; on success no logout, and a fresh response whose `getUserProfile` is the adapter's profile unchanged, whose identifier, e-mail, first and last name are that profile's fields, whose username is its cleaned display name, whose birthday is built from its birth fields, and whose `getProviderName` is the adapter's id (the pass-throughs at lines 119-133 are left out) |
| `Response.UsernameIsCleanedDisplayName` | src/HybridAuth/Response/AbstractHybridAuthResponse.php:66-69 | the username has only word bytes and is the display name with every other byte deleted |

## Left out

- DI container wiring is not modelled: `create`, `createAuthProvider`, `createEntryPoint`, the `register`/`setDefinition`/`addMethodCall` calls, `getListenerId`, `getKey`, `getPosition` and the rest of the configuration tree builder. It is framework glue with no behaviour of its own.
- The toolkit's internals are not modelled: OAuth/OpenID flows, redirects, network calls and the encoding of session data. The client's answers are oracle functions of its session blob.
- `HttpUtils::checkRequestPath` is an uninterpreted predicate. It may match route names as well as paths.
- PHP loose comparison (`in_array` without strict mode, `==`, `switch`) is modelled as exact string equality. Numeric-looking check paths or keys, which PHP would compare loosely, are not modelled.
- The re-wrapping code at src/Security/Http/HybridAuthProviderMap.php:80-84 is dead, because its `catch` never matches. Toolkit failures propagate unchanged.
- `DateTime` parsing and calendar validity are not modelled. `getBirthday` is modelled up to the text it hands to `DateTime`; the exception `DateTime` raises on text it cannot read is not modelled.
- `__destruct` is called by the garbage collector. It is modelled as an explicit `Destruct` that may run once per response. PHP does not run `__destruct` on an object whose constructor threw, so on that path the single `logout()` in `Construct`'s failure branch is the whole teardown.
- `getUserContactsList` and `getUserActivity` are not modelled. They are pass-through calls into the toolkit with no logic of their own.
- `getProviderAdapter` is not modelled as a member; it is the `adapter` field itself.
- Profile: the identifier, display name, e-mail, first and last name are assumed to be strings; a provider that leaves one `null` (which the getters would pass through) is not modelled.
- Profile fields other than the ones the getters read are not modelled. The birth fields are modelled as PHP scalars (null, integer or string).
- Text encodings are not modelled: a PHP string is a sequence of bytes, each held in a `char`, so multibyte text is handled byte by byte, as `preg_replace` without `/u` does.
