# harmonysoft test fixtures — a Dafny model

This project models the bookkeeping core of the harmonysoft test-fixture
libraries (Kotlin) and proves properties of it:

- **Dynamic binding context** (`Binding`): the scenario-wide key→value store.
  Lookup is fail-fast, a store is last-write-wins and refuses null, and a bulk store applies single
  stores entry by entry in the map's iteration order.
- **Partial JSON match condition** (`PartialJsonMatch`): a mock-server request
  condition. It compares the request body leniently with the expected JSON and
  commits the captured bindings only when there is no error.
- **Mock HTTP server manager** (`MockServer`): the expectation registry, keyed by
  request pattern. Also the active target, the pending condition that
  successive conditions are AND-ed onto, and the ordered response providers
  (configuring a response drops the providers it replaces and puts the new one
  first). Answering a request picks the first provider that responds.
  `verifyRequestReceived` commits the bindings of the first accepted recorded
  request only, and `verifyNoCallIsMade` fails on any recorded request.
- **JSON path flattening** (`JsonHelper`): `byPath`/`fill` turn a parsed JSON
  object into a map from `a.b[2].c`-style paths to its non-null leaves.
- **Common meta-value mapper** (`MetaValue`): `time-zone` resolves to the clock's
  zone id, `uuid` to the canonical text of a fresh UUID, and anything else fails.
- **Mongo test manager, pure parts** (`TestMongo`):
  - `normalizeValue`;
  - the connection string;
  - the projection of a verification;
  - the binding loop of one verification attempt.
- **Spring web port provider** (`PortProvider`): the port holder, where 0 means
  "not initialised".

Shared modules:

- `Wrappers`: `Option`, `Result`, `Outcome`.
- `Data`: JSON trees, stored values, binding keys, HTTP requests, the
  comparator's result.
- `Text`: the JVM's lower-case hexadecimal and decimal renderings that paths,
  UUIDs, ObjectIds and connection strings depend on.

How objects whose fields the source changes in place are modelled:

- They are classes:
  - `DynamicBindingContext`, `PartialJsonMatchCondition`;
  - `ExpectationInfo`, `MockHttpServerManager`;
  - `TestMongoManager`, `SpringDefaultWebPortProvider`.
- Their state-changing methods carry `modifies` clauses. `ExpectationInfo.Respond`
  changes nothing: it only reads the provider list, and the manager's methods
  change that list.
- Each method is proved against a specification function, or states its result
  and new state directly (`HasBindingFor`, `GetBinding`, `StoreBinding`, `Respond`,
  `GetPort`, `SetPort`). `StoreBindings`
  realises `StoreAll`: it stores the entries in order with `ApplyAll` and stops at
  the first null value, which fails with an error naming its key. `TargetRequest`, `AddCondition` and
  `ConfigureResponseWithCode` realise `Targeted`, `WithCondition` and
  `WithResponse` on the manager's abstract `State()`.
  `VerifyDocumentsAttempt` realises `Attempt`.
- `ByPath` and `FillInto` build the path map with the source's loops and
  recursion, and are proved equal to `Flattened`/`Fill`.
- The meaning of `Flattened` is then pinned down against an independent
  navigation semantics (`At`/`Render`), in both directions:
  - every leaf reached by keys and indices is in the result, under the path
    that spells those steps out;
  - every entry of the result is such a leaf.

Code the model cannot see is passed in as function-typed parameters:

- the structural comparator `CommonJsonUtil.compareAndBind` (`Comparator`);
- `ResponseProvider.maybeRespond`;
- `VerificationUtil.find` (`Finder`);
- the meaning of condition kinds other than `MATCH_ALL` and `and`
  (`leafHolds`).

The clock and the random UUID are parameters too.

## Model

| member | source | states |
|---|---|---|
| Binding.DynamicBindingContext.constructor | harmonysoft-common-test/src/main/kotlin/tech/harmonysoft/oss/test/binding/DynamicBindingContext.kt:11 | A new context holds no binding, and so none bound to null. |
| Binding.DynamicBindingContext.HasBindingFor | harmonysoft-common-test/src/main/kotlin/tech/harmonysoft/oss/test/binding/DynamicBindingContext.kt:14-16 | True exactly when the key is bound. |
| Binding.DynamicBindingContext.GetBinding | harmonysoft-common-test/src/main/kotlin/tech/harmonysoft/oss/test/binding/DynamicBindingContext.kt:18-24 | Succeeds exactly when the key is bound, with the stored value, which is never null. Otherwise fails with an error naming the key and carrying every current binding. |
| Binding.DynamicBindingContext.StoreBinding | harmonysoft-common-test/src/main/kotlin/tech/harmonysoft/oss/test/binding/DynamicBindingContext.kt:26-29 | A non-null value: the key now maps to it and every other binding is untouched. A null value: the concurrent map refuses it, the call fails naming the key, and nothing changes. No key is ever bound to null. |
| Binding.DynamicBindingContext.StoreBindings | harmonysoft-common-test/src/main/kotlin/tech/harmonysoft/oss/test/binding/DynamicBindingContext.kt:31-35 | Stores the entries in iteration order (`StoreAll`): every entry before the first null value is stored, and that null ends the loop with an error naming its key. Proved through the loop invariant. |
| Binding.NonNullPrefix | harmonysoft-common-test/src/main/kotlin/tech/harmonysoft/oss/test/binding/DynamicBindingContext.kt:27 | The length of the run of non-null values at the front: all of them are non-null, and the entry right after them, if any, is null. |
| Binding.NonNullPrefixIs | harmonysoft-common-test/src/main/kotlin/tech/harmonysoft/oss/test/binding/DynamicBindingContext.kt:27 | A first null at position `k` (or none, at `k` = length) fixes the non-null prefix at `k`. |
| Binding.StoreAllOfNonNull | harmonysoft-common-test/src/main/kotlin/tech/harmonysoft/oss/test/binding/DynamicBindingContext.kt:31-35 | Entries with no null value are all stored (`ApplyAll`), and storing succeeds. |
| Binding.ApplyAllKeepsNullFree | harmonysoft-common-test/src/main/kotlin/tech/harmonysoft/oss/test/binding/DynamicBindingContext.kt:26-29 | Storing non-null values into bindings with no null keeps them null-free. |
| Binding.StoreAllKeepsNullFree | harmonysoft-common-test/src/main/kotlin/tech/harmonysoft/oss/test/binding/DynamicBindingContext.kt:31-35 | Whatever the entries, storing them one by one never binds a key to null. |
| Binding.ApplyAllOverrides | harmonysoft-common-test/src/main/kotlin/tech/harmonysoft/oss/test/binding/DynamicBindingContext.kt:31-35 | Storing entries overrides the old bindings with the map the entries alone build, whose keys are exactly the entries' keys. |
| Binding.ApplyAllStoresEach | harmonysoft-common-test/src/main/kotlin/tech/harmonysoft/oss/test/binding/DynamicBindingContext.kt:31-35 | For a map's entries (distinct keys): afterwards every entry's key maps to its value, keys outside the entries keep their old value, and the key set is the union. |
| Binding.ApplyAllIdempotent | harmonysoft-common-test/src/main/kotlin/tech/harmonysoft/oss/test/binding/DynamicBindingContext.kt:31-35 | Storing the same entries twice leaves the same bindings as storing them once. |
| Binding.ApplyAll | harmonysoft-common-test/src/main/kotlin/tech/harmonysoft/oss/test/binding/DynamicBindingContext.kt:31-35 | Storing non-null entries one by one: every old key stays bound, every entry's key becomes bound, and the last entry's value wins for its key. |
| Binding.StoreAll | harmonysoft-common-test/src/main/kotlin/tech/harmonysoft/oss/test/binding/DynamicBindingContext.kt:26-35 | The bulk store with the map's refusal of null: it passes exactly when no value is null; otherwise it fails naming the first null value's key. The bindings are those of storing the entries before that null (`ApplyAll`). |
| Binding.StoreAllIdempotent | harmonysoft-common-test/src/main/kotlin/tech/harmonysoft/oss/test/binding/DynamicBindingContext.kt:31-35 | Repeating a bulk store changes nothing, even one stopped by a null value: the same prefix is stored again and the same error recurs. |
| Binding.StoreAllFrame | harmonysoft-common-test/src/main/kotlin/tech/harmonysoft/oss/test/binding/DynamicBindingContext.kt:31-35 | A bulk store, even one stopped by a null value, keeps every key the entries do not mention as it was, and binds no key beyond the old ones and the entries' own. |
| Binding.ApplyAllConcat | harmonysoft-common-test/src/main/kotlin/tech/harmonysoft/oss/test/binding/DynamicBindingContext.kt:31-35 | Storing `a + b` is storing `a`, then `b`. |
| PartialJsonMatch.PartialJsonMatchCondition.constructor | harmonysoft-http-mock-server-test/src/main/kotlin/tech/harmonysoft/oss/http/server/mock/request/condition/PartialJsonMatchCondition.kt:8-13 | The condition keeps the raw JSON, the parsed JSON and the context it is given. |
| PartialJsonMatch.PartialJsonMatchCondition.Matches | harmonysoft-http-mock-server-test/src/main/kotlin/tech/harmonysoft/oss/http/server/mock/request/condition/PartialJsonMatchCondition.kt:15-28 | Answers true exactly when the lenient (`strict = false`) comparison of expected and body reports no error and no captured value is null. Then the context gains every captured binding in order. On a comparison error it answers false and the context is unchanged. A null captured value ends the call with the store's error, after the bindings before it were stored. |
| PartialJsonMatch.PartialJsonMatchCondition.ToString | harmonysoft-http-mock-server-test/src/main/kotlin/tech/harmonysoft/oss/http/server/mock/request/condition/PartialJsonMatchCondition.kt:30-32 | The text of the condition is exactly the raw expected JSON. |
| MockServer.Holds | harmonysoft-http-mock-server-test/src/main/kotlin/tech/harmonysoft/oss/http/server/mock/MockHttpServerManager.kt:103-110 | A condition built from `MATCH_ALL` and `and` holds exactly when every opaque condition in it holds. |
| MockServer.Conjoin | harmonysoft-http-mock-server-test/src/main/kotlin/tech/harmonysoft/oss/http/server/mock/MockHttpServerManager.kt:104-105 | The first condition is kept as it is. A later one is joined to the pending one, so the result is built from the opaque conditions of both. |
| MockServer.Accumulate | harmonysoft-http-mock-server-test/src/main/kotlin/tech/harmonysoft/oss/http/server/mock/MockHttpServerManager.kt:103-106 | Adding conditions one by one: a condition is pending exactly when one was pending or one was added, and it is built from the opaque conditions of the earlier one and of every added one. |
| MockServer.AccumulateIsConjunction | harmonysoft-http-mock-server-test/src/main/kotlin/tech/harmonysoft/oss/http/server/mock/MockHttpServerManager.kt:103-106 | After adding conditions one by one, a condition is pending exactly when one was pending before or any was added. It holds exactly when the earlier one and every added one hold. |
| MockServer.Targeted | harmonysoft-http-mock-server-test/src/main/kotlin/tech/harmonysoft/oss/http/server/mock/MockHttpServerManager.kt:77-93 | The request becomes the active target, and every registered expectation is kept as it was. An unregistered request gets one new entry with no provider and no pending condition. |
| MockServer.WithCondition | harmonysoft-http-mock-server-test/src/main/kotlin/tech/harmonysoft/oss/http/server/mock/MockHttpServerManager.kt:103-106 | Fails when nothing is active (the `activeExpectationInfo` getter). Otherwise the active entry's pending condition becomes the new one, or the old one `and` the new one, and nothing else changes. |
| MockServer.RemoveReplaced | harmonysoft-http-mock-server-test/src/main/kotlin/tech/harmonysoft/oss/http/server/mock/MockHttpServerManager.kt:118-127 | Removal never grows the list. |
| MockServer.RemoveReplacedMembers | harmonysoft-http-mock-server-test/src/main/kotlin/tech/harmonysoft/oss/http/server/mock/MockHttpServerManager.kt:118-127 | A provider survives exactly when it was there and is a conditional provider whose condition differs from the new one, so non-conditional providers are removed too. |
| MockServer.RemoveReplacedConcat | harmonysoft-http-mock-server-test/src/main/kotlin/tech/harmonysoft/oss/http/server/mock/MockHttpServerManager.kt:118-127 | Removal works element by element: filtering `a + b` is filtering `a`, then `b`. |
| MockServer.SurvivorPosition | harmonysoft-http-mock-server-test/src/main/kotlin/tech/harmonysoft/oss/http/server/mock/MockHttpServerManager.kt:118-127 | A surviving provider ends up right after the survivors that preceded it. |
| MockServer.RemoveReplacedKeepsOrder | harmonysoft-http-mock-server-test/src/main/kotlin/tech/harmonysoft/oss/http/server/mock/MockHttpServerManager.kt:118-127 | Two surviving providers keep their relative order. |
| MockServer.WithResponse | harmonysoft-http-mock-server-test/src/main/kotlin/tech/harmonysoft/oss/http/server/mock/MockHttpServerManager.kt:108-134 | Fails when nothing is active. Otherwise it takes the pending condition (or `MATCH_ALL`) and clears it. The new provider is first, no later provider is non-conditional or has that condition, the rest are the survivors in order, and other expectations are unchanged. |
| MockServer.ReconfigureReplaces | harmonysoft-http-mock-server-test/src/main/kotlin/tech/harmonysoft/oss/http/server/mock/MockHttpServerManager.kt:115-133 | Configuring a second response for the same condition leaves only the newer provider for it, in first place. |
| MockServer.Cleaned | harmonysoft-http-mock-server-test/src/main/kotlin/tech/harmonysoft/oss/http/server/mock/MockHttpServerManager.kt:65-75 | No expectation, no recorded request and no active target remain. |
| MockServer.FirstMatch | harmonysoft-http-mock-server-test/src/main/kotlin/tech/harmonysoft/oss/http/server/mock/MockHttpServerManager.kt:147-159 | The index of the first candidate the lenient comparison accepts: every earlier one is rejected. None exactly when every candidate is rejected. |
| MockServer.FirstMatchIsFirstAccepted | harmonysoft-http-mock-server-test/src/main/kotlin/tech/harmonysoft/oss/http/server/mock/MockHttpServerManager.kt:147-159 | A candidate accepted after every earlier one was rejected is the first match, the one whose bindings are committed. |
| MockServer.ExpectationInfo.constructor | harmonysoft-http-mock-server-test/src/main/kotlin/tech/harmonysoft/oss/http/server/mock/MockHttpServerManager.kt:188-195 | A new expectation has its request, no provider and no pending condition. |
| MockServer.ExpectationInfo.Respond | harmonysoft-http-mock-server-test/src/main/kotlin/tech/harmonysoft/oss/http/server/mock/MockHttpServerManager.kt:83-90 | The answer is the first provider's response in list order, every earlier provider having declined. It fails, naming the request and all providers, exactly when every provider declines. |
| MockServer.MockHttpServerManager.constructor | harmonysoft-http-mock-server-test/src/main/kotlin/tech/harmonysoft/oss/http/server/mock/MockHttpServerManager.kt:43-47 | Starts with no expectation, no recorded request and no active target. |
| MockServer.MockHttpServerManager.CleanExpectations | harmonysoft-http-mock-server-test/src/main/kotlin/tech/harmonysoft/oss/http/server/mock/MockHttpServerManager.kt:65-75 | The new state is `Cleaned`, with the registry invariant kept. |
| MockServer.MockHttpServerManager.TargetRequest | harmonysoft-http-mock-server-test/src/main/kotlin/tech/harmonysoft/oss/http/server/mock/MockHttpServerManager.kt:77-93 | The new state is `Targeted`, and the very same expectation objects stay registered. |
| MockServer.MockHttpServerManager.AddCondition | harmonysoft-http-mock-server-test/src/main/kotlin/tech/harmonysoft/oss/http/server/mock/MockHttpServerManager.kt:103-106 | The outcome and new state are those `WithCondition` prescribes: failure with the state unchanged, or success with that state. |
| MockServer.MockHttpServerManager.ConfigureResponseWithCode | harmonysoft-http-mock-server-test/src/main/kotlin/tech/harmonysoft/oss/http/server/mock/MockHttpServerManager.kt:108-134 | The outcome and new state are those `WithResponse` prescribes. |
| MockServer.Reports | harmonysoft-http-mock-server-test/src/main/kotlin/tech/harmonysoft/oss/http/server/mock/MockHttpServerManager.kt:147-159 | Pairs each recorded body, in order, with the errors its lenient comparison reported. When no body matched, every report carries at least one error. |
| MockServer.MockHttpServerManager.VerifyRequestReceived | harmonysoft-http-mock-server-test/src/main/kotlin/tech/harmonysoft/oss/http/server/mock/MockHttpServerManager.kt:136-172 | When some recorded body is accepted, stores the bindings of the first accepted body only. It passes, or fails with the store's error when a captured value is null, keeping the bindings before it. Otherwise it fails, reporting every body with its errors, and stores nothing. |
| MockServer.MockHttpServerManager.VerifyNoCallIsMade | harmonysoft-http-mock-server-test/src/main/kotlin/tech/harmonysoft/oss/http/server/mock/MockHttpServerManager.kt:174-186 | Passes exactly when no request was recorded; otherwise fails, listing the requests. |
| JsonHelper.Fill | harmonysoft-jackson/src/main/kotlin/tech/harmonysoft/oss/jackson/JsonHelper.kt:23-33 | Filling only adds paths. It keeps a holder of strings, numbers and booleans free of null, objects and lists. |
| JsonHelper.FillFields | harmonysoft-jackson/src/main/kotlin/tech/harmonysoft/oss/jackson/JsonHelper.kt:25-27 | The same for the fields of an object, each under `path.key`. |
| JsonHelper.FillItems | harmonysoft-jackson/src/main/kotlin/tech/harmonysoft/oss/jackson/JsonHelper.kt:28-30 | The same for the items of a list, each under `path[i]`. |
| JsonHelper.Flattened | harmonysoft-jackson/src/main/kotlin/tech/harmonysoft/oss/jackson/JsonHelper.kt:10-21 | No value of the result is null, an object or a list. |
| JsonHelper.ByPath | harmonysoft-jackson/src/main/kotlin/tech/harmonysoft/oss/jackson/JsonHelper.kt:10-21 | The loop builds exactly `Flattened` of the object: containers are filled under their key, scalars stored, nulls skipped. |
| JsonHelper.FillInto | harmonysoft-jackson/src/main/kotlin/tech/harmonysoft/oss/jackson/JsonHelper.kt:23-33 | The recursive fill builds exactly `Fill`: object fields under `path.key`, list items under `path[i]`, scalars at `path`, null nowhere. |
| JsonHelper.NullAndEmptyAddNothing | harmonysoft-jackson/src/main/kotlin/tech/harmonysoft/oss/jackson/JsonHelper.kt:24-32 | A null, an empty object and an empty list leave the holder unchanged. |
| JsonHelper.FillFrame | harmonysoft-jackson/src/main/kotlin/tech/harmonysoft/oss/jackson/JsonHelper.kt:23-33 | Filling under `path` keeps every existing path and changes none outside `path`, `path.…` and `path[…`. |
| JsonHelper.FillFieldsFrame | harmonysoft-jackson/src/main/kotlin/tech/harmonysoft/oss/jackson/JsonHelper.kt:25-27 | The same frame holds for an object's fields, each filled under `path.key`. |
| JsonHelper.FillItemsFrame | harmonysoft-jackson/src/main/kotlin/tech/harmonysoft/oss/jackson/JsonHelper.kt:28-30 | The same frame holds for a list's items, each filled under `path[i]`. |
| JsonHelper.FlattenedPathsStartWithTopKey | harmonysoft-jackson/src/main/kotlin/tech/harmonysoft/oss/jackson/JsonHelper.kt:13-20 | Every result path begins with a top-level key of the input. |
| JsonHelper.TopLevelLeafKept | harmonysoft-jackson/src/main/kotlin/tech/harmonysoft/oss/jackson/JsonHelper.kt:16-17 | A top-level string, number or boolean under a plain key is in the result under that key, unchanged. |
| JsonHelper.TopLevelNullDropped | harmonysoft-jackson/src/main/kotlin/tech/harmonysoft/oss/jackson/JsonHelper.kt:16 | A top-level null under a plain key leaves no entry under that key. |
| JsonHelper.NotInFlattened | harmonysoft-jackson/src/main/kotlin/tech/harmonysoft/oss/jackson/JsonHelper.kt:13-19 | A plain key that is no top-level key is not a path of the result. |
| JsonHelper.KeySiblingsApart | harmonysoft-jackson/src/main/kotlin/tech/harmonysoft/oss/jackson/JsonHelper.kt:26 | Paths under `path.k1` and `path.k2`, for different plain keys, never meet. |
| JsonHelper.IndexSiblingsApart | harmonysoft-jackson/src/main/kotlin/tech/harmonysoft/oss/jackson/JsonHelper.kt:29 | Paths under `path[i]` and `path[j]`, for `i != j`, never meet. |
| JsonHelper.RenderExtends | harmonysoft-jackson/src/main/kotlin/tech/harmonysoft/oss/jackson/JsonHelper.kt:26-29 | Following further steps from `path` gives `path` or a path below it. |
| JsonHelper.FillFindsLeaf | harmonysoft-jackson/src/main/kotlin/tech/harmonysoft/oss/jackson/JsonHelper.kt:23-33 | In a tree whose keys are distinct and plain, the leaf reached by any keys and indices is stored under the path spelling them out, whatever the holder held. |
| JsonHelper.FieldsFindLeaf | harmonysoft-jackson/src/main/kotlin/tech/harmonysoft/oss/jackson/JsonHelper.kt:25-27 | The same for a leaf reached through one of an object's fields. |
| JsonHelper.ItemsFindLeaf | harmonysoft-jackson/src/main/kotlin/tech/harmonysoft/oss/jackson/JsonHelper.kt:28-30 | The same for a leaf reached through one of a list's items. |
| JsonHelper.TopFieldFindsLeaf | harmonysoft-jackson/src/main/kotlin/tech/harmonysoft/oss/jackson/JsonHelper.kt:13-19 | The same for a leaf reached through one of the top-level entries. |
| JsonHelper.ByPathFindsLeaf | harmonysoft-jackson/src/main/kotlin/tech/harmonysoft/oss/jackson/JsonHelper.kt:10-21 | On a plain document, every leaf reached by a key and further steps is in the result under its `a.b[2].c` path. |
| JsonHelper.FillSound | harmonysoft-jackson/src/main/kotlin/tech/harmonysoft/oss/jackson/JsonHelper.kt:23-33 | Every entry after filling was already in the holder, or is the leaf of the value reached by the steps its path spells out. |
| JsonHelper.FieldsSound | harmonysoft-jackson/src/main/kotlin/tech/harmonysoft/oss/jackson/JsonHelper.kt:25-27 | The same for the fields of an object. |
| JsonHelper.ItemsSound | harmonysoft-jackson/src/main/kotlin/tech/harmonysoft/oss/jackson/JsonHelper.kt:28-30 | The same for the items of a list. |
| JsonHelper.TopFieldSound | harmonysoft-jackson/src/main/kotlin/tech/harmonysoft/oss/jackson/JsonHelper.kt:13-19 | Every entry comes from one of the top-level entries, at the path spelling out the steps below its key. |
| JsonHelper.ByPathSound | harmonysoft-jackson/src/main/kotlin/tech/harmonysoft/oss/jackson/JsonHelper.kt:10-21 | On a plain document, every entry of the result is the leaf reached by the key and steps its path spells out. |
| Text.NatToString | harmonysoft-jackson/src/main/kotlin/tech/harmonysoft/oss/jackson/JsonHelper.kt:29 | A list index renders as a non-empty string of decimal digits with no leading zero. |
| Text.NatToStringRoundTrip | harmonysoft-jackson/src/main/kotlin/tech/harmonysoft/oss/jackson/JsonHelper.kt:29 | The decimal text of an index reads back as that index, so distinct indices give distinct paths. |
| Text.IntToString | harmonysoft-mongo-test/src/main/kotlin/tech/harmonysoft/oss/mongo/service/TestMongoManager.kt:56 | A port renders as decimal digits, after a minus sign exactly when it is negative. |
| Text.IntToStringRoundTrip | harmonysoft-mongo-test/src/main/kotlin/tech/harmonysoft/oss/mongo/service/TestMongoManager.kt:56 | The decimal text of any integer reads back as that integer. |
| Text.Hex | harmonysoft-common-test/src/main/kotlin/tech/harmonysoft/oss/test/fixture/meta/value/CommonFixtureMetaValueMapper.kt:21 | A hex group has exactly the requested width, all lower-case hex digits. |
| Text.HexRoundTrip | harmonysoft-common-test/src/main/kotlin/tech/harmonysoft/oss/test/fixture/meta/value/CommonFixtureMetaValueMapper.kt:21 | A number that fits the width reads back from its hex group unchanged. |
| MetaValue.UuidToString | harmonysoft-common-test/src/main/kotlin/tech/harmonysoft/oss/test/fixture/meta/value/CommonFixtureMetaValueMapper.kt:21 | The UUID text is 36 characters: dashes at 8, 13, 18 and 23, lower-case hex digits everywhere else. |
| MetaValue.UuidStringRoundTrip | harmonysoft-common-test/src/main/kotlin/tech/harmonysoft/oss/test/fixture/meta/value/CommonFixtureMetaValueMapper.kt:21 | Both 64-bit halves read back from the text, so distinct UUIDs give distinct values. |
| MetaValue.MapperType | harmonysoft-common-test/src/main/kotlin/tech/harmonysoft/oss/test/fixture/meta/value/CommonFixtureMetaValueMapper.kt:16 | The mapper serves the common test fixture type. |
| MetaValue.Map | harmonysoft-common-test/src/main/kotlin/tech/harmonysoft/oss/test/fixture/meta/value/CommonFixtureMetaValueMapper.kt:18-24 | `time-zone` succeeds with the clock's zone id and `uuid` with the 36-character text of the given UUID. Every other name fails with `Unit`. |
| MetaValue.MapIgnoresContext | harmonysoft-common-test/src/main/kotlin/tech/harmonysoft/oss/test/fixture/meta/value/CommonFixtureMetaValueMapper.kt:18-24 | The answer does not depend on the context. |
| TestMongo.BytesToHex | harmonysoft-mongo-test/src/main/kotlin/tech/harmonysoft/oss/mongo/service/TestMongoManager.kt:135 | An ObjectId's text has two lower-case hex digits per byte. |
| TestMongo.BytesToHexRoundTrip | harmonysoft-mongo-test/src/main/kotlin/tech/harmonysoft/oss/mongo/service/TestMongoManager.kt:135 | Every byte reads back from its two digits, so distinct ObjectIds normalise to distinct strings. |
| TestMongo.NormalizeValue | harmonysoft-mongo-test/src/main/kotlin/tech/harmonysoft/oss/mongo/service/TestMongoManager.kt:132-139 | An ObjectId becomes its hex string. Every other value, null included, is returned unchanged, and no result is an ObjectId. |
| TestMongo.NormalizeValueIdempotent | harmonysoft-mongo-test/src/main/kotlin/tech/harmonysoft/oss/mongo/service/TestMongoManager.kt:132-139 | Normalising twice is normalising once. |
| TestMongo.Auth | harmonysoft-mongo-test/src/main/kotlin/tech/harmonysoft/oss/mongo/service/TestMongoManager.kt:53-55 | `login:password@` when a credential is configured, empty otherwise. |
| TestMongo.ConnectionString | harmonysoft-mongo-test/src/main/kotlin/tech/harmonysoft/oss/mongo/service/TestMongoManager.kt:56 | `mongodb://`, the auth part, host, `:`, the decimal port, `/` and database name. |
| TestMongo.ConnectionStringHasAuthIffCredential | harmonysoft-mongo-test/src/main/kotlin/tech/harmonysoft/oss/mongo/service/TestMongoManager.kt:53-56 | When host and database contain no `@`, the connection string contains `@` exactly when a credential is configured. |
| TestMongo.Projection | harmonysoft-mongo-test/src/main/kotlin/tech/harmonysoft/oss/mongo/service/TestMongoManager.kt:101 | A column is projected exactly when some record has it as a data column or as a column to bind. |
| TestMongo.NormalizedEquals | harmonysoft-mongo-test/src/main/kotlin/tech/harmonysoft/oss/mongo/service/TestMongoManager.kt:116-118 | Equal values compare equal. Two values that are not ObjectIds compare equal exactly when they are equal. An ObjectId equals a value that is not an ObjectId exactly when that value is the ObjectId's hex string. |
| TestMongo.BytesToHexInjective | harmonysoft-mongo-test/src/main/kotlin/tech/harmonysoft/oss/mongo/service/TestMongoManager.kt:135 | Two byte strings with the same hex rendering are the same. |
| TestMongo.NormalizedEqualsOnObjectIds | harmonysoft-mongo-test/src/main/kotlin/tech/harmonysoft/oss/mongo/service/TestMongoManager.kt:116-118 | Two ObjectIds compare equal exactly when they are the same id. |
| TestMongo.Lookup | harmonysoft-mongo-test/src/main/kotlin/tech/harmonysoft/oss/mongo/service/TestMongoManager.kt:125 | A column reads as null exactly when the matched document lacks it or holds null there. Otherwise it reads as the document's value. |
| TestMongo.RowBindings | harmonysoft-mongo-test/src/main/kotlin/tech/harmonysoft/oss/mongo/service/TestMongoManager.kt:124-126 | One entry per column to bind, in order: its key and the normalised value of that column, as `Lookup` reads it. |
| TestMongo.RecordOutcome | harmonysoft-mongo-test/src/main/kotlin/tech/harmonysoft/oss/mongo/service/TestMongoManager.kt:111-126 | A record passes exactly when its document is found and none of its bound columns reads as null. Then it stores its whole row. A record that is not found stores nothing and fails with the search's message. A found record stores exactly its row up to the first column that reads as null, and nothing stored is null. |
| TestMongo.Attempt | harmonysoft-mongo-test/src/main/kotlin/tech/harmonysoft/oss/mongo/service/TestMongoManager.kt:110-128 | No binding an attempt stores is null: storing stops at the first null bound column. |
| TestMongo.RowBindingsStored | harmonysoft-mongo-test/src/main/kotlin/tech/harmonysoft/oss/mongo/service/TestMongoManager.kt:124-126 | With distinct keys and no bound column reading as null, storing the row succeeds and each key ends up bound to its column's normalised value. |
| TestMongo.AttemptExtend | harmonysoft-mongo-test/src/main/kotlin/tech/harmonysoft/oss/mongo/service/TestMongoManager.kt:110-127 | One more record after a passing prefix adds its outcome and its bindings. After a failing prefix it adds nothing. |
| TestMongo.AttemptKeepsFailure | harmonysoft-mongo-test/src/main/kotlin/tech/harmonysoft/oss/mongo/service/TestMongoManager.kt:110-127 | Once a prefix of the records fails, the records after it change neither the outcome nor the bindings. |
| TestMongo.AttemptPassesIffAllRecordsPass | harmonysoft-mongo-test/src/main/kotlin/tech/harmonysoft/oss/mongo/service/TestMongoManager.kt:110-128 | An attempt passes exactly when every record passes. |
| TestMongo.AttemptStopsAtFirstFailure | harmonysoft-mongo-test/src/main/kotlin/tech/harmonysoft/oss/mongo/service/TestMongoManager.kt:110-127 | When record `k` is the first that fails, the attempt fails with its error: document not found, or a null bound column refused. It has stored what the records before it bind, then what record `k` stored before failing. |
| TestMongo.TestMongoManager.constructor | harmonysoft-mongo-test/src/main/kotlin/tech/harmonysoft/oss/mongo/service/TestMongoManager.kt:28-34 | The manager holds the binding context it is given; its bindings are what `VerifyDocumentsAttempt` changes. |
| TestMongo.TestMongoManager.VerifyDocumentsAttempt | harmonysoft-mongo-test/src/main/kotlin/tech/harmonysoft/oss/mongo/service/TestMongoManager.kt:110-128 | The outcome is the `Attempt` outcome, and the context gains exactly the `Attempt` bindings, stored in order. |
| TestMongo.TestMongoManager.HandleRecord | harmonysoft-mongo-test/src/main/kotlin/tech/harmonysoft/oss/mongo/service/TestMongoManager.kt:111-126 | The outcome and the stored bindings are those of `RecordOutcome`. |
| TestMongo.TestMongoManager.StoreRow | harmonysoft-mongo-test/src/main/kotlin/tech/harmonysoft/oss/mongo/service/TestMongoManager.kt:124-126 | The context gains the row's bindings in order up to the first null column, which is refused with an error naming its key (`StoreAll`). |
| PortProvider.SpringDefaultWebPortProvider.constructor | harmonysoft-http-client-apache-cucumber-spring/src/main/kotlin/tech/harmonysoft/oss/http/client/cucumber/SpringDefaultWebPortProvider.kt:11 | The port starts at 0, "not initialised". |
| PortProvider.SpringDefaultWebPortProvider.GetPort | harmonysoft-http-client-apache-cucumber-spring/src/main/kotlin/tech/harmonysoft/oss/http/client/cucumber/SpringDefaultWebPortProvider.kt:14-16 | Succeeds with the stored port exactly when it is non-zero, and fails otherwise. Reading changes nothing. |
| PortProvider.SpringDefaultWebPortProvider.SetPort | harmonysoft-http-client-apache-cucumber-spring/src/main/kotlin/tech/harmonysoft/oss/http/client/cucumber/SpringDefaultWebPortProvider.kt:17-19 | The last value set is the stored port, zero included, so setting 0 makes reads fail again. |

Further modelling choices:

- The binding store is a `ConcurrentHashMap`, which refuses a null value by
  throwing before anything is stored. The model turns that exception into an error
  result, `NullValueRejected`:
  - `StoreBinding` fails and changes nothing;
  - a loop of stores stops at the first null and keeps what it stored before it;
  - every caller passes the error up: `Matches`, `VerifyRequestReceived`
    (`BindingFailed`) and the Mongo attempt (`BindingRejected`).
  The class invariant `Valid()` says that no key is ever bound to null.
- Two scenario methods show the promised sequences end to end:
  - `Binding.UnboundLookupScenario`: an unbound lookup fails; storing a null is
    refused and leaves the key unbound; storing a string binds it.
  - `PortProvider.PortLifecycle`: unset fails, set answers, and reset to 0
    fails again.

Two behaviours of the code that a caller might not expect:

- `cleanExpectations` does not touch the dynamic binding context, and
  `DynamicBindingContext` has no operation that clears it. So the model's
  `CleanExpectations` leaves bindings alone. When the same context instance
  serves consecutive scenarios, values captured in one scenario stay bound in
  the next. The context's scope is set by the dependency-injection container,
  not by this code.
- `configureResponseWithCode` removes every provider that is not a
  `ConditionalResponseProvider`, as well as those with an equal condition.
  So a non-conditional provider does not survive a new response.

## Left out

- Mock server transport and lifecycle are foreign calls into MockServer and are not modelled:
  - `startIfNecessary` (port choice, starting the server);
  - clearing expectations by id on the server;
  - `when(...).withId(...).respond` registration;
  - `retrieveRecordedRequests`.
  Recorded requests and their bodies are plain inputs.
- `ExpectationInfo.expectationId` is a random UUID used only to talk to the server, so it is not modelled.
- Logging and the wording of failure messages are not modelled. Errors are datatypes that carry what the messages name.
- MockServer.MockHttpServerManager.VerifyRequestReceived: path expansion and dynamic-marker preparation (`prepareTestData`, `prepareDynamicMarkers`) are not part of this model. The expected JSON and the recorded bodies arrive already prepared and parsed.
- MockServer.MockHttpServerManager.VerifyNoCallIsMade: path expansion is not modelled. The recorded requests for the method and path are an input.
- `setJsonRequestBodyCondition` and `setRequestParameterCondition` only build a condition and call `addCondition`, so `AddCondition` covers them. Their condition classes are not part of this model.
- Condition semantics: only `MATCH_ALL` and `and` are interpreted, and `and` is taken to be a conjunction (`Holds`). Other condition kinds are opaque leaves.
- MockServer.Holds and MockServer.AccumulateIsConjunction: these document what the pending condition means. No operation's proof uses them, because `maybeRespond`, which evaluates conditions, is a parameter.
- PartialJsonMatch.PartialJsonMatchCondition.Matches: parsing the request body (`parseJson` of `bodyAsJsonOrXmlString`) and its failure on a body that is not JSON are not modelled. The request arrives with its body already parsed.
- MockServer.RemoveReplaced: condition equality is structural equality of the `Condition` datatype. A `Leaf(id)` stands for one condition object, so two leaves are equal exactly when they name the same object. The source compares with the condition classes' `equals`, and those classes are not part of this model. So two `and` conditions built separately from the same parts are equal here, but may be unequal in the source if `and` builds objects compared by reference.
- MockServer.ExpectationInfo.Respond: `maybeRespond` is a pure function parameter. A provider whose condition is a `PartialJsonMatchCondition` stores bindings when it matches during the scan. That side effect on the binding context is not modelled here; `PartialJsonMatch.PartialJsonMatchCondition.Matches` models it on its own.
- `CommonJsonUtil.compareAndBind`, `ResponseProvider.maybeRespond` and `VerificationUtil.find` are not part of this model and are parameters.
- TestMongo.TestMongoManager.VerifyDocumentsAttempt: models one attempt of `verifyConditionHappens`. A refused null binding ends the attempt with `BindingRejected`; whether the polling loop then retries or propagates the exception is not modelled. Also not modelled:
  - the polling and retry loop, whose code is not part of this model;
  - the database query;
  - `MapUtil.flatten`.
- TestMongo.Projection: a set; the order of the `toList()` projection is not modelled.
- TestMongo.NormalizedEquals: `ObjectUtil.areEqual` is modelled as equality of the normalised values.
- Not modelled: `cleanUpData`, the driver settings and client creation in `getClient`, and the `ensureDocumentExists` upsert. These are MongoDB driver I/O.
- JsonHelper.ByPath: Jackson parsing of the input text is not modelled; the model starts from a parsed top-level object. Also not modelled:
  - JSON numbers other than integers;
  - the mutable holder shared by reference, which is threaded through as a value.
- JsonHelper.ByPathFindsLeaf and JsonHelper.ByPathSound require plain keys (no `.` or `[`). Keys that contain them can make two positions share one path, in which case the later write wins.
- Concurrency: `ConcurrentHashMap`, `CopyOnWriteArrayList`, `AtomicReference` and `AtomicInteger` are modelled as plain sequential fields. Thread-safety is not modelled.
- Non-determinism: `UUID.randomUUID()` and the clock are parameters of `MetaValue.Map`.
- PortProvider.SpringDefaultWebPortProvider.GetPort: 32-bit `Int` is modelled by the `int32` newtype; no arithmetic is done on it.
