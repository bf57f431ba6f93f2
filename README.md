# itch desktop client: credentials, test watchers, localiser and session reactors

This project is a Dafny model of six small pieces of the itch desktop client.

- **Game-credential resolution.** For a game, the resolver chooses an API key and an optional download key. It reads the active session, the remembered sessions keyed by profile id, and the download-key table. The script `src/reactors/downloads/get-game-credentials.spec.ts` fixes every rule below except the press shortcut: its only call where a press user asks for a press-system game (lines 62-71) runs on an empty key table, as does every other call before line 96, where the answer is the same with or without the shortcut. The shortcut is taken from that assertion's wording at line 70, "api key only when press access is allowed". The order is:
  - logged out gives `null`;
  - a press user asking for a press-system game gets the active key alone;
  - a key the active profile owns wins;
  - otherwise a key owned by a remembered profile is used, with that profile's API key;
  - otherwise the active key alone.
  The session and the key table are classes with the test script's mutations (`persist`, `remove`, switching user, forgetting a session). The test's nine calls are replayed by `GetGameCredentialsCase`.
- **The two `TestWatcher`s.**
  - In `src/test-suite.ts`, routing awaits the action's own reactors and then the `_ALL` reactors. In `src/test.ts`, it awaits only the action's own reactors.
  - Reactors are abstract steps known by an id. An oracle `succeeds` says whether each one resolves or throws on an action.
  - The watchers record what the overridden `store.dispatch` does, as a log of reducer steps and reactor runs.
  - The nested routing loops are one method, `Watcher.Walk`. It is proved against `Invoked` and `Settle`: the prefix of the plan that runs, and how the routing promise settles.
- **Suite names.** In `src/test-suite.ts`, the name is the chain of three rewrites applied to the already-relative path.
- **The localiser's `getT`** (`appsrc/localizer/index.js`). The lookup falls back to the key. The substitution loop is kept as written: `for ... in` over `Object.keys(variables)` enumerates array indices. So the pattern texts built are `{{0}}`, `{{1}}`, …, and the values used are `variables["0"]`, `variables["1"]`, …. The regular-expression replace is a parameter. The program's `new RegExp('{{0}}', 'g')` does not denote the text `{{0}}`: a JavaScript engine reads it as `{` repeated zero times followed by `}`, so it matches each `}`. What the program's replace does with that pattern is left to the parameter.
- **The `loginSucceeded` and `logout` reactors** (`src/main/reactors/profile.ts`). They are appends to an action log, `Actions.Store`. Whether the profile is a developer and whether a download is active are inputs.
- **The `requestCaveUninstall` reactor** (`src/main/reactors/dialogs/request-cave-uninstall.ts`). The fetched cave is an input. The modal is a datatype holding the parameters given to the naked modal widget.

The modules are:
- Wrappers: `Option`.
- Actions: the action constructors, their type tags, the modal payload and the store's dispatch log.
- Watcher: the registry and routing semantics both watchers share.
- One module per source file: `TestSuite`, `Test`, `Localizer`, `Profile`, `RequestCaveUninstall`, `GameCredentials`.

## Model

| member | source | states |
|---|---|---|
| Watcher.Register | src/main/reactors/profile.ts:7-30 | `on(type, reactor)` appends the reactor to that type's bucket and leaves every other bucket unchanged |
| Watcher.Reactors | src/test-suite.ts:100 | a type's bucket, or the empty list when the type has no entry; its properties are stated by `TestSuite.UnregisteredTypeRunsWildcardOnly` and `Test.UnregisteredTypeRunsNothing` |
| Watcher.Trace | src/test-suite.ts:100-102 | the run log for a list of reactors has one `Ran` entry per reactor, in the same order |
| Watcher.RouteAppend | src/test-suite.ts:99-100 | walking tags `a + b` walks the buckets of `a` and then those of `b` |
| Watcher.Route | src/test-suite.ts:99-100 | the plan the nested loops walk: the buckets of the tags one after the other; `RouteAppend`, `TestSuite.SuiteRouteOrder` and `Test.UnitRouteIsOwnBucket` state it |
| Watcher.Invoked | src/test-suite.ts:99-103 | the reactors that run: the plan up to and including the first that throws; `InvokedIsPrefix`, `InvokedAtMostOnce`, `AllSucceedRunsAll` and `FirstFailureStops` state it |
| Watcher.Settle | src/test-suite.ts:99-103 | how the routing promise settles; `ResolvedIffAllSucceed`, `FirstFailureStops` and `RejectedByLastInvoked` state it |
| Watcher.InvokedIsPrefix | src/test-suite.ts:99-103 | the reactors run are a prefix of the plan: none is skipped or reordered |
| Watcher.InvokedAtMostOnce | src/test-suite.ts:99-103 | no reactor runs more often than it appears in the plan |
| Watcher.AllSucceedRunsAll | src/test-suite.ts:99-103 | when every reactor resolves, the whole plan runs and routing resolves |
| Watcher.FirstFailureStops | src/test-suite.ts:101 | when reactor `k` is the first to throw, exactly reactors `0..k` run and routing rejects with `k` |
| Watcher.ResolvedIffAllSucceed | src/test-suite.ts:99-103 | routing resolves if and only if every reactor of the plan resolves |
| Watcher.RejectedByLastInvoked | src/test-suite.ts:101 | a rejection is caused by the last reactor run: it threw and every earlier one resolved |
| Watcher.StopsInBucket | src/test-suite.ts:99-103 | a first failure at reactor `j` of bucket `t` leaves both loops: the buckets before `t` and reactors `0..j` of `t` run, and routing rejects with it |
| Watcher.Walk | src/test-suite.ts:98-104 | the nested loops run exactly `Invoked` of the bucket list and settle exactly as `Settle` |
| TestSuite.Slashes | src/test-suite.ts:29 | the rewrite keeps the length; `SlashesAt`, `SlashesRemovesBackslashes` and `SlashesAppend` state its effect |
| TestSuite.StripSpec | src/test-suite.ts:30 | a path ending in `.spec.ts` is the result followed by `.spec.ts`; any other path is unchanged |
| TestSuite.StripIndex | src/test-suite.ts:31 | a path ending in `/index` is the result, which ends in `/`, followed by `index`; any other path is unchanged |
| TestSuite.SuiteName | src/test-suite.ts:28-31 | the name is never longer than the path; `SuiteNameHasNoBackslash`, `SuiteNameIsPrefix`, `IndexSpecNamesDirectory` and `IndexSourceKeepsName` state the rest |
| TestSuite.SlashesAt | src/test-suite.ts:29 | each character of the path is kept, except a backslash, which becomes `/` |
| TestSuite.SlashesRemovesBackslashes | src/test-suite.ts:29 | no backslash is left after the first rewrite |
| TestSuite.SlashesAppend | src/test-suite.ts:29 | the slash rewrite works character by character, so it distributes over concatenation |
| TestSuite.SuiteNameHasNoBackslash | src/test-suite.ts:28-31 | the derived suite name contains no backslash |
| TestSuite.SuiteNameIsPrefix | src/test-suite.ts:28-31 | the slash-converted path is the name followed by one of `""`, `.spec.ts`, `index` or `index.spec.ts`: only a suffix is ever removed |
| TestSuite.StripSpecOnce | src/test-suite.ts:30 | the anchored `.spec.ts` pattern removes the suffix once: `x.spec.ts.spec.ts` keeps one `.spec.ts` |
| TestSuite.IndexSpecNamesDirectory | src/test-suite.ts:30-31 | `dir/index.spec.ts` is named `dir/` |
| TestSuite.IndexSourceKeepsName | src/test-suite.ts:30-31 | `dir/index.ts` keeps its name, apart from slash conversion |
| TestSuite.SuiteRoute | src/test-suite.ts:99 | the plan of `[action.type, "_ALL"]`; `SuiteRouteOrder`, `UnregisteredTypeRunsWildcardOnly` and `WildcardTypedActionRunsWildcardTwice` state it |
| TestSuite.SuiteRouteOrder | src/test-suite.ts:99-103 | the plan is the action's own bucket in registration order, then the `_ALL` bucket in registration order |
| TestSuite.UnregisteredTypeRunsWildcardOnly | src/test-suite.ts:100 | a type with no entry contributes nothing, so only the `_ALL` reactors are planned |
| TestSuite.WildcardTypedActionRunsWildcardTwice | src/test-suite.ts:99 | an action whose type is `_ALL` walks the wildcard bucket twice |
| TestSuite.TestWatcher.constructor | src/test-suite.ts:82-90 | a new watcher has no reactors, an empty log and no pending promise |
| TestSuite.TestWatcher.On | src/test-suite.ts:78 | the inherited `on` registers the reactor as `Watcher.Register` does and leaves the log and `p` unchanged |
| TestSuite.TestWatcher.RouteInternal | src/test-suite.ts:98-104 | the reactors run and the outcome are those of the plan `[type, "_ALL"]` |
| TestSuite.TestWatcher.StoreDispatch | src/test-suite.ts:86-89 | the reducer step is logged first, then the reactors run; `p` is set to the routing outcome |
| TestSuite.TestWatcher.Dispatch | src/test-suite.ts:92-96 | dispatch logs the reducer step and the routing, returns the outcome, and leaves `p` null once routing resolved; a rejection leaves `p` set |
| Test.UnitRoute | src/test.ts:52 | the plan of `[action.type]`; `UnitRouteIsOwnBucket`, `UnregisteredTypeRunsNothing` and `WildcardIgnored` state it |
| Test.DispatchEvents | src/test.ts:32-36 | what one dispatch logs: the reducer step, then the reactors that ran; `TwoDispatchesShape` and `TickFollowsSettledRouting` state its shape |
| Test.UnitRouteIsOwnBucket | src/test.ts:52-56 | the plan is exactly the action's own bucket, in registration order |
| Test.UnregisteredTypeRunsNothing | src/test.ts:53 | a type with no entry runs no reactor and routing resolves |
| Test.WildcardIgnored | src/test.ts:52 | changing the `_ALL` bucket does not change the plan of any other type |
| Test.TestWatcher.constructor | src/test.ts:28-37 | a new watcher has no reactors, an empty log and no pending promise |
| Test.TestWatcher.On | src/test.ts:24 | the inherited `on` registers the reactor as `Watcher.Register` does and leaves the log and `p` unchanged |
| Test.TestWatcher.RouteInternal | src/test.ts:51-57 | the reactors run and the outcome are those of the action's own bucket |
| Test.TestWatcher.StoreDispatch | src/test.ts:32-36 | the reducer step is logged before routing, `p` holds the outcome, and the very action given is returned |
| Test.TestWatcher.Dispatch | src/test.ts:39-43 | dispatch logs the reducer step and the routing, returns the outcome, and leaves `p` null once routing resolved; a rejection leaves `p` set |
| Test.TestWatcher.DispatchAndWaitImmediate | src/test.ts:45-49 | after a resolved first dispatch the log is that dispatch followed by a `tick` dispatch; after a rejection no `tick` is dispatched; `p` ends null when the last routing resolved and holds the rejection otherwise |
| Test.TwoDispatchesShape | src/test.ts:46-47 | in the log of two dispatches in a row, the reducer steps sit exactly at position 0 and right after the first dispatch's reactor runs |
| Test.TickFollowsSettledRouting | src/test.ts:45-48 | when the first routing resolves, the reducer sees exactly two actions, the given one and then `tick`, and all of the first action's reactors run between them |
| Localizer.Translation | appsrc/localizer/index.js:3-23 | the translator's answer; `Translate` computes it, and the lemmas below state its fallback and substitution behaviour |
| Localizer.LanguageTable | appsrc/localizer/index.js:4 | `strings[lang]`, or the empty table; `MissingLanguageGivesKey` and `OnlyOwnLanguage` state its effect |
| Localizer.IndexName | appsrc/localizer/index.js:13 | the index text `for ... in` yields; `IndexNameIsDecimal` states it is a non-empty digit string |
| Localizer.Placeholder | appsrc/localizer/index.js:17 | the pattern text `'{{' + varName + '}}'` of one iteration; `TitleVariableExample` states its first value |
| Localizer.Property | appsrc/localizer/index.js:17 | `variables[varName]` as replacement text, "undefined" when absent; `PropertyAbsent` states the absent case |
| Localizer.Substituted | appsrc/localizer/index.js:12-18 | the translation after the first `n` iterations; `Translate`'s loop invariant, `OnlyIndexNamesRead` and `NamedVariablesAreNotRead` state it |
| Localizer.Stored | appsrc/localizer/index.js:4-8 | a translation is used if and only if the language has a table holding a non-empty string for the key |
| Localizer.Translate | appsrc/localizer/index.js:2-24 | the translator's lookup and substitution loop compute `Translation` |
| Localizer.MissingLanguageGivesKey | appsrc/localizer/index.js:4-9 | a language without a table gives back the key |
| Localizer.UntranslatedGivesKey | appsrc/localizer/index.js:5-9 | a missing key or an empty translation gives back the key |
| Localizer.NoVariablesGivesTranslation | appsrc/localizer/index.js:11-22 | with no variables, or with a variables object without properties, the stored translation is returned unchanged |
| Localizer.OnlyOwnLanguage | appsrc/localizer/index.js:4 | only the requested language's table affects the answer; there is no fallback to another language |
| Localizer.OnlyIndexNamesRead | appsrc/localizer/index.js:13-17 | the loop reads the variables only at the index names "0", "1", … |
| Localizer.IndexNameIsDecimal | appsrc/localizer/index.js:13 | the loop variable is a non-empty string of decimal digits |
| Localizer.PropertyAbsent | appsrc/localizer/index.js:17 | reading a property the object does not have substitutes "undefined" |
| Localizer.NamedVariablesAreNotRead | appsrc/localizer/index.js:13-17 | variables whose names are not decimal indices are never substituted: the result is the same as for an object with no properties, iterated as many times |
| Localizer.TitleVariableExample | appsrc/localizer/index.js:11-19 | `t(key, {title: v})` makes exactly one replace call, with pattern text `{{0}}` and value "undefined", and none with `{{title}}`; what that pattern matches is left to the replace parameter |
| Actions.Store.Dispatch | src/main/reactors/profile.ts:13 | `store.dispatch` appends the action to the store's log and hands it back |
| Profile.LoginActions | src/main/reactors/profile.ts:7-25 | the login sequence; `LoginActionsShape` and `LoginResumesLogoutPauses` state its shape and effect |
| Profile.LogoutActions | src/main/reactors/profile.ts:28-29 | the logout sequence; `OnLogout` appends it and `LoginResumesLogoutPauses` states that it leaves downloads paused |
| Profile.OnLoginSucceeded | src/main/reactors/profile.ts:7-25 | the `loginSucceeded` reactor appends exactly `LoginActions` to the store's log |
| Profile.OnLogout | src/main/reactors/profile.ts:27-30 | the `logout` reactor appends exactly `switchPage("gate")` and then `setDownloadsPaused(true)` |
| Profile.LoginActionsShape | src/main/reactors/profile.ts:7-25 | login dispatches 2 to 4 actions: `unlockTab` first if and only if developer, `switchPage("hub")` then resuming downloads, and `navigate` to the downloads tab last if and only if a download is active |
| Profile.LastPausedOfSuffix | src/main/reactors/profile.ts:16 | a later `setDownloadsPaused` hides every earlier one |
| Profile.LoginResumesLogoutPauses | src/main/reactors/profile.ts:16-29 | whatever came before, login leaves downloads unpaused and logout leaves them paused |
| RequestCaveUninstall.PromptTitle | src/main/reactors/dialogs/request-cave-uninstall.ts:16-19 | the title variable is the game's title when the cave has a game, else "this" |
| RequestCaveUninstall.UninstallPrompt | src/main/reactors/dialogs/request-cave-uninstall.ts:21-44 | the modal payload; `UninstallPromptShape` and `ButtonsTargetRequestedCave` state its content |
| RequestCaveUninstall.UninstallPromptShape | src/main/reactors/dialogs/request-cave-uninstall.ts:21-44 | the modal has title `""`, the uninstall message with `title` as its only variable, null widget parameters, and three buttons in order: uninstall (caption `prompt.uninstall.uninstall`, `modal-uninstall`, icon `uninstall`), reinstall (caption `prompt.uninstall.reinstall`, `modal-reinstall`, icon `repeat`), cancel |
| RequestCaveUninstall.ButtonsTargetRequestedCave | src/main/reactors/dialogs/request-cave-uninstall.ts:26-40 | every button with an action queues an uninstall or reinstall of the requested cave; only the last button, cancel, has none |
| RequestCaveUninstall.OnRequestCaveUninstall | src/main/reactors/dialogs/request-cave-uninstall.ts:12-45 | with a fetched cave, exactly one action is appended, `openModal` with the prompt for the requested cave; without one, nothing is dispatched and the reactor rejects |
| GameCredentials.Resolve | src/reactors/downloads/get-game-credentials.spec.ts:22-166 | `getGameCredentials`: the answer is null exactly when logged out, and a download key returned is a table row for the game; the lemmas below state the precedence |
| GameCredentials.ResolveForId | src/reactors/downloads/get-game-credentials.spec.ts:158-165 | `getGameCredentialsForId`: null exactly when logged out, and a download key returned is a table row; `ByIdAgreesWithGame` ties it to `Resolve` |
| GameCredentials.GetGameCredentials | src/reactors/downloads/get-game-credentials.spec.ts:29-156 | the resolver read against the current session and table: null exactly when logged out, and a download key returned is a current row |
| GameCredentials.OwnKey | src/reactors/downloads/get-game-credentials.spec.ts:96-119 | a key found for the active profile is a table row for the game owned by that profile |
| GameCredentials.RememberedKey | src/reactors/downloads/get-game-credentials.spec.ts:132-145 | a key found for a remembered profile is a table row for the game whose owner has a remembered session |
| GameCredentials.OwnKeyFound | src/reactors/downloads/get-game-credentials.spec.ts:96-119 | the active profile's key is found if and only if the table holds a row for the game owned by that profile |
| GameCredentials.RememberedKeyFound | src/reactors/downloads/get-game-credentials.spec.ts:132-156 | a remembered profile's key is found if and only if the table holds a row for the game whose owner is remembered |
| GameCredentials.LoggedOutGivesNull | src/reactors/downloads/get-game-credentials.spec.ts:29-33 | logged out, the whole answer is null, whatever the tables hold |
| GameCredentials.NoKeysGivesActiveKeyOnly | src/reactors/downloads/get-game-credentials.spec.ts:62-94 | logged in with no key for the game, the answer is the active API key with no download key, for every press setting |
| GameCredentials.PressAccessNeedsNoKey | src/reactors/downloads/get-game-credentials.spec.ts:62-71 | a press user asking for a press-system game gets the active API key and no download key |
| GameCredentials.OwnKeyWins | src/reactors/downloads/get-game-credentials.spec.ts:96-130 | a key the active profile owns is paired with the active API key, and the remembered sessions have no influence on the answer |
| GameCredentials.RememberedKeyUsesItsApiKey | src/reactors/downloads/get-game-credentials.spec.ts:132-145 | with no key of its own, a key owned by a remembered profile is returned with that profile's API key |
| GameCredentials.UnrememberedOwnersIgnored | src/reactors/downloads/get-game-credentials.spec.ts:147-156 | keys owned by neither the active nor a remembered profile are ignored: the active API key alone |
| GameCredentials.ResolvedKeyIsUsable | src/reactors/downloads/get-game-credentials.spec.ts:112-156 | every answer while logged in is sound: a download key returned is a current row for the game, and comes with its owner's API key; without one, the active API key is returned |
| GameCredentials.RemovedKeyNotReturned | src/reactors/downloads/get-game-credentials.spec.ts:132-145 | after a row is removed, no answer contains it: the table is read afresh |
| GameCredentials.GameById | src/reactors/downloads/get-game-credentials.spec.ts:158-165 | a stored id resolves the stored game; a missing id resolves a bare game with that id outside the press system |
| GameCredentials.ByIdAgreesWithGame | src/reactors/downloads/get-game-credentials.spec.ts:158-165 | resolving by id gives the same answer as resolving with the game itself |
| GameCredentials.Upsert | src/reactors/downloads/get-game-credentials.spec.ts:96-110 | after `persist`, the row is in the table, replacing any row with the same id, and every other row is kept |
| GameCredentials.Without | src/reactors/downloads/get-game-credentials.spec.ts:132-136 | after `remove`, a row is in the table if and only if it was before and has a different id |
| GameCredentials.DownloadKeyRepository.Persist | src/reactors/downloads/get-game-credentials.spec.ts:96-110 | `persist` upserts the row and returns it |
| GameCredentials.DownloadKeyRepository.Remove | src/reactors/downloads/get-game-credentials.spec.ts:132-136 | `remove` drops the rows with that id |
| GameCredentials.SessionState.SetCredentials | src/reactors/downloads/get-game-credentials.spec.ts:121 | switching the active credential leaves the remembered sessions unchanged |
| GameCredentials.SessionState.Remember | src/reactors/downloads/get-game-credentials.spec.ts:52-60 | remembering a session stores it under its profile id |
| GameCredentials.SessionState.Forget | src/reactors/downloads/get-game-credentials.spec.ts:147 | forgetting removes that profile id's entry and nothing else |
| GameCredentials.PressSettingsSteps | src/reactors/downloads/get-game-credentials.spec.ts:22-94 | the first four calls answer null, then three times `api-key-19` with no download key |
| GameCredentials.DownloadKeySteps | src/reactors/downloads/get-game-credentials.spec.ts:96-165 | the next five calls answer `api-key-19` with key 190, `api-key-75` with key 750, `api-key-19` with key 190, then twice `api-key-75` with no key |
| GameCredentials.GetGameCredentialsCase | src/reactors/downloads/get-game-credentials.spec.ts:22-166 | the nine answers of the case, in order, are the ones the test expects |

## Left out

- Asynchronous scheduling is not modelled. This covers `immediate()` and `setImmediate`, and the interleaving of `p` when a reactor dispatches nested actions. Routing is modelled as sequential invocation order only. A nested dispatch would overwrite `p`, and the outer dispatch does not wait for it.
- Test.TestWatcher.DispatchAndWaitImmediate: the final `await immediate()` is a scheduler turn and has no effect in the model.
- Reactors are abstract ids with an outcome oracle. The oracle fixes whether reactor `r` resolves on action `a`, the same for every dispatch, so a reactor's outcome cannot depend on store state: for example, both `tick` dispatches of `DispatchAndWaitImmediate(Tick)` settle the same way. What a reactor does to the store, including dispatching further actions, is not modelled.
- The redux reducer behind `createStore(reducer, …)` is opaque. The model logs each action handed to it as `Reduced`.
- The source of the `Watcher` base class is not among the modelled files. Its `on` method and `reactors` map are modelled from how `routeInternal` reads them: the `reactors` field, `Watcher.Register` and both `On` methods.
- Watcher.Register: appending to a per-type list in registration order is taken from how `routeInternal` reads the buckets, not from the base class.
- The test infrastructure of `src/test-suite.ts` is not modelled: `fs.existsSync`, the fixture readers, `loadDB` and the TypeORM connection. `TestSuite.SuiteName` starts from the path `path.relative` already produced.
- The regular-expression engine behind the localiser's `replace` is not modelled. The replace is a parameter, so `$` patterns in the replacement and regex metacharacters in the placeholder are left to it.
- JavaScript objects (the string tables, a language's table, `variables`) are modelled as maps or lists of their own properties. Inherited `Object.prototype` members are not: in the program `t("constructor")` finds a truthy inherited function and returns it, where `Localizer.Translation` returns the key.
- `getT` returns a closure. The model takes the strings, the language and the call arguments together.
- The resolver's implementation file, `src/reactors/downloads/get-game-credentials.ts`, is not part of this model. `GameCredentials.Resolve` follows the expectations of the test script. The press shortcut comes from the assertion wording at src/reactors/downloads/get-game-credentials.spec.ts:70, "api key only when press access is allowed".
- GameCredentials.RememberedKey: among several remembered owners with a key, the first row in table order is taken. The test never has two, and the order the implementation uses is unknown.
- GameCredentials.GameById: the test looks up by id a game it never stored (lines 158-165) and expects a normal answer, so a missing id resolves a bare game outside the press system.
- The database mechanics of the key table (in-memory sqlite, TypeORM repositories, `create`) are not modelled. The table is a sequence of rows.
- The test mutates `pressUser` on a profile object that the active and the remembered session share. The model writes the changed profile into both sessions explicitly.
- `Date.now()` is the parameter `now`.
- The foreign calls are not modelled:
  - `getActiveDownload` and `me.developer` of the profile reactor are inputs.
  - The result of the butlerd `FetchCave` call is an input. `None` stands both for a call that rejects and for an absent cave, whose destructuring throws.
  - `modalWidgets.naked.make` is the `Modal` datatype.
  - The `actions.*` creators are the `Action` constructors.
  - The log the cave-uninstall logger writes is not modelled.
- The UI components and `src/fetchers/game-fetcher.ts` are outside the modelled core.
