# Feature Hub `FeatureAppManager` in Dafny

This project models the lifecycle bookkeeping of Feature Hub's
`FeatureAppManager` (packages/core/src/feature-app-manager.ts). The manager
keeps three tables and updates them in place:

- **Definition handles.** A map from URL to a loaded-definition handle (an
  `AsyncValue`). The module loader is called once per URL. Every later call
  gets the same handle back, whether its load succeeded or failed.
- **Own-service marker.** A set of definition objects, compared by identity,
  whose own Feature Services have been registered. A definition is marked even
  when it has nothing to register. It is not marked when registration throws,
  so the next request registers again.
- **Scope table.** A map from Feature App UID to scope. A hit returns the
  stored scope and does nothing else. A miss runs these steps in order and
  stops at the first one that throws:
  1. register the definition's own Feature Services;
  2. validate the externals;
  3. bind the Feature Services;
  4. call `create`.

  The scope is stored only when no step threw. Each scope has a one-shot
  `destroy`: it deletes the scope's UID from the table, then unbinds, then
  marks the scope destroyed. A `destroy` after one that completed throws and
  changes nothing.

The manager is the class `FeatureAppManager` (module `FeatureAppManagement`).
It has the three tables as `map`/`set` fields and four ghost records:
- `loaderCalls` logs the module-loader calls;
- `collaboratorCalls` logs the registry, validator and `create` calls;
- `ownServiceRegistrations` logs the definitions whose own Feature Services
  the registry accepted;
- `issuedScopes` is the set of scopes `getFeatureAppScope` has created.
 A scope is a `FeatureAppScope` object.
Its `destroy` closure is the method `Destroy`, and the table deletion it
captures is `DeleteFeatureAppScope`.

The collaborators are classes in module `Collaborators`:
- a Feature App definition and its `create`;
- the Feature Service registry;
- the externals validator.

Their answers are arbitrary functions fixed when they are constructed. The
properties hold for every choice of those functions. The registry also counts
the calls it has answered, so two identical registry calls may answer
differently. `create` and the validator answer the same for the same input.

Module `CreationPipeline` describes a cache miss as a value:
- the planned calls in order (`MissPlan`, `CreationPlan`);
- the calls actually made when an error propagates out of the first call that
  throws (`CallsUntilThrow`, `FirstThrown`).

The step-by-step runs `MissRun` and `CreationRun`, which specify
`GetFeatureAppScope` and `CreateFeatureAppScope`, are proved equal to those
definitions. Verified scenarios in module `Scenarios` exercise the manager
against concrete collaborators.

While every `destroy` leaves its scope destroyed, every live issued scope is
the one stored under its UID (`LiveScopesStored`). So there is at most one live
scope per UID (`OneLiveScopePerUid`). This holds in particular when `unbind`
never throws.

One behaviour follows from the source as written, and the model keeps it:
- When `unbind` throws, the scope's UID has already been deleted and the scope
  is not marked destroyed.
- A new scope can then be stored under that UID.
- Calling the old scope's `destroy` again deletes the UID once more, which
  evicts the newer scope while it is still live.
- The next request then creates a third scope, so two live scopes share one
  UID.

`Scenarios.NewerScopeAfterFailedUnbind` and
`Scenarios.RetriedDestroyEvictsNewerScope` show this.

## Model

| member | source | states |
|---|---|---|
| FeatureAppManagement.FeatureAppManager.constructor | packages/core/src/feature-app-manager.ts:126-147 | A new manager has empty tables, empty logs and no issued scopes. All the invariants hold: one loader call per stored URL, stored scopes live under their own UID, own services registered at most once per definition, and every live issued scope stored. |
| FeatureAppManagement.FeatureAppManager.GetAsyncFeatureAppDefinition | packages/core/src/feature-app-manager.ts:164-176 | A stored URL returns its stored handle and changes nothing. Without a module loader, a new URL throws "No module loader provided." and leaves the table and loader log unchanged. With a loader, a new URL gets a fresh pending handle for that URL. The handle is stored, and the loader is called once for it. Every handle returned has had exactly one loader call for its URL. The invariant holds throughout: each stored URL had exactly one loader call and no other URL had any. |
| FeatureAppManagement.FeatureAppManager.PreloadFeatureApp | packages/core/src/feature-app-manager.ts:239-241 | The promise settles with the stored handle, or with a fresh pending handle for the URL that is now stored. Without a module loader it is rejected with "No module loader provided." instead of throwing. The definitions table and the loader log change only for a new URL with a loader: exactly one entry is added to each. The loader is called at most once for the URL. |
| FeatureAppManagement.FeatureAppManager.CreateAsyncFeatureAppDefinition | packages/core/src/feature-app-manager.ts:243-271 | Without a module loader it throws and makes no loader call. Otherwise it calls the loader once for the URL and returns a fresh pending handle for it. |
| FeatureAppManagement.Resolution | packages/core/src/feature-app-manager.ts:253-268 | A settled handle is never pending. It resolves exactly when the loaded module has a Feature App definition as default export, and then it resolves to that definition. A failed load rejects with the loader's error. Any other module rejects with the invalid-module error for the URL. |
| FeatureAppManagement.AsyncFeatureAppDefinition.Settle | packages/core/src/feature-app-manager.ts:252-270 | A pending handle settles to the load's resolution. A settled handle keeps its outcome, success or failure. |
| FeatureAppManagement.FeatureAppManager.RegisterOwnFeatureServices | packages/core/src/feature-app-manager.ts:273-294 | A marked definition makes no call and changes nothing. An unmarked definition with no own Feature Services is marked without a call. Otherwise the registry is called once with the definition's own providers and ID. The definition is marked and logged as registered exactly when that call did not throw, and the call is logged with its outcome. The registry accepts a definition object's own services at most once, and every accepted definition stays marked. |
| FeatureAppManagement.FeatureAppManager.ValidateExternals | packages/core/src/feature-app-manager.ts:346-360 | The validator is called, once, with the declared externals exactly when a validator is configured and the definition declares externals. What it throws is passed on. |
| CreationPipeline.ExternalsToValidate | packages/core/src/feature-app-manager.ts:349-358 | There are externals to validate if and only if a validator is configured and `dependencies.externals` is declared. They are the declared externals. |
| CreationPipeline.ConfigFor | packages/core/src/feature-app-manager.ts:304-305 | The config is the integrator's own entry for the Feature App ID when there is one. Otherwise it is `undefined`. |
| CreationPipeline.CreationPlan | packages/core/src/feature-app-manager.ts:302-318 | Scope creation attempts, in this order: validation (only when there are externals to validate), binding for the ID specifier, and `create`. When the binding succeeds, `create` receives the config, the instance config, the bound Feature Services and the ID specifier. Each outcome is the collaborator's answer. |
| CreationPipeline.CreationCallsMade | packages/core/src/feature-app-manager.ts:302-318 | Creation stops at a validation that throws. It stops next at a binding that throws, and otherwise makes every call. The error that propagates is the validator's, else the registry's, else whatever `create` threw. The registry is asked once unless validation threw. |
| CreationPipeline.MissPlan | packages/core/src/feature-app-manager.ts:210-221 | A cache miss attempts registration first, only for an unmarked definition with own Feature Services. Scope creation follows in the order above. |
| CreationPipeline.MissCallsMade | packages/core/src/feature-app-manager.ts:210-221 | A registration that throws is the only call made, and its error propagates. Otherwise the calls are the registration followed by those scope creation makes, with the registry asked one call later. |
| CreationPipeline.CallsUntilThrowIsPrefix | packages/core/src/feature-app-manager.ts:302-318 | The calls made are a prefix of the plan in which only the last call can have thrown. They stop short of the plan only at a call that threw. |
| CreationPipeline.FirstThrownIsLastMade | packages/core/src/feature-app-manager.ts:302-318 | No error propagates if and only if every planned call succeeds, and then every call is made. Otherwise the error that propagates is the one the last call made threw. |
| CreationPipeline.CreationRunStopsAtFirstThrow | packages/core/src/feature-app-manager.ts:302-318 | The step-by-step creation run equals the creation plan cut at its first throw. This covers the calls made, the error and the number of registry calls. |
| CreationPipeline.MissRunStopsAtFirstThrow | packages/core/src/feature-app-manager.ts:210-221 | The step-by-step miss run equals the miss plan cut at its first throw. |
| FeatureAppManagement.FeatureAppManager.CreateFeatureAppScope | packages/core/src/feature-app-manager.ts:296-344 | The calls logged, the registry calls answered and the error thrown are those of the creation run. It succeeds exactly when nothing threw. It then returns a fresh, undestroyed scope of this manager under the UID `(id, idSpecifier)`. The scope holds the binding the registry made and the Feature App that `create` returned for the config, the instance config, the bound Feature Services and the ID specifier. Marks and registrations are unchanged. |
| FeatureAppManagement.FeatureAppManager.GetFeatureAppScope | packages/core/src/feature-app-manager.ts:200-227 | On a hit it returns the stored scope and changes nothing. On a miss the calls, the registry calls and the error are those of the miss run. A fresh scope is stored and issued under the UID exactly when nothing threw. It holds the binding made one registry call after any registration, and the Feature App `create` returned. A failure leaves the scope table and the issued scopes unchanged. The definition is marked unless its registration was attempted and threw. Stored scopes stay live under their own UID, own services stay registered at most once per definition, and every live issued scope stays stored. |
| FeatureAppManagement.FeatureAppManager.RegisterAndCreateFeatureAppScope | packages/core/src/feature-app-manager.ts:211-221 | The miss branch before storing has the miss outcome: the miss run's calls and error, the binding and Feature App of the new scope, and the marking and registration rules. The scope is fresh, live and belongs to this manager. |
| FeatureAppManagement.MissIsRegistrationThenCreation | packages/core/src/feature-app-manager.ts:210-221 | Registration followed, unless it threw, by scope creation one registry call later has exactly the outcome of a cache miss. |
| FeatureAppManagement.FeatureAppManager.LiveScopesStoredGivesOneLiveScopePerUid | packages/core/src/feature-app-manager.ts:208-223 | While every live issued scope is stored under its UID, no two live issued scopes share a UID. |
| FeatureAppManagement.FeatureAppManager.StoreFeatureAppScope | packages/core/src/feature-app-manager.ts:223 | Stores a live scope under its UID, replacing only that entry, and issues it. It keeps the table invariant. When nothing was stored under that UID, every live issued scope stays stored. |
| FeatureAppManagement.FeatureAppManager.DeleteFeatureAppScope | packages/core/src/feature-app-manager.ts:213-214 | Removes exactly the UID's entry and keeps the table invariant. |
| FeatureAppManagement.FeatureAppScope.constructor | packages/core/src/feature-app-manager.ts:326 | A new scope is not destroyed and has not unbound. |
| FeatureAppManagement.FeatureAppScope.Destroy | packages/core/src/feature-app-manager.ts:326-341 | A destroyed scope throws "could not be destroyed" and changes nothing: no unbind, no table change. Otherwise the UID's entry is removed and `unbind` is called once for the scope's own binding. Its outcome is logged, and the scope is destroyed exactly when `unbind` did not throw. `unbind` is never called again after a call that did not throw. The table invariant is kept. When the scope ends destroyed, every live issued scope stays stored. |
| Collaborators.FeatureServiceRegistry.RegisterFeatureServices | packages/core/src/feature-app-manager.ts:285-288 | Registration answers with the registry's answer for this call and counts one call. |
| Collaborators.FeatureServiceRegistry.BindFeatureServices | packages/core/src/feature-app-manager.ts:308-311 | Binding answers with the registry's answer for this call and counts one call. A binding made is named by the number of that call. |
| Collaborators.FeatureServiceRegistry.Unbind | packages/core/src/feature-app-manager.ts:338 | Unbinding answers with the registry's answer for this call and binding, and counts one call. |
| FeatureHubTypes.DistinctOccursOnce | packages/core/src/feature-app-manager.ts:252-253 | In a log without repeats, an entry that occurs occurs exactly once. This turns the loader-log invariant into "one loader call per URL". |

## Left out

- Logging (`logger.info` on a successful load and a successful creation) is not modelled. It has no effect on the tables.
- Promise scheduling is not modelled. A handle is created pending, and settling is an explicit `Settle` call that any client may make at any time. `preloadFeatureApp` returns which handle its promise follows (or its rejection) instead of awaiting it.
- A module loader that throws synchronously instead of rejecting is not modelled. A load failure is always a rejection.
- `createUid` is not part of this model. A UID is the pair of the Feature App ID and the optional ID specifier, so distinct pairs are distinct UIDs.
- `isFeatureAppModule` is not part of this model. A loaded module is already classified as a Feature App module (with its default export) or as something else.
- The internals of the Feature Service registry and the externals validator are not part of this model: version matching, reference counting and what they throw. Each answer is an arbitrary function of the call and, for the registry, of how many calls it has answered before.
- Error message texts are not modelled. `JSON.stringify` of the URL or UID becomes the URL or UID itself inside the error value.
- The `logger` option and `console` fallback are not modelled.
- FeatureAppManagement.FeatureAppScope.Destroy: states the scope's own invariant `UnboundAtMostOnce` as preserved rather than required, because a scope may be destroyed in any state. It keeps `LiveScopesStored`, and with it at most one live scope per UID, only when the scope ends destroyed. When `unbind` throws, the source deletes the UID first and leaves the scope live. A newer scope can then be stored under that UID, and a retried `destroy` evicts it. At most one live scope per UID then fails, and the model keeps this behaviour of the source as written.
- Collaborators calling back into the manager are not modelled. Examples are a `create`, registry or validator that calls `getFeatureAppScope` or a scope's `destroy` while the manager is waiting on it. Each answer is a function, so the manager's tables cannot change during a collaborator call.
- CreationPipeline.ConfigFor: `configs` holds only the integrator's own entries. Properties that a JavaScript object inherits from `Object.prototype` are not modelled. For an ID such as `constructor` or `toString` with no own entry, the source passes that inherited property to `create`, where the model passes `undefined`.
- Answers that differ between identical calls are modelled only for the registry, through its call count. `create` and the externals validator always give the same answer for the same input.
