/**
 * Verified scenarios that exercise the manager against collaborators with
 * fixed answers, showing the promised behaviours end to end.
 */
module Scenarios {
  import opened FeatureHubTypes
  import opened Collaborators
  import opened CreationPipeline
  import opened FeatureAppManagement

  /** A registry that registers, binds no Feature Services and unbinds without complaint. */
  method QuietRegistry() returns (registry: FeatureServiceRegistry)
    ensures fresh(registry) && registry.answered == 0
    ensures forall n, providers, owner :: registry.registerAnswer(n, providers, owner) == None
    ensures forall n, id, dependencies, idSpecifier :: registry.bindAnswer(n, id, dependencies, idSpecifier) == Ok(map[])
    ensures forall n, ticket :: registry.unbindAnswer(n, ticket) == None
  {
    registry := new FeatureServiceRegistry((n, providers, owner) => None, (n, id, dependencies, idSpecifier) => Ok(map[]),
                                           (n, ticket) => None);
  }

  /** A load that failed is not retried: the same rejected handle comes back. */
  method RepeatedLoadsShareOneHandle()
  {
    var registry := QuietRegistry();
    var manager := new FeatureAppManager(registry, FeatureAppManagerOptions(None, true, None));
    var first := manager.GetAsyncFeatureAppDefinition("https://example.com/app.js");
    first.value.Settle(LoadFailed("network error"));
    var second := manager.GetAsyncFeatureAppDefinition("https://example.com/app.js");
    assert second == first;
    assert second.value.state == Rejected(Raised("network error"));
    assert manager.loaderCalls == ["https://example.com/app.js"];
  }

  /** Without a module loader nothing is stored, and preloading rejects instead of throwing. */
  method MissingLoaderStoresNothing()
  {
    var registry := QuietRegistry();
    var manager := new FeatureAppManager(registry, FeatureAppManagerOptions(None, false, None));
    var r := manager.GetAsyncFeatureAppDefinition("https://example.com/app.js");
    assert r == Err(NoModuleLoader) && manager.asyncFeatureAppDefinitions == map[];
    var p := manager.PreloadFeatureApp("https://example.com/app.js");
    assert p == RejectedWith(NoModuleLoader) && manager.loaderCalls == [];
  }

  /** A second request for the same UID gets the same scope; a second destroy throws without unbinding again. */
  method SecondDestroyThrows()
  {
    var registry := QuietRegistry();
    var definition := new FeatureAppDefinition("app", None, None, env => Ok(Opaque(1)));
    var manager := new FeatureAppManager(registry, FeatureAppManagerOptions(None, false, None));
    var options := FeatureAppScopeOptions(None, Undefined);
    var first := manager.GetFeatureAppScope(definition, options);
    assert first.Ok?;
    var scope := first.value;
    var again := manager.GetFeatureAppScope(definition, options);
    assert again == first && registry.answered == 1;
    var thrown := scope.Destroy();
    assert thrown.None? && scope.destroyed && Uid("app", None) !in manager.featureAppScopes;
    thrown := scope.Destroy();
    assert thrown == Some(CouldNotBeDestroyed(Uid("app", None)));
    assert scope.unbindOutcomes == [None] && registry.answered == 2;
    assert manager.LiveScopesStored();
  }

  /** Registration that throws leaves the definition unmarked and stores no scope, so the next request registers again. */
  method FailedRegistrationIsRetried()
  {
    var registry := new FeatureServiceRegistry(
      (n, providers, owner) => if n == 0 then Some(Raised("already registered")) else None,
      (n, id, dependencies, idSpecifier) => Ok(map[]),
      (n, ticket) => None);
    var definition := new FeatureAppDefinition("app", None, Some([ServiceProvider("service")]), env => Ok(Opaque(1)));
    var manager := new FeatureAppManager(registry, FeatureAppManagerOptions(None, false, None));
    var options := FeatureAppScopeOptions(Some("left"), Undefined);
    var first := manager.GetFeatureAppScope(definition, options);
    assert first == Err(Raised("already registered"));
    assert manager.featureAppScopes == map[] && manager.featureAppDefinitionsWithRegisteredOwnFeatureServices == {};
    var second := manager.GetFeatureAppScope(definition, options);
    assert second.Ok? && definition in manager.featureAppDefinitionsWithRegisteredOwnFeatureServices;
    assert manager.collaboratorCalls[0] == RegisterFeatureServices(definition, Some(Raised("already registered")));
    assert manager.collaboratorCalls[1] == RegisterFeatureServices(definition, None);
  }

  /** A scope whose `destroy` threw in `unbind`: its UID is gone from the table, yet it is not destroyed. */
  method ScopeWithFailedUnbind() returns (manager: FeatureAppManager, older: FeatureAppScope)
    ensures fresh(manager) && fresh(manager.featureServiceRegistry) && fresh(older)
    ensures manager.ScopesStoredUnderOwnUid() && manager.OwnServicesRegisteredOncePerDefinition()
    ensures manager.options == FeatureAppManagerOptions(None, false, None)
    ensures manager.featureServiceRegistry.answered == 2
    ensures forall n, id, dependencies, idSpecifier ::
      manager.featureServiceRegistry.bindAnswer(n, id, dependencies, idSpecifier) == Ok(map[])
    ensures forall n, ticket :: manager.featureServiceRegistry.unbindAnswer(n, ticket) == if n == 1 then Some(Raised("unbind failed")) else None
    ensures older.manager == manager && older.uid == Uid("app", None) && !older.destroyed
    ensures manager.featureAppScopes == map[] && older in manager.issuedScopes
  {
    var registry := new FeatureServiceRegistry(
      (n, providers, owner) => None,
      (n, id, dependencies, idSpecifier) => Ok(map[]),
      (n, ticket) => if n == 1 then Some(Raised("unbind failed")) else None);
    var definition := new FeatureAppDefinition("app", None, None, env => Ok(Opaque(1)));
    manager := new FeatureAppManager(registry, FeatureAppManagerOptions(None, false, None));
    var first := manager.GetFeatureAppScope(definition, FeatureAppScopeOptions(None, Undefined));
    assert first.Ok?;
    older := first.value;
    var thrown := older.Destroy();
    assert thrown == Some(Raised("unbind failed"));
  }

  /**
   * After a failed `unbind`, the next request stores a newer scope under the
   * same UID while the older scope is still live.
   */
  method NewerScopeAfterFailedUnbind() returns (manager: FeatureAppManager, older: FeatureAppScope, newer: FeatureAppScope)
    ensures fresh(manager) && fresh(manager.featureServiceRegistry) && fresh(older) && fresh(newer)
    ensures manager.ScopesStoredUnderOwnUid() && manager.OwnServicesRegisteredOncePerDefinition()
    ensures manager.options == FeatureAppManagerOptions(None, false, None)
    ensures manager.featureServiceRegistry.answered == 3
    ensures forall n, id, dependencies, idSpecifier ::
      manager.featureServiceRegistry.bindAnswer(n, id, dependencies, idSpecifier) == Ok(map[])
    ensures forall n, ticket :: manager.featureServiceRegistry.unbindAnswer(n, ticket) == if n == 1 then Some(Raised("unbind failed")) else None
    ensures older.manager == manager && newer.manager == manager && older != newer
    ensures older.uid == Uid("app", None) && newer.uid == older.uid && !older.destroyed && !newer.destroyed
    ensures manager.featureAppScopes == map[Uid("app", None) := newer] && newer in manager.issuedScopes
    ensures !manager.OneLiveScopePerUid()
  {
    manager, older := ScopeWithFailedUnbind();
    var definition := new FeatureAppDefinition("app", None, None, env => Ok(Opaque(1)));
    var second := manager.GetFeatureAppScope(definition, FeatureAppScopeOptions(None, Undefined));
    assert second.Ok?;
    newer := second.value;
    assert older in manager.issuedScopes && newer in manager.issuedScopes;
  }

  /**
   * Destroying the older scope again deletes the newer scope's entry while
   * that scope is still live, and a third request creates a second live scope
   * under the same UID.
   */
  method RetriedDestroyEvictsNewerScope()
  {
    var manager, older, newer := NewerScopeAfterFailedUnbind();
    var thrown := older.Destroy();
    assert thrown.None? && older.destroyed;
    assert manager.featureAppScopes == map[] && !newer.destroyed;
    var definition := new FeatureAppDefinition("app", None, None, env => Ok(Opaque(1)));
    var third := manager.GetFeatureAppScope(definition, FeatureAppScopeOptions(None, Undefined));
    assert third.Ok? && third.value != newer;
    assert !third.value.destroyed && !newer.destroyed && third.value.uid == newer.uid;
    assert newer in manager.issuedScopes && third.value in manager.issuedScopes;
    assert !manager.OneLiveScopePerUid();
  }
}
