/**
 * The `FeatureAppManager`: it loads Feature App definitions once per URL,
 * registers each definition's own Feature Services once per definition
 * object, and creates, shares and destroys Feature App scopes, at most one
 * live scope per Feature App UID.
 */
module FeatureAppManagement {
  import opened FeatureHubTypes
  import opened Collaborators
  import opened CreationPipeline

  /** The manager's options; `hasModuleLoader` says whether a module loader was provided. */
  datatype FeatureAppManagerOptions = FeatureAppManagerOptions(
    configs: Option<map<string, Value>>,
    hasModuleLoader: bool,
    externalsValidator: Option<ExternalsValidator>)

  /** The options of `getFeatureAppScope`; a missing instance config is `Undefined`. */
  datatype FeatureAppScopeOptions = FeatureAppScopeOptions(idSpecifier: Option<string>, instanceConfig: Value)

  /** A module the loader delivered: with a Feature App definition as default export, or anything else. */
  datatype LoadedModule = FeatureAppModule(default: FeatureAppDefinition) | OtherModule

  /** How the loader's promise settles. */
  datatype ModuleLoad = Loaded(loaded: LoadedModule) | LoadFailed(reason: string)

  /** The state of a loaded-definition handle. */
  datatype LoadState = Pending | Resolved(definition: FeatureAppDefinition) | Rejected(error: Error)

  /**
   * What a handle settles to when the loader's promise for `url` settles:
   * the module's default export when it is a Feature App definition, the
   * loader's own error when it failed, and an invalid-module error otherwise.
   */
  function Resolution(url: string, load: ModuleLoad): (state: LoadState)
    ensures state != Pending
    ensures state.Resolved? <==> load.Loaded? && load.loaded.FeatureAppModule?
    ensures state.Resolved? ==> state.definition == load.loaded.default
    ensures load.LoadFailed? ==> state == Rejected(Raised(load.reason))
    ensures load.Loaded? && load.loaded.OtherModule? ==> state == Rejected(InvalidFeatureAppModule(url))
  {
    match load
    case LoadFailed(reason) => Rejected(Raised(reason))
    case Loaded(loaded) =>
      if loaded.FeatureAppModule? then Resolved(loaded.default) else Rejected(InvalidFeatureAppModule(url))
  }

  /** The handle `getAsyncFeatureAppDefinition` hands out for a URL (an `AsyncValue`). */
  class AsyncFeatureAppDefinition {
    const url: string
    var state: LoadState

    constructor (url: string)
      ensures this.url == url && state == Pending
    {
      this.url := url;
      state := Pending;
    }

    /** The loader's promise settles; a handle that has settled keeps its outcome, success or failure. */
    method Settle(load: ModuleLoad)
      modifies this
      ensures old(state).Pending? ==> state == Resolution(url, load)
      ensures !old(state).Pending? ==> state == old(state)
    {
      if state.Pending? {
        state := Resolution(url, load);
      }
    }
  }

  /** The promise `preloadFeatureApp` returns: already rejected, or settling when the handle does. */
  datatype Preload = RejectedWith(error: Error) | SettlesWith(handle: AsyncFeatureAppDefinition)

  /**
   * The part of a manager's state that a cache miss changes besides the
   * scope table: the collaborator call log, the registry's call count, the
   * marked definitions and the log of accepted registrations.
   */
  datatype Bookkeeping = Bookkeeping(
    calls: seq<Call>, answered: nat, marked: set<FeatureAppDefinition>, registrations: seq<FeatureAppDefinition>)

  /**
   * What registering a definition's own Feature Services does: a marked
   * definition is skipped; one with nothing to register is marked without a
   * call; otherwise the registry is called once, and the definition is marked
   * and logged as registered exactly when that call did not throw.
   */
  ghost predicate RegistrationOutcome(
    definition: FeatureAppDefinition, registry: FeatureServiceRegistry, thrown: Option<Error>,
    before: Bookkeeping, after: Bookkeeping)
  {
    if definition in before.marked then
      thrown.None? && after == before
    else if definition.ownFeatureServiceDefinitions.None? then
      thrown.None? && after == before.(marked := before.marked + {definition})
    else
      thrown == registry.registerAnswer(before.answered, definition.ownFeatureServiceDefinitions.value, definition.id)
      && after == Bookkeeping(
           before.calls + [RegisterFeatureServices(definition, thrown)], before.answered + 1,
           if thrown.None? then before.marked + {definition} else before.marked,
           if thrown.None? then before.registrations + [definition] else before.registrations)
  }

  /**
   * What creating a scope does: the calls made, the registry calls and the
   * error are the creation run's; a scope is returned exactly when nothing
   * threw, under the UID `(id, idSpecifier)`, holding the binding the
   * registry made and the Feature App `create` returned for the config, the
   * instance config, the bound Feature Services and the ID specifier.
   */
  ghost predicate CreationOutcome(
    definition: FeatureAppDefinition, idSpecifier: Option<string>, instanceConfig: Value, config: Value,
    validator: Option<ExternalsValidator>, registry: FeatureServiceRegistry, r: Result<FeatureAppScope>,
    before: Bookkeeping, after: Bookkeeping)
  {
    var run := CreationRun(definition, idSpecifier, instanceConfig, config, validator, registry, before.answered);
    after.calls == before.calls + run.made
    && after.answered == before.answered + run.registryCalls
    && after.marked == before.marked && after.registrations == before.registrations
    && (r.Ok? <==> run.thrown.None?)
    && (r.Err? ==> run.thrown == Some(r.error))
    && (r.Ok? ==>
          r.value.uid == Uid(definition.id, idSpecifier)
          && Ok(r.value.binding)
             == BindOutcome(registry.bindAnswer(before.answered, definition.id, definition.dependencies, idSpecifier),
                            before.answered)
          && Ok(r.value.featureApp)
             == definition.create(FeatureAppEnvironment(config, instanceConfig, r.value.binding.featureServices, idSpecifier)))
  }

  /**
   * What a cache miss does: the calls made, the registry calls and the error
   * are the miss run's; a scope is returned exactly when nothing threw, and
   * holds the binding the registry made (one call later when the definition
   * registered first) and the Feature App `create` returned; the definition
   * is marked unless its registration was attempted and threw, and is logged
   * as registered exactly when its registration was attempted and did not.
   */
  ghost predicate MissOutcome(
    definition: FeatureAppDefinition, idSpecifier: Option<string>, instanceConfig: Value, config: Value,
    validator: Option<ExternalsValidator>, registry: FeatureServiceRegistry, r: Result<FeatureAppScope>,
    before: Bookkeeping, after: Bookkeeping)
  {
    var registers := definition !in before.marked && definition.ownFeatureServiceDefinitions.Some?;
    var registrationThrown :=
      registers && registry.registerAnswer(before.answered, definition.ownFeatureServiceDefinitions.value, definition.id).Some?;
    var run := MissRun(definition, idSpecifier, instanceConfig, config, validator, registry, before.answered,
                       definition in before.marked);
    var bindTicket := before.answered + if registers then 1 else 0;
    after.calls == before.calls + run.made
    && after.answered == before.answered + run.registryCalls
    && (r.Ok? <==> run.thrown.None?)
    && (r.Err? ==> run.thrown == Some(r.error))
    && (r.Ok? ==>
          r.value.uid == Uid(definition.id, idSpecifier)
          && Ok(r.value.binding)
             == BindOutcome(registry.bindAnswer(bindTicket, definition.id, definition.dependencies, idSpecifier), bindTicket)
          && Ok(r.value.featureApp)
             == definition.create(FeatureAppEnvironment(config, instanceConfig, r.value.binding.featureServices, idSpecifier)))
    && after.marked == (if registrationThrown then before.marked else before.marked + {definition})
    && after.registrations == if registers && !registrationThrown then before.registrations + [definition] else before.registrations
  }

  /** Registration followed, unless it threw, by scope creation is a cache miss. */
  lemma MissIsRegistrationThenCreation(
    definition: FeatureAppDefinition, idSpecifier: Option<string>, instanceConfig: Value, config: Value,
    validator: Option<ExternalsValidator>, registry: FeatureServiceRegistry, thrown: Option<Error>, r: Result<FeatureAppScope>,
    before: Bookkeeping, middle: Bookkeeping, after: Bookkeeping)
    requires RegistrationOutcome(definition, registry, thrown, before, middle)
    requires thrown.Some? ==> r == Err(thrown.value) && after == middle
    requires thrown.None? ==> CreationOutcome(definition, idSpecifier, instanceConfig, config, validator, registry, r, middle, after)
    ensures MissOutcome(definition, idSpecifier, instanceConfig, config, validator, registry, r, before, after)
  {
    var run := MissRun(definition, idSpecifier, instanceConfig, config, validator, registry, before.answered,
                       definition in before.marked);
    var creation := CreationRun(definition, idSpecifier, instanceConfig, config, validator, registry, middle.answered);
    if definition in before.marked || definition.ownFeatureServiceDefinitions.None? {
      assert run == creation;
    } else if thrown.Some? {
      assert run == Run([RegisterFeatureServices(definition, thrown)], thrown, 1);
    } else {
      assert run == Run([RegisterFeatureServices(definition, thrown)] + creation.made, creation.thrown, 1 + creation.registryCalls);
      assert after.calls == before.calls + ([RegisterFeatureServices(definition, thrown)] + creation.made);
    }
  }

  class FeatureAppManager {
    var asyncFeatureAppDefinitions: map<string, AsyncFeatureAppDefinition>
    var featureAppDefinitionsWithRegisteredOwnFeatureServices: set<FeatureAppDefinition>
    var featureAppScopes: map<Uid, FeatureAppScope>
    const featureServiceRegistry: FeatureServiceRegistry
    const options: FeatureAppManagerOptions

    /** The URLs the module loader was called with, in order. */
    ghost var loaderCalls: seq<string>
    /** The registry, validator and `create` calls made while creating scopes, in order. */
    ghost var collaboratorCalls: seq<Call>
    /** The definitions whose own Feature Services the registry accepted, in order. */
    ghost var ownServiceRegistrations: seq<FeatureAppDefinition>
    /** Every scope `getFeatureAppScope` has created and handed out. */
    ghost var issuedScopes: set<FeatureAppScope>

    /** The loader was called exactly once for each URL in the definitions table, and never for any other. */
    ghost predicate LoaderCalledOncePerUrl()
      reads this`loaderCalls, this`asyncFeatureAppDefinitions
    {
      Distinct(loaderCalls)
      && (forall url :: url in loaderCalls <==> url in asyncFeatureAppDefinitions)
      && (forall url | url in asyncFeatureAppDefinitions :: asyncFeatureAppDefinitions[url].url == url)
    }

    /**
     * Each stored scope belongs to this manager, is stored under its own UID
     * and has not been destroyed.
     */
    ghost predicate ScopesStoredUnderOwnUid()
      reads this`featureAppScopes, featureAppScopes.Values
    {
      forall uid | uid in featureAppScopes ::
        featureAppScopes[uid].manager == this && featureAppScopes[uid].uid == uid && !featureAppScopes[uid].destroyed
    }

    /**
     * The registry accepted each definition object's own Feature Services at
     * most once, and every definition it accepted them for is marked.
     */
    ghost predicate OwnServicesRegisteredOncePerDefinition()
      reads this`ownServiceRegistrations, this`featureAppDefinitionsWithRegisteredOwnFeatureServices
    {
      Distinct(ownServiceRegistrations)
      && forall definition | definition in ownServiceRegistrations ::
           definition in featureAppDefinitionsWithRegisteredOwnFeatureServices
    }

    /** Every issued scope that is not destroyed is the one stored under its UID. */
    ghost predicate LiveScopesStored()
      reads this`issuedScopes, this`featureAppScopes, issuedScopes
    {
      forall scope | scope in issuedScopes && !scope.destroyed ::
        scope.uid in featureAppScopes && featureAppScopes[scope.uid] == scope
    }

    /** No two issued scopes that are not destroyed share a UID. */
    ghost predicate OneLiveScopePerUid()
      reads this`issuedScopes, issuedScopes
    {
      forall scope, other | scope in issuedScopes && other in issuedScopes && !scope.destroyed && !other.destroyed
                            && scope.uid == other.uid :: scope == other
    }

    /** The manager's bookkeeping as a value. */
    ghost function Books(): Bookkeeping
      reads this`collaboratorCalls, featureServiceRegistry`answered
      reads this`featureAppDefinitionsWithRegisteredOwnFeatureServices, this`ownServiceRegistrations
    {
      Bookkeeping(collaboratorCalls, featureServiceRegistry.answered,
                  featureAppDefinitionsWithRegisteredOwnFeatureServices, ownServiceRegistrations)
    }

    /** While every live issued scope is stored under its UID, at most one of them has a given UID. */
    lemma LiveScopesStoredGivesOneLiveScopePerUid()
      requires LiveScopesStored()
      ensures OneLiveScopePerUid()
    {
    }

    constructor (featureServiceRegistry: FeatureServiceRegistry, options: FeatureAppManagerOptions)
      ensures LoaderCalledOncePerUrl() && ScopesStoredUnderOwnUid()
      ensures OwnServicesRegisteredOncePerDefinition() && LiveScopesStored()
      ensures this.featureServiceRegistry == featureServiceRegistry && this.options == options
      ensures asyncFeatureAppDefinitions == map[] && featureAppScopes == map[]
      ensures featureAppDefinitionsWithRegisteredOwnFeatureServices == {}
      ensures loaderCalls == [] && collaboratorCalls == []
      ensures ownServiceRegistrations == [] && issuedScopes == {}
    {
      this.featureServiceRegistry := featureServiceRegistry;
      this.options := options;
      asyncFeatureAppDefinitions := map[];
      featureAppDefinitionsWithRegisteredOwnFeatureServices := {};
      featureAppScopes := map[];
      loaderCalls := [];
      collaboratorCalls := [];
      ownServiceRegistrations := [];
      issuedScopes := {};
    }

    /**
     * The handle for `url`: the stored one if there is one, whatever its
     * state; otherwise a new one, stored before its load settles. Without a
     * module loader a new URL throws and nothing is stored.
     */
    method GetAsyncFeatureAppDefinition(url: string) returns (r: Result<AsyncFeatureAppDefinition>)
      requires LoaderCalledOncePerUrl()
      modifies this`asyncFeatureAppDefinitions, this`loaderCalls
      ensures LoaderCalledOncePerUrl()
      ensures url in old(asyncFeatureAppDefinitions) ==>
        r == Ok(old(asyncFeatureAppDefinitions)[url])
        && asyncFeatureAppDefinitions == old(asyncFeatureAppDefinitions) && loaderCalls == old(loaderCalls)
      ensures url !in old(asyncFeatureAppDefinitions) && !options.hasModuleLoader ==>
        r == Err(NoModuleLoader)
        && asyncFeatureAppDefinitions == old(asyncFeatureAppDefinitions) && loaderCalls == old(loaderCalls)
      ensures url !in old(asyncFeatureAppDefinitions) && options.hasModuleLoader ==>
        r.Ok? && fresh(r.value) && r.value.url == url && r.value.state == Pending
        && asyncFeatureAppDefinitions == old(asyncFeatureAppDefinitions)[url := r.value]
        && loaderCalls == old(loaderCalls) + [url]
      ensures r.Ok? ==> multiset(loaderCalls)[url] == 1
    {
      if url in asyncFeatureAppDefinitions {
        r := Ok(asyncFeatureAppDefinitions[url]);
      } else {
        r := CreateAsyncFeatureAppDefinition(url);
        if r.Ok? {
          asyncFeatureAppDefinitions := asyncFeatureAppDefinitions[url := r.value];
          DistinctAppend(old(loaderCalls), url);
        }
      }
      if r.Ok? {
        DistinctOccursOnce(loaderCalls, url);
      }
    }

    /** `preloadFeatureApp` is async: even a missing module loader becomes a rejected promise. */
    method PreloadFeatureApp(url: string) returns (p: Preload)
      requires LoaderCalledOncePerUrl()
      modifies this`asyncFeatureAppDefinitions, this`loaderCalls
      ensures LoaderCalledOncePerUrl()
      ensures url in old(asyncFeatureAppDefinitions) ==>
        p == SettlesWith(old(asyncFeatureAppDefinitions)[url])
        && asyncFeatureAppDefinitions == old(asyncFeatureAppDefinitions) && loaderCalls == old(loaderCalls)
      ensures url !in old(asyncFeatureAppDefinitions) && !options.hasModuleLoader ==>
        p == RejectedWith(NoModuleLoader)
        && asyncFeatureAppDefinitions == old(asyncFeatureAppDefinitions) && loaderCalls == old(loaderCalls)
      ensures url !in old(asyncFeatureAppDefinitions) && options.hasModuleLoader ==>
        p.SettlesWith? && fresh(p.handle) && p.handle.url == url && p.handle.state == Pending
        && asyncFeatureAppDefinitions == old(asyncFeatureAppDefinitions)[url := p.handle]
        && loaderCalls == old(loaderCalls) + [url]
      ensures p.SettlesWith? ==> url in asyncFeatureAppDefinitions && asyncFeatureAppDefinitions[url] == p.handle
      ensures multiset(loaderCalls)[url] <= 1
    {
      var r := GetAsyncFeatureAppDefinition(url);
      if url !in loaderCalls {
        assert multiset(loaderCalls)[url] == 0;
      }
      p := if r.Ok? then SettlesWith(r.value) else RejectedWith(r.error);
    }

    /** Calls the module loader for `url` (when there is one) and wraps its promise in a new handle. */
    method CreateAsyncFeatureAppDefinition(url: string) returns (r: Result<AsyncFeatureAppDefinition>)
      modifies this`loaderCalls
      ensures !options.hasModuleLoader ==> r == Err(NoModuleLoader) && loaderCalls == old(loaderCalls)
      ensures options.hasModuleLoader ==>
        r.Ok? && fresh(r.value) && r.value.url == url && r.value.state == Pending
        && loaderCalls == old(loaderCalls) + [url]
    {
      if !options.hasModuleLoader {
        return Err(NoModuleLoader);
      }
      loaderCalls := loaderCalls + [url];
      var handle := new AsyncFeatureAppDefinition(url);
      r := Ok(handle);
    }

    /**
     * Registers the definition's own Feature Services, once per definition
     * object: a marked definition is skipped; the mark is set even when there
     * is nothing to register, and is not set when registration throws.
     */
    method RegisterOwnFeatureServices(definition: FeatureAppDefinition) returns (thrown: Option<Error>)
      requires OwnServicesRegisteredOncePerDefinition()
      modifies this`featureAppDefinitionsWithRegisteredOwnFeatureServices, this`collaboratorCalls
      modifies this`ownServiceRegistrations, featureServiceRegistry
      ensures OwnServicesRegisteredOncePerDefinition()
      ensures multiset(ownServiceRegistrations)[definition] <= 1
      ensures RegistrationOutcome(definition, featureServiceRegistry, thrown, old(Books()), Books())
    {
      if definition in featureAppDefinitionsWithRegisteredOwnFeatureServices {
        DistinctOccursOnce(ownServiceRegistrations, definition);
        return None;
      }
      if definition.ownFeatureServiceDefinitions.Some? {
        thrown := featureServiceRegistry.RegisterFeatureServices(definition.ownFeatureServiceDefinitions.value, definition.id);
        collaboratorCalls := collaboratorCalls + [RegisterFeatureServices(definition, thrown)];
        if thrown.Some? {
          DistinctOccursOnce(ownServiceRegistrations, definition);
          return;
        }
        DistinctAppend(ownServiceRegistrations, definition);
        ownServiceRegistrations := ownServiceRegistrations + [definition];
      } else {
        thrown := None;
      }
      featureAppDefinitionsWithRegisteredOwnFeatureServices :=
        featureAppDefinitionsWithRegisteredOwnFeatureServices + {definition};
      DistinctOccursOnce(ownServiceRegistrations, definition);
    }

    /** Validates the declared externals, only when a validator is configured and externals are declared. */
    method ValidateExternals(definition: FeatureAppDefinition) returns (thrown: Option<Error>)
      modifies this`collaboratorCalls
      ensures var externals := ExternalsToValidate(options.externalsValidator, definition.dependencies);
        (externals.None? ==> thrown.None? && collaboratorCalls == old(collaboratorCalls))
        && (externals.Some? ==>
              thrown == options.externalsValidator.value.answer(externals.value)
              && collaboratorCalls == old(collaboratorCalls) + [Call.ValidateExternals(externals.value, thrown)])
    {
      var externals := ExternalsToValidate(options.externalsValidator, definition.dependencies);
      if externals.None? {
        return None;
      }
      thrown := options.externalsValidator.value.answer(externals.value);
      collaboratorCalls := collaboratorCalls + [Call.ValidateExternals(externals.value, thrown)];
    }

    /**
     * Validates externals, binds the Feature Services, calls `create` and
     * wraps the Feature App in a new, live scope of this manager, stopping at
     * the first step that throws.
     */
    method CreateFeatureAppScope(definition: FeatureAppDefinition, idSpecifier: Option<string>, instanceConfig: Value)
      returns (r: Result<FeatureAppScope>)
      modifies this`collaboratorCalls, featureServiceRegistry
      ensures CreationOutcome(definition, idSpecifier, instanceConfig, ConfigFor(options.configs, definition.id),
                              options.externalsValidator, featureServiceRegistry, r, old(Books()), Books())
      ensures r.Ok? ==> fresh(r.value) && r.value.manager == this && !r.value.destroyed && r.value.unbindOutcomes == []
    {
      var config := ConfigFor(options.configs, definition.id);
      var uid := Uid(definition.id, idSpecifier);
      ghost var plan := CreationPlan(definition, idSpecifier, instanceConfig, config,
                                     options.externalsValidator, featureServiceRegistry, featureServiceRegistry.answered);
      ghost var validation := if ExternalsToValidate(options.externalsValidator, definition.dependencies).Some? then [plan[0]] else [];

      ghost var run := CreationRun(definition, idSpecifier, instanceConfig, config,
                                   options.externalsValidator, featureServiceRegistry, featureServiceRegistry.answered);

      var thrown := ValidateExternals(definition);
      assert collaboratorCalls == old(collaboratorCalls) + validation;
      if thrown.Some? {
        // neither binding nor `create` is called
        assert run == Run(validation, thrown, 0);
        r := Err(thrown.value);
      } else {
        var binding := featureServiceRegistry.BindFeatureServices(definition, idSpecifier);
        collaboratorCalls := collaboratorCalls + [BindFeatureServices(definition, idSpecifier, binding)];
        assert plan[|plan| - 2] == BindFeatureServices(definition, idSpecifier, binding);
        if binding.Err? {
          assert run == Run(validation + [plan[|plan| - 2]], Some(binding.error), 1);
          r := Err(binding.error);
        } else {
          var env := FeatureAppEnvironment(config, instanceConfig, binding.value.featureServices, idSpecifier);
          var featureApp := definition.create(env);
          collaboratorCalls := collaboratorCalls + [Create(definition, env, featureApp)];
          assert plan[|plan| - 1] == Create(definition, env, featureApp);
          assert run == Run(validation + [plan[|plan| - 2], plan[|plan| - 1]], Thrown(plan[|plan| - 1]), 1);
          if featureApp.Err? {
            r := Err(featureApp.error);
          } else {
            var scope := new FeatureAppScope(this, uid, binding.value, featureApp.value);
            r := Ok(scope);
          }
        }
      }
    }

    /**
     * The scope for the definition's ID and the ID specifier: the stored one
     * if there is one, with nothing else happening; otherwise, registration
     * of the definition's own Feature Services, then a new scope, stored and
     * issued under its UID only when no step threw.
     */
    method GetFeatureAppScope(definition: FeatureAppDefinition, scopeOptions: FeatureAppScopeOptions)
      returns (r: Result<FeatureAppScope>)
      requires ScopesStoredUnderOwnUid() && OwnServicesRegisteredOncePerDefinition()
      modifies this`featureAppScopes, this`featureAppDefinitionsWithRegisteredOwnFeatureServices, this`collaboratorCalls
      modifies this`ownServiceRegistrations, this`issuedScopes, featureServiceRegistry
      ensures ScopesStoredUnderOwnUid() && OwnServicesRegisteredOncePerDefinition()
      ensures old(LiveScopesStored()) ==> LiveScopesStored()
      ensures var uid := Uid(definition.id, scopeOptions.idSpecifier);
        uid in old(featureAppScopes) ==>
          r == Ok(old(featureAppScopes)[uid])
          && featureAppScopes == old(featureAppScopes) && issuedScopes == old(issuedScopes) && Books() == old(Books())
      ensures var uid := Uid(definition.id, scopeOptions.idSpecifier);
        uid !in old(featureAppScopes) ==>
          MissOutcome(definition, scopeOptions.idSpecifier, scopeOptions.instanceConfig, ConfigFor(options.configs, definition.id),
                      options.externalsValidator, featureServiceRegistry, r, old(Books()), Books())
          && (r.Ok? ==> fresh(r.value) && !r.value.destroyed && r.value.unbindOutcomes == []
                        && featureAppScopes == old(featureAppScopes)[uid := r.value] && issuedScopes == old(issuedScopes) + {r.value})
          && (r.Err? ==> featureAppScopes == old(featureAppScopes) && issuedScopes == old(issuedScopes))
    {
      var uid := Uid(definition.id, scopeOptions.idSpecifier);
      if uid in featureAppScopes {
        return Ok(featureAppScopes[uid]);
      }
      r := RegisterAndCreateFeatureAppScope(definition, scopeOptions.idSpecifier, scopeOptions.instanceConfig);
      if r.Ok? {
        StoreFeatureAppScope(r.value);
      }
    }

    /**
     * The miss branch of `getFeatureAppScope` up to storing: registers the
     * definition's own Feature Services, then, unless that threw, creates a
     * scope.
     */
    method RegisterAndCreateFeatureAppScope(definition: FeatureAppDefinition, idSpecifier: Option<string>, instanceConfig: Value)
      returns (r: Result<FeatureAppScope>)
      requires OwnServicesRegisteredOncePerDefinition()
      modifies this`featureAppDefinitionsWithRegisteredOwnFeatureServices, this`collaboratorCalls
      modifies this`ownServiceRegistrations, featureServiceRegistry
      ensures OwnServicesRegisteredOncePerDefinition()
      ensures MissOutcome(definition, idSpecifier, instanceConfig, ConfigFor(options.configs, definition.id),
                          options.externalsValidator, featureServiceRegistry, r, old(Books()), Books())
      ensures r.Ok? ==> fresh(r.value) && r.value.manager == this && !r.value.destroyed && r.value.unbindOutcomes == []
    {
      ghost var before := Books();
      var thrown := RegisterOwnFeatureServices(definition);
      ghost var middle := Books();
      if thrown.Some? {
        r := Err(thrown.value);
      } else {
        r := CreateFeatureAppScope(definition, idSpecifier, instanceConfig);
      }
      MissIsRegistrationThenCreation(definition, idSpecifier, instanceConfig, ConfigFor(options.configs, definition.id),
                                     options.externalsValidator, featureServiceRegistry, thrown, r, before, middle, Books());
    }

    /**
     * Stores a new, live scope of this manager under its UID and issues it;
     * when nothing was stored under that UID, every live issued scope stays
     * stored under its UID.
     */
    method StoreFeatureAppScope(scope: FeatureAppScope)
      requires ScopesStoredUnderOwnUid()
      requires scope.manager == this && !scope.destroyed
      modifies this`featureAppScopes, this`issuedScopes
      ensures ScopesStoredUnderOwnUid()
      ensures featureAppScopes == old(featureAppScopes)[scope.uid := scope]
      ensures issuedScopes == old(issuedScopes) + {scope}
      ensures old(LiveScopesStored()) && scope.uid !in old(featureAppScopes) ==> LiveScopesStored()
    {
      featureAppScopes := featureAppScopes[scope.uid := scope];
      issuedScopes := issuedScopes + {scope};
    }

    /** The closure `getFeatureAppScope` hands to a new scope: forgets whatever is stored under `uid`. */
    method DeleteFeatureAppScope(uid: Uid)
      requires ScopesStoredUnderOwnUid()
      modifies this`featureAppScopes
      ensures ScopesStoredUnderOwnUid()
      ensures featureAppScopes == old(featureAppScopes) - {uid}
    {
      featureAppScopes := featureAppScopes - {uid};
    }
  }

  /** A Feature App and its one-shot `destroy`. */
  class FeatureAppScope {
    const featureApp: Value
    const uid: Uid
    const binding: Binding
    /** The manager whose scope table `destroy` deletes from. */
    const manager: FeatureAppManager
    var destroyed: bool
    /** What each of this scope's `unbind` calls threw, in order. */
    ghost var unbindOutcomes: seq<Option<Error>>

    /**
     * The scope's invariant: `unbind` is never called after a call that did
     * not throw (so at most one succeeds), and the scope is destroyed exactly
     * when one did.
     */
    ghost predicate UnboundAtMostOnce()
      reads this`destroyed, this`unbindOutcomes
    {
      (forall i | 0 <= i < |unbindOutcomes| - 1 :: unbindOutcomes[i].Some?)
      && (destroyed <==> |unbindOutcomes| > 0 && unbindOutcomes[|unbindOutcomes| - 1].None?)
    }

    constructor (manager: FeatureAppManager, uid: Uid, binding: Binding, featureApp: Value)
      ensures this.manager == manager && this.uid == uid && this.binding == binding && this.featureApp == featureApp
      ensures !destroyed && unbindOutcomes == [] && UnboundAtMostOnce()
    {
      this.manager := manager;
      this.uid := uid;
      this.binding := binding;
      this.featureApp := featureApp;
      destroyed := false;
      unbindOutcomes := [];
    }

    /**
     * The first call deletes the scope's UID from the manager's table, then
     * unbinds its Feature Services, then marks the scope destroyed, the last
     * only when `unbind` did not throw. Once destroyed, a call throws and
     * changes nothing: in particular `unbind` is not called again.
     */
    method Destroy() returns (thrown: Option<Error>)
      requires manager.ScopesStoredUnderOwnUid()
      modifies this, manager`featureAppScopes, manager.featureServiceRegistry
      ensures manager.ScopesStoredUnderOwnUid()
      ensures old(destroyed) ==>
        thrown == Some(CouldNotBeDestroyed(uid)) && destroyed
        && manager.featureAppScopes == old(manager.featureAppScopes) && unbindOutcomes == old(unbindOutcomes)
        && manager.featureServiceRegistry.answered == old(manager.featureServiceRegistry.answered)
      ensures !old(destroyed) ==>
        manager.featureAppScopes == old(manager.featureAppScopes) - {uid}
        && thrown == manager.featureServiceRegistry.unbindAnswer(old(manager.featureServiceRegistry.answered), binding.ticket)
        && manager.featureServiceRegistry.answered == old(manager.featureServiceRegistry.answered) + 1
        && unbindOutcomes == old(unbindOutcomes) + [thrown]
        && destroyed == thrown.None?
      ensures old(UnboundAtMostOnce()) ==> UnboundAtMostOnce()
      ensures old(manager.LiveScopesStored()) && this in manager.issuedScopes && destroyed ==> manager.LiveScopesStored()
    {
      if destroyed {
        return Some(CouldNotBeDestroyed(uid));
      }
      manager.DeleteFeatureAppScope(uid);
      thrown := manager.featureServiceRegistry.Unbind(binding);
      unbindOutcomes := unbindOutcomes + [thrown];
      if thrown.None? {
        destroyed := true;
      }
    }
  }
}
