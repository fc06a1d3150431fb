/**
 * What a cache miss of `getFeatureAppScope` asks of its collaborators, as a
 * value: the planned calls in their order, and the calls that actually
 * happen once one of them throws.
 */
module CreationPipeline {
  import opened FeatureHubTypes
  import opened Collaborators

  /** A collaborator call made while creating a scope, with what it returned or threw. */
  datatype Call =
    | RegisterFeatureServices(definition: FeatureAppDefinition, thrown: Option<Error>)
    | ValidateExternals(externals: Externals, thrown: Option<Error>)
    | BindFeatureServices(definition: FeatureAppDefinition, idSpecifier: Option<string>, binding: Result<Binding>)
    | Create(definition: FeatureAppDefinition, env: FeatureAppEnvironment, featureApp: Result<Value>)

  /** The error a call threw, if it threw. */
  function Thrown(call: Call): Option<Error>
  {
    match call
    case RegisterFeatureServices(_, thrown) => thrown
    case ValidateExternals(_, thrown) => thrown
    case BindFeatureServices(_, _, binding) => if binding.Err? then Some(binding.error) else None
    case Create(_, _, featureApp) => if featureApp.Err? then Some(featureApp.error) else None
  }

  /**
   * The outcome of attempting some calls: the calls made, the error that
   * propagated (if any) and how many of the calls made went to the Feature
   * Service registry.
   */
  datatype Run = Run(made: seq<Call>, thrown: Option<Error>, registryCalls: nat)

  /**
   * The calls that happen when `calls` are made one after the other and an
   * error propagates out of the first one that throws.
   */
  function CallsUntilThrow(calls: seq<Call>): seq<Call>
  {
    if calls == [] then []
    else if Thrown(calls[0]).Some? then [calls[0]]
    else [calls[0]] + CallsUntilThrow(calls[1..])
  }

  /**
   * The calls made are a prefix of those planned, in which only the last may
   * have thrown, and which stops short of the plan only at a call that threw.
   */
  lemma {:induction false} CallsUntilThrowIsPrefix(calls: seq<Call>)
    ensures var made := CallsUntilThrow(calls);
      |made| <= |calls| && made == calls[..|made|]
      && (calls != [] ==> made != [])
      && (forall i | 0 <= i < |made| - 1 :: Thrown(made[i]).None?)
      && (|made| < |calls| ==> Thrown(made[|made| - 1]).Some?)
  {
    if calls != [] && Thrown(calls[0]).None? {
      CallsUntilThrowIsPrefix(calls[1..]);
      assert calls == [calls[0]] + calls[1..];
    }
  }

  /** True when none of the calls throws. */
  predicate AllSucceed(calls: seq<Call>)
  {
    forall i | 0 <= i < |calls| :: Thrown(calls[i]).None?
  }

  /** The error that propagates out of `calls` made one after the other, if one throws. */
  function FirstThrown(calls: seq<Call>): Option<Error>
  {
    if calls == [] then None
    else if Thrown(calls[0]).Some? then Thrown(calls[0])
    else FirstThrown(calls[1..])
  }

  /**
   * Nothing propagates exactly when every call succeeds, and then every call
   * is made; otherwise what propagates is what the last call made threw.
   */
  lemma {:induction false} FirstThrownIsLastMade(calls: seq<Call>)
    ensures FirstThrown(calls).None? <==> AllSucceed(calls)
    ensures FirstThrown(calls).None? ==> CallsUntilThrow(calls) == calls
    ensures var made := CallsUntilThrow(calls);
      FirstThrown(calls).Some? ==> made != [] && FirstThrown(calls) == Thrown(made[|made| - 1])
  {
    if calls != [] && Thrown(calls[0]).None? {
      FirstThrownIsLastMade(calls[1..]);
      assert calls == [calls[0]] + calls[1..];
      assert forall i | 1 <= i < |calls| :: calls[i] == calls[1..][i - 1];
    }
  }

  /**
   * The externals `validateExternals` hands to the validator: only when a
   * validator is configured and the definition declares
   * `dependencies.externals` (an empty declaration is still a declaration).
   */
  function ExternalsToValidate(validator: Option<ExternalsValidator>, dependencies: Option<Dependencies>): (externals: Option<Externals>)
    ensures externals.Some? <==> validator.Some? && dependencies.Some? && dependencies.value.externals.Some?
    ensures externals.Some? ==> externals.value == dependencies.value.externals.value
  {
    if validator.None? then None
    else if dependencies.Some? && dependencies.value.externals.Some? then dependencies.value.externals
    else None
  }

  /**
   * The integrator's own config entry for a Feature App ID (`configs &&
   * configs[id]`); `configs` holds only the integrator's own entries.
   */
  function ConfigFor(configs: Option<map<string, Value>>, featureAppId: string): (config: Value)
    ensures configs.Some? && featureAppId in configs.value ==> config == configs.value[featureAppId]
    ensures configs.None? || featureAppId !in configs.value ==> config == Undefined
  {
    if configs.Some? && featureAppId in configs.value then configs.value[featureAppId] else Undefined
  }

  /**
   * `calls` is what a cache miss for `definition` attempts, in order, when
   * nothing throws: registering the definition's own Feature Services (when
   * `registers`), validating `externals` (when there are any to validate),
   * binding the Feature Services for the ID specifier, and calling `create`;
   * when the binding succeeds, `create` receives the integrator's `config`,
   * the instance config, the bound Feature Services and the ID specifier.
   */
  predicate IsMissPlan(
    calls: seq<Call>,
    definition: FeatureAppDefinition,
    idSpecifier: Option<string>,
    instanceConfig: Value,
    config: Value,
    registers: bool,
    externals: Option<Externals>)
  {
    var v := if registers then 1 else 0;
    var b := v + (if externals.Some? then 1 else 0);
    |calls| == b + 2
    && (registers ==> calls[0].RegisterFeatureServices? && calls[0].definition == definition)
    && (externals.Some? ==> calls[v].ValidateExternals? && calls[v].externals == externals.value)
    && calls[b].BindFeatureServices? && calls[b].definition == definition && calls[b].idSpecifier == idSpecifier
    && calls[b + 1].Create? && calls[b + 1].definition == definition
    && calls[b + 1].featureApp == definition.create(calls[b + 1].env)
    && (calls[b].binding.Ok? ==>
          calls[b + 1].env == FeatureAppEnvironment(config, instanceConfig, calls[b].binding.value.featureServices, idSpecifier))
  }

  /** How many of the calls are calls of the Feature Service registry. */
  function RegistryCalls(calls: seq<Call>): nat
  {
    if calls == [] then 0
    else (if calls[0].RegisterFeatureServices? || calls[0].BindFeatureServices? then 1 else 0) + RegistryCalls(calls[1..])
  }

  /**
   * What creating a scope attempts, with the outcome each collaborator gives
   * when asked: validating the externals, binding the Feature Services as
   * the registry's `answered`-th call, and calling `create` with the bound
   * Feature Services (none when the binding throws, in which case `create`
   * is never reached).
   */
  function CreationPlan(
    definition: FeatureAppDefinition, idSpecifier: Option<string>, instanceConfig: Value, config: Value,
    validator: Option<ExternalsValidator>, registry: FeatureServiceRegistry, answered: nat): (plan: seq<Call>)
    ensures IsMissPlan(plan, definition, idSpecifier, instanceConfig, config, false,
                       ExternalsToValidate(validator, definition.dependencies))
    ensures var externals := ExternalsToValidate(validator, definition.dependencies);
      externals.Some? ==> plan[0].thrown == validator.value.answer(externals.value)
    ensures plan[|plan| - 2].binding
            == BindOutcome(registry.bindAnswer(answered, definition.id, definition.dependencies, idSpecifier), answered)
  {
    var externals := ExternalsToValidate(validator, definition.dependencies);
    var binding := BindOutcome(registry.bindAnswer(answered, definition.id, definition.dependencies, idSpecifier), answered);
    var env := FeatureAppEnvironment(config, instanceConfig, if binding.Ok? then binding.value.featureServices else map[], idSpecifier);
    (if externals.Some? then [ValidateExternals(externals.value, validator.value.answer(externals.value))] else [])
    + [BindFeatureServices(definition, idSpecifier, binding), Create(definition, env, definition.create(env))]
  }

  /**
   * Scope creation stops at a validation that throws, then at a binding that
   * throws; otherwise it makes every call. The error that propagates is the
   * validator's, else the registry's, else whatever `create` threw; the
   * registry is asked once unless validation throws.
   */
  lemma CreationCallsMade(
    definition: FeatureAppDefinition, idSpecifier: Option<string>, instanceConfig: Value, config: Value,
    validator: Option<ExternalsValidator>, registry: FeatureServiceRegistry, answered: nat)
    ensures var plan := CreationPlan(definition, idSpecifier, instanceConfig, config, validator, registry, answered);
      var validates := ExternalsToValidate(validator, definition.dependencies).Some?;
      var validation := if validates then [plan[0]] else [];
      var validationThrown := if validates then plan[0].thrown else None;
      var binding := plan[|plan| - 2].binding;
      CallsUntilThrow(plan) ==
        (if validationThrown.Some? then validation
         else if binding.Err? then validation + [plan[|plan| - 2]]
         else plan)
      && FirstThrown(plan) ==
           (if validationThrown.Some? then validationThrown
            else if binding.Err? then Some(binding.error)
            else Thrown(plan[|plan| - 1]))
      && RegistryCalls(CallsUntilThrow(plan)) == if validationThrown.Some? then 0 else 1
  {
    var plan := CreationPlan(definition, idSpecifier, instanceConfig, config, validator, registry, answered);
    var b := |plan| - 2;
    var bind, create := plan[b], plan[b + 1];
    assert [create][1..] == [];
    assert CallsUntilThrow([create]) == [create];
    assert [bind, create][1..] == [create];
    assert CallsUntilThrow([bind, create]) == if bind.binding.Err? then [bind] else [bind, create];
    assert RegistryCalls([bind]) == 1 && RegistryCalls([create]) == 0;
    assert RegistryCalls([bind, create]) == 1;
    if ExternalsToValidate(validator, definition.dependencies).Some? {
      assert plan == [plan[0], bind, create];
      assert plan[1..] == [bind, create];
      assert [plan[0], bind][1..] == [bind];
      assert [plan[0]][1..] == [];
    } else {
      assert plan == [bind, create];
    }
    assert FirstThrown([create]) == Thrown(create);
    assert FirstThrown([bind, create]) == if bind.binding.Err? then Some(bind.binding.error) else Thrown(create);
  }

  /**
   * What a cache miss attempts, with the outcome each collaborator gives
   * when asked: registering the definition's own Feature Services as the
   * registry's `answered`-th call, unless the definition is already
   * `registered` or has none, and then creating the scope.
   */
  function MissPlan(
    definition: FeatureAppDefinition, idSpecifier: Option<string>, instanceConfig: Value, config: Value,
    validator: Option<ExternalsValidator>, registry: FeatureServiceRegistry, answered: nat, registered: bool): (plan: seq<Call>)
    ensures var registers := !registered && definition.ownFeatureServiceDefinitions.Some?;
      IsMissPlan(plan, definition, idSpecifier, instanceConfig, config, registers,
                 ExternalsToValidate(validator, definition.dependencies))
      && (registers ==>
            plan[0].thrown == registry.registerAnswer(answered, definition.ownFeatureServiceDefinitions.value, definition.id))
  {
    var own := definition.ownFeatureServiceDefinitions;
    var registration :=
      if !registered && own.Some? then [RegisterFeatureServices(definition, registry.registerAnswer(answered, own.value, definition.id))]
      else [];
    var plan := registration + CreationPlan(definition, idSpecifier, instanceConfig, config, validator, registry, answered + |registration|);
    assert registration != [] ==> plan[1..] == CreationPlan(definition, idSpecifier, instanceConfig, config, validator, registry, answered + 1);
    plan
  }

  /**
   * Registration, when it happens, comes in front of scope creation (which
   * then asks the registry one call later): the calls made are the
   * registration alone when it throws, and it followed by the calls
   * creation makes otherwise; what propagates is the registration's error,
   * or else whatever creation propagates.
   */
  lemma MissCallsMade(
    definition: FeatureAppDefinition, idSpecifier: Option<string>, instanceConfig: Value, config: Value,
    validator: Option<ExternalsValidator>, registry: FeatureServiceRegistry, answered: nat, registered: bool)
    ensures var plan := MissPlan(definition, idSpecifier, instanceConfig, config, validator, registry, answered, registered);
      var registration := if !registered && definition.ownFeatureServiceDefinitions.Some? then [plan[0]] else [];
      var creation := CreationPlan(definition, idSpecifier, instanceConfig, config, validator, registry, answered + |registration|);
      var registrationThrown := registration != [] && plan[0].thrown.Some?;
      plan == registration + creation
      && CallsUntilThrow(plan) == (if registrationThrown then registration else registration + CallsUntilThrow(creation))
      && FirstThrown(plan) == (if registrationThrown then plan[0].thrown else FirstThrown(creation))
      && RegistryCalls(CallsUntilThrow(plan))
         == |registration| + (if registrationThrown then 0 else RegistryCalls(CallsUntilThrow(creation)))
  {
    var plan := MissPlan(definition, idSpecifier, instanceConfig, config, validator, registry, answered, registered);
    if !registered && definition.ownFeatureServiceDefinitions.Some? {
      var creation := CreationPlan(definition, idSpecifier, instanceConfig, config, validator, registry, answered + 1);
      assert plan == [plan[0]] + creation;
      assert plan[1..] == creation;
      assert [plan[0]][1..] == [];
      assert Thrown(plan[0]) == plan[0].thrown;
      assert CallsUntilThrow(plan) == if plan[0].thrown.Some? then [plan[0]] else [plan[0]] + CallsUntilThrow(creation);
      assert ([plan[0]] + CallsUntilThrow(creation))[1..] == CallsUntilThrow(creation);
      assert RegistryCalls([plan[0]]) == 1;
    } else {
      assert plan == CreationPlan(definition, idSpecifier, instanceConfig, config, validator, registry, answered);
    }
  }

  /**
   * What creating a scope does, step by step: validation when there is
   * something to validate, then (unless it threw) the binding, then (unless
   * that threw) `create`.
   */
  function CreationRun(
    definition: FeatureAppDefinition, idSpecifier: Option<string>, instanceConfig: Value, config: Value,
    validator: Option<ExternalsValidator>, registry: FeatureServiceRegistry, answered: nat): Run
  {
    var externals := ExternalsToValidate(validator, definition.dependencies);
    var validationThrown := if externals.Some? then validator.value.answer(externals.value) else None;
    var validation := if externals.Some? then [ValidateExternals(externals.value, validationThrown)] else [];
    var binding := BindOutcome(registry.bindAnswer(answered, definition.id, definition.dependencies, idSpecifier), answered);
    var bind := BindFeatureServices(definition, idSpecifier, binding);
    if validationThrown.Some? then Run(validation, validationThrown, 0)
    else if binding.Err? then Run(validation + [bind], Some(binding.error), 1)
    else
      var env := FeatureAppEnvironment(config, instanceConfig, binding.value.featureServices, idSpecifier);
      var featureApp := definition.create(env);
      Run(validation + [bind, Create(definition, env, featureApp)], if featureApp.Err? then Some(featureApp.error) else None, 1)
  }

  /**
   * The step-by-step run of scope creation is the plan made until the first
   * call that throws.
   */
  lemma CreationRunStopsAtFirstThrow(
    definition: FeatureAppDefinition, idSpecifier: Option<string>, instanceConfig: Value, config: Value,
    validator: Option<ExternalsValidator>, registry: FeatureServiceRegistry, answered: nat)
    ensures var plan := CreationPlan(definition, idSpecifier, instanceConfig, config, validator, registry, answered);
      CreationRun(definition, idSpecifier, instanceConfig, config, validator, registry, answered)
      == Run(CallsUntilThrow(plan), FirstThrown(plan), RegistryCalls(CallsUntilThrow(plan)))
  {
    CreationCallsMade(definition, idSpecifier, instanceConfig, config, validator, registry, answered);
    var plan := CreationPlan(definition, idSpecifier, instanceConfig, config, validator, registry, answered);
    if ExternalsToValidate(validator, definition.dependencies).Some? {
      assert plan == [plan[0], plan[1], plan[2]];
    } else {
      assert plan == [plan[0], plan[1]];
    }
  }

  /**
   * What a cache miss does, step by step: registration when the definition
   * is not `registered` yet and has own Feature Services, then (unless it
   * threw) scope creation, one registry call later.
   */
  function MissRun(
    definition: FeatureAppDefinition, idSpecifier: Option<string>, instanceConfig: Value, config: Value,
    validator: Option<ExternalsValidator>, registry: FeatureServiceRegistry, answered: nat, registered: bool): Run
  {
    var own := definition.ownFeatureServiceDefinitions;
    if registered || own.None? then
      CreationRun(definition, idSpecifier, instanceConfig, config, validator, registry, answered)
    else
      var registration := RegisterFeatureServices(definition, registry.registerAnswer(answered, own.value, definition.id));
      if registration.thrown.Some? then Run([registration], registration.thrown, 1)
      else
        var creation := CreationRun(definition, idSpecifier, instanceConfig, config, validator, registry, answered + 1);
        Run([registration] + creation.made, creation.thrown, 1 + creation.registryCalls)
  }

  /**
   * The step-by-step run of a cache miss is the miss plan made until the
   * first call that throws.
   */
  lemma MissRunStopsAtFirstThrow(
    definition: FeatureAppDefinition, idSpecifier: Option<string>, instanceConfig: Value, config: Value,
    validator: Option<ExternalsValidator>, registry: FeatureServiceRegistry, answered: nat, registered: bool)
    ensures var plan := MissPlan(definition, idSpecifier, instanceConfig, config, validator, registry, answered, registered);
      MissRun(definition, idSpecifier, instanceConfig, config, validator, registry, answered, registered)
      == Run(CallsUntilThrow(plan), FirstThrown(plan), RegistryCalls(CallsUntilThrow(plan)))
  {
    MissCallsMade(definition, idSpecifier, instanceConfig, config, validator, registry, answered, registered);
    var registers := !registered && definition.ownFeatureServiceDefinitions.Some?;
    CreationRunStopsAtFirstThrow(definition, idSpecifier, instanceConfig, config, validator, registry,
                                 answered + if registers then 1 else 0);
  }
}
