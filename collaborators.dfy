/**
 * The manager's collaborators, whose code is not part of this model: the
 * Feature App definition (its `create`), the Feature Service registry and the
 * externals validator. Each is an object whose answers are fixed, arbitrary
 * functions chosen by whoever constructs it, so everything proved about the
 * manager holds for every choice of those functions. Being functions, they
 * cannot call back into the manager, and `create` and the validator give the
 * same answer for the same input. The registry is stateful: its answers may
 * also depend on how many calls it has answered before.
 */
module Collaborators {
  import opened FeatureHubTypes

  /**
   * A loaded Feature App definition. It is compared by reference, so two
   * definitions with equal fields are still different definitions.
   */
  class FeatureAppDefinition {
    const id: string
    const dependencies: Option<Dependencies>
    const ownFeatureServiceDefinitions: Option<seq<ServiceProvider>>
    /** What `create` does with an environment: return a Feature App or throw. */
    const create: FeatureAppEnvironment -> Result<Value>

    constructor (
      id: string,
      dependencies: Option<Dependencies>,
      ownFeatureServiceDefinitions: Option<seq<ServiceProvider>>,
      create: FeatureAppEnvironment -> Result<Value>)
      ensures this.id == id && this.dependencies == dependencies
      ensures this.ownFeatureServiceDefinitions == ownFeatureServiceDefinitions
      ensures this.create == create
    {
      this.id := id;
      this.dependencies := dependencies;
      this.ownFeatureServiceDefinitions := ownFeatureServiceDefinitions;
      this.create := create;
    }
  }

  /** The result of binding a consumer: its Feature Services and a ticket that names the binding for `unbind`. */
  datatype Binding = Binding(featureServices: FeatureServices, ticket: nat)

  /** The binding made from the registry's answer, named by the number of the call that made it. */
  function BindOutcome(answer: Result<FeatureServices>, ticket: nat): Result<Binding>
  {
    if answer.Ok? then Ok(Binding(answer.value, ticket)) else Err(answer.error)
  }

  class FeatureServiceRegistry {
    /** How many calls the registry has answered so far. */
    var answered: nat

    /** `registerFeatureServices(providers, ownerId)`: None, or the error it throws. */
    const registerAnswer: (nat, seq<ServiceProvider>, string) -> Option<Error>
    /** `bindFeatureServices(consumer, idSpecifier)`: the bound Feature Services, or the error it throws. */
    const bindAnswer: (nat, string, Option<Dependencies>, Option<string>) -> Result<FeatureServices>
    /** `binding.unbind()` for the binding with a given ticket: None, or the error it throws. */
    const unbindAnswer: (nat, nat) -> Option<Error>

    constructor (
      registerAnswer: (nat, seq<ServiceProvider>, string) -> Option<Error>,
      bindAnswer: (nat, string, Option<Dependencies>, Option<string>) -> Result<FeatureServices>,
      unbindAnswer: (nat, nat) -> Option<Error>)
      ensures answered == 0
      ensures this.registerAnswer == registerAnswer && this.bindAnswer == bindAnswer
      ensures this.unbindAnswer == unbindAnswer
    {
      answered := 0;
      this.registerAnswer := registerAnswer;
      this.bindAnswer := bindAnswer;
      this.unbindAnswer := unbindAnswer;
    }

    method RegisterFeatureServices(providers: seq<ServiceProvider>, ownerId: string) returns (thrown: Option<Error>)
      modifies this
      ensures answered == old(answered) + 1
      ensures thrown == registerAnswer(old(answered), providers, ownerId)
    {
      thrown := registerAnswer(answered, providers, ownerId);
      answered := answered + 1;
    }

    method BindFeatureServices(consumer: FeatureAppDefinition, idSpecifier: Option<string>) returns (r: Result<Binding>)
      modifies this
      ensures answered == old(answered) + 1
      ensures r == BindOutcome(bindAnswer(old(answered), consumer.id, consumer.dependencies, idSpecifier), old(answered))
    {
      r := BindOutcome(bindAnswer(answered, consumer.id, consumer.dependencies, idSpecifier), answered);
      answered := answered + 1;
    }

    method Unbind(binding: Binding) returns (thrown: Option<Error>)
      modifies this
      ensures answered == old(answered) + 1
      ensures thrown == unbindAnswer(old(answered), binding.ticket)
    {
      thrown := unbindAnswer(answered, binding.ticket);
      answered := answered + 1;
    }
  }

  /** Checks required externals against those the integrator provides; stateless. */
  class ExternalsValidator {
    /** `validate(externals)`: None, or the error it throws. */
    const answer: Externals -> Option<Error>

    constructor (answer: Externals -> Option<Error>)
      ensures this.answer == answer
    {
      this.answer := answer;
    }
  }
}
