/**
 * Values shared by the Feature App manager and its collaborators.
 *
 * JavaScript values the manager only passes around (configs, instance
 * configs, Feature Apps, Feature Services) are `Value`s; `undefined` is kept
 * apart because the manager produces it itself (a missing config).
 */
module FeatureHubTypes {

  datatype Option<T> = None | Some(value: T)

  /** The identity of a Feature App instance: its definition's ID and an optional ID specifier. */
  datatype Uid = Uid(featureAppId: string, idSpecifier: Option<string>)

  /** The errors the manager throws itself, and those a collaborator throws through it. */
  datatype Error =
    | NoModuleLoader                 // "No module loader provided."
    | InvalidFeatureAppModule(url: string)
    | CouldNotBeDestroyed(uid: Uid)  // a second destroy() of the same scope
    | Raised(message: string)        // thrown by a loader, the registry, the validator or `create`

  /** A call that either returns a value or throws. */
  datatype Result<T> = Ok(value: T) | Err(error: Error)

  /** An opaque JavaScript value. */
  datatype Value = Undefined | Opaque(tag: nat)

  /** Feature Services bound for a consumer, by Feature Service ID. */
  type FeatureServices = map<string, Value>

  /** Required externals: library name to version range. */
  type Externals = map<string, string>

  /** The `dependencies` a Feature App definition declares (both parts optional). */
  datatype Dependencies = Dependencies(featureServices: Option<map<string, string>>, externals: Option<Externals>)

  /** One entry of a definition's `ownFeatureServiceDefinitions`. */
  datatype ServiceProvider = ServiceProvider(id: string)

  /** What `create` receives. */
  datatype FeatureAppEnvironment = FeatureAppEnvironment(
    config: Value,
    instanceConfig: Value,
    featureServices: FeatureServices,
    idSpecifier: Option<string>)

  /** No element occurs twice. */
  predicate Distinct<T(==)>(s: seq<T>)
  {
    forall i, j | 0 <= i < j < |s| :: s[i] != s[j]
  }

  /** Appending a new element keeps a sequence distinct. */
  lemma DistinctAppend<T>(s: seq<T>, x: T)
    requires Distinct(s) && x !in s
    ensures Distinct(s + [x])
  {
  }

  /** In a distinct sequence an element that occurs, occurs exactly once. */
  lemma {:induction false} DistinctOccursOnce<T>(s: seq<T>, x: T)
    requires Distinct(s)
    ensures multiset(s)[x] == if x in s then 1 else 0
  {
    if s != [] {
      assert Distinct(s[1..]) by {
        forall i, j | 0 <= i < j < |s| - 1 ensures s[1..][i] != s[1..][j] {
          assert s[1..][i] == s[i + 1] && s[1..][j] == s[j + 1];
        }
      }
      DistinctOccursOnce(s[1..], x);
      assert s == [s[0]] + s[1..];
      assert multiset(s) == multiset([s[0]]) + multiset(s[1..]);
      forall k | 0 <= k < |s| - 1 ensures s[1..][k] != s[0] {
        assert s[1..][k] == s[k + 1];
      }
    }
  }
}
