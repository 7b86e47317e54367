/** Environment-aware annotation values
    (inject/src/main/java/io/micronaut/inject/annotation/EnvironmentAnnotationValue.java).

    An annotation value is a node of a tree: an annotation name, the stored member values,
    the declared defaults, and an optional value mapper applied to every value read. Wrapping
    a value with an environment installs, when the environment is present, a mapper that
    sends placeholder strings through the environment's required-placeholder resolver, and
    makes nested annotation values come back wrapped with the same environment.

    The resolver, the default-value provider and the base class's own nested-annotation
    lookups are abstract: function-typed fields and parameters. The mapper a value carries is
    represented by the environment it is bound to, since the only mapper this core installs is
    the one the environment determines. */
module EnvironmentAnnotationValues {
  import opened Wrappers

  /** The error resolveRequiredPlaceholders raises for a placeholder it cannot resolve. */
  datatype ConfigurationError = ConfigurationError(message: string)

  /** The configuration environment, reduced to its required-placeholder resolver. */
  datatype Environment = Environment(resolveRequiredPlaceholders: string -> Result<string, ConfigurationError>)

  /** A member value: a string, any other scalar, a nested annotation, or an array. */
  datatype Value =
    | Str(s: string)
    | Other(token: int)
    | Nested(annotation: AnnotationValue)
    | Many(items: seq<Value>)

  /** Which class an annotation value is an instance of: the plain base class, or the
      environment wrapper together with the environment it holds (possibly null). */
  datatype Kind = Plain | EnvironmentBound(environment: Option<Environment>)

  datatype AnnotationValue = AnnotationValue(
    annotationName: string,
    values: map<string, Value>,
    defaults: map<string, Value>,
    valueMapper: Option<Environment>,
    kind: Kind)

  /** The collaborators outside the wrapper: the default values declared for an annotation
      name, and the base class's two nested-annotation lookups (by member, and by member and
      annotation type name). */
  datatype Support = Support(
    defaultValues: string -> map<string, Value>,
    baseGetAnnotations: (AnnotationValue, string) -> seq<AnnotationValue>,
    baseGetAnnotationsOfType: (AnnotationValue, string, string) -> seq<AnnotationValue>)

  /** The placeholder marker "${" occurs in the string. */
  predicate HasPlaceholder(s: string) {
    exists i :: 0 <= i < |s| - 1 && s[i] == '$' && s[i + 1] == '{'
  }

  /** The mapper the wrapper installs for a present environment: a string holding "${" is
      replaced by the resolver's result, and a resolver failure is raised; every other value
      is returned as is. */
  function MapValue(env: Environment, o: Value): (r: Result<Value, ConfigurationError>)
    ensures o.Str? && HasPlaceholder(o.s) && env.resolveRequiredPlaceholders(o.s).Success? ==>
              r == Success(Str(env.resolveRequiredPlaceholders(o.s).value))
    ensures o.Str? && HasPlaceholder(o.s) && env.resolveRequiredPlaceholders(o.s).Failure? ==>
              r == Failure(env.resolveRequiredPlaceholders(o.s).error)
    ensures !o.Str? ==> r == Success(o)
    ensures o.Str? && !HasPlaceholder(o.s) ==> r == Success(o)
  {
    if o.Str? && HasPlaceholder(o.s) then
      match env.resolveRequiredPlaceholders(o.s)
      case Success(resolved) => Success(Str(resolved))
      case Failure(e) => Failure(e)
    else Success(o)
  }

  /** The constructor EnvironmentAnnotationValue(environment, target). */
  function Wrap(support: Support, env: Option<Environment>, target: AnnotationValue): (w: AnnotationValue)
    ensures w.annotationName == target.annotationName
    ensures w.values == target.values
    ensures w.defaults == support.defaultValues(target.annotationName)
    ensures w.valueMapper == env
    ensures w.kind == EnvironmentBound(env)
  {
    AnnotationValue(target.annotationName, target.values, support.defaultValues(target.annotationName), env,
                    EnvironmentBound(env))
  }

  /** A value as a reader of `av` sees it: passed through the installed mapper, if any. */
  function Mapped(av: AnnotationValue, v: Value): Result<Value, ConfigurationError> {
    match av.valueMapper
    case None => Success(v)
    case Some(env) => MapValue(env, v)
  }

  /** The value a member holds before mapping: the stored value, else the declared default;
      `None` when the member has neither. */
  function Lookup(av: AnnotationValue, member: string): Option<Value> {
    if member in av.values then Some(av.values[member])
    else if member in av.defaults then Some(av.defaults[member])
    else None
  }

  /** Reading a member: its stored-or-default value through the mapper. */
  function GetValue(av: AnnotationValue, member: string): Option<Result<Value, ConfigurationError>> {
    match Lookup(av, member)
    case None => None
    case Some(v) => Some(Mapped(av, v))
  }

  /** Every element of a list wrapped with the environment, in order. */
  function WrapAll(support: Support, env: Option<Environment>, items: seq<AnnotationValue>): (r: seq<AnnotationValue>)
    ensures |r| == |items|
    ensures forall i :: 0 <= i < |r| ==> r[i] == Wrap(support, env, items[i])
  {
    if items == [] then [] else [Wrap(support, env, items[0])] + WrapAll(support, env, items[1..])
  }

  /** getAnnotations(member, type): the base lookup, and for a wrapper every result re-wrapped
      with the wrapper's environment. */
  function GetAnnotationsOfType(support: Support, av: AnnotationValue, member: string, typeName: string): (r: seq<AnnotationValue>)
    ensures |r| == |support.baseGetAnnotationsOfType(av, member, typeName)|
    ensures av.kind.Plain? ==> r == support.baseGetAnnotationsOfType(av, member, typeName)
    ensures av.kind.EnvironmentBound? ==>
              forall i :: 0 <= i < |r| ==>
                r[i] == Wrap(support, av.kind.environment, support.baseGetAnnotationsOfType(av, member, typeName)[i])
  {
    var base := support.baseGetAnnotationsOfType(av, member, typeName);
    match av.kind
    case Plain => base
    case EnvironmentBound(env) => WrapAll(support, env, base)
  }

  /** getAnnotations(member): as above, without the type filter. */
  function GetAnnotations(support: Support, av: AnnotationValue, member: string): (r: seq<AnnotationValue>)
    ensures |r| == |support.baseGetAnnotations(av, member)|
    ensures av.kind.Plain? ==> r == support.baseGetAnnotations(av, member)
    ensures av.kind.EnvironmentBound? ==>
              forall i :: 0 <= i < |r| ==>
                r[i] == Wrap(support, av.kind.environment, support.baseGetAnnotations(av, member)[i])
  {
    var base := support.baseGetAnnotations(av, member);
    match av.kind
    case Plain => base
    case EnvironmentBound(env) => WrapAll(support, env, base)
  }

  // ---------------------------------------------------------------------------------------
  // Reading through a wrapper

  /** Reading a member of a wrapped value: the target's stored value, else the default
      declared for the target's annotation name; unchanged without an environment, passed
      through the environment's mapper with one. */
  lemma ReadThroughWrapper(support: Support, env: Option<Environment>, target: AnnotationValue, member: string)
    ensures GetValue(Wrap(support, env, target), member) ==
              var raw :=
                if member in target.values then Some(target.values[member])
                else if member in support.defaultValues(target.annotationName)
                then Some(support.defaultValues(target.annotationName)[member])
                else None;
              match raw
              case None => None
              case Some(v) =>
                match env
                case None => Some(Success(v))
                case Some(e) => Some(MapValue(e, v))
  {
  }

  /** A resolver that never leaves a placeholder marker in a string it resolves. */
  ghost predicate ResolvesCompletely(env: Environment) {
    forall s :: env.resolveRequiredPlaceholders(s).Success? ==>
      !HasPlaceholder(env.resolveRequiredPlaceholders(s).value)
  }

  /** With a complete resolver, no string read through a wrapper still holds a placeholder
      marker: it either had none, or it was resolved, or the read failed. */
  lemma ReadStringsAreResolved(support: Support, env: Environment, target: AnnotationValue, member: string, s: string)
    requires ResolvesCompletely(env)
    requires GetValue(Wrap(support, Some(env), target), member) == Some(Success(Str(s)))
    ensures !HasPlaceholder(s)
  {
  }

  // ---------------------------------------------------------------------------------------
  // Nested annotations, at any depth

  /** One step down the tree: a member, an optional annotation type filter, and the position
      in the returned list. */
  datatype Step = Step(member: string, typeName: Option<string>, index: nat)

  /** The nested annotation values one step yields. */
  function NestedAt(support: Support, av: AnnotationValue, step: Step): seq<AnnotationValue> {
    match step.typeName
    case None => GetAnnotations(support, av, step.member)
    case Some(t) => GetAnnotationsOfType(support, av, step.member, t)
  }

  /** The annotation value reached from `av` by following `path`, or `None` when a step's
      index is out of range. */
  function Descend(support: Support, av: AnnotationValue, path: seq<Step>): Option<AnnotationValue>
    decreases |path|
  {
    if path == [] then Some(av)
    else
      var nested := NestedAt(support, av, path[0]);
      if path[0].index < |nested| then Descend(support, nested[path[0].index], path[1..]) else None
  }

  /** The shape of a value the wrapper built: bound to `env`, carrying the mapper `env`
      determines and the defaults declared for its annotation name. */
  ghost predicate BoundTo(support: Support, env: Option<Environment>, av: AnnotationValue) {
    && av.kind == EnvironmentBound(env)
    && av.valueMapper == env
    && av.defaults == support.defaultValues(av.annotationName)
  }

  lemma WrapIsBound(support: Support, env: Option<Environment>, target: AnnotationValue)
    ensures BoundTo(support, env, Wrap(support, env, target))
  {
  }

  /** Every nested value reached from a wrapped value, at any depth and through either
      getAnnotations override, is itself wrapped with the same environment. */
  lemma {:induction false} NestedValuesStayBound(support: Support, env: Option<Environment>, av: AnnotationValue, path: seq<Step>)
    requires BoundTo(support, env, av)
    ensures Descend(support, av, path).Some? ==> BoundTo(support, env, Descend(support, av, path).value)
    decreases |path|
  {
    if path != [] {
      var nested := NestedAt(support, av, path[0]);
      if path[0].index < |nested| {
        var base :=
          match path[0].typeName
          case None => support.baseGetAnnotations(av, path[0].member)
          case Some(t) => support.baseGetAnnotationsOfType(av, path[0].member, t);
        assert nested == WrapAll(support, env, base);
        WrapIsBound(support, env, base[path[0].index]);
        NestedValuesStayBound(support, env, nested[path[0].index], path[1..]);
      }
    }
  }

  /** Reads from any value reached below a wrapper go through the wrapper's environment: a
      placeholder string is resolved (or the read fails), every other value is returned
      unchanged, and without an environment nothing is adapted. */
  lemma NestedReadsAreAdapted(support: Support, env: Option<Environment>, target: AnnotationValue, path: seq<Step>, member: string)
    requires Descend(support, Wrap(support, env, target), path).Some?
    ensures var d := Descend(support, Wrap(support, env, target), path).value;
            GetValue(d, member) ==
              match Lookup(d, member)
              case None => None
              case Some(v) =>
                match env
                case None => Some(Success(v))
                case Some(e) => Some(MapValue(e, v))
  {
    WrapIsBound(support, env, target);
    NestedValuesStayBound(support, env, Wrap(support, env, target), path);
  }
}
