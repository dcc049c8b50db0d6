/** The earlier, context-first API revision shipped in the built bundles (the CommonJS and AMD builds
    differ only in how they turn a value into a string, which `Host.render` covers for both): a factory
    takes the context name and the message function and returns a plain, uncurried check over the
    remaining arguments. */
module DistApi {
  import opened Wrappers
  import opened JsValues
  import opened TypeNames
  import opened Messages
  import opened Throwers
  import opened Curry
  import SrcApi

  /** Prepending the context name shifts every positional argument, and the rest parameter, by one. */
  lemma ContextPrepended(contextName: JsValue, args: seq<JsValue>)
    ensures Arg([contextName] + args, 0) == contextName
    ensures forall i: nat :: i < 4 ==> Arg([contextName] + args, i + 1) == Arg(args, i)
    ensures RestFrom([contextName] + args, 3) == RestFrom(args, 2)
  {
    if 2 < |args| {
      assert ([contextName] + args)[3..] == args[2..];
    }
  }

  /** `getErrorIfNotTypeThrower(contextName, errorMessageCall)`: a check with parameters
      `(valueName, value, ValueType, messageSuffix = null)`. It is the current revision's uncurried
      check with the context name supplied as its first argument. */
  function GetErrorIfNotTypeThrower(host: Host, contextName: JsValue, fmt: Formatter): (f: seq<JsValue> -> Outcome<JsError>)
    ensures forall args ::
              f(args) == SrcApi.GetErrorIfNotTypeThrowerUncurried(host, fmt)([contextName] + args)
  {
    var f := args => IfNotType(host, fmt, contextName, Arg(args, 0), Arg(args, 1), Arg(args, 2), OrNull(Arg(args, 3)));
    forall args
      ensures f(args) == SrcApi.GetErrorIfNotTypeThrowerUncurried(host, fmt)([contextName] + args)
    {
      ContextPrepended(contextName, args);
    }
    f
  }

  /** `getErrorIfNotTypesThrower(contextName, errorMessageCall)`: a check with parameters
      `(valueName, value, ...valueTypes)`. It is the current revision's uncurried multi-type check with
      the context name supplied as its first argument. */
  function GetErrorIfNotTypesThrower(host: Host, contextName: JsValue, fmt: Formatter): (f: seq<JsValue> -> Outcome<JsError>)
    ensures forall args ::
              f(args) == SrcApi.GetErrorIfNotTypesThrowerUncurried(host, fmt)([contextName] + args)
  {
    var f := args => IfNotTypes(host, fmt, contextName, Arg(args, 0), Arg(args, 1), RestFrom(args, 2));
    forall args
      ensures f(args) == SrcApi.GetErrorIfNotTypesThrowerUncurried(host, fmt)([contextName] + args)
    {
      ContextPrepended(contextName, args);
    }
    f
  }

  /** `errorIfNotTypeThrower(contextName)`: the single-type check with the default message function,
      which is the current revision's `errorIfNotType$` with the context name prepended. */
  function ErrorIfNotTypeThrower(host: Host, contextName: JsValue): (f: seq<JsValue> -> Outcome<JsError>)
    ensures forall args :: f(args) == SrcApi.ErrorIfNotTypeUncurried(host)([contextName] + args)
  {
    GetErrorIfNotTypeThrower(host, contextName, DefaultFormatter(host))
  }

  /** `errorIfNotTypesThrower(contextName)`: the multi-type check with the default message function,
      which is the current revision's `errorIfNotTypes$` with the context name prepended. */
  function ErrorIfNotTypesThrower(host: Host, contextName: JsValue): (f: seq<JsValue> -> Outcome<JsError>)
    ensures forall args :: f(args) == SrcApi.ErrorIfNotTypesUncurried(host)([contextName] + args)
  {
    GetErrorIfNotTypesThrower(host, contextName, DefaultFormatter(host))
  }

  /** The check is not curried: leaving out the type reference passes `undefined` to `getTypeName`,
      which throws, whatever the value. */
  lemma MissingTypeRefThrows(host: Host, contextName: JsValue, fmt: Formatter, args: seq<JsValue>)
    requires |args| < 3
    ensures GetErrorIfNotTypeThrower(host, contextName, fmt)(args)
         == Fail(InvalidTypeRef(InvalidRefMessage(host, Undefined)))
  {
    assert Arg(args, 2) == Undefined;
  }

  /** Called with no type references, the multi-type check has nothing to match and always throws
      through the message function, with an empty name list. */
  lemma NoTypeRefsThrows(host: Host, contextName: JsValue, fmt: Formatter, args: seq<JsValue>)
    requires |args| <= 2
    ensures GetErrorIfNotTypesThrower(host, contextName, fmt)(args)
         == Raise(fmt(MultiContext(host, contextName, Arg(args, 0), Arg(args, 1), [])))
  {
    assert RestFrom(args, 2) == [];
    assert AllTypeRefs([]);
    assert ResolveAll(host, []).value == [];
  }

  /** The suffix defaults to `null`: omitting it, passing `undefined` and passing `null` all give the
      same outcome and message. */
  lemma SuffixDefaultsToNull(host: Host, contextName: JsValue, fmt: Formatter,
                             valueName: JsValue, value: JsValue, valueType: JsValue)
    ensures GetErrorIfNotTypeThrower(host, contextName, fmt)([valueName, value, valueType])
         == GetErrorIfNotTypeThrower(host, contextName, fmt)([valueName, value, valueType, Null])
    ensures GetErrorIfNotTypeThrower(host, contextName, fmt)([valueName, value, valueType, Undefined])
         == GetErrorIfNotTypeThrower(host, contextName, fmt)([valueName, value, valueType, Null])
  {
    assert Arg([valueName, value, valueType], 3) == Undefined;
    assert Arg([valueName, value, valueType, Null], 3) == Null;
    assert Arg([valueName, value, valueType, Undefined], 3) == Undefined;
  }

  /** Across the two revisions: the current curried check, given the context name in one call and
      the remaining three or more arguments in the next, returns exactly what the context-first check
      built for that context returns on those arguments. */
  lemma SingleRevisionsAgree(host: Host, fmt: Formatter, contextName: JsValue, args: seq<JsValue>)
    requires |args| >= 3
    ensures FeedAll(SrcApi.GetErrorIfNotTypeThrower(host, fmt), [[contextName], args])
         == Some(Done(GetErrorIfNotTypeThrower(host, contextName, fmt)(args)))
  {
    PrependedCall(SrcApi.GetErrorIfNotTypeThrower(host, fmt), GetErrorIfNotTypeThrower(host, contextName, fmt),
                  contextName, args);
  }

  /** The same agreement for the multi-type check. */
  lemma MultiRevisionsAgree(host: Host, fmt: Formatter, contextName: JsValue, args: seq<JsValue>)
    requires |args| >= 3
    ensures FeedAll(SrcApi.GetErrorIfNotTypesThrower(host, fmt), [[contextName], args])
         == Some(Done(GetErrorIfNotTypesThrower(host, contextName, fmt)(args)))
  {
    PrependedCall(SrcApi.GetErrorIfNotTypesThrower(host, fmt), GetErrorIfNotTypesThrower(host, contextName, fmt),
                  contextName, args);
  }
}
