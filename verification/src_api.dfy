/** The current API revision: factories take the message function, and the checks they return are
    curried, with the context name as their first argument. Calls are positional argument lists;
    an argument the caller leaves out is `undefined`. */
module SrcApi {
  import opened Wrappers
  import opened JsValues
  import opened TypeNames
  import opened Messages
  import opened Throwers
  import opened Curry

  /** `getErrorIfNotTypeThrower$(errorMessageCall)`: the uncurried single-type check with parameters
      `(contextName, valueName, value, ValueType, messageSuffix = null)`. The call passes exactly when
      the fourth argument is a type reference whose name `isType` accepts the third under; arguments
      after the fifth are ignored, and an omitted or `undefined` suffix is the default `null`. */
  function GetErrorIfNotTypeThrowerUncurried(host: Host, fmt: Formatter): (f: seq<JsValue> -> Outcome<JsError>)
    ensures forall args :: f(args).Pass? <==>
              IsTypeRef(Arg(args, 3)) && host.isType(GetTypeName(host, Arg(args, 3)).value, Arg(args, 2))
    ensures forall args, extra :: 5 <= |args| ==> f(args + extra) == f(args)
    ensures forall args :: |args| == 4 ==> f(args) == f(args + [Null]) && f(args + [Undefined]) == f(args + [Null])
  {
    var f := args => IfNotType(host, fmt, Arg(args, 0), Arg(args, 1), Arg(args, 2), Arg(args, 3), OrNull(Arg(args, 4)));
    forall args, extra | 5 <= |args| ensures f(args + extra) == f(args) {
      ArgsPrefix(args, extra, 5);
    }
    forall args | |args| == 4 ensures f(args) == f(args + [Null]) && f(args + [Undefined]) == f(args + [Null]) {
      ArgsPrefix(args, [Null], 4);
      ArgsPrefix(args, [Undefined], 4);
      assert Arg(args + [Null], 4) == Null;
      assert Arg(args + [Undefined], 4) == Undefined;
    }
    f
  }

  /** `getErrorIfNotTypesThrower$(errorMessageCall)`: the uncurried multi-type check with parameters
      `(contextName, valueName, value, ...valueTypes)`. The call passes exactly when every argument
      from the fourth on is a type reference and one of their names accepts the third argument. With
      no type references it always throws; every reference is resolved first, so a rejected fourth
      argument throws its own error whatever follows. */
  function GetErrorIfNotTypesThrowerUncurried(host: Host, fmt: Formatter): (f: seq<JsValue> -> Outcome<JsError>)
    ensures forall args :: |args| <= 3 ==> f(args).Fail?
    ensures forall args :: 3 < |args| && !IsTypeRef(args[3]) ==> f(args) == Fail(InvalidTypeRef(InvalidRefMessage(host, args[3])))
  {
    var f := args => IfNotTypes(host, fmt, Arg(args, 0), Arg(args, 1), Arg(args, 2), RestFrom(args, 3));
    forall args | 3 < |args| && !IsTypeRef(args[3])
      ensures f(args) == Fail(InvalidTypeRef(InvalidRefMessage(host, args[3])))
    {
      assert RestFrom(args, 3)[0] == args[3];
      assert FirstInvalid(RestFrom(args, 3)) == 0;
    }
    f
  }

  /** The multi-type call passes exactly when every argument from the fourth on is a type reference and
      some resolved name accepts the third argument. */
  lemma MultiUncurriedPasses(host: Host, fmt: Formatter, args: seq<JsValue>)
    ensures GetErrorIfNotTypesThrowerUncurried(host, fmt)(args).Pass? <==>
              AllTypeRefs(RestFrom(args, 3)) && AnyMatch(host, ResolveAll(host, RestFrom(args, 3)).value, Arg(args, 2))
  {
    if AllTypeRefs(RestFrom(args, 3)) {
      MultiPassesOnMatch(host, fmt, Arg(args, 0), Arg(args, 1), Arg(args, 2), RestFrom(args, 3));
    }
  }

  /** Appending valid type references to a passing multi-type call keeps it passing: the check looks
      for any match, so more candidates can only help. */
  lemma MoreTypeRefsKeepPass(host: Host, fmt: Formatter, args: seq<JsValue>, more: seq<JsValue>)
    requires GetErrorIfNotTypesThrowerUncurried(host, fmt)(args).Pass?
    requires AllTypeRefs(more)
    ensures GetErrorIfNotTypesThrowerUncurried(host, fmt)(args + more).Pass?
  {
    var ts := RestFrom(args, 3);
    var before := IfNotTypes(host, fmt, Arg(args, 0), Arg(args, 1), Arg(args, 2), ts);
    assert before.Pass?;
    assert |ts| > 0 && AllTypeRefs(ts);
    ArgsPrefix(args, more, 3);
    RestAppend(args, more, 3);
    MultiAppend(host, fmt, Arg(args, 0), Arg(args, 1), Arg(args, 2), ts, more);
    assert IfNotTypes(host, fmt, Arg(args, 0), Arg(args, 1), Arg(args, 2), ts + more).Pass?;
  }

  /** `errorIfNotType$`: the uncurried single-type check with the default message function. A mismatch
      throws the default message: the backticked value name (qualified by a truthy context), "of one of
      the types: " and the resolved name, then the received type, the value and the suffix. */
  function ErrorIfNotTypeUncurried(host: Host): (f: seq<JsValue> -> Outcome<JsError>)
    ensures forall args :: IsTypeRef(Arg(args, 3)) && !host.isType(GetTypeName(host, Arg(args, 3)).value, Arg(args, 2)) ==>
              var ctx := SingleContext(host, Arg(args, 0), Arg(args, 1), Arg(args, 2),
                                       GetTypeName(host, Arg(args, 3)).value, OrNull(Arg(args, 4)));
              f(args) == Fail(TypeMismatch(MessageHead(host, ctx) + "of one of the types: "
                                           + GetTypeName(host, Arg(args, 3)).value + MessageTail(host, ctx)))
  {
    var f := GetErrorIfNotTypeThrowerUncurried(host, DefaultFormatter(host));
    forall args | IsTypeRef(Arg(args, 3)) && !host.isType(GetTypeName(host, Arg(args, 3)).value, Arg(args, 2))
      ensures var ctx := SingleContext(host, Arg(args, 0), Arg(args, 1), Arg(args, 2),
                                       GetTypeName(host, Arg(args, 3)).value, OrNull(Arg(args, 4)));
              f(args) == Fail(TypeMismatch(MessageHead(host, ctx) + "of one of the types: "
                                           + GetTypeName(host, Arg(args, 3)).value + MessageTail(host, ctx)))
    {
      SingleDefaultMessage(host, Arg(args, 0), Arg(args, 1), Arg(args, 2), Arg(args, 3), OrNull(Arg(args, 4)));
    }
    f
  }

  /** `errorIfNotTypes$`: the uncurried multi-type check with the default message function. A mismatch
      throws the default message with the resolved names, quoted and in order, after "of type: ". */
  function ErrorIfNotTypesUncurried(host: Host): (f: seq<JsValue> -> Outcome<JsError>)
    ensures forall args :: AllTypeRefs(RestFrom(args, 3)) && !AnyMatch(host, ResolveAll(host, RestFrom(args, 3)).value, Arg(args, 2)) ==>
              var ctx := MultiContext(host, Arg(args, 0), Arg(args, 1), Arg(args, 2), ResolveAll(host, RestFrom(args, 3)).value);
              f(args) == Fail(TypeMismatch(MessageHead(host, ctx) + "of type: "
                                           + QuotedList(ResolveAll(host, RestFrom(args, 3)).value) + MessageTail(host, ctx)))
  {
    var f := GetErrorIfNotTypesThrowerUncurried(host, DefaultFormatter(host));
    forall args | AllTypeRefs(RestFrom(args, 3)) && !AnyMatch(host, ResolveAll(host, RestFrom(args, 3)).value, Arg(args, 2))
      ensures var ctx := MultiContext(host, Arg(args, 0), Arg(args, 1), Arg(args, 2), ResolveAll(host, RestFrom(args, 3)).value);
              f(args) == Fail(TypeMismatch(MessageHead(host, ctx) + "of type: "
                                           + QuotedList(ResolveAll(host, RestFrom(args, 3)).value) + MessageTail(host, ctx)))
    {
      MultiDefaultMessage(host, Arg(args, 0), Arg(args, 1), Arg(args, 2), RestFrom(args, 3));
    }
    f
  }

  /** `getErrorIfNotTypeThrower(errorMessageCall)`: the single-type check, curried over its four
      declared parameters (the defaulted suffix does not count towards the arity). A first call with
      fewer than four arguments gives back a function; one with four or more runs the check on all. */
  function GetErrorIfNotTypeThrower(host: Host, fmt: Formatter): (c: Curried<Outcome<JsError>>)
    ensures forall args :: |args| < 4 ==> Feed(c, args).Awaiting? && Feed(c, args).next.bound == args
    ensures forall args :: 4 <= |args| ==> Feed(c, args) == Done(GetErrorIfNotTypeThrowerUncurried(host, fmt)(args))
  {
    MakeCurried(4, GetErrorIfNotTypeThrowerUncurried(host, fmt))
  }

  /** `getErrorIfNotTypesThrower(errorMessageCall)`: the multi-type check, curried until at least four
      arguments (context, value name, value and one type reference) are supplied. */
  function GetErrorIfNotTypesThrower(host: Host, fmt: Formatter): (c: Curried<Outcome<JsError>>)
    ensures forall args :: |args| < 4 ==> Feed(c, args).Awaiting? && Feed(c, args).next.bound == args
    ensures forall args :: 4 <= |args| ==> Feed(c, args) == Done(GetErrorIfNotTypesThrowerUncurried(host, fmt)(args))
  {
    MakeCurried(4, GetErrorIfNotTypesThrowerUncurried(host, fmt))
  }

  /** `errorIfNotType`: `errorIfNotType$` curried over four arguments. */
  function ErrorIfNotType(host: Host): (c: Curried<Outcome<JsError>>)
    ensures forall args :: |args| < 4 ==> Feed(c, args).Awaiting? && Feed(c, args).next.bound == args
    ensures forall args :: 4 <= |args| ==> Feed(c, args) == Done(ErrorIfNotTypeUncurried(host)(args))
  {
    GetErrorIfNotTypeThrower(host, DefaultFormatter(host))
  }

  /** `errorIfNotTypes`: `errorIfNotTypes$` curried over four arguments. */
  function ErrorIfNotTypes(host: Host): (c: Curried<Outcome<JsError>>)
    ensures forall args :: |args| < 4 ==> Feed(c, args).Awaiting? && Feed(c, args).next.bound == args
    ensures forall args :: 4 <= |args| ==> Feed(c, args) == Done(ErrorIfNotTypesUncurried(host)(args))
  {
    GetErrorIfNotTypesThrower(host, DefaultFormatter(host))
  }

  /** The curried single-type check gives the outcome and message of one full call, however its
      arguments are grouped, as soon as a call brings their count to four or more: the four arguments
      are the check's, a fifth is its suffix (`null` when omitted) and any further ones are ignored. */
  lemma SingleAnyGrouping(host: Host, fmt: Formatter, groups: seq<seq<JsValue>>,
                          contextName: JsValue, valueName: JsValue, value: JsValue, valueType: JsValue,
                          extra: seq<JsValue>)
    requires |groups| > 0 && |Flatten(groups[..|groups| - 1])| < 4
    requires Flatten(groups) == [contextName, valueName, value, valueType] + extra
    ensures FeedAll(GetErrorIfNotTypeThrower(host, fmt), groups)
         == Some(Done(IfNotType(host, fmt, contextName, valueName, value, valueType, OrNull(Arg(extra, 0)))))
  {
    var args := [contextName, valueName, value, valueType] + extra;
    FeedAllCompletes(GetErrorIfNotTypeThrower(host, fmt), groups);
    assert [] + Flatten(groups) == args;
    assert Arg(args, 4) == Arg(extra, 0);
  }

  /** The curried multi-type check, however the context, value name, value and the type references
      are grouped, runs once on all of them as soon as a group brings the count to four or more. */
  lemma MultiAnyGrouping(host: Host, fmt: Formatter, groups: seq<seq<JsValue>>,
                         contextName: JsValue, valueName: JsValue, value: JsValue,
                         valueTypes: seq<JsValue>)
    requires |groups| > 0 && |Flatten(groups[..|groups| - 1])| < 4
    requires |valueTypes| > 0
    requires Flatten(groups) == [contextName, valueName, value] + valueTypes
    ensures FeedAll(GetErrorIfNotTypesThrower(host, fmt), groups)
         == Some(Done(IfNotTypes(host, fmt, contextName, valueName, value, valueTypes)))
  {
    var c := GetErrorIfNotTypesThrower(host, fmt);
    FeedAllCompletes(c, groups);
    assert c.bound + Flatten(groups) == [contextName, valueName, value] + valueTypes;
    MultiFullCall(host, fmt, contextName, valueName, value, valueTypes);
  }

  /** One positional call of the uncurried multi-type check binds the first three arguments and takes
      the rest as the type references. */
  lemma MultiFullCall(host: Host, fmt: Formatter, contextName: JsValue, valueName: JsValue, value: JsValue,
                      valueTypes: seq<JsValue>)
    ensures GetErrorIfNotTypesThrowerUncurried(host, fmt)([contextName, valueName, value] + valueTypes)
         == IfNotTypes(host, fmt, contextName, valueName, value, valueTypes)
  {
    var args := [contextName, valueName, value] + valueTypes;
    assert Arg(args, 0) == contextName && Arg(args, 1) == valueName && Arg(args, 2) == value;
    assert RestFrom(args, 3) == valueTypes;
  }

  /** Arguments short of the arity, in any grouping, give back a function (the checks never run early). */
  lemma PartialCallsReturnFunctions(host: Host, fmt: Formatter, groups: seq<seq<JsValue>>)
    requires |Flatten(groups)| < 4
    ensures FeedAll(GetErrorIfNotTypeThrower(host, fmt), groups).Some?
    ensures FeedAll(GetErrorIfNotTypeThrower(host, fmt), groups).value.Awaiting?
    ensures FeedAll(GetErrorIfNotTypesThrower(host, fmt), groups).Some?
    ensures FeedAll(GetErrorIfNotTypesThrower(host, fmt), groups).value.Awaiting?
  {
    FeedAllPending(GetErrorIfNotTypeThrower(host, fmt), groups);
    FeedAllPending(GetErrorIfNotTypesThrower(host, fmt), groups);
  }

  /** The calls so far returned a function still waiting for arguments. */
  predicate ReturnsFunction(s: Option<Step<Outcome<JsError>>>) {
    s.Some? && s.value.Awaiting?
  }

  /** The completing call threw. */
  predicate Throws(s: Option<Step<Outcome<JsError>>>) {
    s.Some? && s.value.Done? && s.value.result.Fail?
  }

  /** `errorIfNotType`, like any single-type thrower, gives one full call's outcome however its
      arguments are grouped, with a fifth argument as the suffix. */
  lemma DefaultSingleAnyGrouping(host: Host, groups: seq<seq<JsValue>>,
                                 contextName: JsValue, valueName: JsValue, value: JsValue, valueType: JsValue,
                                 extra: seq<JsValue>)
    requires |groups| > 0 && |Flatten(groups[..|groups| - 1])| < 4
    requires Flatten(groups) == [contextName, valueName, value, valueType] + extra
    ensures FeedAll(ErrorIfNotType(host), groups)
         == Some(Done(IfNotType(host, DefaultFormatter(host), contextName, valueName, value, valueType,
                                OrNull(Arg(extra, 0)))))
  {
    SingleAnyGrouping(host, DefaultFormatter(host), groups, contextName, valueName, value, valueType, extra);
  }

  /** `errorIfNotTypes`, like any multi-type thrower, runs once on all arguments as soon as a call
      brings their count to four or more, however they are grouped. */
  lemma DefaultMultiAnyGrouping(host: Host, groups: seq<seq<JsValue>>,
                                contextName: JsValue, valueName: JsValue, value: JsValue,
                                valueTypes: seq<JsValue>)
    requires |groups| > 0 && |Flatten(groups[..|groups| - 1])| < 4
    requires |valueTypes| > 0
    requires Flatten(groups) == [contextName, valueName, value] + valueTypes
    ensures FeedAll(ErrorIfNotTypes(host), groups)
         == Some(Done(IfNotTypes(host, DefaultFormatter(host), contextName, valueName, value, valueTypes)))
  {
    MultiAnyGrouping(host, DefaultFormatter(host), groups, contextName, valueName, value, valueTypes);
  }

  /** The calling pattern of the library's own tests for the multi-type check: the context name alone, then the value name, the
      value and every type reference in one call; the second call runs the multi-type check. */
  lemma MultiTwoCalls(host: Host, fmt: Formatter, c: JsValue, n: JsValue, v: JsValue, ts: seq<JsValue>)
    requires |ts| > 0
    ensures FeedAll(GetErrorIfNotTypesThrower(host, fmt), [[c], [n, v] + ts])
         == Some(Done(IfNotTypes(host, fmt, c, n, v, ts)))
  {
    var g := [[c], [n, v] + ts];
    FlattenOne([c]);
    FlattenTwo([c], [n, v] + ts);
    assert g[..1] == [[c]];
    MultiAnyGrouping(host, fmt, g, c, n, v, ts);
  }

  /** The calling pattern of the library's own tests for the single-type check: the context name alone,
      then the value name, the value and the type reference in one call, which runs the check. */
  lemma SingleTwoCalls(host: Host, fmt: Formatter, c: JsValue, n: JsValue, v: JsValue, t: JsValue)
    ensures FeedAll(GetErrorIfNotTypeThrower(host, fmt), [[c], [n, v, t]])
         == Some(Done(IfNotType(host, fmt, c, n, v, t, Null)))
  {
    var g := [[c], [n, v, t]];
    FlattenOne([c]);
    FlattenTwo([c], [n, v, t]);
    assert g[..1] == [[c]];
    assert Flatten(g) == [c, n, v, t] + [];
    SingleAnyGrouping(host, fmt, g, c, n, v, t, []);
  }

  /** The library's own scenarios for `errorIfNotType('SomeContext')` (here for any context and value
      name): the first call returns a function; then checking a value `isType` rejects under "Array"
      against the constructor `Array` throws, and checking one it accepts returns normally. */
  lemma SingleScenarios(host: Host, c: JsValue, n: JsValue, str: JsValue, arr: JsValue, arrayCtor: JsValue)
    requires arrayCtor == Func("Array")
    requires host.isType("Array", arr) && !host.isType("Array", str)
    ensures ReturnsFunction(FeedAll(ErrorIfNotType(host), [[c]]))
    ensures Throws(FeedAll(ErrorIfNotType(host), [[c], [n, str, arrayCtor]]))
    ensures FeedAll(ErrorIfNotType(host), [[c], [n, arr, arrayCtor]]) == Some(Done(Pass))
  {
    FlattenOne([c]);
    FeedAllPending(ErrorIfNotType(host), [[c]]);
    SingleTwoCalls(host, DefaultFormatter(host), c, n, str, arrayCtor);
    SingleTwoCalls(host, DefaultFormatter(host), c, n, arr, arrayCtor);
  }

  /** The library's own scenario for `errorIfNotTypes('SomeContext')`, for any message function: with all
      three type references arriving in the second call, a value none of "Array", "Function", "Boolean"
      accepts throws. */
  lemma MultiScenarioThrowsFor(host: Host, fmt: Formatter, c: JsValue, n: JsValue, str: JsValue,
                               arrayCtor: JsValue, functionCtor: JsValue, booleanCtor: JsValue)
    requires arrayCtor == Func("Array") && functionCtor == Func("Function") && booleanCtor == Func("Boolean")
    requires !host.isType("Array", str) && !host.isType("Function", str) && !host.isType("Boolean", str)
    ensures Throws(FeedAll(GetErrorIfNotTypesThrower(host, fmt), [[c], [n, str, arrayCtor, functionCtor, booleanCtor]]))
  {
    var ts := [arrayCtor, functionCtor, booleanCtor];
    assert IfNotTypes(host, fmt, c, n, str, ts).Fail? by {
      assert GetTypeName(host, ts[0]).value == "Array";
      assert GetTypeName(host, ts[1]).value == "Function";
      assert GetTypeName(host, ts[2]).value == "Boolean";
      assert AllTypeRefs(ts);
    }
    assert [n, str] + ts == [n, str, arrayCtor, functionCtor, booleanCtor];
    MultiTwoCalls(host, fmt, c, n, str, ts);
  }

  /** The companion scenario: a value "Array" accepts passes although `Function` is listed first. */
  lemma MultiScenarioPassesFor(host: Host, fmt: Formatter, c: JsValue, n: JsValue, arr: JsValue,
                               arrayCtor: JsValue, functionCtor: JsValue, booleanCtor: JsValue)
    requires arrayCtor == Func("Array") && functionCtor == Func("Function") && booleanCtor == Func("Boolean")
    requires host.isType("Array", arr)
    ensures FeedAll(GetErrorIfNotTypesThrower(host, fmt), [[c], [n, arr, functionCtor, arrayCtor, booleanCtor]])
         == Some(Done(Pass))
  {
    var ts := [functionCtor, arrayCtor, booleanCtor];
    assert IfNotTypes(host, fmt, c, n, arr, ts).Pass? by {
      assert AllTypeRefs(ts);
      assert GetTypeName(host, ts[1]).value == "Array";
      assert 0 <= 1 < |ts| && host.isType(GetTypeName(host, ts[1]).value, arr);
    }
    assert [n, arr] + ts == [n, arr, functionCtor, arrayCtor, booleanCtor];
    MultiTwoCalls(host, fmt, c, n, arr, ts);
  }

  /** Both scenarios as the tests run them, on `errorIfNotTypes`. */
  lemma MultiScenarios(host: Host, c: JsValue, n: JsValue, str: JsValue, arr: JsValue,
                       arrayCtor: JsValue, functionCtor: JsValue, booleanCtor: JsValue)
    requires arrayCtor == Func("Array") && functionCtor == Func("Function") && booleanCtor == Func("Boolean")
    requires host.isType("Array", arr)
    requires !host.isType("Array", str) && !host.isType("Function", str) && !host.isType("Boolean", str)
    ensures Throws(FeedAll(ErrorIfNotTypes(host), [[c], [n, str, arrayCtor, functionCtor, booleanCtor]]))
    ensures FeedAll(ErrorIfNotTypes(host), [[c], [n, arr, functionCtor, arrayCtor, booleanCtor]]) == Some(Done(Pass))
  {
    MultiScenarioThrowsFor(host, DefaultFormatter(host), c, n, str, arrayCtor, functionCtor, booleanCtor);
    MultiScenarioPassesFor(host, DefaultFormatter(host), c, n, arr, arrayCtor, functionCtor, booleanCtor);
  }
}
