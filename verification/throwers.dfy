/** The checks every factory builds: the single-type check and the multi-type check.
    Both API revisions (the curried one and the context-first one) bind their arguments
    differently but run exactly these. */
module Throwers {
  import opened Wrappers
  import opened JsValues
  import opened TypeNames
  import opened Messages

  /** `throw new Error(errorMessageCall(ctx))`: a message function that throws propagates its own
      error; otherwise the check fails with a type-mismatch error carrying the rendered message. */
  function Raise(message: Result<string, JsError>): (o: Outcome<JsError>)
    ensures o.Fail?
  {
    match message
    case Success(m) => Fail(TypeMismatch(m))
    case Failure(e) => Fail(e)
  }

  /** The context of a failed single-type check. */
  function SingleContext(host: Host, contextName: JsValue, valueName: JsValue, value: JsValue,
                         expectedTypeName: string, messageSuffix: JsValue): TemplateContext
  {
    TemplateContext(contextName, valueName, value, Str(expectedTypeName), Str(host.typeOf(value)), messageSuffix)
  }

  /** The context of a failed multi-type check: the ordered name list and no suffix. */
  function MultiContext(host: Host, contextName: JsValue, valueName: JsValue, value: JsValue,
                        expectedTypeNames: seq<string>): TemplateContext
  {
    TemplateContext(contextName, valueName, value, Arr(StrAll(expectedTypeNames)), Str(host.typeOf(value)), Undefined)
  }

  /** `expectedTypeNames.some(name => isType(name, value))`, scanning left to right. */
  function AnyMatch(host: Host, names: seq<string>, value: JsValue): (b: bool)
    ensures b <==> exists i :: 0 <= i < |names| && host.isType(names[i], value)
  {
    if |names| == 0 then false
    else if host.isType(names[0], value) then
      assert host.isType(names[0], value);
      true
    else
      var b := AnyMatch(host, names[1..], value);
      assert b ==> exists i :: 0 <= i < |names| && host.isType(names[i], value) by {
        if b {
          var j :| 0 <= j < |names[1..]| && host.isType(names[1..][j], value);
          assert names[j + 1] == names[1..][j];
        }
      }
      assert (exists i :: 0 <= i < |names| && host.isType(names[i], value)) ==> b by {
        if exists i :: 0 <= i < |names| && host.isType(names[i], value) {
          var i :| 0 <= i < |names| && host.isType(names[i], value);
          assert i > 0;
          assert names[1..][i - 1] == names[i];
        }
      }
      b
  }

  /** The single-type check (`errorIfNotType` once all arguments are bound). It resolves the type
      reference first (a rejected reference throws), returns normally exactly when `isType` accepts the
      value under the resolved name, and otherwise fails with the message function's rendering of
      the full context. */
  function IfNotType(host: Host, fmt: Formatter, contextName: JsValue, valueName: JsValue, value: JsValue,
                     valueType: JsValue, messageSuffix: JsValue): (r: Outcome<JsError>)
    ensures r.Pass? <==> IsTypeRef(valueType) && host.isType(GetTypeName(host, valueType).value, value)
    ensures !IsTypeRef(valueType) ==> r == Fail(InvalidTypeRef(InvalidRefMessage(host, valueType)))
    ensures IsTypeRef(valueType) && !host.isType(GetTypeName(host, valueType).value, value) ==>
      r == Raise(fmt(SingleContext(host, contextName, valueName, value,
                                   GetTypeName(host, valueType).value, messageSuffix)))
  {
    match GetTypeName(host, valueType)
    case Failure(e) => Fail(e)
    case Success(expectedTypeName) =>
      if host.isType(expectedTypeName, value) then Pass
      else Raise(fmt(SingleContext(host, contextName, valueName, value, expectedTypeName, messageSuffix)))
  }

  /** The multi-type check (`errorIfNotTypes` once all arguments are bound). Every reference is resolved
      before any matching, so one rejected reference throws even when another would match. The check
      returns normally exactly when some resolved name accepts the value (so an empty list always fails),
      and otherwise fails with the rendering of a context holding the ordered name list and no suffix. */
  function IfNotTypes(host: Host, fmt: Formatter, contextName: JsValue, valueName: JsValue, value: JsValue,
                      valueTypes: seq<JsValue>): (r: Outcome<JsError>)
    ensures r.Pass? <==>
      AllTypeRefs(valueTypes) &&
      exists i :: 0 <= i < |valueTypes| && host.isType(GetTypeName(host, valueTypes[i]).value, value)
    ensures |valueTypes| == 0 ==> r.Fail?
    ensures !AllTypeRefs(valueTypes) ==>
      r == Fail(InvalidTypeRef(InvalidRefMessage(host, valueTypes[FirstInvalid(valueTypes)])))
    ensures AllTypeRefs(valueTypes) && r.Fail? ==>
      r == Raise(fmt(MultiContext(host, contextName, valueName, value, ResolveAll(host, valueTypes).value)))
  {
    match ResolveAll(host, valueTypes)
    case Failure(e) => Fail(e)
    case Success(expectedTypeNames) =>
      if AnyMatch(host, expectedTypeNames, value) then Pass
      else
        assert !exists i :: 0 <= i < |valueTypes| && host.isType(GetTypeName(host, valueTypes[i]).value, value) by {
          forall i | 0 <= i < |valueTypes|
            ensures !host.isType(GetTypeName(host, valueTypes[i]).value, value)
          {
            assert Success(expectedTypeNames[i]) == GetTypeName(host, valueTypes[i]);
          }
        }
        Raise(fmt(MultiContext(host, contextName, valueName, value, expectedTypeNames)))
  }

  /** With every reference valid, the multi-type check passes exactly when a resolved name accepts the value. */
  lemma MultiPassesOnMatch(host: Host, fmt: Formatter, contextName: JsValue, valueName: JsValue, value: JsValue,
                           valueTypes: seq<JsValue>)
    requires AllTypeRefs(valueTypes)
    ensures IfNotTypes(host, fmt, contextName, valueName, value, valueTypes).Pass?
        <==> AnyMatch(host, ResolveAll(host, valueTypes).value, value)
  {
  }

  /** A rejected reference throws the same error from the single-type check and from the multi-type
      check against the one-element list. */
  lemma SingleIsMultiOfOneRejected(host: Host, fmt: Formatter, contextName: JsValue, valueName: JsValue,
                                   value: JsValue, valueType: JsValue, messageSuffix: JsValue)
    requires !IsTypeRef(valueType)
    ensures IfNotType(host, fmt, contextName, valueName, value, valueType, messageSuffix)
         == IfNotTypes(host, fmt, contextName, valueName, value, [valueType])
  {
    assert [valueType][0] == valueType;
    assert FirstInvalid([valueType]) == 0;
  }

  /** A single-type check and the multi-type check against the one-element list agree on whether
      they pass. */
  lemma SingleIsMultiOfOne(host: Host, fmt: Formatter, contextName: JsValue, valueName: JsValue,
                           value: JsValue, valueType: JsValue, messageSuffix: JsValue)
    ensures IfNotType(host, fmt, contextName, valueName, value, valueType, messageSuffix).Pass?
        <==> IfNotTypes(host, fmt, contextName, valueName, value, [valueType]).Pass?
  {
    if !IsTypeRef(valueType) {
      SingleIsMultiOfOneRejected(host, fmt, contextName, valueName, value, valueType, messageSuffix);
    } else {
      var name := GetTypeName(host, valueType).value;
      assert [valueType][0] == valueType;
      assert ResolveAll(host, [valueType]).value == [name];
      MultiPassesOnMatch(host, fmt, contextName, valueName, value, [valueType]);
      assert AnyMatch(host, [name], value) <==> host.isType(name, value) by {
        assert [name][0] == name;
      }
    }
  }

  /** A name list accepts a value exactly when one of its two halves does. */
  lemma AnyMatchAppend(host: Host, a: seq<string>, b: seq<string>, value: JsValue)
    ensures AnyMatch(host, a + b, value) <==> AnyMatch(host, a, value) || AnyMatch(host, b, value)
  {
    if AnyMatch(host, a + b, value) {
      var i :| 0 <= i < |a + b| && host.isType((a + b)[i], value);
      if i < |a| { assert (a + b)[i] == a[i]; } else { assert (a + b)[i] == b[i - |a|]; }
    }
    if AnyMatch(host, a, value) {
      var i :| 0 <= i < |a| && host.isType(a[i], value);
      assert (a + b)[i] == a[i];
    }
    if AnyMatch(host, b, value) {
      var i :| 0 <= i < |b| && host.isType(b[i], value);
      assert (a + b)[|a| + i] == b[i];
    }
  }

  /** Splitting the candidate list: with every reference valid, a value passes the concatenation of
      two lists exactly when it passes one of them. */
  lemma MultiAppend(host: Host, fmt: Formatter, contextName: JsValue, valueName: JsValue, value: JsValue,
                    xs: seq<JsValue>, ys: seq<JsValue>)
    requires AllTypeRefs(xs) && AllTypeRefs(ys)
    ensures IfNotTypes(host, fmt, contextName, valueName, value, xs + ys).Pass?
        <==> IfNotTypes(host, fmt, contextName, valueName, value, xs).Pass?
             || IfNotTypes(host, fmt, contextName, valueName, value, ys).Pass?
  {
    ResolveAllAppend(host, xs, ys);
    assert AllTypeRefs(xs + ys);
    MultiPassesOnMatch(host, fmt, contextName, valueName, value, xs + ys);
    MultiPassesOnMatch(host, fmt, contextName, valueName, value, xs);
    MultiPassesOnMatch(host, fmt, contextName, valueName, value, ys);
    AnyMatchAppend(host, ResolveAll(host, xs).value, ResolveAll(host, ys).value, value);
  }

  /** With the default message function, a failed single-type check throws a type-mismatch error whose
      message names the value (qualified by a truthy context name), the expected name after
      "of one of the types: ", the received type and the value. */
  lemma SingleDefaultMessage(host: Host, contextName: JsValue, valueName: JsValue, value: JsValue,
                             valueType: JsValue, messageSuffix: JsValue)
    requires IsTypeRef(valueType)
    requires !host.isType(GetTypeName(host, valueType).value, value)
    ensures var ctx := SingleContext(host, contextName, valueName, value, GetTypeName(host, valueType).value, messageSuffix);
            IfNotType(host, DefaultFormatter(host), contextName, valueName, value, valueType, messageSuffix)
            == Fail(TypeMismatch(MessageHead(host, ctx) + "of one of the types: " + GetTypeName(host, valueType).value
                                 + MessageTail(host, ctx)))
  {
  }

  /** With the default message function, a failed multi-type check (all references valid) throws a
      type-mismatch error whose message lists the resolved names after "of type: ", quoted and in
      order; the list reads back to exactly those names when none contains a backtick. */
  lemma MultiDefaultMessage(host: Host, contextName: JsValue, valueName: JsValue, value: JsValue,
                            valueTypes: seq<JsValue>)
    requires AllTypeRefs(valueTypes)
    requires !AnyMatch(host, ResolveAll(host, valueTypes).value, value)
    ensures var names := ResolveAll(host, valueTypes).value;
            var ctx := MultiContext(host, contextName, valueName, value, names);
            IfNotTypes(host, DefaultFormatter(host), contextName, valueName, value, valueTypes)
            == Fail(TypeMismatch(MessageHead(host, ctx) + "of type: " + QuotedList(names) + MessageTail(host, ctx)))
            && (NoBackticks(names) ==> ParseQuotedList(QuotedList(names)) == Some(names))
  {
    var names := ResolveAll(host, valueTypes).value;
    MultiTypesToStringOfNames(host, names);
    var ctx := MultiContext(host, contextName, valueName, value, names);
    assert ResolveAll(host, ctx.expectedTypeName.elems).value == names;
    if NoBackticks(names) {
      QuotedListRoundTrip(names);
    }
  }

  /** Checking 42 against the constructor `String` in context "Ctx" throws a message carrying "`Ctx.v`",
      the expected name "String" and the received name "Number". */
  lemma MismatchScenario(host: Host)
    requires host.typeOf(Num(42)) == "Number"
    requires !host.isType("String", Num(42))
    ensures var r := IfNotType(host, DefaultFormatter(host), Str("Ctx"), Str("v"), Num(42), Func("String"), Null);
            r.Fail? && r.error.TypeMismatch? &&
            r.error.message == "`Ctx.v` is not " + "of one of the types: " + "String"
                               + ".  Type received: " + "Number" + ".  Value: " + host.render(Num(42)) + ";"
  {
    var ctx := SingleContext(host, Str("Ctx"), Str("v"), Num(42), "String", Null);
    assert MessageHead(host, ctx) == "`Ctx.v` is not ";
  }
}
