/** The diagnostic context and the default message template (`defaultErrorMessageCall`). */
module Messages {
  import opened Wrappers
  import opened JsValues
  import opened TypeNames
  import opened Strings

  /** The object the throwers hand to the message function. A field the object lacks reads as `undefined`.
      `expectedTypeName` is a name for the single-type check and an array of names for the multi-type one. */
  datatype TemplateContext = TemplateContext(
    contextName: JsValue,
    valueName: JsValue,
    value: JsValue,
    expectedTypeName: JsValue,
    foundTypeName: JsValue,
    messageSuffix: JsValue)

  /** A message function (`errorMessageCall`): renders a context, or throws. */
  type Formatter = TemplateContext -> Result<string, JsError>

  /** Everything before the type phrase: the backticked (optionally context-qualified) value name. */
  function MessageHead(host: Host, ctx: TemplateContext): string {
    (if Truthy(ctx.contextName) then "`" + ToStr(host, ctx.contextName) + "." else "`")
    + ToStr(host, ctx.valueName) + "` is not "
  }

  /** Everything after the expected type names: received type, value, and the optional suffix. */
  function MessageTail(host: Host, ctx: TemplateContext): string {
    ".  Type received: " + ToStr(host, ctx.foundTypeName) + ".  Value: " + ToStr(host, ctx.value) + ";"
    + SuffixCopy(host, ctx.messageSuffix)
  }

  /** The optional closing hint: "  <suffix>;" for a truthy suffix, nothing otherwise. */
  function SuffixCopy(host: Host, messageSuffix: JsValue): string {
    if Truthy(messageSuffix) then "  " + ToStr(host, messageSuffix) + ";" else ""
  }

  /** The type phrase: "of type: " before an array's quoted names, "of one of the types: " before anything else. */
  function TypesCopy(expectedTypeName: JsValue): string {
    if expectedTypeName.Arr? then "of type: " else "of one of the types: "
  }

  /** `defaultErrorMessageCall`. The type phrase branches on whether `expectedTypeName` is an array:
      an array reads "of type: " followed by its `multiTypesToString` rendering, anything else reads
      "of one of the types: " followed by the value itself. (The labels are the other way round from
      what the wording suggests; this is what the code does.) Rendering an array whose element is not
      a type reference throws, as `getTypeName` does. */
  function DefaultErrorMessageCall(host: Host, ctx: TemplateContext): (r: Result<string, JsError>)
    ensures r.Failure? <==> ctx.expectedTypeName.Arr? && !AllTypeRefs(ctx.expectedTypeName.elems)
    ensures r.Failure? ==>
      r.error == InvalidTypeRef(InvalidRefMessage(host, ctx.expectedTypeName.elems[FirstInvalid(ctx.expectedTypeName.elems)]))
    ensures r.Success? && !ctx.expectedTypeName.Arr? ==>
      r.value == MessageHead(host, ctx) + "of one of the types: " + ToStr(host, ctx.expectedTypeName) + MessageTail(host, ctx)
    ensures r.Success? && ctx.expectedTypeName.Arr? ==>
      r.value == MessageHead(host, ctx) + "of type: "
                 + QuotedList(ResolveAll(host, ctx.expectedTypeName.elems).value) + MessageTail(host, ctx)
  {
    var isMultiTypeNames := ctx.expectedTypeName.Arr?;
    var typesToMatch :=
      if isMultiTypeNames then MultiTypesToString(host, ctx.expectedTypeName.elems)
      else Success(ToStr(host, ctx.expectedTypeName));
    match typesToMatch
    case Failure(e) => Failure(e)
    case Success(typesToMatchCopy) =>
      Success(MessageHead(host, ctx) + TypesCopy(ctx.expectedTypeName) + typesToMatchCopy + MessageTail(host, ctx))
  }

  /** The message opens with the backticked value name, qualified by the context name exactly when
      the context name is truthy, followed by " is not ". */
  lemma MessageOpening(host: Host, ctx: TemplateContext)
    requires DefaultErrorMessageCall(host, ctx).Success?
    ensures var m := DefaultErrorMessageCall(host, ctx).value;
            if Truthy(ctx.contextName)
            then StartsWith(m, "`" + ToStr(host, ctx.contextName) + "." + ToStr(host, ctx.valueName) + "` is not ")
            else StartsWith(m, "`" + ToStr(host, ctx.valueName) + "` is not ")
  {
    var h := MessageHead(host, ctx);
    StartsWithAppend(h, h, TypesCopy(ctx.expectedTypeName));
    var r := DefaultErrorMessageCall(host, ctx);
    var m := r.value;
    var rest := m[|h|..];
    assert m == h + rest by {
      var tm := if ctx.expectedTypeName.Arr? then QuotedList(ResolveAll(host, ctx.expectedTypeName.elems).value)
                else ToStr(host, ctx.expectedTypeName);
      assert m == h + TypesCopy(ctx.expectedTypeName) + tm + MessageTail(host, ctx);
    }
    StartsWithAppend(h, h, rest);
  }

  /** The message closes with ".  Value: <value>;", followed by "  <suffix>;" exactly when the suffix is truthy. */
  lemma MessageClosing(host: Host, ctx: TemplateContext)
    requires DefaultErrorMessageCall(host, ctx).Success?
    ensures var m := DefaultErrorMessageCall(host, ctx).value;
            if Truthy(ctx.messageSuffix)
            then EndsWith(m, ".  Value: " + ToStr(host, ctx.value) + ";" + ("  " + ToStr(host, ctx.messageSuffix) + ";"))
            else EndsWith(m, ".  Value: " + ToStr(host, ctx.value) + ";")
  {
    var m := DefaultErrorMessageCall(host, ctx).value;
    var tm := if ctx.expectedTypeName.Arr? then QuotedList(ResolveAll(host, ctx.expectedTypeName.elems).value)
              else ToStr(host, ctx.expectedTypeName);
    var front := MessageHead(host, ctx) + TypesCopy(ctx.expectedTypeName) + tm;
    var t := MessageTail(host, ctx);
    assert m == front + t;
    var p1 := ".  Type received: " + ToStr(host, ctx.foundTypeName);
    var v := ToStr(host, ctx.value);
    var sc := SuffixCopy(host, ctx.messageSuffix);
    assert t == p1 + ".  Value: " + v + ";" + sc;
    EndsWithAppend(p1, ".  Value: ");
    EndsWithExtend(p1 + ".  Value: ", ".  Value: ", v);
    EndsWithExtend(p1 + ".  Value: " + v, ".  Value: " + v, ";");
    EndsWithExtend(p1 + ".  Value: " + v + ";", ".  Value: " + v + ";", sc);
    EndsWithAppend(front, t);
    EndsWithTrans(m, t, ".  Value: " + v + ";" + sc);
    if !Truthy(ctx.messageSuffix) {
      assert ".  Value: " + v + ";" + sc == ".  Value: " + v + ";";
    }
  }

  /** The default message function, as a value that can be handed to the thrower factories. */
  function DefaultFormatter(host: Host): Formatter {
    ctx => DefaultErrorMessageCall(host, ctx)
  }

  /** A truthy suffix only appends "  <suffix>;" to the message the same context gives without one. */
  lemma SuffixAppends(host: Host, ctx: TemplateContext, suffix: JsValue)
    requires Truthy(suffix)
    ensures var with := DefaultErrorMessageCall(host, ctx.(messageSuffix := suffix));
            var without := DefaultErrorMessageCall(host, ctx.(messageSuffix := Null));
            with.Success? == without.Success? &&
            (with.Success? ==> with.value == without.value + "  " + ToStr(host, suffix) + ";")
  {
    var cw := ctx.(messageSuffix := suffix);
    var co := ctx.(messageSuffix := Null);
    if DefaultErrorMessageCall(host, cw).Success? {
      var extra := "  " + ToStr(host, suffix) + ";";
      var front := MessageHead(host, co) + TypesCopy(co.expectedTypeName);
      var tm := if co.expectedTypeName.Arr? then QuotedList(ResolveAll(host, co.expectedTypeName.elems).value)
                else ToStr(host, co.expectedTypeName);
      var core := ".  Type received: " + ToStr(host, co.foundTypeName) + ".  Value: " + ToStr(host, co.value) + ";";
      assert MessageTail(host, co) == core;
      assert MessageTail(host, cw) == core + extra;
      assert MessageHead(host, cw) == MessageHead(host, co);
      AppendAssoc(front + tm, core, extra);
    }
  }

  /** Every falsy suffix (`null`, `undefined`, `""`, `false`, `0`) gives the same message. */
  lemma FalsySuffixesAgree(host: Host, ctx: TemplateContext, s1: JsValue, s2: JsValue)
    requires !Truthy(s1) && !Truthy(s2)
    ensures DefaultErrorMessageCall(host, ctx.(messageSuffix := s1))
         == DefaultErrorMessageCall(host, ctx.(messageSuffix := s2))
  {
  }

  /** A truthy context name only inserts "<contextName>." after the opening backtick. */
  lemma ContextInserts(host: Host, ctx: TemplateContext, contextName: JsValue)
    requires Truthy(contextName)
    ensures var with := DefaultErrorMessageCall(host, ctx.(contextName := contextName));
            var without := DefaultErrorMessageCall(host, ctx.(contextName := Undefined));
            with.Success? == without.Success? &&
            (with.Success? ==>
               |without.value| > 0 && with.value == "`" + ToStr(host, contextName) + "." + without.value[1..])
  {
    var cw := ctx.(contextName := contextName);
    var co := ctx.(contextName := Undefined);
    var with := DefaultErrorMessageCall(host, cw);
    var without := DefaultErrorMessageCall(host, co);
    if with.Success? {
      var rest := MessageRest(host, ctx);
      var vn := ToStr(host, ctx.valueName) + "` is not ";
      var open := "`" + ToStr(host, contextName) + ".";
      MessageSplit(host, cw);
      MessageSplit(host, co);
      assert MessageHead(host, cw) == open + vn;
      assert MessageHead(host, co) == "`" + vn;
      AppendAssoc("`", vn, rest);
      assert without.value[1..] == vn + rest;
      AppendAssoc(open, vn, rest);
    }
  }

  /** Everything after the head: type phrase, names and tail. */
  function MessageRest(host: Host, ctx: TemplateContext): string
    requires DefaultErrorMessageCall(host, ctx).Success?
  {
    var tm := if ctx.expectedTypeName.Arr? then QuotedList(ResolveAll(host, ctx.expectedTypeName.elems).value)
              else ToStr(host, ctx.expectedTypeName);
    TypesCopy(ctx.expectedTypeName) + tm + MessageTail(host, ctx)
  }

  lemma MessageSplit(host: Host, ctx: TemplateContext)
    requires DefaultErrorMessageCall(host, ctx).Success?
    ensures DefaultErrorMessageCall(host, ctx).value == MessageHead(host, ctx) + MessageRest(host, ctx)
  {
    var tm := if ctx.expectedTypeName.Arr? then QuotedList(ResolveAll(host, ctx.expectedTypeName.elems).value)
              else ToStr(host, ctx.expectedTypeName);
    var h := MessageHead(host, ctx);
    AppendAssoc(h, TypesCopy(ctx.expectedTypeName), tm);
    AppendAssoc(h, TypesCopy(ctx.expectedTypeName) + tm, MessageTail(host, ctx));
  }

  /** Every falsy context name gives the same message. */
  lemma FalsyContextsAgree(host: Host, ctx: TemplateContext, c1: JsValue, c2: JsValue)
    requires !Truthy(c1) && !Truthy(c2)
    ensures DefaultErrorMessageCall(host, ctx.(contextName := c1))
         == DefaultErrorMessageCall(host, ctx.(contextName := c2))
  {
  }

  /** The swapped labels: a lone name `n` reads "of one of the types: n", while the one-element list
      `[n]` reads "of type: `n`"; head and tail of the two messages agree. */
  lemma SingleAndListLabels(host: Host, ctx: TemplateContext, n: string)
    ensures DefaultErrorMessageCall(host, ctx.(expectedTypeName := Str(n)))
         == Success(MessageHead(host, ctx) + "of one of the types: " + n + MessageTail(host, ctx))
    ensures DefaultErrorMessageCall(host, ctx.(expectedTypeName := Arr([Str(n)])))
         == Success(MessageHead(host, ctx) + "of type: " + Quote(n) + MessageTail(host, ctx))
  {
    MultiTypesToStringOfNames(host, [n]);
    assert StrAll([n]) == [Str(n)];
    assert QuotedList([n]) == Quote(n);
  }

  /** The message for a list of names, with the list readable back from it: the names between
      "of type: " and the tail parse back to exactly the names given, when none contains a backtick. */
  lemma ListMessageReadsBack(host: Host, ctx: TemplateContext, names: seq<string>)
    requires NoBackticks(names)
    ensures var r := DefaultErrorMessageCall(host, ctx.(expectedTypeName := Arr(StrAll(names))));
            r.Success? &&
            exists list :: r.value == MessageHead(host, ctx) + "of type: " + list + MessageTail(host, ctx)
                           && ParseQuotedList(list) == Some(names)
  {
    MultiTypesToStringOfNames(host, names);
    QuotedListRoundTrip(names);
    var r := DefaultErrorMessageCall(host, ctx.(expectedTypeName := Arr(StrAll(names))));
    assert r.value == MessageHead(host, ctx) + "of type: " + QuotedList(names) + MessageTail(host, ctx);
  }

  /** An object lacking every field (the library's test passes the number 0) still renders: every
      field reads `undefined`, and a lone `undefined` takes the "of one of the types: " label. */
  lemma EmptyContextRenders(host: Host)
    ensures DefaultErrorMessageCall(host, TemplateContext(Undefined, Undefined, Undefined, Undefined, Undefined, Undefined))
         == Success(("`" + "undefined" + "` is not ") + "of one of the types: " + "undefined"
                    + (".  Type received: " + "undefined" + ".  Value: " + "undefined" + ";"))
  {
    var ctx := TemplateContext(Undefined, Undefined, Undefined, Undefined, Undefined, Undefined);
    assert MessageHead(host, ctx) == "`" + "undefined" + "` is not ";
    assert MessageTail(host, ctx) == ".  Type received: " + "undefined" + ".  Value: " + "undefined" + ";" by {
      assert SuffixCopy(host, Undefined) == "";
    }
  }

  /** The message for a context whose fields are all strings, with a non-empty context name, a single
      expected name and no suffix, spelled out piece by piece. */
  lemma StringFieldsMessage(host: Host, c: string, vn: string, v: string, e: string, f: string)
    requires c != ""
    ensures DefaultErrorMessageCall(host, TemplateContext(Str(c), Str(vn), Str(v), Str(e), Str(f), Undefined))
         == Success(("`" + c + "." + vn + "` is not ") + "of one of the types: " + e
                    + (".  Type received: " + f + ".  Value: " + v + ";"))
  {
    var ctx := TemplateContext(Str(c), Str(vn), Str(v), Str(e), Str(f), Undefined);
    assert MessageHead(host, ctx) == "`" + c + "." + vn + "` is not ";
    assert MessageTail(host, ctx) == ".  Type received: " + f + ".  Value: " + v + ";" by {
      assert SuffixCopy(host, Undefined) == "";
    }
  }

  /** The rendering the library's own test pins, character for character (no suffix given). */
  lemma PinnedMessage(host: Host)
    ensures DefaultErrorMessageCall(host, TemplateContext(
              Str("hello"), Str("someString"), Str("hello world"), Str("String"), Str("String"), Undefined))
         == Success(("`" + "hello" + "." + "someString" + "` is not ") + "of one of the types: " + "String"
                    + (".  Type received: " + "String" + ".  Value: " + "hello world" + ";"))
  {
    StringFieldsMessage(host, "hello", "someString", "hello world", "String", "String");
  }
}
