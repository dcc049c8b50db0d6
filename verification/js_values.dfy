/** The JavaScript values the library receives, and the host primitives it borrows from `fjl`. */
module JsValues {

  /** A JavaScript value, as far as the library distinguishes values.
      `Func(name)` is any function (in particular a constructor) whose `.name` is `name`;
      `Obj(id)` is any other object, told apart by an identity. */
  datatype JsValue =
    | Undefined
    | Null
    | Bool(b: bool)
    | Num(n: int)
    | Str(s: string)
    | Func(name: string)
    | Arr(elems: seq<JsValue>)
    | Obj(id: nat)

  /** The primitives of the `fjl` library and of the JavaScript engine that are not part of this model:
      `typeOf` (the runtime type name of a value), `isType` (fjl's `_isType`, applied to a type name)
      and `render`, the string conversion of the values whose conversion is not fixed below
      (numbers, functions, arrays and objects). */
  datatype Host = Host(
    typeOf: JsValue -> string,
    isType: (string, JsValue) -> bool,
    render: JsValue -> string)

  /** JavaScript truthiness (`if (v)`, `v ? a : b`); integers only, so NaN and -0 do not arise. */
  predicate Truthy(v: JsValue) {
    match v
    case Undefined => false
    case Null => false
    case Bool(b) => b
    case Num(n) => n != 0
    case Str(s) => s != ""
    case _ => true
  }

  /** String conversion of a value spliced into a message. For the primitives below `${v}` and
      `'...' + v` agree; for other values one `render` stands for both, although on an object `+`
      consults `valueOf` first and a template literal `toString` first. */
  function ToStr(host: Host, v: JsValue): string {
    match v
    case Str(s) => s
    case Undefined => "undefined"
    case Null => "null"
    case Bool(b) => if b then "true" else "false"
    case _ => host.render(v)
  }

  /** The `i`-th positional argument of a call: `undefined` when the caller did not supply it. */
  function Arg(args: seq<JsValue>, i: nat): JsValue {
    if i < |args| then args[i] else Undefined
  }

  /** A rest parameter `...xs` starting at position `i`: the supplied arguments from `i` on. */
  function RestFrom(args: seq<JsValue>, i: nat): seq<JsValue> {
    if i < |args| then args[i..] else []
  }

  /** Positional arguments before `n` are unaffected by anything appended after `n` of them. */
  lemma ArgsPrefix(args: seq<JsValue>, extra: seq<JsValue>, n: nat)
    requires n <= |args|
    ensures forall i :: 0 <= i < n ==> Arg(args + extra, i) == Arg(args, i)
  {
  }

  /** A rest parameter starting inside the supplied arguments takes in anything appended to them. */
  lemma RestAppend(args: seq<JsValue>, extra: seq<JsValue>, n: nat)
    requires n <= |args|
    ensures RestFrom(args + extra, n) == RestFrom(args, n) + extra
  {
    if n < |args| {
      assert (args + extra)[n..] == args[n..] + extra;
    } else if n < |args + extra| {
      assert (args + extra)[n..] == extra;
    }
  }

  /** A parameter with default `null`: an omitted or `undefined` argument becomes `null`. */
  function OrNull(v: JsValue): JsValue {
    if v.Undefined? then Null else v
  }

  /** Wraps every name as a JavaScript string, keeping order. */
  function StrAll(names: seq<string>): (vs: seq<JsValue>)
    ensures |vs| == |names|
    ensures forall i :: 0 <= i < |names| ==> vs[i] == Str(names[i])
  {
    seq(|names|, i requires 0 <= i < |names| => Str(names[i]))
  }
}
