/** Partial application, as the library's curried entry points use it: a function of a fixed arity
    collects positional arguments over any number of calls, and runs once it has at least that many.
    The combinator itself belongs to `fjl`; this is the behaviour the entry points rely on. */
module Curry {
  import opened Wrappers
  import opened JsValues

  /** A partially applied function: the underlying function, the arity it waits for, and the
      arguments bound so far (always fewer than the arity). */
  datatype Curried<R> = Curried(arity: nat, fn: seq<JsValue> -> R, bound: seq<JsValue>)

  /** What one call on a curried function gives: another curried function, or the result. */
  datatype Step<R> = Awaiting(next: Curried<R>) | Done(result: R)

  /** `curry(fn)` with `fn.length == arity`: nothing bound yet, so a first call with fewer than `arity`
      arguments gives back a function holding them, and one with at least `arity` runs `fn` on them all. */
  function MakeCurried<R>(arity: nat, fn: seq<JsValue> -> R): (c: Curried<R>)
    ensures c.bound == [] && c.arity == arity
    ensures forall args :: |args| < arity ==> Feed(c, args).Awaiting? && Feed(c, args).next.bound == args
    ensures forall args :: arity <= |args| ==> Feed(c, args) == Done(fn(args))
  {
    var c := Curried(arity, fn, []);
    forall args ensures c.bound + args == args {
      assert [] + args == args;
    }
    c
  }

  /** One call with the argument group `group`. While fewer than `arity` arguments are bound the call
      returns a new curried function holding them all (an empty group changes nothing); once at least
      `arity` are bound the function runs on every argument supplied. */
  function Feed<R>(c: Curried<R>, group: seq<JsValue>): (s: Step<R>)
    ensures s.Awaiting? <==> |c.bound| + |group| < c.arity
    ensures s.Awaiting? ==> s.next == c.(bound := c.bound + group)
    ensures s.Done? ==> s.result == c.fn(c.bound + group)
  {
    if |c.bound| + |group| < c.arity then Awaiting(c.(bound := c.bound + group))
    else Done(c.fn(c.bound + group))
  }

  /** A sequence of calls, one per argument group. Calling on after the function has run is not
      something the library defines (the result is not a function), so it is `None`. */
  function FeedAll<R>(c: Curried<R>, groups: seq<seq<JsValue>>): Option<Step<R>>
    decreases |groups|
  {
    if |groups| == 0 then Some(Awaiting(c))
    else
      match Feed(c, groups[0])
      case Awaiting(next) => FeedAll(next, groups[1..])
      case Done(r) => if |groups| == 1 then Some(Done(r)) else None
  }

  /** All argument groups laid end to end. */
  function Flatten(groups: seq<seq<JsValue>>): seq<JsValue>
    decreases |groups|
  {
    if |groups| == 0 then [] else groups[0] + Flatten(groups[1..])
  }

  /** The last group comes last in the flattened list. */
  lemma FlattenLast(groups: seq<seq<JsValue>>)
    requires |groups| > 0
    ensures Flatten(groups) == Flatten(groups[..|groups| - 1]) + groups[|groups| - 1]
    decreases |groups|
  {
    if |groups| > 1 {
      FlattenLast(groups[1..]);
      assert groups[1..][..|groups| - 2] == groups[..|groups| - 1][1..];
    }
  }

  /** Supplying too few arguments, in any grouping, leaves a curried function holding exactly those
      arguments in order. */
  lemma {:induction false} FeedAllPending<R>(c: Curried<R>, groups: seq<seq<JsValue>>)
    requires |c.bound| + |Flatten(groups)| < c.arity
    ensures FeedAll(c, groups) == Some(Awaiting(c.(bound := c.bound + Flatten(groups))))
    decreases |groups|
  {
    if |groups| > 0 {
      var next := c.(bound := c.bound + groups[0]);
      assert Feed(c, groups[0]) == Awaiting(next);
      FeedAllPending(next, groups[1..]);
      assert next.bound + Flatten(groups[1..]) == c.bound + Flatten(groups);
    } else {
      assert c.bound + Flatten(groups) == c.bound;
    }
  }

  /** Grouping does not matter: supplying the arguments in any partial grouping whose last group
      completes the call runs the function once, on the whole argument list, exactly as one full call. */
  lemma {:induction false} FeedAllCompletes<R>(c: Curried<R>, groups: seq<seq<JsValue>>)
    requires |groups| > 0
    requires |c.bound| + |Flatten(groups[..|groups| - 1])| < c.arity
    requires c.arity <= |c.bound| + |Flatten(groups)|
    ensures FeedAll(c, groups) == Some(Done(c.fn(c.bound + Flatten(groups))))
    decreases |groups|
  {
    if |groups| == 1 {
      assert Flatten(groups) == groups[0] + Flatten(groups[1..]);
      assert Flatten(groups) == groups[0];
    } else {
      FlattenLast(groups);
      assert Flatten(groups[..|groups| - 1]) == groups[0] + Flatten(groups[..|groups| - 1][1..]);
      var next := c.(bound := c.bound + groups[0]);
      assert Feed(c, groups[0]) == Awaiting(next);
      var rest := groups[1..];
      assert rest[..|rest| - 1] == groups[..|groups| - 1][1..];
      assert Flatten(groups) == groups[0] + Flatten(rest);
      FeedAllCompletes(next, rest);
      assert next.bound + Flatten(rest) == c.bound + Flatten(groups);
    }
  }

  lemma FlattenOne(a: seq<JsValue>)
    ensures Flatten([a]) == a
  {
    assert [a][1..] == [];
  }

  lemma FlattenTwo(a: seq<JsValue>, b: seq<JsValue>)
    ensures Flatten([a, b]) == a + b
  {
    assert [a, b][1..] == [b];
    FlattenOne(b);
  }

  /** Two calls whose second completes the arguments run the function on both groups laid end to end. */
  lemma TwoCallsComplete<R>(c: Curried<R>, first: seq<JsValue>, second: seq<JsValue>)
    requires |c.bound| + |first| < c.arity <= |c.bound| + |first| + |second|
    ensures FeedAll(c, [first, second]) == Some(Done(c.fn(c.bound + first + second)))
  {
    FlattenOne(first);
    FlattenTwo(first, second);
    assert [first, second][..1] == [first];
    FeedAllCompletes(c, [first, second]);
    assert c.bound + (first + second) == c.bound + first + second;
  }

  /** A first call with one argument followed by a completing call behaves as `f` on the second call's
      arguments whenever the function, given both, computes what `f` computes on the second alone. */
  lemma PrependedCall<R>(c: Curried<R>, f: seq<JsValue> -> R, first: JsValue, rest: seq<JsValue>)
    requires c.bound == [] && 1 < c.arity <= 1 + |rest|
    requires c.fn([first] + rest) == f(rest)
    ensures FeedAll(c, [[first], rest]) == Some(Done(f(rest)))
  {
    TwoCallsComplete(c, [first], rest);
    assert c.bound + [first] + rest == [first] + rest;
  }
}
