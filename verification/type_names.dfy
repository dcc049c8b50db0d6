/** Type-reference resolution (`getTypeName`) and list rendering (`multiTypesToString`). */
module TypeNames {
  import opened Wrappers
  import opened JsValues

  /** The errors the library throws. Every one is a plain JavaScript `Error`; the tag records the
      throw site: a rejected type reference, or a value that does not have the expected type. */
  datatype JsError = InvalidTypeRef(message: string) | TypeMismatch(message: string)

  /** The values `getTypeName` accepts: a type name, or a constructor (any function). */
  predicate IsTypeRef(t: JsValue) {
    t.Str? || t.Func?
  }

  predicate AllTypeRefs(ts: seq<JsValue>) {
    forall i :: 0 <= i < |ts| ==> IsTypeRef(ts[i])
  }

  /** The position of the first element `getTypeName` rejects. */
  function FirstInvalid(ts: seq<JsValue>): (i: nat)
    requires !AllTypeRefs(ts)
    ensures i < |ts| && !IsTypeRef(ts[i])
    ensures forall j :: 0 <= j < i ==> IsTypeRef(ts[j])
  {
    if !IsTypeRef(ts[0]) then 0
    else
      assert !AllTypeRefs(ts[1..]) by {
        var k :| 0 <= k < |ts| && !IsTypeRef(ts[k]);
        assert ts[1..][k - 1] == ts[k];
      }
      FirstInvalid(ts[1..]) + 1
  }

  /** The message `getTypeName` throws for a value it rejects. */
  function InvalidRefMessage(host: Host, t: JsValue): string {
    "`fjl.error.getTypeName` only accepts strings and/or constructors.  "
    + "Value type received: " + host.typeOf(t) + ";  Value: " + ToStr(host, t)
  }

  /** `getTypeName`: a type name is returned unchanged, a constructor resolves to its `.name`,
      and anything else (null, undefined, numbers, objects, ...) is rejected. */
  function GetTypeName(host: Host, t: JsValue): (r: Result<string, JsError>)
    ensures r.Success? <==> IsTypeRef(t)
    ensures t.Str? ==> r == Success(t.s)
    ensures t.Func? ==> r == Success(t.name)
    ensures !IsTypeRef(t) ==> r == Failure(InvalidTypeRef(InvalidRefMessage(host, t)))
  {
    match t
    case Str(s) => Success(s)
    case Func(name) => Success(name)
    case _ => Failure(InvalidTypeRef(InvalidRefMessage(host, t)))
  }

  /** Resolving a resolved name again changes nothing: `getTypeName` is idempotent on its results. */
  lemma GetTypeNameIdempotent(host: Host, t: JsValue)
    requires IsTypeRef(t)
    ensures GetTypeName(host, Str(GetTypeName(host, t).value)) == GetTypeName(host, t)
  {
  }

  /** `valueTypes.map(getTypeName)`: resolves every reference in order; the first rejected one throws. */
  function ResolveAll(host: Host, ts: seq<JsValue>): (r: Result<seq<string>, JsError>)
    ensures r.Success? <==> AllTypeRefs(ts)
    ensures r.Success? ==> |r.value| == |ts|
    ensures r.Success? ==> forall i :: 0 <= i < |ts| ==> Success(r.value[i]) == GetTypeName(host, ts[i])
    ensures r.Failure? ==> r.error == InvalidTypeRef(InvalidRefMessage(host, ts[FirstInvalid(ts)]))
  {
    if |ts| == 0 then Success([])
    else
      match GetTypeName(host, ts[0])
      case Failure(e) => Failure(e)
      case Success(name) =>
        match ResolveAll(host, ts[1..])
        case Failure(e) =>
          assert !AllTypeRefs(ts) by { assert ts[1..][FirstInvalid(ts[1..])] == ts[FirstInvalid(ts[1..]) + 1]; }
          Failure(e)
        case Success(names) =>
          assert AllTypeRefs(ts) by {
            forall i | 0 <= i < |ts| ensures IsTypeRef(ts[i]) {
              if i > 0 { assert ts[i] == ts[1..][i - 1]; }
            }
          }
          Success([name] + names)
  }

  /** Resolving a concatenation resolves each part: success of the whole is success of both parts,
      and the names are the two name lists one after the other. */
  lemma {:induction false} ResolveAllAppend(host: Host, xs: seq<JsValue>, ys: seq<JsValue>)
    requires AllTypeRefs(xs) && AllTypeRefs(ys)
    ensures ResolveAll(host, xs + ys) == Success(ResolveAll(host, xs).value + ResolveAll(host, ys).value)
  {
    var l := ResolveAll(host, xs + ys);
    var a := ResolveAll(host, xs).value;
    var b := ResolveAll(host, ys).value;
    assert AllTypeRefs(xs + ys) by {
      forall i | 0 <= i < |xs + ys| ensures IsTypeRef((xs + ys)[i]) {
        if i < |xs| { assert (xs + ys)[i] == xs[i]; } else { assert (xs + ys)[i] == ys[i - |xs|]; }
      }
    }
    assert |l.value| == |a + b|;
    forall i | 0 <= i < |a + b| ensures l.value[i] == (a + b)[i] {
      if i < |xs| {
        assert (xs + ys)[i] == xs[i];
      } else {
        assert (xs + ys)[i] == ys[i - |xs|];
      }
    }
    assert l.value == a + b;
  }

  /** `intercalate(sep, xs)` on strings: the pieces joined by `sep`. */
  function Intercalate(sep: string, xs: seq<string>): string
    decreases |xs|
  {
    if |xs| == 0 then ""
    else if |xs| == 1 then xs[0]
    else xs[0] + sep + Intercalate(sep, xs[1..])
  }

  /** A name wrapped in backticks. */
  function Quote(name: string): string {
    "`" + name + "`"
  }

  /** Every name wrapped in backticks, in order. */
  function QuoteAll(names: seq<string>): (qs: seq<string>)
    ensures |qs| == |names|
    ensures forall i :: 0 <= i < |names| ==> qs[i] == Quote(names[i])
  {
    seq(|names|, i requires 0 <= i < |names| => Quote(names[i]))
  }

  /** The rendering `multiTypesToString` gives an already resolved list of names. */
  function QuotedList(names: seq<string>): string {
    Intercalate(", ", QuoteAll(names))
  }

  /** `multiTypesToString`: the empty list renders as the empty string; otherwise every element is
      resolved with `getTypeName` (so any rejected element throws) and the names are rendered
      backtick-quoted and comma-separated, in input order and with duplicates kept. */
  function MultiTypesToString(host: Host, types: seq<JsValue>): (r: Result<string, JsError>)
    ensures |types| == 0 ==> r == Success("")
    ensures r.Success? <==> AllTypeRefs(types)
    ensures r.Failure? ==> r.error == InvalidTypeRef(InvalidRefMessage(host, types[FirstInvalid(types)]))
    ensures r.Success? ==> r.value == QuotedList(ResolveAll(host, types).value)
  {
    if |types| == 0 then Success("")
    else
      match ResolveAll(host, types)
      case Failure(e) => Failure(e)
      case Success(names) => Success(Intercalate(", ", QuoteAll(names)))
  }

  /** Already resolved names render as their quoted list: resolution of a name is the name. */
  lemma MultiTypesToStringOfNames(host: Host, names: seq<string>)
    ensures MultiTypesToString(host, StrAll(names)) == Success(QuotedList(names))
  {
    var r := ResolveAll(host, StrAll(names));
    assert r.value == names;
  }

  // ---------------------------------------------------------------------------------------------
  // An independent reading of the rendering: a parser for backtick-quoted, comma-separated lists.

  predicate NoBacktick(name: string) {
    forall i :: 0 <= i < |name| ==> name[i] != '`'
  }

  predicate NoBackticks(names: seq<string>) {
    forall k :: 0 <= k < |names| ==> NoBacktick(names[k])
  }

  /** The index of the first backtick at or after `from`, or `|s|` when there is none. */
  function FindBacktick(s: string, from: nat): (k: nat)
    requires from <= |s|
    ensures from <= k <= |s|
    ensures forall j :: from <= j < k ==> s[j] != '`'
    ensures k < |s| ==> s[k] == '`'
    decreases |s| - from
  {
    if from == |s| || s[from] == '`' then from else FindBacktick(s, from + 1)
  }

  /** Reads a non-empty list "`a`, `b`, ..." back into its names; `None` for anything else. */
  function ParseItems(s: string): Option<seq<string>>
    decreases |s|
  {
    if |s| < 2 || s[0] != '`' then None
    else
      var k := FindBacktick(s, 1);
      if k == |s| then None
      else
        var rest := s[k + 1..];
        if |rest| == 0 then Some([s[1..k]])
        else if |rest| >= 2 && rest[..2] == ", " then
          match ParseItems(rest[2..])
          case None => None
          case Some(more) => Some([s[1..k]] + more)
        else None
  }

  /** Reads a rendered list back into its names; the empty string is the empty list. */
  function ParseQuotedList(s: string): Option<seq<string>> {
    if |s| == 0 then Some([]) else ParseItems(s)
  }

  lemma FindBacktickAfterName(name: string, tail: string)
    requires NoBacktick(name)
    ensures FindBacktick("`" + name + "`" + tail, 1) == |name| + 1
  {
    var s := "`" + name + "`" + tail;
    assert s[|name| + 1] == '`';
    assert forall j :: 1 <= j < |name| + 1 ==> s[j] == name[j - 1];
  }

  /** How a list of two or more names renders: the first quoted name, a comma, the rest. */
  lemma QuotedListCons(n: string, more: seq<string>)
    requires |more| > 0
    ensures QuotedList([n] + more) == Quote(n) + ", " + QuotedList(more)
  {
    var names := [n] + more;
    assert names[1..] == more;
    assert QuoteAll(names)[1..] == QuoteAll(more);
  }

  lemma {:induction false} ParseRendered(names: seq<string>)
    requires |names| > 0 && NoBackticks(names)
    ensures ParseItems(QuotedList(names)) == Some(names)
    decreases |names|
  {
    var n := names[0];
    assert NoBacktick(n);
    if |names| == 1 {
      var s := QuotedList(names);
      assert names == [n];
      assert s == "`" + n + "`" + "";
      FindBacktickAfterName(n, "");
      assert s[1..|n| + 1] == n;
      assert s[|n| + 2..] == [];
    } else {
      var more := names[1..];
      assert names == [n] + more;
      var tailList := QuotedList(more);
      QuotedListCons(n, more);
      var s := QuotedList(names);
      assert s == "`" + n + "`" + (", " + tailList);
      FindBacktickAfterName(n, ", " + tailList);
      assert s[1..|n| + 1] == n;
      var rest := s[|n| + 2..];
      assert rest == ", " + tailList;
      assert rest[..2] == ", ";
      assert rest[2..] == tailList;
      assert NoBackticks(more) by {
        forall k | 0 <= k < |more| ensures NoBacktick(more[k]) {
          assert more[k] == names[k + 1];
        }
      }
      ParseRendered(more);
    }
  }

  /** Round trip: a list of names without backticks is read back exactly, order and duplicates included,
      from its `multiTypesToString` rendering. */
  lemma QuotedListRoundTrip(names: seq<string>)
    requires NoBackticks(names)
    ensures ParseQuotedList(QuotedList(names)) == Some(names)
  {
    if |names| > 0 {
      ParseRendered(names);
      if |names| == 1 {
        assert QuotedList(names) == "`" + names[0] + "`";
      } else {
        assert names == [names[0]] + names[1..];
        QuotedListCons(names[0], names[1..]);
      }
      assert QuotedList(names)[0] == '`';
    }
  }

  /** A string opening with a backtick, with another at `k`, is a quoted name followed by the rest. */
  lemma QuotedSplit(s: string, k: nat)
    requires 0 < k < |s| && s[0] == '`' && s[k] == '`'
    ensures s == "`" + s[1..k] + "`" + s[k + 1..]
  {
    assert s == s[..1] + s[1..k] + s[k..k + 1] + s[k + 1..];
  }

  /** What the parser saw in an accepted string: a quoted first name without backticks, then either
      nothing or a comma, a space and an accepted remainder. */
  lemma ParseItemsStep(s: string)
    requires ParseItems(s).Some?
    ensures var k := FindBacktick(s, 1);
            k < |s| &&
            s == "`" + s[1..k] + "`" + s[k + 1..] &&
            NoBacktick(s[1..k]) &&
            (|s[k + 1..]| == 0 ==> ParseItems(s) == Some([s[1..k]])) &&
            (|s[k + 1..]| > 0 ==>
               |s[k + 1..]| >= 2 && s[k + 1..] == ", " + s[k + 3..] && ParseItems(s[k + 3..]).Some? &&
               ParseItems(s) == Some([s[1..k]] + ParseItems(s[k + 3..]).value))
  {
    var k := FindBacktick(s, 1);
    assert k < |s| && s[0] == '`';
    QuotedSplit(s, k);
    var n := s[1..k];
    assert NoBacktick(n) by {
      forall i | 0 <= i < |n| ensures n[i] != '`' { assert n[i] == s[i + 1]; }
    }
    var rest := s[k + 1..];
    if |rest| > 0 {
      assert |rest| >= 2 && rest[..2] == ", ";
      assert rest == ", " + s[k + 3..] by {
        assert rest == rest[..2] + rest[2..];
        assert rest[2..] == s[k + 3..];
      }
    }
  }

  /** Prepending a quoted name without backticks to a rendered list renders the longer list. */
  lemma RenderedCons(s: string, n: string, tail: string, more: seq<string>)
    requires s == "`" + n + "`" + (", " + tail)
    requires |more| > 0 && QuotedList(more) == tail
    requires NoBacktick(n) && NoBackticks(more)
    ensures QuotedList([n] + more) == s
    ensures NoBackticks([n] + more)
  {
    QuotedListCons(n, more);
    var names := [n] + more;
    forall j | 0 <= j < |names| ensures NoBacktick(names[j]) {
      if j > 0 { assert names[j] == more[j - 1]; }
    }
  }

  /** The converse: every string the parser accepts is the rendering of the names it reads,
      and those names contain no backtick. So the rendering is exactly the language the parser reads. */
  lemma {:induction false} ParsedIsRendered(s: string)
    requires ParseItems(s).Some?
    ensures |ParseItems(s).value| > 0
    ensures NoBackticks(ParseItems(s).value)
    ensures QuotedList(ParseItems(s).value) == s
    decreases |s|
  {
    ParseItemsStep(s);
    var k := FindBacktick(s, 1);
    var n := s[1..k];
    if |s[k + 1..]| == 0 {
      assert ParseItems(s).value == [n];
      assert QuotedList([n]) == "`" + n + "`";
      assert s == "`" + n + "`";
    } else {
      var tail := s[k + 3..];
      ParsedIsRendered(tail);
      RenderedCons(s, n, tail, ParseItems(tail).value);
    }
  }
}
