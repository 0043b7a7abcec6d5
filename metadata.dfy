/**
 * Cask metadata as the generator sees it: decoded JSON, the flattening of
 * the `artifacts` array into a list of objects (`parse_artifacts` and its
 * inner `walk`), `ensure_list`, Python truthiness and `dict.get`.
 *
 * JSON numbers are integers here; `str()` of a value that is not a string
 * is left to a parameter of the callers (`repr`).
 */
module Metadata {
  import opened Text

  datatype Json =
    | JNull
    | JBool(b: bool)
    | JNum(n: int)
    | JStr(s: string)
    | JArr(items: seq<Json>)
    | JObj(fields: map<string, Json>)

  type Object = map<string, Json>

  /** Python truthiness: `None`, `False`, `0`, and empty strings, lists and dicts are false. */
  predicate Truthy(j: Json)
  {
    match j
    case JNull => false
    case JBool(b) => b
    case JNum(n) => n != 0
    case JStr(s) => |s| > 0
    case JArr(xs) => |xs| > 0
    case JObj(m) => |m| > 0
  }

  /** `obj.get(key)`: a missing key reads as `None`. */
  function Get(obj: Object, key: string): (r: Json)
    ensures key !in obj ==> r == JNull
    ensures key in obj ==> r == obj[key]
  {
    if key in obj then obj[key] else JNull
  }

  /** `str(x)`: a string is itself; anything else is rendered by `repr`. */
  function PyStr(x: Json, repr: Json -> string): (r: string)
    ensures x.JStr? ==> r == x.s
  {
    if x.JStr? then x.s else repr(x)
  }

  /**
   * `ensure_list(x)`: `None` becomes the empty list, a list stays as it is
   * and anything else becomes a one-element list.
   */
  function EnsureList(x: Json): (r: seq<Json>)
    ensures x.JNull? <==> (r == [] && !x.JArr?)
    ensures x.JArr? ==> r == x.items
    ensures !x.JNull? && !x.JArr? ==> r == [x]
  {
    match x
    case JNull => []
    case JArr(xs) => xs
    case _ => [x]
  }

  // ----------------------------------------------------------------------
  // `parse_artifacts`

  /** The `[key, value]` list encoding of a one-key object. */
  predicate IsPair(items: seq<Json>)
  {
    |items| == 2 && items[0].JStr?
  }

  /** The object a `[key, value]` pair stands for; the value is wrapped in a list unless it is one. */
  function PairObject(key: string, val: Json): Object
  {
    map[key := if val.JArr? then val else JArr([val])]
  }

  /**
   * What `walk(node)` appends: a non-empty object itself; a pair-encoded
   * list its object; any other list what its items append, in order;
   * everything else nothing.
   */
  function Flatten(node: Json): seq<Object>
    decreases node
  {
    match node
    case JObj(m) => if |m| == 0 then [] else [m]
    case JArr(xs) => if IsPair(xs) then [PairObject(xs[0].s, xs[1])] else FlattenItems(xs)
    case _ => []
  }

  /** What walking the items of a list in order appends. */
  function FlattenItems(xs: seq<Json>): seq<Object>
    decreases xs
  {
    if |xs| == 0 then [] else FlattenItems(xs[..|xs| - 1]) + Flatten(xs[|xs| - 1])
  }

  /** `parse_artifacts(cj)`: the flattening of `cj.get("artifacts")`. */
  function Artifacts(cj: Object): seq<Object>
  {
    Flatten(Get(cj, "artifacts"))
  }

  lemma FlattenItemsStep(xs: seq<Json>, i: nat)
    requires i < |xs|
    ensures FlattenItems(xs[..i + 1]) == FlattenItems(xs[..i]) + Flatten(xs[i])
  {
    assert xs[..i + 1][..i] == xs[..i];
  }

  /** The inner `walk`: append to `flattened` what `node` contributes. */
  method Walk(node: Json, flattened: seq<Object>) returns (out: seq<Object>)
    ensures out == flattened + Flatten(node)
    decreases node
  {
    out := flattened;
    match node {
      case JObj(m) =>
        if |m| > 0 {
          out := out + [m];
        }
      case JArr(xs) =>
        if |xs| == 2 && xs[0].JStr? {
          var key := xs[0].s;
          var val := xs[1];
          out := out + [map[key := if val.JArr? then val else JArr([val])]];
          return;
        }
        for i := 0 to |xs|
          invariant out == flattened + FlattenItems(xs[..i])
        {
          FlattenItemsStep(xs, i);
          out := Walk(xs[i], out);
        }
        assert xs[..|xs|] == xs;
      case _ =>
    }
  }

  /** `parse_artifacts(cj)` */
  method ParseArtifacts(cj: Object) returns (flattened: seq<Object>)
    ensures flattened == Artifacts(cj)
  {
    var raw := Get(cj, "artifacts");
    flattened := Walk(raw, []);
  }

  // ----------------------------------------------------------------------
  // Properties of the flattening

  /** `['app', 'Foo.app']` becomes `{'app': ['Foo.app']}`; a list value is kept as it is. */
  lemma FlattenPair(key: string, val: Json)
    ensures Flatten(JArr([JStr(key), val])) == [map[key := if val.JArr? then val else JArr([val])]]
    ensures !val.JArr? ==> Flatten(JArr([JStr(key), val]))[0][key] == JArr([val])
  {
  }

  /** Scalars, `None` and empty objects contribute nothing. */
  lemma FlattenNothing(node: Json)
    requires !node.JArr?
    requires !node.JObj? || node.fields == map[]
    ensures Flatten(node) == []
  {
  }

  /** A cask without an `artifacts` key has no artifacts. */
  lemma NoArtifactsKey(cj: Object)
    requires "artifacts" !in cj
    ensures Artifacts(cj) == []
  {
  }

  /** Every object the walk appends is non-empty. */
  lemma {:induction false} FlattenNonEmpty(node: Json)
    ensures forall o :: o in Flatten(node) ==> |o| > 0
    decreases node, 1
  {
    match node
    case JArr(xs) =>
      if !IsPair(xs) {
        FlattenItemsNonEmpty(xs);
      }
    case _ =>
  }

  lemma {:induction false} FlattenItemsNonEmpty(xs: seq<Json>)
    ensures forall o :: o in FlattenItems(xs) ==> |o| > 0
    decreases xs, 0
  {
    if |xs| > 0 {
      FlattenItemsNonEmpty(xs[..|xs| - 1]);
      FlattenNonEmpty(xs[|xs| - 1]);
    }
  }

  /** Walking two runs of items one after the other appends their results in that order. */
  lemma {:induction false} FlattenItemsAppend(xs: seq<Json>, ys: seq<Json>)
    ensures FlattenItems(xs + ys) == FlattenItems(xs) + FlattenItems(ys)
    decreases |ys|
  {
    if |ys| == 0 {
      assert xs + ys == xs;
    } else {
      var init := ys[..|ys| - 1];
      assert (xs + ys)[..|xs + ys| - 1] == xs + init;
      FlattenItemsAppend(xs, init);
    }
  }

  /** The fields of an object; nothing for any other value. */
  function FieldsOf(j: Json): Object
  {
    if j.JObj? then j.fields else map[]
  }

  /**
   * Walk order: a list of non-empty objects that is not a pair encoding
   * flattens to those objects, in the order they appear.
   */
  lemma {:induction false} FlattenObjectsInOrder(xs: seq<Json>)
    requires !IsPair(xs)
    requires forall k :: 0 <= k < |xs| ==> xs[k].JObj? && |xs[k].fields| > 0
    ensures Flatten(JArr(xs)) == Map(FieldsOf, xs)
  {
    ItemsInOrder(xs);
  }

  lemma {:induction false} ItemsInOrder(xs: seq<Json>)
    requires forall k :: 0 <= k < |xs| ==> xs[k].JObj? && |xs[k].fields| > 0
    ensures FlattenItems(xs) == Map(FieldsOf, xs)
    decreases |xs|
  {
    if |xs| > 0 {
      var n := |xs| - 1;
      ItemsInOrder(xs[..n]);
      MapPrefix(FieldsOf, xs, n);
      assert xs[..n + 1] == xs;
    }
  }
}
