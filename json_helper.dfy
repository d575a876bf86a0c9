/**
 * Flattening of a parsed JSON object into a map from paths such as
 * `a.b[2].c` to the non-null leaf values found there.
 */
module JsonHelper {
  import opened Wrappers
  import opened Data
  import opened Text

  /** Path to leaf value. */
  type Paths = map<string, Json>

  /**
   * The holder after filling `value` in under `path`: objects and lists recurse into
   * their children, null adds nothing, and any other value is stored at `path`.
   * Filling only adds paths, and adds only strings, numbers and booleans.
   */
  function Fill(holder: Paths, path: string, value: Json): (r: Paths)
    ensures holder.Keys <= r.Keys
    ensures AllLeaves(holder) ==> AllLeaves(r)
    decreases value
  {
    match value
    case JObject(fields) => FillFields(holder, path, fields)
    case JArray(items) => FillItems(holder, path, items)
    case JNull => holder
    case _ => holder[path := value]
  }

  /** Fills each field in order, under the path extended by a dot and the field's key. */
  function FillFields(holder: Paths, path: string, fields: seq<Field>): (r: Paths)
    ensures holder.Keys <= r.Keys
    ensures AllLeaves(holder) ==> AllLeaves(r)
    decreases fields
  {
    if fields == [] then holder
    else
      var last := fields[|fields| - 1];
      Fill(FillFields(holder, path, fields[..|fields| - 1]), path + "." + last.key, last.value)
  }

  /** Fills each item in order, under the path extended by its index in brackets. */
  function FillItems(holder: Paths, path: string, items: seq<Json>): (r: Paths)
    ensures holder.Keys <= r.Keys
    ensures AllLeaves(holder) ==> AllLeaves(r)
    decreases items
  {
    if items == [] then holder
    else
      var i := |items| - 1;
      Fill(FillItems(holder, path, items[..i]), ItemPath(path, i), items[i])
  }

  function ItemPath(path: string, i: nat): string {
    path + "[" + NatToString(i) + "]"
  }

  /**
   * What the path flattening returns for a parsed top-level object: each entry filled
   * under its own key. Every value it holds is a string, number or boolean.
   */
  function Flattened(json: seq<Field>): (r: Paths)
    ensures AllLeaves(r)
  {
    if json == [] then map[]
    else
      var last := json[|json| - 1];
      Fill(Flattened(json[..|json| - 1]), last.key, last.value)
  }

  method ByPath(json: seq<Field>) returns (result: Paths)
    ensures result == Flattened(json)
  {
    result := map[];
    for i := 0 to |json|
      invariant result == Flattened(json[..i])
    {
      assert json[..i + 1][..i] == json[..i];
      var key, value := json[i].key, json[i].value;
      if value.JObject? || value.JArray? {
        result := FillInto(result, key, value);
      } else if !value.JNull? {
        result := result[key := value];
      }
    }
    assert json[..|json|] == json;
  }

  method FillInto(holder: Paths, path: string, value: Json) returns (h: Paths)
    ensures h == Fill(holder, path, value)
    decreases value
  {
    match value {
      case JObject(fields) =>
        h := holder;
        for i := 0 to |fields|
          invariant h == FillFields(holder, path, fields[..i])
        {
          assert fields[..i + 1][..i] == fields[..i];
          h := FillInto(h, path + "." + fields[i].key, fields[i].value);
        }
        assert fields[..|fields|] == fields;
      case JArray(items) =>
        h := holder;
        for i := 0 to |items|
          invariant h == FillItems(holder, path, items[..i])
        {
          assert items[..i + 1][..i] == items[..i];
          h := FillInto(h, ItemPath(path, i), items[i]);
        }
        assert items[..|items|] == items;
      case JNull =>
        h := holder;
      case _ =>
        h := holder[path := value];
    }
  }

  // ---------------------------------------------------------------------------
  // Only non-null leaves are stored

  /** Every value held is a string, number or boolean. */
  predicate AllLeaves(m: Paths) {
    forall p :: p in m ==> IsLeaf(m[p])
  }

  /** Null, an empty object and an empty list add no entry. */
  lemma NullAndEmptyAddNothing(holder: Paths, path: string)
    ensures Fill(holder, path, JNull) == holder
    ensures Fill(holder, path, JObject([])) == holder
    ensures Fill(holder, path, JArray([])) == holder
  {
  }

  // ---------------------------------------------------------------------------
  // Filling under `path` touches only paths under `path`

  /** `p` is `path` itself or a path below it. */
  predicate Extends(p: string, path: string) {
    p == path || path + "." <= p || path + "[" <= p
  }

  /** A path below `path.key` or `path[i]` is a path below `path`. */
  lemma ExtendsChild(p: string, path: string, child: string)
    requires path + "." <= child || path + "[" <= child
    requires Extends(p, child)
    ensures Extends(p, path)
  {
    var sep := if path + "." <= child then "." else "[";
    assert child[..|path| + 1] == path + sep;
    assert p[..|child|] == child;
    assert p[..|path| + 1] == child[..|path| + 1];
  }

  /** Fill keeps every key of the holder and changes nothing outside `path`. */
  ghost predicate FramedBy(before: Paths, after: Paths, path: string) {
    && before.Keys <= after.Keys
    && forall p :: p in after && !Extends(p, path) ==> p in before && after[p] == before[p]
  }

  lemma {:induction false} FillFrame(holder: Paths, path: string, value: Json)
    ensures FramedBy(holder, Fill(holder, path, value), path)
    decreases value
  {
    match value
    case JObject(fields) => FillFieldsFrame(holder, path, fields);
    case JArray(items) => FillItemsFrame(holder, path, items);
    case _ =>
  }

  lemma {:induction false} FillFieldsFrame(holder: Paths, path: string, fields: seq<Field>)
    ensures FramedBy(holder, FillFields(holder, path, fields), path)
    decreases fields
  {
    if fields != [] {
      var last := fields[|fields| - 1];
      var child := path + "." + last.key;
      var mid := FillFields(holder, path, fields[..|fields| - 1]);
      FillFieldsFrame(holder, path, fields[..|fields| - 1]);
      FillFrame(mid, child, last.value);
      assert (path + ".") <= child;
      forall p | p in Fill(mid, child, last.value) && !Extends(p, path)
        ensures p in mid && Fill(mid, child, last.value)[p] == mid[p]
      {
        if Extends(p, child) { ExtendsChild(p, path, child); }
      }
    }
  }

  lemma {:induction false} FillItemsFrame(holder: Paths, path: string, items: seq<Json>)
    ensures FramedBy(holder, FillItems(holder, path, items), path)
    decreases items
  {
    if items != [] {
      var i := |items| - 1;
      var child := ItemPath(path, i);
      var mid := FillItems(holder, path, items[..i]);
      FillItemsFrame(holder, path, items[..i]);
      FillFrame(mid, child, items[i]);
      assert (path + "[") <= child;
      forall p | p in Fill(mid, child, items[i]) && !Extends(p, path)
        ensures p in mid && Fill(mid, child, items[i])[p] == mid[p]
      {
        if Extends(p, child) { ExtendsChild(p, path, child); }
      }
    }
  }

  /** Every path `byPath` returns begins with one of the top-level keys. */
  lemma {:induction false} FlattenedPathsStartWithTopKey(json: seq<Field>)
    ensures forall p :: p in Flattened(json) ==> exists i :: 0 <= i < |json| && json[i].key <= p
  {
    if json != [] {
      var init := json[..|json| - 1];
      var last := json[|json| - 1];
      FlattenedPathsStartWithTopKey(init);
      FillFrame(Flattened(init), last.key, last.value);
      forall p | p in Flattened(json) ensures exists i :: 0 <= i < |json| && json[i].key <= p {
        if Extends(p, last.key) {
          assert json[|json| - 1].key <= p;
        } else {
          var i :| 0 <= i < |init| && init[i].key <= p;
          assert json[i] == init[i];
        }
      }
    }
  }

  // ---------------------------------------------------------------------------
  // Top-level leaves

  /** A key that cannot be mistaken for a longer path. */
  predicate PlainKey(k: string) {
    forall i :: 0 <= i < |k| ==> k[i] != '.' && k[i] != '['
  }

  /** A parsed JSON object never repeats a key. */
  predicate DistinctKeys(json: seq<Field>) {
    forall i, j :: 0 <= i < j < |json| ==> json[i].key != json[j].key
  }

  lemma PlainKeyNotBelow(k: string, other: string)
    requires PlainKey(k) && k != other
    ensures !Extends(k, other)
  {
    if other + "." <= k {
      SeparatorAt(k, other, '.');
      assert false;
    } else if other + "[" <= k {
      SeparatorAt(k, other, '[');
      assert false;
    }
  }

  lemma SeparatorAt(p: string, path: string, sep: char)
    requires path + [sep] <= p
    ensures |p| > |path| && p[|path|] == sep
  {
    assert p[..|path| + 1] == path + [sep];
  }

  /**
   * A top-level string, number or boolean under a plain key appears in the result
   * under that key, unchanged.
   */
  lemma {:induction false} TopLevelLeafKept(json: seq<Field>, i: nat)
    requires DistinctKeys(json)
    requires i < |json| && IsLeaf(json[i].value) && PlainKey(json[i].key)
    ensures json[i].key in Flattened(json) && Flattened(json)[json[i].key] == json[i].value
  {
    var init := json[..|json| - 1];
    var last := json[|json| - 1];
    if i == |json| - 1 {
    } else {
      assert init[i] == json[i];
      TopLevelLeafKept(init, i);
      FillFrame(Flattened(init), last.key, last.value);
      PlainKeyNotBelow(json[i].key, last.key);
    }
  }

  /** A top-level null under a plain key is dropped: the result has no entry under that key. */
  lemma {:induction false} TopLevelNullDropped(json: seq<Field>, i: nat)
    requires DistinctKeys(json)
    requires i < |json| && json[i].value == JNull && PlainKey(json[i].key)
    ensures json[i].key !in Flattened(json)
  {
    var k := json[i].key;
    var init := json[..|json| - 1];
    var last := json[|json| - 1];
    if i == |json| - 1 {
      NotInFlattened(init, k);
    } else {
      assert init[i] == json[i];
      TopLevelNullDropped(init, i);
      FillFrame(Flattened(init), last.key, last.value);
      PlainKeyNotBelow(k, last.key);
    }
  }

  lemma {:induction false} NotInFlattened(json: seq<Field>, k: string)
    requires PlainKey(k)
    requires forall j :: 0 <= j < |json| ==> json[j].key != k
    ensures k !in Flattened(json)
  {
    if json != [] {
      var init := json[..|json| - 1];
      var last := json[|json| - 1];
      NotInFlattened(init, k);
      FillFrame(Flattened(init), last.key, last.value);
      PlainKeyNotBelow(k, last.key);
    }
  }

  // ---------------------------------------------------------------------------
  // Nested leaves: each leaf is found under the path that names its position

  /** One navigation step: into an object field by key, or into a list by index. */
  datatype Step = Key(key: string) | Index(index: nat)

  function StepPath(path: string, step: Step): string {
    match step
    case Key(k) => path + "." + k
    case Index(i) => ItemPath(path, i)
  }

  /** The path `fill` writes for the value reached by `steps` below `path`. */
  function Render(path: string, steps: seq<Step>): string
    decreases |steps|
  {
    if steps == [] then path else Render(StepPath(path, steps[0]), steps[1..])
  }

  /** Index of the field named `k`, if there is one. */
  function FieldIndex(fields: seq<Field>, k: string): (r: Option<nat>)
    ensures r.Some? ==> r.value < |fields| && fields[r.value].key == k
    ensures r.None? ==> forall i :: 0 <= i < |fields| ==> fields[i].key != k
  {
    if fields == [] then None
    else if fields[0].key == k then Some(0)
    else
      match FieldIndex(fields[1..], k)
      case None => None
      case Some(i) => Some(i + 1)
  }

  /** The value reached from `v` by following `steps`, if every step exists. */
  function At(v: Json, steps: seq<Step>): Option<Json>
    decreases |steps|
  {
    if steps == [] then Some(v)
    else
      match steps[0]
      case Key(k) =>
        if !v.JObject? then None
        else
          var i := FieldIndex(v.fields, k);
          if i.None? then None else At(v.fields[i.value].value, steps[1..])
      case Index(i) =>
        if v.JArray? && i < |v.items| then At(v.items[i], steps[1..]) else None
  }

  /** Every object in the tree has distinct keys free of '.' and '['. */
  predicate PlainTree(v: Json)
    decreases v
  {
    match v
    case JObject(fields) =>
      && DistinctKeys(fields)
      && forall i :: 0 <= i < |fields| ==> PlainKey(fields[i].key) && PlainTree(fields[i].value)
    case JArray(items) => forall i :: 0 <= i < |items| ==> PlainTree(items[i])
    case _ => true
  }

  /** `k` occupies `p` from position `n` and is followed by the end of `p` or a separator. */
  predicate Segment(p: string, n: nat, k: string) {
    && n + |k| <= |p| && p[n..n + |k|] == k
    && (n + |k| == |p| || p[n + |k|] == '.' || p[n + |k|] == '[')
  }

  lemma SegmentUnique(p: string, n: nat, k1: string, k2: string)
    requires PlainKey(k1) && PlainKey(k2)
    requires Segment(p, n, k1) && Segment(p, n, k2)
    ensures k1 == k2
  {
    if |k1| != |k2| {
      assert false;
    }
  }

  lemma ExtendsSegment(p: string, path: string, k: string)
    requires Extends(p, path + "." + k)
    ensures Segment(p, |path| + 1, k)
  {
    var c := path + "." + k;
    assert p[..|c|] == c;
    assert p[|path| + 1..|c|] == c[|path| + 1..] == k;
    if p != c {
      var sep := if c + "." <= p then '.' else '[';
      SeparatorAt(p, c, sep);
    }
  }

  /** Below one object, paths under two different plain keys never meet. */
  lemma KeySiblingsApart(p: string, path: string, k1: string, k2: string)
    requires PlainKey(k1) && PlainKey(k2) && k1 != k2
    requires Extends(p, path + "." + k1)
    ensures !Extends(p, path + "." + k2)
  {
    ExtendsSegment(p, path, k1);
    if Extends(p, path + "." + k2) {
      ExtendsSegment(p, path, k2);
      SegmentUnique(p, |path| + 1, k1, k2);
      assert false;
    }
  }

  /** Below one list, paths under two different indices never meet. */
  lemma IndexSiblingsApart(p: string, path: string, i: nat, j: nat)
    requires i != j
    requires Extends(p, ItemPath(path, i))
    ensures !Extends(p, ItemPath(path, j))
  {
    if Extends(p, ItemPath(path, j)) {
      var di, dj := NatToString(i), NatToString(j);
      var n := |path| + 1;
      BracketedDigits(p, path, di);
      BracketedDigits(p, path, dj);
      if |di| != |dj| {
        assert false;
      }
      assert di == p[n..n + |di|] == dj;
      NatToStringRoundTrip(i);
      NatToStringRoundTrip(j);
      assert false;
    }
  }

  lemma BracketedDigits(p: string, path: string, d: string)
    requires Extends(p, path + "[" + d + "]")
    ensures |path| + 1 + |d| < |p|
    ensures p[|path| + 1..|path| + 1 + |d|] == d && p[|path| + 1 + |d|] == ']'
  {
    var c := path + "[" + d + "]";
    assert p[..|c|] == c;
    assert p[|path| + 1..|path| + 1 + |d|] == c[|path| + 1..|path| + 1 + |d|] == d;
    assert p[|path| + 1 + |d|] == c[|path| + 1 + |d|];
  }

  lemma {:induction false} RenderExtends(path: string, steps: seq<Step>)
    ensures Extends(Render(path, steps), path)
    decreases |steps|
  {
    if steps != [] {
      var child := StepPath(path, steps[0]);
      RenderExtends(child, steps[1..]);
      assert path + "." <= child || path + "[" <= child;
      ExtendsChild(Render(child, steps[1..]), path, child);
    }
  }

  /**
   * In a plain tree, the leaf reached by `steps` is stored under the path that
   * spells those steps out below `path`, whatever the holder held before.
   */
  lemma {:induction false} FillFindsLeaf(holder: Paths, path: string, v: Json, steps: seq<Step>)
    requires PlainTree(v)
    requires At(v, steps).Some? && IsLeaf(At(v, steps).value)
    ensures var filled := Fill(holder, path, v);
            Render(path, steps) in filled && filled[Render(path, steps)] == At(v, steps).value
    decreases v, 1
  {
    if steps == [] {
    } else {
      match steps[0]
      case Key(k) =>
        var i := FieldIndex(v.fields, k).value;
        FieldsFindLeaf(holder, path, v, v.fields, i, steps[1..]);
      case Index(i) =>
        ItemsFindLeaf(holder, path, v, v.items, i, steps[1..]);
    }
  }

  lemma {:induction false} FieldsFindLeaf(holder: Paths, path: string, parent: Json, fields: seq<Field>,
                                          i: nat, rest: seq<Step>)
    requires parent.JObject? && fields <= parent.fields && PlainTree(parent)
    requires i < |fields|
    requires At(fields[i].value, rest).Some? && IsLeaf(At(fields[i].value, rest).value)
    ensures var p := Render(path + "." + fields[i].key, rest);
            var filled := FillFields(holder, path, fields);
            p in filled && filled[p] == At(fields[i].value, rest).value
    decreases parent, 0, |fields|
  {
    var p := Render(path + "." + fields[i].key, rest);
    var init := fields[..|fields| - 1];
    var last := fields[|fields| - 1];
    assert fields[i] == parent.fields[i];
    assert last == parent.fields[|fields| - 1];
    if i == |fields| - 1 {
      FillFindsLeaf(FillFields(holder, path, init), path + "." + last.key, last.value, rest);
    } else {
      assert init[i] == fields[i];
      FieldsFindLeaf(holder, path, parent, init, i, rest);
      FillFrame(FillFields(holder, path, init), path + "." + last.key, last.value);
      RenderExtends(path + "." + fields[i].key, rest);
      KeySiblingsApart(p, path, fields[i].key, last.key);
    }
  }

  lemma {:induction false} ItemsFindLeaf(holder: Paths, path: string, parent: Json, items: seq<Json>,
                                         i: nat, rest: seq<Step>)
    requires parent.JArray? && items <= parent.items && PlainTree(parent)
    requires i < |items|
    requires At(items[i], rest).Some? && IsLeaf(At(items[i], rest).value)
    ensures var p := Render(ItemPath(path, i), rest);
            var filled := FillItems(holder, path, items);
            p in filled && filled[p] == At(items[i], rest).value
    decreases parent, 0, |items|
  {
    var p := Render(ItemPath(path, i), rest);
    var n := |items| - 1;
    assert items[i] == parent.items[i];
    assert items[n] == parent.items[n];
    if i == n {
      FillFindsLeaf(FillItems(holder, path, items[..n]), ItemPath(path, n), items[n], rest);
    } else {
      assert items[..n][i] == items[i];
      ItemsFindLeaf(holder, path, parent, items[..n], i, rest);
      FillFrame(FillItems(holder, path, items[..n]), ItemPath(path, n), items[n]);
      RenderExtends(ItemPath(path, i), rest);
      IndexSiblingsApart(p, path, i, n);
    }
  }

  lemma TopSegment(p: string, k: string)
    requires Extends(p, k)
    ensures Segment(p, 0, k)
  {
    assert p[..|k|] == k;
    if p != k {
      var sep := if k + "." <= p then '.' else '[';
      SeparatorAt(p, k, sep);
    }
  }

  /** Paths under two different plain top-level keys never meet. */
  lemma TopKeysApart(p: string, k1: string, k2: string)
    requires PlainKey(k1) && PlainKey(k2) && k1 != k2
    requires Extends(p, k1)
    ensures !Extends(p, k2)
  {
    TopSegment(p, k1);
    if Extends(p, k2) {
      TopSegment(p, k2);
      SegmentUnique(p, 0, k1, k2);
      assert false;
    }
  }

  /**
   * `byPath` on a plain document: the leaf reached by a key followed by any
   * further steps is the value stored under the path that spells those steps
   * out, e.g. `a.b[2].c`.
   */
  lemma {:induction false} ByPathFindsLeaf(json: seq<Field>, steps: seq<Step>)
    requires PlainTree(JObject(json))
    requires |steps| > 0 && steps[0].Key?
    requires At(JObject(json), steps).Some? && IsLeaf(At(JObject(json), steps).value)
    ensures var p := Render(steps[0].key, steps[1..]);
            p in Flattened(json) && Flattened(json)[p] == At(JObject(json), steps).value
  {
    var i := FieldIndex(json, steps[0].key).value;
    TopFieldFindsLeaf(JObject(json), json, i, steps[1..]);
  }

  lemma {:induction false} TopFieldFindsLeaf(parent: Json, json: seq<Field>, i: nat, rest: seq<Step>)
    requires parent.JObject? && json <= parent.fields && PlainTree(parent)
    requires i < |json|
    requires At(json[i].value, rest).Some? && IsLeaf(At(json[i].value, rest).value)
    ensures var p := Render(json[i].key, rest);
            p in Flattened(json) && Flattened(json)[p] == At(json[i].value, rest).value
    decreases |json|
  {
    var p := Render(json[i].key, rest);
    var init := json[..|json| - 1];
    var last := json[|json| - 1];
    assert json[i] == parent.fields[i];
    assert last == parent.fields[|json| - 1];
    if i == |json| - 1 {
      FillFindsLeaf(Flattened(init), last.key, last.value, rest);
    } else {
      assert init[i] == json[i];
      TopFieldFindsLeaf(parent, init, i, rest);
      FillFrame(Flattened(init), last.key, last.value);
      RenderExtends(json[i].key, rest);
      TopKeysApart(p, json[i].key, last.key);
    }
  }

  /** In an object with distinct keys, the field named `fields[i].key` is field `i`. */
  lemma FieldIndexOfDistinct(fields: seq<Field>, i: nat)
    requires DistinctKeys(fields) && i < |fields|
    ensures FieldIndex(fields, fields[i].key) == Some(i)
  {
    var r := FieldIndex(fields, fields[i].key);
    if r.Some? && r.value != i {
      assert false;
    }
  }

  lemma StepsUnfold(path: string, v: Json, s: Step, rest: seq<Step>)
    ensures Render(path, [s] + rest) == Render(StepPath(path, s), rest)
    ensures match s
            case Key(k) => v.JObject? && FieldIndex(v.fields, k).Some? ==>
                             At(v, [s] + rest) == At(v.fields[FieldIndex(v.fields, k).value].value, rest)
            case Index(i) => v.JArray? && i < |v.items| ==> At(v, [s] + rest) == At(v.items[i], rest)
  {
    assert ([s] + rest)[0] == s && ([s] + rest)[1..] == rest;
  }

  /**
   * Every entry `fill` adds was already in the holder, or is a leaf of `v` stored
   * under the path that spells out how to reach it.
   */
  lemma {:induction false} FillSound(holder: Paths, path: string, v: Json, p: string)
    requires PlainTree(v)
    requires p in Fill(holder, path, v)
    ensures || (p in holder && Fill(holder, path, v)[p] == holder[p])
            || exists steps :: Render(path, steps) == p && At(v, steps) == Some(Fill(holder, path, v)[p])
    decreases v, 1
  {
    var filled := Fill(holder, path, v);
    match v
    case JObject(fields) =>
      FieldsSound(holder, path, v, fields, p);
      if !(p in holder && filled[p] == holder[p]) {
        var i: nat, rest :| i < |fields| && Render(path + "." + fields[i].key, rest) == p
                       && At(fields[i].value, rest) == Some(filled[p]);
        FieldIndexOfDistinct(fields, i);
        StepsUnfold(path, v, Key(fields[i].key), rest);
        assert Render(path, [Key(fields[i].key)] + rest) == p;
      }
    case JArray(items) =>
      ItemsSound(holder, path, v, items, p);
      if !(p in holder && filled[p] == holder[p]) {
        var i: nat, rest :| i < |items| && Render(ItemPath(path, i), rest) == p
                       && At(items[i], rest) == Some(filled[p]);
        StepsUnfold(path, v, Index(i), rest);
        assert Render(path, [Index(i)] + rest) == p;
      }
    case JNull =>
    case _ =>
      if p == path {
        var none: seq<Step> := [];
        assert Render(path, none) == p && At(v, none) == Some(filled[p]);
        assert exists steps :: Render(path, steps) == p && At(v, steps) == Some(filled[p]);
      }
  }

  lemma {:induction false} FieldsSound(holder: Paths, path: string, parent: Json, fields: seq<Field>, p: string)
    requires parent.JObject? && fields <= parent.fields && PlainTree(parent)
    requires p in FillFields(holder, path, fields)
    ensures var filled := FillFields(holder, path, fields);
            || (p in holder && filled[p] == holder[p])
            || exists i: nat, rest :: i < |fields| && Render(path + "." + fields[i].key, rest) == p
                                      && At(fields[i].value, rest) == Some(filled[p])
    decreases parent, 0, |fields|
  {
    var filled := FillFields(holder, path, fields);
    if fields != [] {
      var n := |fields| - 1;
      var init := fields[..n];
      var mid := FillFields(holder, path, init);
      assert fields[n] == parent.fields[n];
      FillSound(mid, path + "." + fields[n].key, fields[n].value, p);
      if p in mid && filled[p] == mid[p] {
        FieldsSound(holder, path, parent, init, p);
        if !(p in holder && filled[p] == holder[p]) {
          var i: nat, rest :| i < |init| && Render(path + "." + init[i].key, rest) == p
                              && At(init[i].value, rest) == Some(mid[p]);
          assert init[i] == fields[i];
        }
      } else {
        var steps :| Render(path + "." + fields[n].key, steps) == p && At(fields[n].value, steps) == Some(filled[p]);
      }
    }
  }

  lemma {:induction false} ItemsSound(holder: Paths, path: string, parent: Json, items: seq<Json>, p: string)
    requires parent.JArray? && items <= parent.items && PlainTree(parent)
    requires p in FillItems(holder, path, items)
    ensures var filled := FillItems(holder, path, items);
            || (p in holder && filled[p] == holder[p])
            || exists i: nat, rest :: i < |items| && Render(ItemPath(path, i), rest) == p
                                      && At(items[i], rest) == Some(filled[p])
    decreases parent, 0, |items|
  {
    var filled := FillItems(holder, path, items);
    if items != [] {
      var n := |items| - 1;
      var mid := FillItems(holder, path, items[..n]);
      assert items[n] == parent.items[n];
      FillSound(mid, ItemPath(path, n), items[n], p);
      if p in mid && filled[p] == mid[p] {
        ItemsSound(holder, path, parent, items[..n], p);
        if !(p in holder && filled[p] == holder[p]) {
          var i: nat, rest :| i < n && Render(ItemPath(path, i), rest) == p
                              && At(items[..n][i], rest) == Some(mid[p]);
          assert items[..n][i] == items[i];
        }
      } else {
        var steps :| Render(ItemPath(path, n), steps) == p && At(items[n], steps) == Some(filled[p]);
      }
    }
  }

  /**
   * `byPath` invents nothing: on a plain document every entry of the result is the
   * leaf reached by a key followed by further steps, stored under the path that
   * spells those steps out.
   */
  lemma {:induction false} ByPathSound(json: seq<Field>, p: string)
    requires PlainTree(JObject(json))
    requires p in Flattened(json)
    ensures exists steps: seq<Step> :: && |steps| > 0 && steps[0].Key?
                            && Render(steps[0].key, steps[1..]) == p
                            && At(JObject(json), steps) == Some(Flattened(json)[p])
  {
    TopFieldSound(JObject(json), json, p);
    var i: nat, rest :| i < |json|
                        && Render(json[i].key, rest) == p && At(json[i].value, rest) == Some(Flattened(json)[p]);
    FieldIndexOfDistinct(json, i);
    var steps := [Key(json[i].key)] + rest;
    assert steps[0] == Key(json[i].key) && steps[1..] == rest;
  }

  lemma {:induction false} TopFieldSound(parent: Json, json: seq<Field>, p: string)
    requires parent.JObject? && json <= parent.fields && PlainTree(parent)
    requires p in Flattened(json)
    ensures exists i: nat, rest :: i < |json| && Render(json[i].key, rest) == p
                                   && At(json[i].value, rest) == Some(Flattened(json)[p])
    decreases |json|
  {
    var n := |json| - 1;
    var mid := Flattened(json[..n]);
    assert json[n] == parent.fields[n];
    FillSound(mid, json[n].key, json[n].value, p);
    if p in mid && Flattened(json)[p] == mid[p] {
      TopFieldSound(parent, json[..n], p);
      var i: nat, rest :| i < n && Render(json[..n][i].key, rest) == p
                          && At(json[..n][i].value, rest) == Some(mid[p]);
      assert json[..n][i] == json[i];
    } else {
      var steps :| Render(json[n].key, steps) == p && At(json[n].value, steps) == Some(Flattened(json)[p]);
    }
  }
}
