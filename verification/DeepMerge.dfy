/** The deep merge of JSON objects: incoming wins, objects merge recursively,
    and the order in which a map is iterated does not matter. */
module DeepMerge {
  import opened Lists

  /** A decoded document; anything that is not an object is an atom. */
  datatype Json = Atom(text: string) | Object(fields: map<string, Json>)

  function Merge(a: Json, b: Json): (m: Json)
    ensures b.Object? ==> m.Object?
    decreases b
  {
    if a.Object? && b.Object? then
      Object(map k | k in a.fields.Keys + b.fields.Keys ::
               if k !in b.fields then a.fields[k]
               else if k in a.fields then Merge(a.fields[k], b.fields[k])
               else b.fields[k])
    else b
  }

  function Overlaid(a: map<string, Json>, b: map<string, Json>): map<string, Json> {
    Merge(Object(a), Object(b)).fields
  }

  /** One object of the tree, merged into in place. */
  class JsonObject {
    var fields: map<string, Json>

    constructor (fields: map<string, Json>)
      ensures this.fields == fields
    {
      this.fields := fields;
    }

    method DeepMerge(incoming: Json)
      requires incoming.Object?
      modifies this
      ensures fields == Overlaid(old(fields), incoming.fields)
      decreases incoming, 1
    {
      hide Merge, Overlaid, Partly;
      var values := incoming.fields;
      ghost var before := fields;
      var left := values.Keys;
      NothingMerged(before, values);
      while left != {}
        invariant left <= values.Keys && Partly(before, values, left, fields)
        decreases |left|
      {
        var k :| k in left;
        ghost var now := fields;
        MergeKey(k, values[k], incoming);
        OneMerged(before, values, left, now, fields, k);
        left := left - {k};
      }
      WholeOverlay(before, values, fields);
    }

    /** One key: merge object into object, replace anything else. */
    method MergeKey(k: string, v: Json, ghost incoming: Json)
      requires incoming.Object? && v < incoming
      modifies this
      ensures fields == old(fields)[k := if k in old(fields) then Merge(old(fields)[k], v) else v]
      decreases incoming, 0
    {
      if k in fields && fields[k].Object? && v.Object? {
        ghost var before := fields[k];
        var inner := new JsonObject(fields[k].fields);
        inner.DeepMerge(v);
        fields := fields[k := Object(inner.fields)];
        MergeIsOverlay(before, v);
      } else {
        fields := fields[k := v];
      }
    }
  }

  /** All incoming keys but those left are merged. */
  ghost predicate Partly(a: map<string, Json>, b: map<string, Json>, left: set<string>, m: map<string, Json>) {
    && m.Keys == a.Keys + (b.Keys - left)
    && forall k :: k in m ==> m[k] == if k in b && k !in left then OverlaidAt(a, b, k) else a[k]
  }

  lemma NothingMerged(a: map<string, Json>, b: map<string, Json>)
    ensures Partly(a, b, b.Keys, a)
  {
  }

  lemma OneMerged(a: map<string, Json>, b: map<string, Json>, left: set<string>, m: map<string, Json>,
                  m': map<string, Json>, k: string)
    requires Partly(a, b, left, m) && k in left && left <= b.Keys
    requires m' == m[k := if k in m then Merge(m[k], b[k]) else b[k]]
    ensures Partly(a, b, left - {k}, m')
  {
  }

  lemma WholeOverlay(a: map<string, Json>, b: map<string, Json>, m: map<string, Json>)
    requires Partly(a, b, {}, m)
    ensures m == Overlaid(a, b)
  {
  }

  /** The merged value of one incoming key. */
  function OverlaidAt(a: map<string, Json>, b: map<string, Json>, k: string): Json
    requires k in b
  {
    if k in a then Merge(a[k], b[k]) else b[k]
  }

  lemma MergeIsOverlay(a: Json, b: Json)
    requires a.Object? && b.Object?
    ensures Merge(a, b) == Object(Overlaid(a.fields, b.fields))
  {
  }

  /** The value at a path of keys. */
  function ValueAt(j: Json, path: seq<string>): Option<Json>
    decreases |path|
  {
    if path == [] then Some(j)
    else if j.Object? && path[0] in j.fields then ValueAt(j.fields[path[0]], path[1..])
    else None
  }

  /** A proper prefix of the path leads to an atom, which hides what is below. */
  predicate Shadows(j: Json, path: seq<string>) {
    exists i :: 0 <= i < |path| && ValueAt(j, path[..i]).Some? && ValueAt(j, path[..i]).value.Atom?
  }

  lemma ShadowsBelow(j: Json, path: seq<string>)
    requires path != [] && j.Object?
    ensures Shadows(j, path) <==> path[0] in j.fields && Shadows(j.fields[path[0]], path[1..])
  {
    if i :| 0 <= i < |path| && ValueAt(j, path[..i]).Some? && ValueAt(j, path[..i]).value.Atom? {
      assert i > 0 && path[..i][0] == path[0] && path[..i][1..] == path[1..][..i - 1];
    }
    if path[0] in j.fields && Shadows(j.fields[path[0]], path[1..]) {
      var i :| 0 <= i < |path[1..]| && ValueAt(j.fields[path[0]], path[1..][..i]).Some?
               && ValueAt(j.fields[path[0]], path[1..][..i]).value.Atom?;
      assert path[..i + 1][0] == path[0] && path[..i + 1][1..] == path[1..][..i];
      assert ValueAt(j, path[..i + 1]).Some?;
    }
  }

  /** The merge seen path by path: what incoming has wins, merged where both
      sides have objects; what only the base has stays unless an incoming atom
      sits above it. */
  lemma {:induction false} MergedAt(a: Json, b: Json, path: seq<string>)
    ensures var at, bt := ValueAt(a, path), ValueAt(b, path);
            ValueAt(Merge(a, b), path)
            == if bt.Some? then Some(if at.Some? then Merge(at.value, bt.value) else bt.value)
               else if Shadows(b, path) then None
               else at
    decreases |path|
  {
    if path != [] {
      if b.Atom? {
        assert ValueAt(b, path[..0]) == Some(b);
      } else {
        ShadowsBelow(b, path);
        if a.Object? && path[0] in a.fields && path[0] in b.fields {
          MergedAt(a.fields[path[0]], b.fields[path[0]], path[1..]);
        } else if path[0] in b.fields {
          NothingBelow(b.fields[path[0]], path[1..]);
        }
      }
    }
  }

  lemma {:induction false} NothingBelow(j: Json, path: seq<string>)
    ensures ValueAt(j, path).Some? ==> !Shadows(j, path)
    decreases |path|
  {
    if path != [] && ValueAt(j, path).Some? {
      ShadowsBelow(j, path);
      NothingBelow(j.fields[path[0]], path[1..]);
    }
  }

  /** Every incoming atom is found at its path. */
  lemma IncomingWins(a: Json, b: Json, path: seq<string>)
    requires ValueAt(b, path).Some? && ValueAt(b, path).value.Atom?
    ensures ValueAt(Merge(a, b), path) == ValueAt(b, path)
  {
  }

  /** Every existing value that incoming neither has nor hides survives whole. */
  lemma ExistingSurvives(a: Json, b: Json, path: seq<string>)
    requires ValueAt(b, path).None? && !Shadows(b, path)
    ensures ValueAt(Merge(a, b), path) == ValueAt(a, path)
  {
    MergedAt(a, b, path);
  }

  lemma {:induction false} MergeSelf(j: Json)
    ensures Merge(j, j) == j
    decreases j
  {
    if j.Object? {
      forall k | k in j.fields
        ensures Merge(j.fields[k], j.fields[k]) == j.fields[k]
      {
        MergeSelf(j.fields[k]);
      }
      assert Overlaid(j.fields, j.fields) == j.fields;
    }
  }

  /** Merging the same incoming document again changes nothing. */
  lemma {:induction false} MergeTwice(a: Json, b: Json)
    ensures Merge(Merge(a, b), b) == Merge(a, b)
    decreases b
  {
    if a.Object? && b.Object? {
      var once := Overlaid(a.fields, b.fields);
      forall k | k in b.fields
        ensures Merge(once[k], b.fields[k]) == once[k]
      {
        if k in a.fields {
          MergeTwice(a.fields[k], b.fields[k]);
        } else {
          MergeSelf(b.fields[k]);
        }
      }
      assert Overlaid(once, b.fields) == once;
    } else {
      MergeSelf(b);
    }
  }
}
