/** The data patch merge of internal/project/service.go: `deepMerge` and `mergeJSON` on parsed values. */
module JsonMerge {
  import opened Wrappers

  type Object = map<string, Json>

  datatype Json =
    | Null
    | Bool(b: bool)
    | Number(n: real)
    | Text(s: string)
    | Array(items: seq<Json>)
    | Obj(fields: Object)

  /** The merged object: a patch object meeting a stored object is merged into it, any other patch value wins. */
  function Merge(dst: Object, src: Object): Object
    decreases Obj(src)
  {
    map k | k in dst.Keys + src.Keys ::
      if k !in src then dst[k]
      else if src[k].Obj? && k in dst && dst[k].Obj? then Obj(Merge(dst[k].fields, src[k].fields))
      else src[k]
  }

  /** The source's loop: the patch keys are visited in an arbitrary order, as Go's map iteration does. */
  method DeepMerge(dst: Object, src: Object) returns (merged: Object)
    ensures merged == Merge(dst, src)
    decreases Obj(src)
  {
    merged := dst;
    var todo := src.Keys;
    while todo != {}
      invariant todo <= src.Keys
      invariant merged.Keys == dst.Keys + (src.Keys - todo)
      invariant forall k :: k in merged && k !in src.Keys - todo ==> k in dst && merged[k] == dst[k]
      invariant forall k :: k in src.Keys - todo ==> k in Merge(dst, src) && merged[k] == Merge(dst, src)[k]
      decreases todo
    {
      var k :| k in todo;
      if src[k].Obj? {
        if k in merged && merged[k].Obj? {
          var nested := DeepMerge(merged[k].fields, src[k].fields);
          merged := merged[k := Obj(nested)];
        } else {
          merged := merged[k := src[k]];
        }
      } else {
        merged := merged[k := src[k]];
      }
      todo := todo - {k};
    }
  }

  // ----- What a merge means, path by path -----

  /** The value at the end of a path of keys; the empty path is the object itself. */
  function Lookup(o: Object, path: seq<string>): Option<Json>
    decreases path
  {
    if path == [] then Some(Obj(o))
    else if path[0] !in o then None
    else if o[path[0]].Obj? then Lookup(o[path[0]].fields, path[1..])
    else if |path| == 1 then Some(o[path[0]])
    else None
  }

  /** What a patch says about a path: nothing, a leaf on the way or at its end, or an object at its end. */
  datatype Mention = Silent | Leaf | Node(o: Object)

  function Says(patch: Object, path: seq<string>): Mention
    decreases path
  {
    if path == [] then Node(patch)
    else if path[0] !in patch then Silent
    else if patch[path[0]].Obj? then Says(patch[path[0]].fields, path[1..])
    else Leaf
  }

  /** Patch leaves win, paths the patch is silent about are kept, objects meeting objects merge. */
  lemma {:induction false} MergeByPath(a: Object, b: Object, path: seq<string>)
    ensures Says(b, path).Silent? ==> Lookup(Merge(a, b), path) == Lookup(a, path)
    ensures Says(b, path).Leaf? ==> Lookup(Merge(a, b), path) == Lookup(b, path)
    ensures Says(b, path).Node? ==>
              Lookup(Merge(a, b), path)
              == Some(Obj(match Lookup(a, path)
                          case Some(Obj(fields)) => Merge(fields, Says(b, path).o)
                          case _ => Says(b, path).o))
    decreases |path|
  {
    if path != [] && path[0] in b && b[path[0]].Obj? {
      var k := path[0];
      if k in a && a[k].Obj? {
        MergeByPath(a[k].fields, b[k].fields, path[1..]);
      } else {
        PatchByPath(b[k].fields, path[1..]);
      }
    }
  }

  /** A path inside an object: what it says is what a lookup finds. */
  lemma {:induction false} PatchByPath(b: Object, path: seq<string>)
    ensures Says(b, path).Silent? ==> Lookup(b, path) == None
    ensures Says(b, path).Node? ==> Lookup(b, path) == Some(Obj(Says(b, path).o))
    decreases path
  {
    if path != [] && path[0] in b && b[path[0]].Obj? {
      PatchByPath(b[path[0]].fields, path[1..]);
    }
  }

  // ----- Algebra -----

  lemma EmptyIsIdentity(a: Object)
    ensures Merge(a, map[]) == a && Merge(map[], a) == a
  {
  }

  /** Applying the same patch again changes nothing. */
  lemma {:induction false} MergeIdempotent(a: Object, b: Object)
    ensures Merge(Merge(a, b), b) == Merge(a, b)
    decreases Obj(b)
  {
    var m := Merge(a, b);
    forall k | k in m ensures Merge(m, b)[k] == m[k] {
      if k in b && b[k].Obj? {
        MergeIdempotent(if k in a && a[k].Obj? then a[k].fields else map[], b[k].fields);
        EmptyIsIdentity(b[k].fields);
      }
    }
    assert Merge(m, b) == m;
  }

  /** The patch speaks about everything the object holds, recursively. */
  predicate Covered(x: Object, patch: Object)
    decreases Obj(patch)
  {
    && x.Keys <= patch.Keys
    && forall k | k in x && x[k].Obj? && patch[k].Obj? :: Covered(x[k].fields, patch[k].fields)
  }

  /** A patch replaces an object outright exactly when it covers it. */
  lemma {:induction false} CoveredMeansReplaced(x: Object, patch: Object)
    ensures Covered(x, patch) <==> Merge(x, patch) == patch
    decreases Obj(patch)
  {
    forall k | k in x && k in patch && x[k].Obj? && patch[k].Obj?
      ensures Covered(x[k].fields, patch[k].fields) <==> Merge(x[k].fields, patch[k].fields) == patch[k].fields
    {
      CoveredMeansReplaced(x[k].fields, patch[k].fields);
    }
    var m := Merge(x, patch);
    if Covered(x, patch) {
      assert m.Keys == patch.Keys;
      assert m == patch;
    }
    if m == patch {
      assert x.Keys <= m.Keys;
      forall k | k in x && x[k].Obj? && patch[k].Obj? ensures Covered(x[k].fields, patch[k].fields) {
        assert m[k] == Obj(Merge(x[k].fields, patch[k].fields));
      }
    }
  }

  /** Patches b then c may be folded into one for this a: wherever c's object displaces a leaf of b,
      the object a holds there is one c covers. */
  predicate Regroups(a: Object, b: Object, c: Object)
    decreases Obj(c), 1
  {
    forall k | k in c :: RegroupsAt(a, b, c, k)
  }

  predicate RegroupsAt(a: Object, b: Object, c: Object, k: string)
    requires k in c
    decreases Obj(c), 0
  {
    c[k].Obj? && k in b && k in a && a[k].Obj? ==>
      if b[k].Obj? then Regroups(a[k].fields, b[k].fields, c[k].fields) else Covered(a[k].fields, c[k].fields)
  }

  lemma {:induction false} MergeAssociatesAt(a: Object, b: Object, c: Object, k: string)
    requires k in a || k in b || k in c
    ensures Merge(Merge(a, b), c)[k] == Merge(a, Merge(b, c))[k] <==> (k in c ==> RegroupsAt(a, b, c, k))
    decreases Obj(c), 0
  {
    if k in c && c[k].Obj? && k in b && k in a && a[k].Obj? {
      if b[k].Obj? {
        MergeAssociatesExactly(a[k].fields, b[k].fields, c[k].fields);
      } else {
        CoveredMeansReplaced(a[k].fields, c[k].fields);
      }
    }
  }

  /** Merging b and then c is merging their merge, for exactly these a. */
  lemma {:induction false} MergeAssociatesExactly(a: Object, b: Object, c: Object)
    ensures Merge(Merge(a, b), c) == Merge(a, Merge(b, c)) <==> Regroups(a, b, c)
    decreases Obj(c), 1
  {
    var left, right := Merge(Merge(a, b), c), Merge(a, Merge(b, c));
    assert left.Keys == right.Keys;
    forall k | k in left ensures left[k] == right[k] <==> (k in c ==> RegroupsAt(a, b, c, k)) {
      MergeAssociatesAt(a, b, c, k);
    }
    if Regroups(a, b, c) {
      assert left == right;
    }
  }

  /** Every object of c that meets a value of b meets an object, recursively. */
  predicate Stacks(b: Object, c: Object)
    decreases Obj(c)
  {
    forall k | k in c && c[k].Obj? && k in b :: b[k].Obj? && Stacks(b[k].fields, c[k].fields)
  }

  lemma {:induction false} StacksRegroups(a: Object, b: Object, c: Object)
    requires Stacks(b, c)
    ensures Regroups(a, b, c)
    decreases Obj(c)
  {
    forall k | k in c ensures RegroupsAt(a, b, c, k) {
      if c[k].Obj? && k in b && k in a && a[k].Obj? {
        StacksRegroups(a[k].fields, b[k].fields, c[k].fields);
      }
    }
  }

  lemma {:induction false} FreshKey(keys: set<string>) returns (unused: string)
    ensures forall k | k in keys :: |k| < |unused|
  {
    if keys == {} {
      unused := "";
    } else {
      var k :| k in keys;
      var shorter := FreshKey(keys - {k});
      unused := seq(|k| + |shorter| + 1, i => 'x');
    }
  }

  lemma {:induction false} UnstackedFails(b: Object, c: Object) returns (a: Object)
    requires !Stacks(b, c)
    ensures !Regroups(a, b, c)
    decreases Obj(c)
  {
    var k :| k in c && c[k].Obj? && k in b && !(b[k].Obj? && Stacks(b[k].fields, c[k].fields));
    if b[k].Obj? {
      var inner := UnstackedFails(b[k].fields, c[k].fields);
      a := map[k := Obj(inner)];
    } else {
      var unused := FreshKey(c[k].fields.Keys);
      var inner := map[unused := Null];
      assert unused in inner.Keys && unused !in c[k].fields.Keys;
      a := map[k := Obj(inner)];
    }
    assert !RegroupsAt(a, b, c, k);
  }

  /** Two patches can be folded into one whatever the stored object is, exactly when they stack. */
  lemma PatchesFoldExactly(b: Object, c: Object)
    ensures (forall a: Object :: Merge(Merge(a, b), c) == Merge(a, Merge(b, c))) <==> Stacks(b, c)
  {
    if Stacks(b, c) {
      forall a: Object ensures Merge(Merge(a, b), c) == Merge(a, Merge(b, c)) {
        StacksRegroups(a, b, c);
        MergeAssociatesExactly(a, b, c);
      }
    } else {
      var a := UnstackedFails(b, c);
      MergeAssociatesExactly(a, b, c);
    }
  }

  /** A leaf between two objects: applied in turn the second patch replaces the stored object, folded it merges into it,
      and the two agree exactly when the patch covers what is stored. */
  lemma LeafBetween(stored: Object, leaf: Json, patch: Object)
    requires !leaf.Obj?
    ensures var a, b, c := map["x" := Obj(stored)], map["x" := leaf], map["x" := Obj(patch)];
            && Merge(Merge(a, b), c) == c
            && Merge(a, Merge(b, c)) == map["x" := Obj(Merge(stored, patch))]
            && (Merge(Merge(a, b), c) == Merge(a, Merge(b, c)) <==> Covered(stored, patch))
  {
    var a, b, c: Object := map["x" := Obj(stored)], map["x" := leaf], map["x" := Obj(patch)];
    assert Merge(a, b) == b && Merge(b, c) == c;
    assert Merge(a, c) == map["x" := Obj(Merge(stored, patch))];
    CoveredMeansReplaced(stored, patch);
    assert c["x"] == Obj(patch) && Merge(a, c)["x"] == Obj(Merge(stored, patch));
  }

  /** {"x": {"y": null}} patched with {"x": null} and then with {"x": {}} is not what their merge makes of it. */
  lemma FoldingCanDiffer()
    ensures var a, b, c := map["x" := Obj(map["y" := Null])], map["x" := Null], map["x" := Obj(map[])];
            Merge(Merge(a, b), c) != Merge(a, Merge(b, c))
  {
    var stored: Object := map["y" := Null];
    LeafBetween(stored, Null, map[]);
    assert "y" in stored && !Covered(stored, map[]);
  }
}
