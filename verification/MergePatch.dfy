/** Session state: the merge patch the store applies to JSON objects, and how it
 * relates to MergePatch of section 2 of RFC 7386. */
module MergePatch {
  import opened Seqs
  import opened JsonValues

  // ---- the standard ----

  /** MergePatch of section 2 of RFC 7386; `None` is a target that does not exist. */
  function Rfc7386(target: Option<Json>, patch: Json): Json
    decreases patch
  {
    if !patch.Obj? then patch
    else
      var t := if target.Some? && target.value.Obj? then target.value.fields else map[];
      Obj(map k | k in t.Keys + patch.fields.Keys && (k in patch.fields ==> patch.fields[k] != Null) ::
            if k in patch.fields then Rfc7386(At(t, k), patch.fields[k]) else t[k])
  }

  // ---- the code ----

  /** What the store's `mergePatch` computes, key by key. */
  function Merged(target: Fields, patch: Fields): Fields
    decreases Obj(patch)
  {
    map k | k in target.Keys + patch.Keys && (k in patch ==> patch[k] != Null) ::
      if k !in patch then target[k]
      else if patch[k].Obj? && k in target && target[k].Obj? then Obj(Merged(target[k].fields, patch[k].fields))
      else patch[k]
  }

  /** One key of a patch, put on what the target holds under it. */
  function Change(t: Option<Json>, v: Json): Option<Json> {
    if v == Null then None
    else if v.Obj? && t.Some? && t.value.Obj? then Some(Obj(Merged(t.value.fields, v.fields)))
    else Some(v)
  }

  lemma MergedByKey(target: Fields, patch: Fields, k: string)
    ensures At(Merged(target, patch), k) == if k in patch then Change(At(target, k), patch[k]) else At(target, k)
  {
  }

  method MergePatch(target: Fields, patch: Fields) returns (out: Fields)
    ensures out == Merged(target, patch)
    decreases Obj(patch)
  {
    out := target;
    var rest := patch.Keys;
    while rest != {}
      invariant rest <= patch.Keys
      invariant forall k | k !in patch || k in rest :: At(out, k) == At(target, k)
      invariant forall k | k in patch && k !in rest :: At(out, k) == Change(At(target, k), patch[k])
      decreases |rest|
    {
      var k :| k in rest;
      var v := patch[k];
      assert At(out, k) == At(target, k);
      if v == Null {
        out := out - {k};
      } else if v.Obj? && k in out && out[k].Obj? {
        var inner := MergePatch(out[k].fields, v.fields);
        out := out[k := Obj(inner)];
      } else {
        out := out[k := v];
      }
      rest := rest - {k};
    }
    forall k ensures At(out, k) == At(Merged(target, patch), k) {
      MergedByKey(target, patch, k);
    }
    MapsAgree(out, Merged(target, patch));
  }

  lemma MapsAgree(a: Fields, b: Fields)
    requires forall k :: At(a, k) == At(b, k)
    ensures a == b
  {
    forall k ensures k in a <==> k in b {
      assert At(a, k) == At(b, k);
    }
    forall k | k in a ensures a[k] == b[k] {
      assert At(a, k) == At(b, k);
    }
  }

  // ---- where the code and the standard agree ----

  /** No member of an object is null, at any depth of objects. */
  ghost predicate NullFree(v: Json) {
    v.Obj? ==> forall k | k in v.fields :: v.fields[k] != Null && NullFree(v.fields[k])
  }

  /** No null lies inside a patch object that lands where the target holds no object. */
  ghost predicate LandsClean(target: Fields, patch: Fields)
    decreases Obj(patch)
  {
    forall k | k in patch && patch[k].Obj? ::
      if k in target && target[k].Obj? then LandsClean(target[k].fields, patch[k].fields) else NullFree(patch[k])
  }

  /** The standard strips nulls from what it adds: it adds a value as it is exactly
   * when there is nothing to strip. */
  lemma {:induction false} AddedAsItIs(v: Json)
    ensures Rfc7386(None, v) == v <==> NullFree(v)
  {
    if v.Obj? {
      var r := Rfc7386(None, v).fields;
      forall k | k in v.fields ensures Rfc7386(None, v.fields[k]) == v.fields[k] <==> NullFree(v.fields[k]) {
        AddedAsItIs(v.fields[k]);
      }
      if NullFree(v) {
        assert r == v.fields;
      } else {
        var k :| k in v.fields && (v.fields[k] == Null || !NullFree(v.fields[k]));
        assert k !in r || r[k] != v.fields[k];
      }
    }
  }

  lemma RfcOverNonObject(target: Option<Json>, v: Json)
    requires target.Some? ==> !target.value.Obj?
    ensures Rfc7386(target, v) == Rfc7386(None, v)
  {
  }

  /** The code computes the standard's result exactly when the patch lands clean. */
  lemma {:induction false} AgreesWithRfc7386(target: Fields, patch: Fields)
    ensures Obj(Merged(target, patch)) == Rfc7386(Some(Obj(target)), Obj(patch)) <==> LandsClean(target, patch)
    decreases Obj(patch)
  {
    var a, b := Merged(target, patch), Rfc7386(Some(Obj(target)), Obj(patch)).fields;
    assert a.Keys == b.Keys;
    forall k | k in patch && patch[k] != Null
      ensures a[k] == b[k] <==>
              (patch[k].Obj? ==>
                 if k in target && target[k].Obj? then LandsClean(target[k].fields, patch[k].fields) else NullFree(patch[k]))
    {
      var v := patch[k];
      if v.Obj? && k in target && target[k].Obj? {
        assert At(target, k) == Some(Obj(target[k].fields)) && v == Obj(v.fields);
        assert a[k] == Obj(Merged(target[k].fields, v.fields));
        assert b[k] == Rfc7386(Some(Obj(target[k].fields)), Obj(v.fields));
        AgreesWithRfc7386(target[k].fields, v.fields);
      } else if v.Obj? {
        assert b[k] == Rfc7386(At(target, k), v);
        RfcOverNonObject(At(target, k), v);
        AddedAsItIs(v);
      } else {
        assert b[k] == Rfc7386(At(target, k), v) == v;
      }
    }
    if a == b {
      assert LandsClean(target, patch);
    } else {
      var k :| k in a && a[k] != b[k];
      assert k in patch && patch[k] != Null;
    }
  }

  // ---- idempotence ----

  /** Merging a value into itself is the identity exactly when it holds no null. */
  lemma {:induction false} SelfMerge(v: Fields)
    ensures Merged(v, v) == v <==> NullFree(Obj(v))
    decreases Obj(v)
  {
    var m := Merged(v, v);
    forall k | k in v && v[k] != Null ensures m[k] == v[k] <==> NullFree(v[k]) {
      if v[k].Obj? {
        assert v[k] == Obj(v[k].fields) && m[k] == Obj(Merged(v[k].fields, v[k].fields));
        SelfMerge(v[k].fields);
      }
    }
    if NullFree(Obj(v)) {
      assert m == v;
    } else {
      var k :| k in v && (v[k] == Null || !NullFree(v[k]));
      assert k !in m || m[k] != v[k];
    }
  }

  /** Applying a patch twice is applying it once, exactly when it lands clean. */
  lemma {:induction false} IdempotentExactlyWhenClean(target: Fields, patch: Fields)
    ensures Merged(Merged(target, patch), patch) == Merged(target, patch) <==> LandsClean(target, patch)
    decreases Obj(patch)
  {
    var once := Merged(target, patch);
    var twice := Merged(once, patch);
    assert twice.Keys == once.Keys;
    forall k | k in patch && patch[k] != Null
      ensures twice[k] == once[k] <==>
              (patch[k].Obj? ==>
                 if k in target && target[k].Obj? then LandsClean(target[k].fields, patch[k].fields) else NullFree(patch[k]))
    {
      var v := patch[k];
      if v.Obj? && k in target && target[k].Obj? {
        assert once[k] == Obj(Merged(target[k].fields, v.fields)) && v == Obj(v.fields);
        assert twice[k] == Obj(Merged(once[k].fields, v.fields));
        IdempotentExactlyWhenClean(target[k].fields, v.fields);
      } else if v.Obj? {
        assert once[k] == v == Obj(v.fields) && twice[k] == Obj(Merged(v.fields, v.fields));
        SelfMerge(v.fields);
      }
    }
    if twice == once {
      assert LandsClean(target, patch);
    } else {
      var k :| k in once && twice[k] != once[k];
      assert k in patch && patch[k] != Null;
    }
  }

  // ---- clearing a dotted path ----

  /** The nested null patch `clearSessionStateKey` builds from the parts of a path. */
  function ClearPatch(parts: seq<string>): Fields
    requires parts != []
  {
    map[parts[0] := if |parts| == 1 then Null else Obj(ClearPatch(parts[1..]))]
  }

  method BuildClearPatch(parts: seq<string>) returns (patch: Fields)
    requires parts != []
    ensures patch == ClearPatch(parts)
  {
    patch := map[parts[|parts| - 1] := Null];
    for i := |parts| - 1 downto 0
      invariant patch == ClearPatch(parts[i..])
    {
      assert parts[i..][1..] == parts[i + 1..];
      patch := map[parts[i] := Obj(patch)];
    }
    assert parts[0..] == parts;
  }

  /** The value at a path of keys, if every step on the way is an object. */
  function Lookup(m: Fields, path: seq<string>): Option<Json>
    requires path != []
    decreases |path|
  {
    if path[0] !in m then None
    else if |path| == 1 then Some(m[path[0]])
    else if m[path[0]].Obj? then Lookup(m[path[0]].fields, path[1..])
    else None
  }

  /** Every proper prefix of the path holds an object. */
  predicate Parents(m: Fields, path: seq<string>)
    requires path != []
    decreases |path|
  {
    |path| > 1 ==> path[0] in m && m[path[0]].Obj? && Parents(m[path[0]].fields, path[1..])
  }

  lemma ClearStep(m: Fields, parts: seq<string>)
    requires parts != []
    ensures var r, k := Merged(m, ClearPatch(parts)), parts[0];
            && (forall j | j != k :: At(r, j) == At(m, j))
            && (|parts| == 1 ==> k !in r)
            && (|parts| > 1 ==>
                  k in r && r[k] == Obj(if k in m && m[k].Obj? then Merged(m[k].fields, ClearPatch(parts[1..]))
                                        else ClearPatch(parts[1..])))
  {
  }

  /** Clearing removes the path exactly when all its parents are objects: when one is
   * missing, the patch lands as it is and leaves a null there instead. */
  lemma {:induction false} ClearRemovesExactlyUnderParents(m: Fields, parts: seq<string>)
    requires parts != []
    ensures Lookup(Merged(m, ClearPatch(parts)), parts).None? <==> Parents(m, parts)
    ensures !Parents(m, parts) ==> Lookup(Merged(m, ClearPatch(parts)), parts) == Some(Null)
    decreases |parts|
  {
    ClearStep(m, parts);
    if |parts| > 1 {
      if parts[0] in m && m[parts[0]].Obj? {
        ClearRemovesExactlyUnderParents(m[parts[0]].fields, parts[1..]);
      } else {
        ClearPatchHoldsNull(parts[1..]);
      }
    }
  }

  lemma {:induction false} ClearPatchHoldsNull(parts: seq<string>)
    requires parts != []
    ensures Lookup(ClearPatch(parts), parts) == Some(Null)
    decreases |parts|
  {
    if |parts| > 1 { ClearPatchHoldsNull(parts[1..]); }
  }

  /** With its parents in place, clearing a path leaves every path that is neither
   * above nor below it unchanged, and every path above it an object. */
  lemma {:induction false} ClearLeavesTheRest(m: Fields, parts: seq<string>, q: seq<string>)
    requires parts != [] && q != [] && Parents(m, parts)
    requires !(parts <= q)
    ensures var r := Lookup(Merged(m, ClearPatch(parts)), q);
            if q < parts then r.Some? && r.value.Obj? && Lookup(m, q).Some? && Lookup(m, q).value.Obj?
            else r == Lookup(m, q)
    decreases |parts|
  {
    ClearStep(m, parts);
    var r := Merged(m, ClearPatch(parts));
    if q[0] == parts[0] {
      assert q[..1] == [parts[0]];
      if |q| > 1 {
        assert parts == [parts[0]] + parts[1..] && q == [q[0]] + q[1..];
        ClearLeavesTheRest(m[parts[0]].fields, parts[1..], q[1..]);
      }
    } else {
      assert At(r, q[0]) == At(m, q[0]);
    }
  }

  /** Nothing below a cleared path is left either. */
  lemma {:induction false} ClearRemovesBelow(m: Fields, parts: seq<string>, q: seq<string>)
    requires parts != [] && parts <= q && Parents(m, parts)
    ensures Lookup(Merged(m, ClearPatch(parts)), q).None?
    decreases |parts|
  {
    ClearStep(m, parts);
    if |parts| > 1 {
      assert parts[1..] <= q[1..];
      ClearRemovesBelow(m[parts[0]].fields, parts[1..], q[1..]);
    }
  }

  /** Where the two part: clearing "a.b" with no "a" there leaves a null where the
   * standard leaves an empty object, and clearing it again takes the null out. */
  lemma ClearingUnderNothingLeavesANull()
    ensures var patch := ClearPatch(["a", "b"]);
            && Merged(map[], patch) == map["a" := Obj(map["b" := Null])]
            && Rfc7386(Some(Obj(map[])), Obj(patch)) == Obj(map["a" := Obj(map[])])
            && Merged(Merged(map[], patch), patch) == map["a" := Obj(map[])]
  {
    var inner: Fields := map["b" := Null];
    assert ["a", "b"][1..] == ["b"];
    assert ClearPatch(["b"]) == inner && ClearPatch(["a", "b"]) == map["a" := Obj(inner)];
    assert Merged(inner, inner) == map[];
    assert Rfc7386(None, Obj(inner)) == Obj(map[]);
  }
}
