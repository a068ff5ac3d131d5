/**
 `json_contains` (sql/evaluator.rs), the `@>` operator: a preorder on documents, whose equality
 shortcut only matters for scalars, and whose kernel is equality exactly where no array can be
 padded with repeats.
 */
module JsonContains {
  import opened Wrappers
  import opened JsonDocument

  /** The code's recursion, equality shortcut first. */
  predicate Contains(l: Doc, r: Doc)
    decreases r, 0
  {
    if l == r then true
    else match (l, r)
      case (Obj(lf), Obj(rf)) =>
        forall k :: k in rf ==> k in lf && Contains(lf[k], rf[k])
      case (Arr(le), Arr(re)) =>
        forall i :: 0 <= i < |re| ==> SomeContains(le, re[i])
      case _ => false
  }

  predicate SomeContains(le: seq<Doc>, x: Doc)
    decreases x, 1
  {
    exists j :: 0 <= j < |le| && Contains(le[j], x)
  }

  /** The same recursion with equality consulted at scalars only. */
  predicate ContainsByStructure(l: Doc, r: Doc)
    decreases r, 0
  {
    match (l, r)
    case (Obj(lf), Obj(rf)) =>
      forall k :: k in rf ==> k in lf && ContainsByStructure(lf[k], rf[k])
    case (Arr(le), Arr(re)) =>
      forall i :: 0 <= i < |re| ==> SomeContainsByStructure(le, re[i])
    case _ => l == r
  }

  predicate SomeContainsByStructure(le: seq<Doc>, x: Doc)
    decreases x, 1
  {
    exists j :: 0 <= j < |le| && ContainsByStructure(le[j], x)
  }

  lemma {:induction false} StructureReflexive(d: Doc)
    ensures ContainsByStructure(d, d)
  {
    match d
    case Obj(f) =>
      forall k | k in f ensures ContainsByStructure(f[k], f[k]) {
        StructureReflexive(f[k]);
      }
    case Arr(e) =>
      forall i | 0 <= i < |e| ensures SomeContainsByStructure(e, e[i]) {
        StructureReflexive(e[i]);
      }
    case _ =>
  }

  /** The equality shortcut never changes an answer above the scalars. */
  lemma {:induction false} ShortcutOnlyForScalars(l: Doc, r: Doc)
    ensures Contains(l, r) <==> ContainsByStructure(l, r)
    decreases r
  {
    if l == r {
      StructureReflexive(l);
    } else {
      match (l, r)
      case (Obj(lf), Obj(rf)) =>
        forall k | k in rf && k in lf
          ensures Contains(lf[k], rf[k]) <==> ContainsByStructure(lf[k], rf[k])
        {
          ShortcutOnlyForScalars(lf[k], rf[k]);
        }
      case (Arr(le), Arr(re)) =>
        forall i | 0 <= i < |re|
          ensures SomeContains(le, re[i]) <==> SomeContainsByStructure(le, re[i])
        {
          forall j | 0 <= j < |le|
            ensures Contains(le[j], re[i]) <==> ContainsByStructure(le[j], re[i])
          {
            ShortcutOnlyForScalars(le[j], re[i]);
          }
        }
      case _ =>
    }
  }

  lemma {:induction false} StructureTransitive(a: Doc, b: Doc, c: Doc)
    requires ContainsByStructure(a, b) && ContainsByStructure(b, c)
    ensures ContainsByStructure(a, c)
    decreases c
  {
    match c
    case Obj(cf) =>
      forall k | k in cf ensures k in a.fields && ContainsByStructure(a.fields[k], cf[k]) {
        StructureTransitive(a.fields[k], b.fields[k], cf[k]);
      }
    case Arr(ce) =>
      forall i | 0 <= i < |ce| ensures SomeContainsByStructure(a.elems, ce[i]) {
        assert SomeContainsByStructure(b.elems, ce[i]);
        var m :| 0 <= m < |b.elems| && ContainsByStructure(b.elems[m], ce[i]);
        assert SomeContainsByStructure(a.elems, b.elems[m]);
        var j :| 0 <= j < |a.elems| && ContainsByStructure(a.elems[j], b.elems[m]);
        StructureTransitive(a.elems[j], b.elems[m], ce[i]);
      }
    case _ =>
  }

  /** Containment is transitive on all documents (it is reflexive by its first case). */
  lemma ContainsTransitive(a: Doc, b: Doc, c: Doc)
    requires Contains(a, b) && Contains(b, c)
    ensures Contains(a, c)
  {
    ShortcutOnlyForScalars(a, b);
    ShortcutOnlyForScalars(b, c);
    ShortcutOnlyForScalars(a, c);
    StructureTransitive(a, b, c);
  }

  /** No array anywhere in the document has an element. */
  predicate ArraysEmpty(d: Doc) {
    match d
    case Arr(e) => e == []
    case Obj(f) => forall k :: k in f ==> ArraysEmpty(f[k])
    case _ => true
  }

  predicate ArrayFree(d: Doc) {
    match d
    case Arr(_) => false
    case Obj(f) => forall k :: k in f ==> ArrayFree(f[k])
    case _ => true
  }

  lemma {:induction false} MutualContainmentIsEquality(a: Doc, b: Doc)
    requires ArraysEmpty(a) && ContainsByStructure(a, b) && ContainsByStructure(b, a)
    ensures a == b
    decreases a
  {
    match a
    case Obj(f) =>
      forall k | k in f ensures f[k] == b.fields[k] {
        MutualContainmentIsEquality(f[k], b.fields[k]);
      }
      assert f == b.fields;
    case Arr(_) =>
      assert 0 < |b.elems| ==> SomeContainsByStructure([], b.elems[0]);
    case _ =>
  }

  /** A document with a non-empty array has a different one it cannot be told apart from by `@>`. */
  lemma {:induction false} RepeatedElement(a: Doc) returns (b: Doc)
    requires !ArraysEmpty(a)
    ensures a != b && ContainsByStructure(a, b) && ContainsByStructure(b, a)
    decreases a
  {
    StructureReflexive(a);
    match a
    case Arr(e) =>
      b := Arr(e + [e[0]]);
      assert |b.elems| != |e|;
      forall i | 0 <= i < |b.elems| ensures SomeContainsByStructure(e, b.elems[i]) {
        StructureReflexive(b.elems[i]);
        assert b.elems[i] == e[if i < |e| then i else 0];
      }
      forall i | 0 <= i < |e| ensures SomeContainsByStructure(b.elems, e[i]) {
        StructureReflexive(e[i]);
        assert b.elems[i] == e[i];
      }
    case Obj(f) =>
      var k :| k in f && !ArraysEmpty(f[k]);
      var y := RepeatedElement(f[k]);
      b := Obj(f[k := y]);
      assert b.fields[k] != f[k];
      forall m | m in f
        ensures ContainsByStructure(f[m], b.fields[m]) && ContainsByStructure(b.fields[m], f[m])
      {
        StructureReflexive(f[m]);
      }
  }

  /**
   Containment both ways forces equality for a document exactly when all its arrays are empty; on
   array-free documents in particular it is antisymmetric.
   */
  lemma AntisymmetryExactly(a: Doc)
    ensures (forall b :: Contains(a, b) && Contains(b, a) ==> a == b) <==> ArraysEmpty(a)
    ensures ArrayFree(a) ==> ArraysEmpty(a)
  {
    if ArraysEmpty(a) {
      forall b | Contains(a, b) && Contains(b, a) ensures a == b {
        ShortcutOnlyForScalars(a, b);
        ShortcutOnlyForScalars(b, a);
        MutualContainmentIsEquality(a, b);
      }
    } else {
      var b := RepeatedElement(a);
      ShortcutOnlyForScalars(a, b);
      ShortcutOnlyForScalars(b, a);
    }
    ArrayFreeHasNoArrays(a);
  }

  lemma {:induction false} ArrayFreeHasNoArrays(a: Doc)
    ensures ArrayFree(a) ==> ArraysEmpty(a)
  {
    if a.Obj? {
      forall k | k in a.fields ensures ArrayFree(a.fields[k]) ==> ArraysEmpty(a.fields[k]) {
        ArrayFreeHasNoArrays(a.fields[k]);
      }
    }
  }

  // ---------------------------------------------------------------------------------------------
  // What containment says of the parts
  // ---------------------------------------------------------------------------------------------

  predicate Scalar(d: Doc) {
    !d.Arr? && !d.Obj?
  }

  /** Between arrays of scalars, containment is inclusion of the elements. */
  lemma ScalarArraysExactly(l: seq<Doc>, r: seq<Doc>)
    requires forall i :: 0 <= i < |r| ==> Scalar(r[i])
    ensures Contains(Arr(l), Arr(r)) <==> forall i :: 0 <= i < |r| ==> r[i] in l
  {
    forall i | 0 <= i < |r| ensures SomeContains(l, r[i]) <==> r[i] in l {
      if r[i] in l {
        var j :| 0 <= j < |l| && l[j] == r[i];
        assert Contains(l[j], r[i]);
      }
    }
    if l == r {
      assert forall i :: 0 <= i < |r| ==> l[i] in l;
    }
  }

  /** The same scalar, or two objects. */
  predicate Alike(l: Doc, r: Doc) {
    if r.Obj? then l.Obj? else l == r
  }

  /** Everything `r` has at a path of keys, `l` has there too. */
  ghost predicate HasAll(l: Doc, r: Doc) {
    forall q: Path :: GetAt(r, q).Some? ==> GetAt(l, q).Some? && Alike(GetAt(l, q).value, GetAt(r, q).value)
  }

  lemma HasAllBelow(l: Doc, r: Doc, k: string)
    requires r.Obj? && k in r.fields && HasAll(l, r)
    ensures l.Obj? && k in l.fields && HasAll(l.fields[k], r.fields[k])
  {
    assert GetAt(r, []) == Some(r) && GetAt(l, []) == Some(l);
    assert GetAt(r, [Key(k)]) == GetAt(r.fields[k], [Key(k)][1..]);
    forall q | GetAt(r.fields[k], q).Some?
      ensures GetAt(l.fields[k], q).Some? && Alike(GetAt(l.fields[k], q).value, GetAt(r.fields[k], q).value)
    {
      assert ([Key(k)] + q)[1..] == q;
      assert GetAt(r, [Key(k)] + q) == GetAt(r.fields[k], q);
    }
  }

  lemma HasAllAbove(l: Doc, r: Doc)
    requires ArrayFree(r) && Alike(l, r)
    requires r.Obj? ==> forall k :: k in r.fields ==> k in l.fields && HasAll(l.fields[k], r.fields[k])
    ensures HasAll(l, r)
  {
    forall q: Path | GetAt(r, q).Some?
      ensures GetAt(l, q).Some? && Alike(GetAt(l, q).value, GetAt(r, q).value)
    {
      if q != [] {
        var k := q[0].k;
        assert HasAll(l.fields[k], r.fields[k]) && GetAt(r.fields[k], q[1..]).Some?;
      }
    }
  }

  /**
   An array-free document is contained exactly if everything it has at any path is there as well,
   scalars with the same value.
   */
  lemma {:induction false} ContainsExactly(l: Doc, r: Doc)
    requires ArrayFree(r)
    ensures Contains(l, r) <==> HasAll(l, r)
    decreases r
  {
    if r.Obj? {
      if l.Obj? {
        forall k | k in r.fields && k in l.fields
          ensures Contains(l.fields[k], r.fields[k]) <==> HasAll(l.fields[k], r.fields[k])
        {
          ContainsExactly(l.fields[k], r.fields[k]);
        }
      }
    }
    if Contains(l, r) {
      if l == r {
        SelfHasAll(r);
      } else {
        HasAllAbove(l, r);
      }
    }
    if HasAll(l, r) {
      assert GetAt(r, []) == Some(r) && GetAt(l, []) == Some(l);
      if r.Obj? {
        forall k | k in r.fields ensures k in l.fields && Contains(l.fields[k], r.fields[k]) {
          HasAllBelow(l, r, k);
        }
      }
    }
  }

  lemma SelfHasAll(d: Doc)
    ensures HasAll(d, d)
  {
  }
}
