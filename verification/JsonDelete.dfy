/**
 `jsonb_delete_recursive` and the merge of `jsonb_concat` (sql/evaluator.rs), with what they do at
 every path, how they sit in the containment order, and when they undo or reassociate.
 */
module JsonDelete {
  import opened Wrappers
  import opened JsonDocument
  import opened JsonSet
  import opened JsonContains

  /** Drop one slot; later array elements move down. */
  function Remove(d: Doc, s: Step): (r: Doc) {
    match s
    case Idx(i) => if d.Arr? && i < |d.elems| then Arr(d.elems[..i] + d.elems[i + 1..]) else d
    case Key(k) => if d.Obj? then Obj(d.fields - {k}) else d
  }

  function DeleteAt(d: Doc, p: Path): (r: Doc)
    decreases |p|
  {
    if p == [] then d
    else if |p| == 1 then Remove(d, p[0])
    else match Child(d, p[0])
      case None => d
      case Some(x) => Put(d, p[0], DeleteAt(x, p[1..]))
  }

  /** The code's walk; the borrowed node is the in-parameter `current` and the result `r`. */
  method DeleteRecursive(current: Doc, path: Path, index: nat) returns (r: Doc)
    requires index <= |path|
    ensures r == DeleteAt(current, path[index..])
    decreases |path| - index
  {
    r := current;
    if index >= |path| {
      return;
    }
    assert path[index..][0] == path[index] && path[index..][1..] == path[index + 1..];
    var isLast := index == |path| - 1;
    match path[index]
    case Idx(arrIdx) =>
      if r.Arr? {
        var arr := r.elems;
        if isLast {
          if arrIdx < |arr| {
            arr := arr[..arrIdx] + arr[arrIdx + 1..];
          }
        } else if arrIdx < |arr| {
          var next := DeleteRecursive(arr[arrIdx], path, index + 1);
          arr := arr[arrIdx := next];
          assert arr == Write(r.elems, arrIdx, next);
        }
        r := Arr(arr);
      }
    case Key(key) =>
      if r.Obj? {
        var obj := r.fields;
        if isLast {
          obj := obj - {key};
        } else if key in obj {
          var next := DeleteRecursive(obj[key], path, index + 1);
          obj := obj[key := next];
        }
        r := Obj(obj);
      }
  }

  // ---------------------------------------------------------------------------------------------
  // What is left at every path
  // ---------------------------------------------------------------------------------------------

  /** Where in the original document the value now at step `t` came from; None if it was dropped. */
  function Origin(dropped: Step, t: Step): (r: Option<Step>) {
    if dropped.Key? then (if t == dropped then None else Some(t))
    else if t.Idx? && t.i >= dropped.i then Some(Idx(t.i + 1))
    else Some(t)
  }

  lemma RemoveChild(d: Doc, s: Step, t: Step)
    ensures Child(Remove(d, s), t) ==
            match Origin(s, t) case None => None case Some(u) => Child(d, u)
  {
  }

  /**
   After a delete, any path through the parent of the deleted slot finds exactly what was at its
   origin before, and any path that leaves the walk earlier finds what it found before.
   */
  lemma {:induction false} GetAfterDelete(d: Doc, p: Path, q: Path)
    requires p != []
    ensures |q| >= |p| && q[..|p| - 1] == p[..|p| - 1] ==>
              GetAt(DeleteAt(d, p), q) ==
              match Origin(p[|p| - 1], q[|p| - 1])
              case None => None
              case Some(u) => GetAt(d, q[|p| - 1 := u])
    ensures forall n: nat :: DivergeAt(p, q, n) && n < |p| - 1 ==> GetAt(DeleteAt(d, p), q) == GetAt(d, q)
    decreases |p|
  {
    if |p| == 1 {
      if q != [] {
        RemoveChild(d, p[0], q[0]);
      }
    } else if q != [] {
      var s := p[0];
      var child := Child(d, s);
      if q[0] == s {
        assert forall n: nat :: DivergeAt(p, q, n) ==> n > 0 && DivergeAt(p[1..], q[1..], n - 1) by {
          forall n: nat | DivergeAt(p, q, n) ensures n > 0 && DivergeAt(p[1..], q[1..], n - 1) {
            DivergeTail(p, q, n);
          }
        }
        if child.Some? {
          GetAfterDelete(child.value, p[1..], q[1..]);
        }
        if |q| >= |p| && q[..|p| - 1] == p[..|p| - 1] {
          assert q[1..][..|p| - 2] == q[..|p| - 1][1..] && p[1..][..|p| - 2] == p[..|p| - 1][1..];
          match Origin(p[|p| - 1], q[|p| - 1]) {
            case None =>
            case Some(u) => assert q[|p| - 1 := u][1..] == q[1..][|p| - 2 := u];
          }
        }
      } else {
        assert |q| >= |p| ==> q[..|p| - 1][0] == q[0] && p[..|p| - 1][0] == p[0];
        if child.Some? {
          PutBeside(d, s, DeleteAt(child.value, p[1..]), q[0]);
        }
      }
    }
  }

  lemma PutBeside(d: Doc, s: Step, x: Doc, t: Step)
    requires s != t && Child(d, s).Some?
    ensures Child(Put(d, s, x), t) == Child(d, t)
  {
  }

  // ---------------------------------------------------------------------------------------------
  // Delete after set
  // ---------------------------------------------------------------------------------------------

  /** The parent is there and the last step names the next free slot in it. */
  predicate FreshSlot(d: Doc, p: Path)
    requires p != []
  {
    ParentFits(d, p) &&
    var parent := GetAt(d, p[..|p| - 1]).value;
    match p[|p| - 1]
    case Idx(i) => i == |parent.elems|
    case Key(k) => k !in parent.fields
  }

  /** Somewhere along the walk an array is too short, so that even a set without create_missing pads it. */
  predicate Overruns(d: Doc, p: Path)
    decreases |p|
  {
    p != [] &&
    ((p[0].Idx? && d.Arr? && p[0].i >= |d.elems|) ||
     (Child(d, p[0]).Some? && Overruns(Child(d, p[0]).value, p[1..])))
  }

  lemma RemoveAfterPut(d: Doc, s: Step, v: Doc)
    ensures Remove(Put(d, s, v), s) == d <==> FreshSlot(d, [s])
  {
    assert [s][..0] == [];
    var r := Remove(Put(d, s, v), s);
    match s
    case Idx(i) =>
      if d.Arr? {
        var w := Write(d.elems, i, v);
        assert r.elems == w[..i] + w[i + 1..];
        if i == |d.elems| {
          assert r.elems == d.elems;
        } else {
          assert |r.elems| != |d.elems|;
        }
      }
    case Key(k) =>
      if d.Obj? {
        if k !in d.fields {
          assert r.fields == d.fields;
        } else {
          assert k !in r.fields;
        }
      }
  }

  lemma PutInjective(d: Doc, s: Step, x: Doc)
    ensures Put(d, s, x) == d <==> Child(d, s) == Some(x)
  {
    if Child(d, s).Some? {
      PutPresent(d, s);
    }
  }

  /** One level of the walk seen from above: everything the two conditions say moves to the child. */
  lemma ConditionsBelow(d: Doc, p: Path)
    requires |p| > 1
    ensures Child(d, p[0]).Some? ==>
              (ParentFits(d, p) <==> ParentFits(Child(d, p[0]).value, p[1..])) &&
              (FreshSlot(d, p) <==> FreshSlot(Child(d, p[0]).value, p[1..]))
    ensures Child(d, p[0]).None? ==> !ParentFits(d, p) && !FreshSlot(d, p)
  {
    assert p[..|p| - 1][0] == p[0] && p[..|p| - 1][1..] == p[1..][..|p| - 2];
  }

  /**
   Deleting the path just set gives the original document back exactly when the set filled a fresh
   slot of an existing parent or, without create_missing, could not reach the parent and padded
   nothing on the way.
   */
  lemma {:induction false} DeleteUndoesSetExactly(d: Doc, p: Path, v: Doc, create: bool)
    requires p != []
    ensures DeleteAt(SetAt(d, p, v, create), p) == d <==>
            FreshSlot(d, p) || (!create && !ParentFits(d, p) && !Overruns(d, p))
    decreases |p|
  {
    if |p| == 1 {
      assert p == [p[0]] && p[..0] == [];
      RemoveAfterPut(d, p[0], v);
    } else {
      ConditionsBelow(d, p);
      var slot := Slot(d, p[0], create);
      if Accepts(d, p[0], create) && slot.Some? {
        DeleteSetBelow(d, p, v, create);
        if Child(d, p[0]) == slot {
          DeleteUndoesSetExactly(slot.value, p[1..], v, create);
        } else if Child(d, p[0]).Some? {
          OpenedSlotStaysOpen(p[1..], v);
        }
      }
    }
  }

  lemma DeleteSetBelow(d: Doc, p: Path, v: Doc, create: bool)
    requires |p| > 1 && Accepts(d, p[0], create) && Slot(d, p[0], create).Some?
    ensures DeleteAt(SetAt(d, p, v, create), p) == d <==>
            Child(d, p[0]) == Some(DeleteAt(SetAt(Slot(d, p[0], create).value, p[1..], v, create), p[1..]))
  {
    var s := p[0];
    var inner := SetAt(Slot(d, s, create).value, p[1..], v, create);
    var back := DeleteAt(inner, p[1..]);
    assert DeleteAt(Put(d, s, inner), p) == Put(Put(d, s, inner), s, back);
    PutPut(d, s, inner, back);
    PutInjective(d, s, back);
  }

  /** With create_missing a null met on the way becomes a container and never turns null again. */
  lemma OpenedSlotStaysOpen(p: Path, v: Doc)
    requires p != []
    ensures DeleteAt(SetAt(Obj(map[]), p, v, true), p) != Null
    ensures !FreshSlot(Null, p)
  {
    if |p| > 1 {
      ConditionsBelow(Null, p);
    }
  }

  // ---------------------------------------------------------------------------------------------
  // Containment
  // ---------------------------------------------------------------------------------------------

  lemma ContainsRemoved(d: Doc, s: Step)
    ensures ContainsByStructure(d, Remove(d, s))
  {
    StructureReflexive(d);
    if d.Obj? && s.Key? {
      forall k | k in d.fields ensures ContainsByStructure(d.fields[k], d.fields[k]) {
        StructureReflexive(d.fields[k]);
      }
    } else if d.Arr? && s.Idx? && s.i < |d.elems| {
      var e := Remove(d, s).elems;
      forall j | 0 <= j < |e|
        ensures SomeContainsByStructure(d.elems, e[j])
      {
        StructureReflexive(e[j]);
        assert e[j] == d.elems[if j < s.i then j else j + 1];
      }
    }
  }

  lemma ContainsSmallerChild(d: Doc, s: Step, x: Doc)
    requires Child(d, s).Some? && ContainsByStructure(Child(d, s).value, x)
    ensures ContainsByStructure(d, Put(d, s, x))
  {
    var r := Put(d, s, x);
    if s.Key? {
      forall k | k in r.fields ensures ContainsByStructure(d.fields[k], r.fields[k]) {
        StructureReflexive(d.fields[k]);
      }
    } else {
      forall j | 0 <= j < |r.elems|
        ensures SomeContainsByStructure(d.elems, r.elems[j])
      {
        StructureReflexive(d.elems[j]);
        assert ContainsByStructure(d.elems[j], r.elems[j]);
      }
    }
  }

  lemma {:induction false} ContainsDeletedByStructure(d: Doc, p: Path)
    ensures ContainsByStructure(d, DeleteAt(d, p))
    decreases |p|
  {
    StructureReflexive(d);
    if |p| == 1 {
      ContainsRemoved(d, p[0]);
    } else if |p| > 1 && Child(d, p[0]).Some? {
      ContainsDeletedByStructure(Child(d, p[0]).value, p[1..]);
      ContainsSmallerChild(d, p[0], DeleteAt(Child(d, p[0]).value, p[1..]));
    }
  }

  /** Every document contains what is left of it after deleting any path. */
  lemma ContainsDeleted(d: Doc, p: Path)
    ensures Contains(d, DeleteAt(d, p))
  {
    ContainsDeletedByStructure(d, p);
    ShortcutOnlyForScalars(d, DeleteAt(d, p));
  }

  // ---------------------------------------------------------------------------------------------
  // Concatenation
  // ---------------------------------------------------------------------------------------------

  predicate SameContainer(a: Doc, b: Doc) {
    (a.Obj? && b.Obj?) || (a.Arr? && b.Arr?)
  }

  function Concat(a: Doc, b: Doc): (r: Doc) {
    if a.Obj? && b.Obj? then Obj(a.fields + b.fields)
    else if a.Arr? && b.Arr? then Arr(a.elems + b.elems)
    else b
  }

  /** The code's merge: fields of the right operand are inserted one by one, in no fixed order. */
  method ConcatInPlace(json1: Doc, json2: Doc) returns (r: Doc)
    ensures r == Concat(json1, json2)
  {
    r := json1;
    if r.Obj? && json2.Obj? {
      var obj := r.fields;
      var todo := json2.fields.Keys;
      while todo != {}
        invariant todo <= json2.fields.Keys
        invariant obj.Keys == json1.fields.Keys + (json2.fields.Keys - todo)
        invariant forall k :: k in obj ==>
          obj[k] == if k in json2.fields && k !in todo then json2.fields[k] else json1.fields[k]
        decreases todo
      {
        var key :| key in todo;
        obj := obj[key := json2.fields[key]];
        todo := todo - {key};
      }
      r := Obj(obj);
      assert obj == json1.fields + json2.fields;
    } else if r.Arr? && json2.Arr? {
      r := Arr(r.elems + json2.elems);
    } else {
      r := json2;
    }
  }

  /**
   Where the parts of a concatenation are: the elements of the left array, then those of the right;
   in an object the right operand wins; and unless both are of one container kind only the right is left.
   */
  lemma ConcatChild(a: Doc, b: Doc, s: Step)
    ensures Child(Concat(a, b), s) ==
            if !SameContainer(a, b) || s.Key? then
              if SameContainer(a, b) && Child(b, s).None? then Child(a, s) else Child(b, s)
            else if a.Obj? then None
            else if s.i < |a.elems| then Some(a.elems[s.i])
            else if s.i < |a.elems| + |b.elems| then Some(b.elems[s.i - |a.elems|]) else None
    ensures !SameContainer(a, b) ==> Concat(a, b) == b
  {
  }

  /** Every concatenation contains its right operand. */
  lemma ConcatContainsRight(a: Doc, b: Doc)
    ensures Contains(Concat(a, b), b)
  {
    var c := Concat(a, b);
    if a.Obj? && b.Obj? {
      assert forall k :: k in b.fields ==> Contains(c.fields[k], b.fields[k]);
    } else if a.Arr? && b.Arr? {
      forall i | 0 <= i < |b.elems|
        ensures SomeContains(c.elems, b.elems[i])
      {
        assert c.elems[|a.elems| + i] == b.elems[i];
      }
    }
  }

  /** `c` already has everything `a` would bring to `Concat(a, c)`. */
  predicate Absorbs(c: Doc, a: Doc)
    requires SameContainer(a, c)
  {
    if a.Obj? then a.fields.Keys <= c.fields.Keys else a.elems == []
  }

  /**
   Concatenation associates exactly unless two containers of one kind surround something else, and
   the right one has not already everything the left one would bring.
   */
  lemma ConcatAssociatesExactly(a: Doc, b: Doc, c: Doc)
    ensures Concat(Concat(a, b), c) == Concat(a, Concat(b, c)) <==>
            (SameContainer(a, c) && !SameContainer(a, b) ==> Absorbs(c, a))
  {
    if SameContainer(a, c) && !SameContainer(a, b) {
      if a.Obj? {
        if Absorbs(c, a) {
          assert a.fields + c.fields == c.fields;
        } else {
          var k :| k in a.fields && k !in c.fields;
          assert k in (a.fields + c.fields);
        }
      } else if !Absorbs(c, a) {
        assert |a.elems + c.elems| != |c.elems|;
      }
    } else if SameContainer(a, b) && SameContainer(b, c) {
      if a.Obj? {
        assert (a.fields + b.fields) + c.fields == a.fields + (b.fields + c.fields);
      } else {
        assert (a.elems + b.elems) + c.elems == a.elems + (b.elems + c.elems);
      }
    }
  }
}
