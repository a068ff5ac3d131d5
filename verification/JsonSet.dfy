/**
 `jsonb_set_recursive` (sql/evaluator.rs): the code's in-place walk, the function it computes, and
 the lens, frame and commutation laws of that function over all documents and paths.
 */
module JsonSet {
  import opened Wrappers
  import opened JsonDocument

  /** Whether the walk goes on at `d`: with create_missing a wrong kind is replaced. */
  predicate Accepts(d: Doc, s: Step, create: bool) {
    create || Fits(d, s)
  }

  /** The node the walk enters below `d`, after padding and after an empty slot is opened. */
  function Slot(d: Doc, s: Step, create: bool): (r: Option<Doc>) {
    var here := match s
      case Idx(i) => Some(if d.Arr? && i < |d.elems| then d.elems[i] else Null)
      case Key(_) => Child(d, s);
    if create && (here.None? || (s.Idx? && here.value.Null?)) then Some(Obj(map[])) else here
  }

  /** The document after setting `v` at `p`. */
  function SetAt(d: Doc, p: Path, v: Doc, create: bool): (r: Doc)
    decreases |p|
  {
    if p == [] || !Accepts(d, p[0], create) then d
    else if |p| == 1 then Put(d, p[0], v)
    else match Slot(d, p[0], create)
      case None => d
      case Some(x) => Put(d, p[0], SetAt(x, p[1..], v, create))
  }

  /** The code's padding loop. */
  method ExtendArray(elems: seq<Doc>, arrIdx: nat) returns (arr: seq<Doc>)
    ensures arr == PadTo(elems, arrIdx + 1)
  {
    arr := elems;
    while |arr| <= arrIdx
      invariant PadTo(arr, arrIdx + 1) == PadTo(elems, arrIdx + 1)
    {
      arr := arr + [Null];
    }
  }

  /** The code's walk: a borrowed `&mut` node is the in-parameter `current` and the result `r`. */
  method SetRecursive(current: Doc, path: Path, index: nat, value: Doc, create: bool) returns (r: Doc)
    requires index <= |path|
    ensures r == SetAt(current, path[index..], value, create)
    decreases |path| - index, 2
  {
    if index >= |path| {
      r := current;
    } else if path[index].Idx? {
      r := SetInArray(current, path, index, value, create);
    } else {
      r := SetInObject(current, path, index, value, create);
    }
  }

  method SetInArray(current: Doc, path: Path, index: nat, value: Doc, create: bool) returns (r: Doc)
    requires index < |path| && path[index].Idx?
    ensures r == SetAt(current, path[index..], value, create)
    decreases |path| - index, 1
  {
    r := current;
    if !r.Arr? && create {
      r := Arr([]);
      SetFromWrongKind(current, path[index..], value);
    }
    if r.Arr? {
      var arr := ExtendArray(r.elems, path[index].i);
      arr := SetElement(arr, path, index, value, create);
      SetThroughIndex(r.elems, path[index..], value, create);
      r := Arr(arr);
    }
  }

  method SetElement(elems: seq<Doc>, path: Path, index: nat, value: Doc, create: bool) returns (arr: seq<Doc>)
    requires index < |path| && path[index].Idx? && path[index].i < |elems|
    ensures var here := elems[path[index].i];
            var entered := if here.Null? && create then Obj(map[]) else here;
            arr == elems[path[index].i :=
              if |path[index..]| == 1 then value else SetAt(entered, path[index..][1..], value, create)]
    decreases |path| - index, 0
  {
    arr := elems;
    var arrIdx := path[index].i;
    if index == |path| - 1 {
      arr := arr[arrIdx := value];
    } else {
      if arr[arrIdx].Null? && create {
        arr := arr[arrIdx := Obj(map[])];
      }
      var next := SetRecursive(arr[arrIdx], path, index + 1, value, create);
      assert path[index..][1..] == path[index + 1..];
      arr := arr[arrIdx := next];
    }
  }

  method SetInObject(current: Doc, path: Path, index: nat, value: Doc, create: bool) returns (r: Doc)
    requires index < |path| && path[index].Key?
    ensures r == SetAt(current, path[index..], value, create)
    decreases |path| - index, 0
  {
    r := current;
    if !r.Obj? && create {
      r := Obj(map[]);
      SetFromWrongKind(current, path[index..], value);
    }
    if r.Obj? {
      var key, obj := path[index].k, r.fields;
      if index == |path| - 1 {
        obj := obj[key := value];
      } else {
        if key !in obj && create {
          obj := obj[key := Obj(map[])];
        }
        if key in obj {
          var next := SetRecursive(obj[key], path, index + 1, value, create);
          obj := obj[key := next];
          SetThroughKey(r.fields, path[index..], value, create);
          assert path[index..][1..] == path[index + 1..] && obj == r.fields[key := next];
        }
      }
      r := Obj(obj);
    }
  }

  lemma SetFromWrongKind(d: Doc, p: Path, v: Doc)
    requires p != [] && !Fits(d, p[0])
    ensures SetAt(d, p, v, true) == SetAt(if p[0].Idx? then Arr([]) else Obj(map[]), p, v, true)
  {
  }

  lemma SetThroughIndex(a: seq<Doc>, p: Path, v: Doc, create: bool)
    requires p != [] && p[0].Idx?
    ensures var i := p[0].i;
            var here := if i < |a| then a[i] else Null;
            var entered := if here.Null? && create then Obj(map[]) else here;
            SetAt(Arr(a), p, v, create) ==
            Arr(Write(a, i, if |p| == 1 then v else SetAt(entered, p[1..], v, create)))
  {
  }

  lemma SetThroughKey(m: map<string, Doc>, p: Path, v: Doc, create: bool)
    requires |p| > 1 && p[0].Key? && (create || p[0].k in m)
    ensures var k := p[0].k;
            SetAt(Obj(m), p, v, create) ==
            Obj(m[k := SetAt(if k in m then m[k] else Obj(map[]), p[1..], v, create)])
  {
  }

  // ---------------------------------------------------------------------------------------------
  // Lens laws
  // ---------------------------------------------------------------------------------------------

  /** The node above the last step exists and is of the kind that step selects from. */
  predicate ParentFits(d: Doc, p: Path)
    requires p != []
  {
    var parent := GetAt(d, p[..|p| - 1]);
    parent.Some? && Fits(parent.value, p[|p| - 1])
  }

  /**
   What a set leaves at its own path. With create_missing it is always the new value; without it,
   exactly when the parent is already there with the right kind.
   */
  lemma {:induction false} GetAfterSet(d: Doc, p: Path, v: Doc, create: bool)
    requires p != []
    ensures GetAt(SetAt(d, p, v, create), p) == Some(v) <==> create || ParentFits(d, p)
    ensures !create && !ParentFits(d, p) ==> GetAt(SetAt(d, p, v, create), p) == None
    decreases |p|
  {
    var parentPath := p[..|p| - 1];
    if |p| == 1 {
      assert parentPath == [] && p[1..] == [];
    } else {
      assert parentPath[0] == p[0] && parentPath[1..] == p[1..][..|p| - 2];
      var slot := Slot(d, p[0], create);
      if Accepts(d, p[0], create) && slot.Some? {
        GetAfterSet(slot.value, p[1..], v, create);
      }
    }
  }

  /** A set with create_missing always leaves a container of the first step's kind. */
  lemma SetLeavesContainer(d: Doc, p: Path, v: Doc)
    requires p != []
    ensures Fits(SetAt(d, p, v, true), p[0])
  {
  }

  /** The walk enters the child it wrote, unless that is a null which create_missing would open. */
  lemma SlotOfPut(d: Doc, s: Step, x: Doc, create: bool)
    requires create ==> !x.Null?
    ensures Slot(Put(d, s, x), s, create) == Some(x)
  {
  }

  /** The walk goes on below the first step. */
  predicate Enters(d: Doc, s: Step, create: bool) {
    Accepts(d, s, create) && Slot(d, s, create).Some?
  }

  lemma SetIdle(d: Doc, p: Path, v: Doc, create: bool)
    requires |p| > 1 && !Enters(d, p[0], create)
    ensures SetAt(d, p, v, create) == d && !create
  {
  }

  /** Two sets whose paths share the first step are two sets below it. */
  lemma SetsBelow(d: Doc, p: Path, v: Doc, q: Path, w: Doc, create: bool)
    requires |p| > 1 && |q| > 1 && p[0] == q[0] && Enters(d, p[0], create)
    ensures var x := SetAt(Slot(d, p[0], create).value, p[1..], v, create);
            SetAt(SetAt(d, p, v, create), q, w, create) == Put(d, p[0], SetAt(x, q[1..], w, create))
  {
    var s := p[0];
    var slot := Slot(d, s, create).value;
    var x := SetAt(slot, p[1..], v, create);
    if create {
      SetLeavesContainer(slot, p[1..], v);
    }
    SlotOfPut(d, s, x, create);
    PutPut(d, s, x, SetAt(x, q[1..], w, create));
  }

  /** The last set at a path wins, in both modes. */
  lemma {:induction false} SetTwice(d: Doc, p: Path, v: Doc, w: Doc, create: bool)
    ensures SetAt(SetAt(d, p, v, create), p, w, create) == SetAt(d, p, w, create)
    decreases |p|
  {
    if |p| == 1 {
      SetTwiceHere(d, p, v, w, create);
    } else if |p| > 1 {
      if Enters(d, p[0], create) {
        SetTwice(Slot(d, p[0], create).value, p[1..], v, w, create);
        SetsBelow(d, p, v, p, w, create);
      } else {
        SetIdle(d, p, v, create);
      }
    }
  }

  lemma SetTwiceHere(d: Doc, p: Path, v: Doc, w: Doc, create: bool)
    requires |p| == 1
    ensures SetAt(SetAt(d, p, v, create), p, w, create) == SetAt(d, p, w, create)
  {
    PutPut(d, p[0], v, w);
  }

  /** Setting the value already reachable at a path changes nothing. */
  lemma {:induction false} SetPresent(d: Doc, p: Path, create: bool)
    requires GetAt(d, p).Some?
    ensures SetAt(d, p, GetAt(d, p).value, create) == d
    decreases |p|
  {
    if p != [] {
      PutPresent(d, p[0]);
      if |p| > 1 {
        SetPresent(Child(d, p[0]).value, p[1..], create);
      }
    }
  }

  // ---------------------------------------------------------------------------------------------
  // Diverging paths
  // ---------------------------------------------------------------------------------------------

  /** `p` and `q` agree before step `n` and differ there. */
  predicate DivergeAt(p: Path, q: Path, n: nat) {
    n < |p| && n < |q| && p[..n] == q[..n] && p[n] != q[n]
  }

  /** A set at the other path does not disturb this step. */
  predicate Compatible(p: Path, q: Path, n: nat, create: bool)
    requires DivergeAt(p, q, n)
  {
    !create || SameKind(p[n], q[n])
  }

  lemma DivergeTail(p: Path, q: Path, n: nat)
    requires DivergeAt(p, q, n) && n > 0
    ensures p[0] == q[0] && DivergeAt(p[1..], q[1..], n - 1)
  {
    assert p[0] == p[..n][0] && q[0] == q[..n][0];
    assert p[1..][..n - 1] == p[..n][1..] && q[1..][..n - 1] == q[..n][1..];
  }

  /** The node the walk enters is not affected by a write beside it. */
  lemma SlotFrame(d: Doc, s: Step, x: Doc, t: Step, create: bool)
    requires s != t && SameKind(s, t) && Accepts(d, s, create)
    ensures Slot(Put(d, s, x), t, create) == Slot(d, t, create)
    ensures Accepts(Put(d, s, x), t, create) && Accepts(d, t, create)
  {
    if s.Key? {
      PutFrame(d, s, x, t);
    }
  }

  /** The new content of the slot at the first step, if the set writes it at all. */
  function Written(d: Doc, p: Path, v: Doc, create: bool): (r: Option<Doc>)
    requires p != []
  {
    if !Accepts(d, p[0], create) then None
    else if |p| == 1 then Some(v)
    else match Slot(d, p[0], create)
      case None => None
      case Some(x) => Some(SetAt(x, p[1..], v, create))
  }

  lemma SetIsWritten(d: Doc, p: Path, v: Doc, create: bool)
    requires p != []
    ensures SetAt(d, p, v, create) ==
            match Written(d, p, v, create) case None => d case Some(x) => Put(d, p[0], x)
  {
  }

  /** A write beside the first step of a set does not change what the set writes. */
  lemma WrittenBeside(d: Doc, s: Step, x: Doc, q: Path, w: Doc, create: bool)
    requires q != [] && s != q[0] && SameKind(s, q[0]) && Accepts(d, s, create)
    ensures Written(Put(d, s, x), q, w, create) == Written(d, q, w, create)
  {
    SlotFrame(d, s, x, q[0], create);
  }

  lemma SetsCommuteHere(d: Doc, p: Path, v: Doc, q: Path, w: Doc, create: bool)
    requires p != [] && q != [] && p[0] != q[0] && SameKind(p[0], q[0])
    ensures SetAt(SetAt(d, p, v, create), q, w, create) == SetAt(SetAt(d, q, w, create), p, v, create)
  {
    var x, y := Written(d, p, v, create), Written(d, q, w, create);
    SetIsWritten(d, p, v, create);
    SetIsWritten(d, q, w, create);
    SetIsWritten(SetAt(d, p, v, create), q, w, create);
    SetIsWritten(SetAt(d, q, w, create), p, v, create);
    if x.Some? {
      WrittenBeside(d, p[0], x.value, q, w, create);
    }
    if y.Some? {
      WrittenBeside(d, q[0], y.value, p, v, create);
    }
    if x.Some? && y.Some? {
      PutCommutes(d, p[0], x.value, q[0], y.value);
    }
  }

  /** Without create_missing a document takes index steps or key steps, and a set keeps its kind. */
  lemma SetKeepsKind(d: Doc, p: Path, v: Doc, t: Step)
    requires p != []
    ensures Fits(SetAt(d, p, v, false), t) == Fits(d, t)
  {
  }

  lemma MixedSetsCommuteExactly(d: Doc, p: Path, v: Doc, q: Path, w: Doc, create: bool)
    requires p != [] && q != [] && !SameKind(p[0], q[0])
    ensures SetAt(SetAt(d, p, v, create), q, w, create) == SetAt(SetAt(d, q, w, create), p, v, create)
            <==> !create
  {
    if create {
      SetLeavesContainer(SetAt(d, p, v, create), q, w);
      SetLeavesContainer(SetAt(d, q, w, create), p, v);
    } else {
      SetKeepsKind(d, p, v, q[0]);
      SetKeepsKind(d, q, w, p[0]);
      if Fits(d, p[0]) {
        assert SetAt(d, q, w, create) == d;
      } else {
        assert SetAt(d, p, v, create) == d;
      }
    }
  }

  lemma SetsCommuteBelow(d: Doc, p: Path, v: Doc, q: Path, w: Doc, create: bool)
    requires |p| > 1 && |q| > 1 && p[0] == q[0] && Enters(d, p[0], create)
    ensures var slot := Slot(d, p[0], create).value;
            SetAt(SetAt(d, p, v, create), q, w, create) == SetAt(SetAt(d, q, w, create), p, v, create) <==>
            SetAt(SetAt(slot, p[1..], v, create), q[1..], w, create) ==
            SetAt(SetAt(slot, q[1..], w, create), p[1..], v, create)
  {
    SetsBelow(d, p, v, q, w, create);
    SetsBelow(d, q, w, p, v, create);
    var slot := Slot(d, p[0], create).value;
    var x, y := SetAt(slot, p[1..], v, create), SetAt(slot, q[1..], w, create);
    PutsEqual(d, p[0], SetAt(x, q[1..], w, create), SetAt(y, p[1..], v, create));
  }

  /**
   Two sets at diverging paths commute exactly when create_missing is off, or both paths take the
   same kind of step where they part. A mixed pair under create_missing never commutes: the later
   set replaces the container the earlier one left.
   */
  lemma {:induction false} SetsCommuteExactly(d: Doc, p: Path, v: Doc, q: Path, w: Doc, n: nat, create: bool)
    requires DivergeAt(p, q, n)
    ensures SetAt(SetAt(d, p, v, create), q, w, create) == SetAt(SetAt(d, q, w, create), p, v, create)
            <==> Compatible(p, q, n, create)
    decreases n
  {
    if n > 0 {
      DivergeTail(p, q, n);
      if Enters(d, p[0], create) {
        SetsCommuteExactly(Slot(d, p[0], create).value, p[1..], v, q[1..], w, n - 1, create);
        SetsCommuteBelow(d, p, v, q, w, create);
      } else {
        SetIdle(d, p, v, create);
        SetIdle(d, q, w, create);
      }
    } else if SameKind(p[0], q[0]) {
      SetsCommuteHere(d, p, v, q, w, create);
    } else {
      MixedSetsCommuteExactly(d, p, v, q, w, create);
    }
  }

  /** The node above step `n` of `p` is an array. */
  predicate ArrayAbove(d: Doc, p: Path, n: nat)
    requires n <= |p|
  {
    GetAt(d, p[..n]).Some? && GetAt(d, p[..n]).value.Arr?
  }

  /** `q` ends beside step `n` of `p`, at a smaller index of an array that the set at `p` gets to. */
  predicate Padded(d: Doc, p: Path, q: Path, n: nat, create: bool)
    requires DivergeAt(p, q, n)
  {
    |q| == n + 1 && p[n].Idx? && q[n].Idx? && q[n].i < p[n].i && (create || ArrayAbove(d, p, n))
  }

  lemma FrameHere(d: Doc, p: Path, v: Doc, q: Path, create: bool)
    requires DivergeAt(p, q, 0)
    ensures GetAt(d, q).Some? ==>
              (GetAt(SetAt(d, p, v, create), q) == GetAt(d, q) <==> Compatible(p, q, 0, create))
    ensures GetAt(d, q).None? ==>
              GetAt(SetAt(d, p, v, create), q) == if Padded(d, p, q, 0, create) then Some(Null) else None
  {
    SetIsWritten(d, p, v, create);
    assert p[..0] == [];
    if Written(d, p, v, create).Some? {
      PutFrame(d, p[0], Written(d, p, v, create).value, q[0]);
    }
  }

  /** One level down the condition is the same. */
  lemma ArrayBelow(d: Doc, p: Path, n: nat)
    requires 0 < n <= |p|
    ensures var slot := Slot(d, p[0], false);
            ArrayAbove(d, p, n) <==> Accepts(d, p[0], false) && slot.Some? && ArrayAbove(slot.value, p[1..], n - 1)
  {
    assert p[..n][0] == p[0] && p[..n][1..] == p[1..][..n - 1];
  }

  /**
   What a set leaves at a diverging path: a value that was reachable survives exactly when the paths
   are compatible, and where nothing was reachable null appears exactly when the path ends in the
   padding of the array that the set extends; otherwise there is still nothing.
   */
  lemma {:induction false} SetFrame(d: Doc, p: Path, v: Doc, q: Path, n: nat, create: bool)
    requires DivergeAt(p, q, n)
    ensures GetAt(d, q).Some? ==>
              (GetAt(SetAt(d, p, v, create), q) == GetAt(d, q) <==> Compatible(p, q, n, create))
    ensures GetAt(d, q).None? ==>
              GetAt(SetAt(d, p, v, create), q) == if Padded(d, p, q, n, create) then Some(Null) else None
    decreases n
  {
    if n == 0 {
      FrameHere(d, p, v, q, create);
    } else {
      DivergeTail(p, q, n);
      ArrayBelow(d, p, n);
      if Enters(d, p[0], create) {
        SetFrame(Slot(d, p[0], create).value, p[1..], v, q[1..], n - 1, create);
      } else {
        SetIdle(d, p, v, create);
      }
    }
  }
}
