/**
 The JSON tree that `serde_json::Value` denotes, one navigation step in it, and the two one-step
 edits every path operation of sql/evaluator.rs is built from.
 */
module JsonDocument {
  import opened Wrappers

  /** serde_json keeps integers and floats apart: 1 and 1.0 are different numbers. */
  datatype Number = Integer(i: int) | Float(r: real)

  datatype Doc =
    | Null
    | Bool(b: bool)
    | Num(n: Number)
    | Str(s: string)
    | Arr(elems: seq<Doc>)
    | Obj(fields: map<string, Doc>)

  datatype Step = Idx(i: nat) | Key(k: string)

  type Path = seq<Step>

  predicate SameKind(s: Step, t: Step) {
    s.Idx? == t.Idx?
  }

  /** `d` is the container kind that `s` selects from. */
  predicate Fits(d: Doc, s: Step) {
    if s.Idx? then d.Arr? else d.Obj?
  }

  function Child(d: Doc, s: Step): (r: Option<Doc>) {
    if s.Idx? then
      if d.Arr? && s.i < |d.elems| then Some(d.elems[s.i]) else None
    else
      if d.Obj? && s.k in d.fields then Some(d.fields[s.k]) else None
  }

  function GetAt(d: Doc, p: Path): (r: Option<Doc>) {
    if p == [] then Some(d)
    else match Child(d, p[0])
      case None => None
      case Some(x) => GetAt(x, p[1..])
  }

  /** The array grown with JSON nulls until it has at least `n` elements. */
  function PadTo(a: seq<Doc>, n: nat): (r: seq<Doc>)
    ensures |r| == if |a| < n then n else |a|
    ensures forall j :: 0 <= j < |r| ==> r[j] == if j < |a| then a[j] else Null
    decreases n - |a|
  {
    if |a| < n then PadTo(a + [Null], n) else a
  }

  /** `arr[i] = x` after growing the array far enough. */
  function Write(a: seq<Doc>, i: nat, x: Doc): (r: seq<Doc>)
    ensures |r| == if |a| <= i then i + 1 else |a|
    ensures forall j :: 0 <= j < |r| ==> r[j] == if j == i then x else if j < |a| then a[j] else Null
  {
    PadTo(a, i + 1)[i := x]
  }

  lemma WriteCommutes(a: seq<Doc>, i: nat, x: Doc, j: nat, y: Doc)
    requires i != j
    ensures Write(Write(a, i, x), j, y) == Write(Write(a, j, y), i, x)
  {
  }

  /** Overwrite one slot; a document of the wrong kind becomes an empty container first. */
  function Put(d: Doc, s: Step, x: Doc): (r: Doc)
    ensures Fits(r, s) && Child(r, s) == Some(x)
  {
    match s
    case Idx(i) => Arr(Write(if d.Arr? then d.elems else [], i, x))
    case Key(k) => Obj((if d.Obj? then d.fields else map[])[k := x])
  }

  lemma PutPut(d: Doc, s: Step, x: Doc, y: Doc)
    ensures Put(Put(d, s, x), s, y) == Put(d, s, y)
  {
    if s.Idx? {
      assert Put(Put(d, s, x), s, y).elems == Put(d, s, y).elems;
    } else {
      assert Put(Put(d, s, x), s, y).fields == Put(d, s, y).fields;
    }
  }

  lemma PutsEqual(d: Doc, s: Step, x: Doc, y: Doc)
    ensures Put(d, s, x) == Put(d, s, y) <==> x == y
  {
    assert Child(Put(d, s, x), s) == Some(x) && Child(Put(d, s, y), s) == Some(y);
  }

  lemma PutCommutes(d: Doc, s: Step, x: Doc, t: Step, y: Doc)
    requires s != t && SameKind(s, t)
    ensures Put(Put(d, s, x), t, y) == Put(Put(d, t, y), s, x)
  {
    if s.Idx? {
      WriteCommutes(if d.Arr? then d.elems else [], s.i, x, t.i, y);
    } else {
      var m := if d.Obj? then d.fields else map[];
      assert m[s.k := x][t.k := y] == m[t.k := y][s.k := x];
    }
  }

  lemma PutPresent(d: Doc, s: Step)
    requires Child(d, s).Some?
    ensures Put(d, s, Child(d, s).value) == d
  {
    if s.Idx? {
      assert Put(d, s, Child(d, s).value).elems == d.elems;
    } else {
      assert Put(d, s, Child(d, s).value).fields == d.fields;
    }
  }

  /** Beside the slot written, a slot keeps its child; new slots are null padding. */
  lemma PutFrame(d: Doc, s: Step, x: Doc, t: Step)
    requires s != t
    ensures !SameKind(s, t) ==> Child(Put(d, s, x), t) == None
    ensures SameKind(s, t) && Child(d, t).Some? ==> Child(Put(d, s, x), t) == Child(d, t)
    ensures Child(d, t).None? ==> Child(Put(d, s, x), t) in {None, Some(Null)}
    ensures t.Key? && Child(d, t).None? ==> Child(Put(d, s, x), t) == None
  {
  }
}
