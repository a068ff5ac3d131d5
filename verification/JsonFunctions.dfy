/**
 The SQL entry points over JSON (sql/evaluator.rs): argument checking, path-element reading, the
 three navigators `jsonb_extract_path`, `->` and `jsonb_path_query`, and `jsonb_set`,
 `jsonb_delete`, `jsonb_concat`. A `Value::Json` text is represented by the document it parses to.
 */
module JsonFunctions {
  import opened Wrappers
  import opened Decimal
  import opened JsonDocument
  import opened JsonSet
  import opened JsonDelete
  import opened SqlValues

  // ---------------------------------------------------------------------------------------------
  // Editing functions
  // ---------------------------------------------------------------------------------------------

  predicate IsPathElement(e: Value) {
    e.Text? || e.Int4? || e.Int8?
  }

  /** Path elements of set and delete are turned into text first... */
  function ElementText(e: Value): (s: string)
    requires IsPathElement(e)
  {
    match e
    case Text(s) => s
    case Int4(i) => RenderInt(i)
    case Int8(i) => RenderInt(i)
  }

  /** ...and text that reads as a `usize` is an array index, everything else an object key. */
  function StepOf(e: Value): (s: Step)
    requires IsPathElement(e)
  {
    match ParseUsize(ElementText(e))
    case Some(i) => Idx(i)
    case None => Key(ElementText(e))
  }

  function StepsOf(path: seq<Value>): (p: Path)
    requires forall i :: 0 <= i < |path| ==> IsPathElement(path[i])
    ensures |p| == |path| && forall i :: 0 <= i < |p| ==> p[i] == StepOf(path[i])
  {
    seq(|path|, i requires 0 <= i < |path| => StepOf(path[i]))
  }

  /** The JSON a new value becomes; variants without a JSON form are stored as their printed text. */
  function ToDoc(v: Value, display: Value -> string): (d: Doc) {
    match v
    case SqlNull => Null
    case Boolean(b) => Bool(b)
    case Int2(i) => Num(Integer(i))
    case Int4(i) => Num(Integer(i))
    case Int8(i) => Num(Integer(i))
    case Text(s) => Str(s)
    case Json(d) => d
    case _ => Str(display(v))
  }

  function JsonbSet(args: seq<Value>, display: Value -> string): (r: Result<Value>) {
    if |args| < 3 || |args| > 4 then Err
    else if args[0].SqlNull? then Ok(SqlNull)
    else if !args[0].Json? || !args[1].Array? then Err
    else
      var create := if |args| == 4 && args[3].Boolean? then args[3].b else true;
      var path := args[1].elems;
      if exists i :: 0 <= i < |path| && !IsPathElement(path[i]) then Err
      else Ok(Json(SetAt(args[0].doc, StepsOf(path), ToDoc(args[2], display), create)))
  }

  function JsonbDelete(args: seq<Value>): (r: Result<Value>) {
    if |args| != 2 then Err
    else if args[0].SqlNull? then Ok(SqlNull)
    else if !args[0].Json? || !args[1].Array? then Err
    else
      var path := args[1].elems;
      if exists i :: 0 <= i < |path| && !IsPathElement(path[i]) then Err
      else Ok(Json(DeleteAt(args[0].doc, StepsOf(path))))
  }

  function JsonbConcat(args: seq<Value>): (r: Result<Value>) {
    if |args| != 2 then Err
    else if args[0].SqlNull? then Ok(SqlNull)
    else if !args[0].Json? then Err
    else if args[1].SqlNull? then Ok(args[0])
    else if !args[1].Json? then Err
    else Ok(Json(Concat(args[0].doc, args[1].doc)))
  }

  // ---------------------------------------------------------------------------------------------
  // Navigators
  // ---------------------------------------------------------------------------------------------

  /** The array element an Int4 names; a negative index counts from the end, in i32 arithmetic. */
  function ElementAt(a: seq<Doc>, idx: i32): (r: Option<Doc>) {
    var index := if idx < 0 then WrapI32(WrapI32(|a|) + idx) else idx;
    if 0 <= index < |a| then Some(a[index]) else None
  }

  /** One step of `jsonb_extract_path`: None is SQL NULL. */
  function ExtractStep(d: Doc, e: Value): (r: Result<Option<Doc>>) {
    match e
    case Text(k) => Ok(Child(d, Key(k)))
    case Int4(i) => Ok(if d.Arr? then ElementAt(d.elems, i) else None)
    case _ => Err
  }

  function ExtractFrom(d: Doc, path: seq<Value>): (r: Result<Value>) {
    if path == [] then Ok(Json(d))
    else match ExtractStep(d, path[0])
      case Err => Err
      case Ok(None) => Ok(SqlNull)
      case Ok(Some(x)) => ExtractFrom(x, path[1..])
  }

  function JsonbExtractPath(args: seq<Value>): (r: Result<Value>) {
    if args == [] then Err
    else match args[0]
      case Json(d) => ExtractFrom(d, args[1..])
      case SqlNull => Ok(SqlNull)
      case _ => Err
  }

  /** The code's loop over a `current` cursor. */
  method ExtractPathLoop(doc: Doc, path: seq<Value>) returns (r: Result<Value>)
    ensures r == ExtractFrom(doc, path)
  {
    var current := doc;
    for n := 0 to |path|
      invariant ExtractFrom(doc, path) == ExtractFrom(current, path[n..])
    {
      assert path[n..][1..] == path[n + 1..];
      match path[n] {
        case Text(key) =>
          if !current.Obj? || key !in current.fields {
            return Ok(SqlNull);
          }
          current := current.fields[key];
        case Int4(idx) =>
          if !current.Arr? {
            return Ok(SqlNull);
          }
          var element := ElementAt(current.elems, idx);
          if element.None? {
            return Ok(SqlNull);
          }
          current := element.value;
        case _ =>
          return Err;
      }
    }
    r := Ok(Json(current));
  }

  /** The `->` operator (`json_get_op` with as_text off). */
  function JsonGet(json: Value, key: Value): (r: Result<Value>) {
    if json.SqlNull? then Ok(SqlNull)
    else if !json.Json? then Err
    else
      var d := json.doc;
      match key
      case Text(k) =>
        if d.Obj? then Ok(if k in d.fields then Json(d.fields[k]) else SqlNull) else Err
      case Int4(i) =>
        if d.Arr? then
          match ElementAt(d.elems, i)
          case Some(x) => Ok(Json(x))
          case None => Ok(SqlNull)
        else Err
      case _ => Err
  }

  /** `json -> k1 -> k2 -> ...` */
  function JsonGetChain(json: Value, keys: seq<Value>): (r: Result<Value>)
    decreases |keys|
  {
    if keys == [] then Ok(json)
    else match JsonGet(json, keys[0])
      case Err => Err
      case Ok(v) => JsonGetChain(v, keys[1..])
  }

  lemma {:induction false} NullChain(keys: seq<Value>)
    ensures JsonGetChain(SqlNull, keys) == Ok(SqlNull)
  {
    if keys != [] {
      NullChain(keys[1..]);
    }
  }

  /** Extracting along p, and then along q from the answer, is extracting along p followed by q. */
  lemma {:induction false} ExtractComposes(d: Doc, p: seq<Value>, q: seq<Value>)
    ensures ExtractFrom(d, p + q) ==
            match ExtractFrom(d, p) case Err => Err case Ok(v) => JsonbExtractPath([v] + q)
  {
    if p == [] {
      assert p + q == q && ([Json(d)] + q)[1..] == q;
    } else {
      assert (p + q)[0] == p[0] && (p + q)[1..] == p[1..] + q;
      match ExtractStep(d, p[0])
      case Err =>
      case Ok(None) => assert ([SqlNull] + q)[0] == SqlNull;
      case Ok(Some(x)) => ExtractComposes(x, p[1..], q);
    }
  }

  /**
   A chain of `->` steps and `jsonb_extract_path` over the same keys find the same documents. The
   only difference is that where extraction answers NULL for a step of the wrong kind, the chain
   reports an error.
   */
  lemma {:induction false} ChainAgreesWithExtract(d: Doc, keys: seq<Value>)
    ensures JsonGetChain(Json(d), keys).Ok? ==> JsonGetChain(Json(d), keys) == ExtractFrom(d, keys)
    ensures JsonGetChain(Json(d), keys).Err? ==> ExtractFrom(d, keys) in {Err, Ok(SqlNull)}
  {
    if keys != [] {
      match ExtractStep(d, keys[0])
      case Err =>
      case Ok(None) => NullChain(keys[1..]);
      case Ok(Some(x)) => ChainAgreesWithExtract(x, keys[1..]);
    }
  }

  /** The `->` operator reports an error for this key on this document. */
  predicate Misfits(d: Doc, key: Value) {
    if key.Text? then !d.Obj? else if key.Int4? then !d.Arr? else true
  }

  /** The first `n` keys lead to a document that key `n` does not fit. */
  predicate FailsAt(d: Doc, keys: seq<Value>, n: nat) {
    n < |keys| &&
    match ExtractFrom(d, keys[..n])
    case Ok(Json(x)) => Misfits(x, keys[n])
    case _ => false
  }

  lemma FailsBelow(d: Doc, keys: seq<Value>, n: nat)
    requires n < |keys|
    ensures FailsAt(d, keys, n) <==>
            if n == 0 then Misfits(d, keys[0])
            else match ExtractStep(d, keys[0]) case Ok(Some(x)) => FailsAt(x, keys[1..], n - 1) case _ => false
  {
    if n > 0 {
      assert keys[..n][0] == keys[0] && keys[..n][1..] == keys[1..][..n - 1];
    }
  }

  /** A chain of `->` steps fails exactly when some prefix of it finds a document the next key does not fit. */
  lemma {:induction false} ChainFailsExactly(d: Doc, keys: seq<Value>)
    ensures JsonGetChain(Json(d), keys).Err? <==> exists n: nat :: FailsAt(d, keys, n)
  {
    if keys != [] {
      FailsBelow(d, keys, 0);
    }
    if keys != [] && !Misfits(d, keys[0]) {
      match ExtractStep(d, keys[0])
      case Ok(None) =>
        NullChain(keys[1..]);
        forall n: nat | n < |keys| ensures !FailsAt(d, keys, n) {
          FailsBelow(d, keys, n);
        }
      case Ok(Some(x)) =>
        ChainFailsExactly(x, keys[1..]);
        forall n: nat | 0 < n < |keys| ensures FailsAt(d, keys, n) <==> FailsAt(x, keys[1..], n - 1) {
          FailsBelow(d, keys, n);
        }
        if n: nat :| FailsAt(x, keys[1..], n) {
          assert FailsAt(d, keys, n + 1);
        }
    }
  }

  /** Set and extract read this path element as the same step. */
  predicate ReadAlike(e: Value) {
    (e.Text? && ParseUsize(e.s).None?) || (e.Int4? && e.i4 >= 0)
  }

  lemma ReadAlikeStep(e: Value, d: Doc)
    requires ReadAlike(e)
    ensures ExtractStep(d, e) == Ok(Child(d, StepOf(e)))
  {
    if e.Int4? {
      ParseRender(e.i4);
    }
  }

  /** A path element the two functions read differently finds nothing where the set went. */
  lemma ReadApart(e: Value, d: Doc)
    requires IsPathElement(e) && !ReadAlike(e) && Fits(d, StepOf(e))
    ensures ExtractStep(d, e) in {Err, Ok(None)}
  {
    if e.Int4? {
      ParseNegative(e.i4);
    }
  }

  predicate AllReadAlike(path: seq<Value>) {
    forall i :: 0 <= i < |path| ==> ReadAlike(path[i])
  }

  lemma AllReadAlikeTail(path: seq<Value>)
    requires path != []
    ensures AllReadAlike(path) <==> ReadAlike(path[0]) && AllReadAlike(path[1..])
  {
    assert forall i :: 1 <= i < |path| ==> path[i] == path[1..][i - 1];
  }

  /** One level of extracting what was set: the step is read back, or nothing is found at all. */
  lemma ExtractAfterSetStep(d: Doc, path: seq<Value>, v: Doc)
    requires path != [] && forall i :: 0 <= i < |path| ==> IsPathElement(path[i])
    ensures var after := SetAt(d, StepsOf(path), v, true);
            if ReadAlike(path[0]) then ExtractStep(after, path[0]) == Ok(Child(after, StepOf(path[0])))
            else ExtractStep(after, path[0]) in {Err, Ok(None)}
  {
    var after := SetAt(d, StepsOf(path), v, true);
    if ReadAlike(path[0]) {
      ReadAlikeStep(path[0], after);
    } else {
      SetLeavesContainer(d, StepsOf(path), v);
      ReadApart(path[0], after);
    }
  }

  lemma ChildAfterSet(d: Doc, p: Path, v: Doc)
    requires p != []
    ensures Child(SetAt(d, p, v, true), p[0]) ==
            Some(if |p| == 1 then v else SetAt(Slot(d, p[0], true).value, p[1..], v, true))
  {
  }

  lemma {:induction false} ExtractAfterSetFrom(d: Doc, path: seq<Value>, v: Doc)
    requires path != [] && forall i :: 0 <= i < |path| ==> IsPathElement(path[i])
    ensures ExtractFrom(SetAt(d, StepsOf(path), v, true), path) == Ok(Json(v)) <==> AllReadAlike(path)
    decreases |path|
  {
    var p := StepsOf(path);
    var after := SetAt(d, p, v, true);
    ExtractAfterSetStep(d, path, v);
    ChildAfterSet(d, p, v);
    AllReadAlikeTail(path);
    if !ReadAlike(path[0]) {
      assert ExtractFrom(after, path) in {Err, Ok(SqlNull)};
    } else if |path| == 1 {
      assert ExtractFrom(after, path) == ExtractFrom(v, path[1..]) == Ok(Json(v));
    } else {
      var slot := Slot(d, p[0], true).value;
      assert p[1..] == StepsOf(path[1..]);
      ExtractAfterSetFrom(slot, path[1..], v);
      assert ExtractFrom(after, path) == ExtractFrom(SetAt(slot, p[1..], v, true), path[1..]);
    }
  }

  /**
   `jsonb_extract_path(jsonb_set(d, path, v), path)` is v exactly when every path element is a
   non-negative Int4 or a text that does not read as an array index; for every document and value.
   */
  lemma ExtractAfterSetExactly(d: Doc, path: seq<Value>, v: Value, display: Value -> string)
    requires path != [] && forall i :: 0 <= i < |path| ==> IsPathElement(path[i])
    ensures var after := JsonbSet([Json(d), Array(path), v], display);
            after.Ok? &&
            (JsonbExtractPath([after.value] + path) == Ok(Json(ToDoc(v, display))) <==> AllReadAlike(path))
  {
    var after := JsonbSet([Json(d), Array(path), v], display);
    assert ([after.value] + path)[1..] == path;
    ExtractAfterSetFrom(d, path, ToDoc(v, display));
  }

  /**
   `jsonb_delete(jsonb_set(d, path, v, create), path)` is d exactly when the set filled a fresh slot of
   an existing parent or, with create off, neither reached the parent nor padded anything.
   */
  lemma DeleteAfterSetExactly(d: Doc, path: seq<Value>, v: Value, create: bool, display: Value -> string)
    requires path != [] && forall i :: 0 <= i < |path| ==> IsPathElement(path[i])
    ensures var p, after := StepsOf(path), JsonbSet([Json(d), Array(path), v, Boolean(create)], display);
            after.Ok? &&
            (JsonbDelete([after.value, Array(path)]) == Ok(Json(d)) <==>
             FreshSlot(d, p) || (!create && !ParentFits(d, p) && !Overruns(d, p)))
  {
    var doc := ToDoc(v, display);
    assert JsonbSet([Json(d), Array(path), v, Boolean(create)], display) ==
           Ok(Json(SetAt(d, StepsOf(path), doc, create)));
    DeleteUndoesSetExactly(d, StepsOf(path), doc, create);
  }

  // ---------------------------------------------------------------------------------------------
  // Which place a path names
  // ---------------------------------------------------------------------------------------------

  /**
   To set and delete, a path element names array element n if it is the number n or one of its
   spellings below 2^64; any other text names the key it is, and a negative number the key it prints as.
   */
  ghost predicate Names(e: Value, s: Step) {
    match s
    case Idx(n) =>
      (e.Text? && n < USIZE_LIMIT && SpellsIndex(e.s, n)) || (e.Int4? && e.i4 == n) || (e.Int8? && e.i8 == n)
    case Key(k) =>
      (e.Text? && e.s == k && forall n: nat :: n < USIZE_LIMIT ==> !SpellsIndex(k, n)) ||
      (e.Int4? && e.i4 < 0 && k == "-" + Render(-(e.i4 as int))) ||
      (e.Int8? && e.i8 < 0 && k == "-" + Render(-(e.i8 as int)))
  }

  lemma NamedStep(e: Value, s: Step)
    requires Names(e, s)
    ensures IsPathElement(e) && StepOf(e) == s
  {
    match e
    case Text(t) =>
      if s.Idx? {
        ParseExactly(t, s.i);
      } else if ParseUsize(t).Some? {
        ParseExactly(t, ParseUsize(t).value);
      }
    case Int4(i) => NamedNumber(i, s);
    case Int8(i) => NamedNumber(i, s);
  }

  lemma NamedNumber(i: int, s: Step)
    requires i < USIZE_LIMIT && if s.Idx? then i == s.i else i < 0 && s.k == "-" + Render(-i)
    ensures s == match ParseUsize(RenderInt(i)) case Some(n) => Idx(n) case None => Key(RenderInt(i))
  {
    if i < 0 {
      ParseNegative(i);
    } else {
      ParseRender(i);
    }
  }

  ghost predicate NamesPath(path: seq<Value>, p: Path) {
    |path| == |p| && forall i :: 0 <= i < |p| ==> Names(path[i], p[i])
  }

  lemma NamedPath(path: seq<Value>, p: Path)
    requires NamesPath(path, p)
    ensures (forall i :: 0 <= i < |path| ==> IsPathElement(path[i])) && StepsOf(path) == p
  {
    forall i | 0 <= i < |path| ensures IsPathElement(path[i]) && StepOf(path[i]) == p[i] {
      NamedStep(path[i], p[i]);
    }
  }

  /**
   `jsonb_set` with a path of any length: the new value is at the place the path names (always with
   create_missing, else exactly if its parent is there), and at every place that the walk leaves
   earlier a reachable value stays what it was, under the condition of `SetFrame`.
   */
  lemma SetAtNamedPlace(d: Doc, path: seq<Value>, p: Path, v: Value, create: bool, display: Value -> string)
    requires NamesPath(path, p) && p != []
    ensures var after := JsonbSet([Json(d), Array(path), v, Boolean(create)], display);
            after.Ok? && after.value.Json? &&
            (GetAt(after.value.doc, p) == Some(ToDoc(v, display)) <==> create || ParentFits(d, p)) &&
            (forall q, n: nat :: DivergeAt(p, q, n) && GetAt(d, q).Some? && Compatible(p, q, n, create) ==>
               GetAt(after.value.doc, q) == GetAt(d, q))
  {
    NamedPath(path, p);
    var x := SetAt(d, p, ToDoc(v, display), create);
    assert JsonbSet([Json(d), Array(path), v, Boolean(create)], display) == Ok(Json(x));
    GetAfterSet(d, p, ToDoc(v, display), create);
    if !create && !ParentFits(d, p) {
      assert GetAt(x, p) == None;
    }
    forall q, n: nat | DivergeAt(p, q, n) && GetAt(d, q).Some? && Compatible(p, q, n, create)
      ensures GetAt(x, q) == GetAt(d, q)
    {
      SetFrame(d, p, ToDoc(v, display), q, n, create);
    }
  }

  /** Which place of the old document shows at `q` once `p`, whose parent `q` goes through, is dropped. */
  function ShownAfterDelete(p: Path, q: Path): (r: Option<Path>)
    requires p != [] && |q| >= |p|
  {
    var last := |p| - 1;
    if p[last].Idx? && q[last].Idx? && q[last].i >= p[last].i then Some(q[last := Idx(q[last].i + 1)])
    else if p[last].Key? && q[last] == p[last] then None
    else Some(q)
  }

  lemma DeletedPlace(d: Doc, p: Path, q: Path)
    requires p != [] && |q| >= |p| && q[..|p| - 1] == p[..|p| - 1]
    ensures GetAt(DeleteAt(d, p), q) ==
            match ShownAfterDelete(p, q) case None => None case Some(u) => GetAt(d, u)
  {
    GetAfterDelete(d, p, q);
    var last := |p| - 1;
    assert q[last := q[last]] == q;
  }

  /**
   `jsonb_delete` drops exactly the place the path names: array elements behind it move down by one,
   and what the walk leaves earlier is as it was.
   */
  lemma DeleteAtNamedPlace(d: Doc, path: seq<Value>, p: Path, q: Path)
    requires NamesPath(path, p) && p != []
    ensures var after := JsonbDelete([Json(d), Array(path)]);
            after.Ok? && after.value.Json? &&
            (|q| >= |p| && q[..|p| - 1] == p[..|p| - 1] ==>
               GetAt(after.value.doc, q) ==
               match ShownAfterDelete(p, q) case None => None case Some(u) => GetAt(d, u)) &&
            (forall n: nat :: DivergeAt(p, q, n) && n < |p| - 1 ==> GetAt(after.value.doc, q) == GetAt(d, q))
  {
    NamedPath(path, p);
    assert JsonbDelete([Json(d), Array(path)]) == Ok(Json(DeleteAt(d, p)));
    if |q| >= |p| && q[..|p| - 1] == p[..|p| - 1] {
      DeletedPlace(d, p, q);
    }
    GetAfterDelete(d, p, q);
  }

  /** In an array the number n, also as text, is element n, counted from 0. */
  lemma IndexNamesElement(a: seq<Doc>, e: Value, n: nat, v: Value, display: Value -> string)
    requires Names(e, Idx(n))
    ensures var after := JsonbSet([Json(Arr(a)), Array([e]), v], display);
            after.Ok? && after.value.Json? && after.value.doc.Arr? &&
            var b := after.value.doc.elems;
            |b| == (if n < |a| then |a| else n + 1) && b[n] == ToDoc(v, display) &&
            forall i :: 0 <= i < |b| && i != n ==> b[i] == if i < |a| then a[i] else Null
    ensures n < |a| ==> JsonbDelete([Json(Arr(a)), Array([e])]) == Ok(Json(Arr(a[..n] + a[n + 1..])))
  {
    NamedPath([e], [Idx(n)]);
    assert JsonbSet([Json(Arr(a)), Array([e]), v], display) ==
           Ok(Json(SetAt(Arr(a), [Idx(n)], ToDoc(v, display), true)));
  }

  /** Extraction counts a negative Int4 from the end of the array. */
  lemma NegativeCountsFromEnd(a: seq<Doc>, idx: i32)
    requires idx < 0 && |a| < 0x8000_0000
    ensures ExtractFrom(Arr(a), [Int4(idx)]) == Ok(if |a| + idx >= 0 then Json(a[|a| + idx]) else SqlNull)
  {
    WrapUnique(|a|, |a|);
    WrapUnique(|a| + idx, |a| + idx);
    assert [Int4(idx)][1..] == [];
  }

  /** What a new value is when it is read back. */
  lemma NewValueForms(d: Doc, h: i16, i: i32, j: i64, b: bool, t: string, display: Value -> string)
    ensures ToDoc(SqlNull, display) == Null && ToDoc(Boolean(b), display) == Bool(b)
    ensures ToDoc(Int2(h), display) == Num(Integer(h))
    ensures ToDoc(Int4(i), display) == Num(Integer(i)) && ToDoc(Int8(j), display) == Num(Integer(j))
    ensures ToDoc(Text(t), display) == Str(t) && ToDoc(Json(d), display) == d
  {
  }

  /** Only a boolean false as fourth argument stops `jsonb_set` from creating what is missing. */
  lemma CreatesByDefault(d: Doc, path: seq<Value>, v: Value, flag: Value, display: Value -> string)
    requires flag != Boolean(false)
    ensures JsonbSet([Json(d), Array(path), v], display) == JsonbSet([Json(d), Array(path), v, flag], display) ==
            JsonbSet([Json(d), Array(path), v, Boolean(true)], display)
  {
  }

  /** Concatenating `c` to `a` changes nothing. */
  predicate AddsNothing(a: Doc, c: Doc) {
    if a.Obj? && c.Obj? then forall k :: k in c.fields ==> k in a.fields && a.fields[k] == c.fields[k]
    else if a.Arr? && c.Arr? then c.elems == []
    else a == c
  }

  lemma AddsNothingExactly(a: Doc, c: Doc)
    ensures Concat(a, c) == a <==> AddsNothing(a, c)
  {
    if a.Obj? && c.Obj? {
      if AddsNothing(a, c) {
        assert a.fields + c.fields == a.fields;
      } else {
        var k :| k in c.fields && !(k in a.fields && a.fields[k] == c.fields[k]);
        assert (a.fields + c.fields)[k] == c.fields[k];
      }
    } else if a.Arr? && c.Arr? {
      if c.elems == [] {
        assert a.elems + c.elems == a.elems;
      } else {
        assert |a.elems + c.elems| != |a.elems|;
      }
    }
  }

  function ConcatBoth(x: Value, y: Value, z: Value): (r: (Result<Value>, Result<Value>))
    requires (x.Json? || x.SqlNull?) && (y.Json? || y.SqlNull?) && (z.Json? || z.SqlNull?)
  {
    (JsonbConcat([JsonbConcat([x, y]).value, z]), JsonbConcat([x, JsonbConcat([y, z]).value]))
  }

  /**
   jsonb_concat of JSON-or-NULL values associates exactly when an outer operand is NULL, or a middle
   NULL hides a right operand that adds nothing, or the documents themselves associate.
   */
  lemma JsonbConcatAssociatesExactly(x: Value, y: Value, z: Value)
    requires (x.Json? || x.SqlNull?) && (y.Json? || y.SqlNull?) && (z.Json? || z.SqlNull?)
    ensures ConcatBoth(x, y, z).0 == ConcatBoth(x, y, z).1 <==>
            (x.Json? && z.Json? ==>
             if y.SqlNull? then AddsNothing(x.doc, z.doc)
             else SameContainer(x.doc, z.doc) && !SameContainer(x.doc, y.doc) ==> Absorbs(z.doc, x.doc))
  {
    if x.Json? && z.Json? {
      AddsNothingExactly(x.doc, z.doc);
      if y.Json? {
        ConcatAssociatesExactly(x.doc, y.doc, z.doc);
      }
    }
  }

  // ---------------------------------------------------------------------------------------------
  // jsonb_path_query
  // ---------------------------------------------------------------------------------------------

  /** `char::is_whitespace`: the Unicode White_Space property. */
  predicate IsWhitespace(c: char) {
    var n := c as int;
    0x09 <= n <= 0x0D || n == 0x20 || n == 0x85 || n == 0xA0 || n == 0x1680 ||
    0x2000 <= n <= 0x200A || n == 0x2028 || n == 0x2029 || n == 0x202F || n == 0x205F || n == 0x3000
  }

  function TrimStart(s: string): (r: string)
    ensures r != [] ==> !IsWhitespace(r[0])
  {
    if s != [] && IsWhitespace(s[0]) then TrimStart(s[1..]) else s
  }

  function TrimEnd(s: string): (r: string)
    ensures r != [] ==> !IsWhitespace(r[|r| - 1])
  {
    if s != [] && IsWhitespace(s[|s| - 1]) then TrimEnd(s[..|s| - 1]) else s
  }

  function Trim(s: string): (r: string) {
    TrimEnd(TrimStart(s))
  }

  function SplitDots(s: string): (r: seq<string>)
    ensures r != []
  {
    if s == [] then [""]
    else
      var rest := SplitDots(s[1..]);
      if s[0] == '.' then [""] + rest else [[s[0]] + rest[0]] + rest[1..]
  }

  /** `[n]` with a `usize` between the brackets. */
  function BracketIndex(key: string): (r: Option<nat>) {
    if |key| >= 2 && key[0] == '[' && key[|key| - 1] == ']' then ParseUsize(key[1..|key| - 1])
    else None
  }

  /** The step a trimmed, non-empty component stands for. */
  function ComponentStep(key: string): (s: Step) {
    match BracketIndex(key)
    case Some(i) => Idx(i)
    case None => Key(key)
  }

  /** The steps a whole path text stands for: blank components are skipped. */
  function QuerySteps(components: seq<string>): (p: Path) {
    if components == [] then []
    else
      var key := Trim(components[0]);
      (if key == "" then [] else [ComponentStep(key)]) + QuerySteps(components[1..])
  }

  /** What a path text finds. */
  function PathQueried(d: Doc, path: string): (r: Value) {
    match GetAt(d, QuerySteps(SplitDots(path)))
    case None => SqlNull
    case Some(x) => Json(x)
  }

  function JsonbPathQuery(args: seq<Value>): (r: Result<Value>) {
    if |args| != 2 then Err
    else if args[0].SqlNull? then Ok(SqlNull)
    else if !args[0].Json? || !args[1].Text? then Err
    else Ok(PathQueried(args[0].doc, args[1].s))
  }

  /** One component: `[n]` indexes an array, anything else is an object key. */
  method QueryComponent(current: Doc, key: string) returns (r: Option<Doc>)
    ensures r == Child(current, ComponentStep(key))
  {
    var bracket := BracketIndex(key);
    if bracket.Some? {
      if current.Arr? && bracket.value < |current.elems| {
        return Some(current.elems[bracket.value]);
      }
    } else if current.Obj? && key in current.fields {
      return Some(current.fields[key]);
    }
    r := None;
  }

  /** The code's loop over the components, cursor and early returns included. */
  method PathQuery(doc: Doc, path: string) returns (r: Value)
    ensures r == PathQueried(doc, path)
  {
    var components := SplitDots(path);
    var current := doc;
    for n := 0 to |components|
      invariant GetAt(doc, QuerySteps(components)) == GetAt(current, QuerySteps(components[n..]))
    {
      assert components[n..][0] == components[n] && components[n..][1..] == components[n + 1..];
      GetQueried(current, components[n..]);
      var key := Trim(components[n]);
      if key != "" {
        var next := QueryComponent(current, key);
        if next.None? {
          return SqlNull;
        }
        current := next.value;
      }
    }
    r := Json(current);
  }

  lemma QueryStepUnfolds(components: seq<string>)
    requires components != [] && Trim(components[0]) != ""
    ensures QuerySteps(components) != []
    ensures QuerySteps(components)[0] == ComponentStep(Trim(components[0]))
    ensures QuerySteps(components)[1..] == QuerySteps(components[1..])
  {
  }

  /** What one round of the loop does to the cursor. */
  lemma GetQueried(d: Doc, components: seq<string>)
    requires components != []
    ensures var key, rest := Trim(components[0]), QuerySteps(components[1..]);
            GetAt(d, QuerySteps(components)) ==
            if key == "" then GetAt(d, rest)
            else match Child(d, ComponentStep(key)) case None => None case Some(x) => GetAt(x, rest)
  {
    if Trim(components[0]) == "" {
      assert QuerySteps(components) == QuerySteps(components[1..]);
    } else {
      QueryStepUnfolds(components);
    }
  }

  /** How a step is written as a path component. */
  function Component(s: Step): (c: string) {
    match s
    case Idx(i) => "[" + Render(i) + "]"
    case Key(k) => k
  }

  function JoinDots(p: Path): (s: string) {
    if p == [] then "" else if |p| == 1 then Component(p[0]) else Component(p[0]) + "." + JoinDots(p[1..])
  }

  /** Written as a component, the step reads back as itself and nothing else. */
  predicate WellFormed(s: Step) {
    match s
    case Idx(i) => i < USIZE_LIMIT
    case Key(k) => k != "" && '.' !in k && !IsWhitespace(k[0]) && !IsWhitespace(k[|k| - 1]) && BracketIndex(k).None?
  }

  lemma ComponentRoundTrip(s: Step)
    requires WellFormed(s)
    ensures var c := Component(s); c != "" && '.' !in c && Trim(c) == c && ComponentStep(c) == s
  {
    var c := Component(s);
    if s.Idx? {
      assert AllDigits(Render(s.i));
      assert c[1..|c| - 1] == Render(s.i);
      ParseRender(s.i);
      forall j | 0 <= j < |c| ensures c[j] != '.' {
        if 0 < j < |c| - 1 {
          assert c[j] == Render(s.i)[j - 1];
        }
      }
      assert c[0] == '[' && c[|c| - 1] == ']';
    }
  }

  lemma {:induction false} SplitAtDot(c: string, rest: string)
    requires '.' !in c
    ensures SplitDots(c + "." + rest) == [c] + SplitDots(rest)
  {
    var s := c + "." + rest;
    if c == "" {
      assert s[0] == '.' && s[1..] == rest;
    } else {
      SplitAtDot(c[1..], rest);
      assert s[0] == c[0] && s[1..] == c[1..] + "." + rest;
      assert [c[0]] + c[1..] == c;
    }
  }

  lemma {:induction false} SplitWithoutDot(c: string)
    requires '.' !in c
    ensures SplitDots(c) == [c]
  {
    if c != "" {
      SplitWithoutDot(c[1..]);
      assert [c[0]] + c[1..] == c;
    }
  }

  /** Dot-joining well-formed components and reading the path text gives the same steps back. */
  lemma {:induction false} QueryPathRoundTrip(p: Path)
    requires forall i :: 0 <= i < |p| ==> WellFormed(p[i])
    ensures QuerySteps(SplitDots(JoinDots(p))) == p
    decreases |p|
  {
    if p == [] {
      assert SplitDots("") == [""] && Trim("") == "";
      assert QuerySteps([""]) == QuerySteps([""][1..]);
    } else {
      var c := Component(p[0]);
      ComponentRoundTrip(p[0]);
      if |p| == 1 {
        SplitWithoutDot(c);
        QueryStepUnfolds([c]);
        assert QuerySteps([c]) == [p[0]];
      } else {
        SplitAtDot(c, JoinDots(p[1..]));
        QueryPathRoundTrip(p[1..]);
        QueryStepUnfolds([c] + SplitDots(JoinDots(p[1..])));
      }
    }
  }

  /** The extraction argument that names the same step. */
  function StepValue(s: Step): (v: Value)
    requires s.Idx? ==> s.i < 0x8000_0000
  {
    match s
    case Idx(i) => Int4(i)
    case Key(k) => Text(k)
  }

  function StepValues(p: Path): (r: seq<Value>)
    requires forall i :: 0 <= i < |p| && p[i].Idx? ==> p[i].i < 0x8000_0000
    ensures |r| == |p| && forall i :: 0 <= i < |p| ==> r[i] == StepValue(p[i])
  {
    seq(|p|, i requires 0 <= i < |p| => StepValue(p[i]))
  }

  lemma {:induction false} ExtractIsGetAt(d: Doc, p: Path)
    requires forall i :: 0 <= i < |p| && p[i].Idx? ==> p[i].i < 0x8000_0000
    ensures ExtractFrom(d, StepValues(p)) ==
            Ok(match GetAt(d, p) case None => SqlNull case Some(x) => Json(x))
  {
    if p != [] {
      assert StepValues(p)[1..] == StepValues(p[1..]);
      if Child(d, p[0]).Some? {
        ExtractIsGetAt(Child(d, p[0]).value, p[1..]);
      }
    }
  }

  lemma JoinedQuery(d: Doc, p: Path)
    requires forall i :: 0 <= i < |p| ==> WellFormed(p[i])
    ensures PathQueried(d, JoinDots(p)) == match GetAt(d, p) case None => SqlNull case Some(x) => Json(x)
  {
    QueryPathRoundTrip(p);
  }

  lemma WithDocument(d: Doc, path: string, keys: seq<Value>)
    ensures JsonbPathQuery([Json(d), Text(path)]) == Ok(PathQueried(d, path))
    ensures JsonbExtractPath([Json(d)] + keys) == ExtractFrom(d, keys)
  {
    assert ([Json(d)] + keys)[1..] == keys;
  }

  /** A dotted path query over well-formed components is extraction along those components. */
  lemma PathQueryIsExtraction(d: Doc, p: Path)
    requires forall i :: 0 <= i < |p| ==> WellFormed(p[i])
    requires forall i :: 0 <= i < |p| && p[i].Idx? ==> p[i].i < 0x8000_0000
    ensures JsonbPathQuery([Json(d), Text(JoinDots(p))]) == JsonbExtractPath([Json(d)] + StepValues(p))
  {
    JoinedQuery(d, p);
    ExtractIsGetAt(d, p);
    WithDocument(d, JoinDots(p), StepValues(p));
  }
}
