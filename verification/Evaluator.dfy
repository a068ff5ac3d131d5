/**
 `Evaluator::evaluate` (sql/evaluator.rs): strict, deterministic evaluation of an expression on a
 tuple. Operators and functions whose semantics live elsewhere (comparisons, floats, numerics,
 vectors, casts, remaining scalar functions) are arbitrary total functions of a `Library`.
 */
module Evaluator {
  import opened Wrappers
  import opened JsonDocument
  import opened JsonContains
  import opened JsonDelete
  import opened JsonFunctions
  import opened SqlValues

  datatype BinaryOp =
    | And | Or | Plus | Minus | Multiply | JsonGetOp | JsonContainsOp | JsonContainedByOp | OtherBinary(name: string)
  datatype UnaryOp = Not | OtherUnary(name: string)

  datatype Expr =
    | Literal(v: Value)
    | Parameter(index: nat)
    | Column(table: Option<string>, name: string)
    | Binary(left: Expr, op: BinaryOp, right: Expr)
    | Unary(uop: UnaryOp, arg: Expr)
    | IsNull(arg: Expr, isNull: bool)
    | ScalarFunction(fun: string, args: seq<Expr>)
    | Cast(arg: Expr, target: string)
    | Wildcard
    | NewRow(column: string)
    | OldRow(column: string)
    | ArraySubscript(base: Expr, subscript: Expr)
    | Unsupported(tag: string)

  datatype Library = Library(
    binary: (BinaryOp, Value, Value) -> Result<Value>,
    unary: (string, Value) -> Result<Value>,
    scalar: (string, seq<Value>) -> Result<Value>,
    cast: (Value, string) -> Result<Value>,
    lowercase: string -> string,
    display: Value -> string)

  type Tuple = seq<Value>

  /** NEW and OLD rows of a trigger, with the schema of those rows. */
  datatype TriggerRows = TriggerRows(
    newTuple: Option<Tuple>, oldTuple: Option<Tuple>, columnIndex: string -> Option<nat>)

  datatype Context = Context(
    lib: Library,
    parameters: seq<Value>,
    columnIndex: (Option<string>, string) -> Option<nat>,
    trigger: Option<TriggerRows>,
    clock: string -> Value)

  // ---------------------------------------------------------------------------------------------
  // Operators
  // ---------------------------------------------------------------------------------------------

  /** NULL reads as false; anything but a boolean is an error. */
  function ToBoolean(v: Value): (r: Result<bool>) {
    match v
    case Boolean(b) => Ok(b)
    case SqlNull => Ok(false)
    case _ => Err
  }

  /** Int4 arithmetic is done in i64, which never overflows, and then truncated. */
  function AddI64(a: i32, b: i32): (r: i64) { a + b }

  function SubtractI64(a: i32, b: i32): (r: i64) { a - b }

  function MultiplyI64(a: i32, b: i32): (r: i64) {
    ProductFits(a, b);
    a * b
  }

  lemma ProductFits(a: i32, b: i32)
    ensures -0x4000_0000_0000_0000 <= a * b <= 0x4000_0000_0000_0000
  {
    var m := 0x8000_0000;
    ProductNonNegative(m - a, m + b);
    ProductNonNegative(m + a, m - b);
    ProductNonNegative(m - a, m - b);
    ProductNonNegative(m + a, m + b);
  }

  lemma ProductNonNegative(x: int, y: int)
    requires x >= 0 && y >= 0
    ensures x * y >= 0
  {
  }

  /** The `@>` operator: a NULL on the left contains nothing, a NULL on the right is contained. */
  function JsonContainsValues(l: Value, r: Value): (result: Result<Value>) {
    if l.SqlNull? then Ok(Boolean(false))
    else if !l.Json? then Err
    else if r.SqlNull? then Ok(Boolean(true))
    else if !r.Json? then Err
    else Ok(Boolean(Contains(l.doc, r.doc)))
  }

  function EvaluateBinary(lib: Library, l: Value, op: BinaryOp, r: Value): (result: Result<Value>) {
    match op
    case And =>
      if ToBoolean(l).Err? || ToBoolean(r).Err? then Err
      else Ok(Boolean(ToBoolean(l).value && ToBoolean(r).value))
    case Or =>
      if ToBoolean(l).Err? || ToBoolean(r).Err? then Err
      else Ok(Boolean(ToBoolean(l).value || ToBoolean(r).value))
    case Plus => if l.Int4? && r.Int4? then Ok(Int4(WrapI32(AddI64(l.i4, r.i4)))) else lib.binary(op, l, r)
    case Minus => if l.Int4? && r.Int4? then Ok(Int4(WrapI32(SubtractI64(l.i4, r.i4)))) else lib.binary(op, l, r)
    case Multiply => if l.Int4? && r.Int4? then Ok(Int4(WrapI32(MultiplyI64(l.i4, r.i4)))) else lib.binary(op, l, r)
    case JsonGetOp => JsonGet(l, r)
    case JsonContainsOp => JsonContainsValues(l, r)
    case JsonContainedByOp => JsonContainsValues(r, l)
    case OtherBinary(_) => lib.binary(op, l, r)
  }

  function EvaluateUnary(lib: Library, op: UnaryOp, v: Value): (result: Result<Value>) {
    match op
    case Not => if ToBoolean(v).Err? then Err else Ok(Boolean(!ToBoolean(v).value))
    case OtherUnary(name) => lib.unary(name, v)
  }

  /** Names, after lower-casing, whose answer is read off the clock. */
  predicate ReadsClock(fun: string) {
    fun in {"current_timestamp", "now", "sysdate", "getdate", "systimestamp", "sysdatetime", "getutcdate",
            "utc_timestamp", "current_date", "curdate", "current_time", "curtime", "localtimestamp", "localtime"}
  }

  /** Dispatch on the lower-cased name, once the arguments have values. */
  function ApplyScalar(ctx: Context, fun: string, args: seq<Value>): (r: Result<Value>) {
    if fun in {"jsonb_extract_path", "json_extract_path"} then JsonbExtractPath(args)
    else if fun == "jsonb_path_query" then JsonbPathQuery(args)
    else if fun in {"jsonb_set", "json_set"} then JsonbSet(args, ctx.lib.display)
    else if fun == "jsonb_concat" then JsonbConcat(args)
    else if fun == "jsonb_delete" then JsonbDelete(args)
    else if ReadsClock(fun) then Ok(ctx.clock(fun))
    else ctx.lib.scalar(fun, args)
  }

  /** Array subscripts are 1-based and out of range is NULL. */
  function Subscripted(arr: Value, index: Value): (r: Result<Value>) {
    if arr.Array? && (index.Int2? || index.Int4? || index.Int8?) then
      var i: int := if index.Int2? then index.i2 else if index.Int4? then index.i4 else index.i8;
      Ok(if 1 <= i <= |arr.elems| then arr.elems[i - 1] else SqlNull)
    else if arr.SqlNull? || index.SqlNull? then Ok(SqlNull)
    else Err
  }

  function FieldAt(row: Option<Tuple>, index: Option<nat>): (r: Result<Value>) {
    if row.Some? && index.Some? && index.value < |row.value| then Ok(row.value[index.value]) else Err
  }

  // ---------------------------------------------------------------------------------------------
  // Evaluation
  // ---------------------------------------------------------------------------------------------

  function Evaluate(e: Expr, ctx: Context, tuple: Tuple): (r: Result<Value>)
    decreases e, 0
  {
    match e
    case Literal(v) => Ok(v)
    case Parameter(index) =>
      if 1 <= index <= |ctx.parameters| then Ok(ctx.parameters[index - 1]) else Err
    case Column(table, name) => FieldAt(Some(tuple), ctx.columnIndex(table, name))
    case Binary(left, op, right) =>
      var l := Evaluate(left, ctx, tuple);
      var r := Evaluate(right, ctx, tuple);
      if l.Err? || r.Err? then Err else EvaluateBinary(ctx.lib, l.value, op, r.value)
    case Unary(op, arg) =>
      var v := Evaluate(arg, ctx, tuple);
      if v.Err? then Err else EvaluateUnary(ctx.lib, op, v.value)
    case IsNull(arg, isNull) =>
      var v := Evaluate(arg, ctx, tuple);
      if v.Err? then Err else Ok(Boolean(v.value.SqlNull? == isNull))
    case ScalarFunction(fun, args) =>
      var vs := EvaluateAll(args, ctx, tuple);
      if vs.Err? then Err else ApplyScalar(ctx, ctx.lib.lowercase(fun), vs.value)
    case Cast(arg, target) =>
      var v := Evaluate(arg, ctx, tuple);
      if v.Err? then Err else ctx.lib.cast(v.value, target)
    case Wildcard => Err
    case NewRow(column) =>
      if ctx.trigger.None? then Err
      else FieldAt(ctx.trigger.value.newTuple, ctx.trigger.value.columnIndex(column))
    case OldRow(column) =>
      if ctx.trigger.None? then Err
      else FieldAt(ctx.trigger.value.oldTuple, ctx.trigger.value.columnIndex(column))
    case ArraySubscript(base, subscript) =>
      var a := Evaluate(base, ctx, tuple);
      var i := Evaluate(subscript, ctx, tuple);
      if a.Err? || i.Err? then Err else Subscripted(a.value, i.value)
    case Unsupported(_) => Err
  }

  /** Arguments left to right; the first failure is the answer. */
  function EvaluateAll(es: seq<Expr>, ctx: Context, tuple: Tuple): (r: Result<seq<Value>>)
    ensures r.Ok? ==> |r.value| == |es|
    decreases es, 1
  {
    if es == [] then Ok([])
    else
      var v := Evaluate(es[0], ctx, tuple);
      if v.Err? then Err
      else
        var vs := EvaluateAll(es[1..], ctx, tuple);
        if vs.Err? then Err else Ok([v.value] + vs.value)
  }

  // ---------------------------------------------------------------------------------------------
  // Folding literal subexpressions
  // ---------------------------------------------------------------------------------------------

  /** Built from literals only, with no function that reads the clock. */
  predicate LiteralOnly(e: Expr, lib: Library)
    decreases e, 0
  {
    match e
    case Literal(_) => true
    case Binary(left, _, right) => LiteralOnly(left, lib) && LiteralOnly(right, lib)
    case Unary(_, arg) => LiteralOnly(arg, lib)
    case IsNull(arg, _) => LiteralOnly(arg, lib)
    case ScalarFunction(fun, args) =>
      !ReadsClock(lib.lowercase(fun)) && forall i :: 0 <= i < |args| ==> LiteralOnly(args[i], lib)
    case Cast(arg, _) => LiteralOnly(arg, lib)
    case ArraySubscript(base, subscript) => LiteralOnly(base, lib) && LiteralOnly(subscript, lib)
    case _ => false
  }

  /** A literal-only expression has the same value in every context and on every tuple. */
  lemma {:induction false} LiteralOnlyIsConstant(e: Expr, c1: Context, t1: Tuple, c2: Context, t2: Tuple)
    requires c1.lib == c2.lib && LiteralOnly(e, c1.lib)
    ensures Evaluate(e, c1, t1) == Evaluate(e, c2, t2)
    decreases e, 0
  {
    match e
    case Binary(left, _, right) =>
      LiteralOnlyIsConstant(left, c1, t1, c2, t2);
      LiteralOnlyIsConstant(right, c1, t1, c2, t2);
    case Unary(_, arg) => LiteralOnlyIsConstant(arg, c1, t1, c2, t2);
    case IsNull(arg, _) => LiteralOnlyIsConstant(arg, c1, t1, c2, t2);
    case ScalarFunction(_, args) => LiteralOnlyArgsAreConstant(args, c1, t1, c2, t2);
    case Cast(arg, _) => LiteralOnlyIsConstant(arg, c1, t1, c2, t2);
    case ArraySubscript(base, subscript) =>
      LiteralOnlyIsConstant(base, c1, t1, c2, t2);
      LiteralOnlyIsConstant(subscript, c1, t1, c2, t2);
    case _ =>
  }

  lemma {:induction false} LiteralOnlyArgsAreConstant(es: seq<Expr>, c1: Context, t1: Tuple, c2: Context, t2: Tuple)
    requires c1.lib == c2.lib && forall i :: 0 <= i < |es| ==> LiteralOnly(es[i], c1.lib)
    ensures EvaluateAll(es, c1, t1) == EvaluateAll(es, c2, t2)
    decreases es, 1
  {
    if es != [] {
      LiteralOnlyIsConstant(es[0], c1, t1, c2, t2);
      LiteralOnlyArgsAreConstant(es[1..], c1, t1, c2, t2);
    }
  }

  /** `f` is `e` with any choice of successful literal-only subexpressions replaced, anywhere, by
      the value they had when they were folded in the context `at`. */
  predicate FoldsTo(e: Expr, f: Expr, at: Context)
    decreases e, 0
  {
    e == f ||
    (f.Literal? && LiteralOnly(e, at.lib) && Evaluate(e, at, []) == Ok(f.v)) ||
    match (e, f)
    case (Binary(l, op, r), Binary(l', op', r')) => op == op' && FoldsTo(l, l', at) && FoldsTo(r, r', at)
    case (Unary(op, a), Unary(op', a')) => op == op' && FoldsTo(a, a', at)
    case (IsNull(a, n), IsNull(a', n')) => n == n' && FoldsTo(a, a', at)
    case (ScalarFunction(fun, es), ScalarFunction(fun', es')) =>
      fun == fun' && |es| == |es'| && forall i :: 0 <= i < |es| ==> FoldsTo(es[i], es'[i], at)
    case (Cast(a, t), Cast(a', t')) => t == t' && FoldsTo(a, a', at)
    case (ArraySubscript(a, i), ArraySubscript(a', i')) => FoldsTo(a, a', at) && FoldsTo(i, i', at)
    case _ => false
  }

  /**
   Folding never changes what an expression evaluates to, value or error, in any context and on any
   tuple, whenever and wherever it was done.
   */
  lemma {:induction false} FoldingPreservesEvaluation(e: Expr, f: Expr, at: Context, ctx: Context, tuple: Tuple)
    requires at.lib == ctx.lib && FoldsTo(e, f, at)
    ensures Evaluate(f, ctx, tuple) == Evaluate(e, ctx, tuple)
    decreases e, 0
  {
    if e == f {
    } else if f.Literal? && LiteralOnly(e, at.lib) {
      LiteralOnlyIsConstant(e, at, [], ctx, tuple);
    } else {
      match (e, f)
      case (Binary(l, _, r), Binary(l', _, r')) =>
        FoldingPreservesEvaluation(l, l', at, ctx, tuple);
        FoldingPreservesEvaluation(r, r', at, ctx, tuple);
      case (Unary(_, a), Unary(_, a')) => FoldingPreservesEvaluation(a, a', at, ctx, tuple);
      case (IsNull(a, _), IsNull(a', _)) => FoldingPreservesEvaluation(a, a', at, ctx, tuple);
      case (ScalarFunction(_, es), ScalarFunction(_, es')) => FoldingPreservesArgs(es, es', at, ctx, tuple);
      case (Cast(a, _), Cast(a', _)) => FoldingPreservesEvaluation(a, a', at, ctx, tuple);
      case (ArraySubscript(a, i), ArraySubscript(a', i')) =>
        FoldingPreservesEvaluation(a, a', at, ctx, tuple);
        FoldingPreservesEvaluation(i, i', at, ctx, tuple);
    }
  }

  lemma {:induction false} FoldingPreservesArgs(es: seq<Expr>, fs: seq<Expr>, at: Context, ctx: Context, tuple: Tuple)
    requires at.lib == ctx.lib && |es| == |fs|
    requires forall i :: 0 <= i < |es| ==> FoldsTo(es[i], fs[i], at)
    ensures EvaluateAll(fs, ctx, tuple) == EvaluateAll(es, ctx, tuple)
    decreases es, 1
  {
    if es != [] {
      FoldingPreservesEvaluation(es[0], fs[0], at, ctx, tuple);
      FoldingPreservesArgs(es[1..], fs[1..], at, ctx, tuple);
    }
  }

  // ---------------------------------------------------------------------------------------------
  // Inlining parameters
  // ---------------------------------------------------------------------------------------------

  function Inline(e: Expr, parameters: seq<Value>): (r: Expr)
    decreases e, 0
  {
    match e
    case Parameter(index) =>
      if 1 <= index <= |parameters| then Literal(parameters[index - 1]) else e
    case Binary(l, op, r) => Binary(Inline(l, parameters), op, Inline(r, parameters))
    case Unary(op, a) => Unary(op, Inline(a, parameters))
    case IsNull(a, n) => IsNull(Inline(a, parameters), n)
    case ScalarFunction(fun, es) => ScalarFunction(fun, InlineAll(es, parameters))
    case Cast(a, t) => Cast(Inline(a, parameters), t)
    case ArraySubscript(a, i) => ArraySubscript(Inline(a, parameters), Inline(i, parameters))
    case _ => e
  }

  function InlineAll(es: seq<Expr>, parameters: seq<Value>): (r: seq<Expr>)
    decreases es, 1
  {
    if es == [] then [] else [Inline(es[0], parameters)] + InlineAll(es[1..], parameters)
  }

  /**
   After inlining the supplied parameters, an evaluator holding any other, no longer parameter list
   (none at all, say) gives the answer the original evaluator gave, value or error.
   */
  lemma {:induction false} InliningPreservesEvaluation(e: Expr, ctx: Context, others: seq<Value>, tuple: Tuple)
    requires |others| <= |ctx.parameters|
    ensures Evaluate(Inline(e, ctx.parameters), ctx.(parameters := others), tuple) == Evaluate(e, ctx, tuple)
    decreases e, 0
  {
    match e
    case Binary(l, _, r) =>
      InliningPreservesEvaluation(l, ctx, others, tuple);
      InliningPreservesEvaluation(r, ctx, others, tuple);
    case Unary(_, a) => InliningPreservesEvaluation(a, ctx, others, tuple);
    case IsNull(a, _) => InliningPreservesEvaluation(a, ctx, others, tuple);
    case ScalarFunction(_, es) => InliningPreservesArgs(es, ctx, others, tuple);
    case Cast(a, _) => InliningPreservesEvaluation(a, ctx, others, tuple);
    case ArraySubscript(a, i) =>
      InliningPreservesEvaluation(a, ctx, others, tuple);
      InliningPreservesEvaluation(i, ctx, others, tuple);
    case _ =>
  }

  lemma {:induction false} InliningPreservesArgs(es: seq<Expr>, ctx: Context, others: seq<Value>, tuple: Tuple)
    requires |others| <= |ctx.parameters|
    ensures EvaluateAll(InlineAll(es, ctx.parameters), ctx.(parameters := others), tuple) ==
            EvaluateAll(es, ctx, tuple)
    decreases es, 1
  {
    if es != [] {
      InliningPreservesEvaluation(es[0], ctx, others, tuple);
      InliningPreservesArgs(es[1..], ctx, others, tuple);
      assert InlineAll(es, ctx.parameters)[1..] == InlineAll(es[1..], ctx.parameters);
    }
  }

  // ---------------------------------------------------------------------------------------------
  // Int4 arithmetic
  // ---------------------------------------------------------------------------------------------

  predicate IsArithmetic(op: BinaryOp) {
    op.Plus? || op.Minus? || op.Multiply?
  }

  function ExactOp(x: int, op: BinaryOp, y: int): (n: int)
    requires IsArithmetic(op)
  {
    if op.Plus? then x + y else if op.Minus? then x - y else x * y
  }

  /** A tree of +, - and * whose leaves all evaluate to an Int4. */
  predicate Int4Tree(e: Expr, ctx: Context, tuple: Tuple) {
    if e.Binary? && IsArithmetic(e.op) then Int4Tree(e.left, ctx, tuple) && Int4Tree(e.right, ctx, tuple)
    else Evaluate(e, ctx, tuple).Ok? && Evaluate(e, ctx, tuple).value.Int4?
  }

  /** The tree's value over the unbounded integers. */
  function Exact(e: Expr, ctx: Context, tuple: Tuple): (n: int)
    requires Int4Tree(e, ctx, tuple)
  {
    if e.Binary? && IsArithmetic(e.op) then
      ExactOp(Exact(e.left, ctx, tuple), e.op, Exact(e.right, ctx, tuple))
    else
      Evaluate(e, ctx, tuple).value.i4
  }

  /** How far truncation moved a number, in multiples of 2^32. */
  lemma WrapMultiple(x: int) returns (k: int)
    ensures WrapI32(x) == x + 0x1_0000_0000 * k
  {
    k := (WrapI32(x) - x) / 0x1_0000_0000;
  }

  lemma WrapOfSum(x: int, y: int)
    ensures WrapI32(AddI64(WrapI32(x), WrapI32(y))) == WrapI32(x + y)
  {
    var a := WrapMultiple(x);
    var b := WrapMultiple(y);
    WrapShift(x + y, a + b);
  }

  lemma WrapOfDifference(x: int, y: int)
    ensures WrapI32(SubtractI64(WrapI32(x), WrapI32(y))) == WrapI32(x - y)
  {
    var a := WrapMultiple(x);
    var b := WrapMultiple(y);
    WrapShift(x - y, a - b);
  }

  lemma WrapOfProduct(x: int, y: int)
    ensures WrapI32(MultiplyI64(WrapI32(x), WrapI32(y))) == WrapI32(x * y)
  {
    var a := WrapMultiple(x);
    var b := WrapMultiple(y);
    var c := ProductOfShifts(x, a, y, b);
    WrapShift(x * y, c);
  }

  lemma ProductOfShifts(x: int, a: int, y: int, b: int) returns (c: int)
    ensures (x + 0x1_0000_0000 * a) * (y + 0x1_0000_0000 * b) == x * y + 0x1_0000_0000 * c
  {
    c := x * b + a * y + 0x1_0000_0000 * (a * b);
  }

  lemma WrapShift(x: int, a: int)
    ensures WrapI32(x + 0x1_0000_0000 * a) == WrapI32(x)
  {
    var m := 0x1_0000_0000;
    var q := (WrapI32(x) - x) / m;
    assert WrapI32(x) - (x + m * a) == m * (q - a);
    WrapUnique(x + m * a, WrapI32(x));
  }

  lemma TruncationAtNode(lib: Library, x: int, op: BinaryOp, y: int)
    requires IsArithmetic(op)
    ensures EvaluateBinary(lib, Int4(WrapI32(x)), op, Int4(WrapI32(y))) == Ok(Int4(WrapI32(ExactOp(x, op, y))))
  {
    match op
    case Plus => WrapOfSum(x, y);
    case Minus => WrapOfDifference(x, y);
    case Multiply => WrapOfProduct(x, y);
  }

  /** Truncating to 32 bits at every node is the same as truncating the exact result once. */
  lemma {:induction false} TruncationDistributes(e: Expr, ctx: Context, tuple: Tuple)
    requires Int4Tree(e, ctx, tuple)
    ensures Evaluate(e, ctx, tuple) == Ok(Int4(WrapI32(Exact(e, ctx, tuple))))
  {
    if e.Binary? && IsArithmetic(e.op) {
      TruncationDistributes(e.left, ctx, tuple);
      TruncationDistributes(e.right, ctx, tuple);
      TruncationAtNode(ctx.lib, Exact(e.left, ctx, tuple), e.op, Exact(e.right, ctx, tuple));
    } else {
      WrapUnique(Exact(e, ctx, tuple), Evaluate(e, ctx, tuple).value.i4);
    }
  }

  // ---------------------------------------------------------------------------------------------
  // Navigators as expressions
  // ---------------------------------------------------------------------------------------------

  /** `e -> k1 -> k2 -> ...` */
  function ArrowChain(e: Expr, keys: seq<Value>): (r: Expr)
    decreases |keys|
  {
    if keys == [] then e else ArrowChain(Binary(e, JsonGetOp, Literal(keys[0])), keys[1..])
  }

  lemma {:induction false} ArrowChainEvaluates(e: Expr, keys: seq<Value>, ctx: Context, tuple: Tuple)
    ensures Evaluate(ArrowChain(e, keys), ctx, tuple) ==
            match Evaluate(e, ctx, tuple) case Err => Err case Ok(v) => JsonGetChain(v, keys)
    decreases |keys|
  {
    if keys != [] {
      ArrowChainEvaluates(Binary(e, JsonGetOp, Literal(keys[0])), keys[1..], ctx, tuple);
    }
  }

  /**
   If a chain of `->` operators on any JSON-or-NULL expression evaluates, the call of
   jsonb_extract_path with the same keys evaluates to the same value.
   */
  lemma ArrowChainIsExtractPath(e: Expr, keys: seq<Value>, ctx: Context, tuple: Tuple)
    requires Evaluate(e, ctx, tuple).Ok? ==>
             Evaluate(e, ctx, tuple).value.Json? || Evaluate(e, ctx, tuple).value.SqlNull?
    requires ctx.lib.lowercase("jsonb_extract_path") == "jsonb_extract_path"
    ensures Evaluate(ArrowChain(e, keys), ctx, tuple).Ok? ==>
            Evaluate(ArrowChain(e, keys), ctx, tuple) ==
            Evaluate(ScalarFunction("jsonb_extract_path", [e] + Literals(keys)), ctx, tuple)
  {
    ArrowChainEvaluates(e, keys, ctx, tuple);
    if Evaluate(e, ctx, tuple).Ok? {
      var v := Evaluate(e, ctx, tuple).value;
      LiteralsEvaluate(keys, ctx, tuple);
      var all := [e] + Literals(keys);
      assert all[0] == e && all[1..] == Literals(keys);
      assert EvaluateAll(all, ctx, tuple) == Ok([v] + keys);
      assert ([v] + keys)[0] == v && ([v] + keys)[1..] == keys;
      if v.Json? {
        ChainAgreesWithExtract(v.doc, keys);
      } else {
        NullChain(keys);
      }
    }
  }

  function Literals(vs: seq<Value>): (r: seq<Expr>) {
    if vs == [] then [] else [Literal(vs[0])] + Literals(vs[1..])
  }

  lemma {:induction false} LiteralsEvaluate(vs: seq<Value>, ctx: Context, tuple: Tuple)
    ensures EvaluateAll(Literals(vs), ctx, tuple) == Ok(vs)
  {
    if vs != [] {
      LiteralsEvaluate(vs[1..], ctx, tuple);
      assert Literals(vs)[1..] == Literals(vs[1..]);
      assert [vs[0]] + vs[1..] == vs;
    }
  }

  // ---------------------------------------------------------------------------------------------
  // JSON operators and functions as expressions
  // ---------------------------------------------------------------------------------------------

  /** `f(x, y, ...)` for an `f` that lower-cases to itself. */
  lemma CallEvaluates(fun: string, es: seq<Expr>, vs: seq<Value>, ctx: Context, tuple: Tuple)
    requires ctx.lib.lowercase(fun) == fun && EvaluateAll(es, ctx, tuple) == Ok(vs)
    ensures Evaluate(ScalarFunction(fun, es), ctx, tuple) == ApplyScalar(ctx, fun, vs)
  {
  }

  lemma TwoArguments(x: Expr, y: Expr, ctx: Context, tuple: Tuple)
    requires Evaluate(x, ctx, tuple).Ok? && Evaluate(y, ctx, tuple).Ok?
    ensures EvaluateAll([x, y], ctx, tuple) == Ok([Evaluate(x, ctx, tuple).value, Evaluate(y, ctx, tuple).value])
  {
    var vx, vy := Evaluate(x, ctx, tuple).value, Evaluate(y, ctx, tuple).value;
    assert [x, y][1..] == [y] && [y][1..] == [];
    assert EvaluateAll([], ctx, tuple) == Ok([]);
    assert EvaluateAll([y], ctx, tuple) == Ok([vy] + []);
    assert [vy] + [] == [vy] && [vx] + [vy] == [vx, vy];
  }

  lemma ContainmentEvaluates(x: Expr, y: Expr, a: Doc, b: Doc, ctx: Context, tuple: Tuple)
    requires Evaluate(x, ctx, tuple) == Ok(Json(a)) && Evaluate(y, ctx, tuple) == Ok(Json(b))
    ensures Evaluate(Binary(x, JsonContainsOp, y), ctx, tuple) == Ok(Boolean(Contains(a, b)))
    ensures Evaluate(Binary(y, JsonContainedByOp, x), ctx, tuple) == Ok(Boolean(Contains(a, b)))
  {
  }

  lemma DeletedEvaluates(e: Expr, path: Expr, d: Doc, elems: seq<Value>, ctx: Context, tuple: Tuple)
    requires ctx.lib.lowercase("jsonb_delete") == "jsonb_delete"
    requires Evaluate(e, ctx, tuple) == Ok(Json(d)) && Evaluate(path, ctx, tuple) == Ok(Array(elems))
    requires forall i :: 0 <= i < |elems| ==> IsPathElement(elems[i])
    ensures Evaluate(ScalarFunction("jsonb_delete", [e, path]), ctx, tuple) ==
            Ok(Json(DeleteAt(d, StepsOf(elems))))
  {
    TwoArguments(e, path, ctx, tuple);
    var args := [Json(d), Array(elems)];
    CallEvaluates("jsonb_delete", [e, path], args, ctx, tuple);
    assert JsonbDelete(args) == Ok(Json(DeleteAt(d, StepsOf(elems))));
  }

  /**
   `d @> jsonb_delete(d, path)` and `jsonb_delete(d, path) <@ d` are true for every JSON expression
   and every path of texts and integers.
   */
  lemma ContainsDeletedEvaluates(e: Expr, path: Expr, ctx: Context, tuple: Tuple)
    requires ctx.lib.lowercase("jsonb_delete") == "jsonb_delete"
    requires Evaluate(e, ctx, tuple).Ok? && Evaluate(e, ctx, tuple).value.Json?
    requires Evaluate(path, ctx, tuple).Ok? && Evaluate(path, ctx, tuple).value.Array?
    requires var elems := Evaluate(path, ctx, tuple).value.elems;
             forall i :: 0 <= i < |elems| ==> IsPathElement(elems[i])
    ensures var deleted := ScalarFunction("jsonb_delete", [e, path]);
            Evaluate(Binary(e, JsonContainsOp, deleted), ctx, tuple) == Ok(Boolean(true)) &&
            Evaluate(Binary(deleted, JsonContainedByOp, e), ctx, tuple) == Ok(Boolean(true))
  {
    var d, elems := Evaluate(e, ctx, tuple).value.doc, Evaluate(path, ctx, tuple).value.elems;
    var steps := StepsOf(elems);
    DeletedEvaluates(e, path, d, elems, ctx, tuple);
    ContainsDeleted(d, steps);
    ContainmentEvaluates(e, ScalarFunction("jsonb_delete", [e, path]), d, DeleteAt(d, steps), ctx, tuple);
  }

  /** `jsonb_concat(a, b) @> b` and `b <@ jsonb_concat(a, b)` are true for all JSON expressions. */
  lemma ConcatContainsEvaluates(a: Expr, b: Expr, ctx: Context, tuple: Tuple)
    requires ctx.lib.lowercase("jsonb_concat") == "jsonb_concat"
    requires Evaluate(a, ctx, tuple).Ok? && Evaluate(a, ctx, tuple).value.Json?
    requires Evaluate(b, ctx, tuple).Ok? && Evaluate(b, ctx, tuple).value.Json?
    ensures var both := ScalarFunction("jsonb_concat", [a, b]);
            Evaluate(Binary(both, JsonContainsOp, b), ctx, tuple) == Ok(Boolean(true)) &&
            Evaluate(Binary(b, JsonContainedByOp, both), ctx, tuple) == Ok(Boolean(true))
  {
    var x, y := Evaluate(a, ctx, tuple).value.doc, Evaluate(b, ctx, tuple).value.doc;
    TwoArguments(a, b, ctx, tuple);
    CallEvaluates("jsonb_concat", [a, b], [Json(x), Json(y)], ctx, tuple);
    ConcatContainsRight(x, y);
    ContainmentEvaluates(ScalarFunction("jsonb_concat", [a, b]), b, Concat(x, y), y, ctx, tuple);
  }

  /** `jsonb_extract_path(jsonb_set(d, path, v), path...)` is v, for paths both functions read alike. */
  lemma ExtractAfterSetEvaluates(d: Doc, path: seq<Value>, v: Value, ctx: Context, tuple: Tuple)
    requires ctx.lib.lowercase("jsonb_set") == "jsonb_set"
    requires ctx.lib.lowercase("jsonb_extract_path") == "jsonb_extract_path"
    requires path != [] && AllReadAlike(path)
    ensures var set_ := ScalarFunction("jsonb_set", [Literal(Json(d)), Literal(Array(path)), Literal(v)]);
            Evaluate(ScalarFunction("jsonb_extract_path", [set_] + Literals(path)), ctx, tuple) ==
            Ok(Json(ToDoc(v, ctx.lib.display)))
  {
    var es := [Literal(Json(d)), Literal(Array(path)), Literal(v)];
    var vs := [Json(d), Array(path), v];
    assert Literals(vs) == es by {
      assert vs[1..] == [Array(path), v] && vs[1..][1..] == [v] && [v][1..] == [];
      assert Literals([v]) == [Literal(v)] + Literals([]) == [Literal(v)];
      assert Literals([Array(path), v]) == [Literal(Array(path))] + Literals([v]);
      assert Literals(vs) == [Literal(Json(d))] + Literals([Array(path), v]);
    }
    LiteralsEvaluate(vs, ctx, tuple);
    CallEvaluates("jsonb_set", es, vs, ctx, tuple);
    ExtractAfterSetExactly(d, path, v, ctx.lib.display);
    var set_ := ScalarFunction("jsonb_set", es);
    var after := JsonbSet(vs, ctx.lib.display).value;
    LiteralsEvaluate(path, ctx, tuple);
    var all := [set_] + Literals(path);
    assert all[0] == set_ && all[1..] == Literals(path);
    assert EvaluateAll(all, ctx, tuple) == Ok([after] + path);
    CallEvaluates("jsonb_extract_path", all, [after] + path, ctx, tuple);
  }

  // ---------------------------------------------------------------------------------------------
  // What is read from rows, arrays and NULL tests
  // ---------------------------------------------------------------------------------------------

  /** `e IS NULL` is true exactly for NULL, and exactly one of IS NULL and IS NOT NULL is. */
  lemma NullTests(e: Expr, ctx: Context, tuple: Tuple)
    requires Evaluate(e, ctx, tuple).Ok?
    ensures Evaluate(IsNull(e, true), ctx, tuple) == Ok(Boolean(Evaluate(e, ctx, tuple) == Ok(SqlNull)))
    ensures Evaluate(Binary(IsNull(e, true), Or, IsNull(e, false)), ctx, tuple) == Ok(Boolean(true))
    ensures Evaluate(Binary(IsNull(e, true), And, IsNull(e, false)), ctx, tuple) == Ok(Boolean(false))
  {
    assert Evaluate(IsNull(e, true), ctx, tuple).Ok? && Evaluate(IsNull(e, false), ctx, tuple).Ok?;
  }

  /** NULL contains nothing, not even NULL, and is contained in every document. */
  lemma NullContainment(e: Expr, f: Expr, ctx: Context, tuple: Tuple)
    requires Evaluate(e, ctx, tuple).Ok? && Evaluate(f, ctx, tuple) == Ok(SqlNull)
    ensures Evaluate(Binary(f, JsonContainsOp, e), ctx, tuple) == Ok(Boolean(false))
    ensures Evaluate(e, ctx, tuple).value.Json? ==>
              Evaluate(Binary(e, JsonContainsOp, f), ctx, tuple) == Ok(Boolean(true))
  {
  }

  /** Subscripts count from 1, whatever integer type they have; outside the array they find NULL. */
  lemma SubscriptsCountFromOne(a: seq<Value>, i: i64, ctx: Context, tuple: Tuple)
    ensures var arr := Literal(Array(a));
            var found := Ok(if 0 < i <= |a| then a[i - 1] else SqlNull);
            Evaluate(ArraySubscript(arr, Literal(Int8(i))), ctx, tuple) == found &&
            (-0x8000_0000 <= i < 0x8000_0000 ==>
               Evaluate(ArraySubscript(arr, Literal(Int4(i))), ctx, tuple) == found) &&
            (-0x8000 <= i < 0x8000 ==> Evaluate(ArraySubscript(arr, Literal(Int2(i))), ctx, tuple) == found)
  {
  }

  /**
   Parameters count from 1. A column reads the tuple, NEW the new and OLD the old row of the trigger,
   each at its schema's index.
   */
  lemma RowsRead(table: Option<string>, c: string, ctx: Context, tuple: Tuple, n: nat)
    ensures Evaluate(Parameter(n), ctx, tuple) == if 0 < n <= |ctx.parameters| then Ok(ctx.parameters[n - 1]) else Err
    ensures ctx.columnIndex(table, c) == Some(n) && n < |tuple| ==>
              Evaluate(Column(table, c), ctx, tuple) == Ok(tuple[n])
    ensures ctx.trigger.Some? && ctx.trigger.value.columnIndex(c) == Some(n) ==>
              var rows := ctx.trigger.value;
              (rows.newTuple.Some? && n < |rows.newTuple.value| ==>
                 Evaluate(NewRow(c), ctx, tuple) == Ok(rows.newTuple.value[n])) &&
              (rows.oldTuple.Some? && n < |rows.oldTuple.value| ==>
                 Evaluate(OldRow(c), ctx, tuple) == Ok(rows.oldTuple.value[n]))
  {
  }
}
