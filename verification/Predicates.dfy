/**
 AND/OR/NOT trees have two meanings in the repository: their truth value on a row
 (sql/evaluator.rs) and their selectivity estimate (sql/explain.rs). This module pushes NOT to the
 leaves under both meanings, and compares the two-valued truth value with SQL's three-valued logic.
 */
module Predicates {
  import opened Wrappers
  import opened SqlValues
  import opened Evaluator

  /** Whether a WHERE clause keeps the row, or the error it raises. */
  function Truth(e: Expr, ctx: Context, tuple: Tuple): (r: Result<bool>) {
    match Evaluate(e, ctx, tuple)
    case Err => Err
    case Ok(v) => ToBoolean(v)
  }

  predicate IsConnective(e: Expr) {
    (e.Binary? && (e.op.And? || e.op.Or?)) || (e.Unary? && e.uop.Not?)
  }

  /** `e`, or its negation, with every NOT moved down to a leaf. */
  function PushNot(e: Expr, negate: bool): (r: Expr) {
    if e.Unary? && e.uop.Not? then PushNot(e.arg, !negate)
    else if e.Binary? && e.op.And? then
      Binary(PushNot(e.left, negate), if negate then Or else And, PushNot(e.right, negate))
    else if e.Binary? && e.op.Or? then
      Binary(PushNot(e.left, negate), if negate then And else Or, PushNot(e.right, negate))
    else if negate then Unary(Not, e) else e
  }

  predicate NotsAtLeaves(e: Expr) {
    if e.Unary? && e.uop.Not? then !IsConnective(e.arg)
    else if e.Binary? && (e.op.And? || e.op.Or?) then NotsAtLeaves(e.left) && NotsAtLeaves(e.right)
    else true
  }

  lemma {:induction false} PushNotReachesLeaves(e: Expr, negate: bool)
    ensures NotsAtLeaves(PushNot(e, negate))
  {
    if e.Unary? && e.uop.Not? {
      PushNotReachesLeaves(e.arg, !negate);
    } else if e.Binary? && (e.op.And? || e.op.Or?) {
      PushNotReachesLeaves(e.left, negate);
      PushNotReachesLeaves(e.right, negate);
    }
  }

  lemma TruthOfBinary(e: Expr, ctx: Context, tuple: Tuple)
    requires e.Binary? && (e.op.And? || e.op.Or?)
    ensures var l, r := Truth(e.left, ctx, tuple), Truth(e.right, ctx, tuple);
            Truth(e, ctx, tuple) ==
            if l.Err? || r.Err? then Err
            else Ok(if e.op.And? then l.value && r.value else l.value || r.value)
  {
  }

  function Negated(r: Result<bool>, negate: bool): (s: Result<bool>) {
    if r.Err? then Err else Ok(r.value != negate)
  }

  /** Pushing NOT down keeps the truth value on every row, NULL leaves and error leaves included. */
  lemma {:induction false} PushNotKeepsTruth(e: Expr, negate: bool, ctx: Context, tuple: Tuple)
    ensures Truth(PushNot(e, negate), ctx, tuple) == Negated(Truth(e, ctx, tuple), negate)
  {
    if e.Unary? && e.uop.Not? {
      PushNotKeepsTruth(e.arg, !negate, ctx, tuple);
    } else if e.Binary? && (e.op.And? || e.op.Or?) {
      PushNotKeepsTruth(e.left, negate, ctx, tuple);
      PushNotKeepsTruth(e.right, negate, ctx, tuple);
      TruthOfBinary(e, ctx, tuple);
      TruthOfBinary(PushNot(e, negate), ctx, tuple);
    }
  }

  // ---------------------------------------------------------------------------------------------
  // Selectivity
  // ---------------------------------------------------------------------------------------------

  /** Column statistics: estimates for `=`, for ranges and for IS NULL. */
  datatype Statistics = Statistics(equality: string -> real, range: string -> real, nulls: string -> real)

  function LeafSelectivity(e: Expr, stats: Statistics): (s: real) {
    if e.Binary? && e.op.OtherBinary? && e.op.name == "Eq" then
      if e.left.Column? then stats.equality(e.left.name) else 0.1
    else if e.Binary? && e.op.OtherBinary? && e.op.name in {"Lt", "Gt", "LtEq", "GtEq"} then
      if e.left.Column? then stats.range(e.left.name) else 0.33
    else if e.IsNull? then
      var nulls := if e.arg.Column? then stats.nulls(e.arg.name) else 0.05;
      if e.isNull then nulls else 1.0 - nulls
    else 0.1
  }

  function Selectivity(e: Expr, stats: Statistics): (s: real) {
    if e.Binary? && (e.op.And? || e.op.Or?) then
      Combined(e.op, Selectivity(e.left, stats), Selectivity(e.right, stats))
    else if e.Unary? && e.uop.Not? then 1.0 - Selectivity(e.arg, stats)
    else LeafSelectivity(e, stats)
  }

  lemma DeMorgan(x: real, y: real)
    ensures 1.0 - x * y == (1.0 - x) + (1.0 - y) - (1.0 - x) * (1.0 - y)
    ensures 1.0 - (x + y - x * y) == (1.0 - x) * (1.0 - y)
  {
  }

  /** How the estimates of two operands combine. */
  function Combined(op: BinaryOp, x: real, y: real): (s: real)
    requires op.And? || op.Or?
  {
    if op.And? then x * y else x + y - x * y
  }

  function Complement(x: real, negate: bool): (r: real) {
    if negate then 1.0 - x else x
  }

  lemma CombinedDual(op: BinaryOp, x: real, y: real, negate: bool)
    requires op.And? || op.Or?
    ensures var dual := if negate then (if op.And? then Or else And) else op;
            Combined(dual, Complement(x, negate), Complement(y, negate)) == Complement(Combined(op, x, y), negate)
  {
    DeMorgan(x, y);
  }

  /** Pushing NOT down keeps the estimate, whatever the statistics say. */
  lemma {:induction false} PushNotKeepsSelectivity(e: Expr, negate: bool, stats: Statistics)
    ensures Selectivity(PushNot(e, negate), stats) == Complement(Selectivity(e, stats), negate)
  {
    if e.Unary? && e.uop.Not? {
      PushNotKeepsSelectivity(e.arg, !negate, stats);
    } else if e.Binary? && (e.op.And? || e.op.Or?) {
      PushNotKeepsSelectivity(e.left, negate, stats);
      PushNotKeepsSelectivity(e.right, negate, stats);
      CombinedDual(e.op, Selectivity(e.left, stats), Selectivity(e.right, stats), negate);
    }
  }

  predicate IsFraction(x: real) {
    0.0 <= x <= 1.0
  }

  ghost predicate SoundStatistics(stats: Statistics) {
    forall c: string :: IsFraction(stats.equality(c)) && IsFraction(stats.range(c)) && IsFraction(stats.nulls(c))
  }

  lemma ProductIsFraction(x: real, y: real)
    requires IsFraction(x) && IsFraction(y)
    ensures IsFraction(x * y) && IsFraction(x + y - x * y)
  {
    var p := x * y;
    assert p >= 0.0 by { RealProductNonNegative(x, y); }
    assert x - p >= 0.0 by {
      RealProductNonNegative(x, 1.0 - y);
      assert x * (1.0 - y) == x - x * y;
    }
    assert 1.0 - x - y + p >= 0.0 by {
      RealProductNonNegative(1.0 - x, 1.0 - y);
      DeMorgan(x, y);
    }
  }

  lemma RealProductNonNegative(x: real, y: real)
    requires x >= 0.0 && y >= 0.0
    ensures x * y >= 0.0
  {
  }

  /** An estimate is a fraction of the rows as soon as the leaf estimates are. */
  lemma {:induction false} SelectivityIsFraction(e: Expr, stats: Statistics)
    requires SoundStatistics(stats)
    ensures IsFraction(Selectivity(e, stats))
  {
    if e.Unary? && e.uop.Not? {
      SelectivityIsFraction(e.arg, stats);
    } else if e.Binary? && (e.op.And? || e.op.Or?) {
      SelectivityIsFraction(e.left, stats);
      SelectivityIsFraction(e.right, stats);
      ProductIsFraction(Selectivity(e.left, stats), Selectivity(e.right, stats));
    } else if e.IsNull? {
      assert e.arg.Column? ==> IsFraction(stats.nulls(e.arg.name));
    } else if e.Binary? && e.left.Column? {
      assert IsFraction(stats.equality(e.left.name)) && IsFraction(stats.range(e.left.name));
    }
  }

  lemma CombinedIsOrdered(x: real, y: real)
    requires IsFraction(x) && IsFraction(y)
    ensures Combined(And, x, y) <= x <= Combined(Or, x, y) && Combined(And, x, y) <= y <= Combined(Or, x, y)
  {
    RealProductNonNegative(x, 1.0 - y);
    assert x * (1.0 - y) == x - x * y;
    RealProductNonNegative(1.0 - x, y);
    assert (1.0 - x) * y == y - x * y;
  }

  /** A conjunction is estimated to keep no more rows than either operand, a disjunction no fewer. */
  lemma EstimatesAreOrdered(l: Expr, r: Expr, stats: Statistics)
    requires SoundStatistics(stats)
    ensures var both, either := Selectivity(Binary(l, And, r), stats), Selectivity(Binary(l, Or, r), stats);
            both <= Selectivity(l, stats) <= either && both <= Selectivity(r, stats) <= either
  {
    SelectivityIsFraction(l, stats);
    SelectivityIsFraction(r, stats);
    CombinedIsOrdered(Selectivity(l, stats), Selectivity(r, stats));
  }

  /** Which statistics a comparison with a column, and a NULL test of one, are estimated from. */
  lemma LeafEstimates(table: Option<string>, c: string, e: Expr, stats: Statistics)
    ensures var column := Column(table, c);
            Selectivity(Binary(column, OtherBinary("Eq"), e), stats) == stats.equality(c) &&
            (forall op :: op in {"Lt", "Gt", "LtEq", "GtEq"} ==>
               Selectivity(Binary(column, OtherBinary(op), e), stats) == stats.range(c)) &&
            Selectivity(IsNull(column, true), stats) == stats.nulls(c) &&
            Selectivity(IsNull(column, true), stats) + Selectivity(IsNull(column, false), stats) == 1.0
  {
  }

  // ---------------------------------------------------------------------------------------------
  // Three-valued logic
  // ---------------------------------------------------------------------------------------------

  /** A predicate over nullable boolean columns, identified by number. */
  datatype Pred = Leaf(column: nat) | Both(l: Pred, r: Pred) | Either(l: Pred, r: Pred) | Negation(p: Pred)

  /** One value per column; None is NULL. */
  type Row = nat -> Option<bool>

  /** The predicate as an expression, given the expression of each column. */
  function AsExpr(p: Pred, column: nat -> Expr): (e: Expr) {
    match p
    case Leaf(c) => column(c)
    case Both(l, r) => Binary(AsExpr(l, column), And, AsExpr(r, column))
    case Either(l, r) => Binary(AsExpr(l, column), Or, AsExpr(r, column))
    case Negation(q) => Unary(Not, AsExpr(q, column))
  }

  /** What the evaluator makes of a row: NULL reads as false at the leaves. */
  predicate Keeps(p: Pred, row: Row) {
    match p
    case Leaf(c) => row(c) == Some(true)
    case Both(l, r) => Keeps(l, row) && Keeps(r, row)
    case Either(l, r) => Keeps(l, row) || Keeps(r, row)
    case Negation(q) => !Keeps(q, row)
  }

  /** SQL's truth value; None is Unknown. A WHERE clause keeps the row when it is Some(true). */
  function Kleene(p: Pred, row: Row): (r: Option<bool>) {
    match p
    case Leaf(c) => row(c)
    case Both(l, r) =>
      var x, y := Kleene(l, row), Kleene(r, row);
      if (x.Some? && !x.value) || (y.Some? && !y.value) then Some(false)
      else if x.None? || y.None? then None else Some(true)
    case Either(l, r) =>
      var x, y := Kleene(l, row), Kleene(r, row);
      if (x.Some? && x.value) || (y.Some? && y.value) then Some(true)
      else if x.None? || y.None? then None else Some(false)
    case Negation(q) =>
      var x := Kleene(q, row);
      if x.None? then None else Some(!x.value)
  }

  function NullableBoolean(b: Option<bool>): (v: Value) {
    if b.None? then SqlNull else Boolean(b.value)
  }

  /** `Keeps` is the evaluator's answer for the predicate as an expression. */
  lemma {:induction false} KeepsIsTruth(p: Pred, column: nat -> Expr, row: Row, ctx: Context, tuple: Tuple)
    requires forall c :: Evaluate(column(c), ctx, tuple) == Ok(NullableBoolean(row(c)))
    ensures Truth(AsExpr(p, column), ctx, tuple) == Ok(Keeps(p, row))
  {
    match p
    case Leaf(_) =>
    case Both(l, r) =>
      KeepsIsTruth(l, column, row, ctx, tuple);
      KeepsIsTruth(r, column, row, ctx, tuple);
    case Either(l, r) =>
      KeepsIsTruth(l, column, row, ctx, tuple);
      KeepsIsTruth(r, column, row, ctx, tuple);
    case Negation(q) => KeepsIsTruth(q, column, row, ctx, tuple);
  }

  /**
   For every predicate, NOT included, the evaluator agrees with SQL wherever SQL has a definite
   answer: it keeps every row SQL keeps, and can only go wrong on Unknown.
   */
  lemma {:induction false} AgreesWhenKnown(p: Pred, row: Row)
    ensures Kleene(p, row).Some? ==> Keeps(p, row) == Kleene(p, row).value
  {
    match p
    case Leaf(_) =>
    case Both(l, r) =>
      AgreesWhenKnown(l, row);
      AgreesWhenKnown(r, row);
    case Either(l, r) =>
      AgreesWhenKnown(l, row);
      AgreesWhenKnown(r, row);
    case Negation(q) => AgreesWhenKnown(q, row);
  }

  /** Every leaf is under an even number of NOTs; `odd` counts as one more NOT around all of it. */
  predicate LeavesUnder(p: Pred, odd: bool) {
    match p
    case Leaf(_) => !odd
    case Both(l, r) => LeavesUnder(l, odd) && LeavesUnder(r, odd)
    case Either(l, r) => LeavesUnder(l, odd) && LeavesUnder(r, odd)
    case Negation(q) => LeavesUnder(q, !odd)
  }

  predicate NotFree(p: Pred) {
    match p
    case Leaf(_) => true
    case Both(l, r) => NotFree(l) && NotFree(r)
    case Either(l, r) => NotFree(l) && NotFree(r)
    case Negation(_) => false
  }

  /** On this row no leaf is NULL under an odd number of NOTs; `odd` counts as one more NOT around all of it. */
  predicate NullsUnder(p: Pred, row: Row, odd: bool) {
    match p
    case Leaf(c) => row(c).None? ==> !odd
    case Both(l, r) => NullsUnder(l, row, odd) && NullsUnder(r, row, odd)
    case Either(l, r) => NullsUnder(l, row, odd) && NullsUnder(r, row, odd)
    case Negation(q) => NullsUnder(q, row, !odd)
  }

  /**
   Row by row, for every predicate, also one that repeats columns: if no leaf is NULL under an odd
   number of NOTs, the row is kept exactly if SQL keeps it.
   */
  lemma {:induction false} RowAgrees(p: Pred, row: Row)
    ensures NullsUnder(p, row, false) ==> (Keeps(p, row) <==> Kleene(p, row) == Some(true))
    ensures NullsUnder(p, row, true) ==> (!Keeps(p, row) <==> Kleene(p, row) == Some(false))
  {
    match p
    case Leaf(c) =>
      if row(c).Some? {
        var b := row(c).value;
        assert row(c) == Some(b);
      }
    case Both(l, r) =>
      RowAgrees(l, row);
      RowAgrees(r, row);
    case Either(l, r) =>
      RowAgrees(l, row);
      RowAgrees(r, row);
    case Negation(q) => RowAgrees(q, row);
  }

  lemma {:induction false} ParityCoversNulls(p: Pred, row: Row, odd: bool)
    requires LeavesUnder(p, odd)
    ensures NullsUnder(p, row, odd)
  {
    match p
    case Leaf(_) =>
    case Both(l, r) =>
      ParityCoversNulls(l, row, odd);
      ParityCoversNulls(r, row, odd);
    case Either(l, r) =>
      ParityCoversNulls(l, row, odd);
      ParityCoversNulls(r, row, odd);
    case Negation(q) => ParityCoversNulls(q, row, !odd);
  }

  /** If every leaf is under an even number of NOTs, exactly SQL's rows are kept. */
  lemma EvenPredicatesAgree(p: Pred, row: Row)
    requires LeavesUnder(p, false)
    ensures Keeps(p, row) <==> Kleene(p, row) == Some(true)
  {
    ParityCoversNulls(p, row, false);
    RowAgrees(p, row);
  }

  lemma {:induction false} NotFreeIsEven(p: Pred)
    requires NotFree(p)
    ensures LeavesUnder(p, false)
  {
    if p.Both? || p.Either? {
      NotFreeIsEven(p.l);
      NotFreeIsEven(p.r);
    }
  }

  function Columns(p: Pred): (s: set<nat>) {
    match p
    case Leaf(c) => {c}
    case Both(l, r) => Columns(l) + Columns(r)
    case Either(l, r) => Columns(l) + Columns(r)
    case Negation(q) => Columns(q)
  }

  /** No column is mentioned twice. */
  predicate ReadOnce(p: Pred) {
    match p
    case Leaf(_) => true
    case Both(l, r) => ReadOnce(l) && ReadOnce(r) && Columns(l) !! Columns(r)
    case Either(l, r) => ReadOnce(l) && ReadOnce(r) && Columns(l) !! Columns(r)
    case Negation(q) => ReadOnce(q)
  }

  lemma {:induction false} OnlyColumnsMatter(p: Pred, row: Row, other: Row)
    requires forall c :: c in Columns(p) ==> row(c) == other(c)
    ensures Keeps(p, row) == Keeps(p, other) && Kleene(p, row) == Kleene(p, other)
  {
    match p
    case Leaf(_) =>
    case Both(l, r) =>
      OnlyColumnsMatter(l, row, other);
      OnlyColumnsMatter(r, row, other);
    case Either(l, r) =>
      OnlyColumnsMatter(l, row, other);
      OnlyColumnsMatter(r, row, other);
    case Negation(q) => OnlyColumnsMatter(q, row, other);
  }

  function Merge(s: set<nat>, row: Row, other: Row): (r: Row) {
    (c: nat) => if c in s then row(c) else other(c)
  }

  lemma MergeKeepsBoth(l: Pred, r: Pred, rowL: Row, rowR: Row)
    requires Columns(l) !! Columns(r)
    ensures var row := Merge(Columns(l), rowL, rowR);
            Keeps(l, row) == Keeps(l, rowL) && Kleene(l, row) == Kleene(l, rowL) &&
            Keeps(r, row) == Keeps(r, rowR) && Kleene(r, row) == Kleene(r, rowR)
  {
    var row := Merge(Columns(l), rowL, rowR);
    OnlyColumnsMatter(l, row, rowL);
    OnlyColumnsMatter(r, row, rowR);
  }

  /** A read-once predicate can be made true and can be made false without using NULL. */
  lemma {:induction false} Settle(p: Pred, b: bool) returns (row: Row)
    requires ReadOnce(p)
    ensures Keeps(p, row) == b && Kleene(p, row) == Some(b)
  {
    match p
    case Leaf(_) => row := _ => Some(b);
    case Both(l, r) =>
      var rowL := Settle(l, b);
      var rowR := Settle(r, b);
      MergeKeepsBoth(l, r, rowL, rowR);
      row := Merge(Columns(l), rowL, rowR);
    case Either(l, r) =>
      var rowL := Settle(l, b);
      var rowR := Settle(r, b);
      MergeKeepsBoth(l, r, rowL, rowR);
      row := Merge(Columns(l), rowL, rowR);
    case Negation(q) => row := Settle(q, !b);
  }

  /** A leaf of the wrong parity can be made the pivot of a disagreement. */
  lemma {:induction false} Disagree(p: Pred, odd: bool) returns (row: Row)
    requires ReadOnce(p) && !LeavesUnder(p, odd)
    ensures Keeps(p, row) == !odd && Kleene(p, row) == None
  {
    match p
    case Leaf(_) => row := _ => None;
    case Negation(q) => row := Disagree(q, !odd);
    case _ =>
      // the other operand is set to the neutral value of the connective
      var l, r, neutral := p.l, p.r, p.Both?;
      if !LeavesUnder(l, odd) {
        var rowL := Disagree(l, odd);
        var rowR := Settle(r, neutral);
        MergeKeepsBoth(l, r, rowL, rowR);
        row := Merge(Columns(l), rowL, rowR);
      } else {
        var rowL := Settle(l, neutral);
        var rowR := Disagree(r, odd);
        MergeKeepsBoth(l, r, rowL, rowR);
        row := Merge(Columns(l), rowL, rowR);
      }
  }

  /**
   A predicate that mentions each column once keeps exactly SQL's rows, on every row, if and only
   if each of its leaves is under an even number of NOTs.
   */
  lemma AgreementExactly(p: Pred)
    requires ReadOnce(p)
    ensures (forall row: Row :: Keeps(p, row) <==> Kleene(p, row) == Some(true)) <==> LeavesUnder(p, false)
  {
    if LeavesUnder(p, false) {
      forall row: Row ensures Keeps(p, row) <==> Kleene(p, row) == Some(true) {
        EvenPredicatesAgree(p, row);
      }
    } else {
      var row := Disagree(p, false);
      assert Keeps(p, row) && Kleene(p, row) != Some(true);
    }
  }

  // ---------------------------------------------------------------------------------------------
  // Predicates that repeat columns
  // ---------------------------------------------------------------------------------------------

  /** The same connectives over possibly other columns. */
  predicate SameForm(p: Pred, q: Pred) {
    match p
    case Leaf(_) => q.Leaf?
    case Both(l, r) => q.Both? && SameForm(l, q.l) && SameForm(r, q.r)
    case Either(l, r) => q.Either? && SameForm(l, q.l) && SameForm(r, q.r)
    case Negation(x) => q.Negation? && SameForm(x, q.p)
  }

  function Leaves(p: Pred): (n: nat) {
    match p
    case Leaf(_) => 1
    case Both(l, r) => Leaves(l) + Leaves(r)
    case Either(l, r) => Leaves(l) + Leaves(r)
    case Negation(q) => Leaves(q)
  }

  /** Every leaf gets a column of its own. */
  function Numbered(p: Pred, from: nat): (q: Pred) {
    match p
    case Leaf(_) => Leaf(from)
    case Both(l, r) => Both(Numbered(l, from), Numbered(r, from + Leaves(l)))
    case Either(l, r) => Either(Numbered(l, from), Numbered(r, from + Leaves(l)))
    case Negation(x) => Negation(Numbered(x, from))
  }

  lemma {:induction false} NumberedIsReadOnce(p: Pred, from: nat)
    ensures SameForm(p, Numbered(p, from)) && ReadOnce(Numbered(p, from))
    ensures forall c :: c in Columns(Numbered(p, from)) ==> from <= c < from + Leaves(p)
  {
    match p
    case Leaf(_) =>
    case Both(l, r) =>
      NumberedIsReadOnce(l, from);
      NumberedIsReadOnce(r, from + Leaves(l));
    case Either(l, r) =>
      NumberedIsReadOnce(l, from);
      NumberedIsReadOnce(r, from + Leaves(l));
    case Negation(q) => NumberedIsReadOnce(q, from);
  }

  lemma {:induction false} FormFixesParity(p: Pred, q: Pred, odd: bool)
    requires SameForm(p, q)
    ensures LeavesUnder(p, odd) <==> LeavesUnder(q, odd)
  {
    match p
    case Leaf(_) =>
    case Both(l, r) =>
      FormFixesParity(l, q.l, odd);
      FormFixesParity(r, q.r, odd);
    case Either(l, r) =>
      FormFixesParity(l, q.l, odd);
      FormFixesParity(r, q.r, odd);
    case Negation(x) => FormFixesParity(x, q.p, !odd);
  }

  /**
   For every predicate: whatever columns its leaves mention, repeated or not, exactly SQL's rows are
   kept on all rows, if and only if each of its leaves is under an even number of NOTs.
   */
  lemma FormAgreesExactly(p: Pred)
    ensures (forall q: Pred, row: Row :: SameForm(p, q) ==> (Keeps(q, row) <==> Kleene(q, row) == Some(true))) <==>
            LeavesUnder(p, false)
  {
    if LeavesUnder(p, false) {
      forall q: Pred, row: Row | SameForm(p, q) ensures Keeps(q, row) <==> Kleene(q, row) == Some(true) {
        FormFixesParity(p, q, false);
        EvenPredicatesAgree(q, row);
      }
    } else {
      var q := Numbered(p, 0);
      NumberedIsReadOnce(p, 0);
      FormFixesParity(p, q, false);
      var row := Disagree(q, false);
      assert Keeps(q, row) && Kleene(q, row) != Some(true);
    }
  }

  // ---------------------------------------------------------------------------------------------
  // The estimate as a probability
  // ---------------------------------------------------------------------------------------------

  function WithColumn(row: Row, c: nat, b: bool): (r: Row) {
    (x: nat) => if x == c then Some(b) else row(x)
  }

  /** The mean of two values, the first with probability `e`. */
  function Mean(e: real, x: real, y: real): (r: real) {
    e * x + (1.0 - e) * y
  }

  lemma MeanOfSame(e: real, x: real)
    ensures Mean(e, x, x) == x
  {
  }

  lemma MeanOfComplements(e: real, x: real, y: real)
    ensures Mean(e, 1.0 - x, 1.0 - y) == 1.0 - Mean(e, x, y)
  {
  }

  lemma MeanOfMultiples(e: real, x: real, y1: real, y0: real)
    ensures Mean(e, Combined(And, x, y1), Combined(And, x, y0)) == Combined(And, x, Mean(e, y1, y0))
  {
    assert e * (x * y1) == x * (e * y1);
    assert (1.0 - e) * (x * y0) == x * ((1.0 - e) * y0);
  }

  lemma CombinedCommutes(op: BinaryOp, x: real, y: real)
    requires op.And? || op.Or?
    ensures Combined(op, x, y) == Combined(op, y, x)
  {
  }

  lemma MeanOfProducts(e: real, x1: real, x0: real, y1: real, y0: real)
    requires x1 == x0 || y1 == y0
    ensures Mean(e, Combined(And, x1, y1), Combined(And, x0, y0)) == Combined(And, Mean(e, x1, x0), Mean(e, y1, y0))
  {
    if x1 == x0 {
      MeanOfSame(e, x1);
      MeanOfMultiples(e, x1, y1, y0);
    } else {
      MeanOfSame(e, y1);
      MeanOfMultiples(e, y1, x1, x0);
      CombinedCommutes(And, x1, y1);
      CombinedCommutes(And, x0, y1);
      CombinedCommutes(And, Mean(e, x1, x0), y1);
    }
  }

  /**
   The probability that the predicate is true when each listed column is true with its own
   probability, independently of the others: the sum over all valuations of the columns, one column
   after the other. Columns that are not listed are as in `row`.
   */
  function Chance(p: Pred, columns: seq<nat>, row: Row, likely: nat -> real): (r: real) {
    if columns == [] then (if Keeps(p, row) then 1.0 else 0.0)
    else
      var c := columns[0];
      Mean(likely(c), Chance(p, columns[1..], WithColumn(row, c, true), likely),
           Chance(p, columns[1..], WithColumn(row, c, false), likely))
  }

  /** The two cases of the first column. */
  function Yes(p: Pred, columns: seq<nat>, row: Row, likely: nat -> real): (r: real)
    requires columns != []
  {
    Chance(p, columns[1..], WithColumn(row, columns[0], true), likely)
  }

  function No(p: Pred, columns: seq<nat>, row: Row, likely: nat -> real): (r: real)
    requires columns != []
  {
    Chance(p, columns[1..], WithColumn(row, columns[0], false), likely)
  }

  /** Only the predicate's own columns matter. */
  lemma {:induction false} ChanceDepends(p: Pred, columns: seq<nat>, row: Row, other: Row, likely: nat -> real)
    requires forall c :: c in Columns(p) ==> row(c) == other(c)
    ensures Chance(p, columns, row, likely) == Chance(p, columns, other, likely)
  {
    if columns == [] {
      OnlyColumnsMatter(p, row, other);
    } else {
      var c, rest := columns[0], columns[1..];
      ChanceDepends(p, rest, WithColumn(row, c, true), WithColumn(other, c, true), likely);
      ChanceDepends(p, rest, WithColumn(row, c, false), WithColumn(other, c, false), likely);
    }
  }

  /** A column the predicate does not mention makes no difference. */
  lemma ChanceSkips(p: Pred, columns: seq<nat>, row: Row, likely: nat -> real)
    requires columns != [] && columns[0] !in Columns(p)
    ensures Yes(p, columns, row, likely) == No(p, columns, row, likely)
  {
    var c := columns[0];
    ChanceDepends(p, columns[1..], WithColumn(row, c, true), WithColumn(row, c, false), likely);
  }

  lemma {:induction false} ChanceOfNegation(p: Pred, columns: seq<nat>, row: Row, likely: nat -> real)
    ensures Chance(Negation(p), columns, row, likely) == 1.0 - Chance(p, columns, row, likely)
  {
    if columns != [] {
      ChanceOfNegation(p, columns[1..], WithColumn(row, columns[0], true), likely);
      ChanceOfNegation(p, columns[1..], WithColumn(row, columns[0], false), likely);
      MeanOfComplements(likely(columns[0]), Yes(p, columns, row, likely), No(p, columns, row, likely));
    }
  }

  /** Predicates over different columns are independent. */
  lemma {:induction false} ChanceOfBoth(l: Pred, r: Pred, columns: seq<nat>, row: Row, likely: nat -> real)
    requires Columns(l) !! Columns(r)
    ensures Chance(Both(l, r), columns, row, likely) ==
            Combined(And, Chance(l, columns, row, likely), Chance(r, columns, row, likely))
    decreases |columns|
  {
    if columns == [] {
      assert Keeps(Both(l, r), row) == (Keeps(l, row) && Keeps(r, row));
    } else {
      var c := columns[0];
      ChanceOfBoth(l, r, columns[1..], WithColumn(row, c, true), likely);
      ChanceOfBoth(l, r, columns[1..], WithColumn(row, c, false), likely);
      if c !in Columns(l) {
        ChanceSkips(l, columns, row, likely);
      } else {
        ChanceSkips(r, columns, row, likely);
      }
      MeanOfProducts(likely(c), Yes(l, columns, row, likely), No(l, columns, row, likely),
                     Yes(r, columns, row, likely), No(r, columns, row, likely));
    }
  }

  lemma {:induction false} EitherIsNotNeither(l: Pred, r: Pred, columns: seq<nat>, row: Row, likely: nat -> real)
    ensures Chance(Either(l, r), columns, row, likely) ==
            Chance(Negation(Both(Negation(l), Negation(r))), columns, row, likely)
  {
    if columns == [] {
      assert Keeps(Negation(l), row) == !Keeps(l, row) && Keeps(Negation(r), row) == !Keeps(r, row);
      assert Keeps(Both(Negation(l), Negation(r)), row) == (!Keeps(l, row) && !Keeps(r, row));
    } else {
      EitherIsNotNeither(l, r, columns[1..], WithColumn(row, columns[0], true), likely);
      EitherIsNotNeither(l, r, columns[1..], WithColumn(row, columns[0], false), likely);
    }
  }

  lemma ChanceOfEither(l: Pred, r: Pred, columns: seq<nat>, row: Row, likely: nat -> real)
    requires Columns(l) !! Columns(r)
    ensures Chance(Either(l, r), columns, row, likely) ==
            Combined(Or, Chance(l, columns, row, likely), Chance(r, columns, row, likely))
  {
    EitherIsNotNeither(l, r, columns, row, likely);
    ChanceOfNegation(Both(Negation(l), Negation(r)), columns, row, likely);
    ChanceOfBoth(Negation(l), Negation(r), columns, row, likely);
    ChanceOfNegation(l, columns, row, likely);
    ChanceOfNegation(r, columns, row, likely);
    CombinedDual(Or, Chance(l, columns, row, likely), Chance(r, columns, row, likely), true);
  }

  lemma {:induction false} ChanceOfUnlisted(c: nat, columns: seq<nat>, row: Row, likely: nat -> real)
    requires c !in columns
    ensures Chance(Leaf(c), columns, row, likely) == if row(c) == Some(true) then 1.0 else 0.0
  {
    if columns != [] {
      ChanceOfUnlisted(c, columns[1..], WithColumn(row, columns[0], true), likely);
      ChanceOfUnlisted(c, columns[1..], WithColumn(row, columns[0], false), likely);
      MeanOfSame(likely(columns[0]), if row(c) == Some(true) then 1.0 else 0.0);
    }
  }

  lemma {:induction false} ChanceOfLeaf(c: nat, columns: seq<nat>, row: Row, likely: nat -> real)
    requires c in columns
    ensures Chance(Leaf(c), columns, row, likely) == likely(c)
  {
    var first, rest := columns[0], columns[1..];
    if c in rest {
      ChanceOfLeaf(c, rest, WithColumn(row, first, true), likely);
      ChanceOfLeaf(c, rest, WithColumn(row, first, false), likely);
      MeanOfSame(likely(first), likely(c));
    } else {
      ChanceOfUnlisted(c, rest, WithColumn(row, first, true), likely);
      ChanceOfUnlisted(c, rest, WithColumn(row, first, false), likely);
    }
  }

  /** The estimate of a column's expression. */
  function LeafLikelihood(column: nat -> Expr, stats: Statistics): (likely: nat -> real) {
    (c: nat) => Selectivity(column(c), stats)
  }

  /**
   For a predicate that mentions each column once, the estimate is the probability that it is true
   when its leaves are true independently of each other, each with its own estimate; for any list
   of columns that has those of the predicate, and whatever the leaves are.
   */
  lemma {:induction false} SelectivityIsProbability(
    p: Pred, columns: seq<nat>, row: Row, column: nat -> Expr, stats: Statistics)
    requires ReadOnce(p) && forall c :: c in Columns(p) ==> c in columns
    ensures Selectivity(AsExpr(p, column), stats) == Chance(p, columns, row, LeafLikelihood(column, stats))
  {
    var likely := LeafLikelihood(column, stats);
    match p
    case Leaf(c) => ChanceOfLeaf(c, columns, row, likely);
    case Both(l, r) =>
      SelectivityIsProbability(l, columns, row, column, stats);
      SelectivityIsProbability(r, columns, row, column, stats);
      ChanceOfBoth(l, r, columns, row, likely);
    case Either(l, r) =>
      SelectivityIsProbability(l, columns, row, column, stats);
      SelectivityIsProbability(r, columns, row, column, stats);
      ChanceOfEither(l, r, columns, row, likely);
    case Negation(q) =>
      SelectivityIsProbability(q, columns, row, column, stats);
      ChanceOfNegation(q, columns, row, likely);
  }
}
