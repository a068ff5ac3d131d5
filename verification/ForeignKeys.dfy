/**
 `ForeignKeyValidator` (sql/constraints.rs): the decisions it takes, the history behind its
 `validation_stack`, and referential integrity over whole runs of a caller that obeys it.
 */
module ForeignKeys {
  import opened Wrappers
  import opened SqlValues

  datatype ReferentialAction = NoAction | Restrict | Cascade | SetNull | SetDefault

  datatype ForeignKeyConstraint = ForeignKeyConstraint(
    name: string, tableName: string, columns: seq<string>,
    referencesTable: string, referencesColumns: seq<string>,
    onDelete: ReferentialAction, onUpdate: ReferentialAction)

  type Key = seq<Value>

  predicate HasNull(k: Key) {
    exists i :: 0 <= i < |k| && k[i].SqlNull?
  }

  // ---------------------------------------------------------------------------------------------
  // Decisions
  // ---------------------------------------------------------------------------------------------

  /** How a validate_insert call went. */
  datatype Outcome = HadNull | Circular | LookupFailed | Missing | Found

  function InsertOutcome(stack: set<string>, fk: ForeignKeyConstraint, values: Key, lookup: Result<bool>): (o: Outcome)
  {
    if HasNull(values) then HadNull
    else if fk.referencesTable in stack then Circular
    else match lookup
      case Err => LookupFailed
      case Ok(exists_) => if exists_ then Found else Missing
  }

  predicate Accepted(o: Outcome) {
    o.HadNull? || o.Found?
  }

  /** The call got past the NULL check and the cycle check. */
  predicate Passed(o: Outcome) {
    o.LookupFailed? || o.Missing? || o.Found?
  }

  /** A failed lookup returns before the table is taken off the stack again. */
  function StackAfter(stack: set<string>, fk: ForeignKeyConstraint, o: Outcome): (r: set<string>) {
    if o.LookupFailed? then stack + {fk.tableName}
    else if Passed(o) then stack - {fk.tableName}
    else stack
  }

  function Decide(action: ReferentialAction, hasReferences: bool): (r: Result<ReferentialAction>) {
    if !hasReferences then Ok(NoAction)
    else if action.NoAction? || action.Restrict? then Err
    else Ok(action)
  }

  function ValidateDelete(fk: ForeignKeyConstraint, lookup: Result<bool>): (r: Result<ReferentialAction>) {
    if lookup.Err? then Err else Decide(fk.onDelete, lookup.value)
  }

  function ValidateUpdate(fk: ForeignKeyConstraint, oldValues: Key, newValues: Key, lookup: Result<bool>)
    : (r: Result<ReferentialAction>)
  {
    if oldValues == newValues then Ok(NoAction)
    else if lookup.Err? then Err
    else Decide(fk.onUpdate, lookup.value)
  }

  class ForeignKeyValidator {
    var validationStack: set<string>

    constructor ()
      ensures validationStack == {}
    {
      validationStack := {};
    }

    method ValidateInsert(
      fk: ForeignKeyConstraint, fkValues: Key, checkReferenceExists: (string, seq<string>, Key) -> Result<bool>)
      returns (r: Result<()>)
      modifies this
      ensures var o := InsertOutcome(old(validationStack), fk, fkValues,
                                     checkReferenceExists(fk.referencesTable, fk.referencesColumns, fkValues));
              (r.Ok? <==> Accepted(o)) && validationStack == StackAfter(old(validationStack), fk, o)
    {
      if exists i :: 0 <= i < |fkValues| && fkValues[i].SqlNull? {
        return Ok(());
      }
      if fk.referencesTable in validationStack {
        return Err;
      }
      validationStack := validationStack + {fk.tableName};
      var found := checkReferenceExists(fk.referencesTable, fk.referencesColumns, fkValues);
      if found.Err? {
        return Err;
      }
      validationStack := validationStack - {fk.tableName};
      r := if found.value then Ok(()) else Err;
    }
  }

  // ---------------------------------------------------------------------------------------------
  // The validation stack over a run of calls
  // ---------------------------------------------------------------------------------------------

  /** One validate_insert call, with what the lookup would answer. */
  datatype Call = Call(fk: ForeignKeyConstraint, values: Key, lookup: Result<bool>)

  function StackOf(start: set<string>, calls: seq<Call>): (s: set<string>) {
    if calls == [] then start
    else
      var before := StackOf(start, calls[..|calls| - 1]);
      var c := calls[|calls| - 1];
      StackAfter(before, c.fk, InsertOutcome(before, c.fk, c.values, c.lookup))
  }

  function OutcomeAt(start: set<string>, calls: seq<Call>, i: nat): (o: Outcome)
    requires i < |calls|
  {
    InsertOutcome(StackOf(start, calls[..i]), calls[i].fk, calls[i].values, calls[i].lookup)
  }

  /** Call `i` is for table `t` and got past the checks. */
  predicate PassedFor(start: set<string>, calls: seq<Call>, t: string, i: int) {
    0 <= i < |calls| && calls[i].fk.tableName == t && Passed(OutcomeAt(start, calls, i))
  }

  /** Call `i` is the last such call. */
  ghost predicate LastPassed(start: set<string>, calls: seq<Call>, t: string, i: int) {
    PassedFor(start, calls, t, i) && forall j :: PassedFor(start, calls, t, j) ==> j <= i
  }

  lemma PrefixOutcomes(start: set<string>, calls: seq<Call>, n: nat, t: string)
    requires n <= |calls|
    ensures forall i :: 0 <= i < n ==> OutcomeAt(start, calls[..n], i) == OutcomeAt(start, calls, i)
    ensures forall i :: 0 <= i < n ==> (PassedFor(start, calls[..n], t, i) <==> PassedFor(start, calls, t, i))
  {
    forall i | 0 <= i < n ensures OutcomeAt(start, calls[..n], i) == OutcomeAt(start, calls, i) {
      assert calls[..n][..i] == calls[..i];
    }
  }

  /**
   After any run of calls on a new validator, a table is on the stack exactly when the last call for
   it that got past the NULL and cycle checks ended in a lookup error.
   */
  lemma {:induction false} StackHistory(calls: seq<Call>, t: string)
    ensures t in StackOf({}, calls) <==>
            exists i :: LastPassed({}, calls, t, i) && OutcomeAt({}, calls, i).LookupFailed?
  {
    if calls != [] {
      var n := |calls| - 1;
      StackHistory(calls[..n], t);
      PrefixOutcomes({}, calls, n, t);
      if PassedFor({}, calls, t, n) {
        assert LastPassed({}, calls, t, n);
      } else {
        NotPassedLast(calls, t);
      }
    }
  }

  lemma NotPassedLast(calls: seq<Call>, t: string)
    requires calls != [] && !PassedFor({}, calls, t, |calls| - 1)
    ensures forall i :: LastPassed({}, calls, t, i) <==> LastPassed({}, calls[..|calls| - 1], t, i)
  {
    PrefixOutcomes({}, calls, |calls| - 1, t);
  }

  /** Every foreign key of a table in `s` refers to a table in `s`. */
  predicate Closed(calls: seq<Call>, s: set<string>) {
    forall i :: 0 <= i < |calls| && calls[i].fk.tableName in s ==> calls[i].fk.referencesTable in s
  }

  /**
   Tables left on the stack that refer only to each other (one self-referencing table, say) never
   leave it: from then on every NULL-free insert into them is refused, whatever is in the tables.
   */
  lemma {:induction false} LockedOutForever(start: set<string>, calls: seq<Call>, s: set<string>)
    requires s <= start && Closed(calls, s)
    ensures s <= StackOf(start, calls)
    ensures forall i :: 0 <= i < |calls| && calls[i].fk.tableName in s && !HasNull(calls[i].values) ==>
              OutcomeAt(start, calls, i).Circular?
  {
    if calls != [] {
      var n := |calls| - 1;
      LockedOutForever(start, calls[..n], s);
      forall i | 0 <= i < n && calls[i].fk.tableName in s && !HasNull(calls[i].values)
        ensures OutcomeAt(start, calls, i).Circular?
      {
        assert OutcomeAt(start, calls[..n], i).Circular?;
        assert calls[..n][..i] == calls[..i];
      }
    }
  }

  // ---------------------------------------------------------------------------------------------
  // Referential integrity over runs
  // ---------------------------------------------------------------------------------------------

  /** The referenced keys and the referencing rows of one foreign key, with the validator's stack. */
  datatype Db = Db(parents: map<nat, Key>, children: map<nat, Key>, stack: set<string>)

  /** A NULL-free child key equal to a parent key; a key with a NULL is nobody's reference. */
  predicate References(child: Key, parent: Key) {
    child == parent && !HasNull(parent)
  }

  predicate Matched(parents: map<nat, Key>, k: Key) {
    exists id :: id in parents && References(k, parents[id])
  }

  predicate Referenced(children: map<nat, Key>, k: Key) {
    exists id :: id in children && References(children[id], k)
  }

  /** Every child row is partly NULL or matched by a parent row. */
  predicate Integrity(db: Db) {
    forall c :: c in db.children ==> HasNull(db.children[c]) || Matched(db.parents, db.children[c])
  }

  /** What a statement asks for; `fails` says that the validator's lookup raises an error. */
  datatype Statement =
    | InsertParent(id: nat, key: Key)
    | DeleteParent(id: nat, fails: bool)
    | UpdateParent(id: nat, key: Key, fails: bool)
    | InsertChild(id: nat, key: Key, fails: bool)
    | UpdateChild(id: nat, key: Key, fails: bool)
    | DeleteChild(id: nat)

  function Truthful(fails: bool, answer: bool): (r: Result<bool>) {
    if fails then Err else Ok(answer)
  }

  function NullKey(k: Key): (r: Key)
    ensures |r| == |k| && (k != [] ==> HasNull(r)) && forall i :: 0 <= i < |r| ==> r[i].SqlNull?
  {
    var r: Key := seq(|k|, _ => SqlNull);
    assert k != [] ==> r[0].SqlNull?;
    r
  }

  /** Carry out a returned action on the rows that reference `was`, a key that is moved or (None) removed. */
  function Propagate(children: map<nat, Key>, was: Key, becomes: Option<Key>, action: ReferentialAction)
    : (r: map<nat, Key>)
  {
    match action
    case Cascade =>
      if becomes.None? then map c | c in children && !References(children[c], was) :: children[c]
      else map c | c in children :: if References(children[c], was) then becomes.value else children[c]
    case SetNull => map c | c in children :: if References(children[c], was) then NullKey(was) else children[c]
    case _ => children
  }

  /** One statement by a caller that does what the validator says. */
  function Execute(db: Db, fk: ForeignKeyConstraint, st: Statement): (r: Db) {
    match st
    case InsertParent(id, key) => if id in db.parents then db else db.(parents := db.parents[id := key])
    case DeleteChild(id) => db.(children := db.children - {id})
    case InsertChild(id, key, fails) =>
      var o := InsertOutcome(db.stack, fk, key, Truthful(fails, Matched(db.parents, key)));
      var after := db.(stack := StackAfter(db.stack, fk, o));
      if Accepted(o) && id !in db.children then after.(children := db.children[id := key]) else after
    case UpdateChild(id, key, fails) =>
      // the check of an insert is the validator's only check on the child side
      if id !in db.children then db
      else
        var o := InsertOutcome(db.stack, fk, key, Truthful(fails, Matched(db.parents, key)));
        var after := db.(stack := StackAfter(db.stack, fk, o));
        if Accepted(o) then after.(children := db.children[id := key]) else after
    case DeleteParent(id, fails) =>
      if id !in db.parents then db
      else
        var was := db.parents[id];
        (match ValidateDelete(fk, Truthful(fails, Referenced(db.children, was)))
         case Err => db
         case Ok(action) =>
           db.(parents := db.parents - {id}, children := Propagate(db.children, was, None, action)))
    case UpdateParent(id, key, fails) =>
      if id !in db.parents then db
      else
        var was := db.parents[id];
        (match ValidateUpdate(fk, was, key, Truthful(fails, Referenced(db.children, was)))
         case Err => db
         case Ok(action) =>
           db.(parents := db.parents[id := key], children := Propagate(db.children, was, Some(key), action)))
  }

  function ExecuteAll(db: Db, fk: ForeignKeyConstraint, sts: seq<Statement>): (r: Db)
    decreases |sts|
  {
    if sts == [] then db else ExecuteAll(Execute(db, fk, sts[0]), fk, sts[1..])
  }

  /** SET DEFAULT is left to the caller altogether. */
  predicate Enforced(fk: ForeignKeyConstraint) {
    !fk.onDelete.SetDefault? && !fk.onUpdate.SetDefault?
  }

  predicate KeysNonEmpty(db: Db) {
    forall p :: p in db.parents ==> db.parents[p] != []
  }

  predicate StatementNonEmpty(st: Statement) {
    (st.InsertParent? || st.UpdateParent?) ==> st.key != []
  }

  /** A child that does not reference the key taken away keeps its match. */
  lemma OthersStayMatched(parents: map<nat, Key>, parents': map<nat, Key>, id: nat, k: Key)
    requires id in parents && Matched(parents, k) && !References(k, parents[id])
    requires forall p :: p in parents && p != id ==> p in parents' && parents'[p] == parents[p]
    ensures Matched(parents', k)
  {
    var p :| p in parents && References(k, parents[p]);
    assert p in parents' && References(k, parents'[p]);
  }

  lemma DeleteKeepsIntegrity(db: Db, fk: ForeignKeyConstraint, id: nat, fails: bool)
    requires Enforced(fk) && Integrity(db) && KeysNonEmpty(db)
    ensures Integrity(Execute(db, fk, DeleteParent(id, fails)))
  {
    var after := Execute(db, fk, DeleteParent(id, fails));
    if after != db {
      var was := db.parents[id];
      forall c | c in after.children
        ensures HasNull(after.children[c]) || Matched(after.parents, after.children[c])
      {
        if References(db.children[c], was) {
          assert Referenced(db.children, was);
        } else if !HasNull(db.children[c]) {
          OthersStayMatched(db.parents, after.parents, id, db.children[c]);
        }
      }
    }
  }

  lemma UpdateKeepsIntegrity(db: Db, fk: ForeignKeyConstraint, id: nat, key: Key, fails: bool)
    requires Enforced(fk) && Integrity(db) && KeysNonEmpty(db)
    ensures Integrity(Execute(db, fk, UpdateParent(id, key, fails)))
  {
    var after := Execute(db, fk, UpdateParent(id, key, fails));
    if after != db && db.parents[id] != key {
      var was := db.parents[id];
      forall c | c in after.children
        ensures HasNull(after.children[c]) || Matched(after.parents, after.children[c])
      {
        if References(db.children[c], was) {
          assert Referenced(db.children, was);
          assert id in after.parents && after.parents[id] == key;
        } else if !HasNull(db.children[c]) {
          OthersStayMatched(db.parents, after.parents, id, db.children[c]);
        }
      }
    }
  }

  lemma GrowingParentsKeepIntegrity(db: Db, id: nat, key: Key)
    requires Integrity(db) && id !in db.parents
    ensures Integrity(db.(parents := db.parents[id := key]))
  {
    var after := db.(parents := db.parents[id := key]);
    forall c | c in after.children ensures HasNull(after.children[c]) || Matched(after.parents, after.children[c]) {
      if !HasNull(db.children[c]) {
        var p :| p in db.parents && References(db.children[c], db.parents[p]);
        assert p in after.parents && after.parents[p] == db.parents[p];
      }
    }
  }

  lemma InsertChildKeepsIntegrity(db: Db, fk: ForeignKeyConstraint, id: nat, key: Key, fails: bool)
    requires Integrity(db)
    ensures Integrity(Execute(db, fk, InsertChild(id, key, fails)))
  {
  }

  lemma UpdateChildKeepsIntegrity(db: Db, fk: ForeignKeyConstraint, id: nat, key: Key, fails: bool)
    requires Integrity(db)
    ensures Integrity(Execute(db, fk, UpdateChild(id, key, fails)))
  {
  }

  lemma StatementKeepsIntegrity(db: Db, fk: ForeignKeyConstraint, st: Statement)
    requires Enforced(fk) && Integrity(db) && KeysNonEmpty(db) && StatementNonEmpty(st)
    ensures Integrity(Execute(db, fk, st)) && KeysNonEmpty(Execute(db, fk, st))
  {
    match st
    case InsertParent(id, key) =>
      if id !in db.parents {
        GrowingParentsKeepIntegrity(db, id, key);
      }
    case DeleteParent(id, fails) => DeleteKeepsIntegrity(db, fk, id, fails);
    case UpdateParent(id, key, fails) => UpdateKeepsIntegrity(db, fk, id, key, fails);
    case InsertChild(id, key, fails) => InsertChildKeepsIntegrity(db, fk, id, key, fails);
    case UpdateChild(id, key, fails) => UpdateChildKeepsIntegrity(db, fk, id, key, fails);
    case DeleteChild(_) =>
  }

  /**
   Every run of statements, with lookups that are truthful or fail, keeps every child row partly
   NULL or matched by a parent row, for every foreign key with at least one column and any mix of
   NO ACTION, RESTRICT, CASCADE and SET NULL.
   */
  lemma {:induction false} RunKeepsIntegrity(db: Db, fk: ForeignKeyConstraint, sts: seq<Statement>)
    requires Enforced(fk) && Integrity(db) && KeysNonEmpty(db)
    requires forall i :: 0 <= i < |sts| ==> StatementNonEmpty(sts[i])
    ensures Integrity(ExecuteAll(db, fk, sts))
    decreases |sts|
  {
    if sts != [] {
      StatementKeepsIntegrity(db, fk, sts[0]);
      RunKeepsIntegrity(Execute(db, fk, sts[0]), fk, sts[1..]);
    }
  }

  /**
   A statement on the parent table leaves every child row alone that does not reference the key it
   takes away, adds none, and removes none except by ON DELETE CASCADE.
   */
  lemma ParentStatementsSpareOthers(db: Db, fk: ForeignKeyConstraint, st: Statement)
    requires (st.DeleteParent? || st.UpdateParent?) && st.id in db.parents
    ensures var after := Execute(db, fk, st);
            (forall c :: c in db.children && !References(db.children[c], db.parents[st.id]) ==>
               c in after.children && after.children[c] == db.children[c]) &&
            after.children.Keys <= db.children.Keys &&
            (!(st.DeleteParent? && fk.onDelete.Cascade?) ==> after.children.Keys == db.children.Keys)
  {
  }

  predicate AllNull(k: Key) {
    forall i :: 0 <= i < |k| ==> k[i].SqlNull?
  }

  /**
   What becomes of the rows that reference a parent row when it is deleted, action by action: with
   CASCADE they go, with SET NULL they stay with every column NULL, and NO ACTION and RESTRICT let
   nothing change. An unreferenced parent row goes by itself, and a failed lookup changes nothing.
   */
  lemma DeleteCarriesOut(db: Db, fk: ForeignKeyConstraint, id: nat, fails: bool)
    requires id in db.parents
    ensures var was, after := db.parents[id], Execute(db, fk, DeleteParent(id, fails));
            (fails ==> after == db) &&
            (!fails && !Referenced(db.children, was) ==>
               after == db.(parents := db.parents - {id})) &&
            (!fails && Referenced(db.children, was) ==>
               match fk.onDelete
               case NoAction => after == db
               case Restrict => after == db
               case Cascade =>
                 after.parents == db.parents - {id} &&
                 forall c :: c in after.children <==> c in db.children && !References(db.children[c], was)
               case SetNull =>
                 after.parents == db.parents - {id} && after.children.Keys == db.children.Keys &&
                 forall c :: c in db.children && References(db.children[c], was) ==>
                   |after.children[c]| == |was| && AllNull(after.children[c])
               case SetDefault => after.parents == db.parents - {id} && after.children == db.children)
  {
  }

  /** The same for a parent key that moves: with CASCADE the referencing rows move with it. */
  lemma UpdateCarriesOut(db: Db, fk: ForeignKeyConstraint, id: nat, key: Key, fails: bool)
    requires id in db.parents && key != db.parents[id]
    ensures var was, after := db.parents[id], Execute(db, fk, UpdateParent(id, key, fails));
            (fails ==> after == db) &&
            (!fails && !Referenced(db.children, was) ==>
               after == db.(parents := db.parents[id := key])) &&
            (!fails && Referenced(db.children, was) ==>
               match fk.onUpdate
               case NoAction => after == db
               case Restrict => after == db
               case Cascade =>
                 after.parents == db.parents[id := key] && after.children.Keys == db.children.Keys &&
                 forall c :: c in db.children && References(db.children[c], was) ==> after.children[c] == key
               case SetNull =>
                 after.parents == db.parents[id := key] && after.children.Keys == db.children.Keys &&
                 forall c :: c in db.children && References(db.children[c], was) ==>
                   |after.children[c]| == |was| && AllNull(after.children[c])
               case SetDefault => after.parents == db.parents[id := key] && after.children == db.children)
  {
  }

  /** One NULL column lets a new row in unchecked; a row without any needs a parent row with just its key. */
  lemma NullColumnsDecide(db: Db, fk: ForeignKeyConstraint, id: nat, key: Key, fails: bool)
    requires id !in db.children
    ensures (exists i :: 0 <= i < |key| && key[i].SqlNull?) ==>
              Execute(db, fk, InsertChild(id, key, fails)) == db.(children := db.children[id := key])
    ensures (forall i :: 0 <= i < |key| ==> !key[i].SqlNull?) && key !in db.parents.Values ==>
              Execute(db, fk, InsertChild(id, key, fails)).children == db.children
  {
    assert Matched(db.parents, key) ==> key in db.parents.Values;
  }

  // ---------------------------------------------------------------------------------------------
  // The validator refuses nothing it need not refuse
  // ---------------------------------------------------------------------------------------------

  /** The referenced columns are a unique key. */
  predicate UniqueParents(db: Db) {
    forall p, p' :: p in db.parents && p' in db.parents && References(db.parents[p], db.parents[p']) ==> p == p'
  }

  predicate Refuses(action: ReferentialAction) {
    action.NoAction? || action.Restrict?
  }

  /** A referenced key is the only match of the rows that reference it. */
  lemma OnlyMatch(db: Db, id: nat, parents': map<nat, Key>, c: nat)
    requires UniqueParents(db) && id in db.parents && c in db.children && References(db.children[c], db.parents[id])
    requires forall p :: p in parents' && p != id ==> p in db.parents && parents'[p] == db.parents[p]
    requires id in parents' ==> parents'[id] != db.parents[id]
    ensures !Matched(parents', db.children[c])
  {
    forall p | p in parents' ensures !References(db.children[c], parents'[p]) {
      if p != id {
        assert !References(db.parents[id], db.parents[p]);
      }
    }
  }

  /**
   With a unique parent key, a delete is refused exactly when its action is NO ACTION or RESTRICT and
   removing the parent row alone would break integrity.
   */
  lemma DeleteRefusedExactly(db: Db, fk: ForeignKeyConstraint, id: nat)
    requires Integrity(db) && UniqueParents(db) && id in db.parents
    ensures ValidateDelete(fk, Ok(Referenced(db.children, db.parents[id]))).Err? <==>
            Refuses(fk.onDelete) && !Integrity(db.(parents := db.parents - {id}))
  {
    var after := db.(parents := db.parents - {id});
    if c :| c in db.children && References(db.children[c], db.parents[id]) {
      OnlyMatch(db, id, after.parents, c);
      assert !HasNull(db.children[c]);
    } else {
      UnreferencedMayChange(db, id, after.parents);
    }
  }

  lemma UnreferencedMayChange(db: Db, id: nat, parents': map<nat, Key>)
    requires Integrity(db) && id in db.parents && !Referenced(db.children, db.parents[id])
    requires forall p :: p in db.parents && p != id ==> p in parents' && parents'[p] == db.parents[p]
    ensures Integrity(db.(parents := parents'))
  {
    forall c | c in db.children ensures HasNull(db.children[c]) || Matched(parents', db.children[c]) {
      if !HasNull(db.children[c]) {
        OthersStayMatched(db.parents, parents', id, db.children[c]);
      }
    }
  }

  /** The same for moving a parent key. */
  lemma UpdateRefusedExactly(db: Db, fk: ForeignKeyConstraint, id: nat, key: Key)
    requires Integrity(db) && UniqueParents(db) && id in db.parents
    ensures ValidateUpdate(fk, db.parents[id], key, Ok(Referenced(db.children, db.parents[id]))).Err? <==>
            Refuses(fk.onUpdate) && !Integrity(db.(parents := db.parents[id := key]))
  {
    var after := db.(parents := db.parents[id := key]);
    if db.parents[id] == key {
      assert after.parents == db.parents;
    } else if c :| c in db.children && References(db.children[c], db.parents[id]) {
      OnlyMatch(db, id, after.parents, c);
      assert !HasNull(db.children[c]);
    } else {
      UnreferencedMayChange(db, id, after.parents);
    }
  }

  /**
   A child row whose lookup succeeds is accepted, as a new row or in the place of an old one, exactly
   when it keeps integrity and, unless it is partly NULL, the referenced table has not been left on
   the validation stack.
   */
  lemma ChildAcceptedExactly(db: Db, fk: ForeignKeyConstraint, id: nat, key: Key)
    requires Integrity(db)
    ensures Accepted(InsertOutcome(db.stack, fk, key, Ok(Matched(db.parents, key)))) <==>
            Integrity(db.(children := db.children[id := key])) && (HasNull(key) || fk.referencesTable !in db.stack)
  {
    var after := db.(children := db.children[id := key]);
    assert id in after.children && after.children[id] == key;
    assert forall c :: c in db.children && c != id ==> c in after.children && after.children[c] == db.children[c];
  }

  /** What the two statements make of that: the row is there afterwards if and only if it was accepted. */
  lemma ChildStatements(db: Db, fk: ForeignKeyConstraint, id: nat, key: Key)
    requires Integrity(db)
    ensures var wanted := db.children[id := key];
            var ok := Integrity(db.(children := wanted)) && (HasNull(key) || fk.referencesTable !in db.stack);
            var st := if id in db.children then UpdateChild(id, key, false) else InsertChild(id, key, false);
            Execute(db, fk, st).children == if ok then wanted else db.children
  {
    ChildAcceptedExactly(db, fk, id, key);
  }
}
