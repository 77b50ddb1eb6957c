/** SQL statements as far as routing looks at them, their classification, and how
    far that classification keeps statements that write on the primary. */
module Statements {
  import opened Options
  import opened Strings

  datatype Const = Str(s: string) | Num(n: int) | OtherConst

  datatype DefElem = DefElem(name: string, arg: Const)

  datatype TransKind =
    | Begin | StartTransaction | Commit | Rollback | Savepoint | Release | RollbackTo
    | PrepareTransaction | CommitPrepared | RollbackPrepared

  datatype SetKind = SetValue | SetMulti | SetOther

  datatype Stmt =
    // SELECT: an INTO clause, a locking clause and calls of functions that may
    // write, each of its own; the queries of its WITH clause; and the SELECTs
    // below it: arms of set operations, subqueries in FROM and in expressions.
    | Select(into: bool, locking: bool, calls: bool, ctes: seq<Stmt>, parts: seq<Stmt>)
    | Copy(isFrom: bool, toFile: bool, query: Option<Stmt>)
    | Lock(mode: nat)
    | Transaction(trans: TransKind)
    | VariableSet(setKind: SetKind, variable: string, args: seq<Const>, options: seq<DefElem>)
    | Discard
    | Prepare(prepared: string, body: Stmt)
    | Execute(name: string)
    | Deallocate(which: Option<string>)
    | Show
    | Write                                   // INSERT, UPDATE, DELETE
    | Other                                   // everything else, known or not

  datatype Dest = Primary | Either | Both

  const RowExclusiveLock: nat := 3

  // SET transaction_read_only TO ...: off, f, false -- and any nonzero number.
  predicate TurnsReadOnlyOff(v: Const) {
    match v
    case Str(s) => SameIgnoringCase(s, "off") || SameIgnoringCase(s, "f") || SameIgnoringCase(s, "false")
    case Num(n) => n != 0
    case OtherConst => false
  }

  predicate IsSerializable(v: Const) {
    v.Str? && SameIgnoringCase(v.s, "serializable")
  }

  predicate SetsTransaction(variable: string) {
    variable == "TRANSACTION" || variable == "SESSION CHARACTERISTICS"
  }

  predicate SetsSerializable(stmt: Stmt) {
    && stmt.VariableSet?
    && (match stmt.setKind
        case SetValue =>
          && (stmt.variable == "transaction_isolation" || stmt.variable == "default_transaction_isolation")
          && exists i | 0 <= i < |stmt.args| :: IsSerializable(stmt.args[i])
        case SetMulti =>
          && SetsTransaction(stmt.variable)
          && exists i | 0 <= i < |stmt.options| ::
               && (stmt.options[i].name == "transaction_isolation" || stmt.options[i].name == "default_transaction_isolation")
               && IsSerializable(stmt.options[i].arg)
        case SetOther => false)
  }

  predicate SetsReadWrite(stmt: Stmt) {
    && stmt.VariableSet?
    && (match stmt.setKind
        case SetValue =>
          && stmt.variable == "transaction_read_only"
          && exists i | 0 <= i < |stmt.args| :: TurnsReadOnlyOff(stmt.args[i])
        case SetMulti =>
          && SetsTransaction(stmt.variable)
          && exists i | 0 <= i < |stmt.options| ::
               stmt.options[i].name == "transaction_read_only" && stmt.options[i].arg == Num(0)
        case SetOther => false)
  }

  predicate TwoPhase(t: TransKind) {
    t.PrepareTransaction? || t.CommitPrepared? || t.RollbackPrepared?
  }

  // ----- the walkers over a SELECT -----

  predicate OnlySelects(ctes: seq<Stmt>) {
    forall i | 0 <= i < |ctes| :: ctes[i].Select?
  }

  // An INTO or locking clause anywhere in a SELECT.
  predicate HasIntoOrLocking(s: Stmt) {
    && s.Select?
    && (s.into || s.locking
        || (exists i | 0 <= i < |s.ctes| :: HasIntoOrLocking(s.ctes[i]))
        || (exists i | 0 <= i < |s.parts| :: HasIntoOrLocking(s.parts[i])))
  }

  // A call of a function that may write anywhere in a SELECT.
  predicate HasFunctionCall(s: Stmt) {
    && s.Select?
    && (s.calls
        || (exists i | 0 <= i < |s.ctes| :: HasFunctionCall(s.ctes[i]))
        || (exists i | 0 <= i < |s.parts| :: HasFunctionCall(s.parts[i])))
  }

  // What is_select_query lets pass; for a SELECT the text has a say as well.
  predicate IsSelectQuery(stmt: Stmt) {
    match stmt
    case Select(into, locking, _, ctes, _) => !into && !locking && OnlySelects(ctes)
    case Copy(isFrom, toFile, query) => !isFrom && !toFile && (query.Some? ==> query.value.Select?)
    case Show => true
    case _ => false
  }

  // ----- where a statement may go -----

  // send_to_where
  function Destination(stmt: Stmt): Dest {
    match stmt
    case Select(_, _, _, ctes, _) => if HasIntoOrLocking(stmt) || !OnlySelects(ctes) then Primary else Either
    case Copy(isFrom, _, query) => if isFrom || (query.Some? && !query.value.Select?) then Primary else Either
    case Lock(mode) => if mode >= RowExclusiveLock then Primary else Both
    case Transaction(t) => if TwoPhase(t) then Primary else Both
    case VariableSet(_, _, _, _) => if SetsReadWrite(stmt) || SetsSerializable(stmt) then Primary else Both
    case Discard => Both
    case Prepare(_, body) => Destination(body)
    case Execute(_) => Primary
    case Deallocate(_) => Primary
    case Show => Either
    case Write => Primary
    case Other => Primary
  }

  // ----- what the classification is for -----

  // Can running the statement change data, or take a lock that only writers
  // take?  Decided on the whole tree; preparing counts as what is prepared.
  predicate MayWrite(stmt: Stmt) {
    match stmt
    case Select(into, locking, _, ctes, parts) =>
      || into || locking
      || (exists i | 0 <= i < |ctes| :: MayWrite(ctes[i]))
      || (exists i | 0 <= i < |parts| :: MayWrite(parts[i]))
    case Copy(isFrom, _, query) => isFrom || (query.Some? && MayWrite(query.value))
    case Lock(mode) => mode >= RowExclusiveLock
    case Transaction(t) => TwoPhase(t)
    case Prepare(_, body) => MayWrite(body)
    case Write => true
    case Other => true
    case _ => false
  }

  // The statement under its PREPAREs.
  function Core(stmt: Stmt): Stmt {
    if stmt.Prepare? then Core(stmt.body) else stmt
  }

  predicate WritesInWith(s: Stmt)
    requires s.Select?
  {
    exists i | 0 <= i < |s.ctes| :: !s.ctes[i].Select? && MayWrite(s.ctes[i])
  }

  // A write in the WITH clause of a SELECT below this one, where PostgreSQL
  // does not accept it and the classification does not look.
  predicate Concealed(s: Stmt)
    requires s.Select?
  {
    || (exists i | 0 <= i < |s.ctes| :: s.ctes[i].Select? && (WritesInWith(s.ctes[i]) || Concealed(s.ctes[i])))
    || (exists i | 0 <= i < |s.parts| ::
          if s.parts[i].Select? then WritesInWith(s.parts[i]) || Concealed(s.parts[i]) else MayWrite(s.parts[i]))
  }

  ghost predicate WriteShows(s: Stmt)
    requires s.Select?
  {
    HasIntoOrLocking(s) || WritesInWith(s) || Concealed(s)
  }

  lemma {:induction false} SelectWritesIff(s: Stmt)
    requires s.Select?
    ensures MayWrite(s) <==> HasIntoOrLocking(s) || WritesInWith(s) || Concealed(s)
  {
    forall i | 0 <= i < |s.ctes| && s.ctes[i].Select?
      ensures MayWrite(s.ctes[i]) <==> WriteShows(s.ctes[i])
    {
      SelectWritesIff(s.ctes[i]);
    }
    forall i | 0 <= i < |s.parts| && s.parts[i].Select?
      ensures MayWrite(s.parts[i]) <==> WriteShows(s.parts[i])
    {
      SelectWritesIff(s.parts[i]);
    }
    WriteIsFound(s);
    FoundIsWrite(s);
  }

  ghost predicate ChildrenShow(s: Stmt)
    requires s.Select?
  {
    && (forall i | 0 <= i < |s.ctes| && s.ctes[i].Select? :: MayWrite(s.ctes[i]) <==> WriteShows(s.ctes[i]))
    && (forall i | 0 <= i < |s.parts| && s.parts[i].Select? :: MayWrite(s.parts[i]) <==> WriteShows(s.parts[i]))
  }

  lemma {:induction false} WriteIsFound(s: Stmt)
    requires s.Select? && ChildrenShow(s)
    ensures MayWrite(s) ==> WriteShows(s)
  {
    if i :| 0 <= i < |s.ctes| && MayWrite(s.ctes[i]) {
      if s.ctes[i].Select? {
        assert WriteShows(s.ctes[i]);
      }
    } else if i :| 0 <= i < |s.parts| && MayWrite(s.parts[i]) {
      if s.parts[i].Select? {
        assert WriteShows(s.parts[i]);
      }
    }
  }

  lemma {:induction false} FoundIsWrite(s: Stmt)
    requires s.Select? && ChildrenShow(s)
    ensures WriteShows(s) ==> MayWrite(s)
  {
    if i :| 0 <= i < |s.ctes| && HasIntoOrLocking(s.ctes[i]) {
      assert WriteShows(s.ctes[i]) && MayWrite(s.ctes[i]);
    } else if i :| 0 <= i < |s.parts| && HasIntoOrLocking(s.parts[i]) {
      assert WriteShows(s.parts[i]) && MayWrite(s.parts[i]);
    } else if i :| 0 <= i < |s.ctes| && s.ctes[i].Select? && (WritesInWith(s.ctes[i]) || Concealed(s.ctes[i])) {
      assert WriteShows(s.ctes[i]) && MayWrite(s.ctes[i]);
    } else if i :| 0 <= i < |s.parts| && s.parts[i].Select? && (WritesInWith(s.parts[i]) || Concealed(s.parts[i])) {
      assert WriteShows(s.parts[i]) && MayWrite(s.parts[i]);
    }
  }

  // The writes the classification misses: COPY TO of a SELECT that writes,
  // locks or stores, and a SELECT with a concealed write and no other.
  predicate Missed(s: Stmt) {
    || (s.Copy? && !s.isFrom && s.query.Some? && s.query.value.Select? && MayWrite(s.query.value))
    || (s.Select? && !HasIntoOrLocking(s) && OnlySelects(s.ctes) && Concealed(s))
  }

  // A statement that may write is classified for the primary, through any
  // nesting of PREPARE, if and only if it is none of those.
  lemma {:induction false} WritesArePrimaryIff(stmt: Stmt)
    requires MayWrite(stmt)
    ensures Destination(stmt) == Primary <==> !Missed(Core(stmt))
    ensures Destination(stmt) != Both
  {
    if stmt.Prepare? {
      WritesArePrimaryIff(stmt.body);
    } else if stmt.Select? {
      SelectWritesIff(stmt);
    }
  }

  // Asks for data.
  predicate Asks(stmt: Stmt) {
    match stmt
    case Select(_, _, _, _, _) => true
    case Copy(isFrom, _, _) => !isFrom
    case Show => true
    case Prepare(_, body) => Asks(body)
    case _ => false
  }

  // A statement that asks for data and cannot change any.
  predicate OnlyReads(stmt: Stmt) {
    Asks(stmt) && !MayWrite(stmt)
  }

  // WITH and COPY hold queries or INSERT, UPDATE, DELETE.
  predicate Grammatical(stmt: Stmt) {
    match stmt
    case Select(_, _, _, ctes, _) => forall i | 0 <= i < |ctes| :: ctes[i].Select? || ctes[i].Write?
    case Copy(_, _, query) => query.Some? ==> query.value.Select? || query.value.Write?
    case Prepare(_, body) => Grammatical(body)
    case _ => true
  }

  // What may be balanced is exactly what only reads, and the missed writes.
  lemma {:induction false} ReadsAreEitherIff(stmt: Stmt)
    requires Grammatical(stmt)
    ensures Destination(stmt) == Either <==> OnlyReads(stmt) || Missed(Core(stmt))
  {
    if stmt.Prepare? {
      ReadsAreEitherIff(stmt.body);
    } else if stmt.Select? {
      SelectWritesIff(stmt);
    } else if stmt.Copy? && stmt.query.Some? && stmt.query.value.Write? {
      assert MayWrite(stmt.query.value);
    }
  }

  // A call of a writing function, under COPY and PREPARE as well.
  predicate Calls(stmt: Stmt) {
    match stmt
    case Select(_, _, _, _, _) => HasFunctionCall(stmt)
    case Copy(_, _, query) => query.Some? && Calls(query.value)
    case Prepare(_, body) => Calls(body)
    case _ => false
  }
}
