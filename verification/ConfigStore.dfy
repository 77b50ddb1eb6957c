/** The configuration records as objects written in place, proved against
    ConfigVariables. */
module ConfigStore {
  import opened Options
  import opened ConfigTable
  import opened ConfigVariables

  class Variable {
    const decl: Decl
    var value: Value
    var reset: Value
    var source: Source
    var resetSource: Source
    var context: Context

    ghost function State(): Var
      reads this
    {
      Var(value, reset, source, resetSource, context)
    }

    // initialize_variables_with_default
    constructor (d: Decl)
      ensures decl == d && State() == Initial(d)
    {
      decl := d;
      value, reset, source, resetSource, context := d.boot, d.boot, FromDefault, FromDefault, Boot;
    }

    // setConfigOptionVar
    method SetConfigOptionVar(text: Option<Text>, ctx: Context, src: Source) returns (ok: bool)
      modifies this
      ensures (ok, State()) == Assign(decl, old(State()), text, ctx, src)
    {
      if Ignores(decl, ctx) {
        return true;
      }
      if !Permits(decl, ctx) {
        return false;
      }
      var resetting := false;
      var newval := reset;
      if text.Some? {
        var e := Evaluate(decl.vartype, text.value);
        if e.None? {
          return false;
        }
        newval := e.value;
      } else if src.FromDefault? {
        newval := decl.boot;
      } else {
        resetting := true;
      }
      if !InRange(decl.vartype, newval) {
        return false;
      }
      value := newval;
      if ctx.Init? {
        reset := newval;
      }
      context := ctx;
      source := if resetting then resetSource else src;
      if ctx.Init? {
        resetSource := src;
      }
      return true;
    }
  }

  class Store {
    const table: array<Variable>
    ghost const decls: seq<Decl>

    ghost predicate Valid()
      reads table
    {
      && |decls| == table.Length
      && (forall i | 0 <= i < table.Length :: table[i].decl == decls[i])
      && (forall i, j | 0 <= i < j < table.Length :: table[i] != table[j])
    }

    constructor (table: array<Variable>)
      requires forall i, j | 0 <= i < j < table.Length :: table[i] != table[j]
      ensures this.table == table && Valid()
    {
      this.table := table;
      decls := seq(table.Length, i requires 0 <= i < table.Length reads table => table[i].decl);
    }

    ghost function Vars(): (vs: seq<Var>)
      requires Valid()
      reads table, table[..]
      ensures |vs| == |decls|
    {
      seq(table.Length, i requires 0 <= i < table.Length reads table, table[..] => table[i].State())
    }

    method FindVariable(name: string) returns (i: nat)
      requires Valid()
      ensures i == Find(Records(decls), name)
    {
      i := 0;
      ghost var rs := Records(decls);
      while i < table.Length
        invariant i <= table.Length && Find(rs, name) == i + Find(rs[i..], name)
      {
        assert rs[i] == table[i].decl.record;
        if Match(table[i].decl.record, name) {
          return;
        }
        assert rs[i..][1..] == rs[i + 1..];
        i := i + 1;
      }
    }

    // setConfigOption on a scalar
    method SetConfigOption(name: string, text: Option<Text>, ctx: Context, src: Source) returns (ok: bool)
      requires Valid()
      modifies table[..]
      ensures Valid()
      ensures (ok, Vars()) == SetOption(decls, old(Vars()), name, text, ctx, src)
    {
      var i := FindVariable(name);
      if i == table.Length || table[i].decl.record.isArray {
        return false;
      }
      ghost var before := Vars();
      ok := table[i].SetConfigOptionVar(text, ctx, src);
      assert Vars() == before[i := table[i].State()];
    }

    // reset_all_variables
    method ResetAllVariables() returns (ok: bool)
      requires Valid()
      modifies table[..]
      ensures Valid()
      ensures (ok, Vars()) == ResetFrom(decls, old(Vars()), 0)
    {
      ghost var start := Vars();
      for i := 0 to table.Length
        invariant ResetFrom(decls, start, 0) == ResetFrom(decls, Vars(), i)
      {
        ghost var before := Vars();
        assert before[i] == table[i].State();
        if table[i].decl.noResetAll || table[i].decl.record.isArray {
          continue;
        }
        if table[i].context.SessionCtx? {
          var done := table[i].SetConfigOptionVar(None, Init, FromFile);
          assert Vars() == before[i := table[i].State()];
          if !done {
            return false;
          }
        }
      }
      return true;
    }
  }
}
