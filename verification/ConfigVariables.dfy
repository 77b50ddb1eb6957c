/** Setting and resetting configuration variables: SET in a session, RESET ALL,
    the configuration file at start and at reload.  Scalar variables only; what
    the number conversions make of a text is part of the text. */
module ConfigVariables {
  import opened Options
  import opened ConfigTable
  import opened Strings

  // In the order that permissions compare.
  datatype Context = Boot | Init | Reload | Pcp | SessionCtx

  datatype Source = FromDefault | FromFile | FromArgv | FromClient | FromSession | FromValueDefault

  datatype Value = BoolV(b: bool) | NumV(n: int) | RealV(r: real) | StrV(s: string)

  datatype Text = Text(s: string, logical: bool, number: int, fraction: real)

  datatype VarType =
    | BoolType
    | IntType(min: int, max: int)          // also the 64-bit ones
    | DoubleType(low: real, high: real)
    | StringType
    | EnumType(options: seq<(string, int)>)

  datatype Decl = Decl(record: Record, context: Context, vartype: VarType, boot: Value, noResetAll: bool)

  datatype Var = Var(value: Value, reset: Value, source: Source, resetSource: Source, context: Context)

  // ----- one variable -----

  predicate Ignores(d: Decl, ctx: Context) {
    (d.context.Boot? || d.context.Init?) && ctx.Reload?
  }

  predicate Permits(d: Decl, ctx: Context) {
    match d.context
    case Boot => ctx.Boot?
    case Init => ctx.Boot? || ctx.Init?
    case Reload => !ctx.Pcp? && !ctx.SessionCtx?
    case Pcp => !ctx.SessionCtx?
    case SessionCtx => true
  }

  function EnumLookup(options: seq<(string, int)>, s: string): (r: Option<int>)
    ensures r.Some? <==> exists i | 0 <= i < |options| :: SameIgnoringCase(s, options[i].0)
    ensures r.Some? ==> exists i | 0 <= i < |options| ::
              options[i].1 == r.value && SameIgnoringCase(s, options[i].0) && forall k | 0 <= k < i :: !SameIgnoringCase(s, options[k].0)
  {
    if options == [] then None
    else if SameIgnoringCase(s, options[0].0) then Some(options[0].1)
    else
      var r := EnumLookup(options[1..], s);
      assert forall i | 0 < i < |options| :: options[i] == options[1..][i - 1];
      r
  }

  function Evaluate(t: VarType, text: Text): Option<Value> {
    match t
    case BoolType => Some(BoolV(text.logical))
    case IntType(_, _) => Some(NumV(text.number))
    case DoubleType(_, _) => Some(RealV(text.fraction))
    case StringType => Some(StrV(text.s))
    case EnumType(options) =>
      var r := EnumLookup(options, text.s);
      if r.Some? then Some(NumV(r.value)) else None
  }

  predicate InRange(t: VarType, v: Value) {
    match t
    case IntType(min, max) => v.NumV? && min <= v.n <= max
    case DoubleType(low, high) => v.RealV? && low <= v.r <= high
    case _ => true
  }

  // The value asked for: given, the compiled-in one, or the one to reset to.
  function Wanted(d: Decl, v: Var, text: Option<Text>, src: Source): Option<Value> {
    match text
    case Some(t) => Evaluate(d.vartype, t)
    case None => Some(if src.FromDefault? then d.boot else v.reset)
  }

  // setConfigOptionVar on a scalar: whether it succeeded, and the variable then.
  function Assign(d: Decl, v: Var, text: Option<Text>, ctx: Context, src: Source): (bool, Var) {
    if Ignores(d, ctx) then (true, v)
    else if !Permits(d, ctx) then (false, v)
    else
      var w := Wanted(d, v, text, src);
      if w.None? || !InRange(d.vartype, w.value) then (false, v)
      else
        var resetting := text.None? && !src.FromDefault?;
        (true, Var(w.value,
                   if ctx.Init? then w.value else v.reset,
                   if resetting then v.resetSource else src,
                   if ctx.Init? then src else v.resetSource,
                   ctx))
  }

  // The contexts in order: what is set later may be set in fewer of them.
  function Rank(c: Context): nat {
    match c
    case Boot => 0
    case Init => 1
    case Reload => 2
    case Pcp => 3
    case SessionCtx => 4
  }

  // A variable may be set in its own context and in any earlier one.
  lemma PermitsIff(d: Decl, ctx: Context)
    ensures Permits(d, ctx) <==> Rank(ctx) <= Rank(d.context)
  {
  }

  // What a SET in a session installs: the text's value of the variable's type,
  // if the session may set it and a number is in range; it leaves the value to
  // reset to alone.
  lemma {:induction false} SetInstalls(d: Decl, v: Var, text: Text)
    ensures var a := Assign(d, v, Some(text), SessionCtx, FromSession);
            var wanted := match d.vartype
                          case BoolType => Some(BoolV(text.logical))
                          case IntType(min, max) => if min <= text.number <= max then Some(NumV(text.number)) else None
                          case DoubleType(low, high) => if low <= text.fraction <= high then Some(RealV(text.fraction)) else None
                          case StringType => Some(StrV(text.s))
                          case EnumType(options) =>
                            (match EnumLookup(options, text.s) case Some(n) => Some(NumV(n)) case None => None);
            if d.context == SessionCtx && wanted.Some?
            then a == (true, Var(wanted.value, v.reset, FromSession, v.resetSource, SessionCtx))
            else a == (false, v)
  {
  }

  // A reload passes over what only start-up may set, and anything else that comes
  // too late is refused; neither changes the variable.
  lemma TooLate(d: Decl, v: Var, text: Option<Text>, ctx: Context, src: Source)
    requires Rank(ctx) > Rank(d.context)
    ensures Assign(d, v, text, ctx, src) == ((d.context == Boot || d.context == Init) && ctx == Reload, v)
  {
  }

  // SET ... TO DEFAULT in a session goes back to the value to reset to.
  lemma {:induction false} SetDefaultResets(d: Decl, v: Var)
    requires d.context == SessionCtx && InRange(d.vartype, v.reset)
    ensures Assign(d, v, None, SessionCtx, FromSession) == (true, Var(v.reset, v.reset, v.resetSource, v.resetSource, SessionCtx))
  {
  }

  function Initial(d: Decl): Var {
    Var(d.boot, d.boot, FromDefault, FromDefault, Boot)
  }

  // ----- the table -----

  function Records(ds: seq<Decl>): (r: seq<Record>)
    ensures |r| == |ds|
  {
    seq(|ds|, i requires 0 <= i < |ds| => ds[i].record)
  }

  // SET name TO text; an unknown name, and here any array, changes nothing.
  function SetOption(ds: seq<Decl>, vs: seq<Var>, name: string, text: Option<Text>, ctx: Context, src: Source): (r: (bool, seq<Var>))
    requires |ds| == |vs|
    ensures |r.1| == |vs|
  {
    var i := Find(Records(ds), name);
    if i == |ds| || ds[i].record.isArray then (false, vs)
    else
      var a := Assign(ds[i], vs[i], text, ctx, src);
      (a.0, vs[i := a.1])
  }

  // SET changes at most the record the name is looked up as, the longest match.
  lemma {:induction false} SetOptionEffect(ds: seq<Decl>, vs: seq<Var>, name: string, text: Option<Text>, ctx: Context, src: Source, k: nat)
    requires |ds| == |vs| && Descending(Records(ds)) && k < |ds|
    ensures var r := SetOption(ds, vs, name, text, ctx, src);
            var i := Find(Records(ds), name);
            && (k != i ==> r.1[k] == vs[k])
            && (k == i && !ds[k].record.isArray ==> (r.0, r.1[k]) == Assign(ds[k], vs[k], text, ctx, src))
            && (Match(ds[k].record, name) ==> i < |ds| && |ds[k].record.name| <= |ds[i].record.name|)
  {
    SortedFindsLongest(Records(ds), name);
    assert Records(ds)[k] == ds[k].record;
    if Match(ds[k].record, name) {
      assert Match(Records(ds)[k], name);
      assert Records(ds)[Find(Records(ds), name)] == ds[Find(Records(ds), name)].record;
    }
  }

  predicate NeedsReset(d: Decl, v: Var) {
    !d.noResetAll && !d.record.isArray && v.context.SessionCtx?
  }

  // RESET ALL from record i on: an error ends it there.
  function ResetFrom(ds: seq<Decl>, vs: seq<Var>, i: nat): (r: (bool, seq<Var>))
    requires |ds| == |vs| && i <= |ds|
    ensures |r.1| == |vs|
    decreases |ds| - i
  {
    if i == |ds| then (true, vs)
    else if !NeedsReset(ds[i], vs[i]) then ResetFrom(ds, vs, i + 1)
    else
      var a := Assign(ds[i], vs[i], None, Init, FromFile);
      if !a.0 then (false, vs[i := a.1]) else ResetFrom(ds, vs[i := a.1], i + 1)
  }

  // ----- what holds of a variable throughout a session -----

  // A variable differs from its reset value only while it was last set by the
  // session, the session only ever set variables it may set, and resetting
  // passes the range check.
  ghost predicate Settled(d: Decl, v: Var) {
    && (!v.context.SessionCtx? ==> v.value == v.reset)
    && Resettable(d, v)
  }

  ghost predicate Resettable(d: Decl, v: Var) {
    && (v.context.SessionCtx? ==> d.context.SessionCtx?)
    && InRange(d.vartype, v.reset)
  }

  lemma InitialSettled(d: Decl)
    requires InRange(d.vartype, d.boot)
    ensures Settled(d, Initial(d)) && !Initial(d).context.SessionCtx?
  {
  }

  // Start-up: values from the file or the command line.
  lemma InitSettles(d: Decl, v: Var, text: Option<Text>, src: Source)
    requires Settled(d, v) && !v.context.SessionCtx?
    ensures var v' := Assign(d, v, text, Init, src).1; Settled(d, v') && !v'.context.SessionCtx?
  {
  }

  lemma SessionKeeps(d: Decl, v: Var, text: Option<Text>)
    requires Resettable(d, v)
    ensures var v' := Assign(d, v, text, SessionCtx, FromSession).1;
            Resettable(d, v') && v'.reset == v.reset && (v' == v || v'.context.SessionCtx?)
  {
  }

  lemma ResetSucceeds(d: Decl, v: Var)
    requires Resettable(d, v) && NeedsReset(d, v)
    ensures Assign(d, v, None, Init, FromFile) == (true, Var(v.reset, v.reset, v.resetSource, FromFile, Init))
  {
  }

  // The whole pass succeeds, and acts on each variable by itself.
  ghost function ResetOne(d: Decl, v: Var): Var {
    if NeedsReset(d, v) then Var(v.reset, v.reset, v.resetSource, FromFile, Init) else v
  }

  ghost predicate AllResettable(ds: seq<Decl>, vs: seq<Var>) {
    |ds| == |vs| && forall i | 0 <= i < |ds| :: Resettable(ds[i], vs[i])
  }

  lemma {:induction false} ResetAllEffect(ds: seq<Decl>, vs: seq<Var>, i: nat)
    requires AllResettable(ds, vs) && i <= |ds|
    ensures ResetFrom(ds, vs, i).0
    ensures forall k | 0 <= k < |ds| ::
              ResetFrom(ds, vs, i).1[k] == if k < i then vs[k] else ResetOne(ds[k], vs[k])
    decreases |ds| - i
  {
    if i < |ds| {
      assert Resettable(ds[i], vs[i]);
      if NeedsReset(ds[i], vs[i]) {
        ResetSucceeds(ds[i], vs[i]);
        var next := vs[i := ResetOne(ds[i], vs[i])];
        assert forall k | 0 <= k < |ds| :: Resettable(ds[k], next[k]) by {
          forall k | 0 <= k < |ds|
            ensures Resettable(ds[k], next[k])
          {
            assert Resettable(ds[k], vs[k]);
          }
        }
        ResetAllEffect(ds, next, i + 1);
      } else {
        ResetAllEffect(ds, vs, i + 1);
      }
    }
  }

  // Exempted variables, and whatever the session did not set, stay as they are.
  lemma {:induction false} ResetAllSpares(ds: seq<Decl>, vs: seq<Var>, i: nat)
    requires AllResettable(ds, vs) && i < |ds| && (ds[i].noResetAll || vs[i].context != SessionCtx)
    ensures ResetFrom(ds, vs, 0).1[i] == vs[i]
  {
    ResetAllEffect(ds, vs, 0);
  }

  // ----- sessions -----

  datatype Op = Set(name: string, text: Option<Text>) | ResetAll

  function Apply(ds: seq<Decl>, vs: seq<Var>, op: Op): (r: seq<Var>)
    requires |ds| == |vs|
    ensures |r| == |vs|
  {
    match op
    case Set(name, text) => SetOption(ds, vs, name, text, SessionCtx, FromSession).1
    case ResetAll => ResetFrom(ds, vs, 0).1
  }

  function Run(ds: seq<Decl>, vs: seq<Var>, ops: seq<Op>): (r: seq<Var>)
    requires |ds| == |vs|
    ensures |r| == |vs|
    decreases |ops|
  {
    if ops == [] then vs else Run(ds, Apply(ds, vs, ops[0]), ops[1..])
  }

  // How a variable in the session stands to what it was before.
  ghost predicate Tracks(d: Decl, v: Var, v0: Var) {
    && Resettable(d, v) && v.reset == v0.reset
    && (v == v0 || v.context.SessionCtx? || (NeedsReset(d, v.(context := SessionCtx)) && v.value == v0.reset))
  }

  ghost predicate AllTrack(ds: seq<Decl>, vs: seq<Var>, vs0: seq<Var>) {
    |ds| == |vs| == |vs0| && forall i | 0 <= i < |ds| :: Tracks(ds[i], vs[i], vs0[i])
  }

  lemma {:induction false} OpTracks(ds: seq<Decl>, vs: seq<Var>, vs0: seq<Var>, op: Op)
    requires AllTrack(ds, vs, vs0)
    ensures AllTrack(ds, Apply(ds, vs, op), vs0)
  {
    assert forall i | 0 <= i < |ds| :: Resettable(ds[i], vs[i]) by {
      forall i | 0 <= i < |ds|
        ensures Resettable(ds[i], vs[i])
      {
        assert Tracks(ds[i], vs[i], vs0[i]);
      }
    }
    var vs' := Apply(ds, vs, op);
    if op.ResetAll? {
      ResetAllEffect(ds, vs, 0);
    }
    forall i | 0 <= i < |ds|
      ensures Tracks(ds[i], vs'[i], vs0[i])
    {
      assert Tracks(ds[i], vs[i], vs0[i]);
      if op.Set? {
        SessionKeeps(ds[i], vs[i], op.text);
      }
    }
  }

  lemma {:induction false} RunTracks(ds: seq<Decl>, vs: seq<Var>, vs0: seq<Var>, ops: seq<Op>)
    requires AllTrack(ds, vs, vs0)
    ensures AllTrack(ds, Run(ds, vs, ops), vs0)
    decreases |ops|
  {
    if ops != [] {
      OpTracks(ds, vs, vs0, ops[0]);
      RunTracks(ds, Apply(ds, vs, ops[0]), vs0, ops[1..]);
    }
  }

  // The variables as a session finds them.
  ghost predicate BeforeSession(ds: seq<Decl>, vs: seq<Var>) {
    AllResettable(ds, vs) && forall i | 0 <= i < |vs| :: !vs[i].context.SessionCtx?
  }

  lemma {:induction false} SelfTracks(ds: seq<Decl>, vs: seq<Var>)
    requires BeforeSession(ds, vs)
    ensures AllTrack(ds, vs, vs)
  {
    forall k | 0 <= k < |ds|
      ensures Tracks(ds[k], vs[k], vs[k])
    {
      assert Resettable(ds[k], vs[k]);
    }
  }

  // After any run of accepted and rejected SETs and RESET ALLs, one more RESET
  // ALL succeeds and gives every scalar variable that takes part in it the value
  // it had before the session -- exactly if the session left it alone or that
  // value was also the one to reset to.
  lemma {:induction false} ResetAllRestoresIff(ds: seq<Decl>, vs: seq<Var>, ops: seq<Op>, i: nat)
    requires BeforeSession(ds, vs) && i < |ds| && !ds[i].noResetAll && !ds[i].record.isArray
    ensures var end := Run(ds, vs, ops);
            && ResetFrom(ds, end, 0).0
            && !ResetFrom(ds, end, 0).1[i].context.SessionCtx?
            && (ResetFrom(ds, end, 0).1[i].value == vs[i].value <==> end[i] == vs[i] || vs[i].value == vs[i].reset)
  {
    SelfTracks(ds, vs);
    RunTracks(ds, vs, vs, ops);
    var end := Run(ds, vs, ops);
    forall k | 0 <= k < |ds|
      ensures Resettable(ds[k], end[k])
    {
      assert Tracks(ds[k], end[k], vs[k]);
    }
    ResetAllEffect(ds, end, 0);
    assert Tracks(ds[i], end[i], vs[i]);
  }

  // ----- from start-up to the end of a session -----

  datatype StartOp = StartOp(name: string, text: Option<Text>, src: Source)

  function StartUp(ds: seq<Decl>, vs: seq<Var>, ops: seq<StartOp>): (r: seq<Var>)
    requires |ds| == |vs|
    ensures |r| == |vs|
    decreases |ops|
  {
    if ops == [] then vs
    else StartUp(ds, SetOption(ds, vs, ops[0].name, ops[0].text, Init, ops[0].src).1, ops[1..])
  }

  ghost predicate AllSettled(ds: seq<Decl>, vs: seq<Var>) {
    |ds| == |vs| && forall i | 0 <= i < |ds| :: Settled(ds[i], vs[i]) && !vs[i].context.SessionCtx?
  }

  lemma {:induction false} StartUpSettles(ds: seq<Decl>, vs: seq<Var>, ops: seq<StartOp>)
    requires AllSettled(ds, vs)
    ensures AllSettled(ds, StartUp(ds, vs, ops))
    decreases |ops|
  {
    if ops != [] {
      var op := ops[0];
      var vs' := SetOption(ds, vs, op.name, op.text, Init, op.src).1;
      forall i | 0 <= i < |ds|
        ensures Settled(ds[i], vs'[i]) && !vs'[i].context.SessionCtx?
      {
        assert Settled(ds[i], vs[i]);
        InitSettles(ds[i], vs[i], op.text, op.src);
      }
      StartUpSettles(ds, vs', ops[1..]);
    }
  }

  function Initials(ds: seq<Decl>): (vs: seq<Var>)
    ensures |vs| == |ds|
  {
    seq(|ds|, i requires 0 <= i < |ds| => Initial(ds[i]))
  }

  lemma {:induction false} Configured(ds: seq<Decl>, start: seq<StartOp>)
    requires forall k | 0 <= k < |ds| :: InRange(ds[k].vartype, ds[k].boot)
    ensures var vs := StartUp(ds, Initials(ds), start); AllSettled(ds, vs) && BeforeSession(ds, vs)
  {
    forall k | 0 <= k < |ds|
      ensures Settled(ds[k], Initials(ds)[k])
    {
      InitialSettled(ds[k]);
    }
    StartUpSettles(ds, Initials(ds), start);
    var vs := StartUp(ds, Initials(ds), start);
    forall k | 0 <= k < |ds|
      ensures Resettable(ds[k], vs[k])
    {
      assert Settled(ds[k], vs[k]);
    }
  }

  // At any point of any session a variable differs from its reset value only
  // while it is recorded as set by the session.
  lemma {:induction false} DiffersOnlyInSession(ds: seq<Decl>, start: seq<StartOp>, ops: seq<Op>, i: nat)
    requires forall k | 0 <= k < |ds| :: InRange(ds[k].vartype, ds[k].boot)
    requires i < |ds|
    ensures var v := Run(ds, StartUp(ds, Initials(ds), start), ops)[i];
            v.value != v.reset ==> v.context.SessionCtx? && ds[i].context.SessionCtx?
  {
    Configured(ds, start);
    var vs := StartUp(ds, Initials(ds), start);
    SelfTracks(ds, vs);
    RunTracks(ds, vs, vs, ops);
    assert Settled(ds[i], vs[i]);
    assert Tracks(ds[i], Run(ds, vs, ops)[i], vs[i]);
  }

  // Whatever is configured at start and whatever a session sets, RESET ALL gives
  // back the configured values.
  lemma {:induction false} ResetAllRestores(ds: seq<Decl>, start: seq<StartOp>, ops: seq<Op>, i: nat)
    requires forall k | 0 <= k < |ds| :: InRange(ds[k].vartype, ds[k].boot)
    requires i < |ds| && !ds[i].noResetAll && !ds[i].record.isArray
    ensures var vs := StartUp(ds, Initials(ds), start);
            ResetFrom(ds, Run(ds, vs, ops), 0).1[i].value == vs[i].value
  {
    Configured(ds, start);
    var vs := StartUp(ds, Initials(ds), start);
    assert Settled(ds[i], vs[i]);
    ResetAllRestoresIff(ds, vs, ops, i);
  }

  // A reload does not move the reset value, so a value it brought in is lost
  // by SET and RESET ALL.
  lemma ReloadedValueLost(d: Decl, first: int, later: int, other: int)
    requires d == Decl(Record("client_idle_limit", false), SessionCtx, IntType(0, 2147483647), NumV(0), false)
    requires 0 <= first <= 2147483647 && 0 <= later <= 2147483647 && 0 <= other <= 2147483647 && first != later
    ensures var configured := Assign(d, Initial(d), Some(Text("", false, first, 0.0)), Init, FromFile).1;
            var reloaded := Assign(d, configured, Some(Text("", false, later, 0.0)), Reload, FromFile).1;
            var session := Assign(d, reloaded, Some(Text("", false, other, 0.0)), SessionCtx, FromSession).1;
            reloaded.value == NumV(later) && ResetOne(d, session).value == NumV(first)
  {
  }

  // RESET ALL keeps the value but forgets where it came from: from the second
  // time on the source reads "file".
  lemma {:induction false} SourceAfterReset(d: Decl, v: Var, t1: Option<Text>, t2: Option<Text>)
    requires Resettable(d, v) && !d.noResetAll && !d.record.isArray
    requires Assign(d, v, t1, SessionCtx, FromSession).0
    ensures var once := ResetOne(d, Assign(d, v, t1, SessionCtx, FromSession).1);
            && once.source == v.resetSource && once.resetSource == FromFile
            && (Assign(d, once, t2, SessionCtx, FromSession).0 ==>
                  ResetOne(d, Assign(d, once, t2, SessionCtx, FromSession).1).source == FromFile)
  {
    SessionKeeps(d, v, t1);
  }
}
