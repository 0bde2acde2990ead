/**
What an accepted proposal can depend on, after the statement allowlist (apps/server/sql/statement-policy.ts), the
proposal policy, and the three settings the executor pins (apps/server/sql/execute-sql-in.ts).
*/
module Determinism {
  import opened Wrappers
  import opened Proposal
  import opened SqlMeaning

  // ---------------------------------------------------------------- what evaluation depends on, exactly

  predicate AtMost(a: Reach, b: Reach) {
    a.Operands? || b.Outside? || a == b
  }

  /** No node of the expression looks further than `bound`. */
  predicate Within(ctx: Context, kinds: map<string, Kind>, e: Expr, bound: Reach) {
    && AtMost(NodeReach(ctx, kinds, e), bound)
    && forall i :: 0 <= i < |Children(e)| ==> Within(ctx, kinds, Children(e)[i], bound)
  }

  ghost predicate SameEverywhere(ctx: Context, kinds: map<string, Kind>, e: Expr) {
    forall row, sem, s, t :: Eval(ctx, kinds, row, e, sem, s) == Eval(ctx, kinds, row, e, sem, t)
  }

  ghost predicate SameWhenPinned(ctx: Context, kinds: map<string, Kind>, e: Expr) {
    forall row, sem, s, t :: Eval(ctx, kinds, row, e, sem, Pinned(s)) == Eval(ctx, kinds, row, e, sem, Pinned(t))
  }

  lemma {:induction false} WithinIgnores(ctx: Context, kinds: map<string, Kind>, row: Row, e: Expr, bound: Reach, sem: Semantics, s: Session, t: Session)
    requires Within(ctx, kinds, e, bound) && !bound.Outside? && (bound.Operands? || s.settings == t.settings)
    ensures Eval(ctx, kinds, row, e, sem, s) == Eval(ctx, kinds, row, e, sem, t)
  {
    hide NodeReach, SideValue, Own;
    if e.ColumnRef? { OwnReach(ctx, kinds, e); }
    var args := Children(e);
    forall i | 0 <= i < |args| ensures Eval(ctx, kinds, row, args[i], sem, s) == Eval(ctx, kinds, row, args[i], sem, t) {
      WithinIgnores(ctx, kinds, row, args[i], bound, sem, s, t);
    }
    assert seq(|args|, i requires 0 <= i < |args| => Eval(ctx, kinds, row, args[i], sem, s))
        == seq(|args|, i requires 0 <= i < |args| => Eval(ctx, kinds, row, args[i], sem, t));
  }

  lemma OwnReach(ctx: Context, kinds: map<string, Kind>, e: Expr)
    requires e.ColumnRef?
    ensures NodeReach(ctx, kinds, e) == if Own(ctx, e.fields) then Operands else Outside
  {
  }

  /** Operations that forget nothing. */
  function Free(): Semantics {
    Semantics((e, values) => JsTerm(e, values), (e, values, st: Settings) => JsTerm(e, values + [JsText(st.timeZone)]))
  }

  function Somewhere(zone: string, n: int): Session {
    Session(Settings(zone, "", ""), (e, values) => JsInt(n))
  }

  lemma ApplyDiffers(reach: Reach, e: Expr, a: seq<Js>, b: seq<Js>, s: Session, t: Session)
    requires |a| == |b| && (reach.Outside? ==> exists n, m :: n != m && s.rest(e, a) == JsInt(n) && t.rest(e, b) == JsInt(m))
    requires a != b || reach.Outside? || (reach.Styled? && s.settings.timeZone != t.settings.timeZone)
    ensures Apply(reach, e, a, Free(), s) != Apply(reach, e, b, Free(), t)
  {
    var x, y := a + [JsText(s.settings.timeZone)], b + [JsText(t.settings.timeZone)];
    assert x[..|a|] == a && y[..|b|] == b && x[|a|].text == s.settings.timeZone && y[|b|].text == t.settings.timeZone;
  }

  lemma {:induction false} BeyondDiffers(ctx: Context, kinds: map<string, Kind>, row: Row, e: Expr, bound: Reach, s: Session, t: Session)
    requires !Within(ctx, kinds, e, bound) && !bound.Outside?
    requires (forall x, v :: s.rest(x, v) == JsInt(0)) && (forall x, v :: t.rest(x, v) == JsInt(1))
    requires bound.Operands? ==> s.settings.timeZone != t.settings.timeZone
    ensures Eval(ctx, kinds, row, e, Free(), s) != Eval(ctx, kinds, row, e, Free(), t)
  {
    hide NodeReach, SideValue, Own, Apply;
    if e.ColumnRef? { OwnReach(ctx, kinds, e); }
    var args := Children(e);
    var reach := NodeReach(ctx, kinds, e);
    LeafReach(ctx, kinds, e);
    var a := seq(|args|, i requires 0 <= i < |args| => Eval(ctx, kinds, row, args[i], Free(), s));
    var b := seq(|args|, i requires 0 <= i < |args| => Eval(ctx, kinds, row, args[i], Free(), t));
    if AtMost(reach, bound) {
      var i :| 0 <= i < |args| && !Within(ctx, kinds, args[i], bound);
      BeyondDiffers(ctx, kinds, row, args[i], bound, s, t);
      assert a[i] != b[i];
    }
    assert s.rest(e, a) == JsInt(0) && t.rest(e, b) == JsInt(1);
    ApplyDiffers(reach, e, a, b, s, t);
  }

  lemma LeafReach(ctx: Context, kinds: map<string, Kind>, e: Expr)
    ensures e.ParamRef? || e.Const? ==> NodeReach(ctx, kinds, e).Operands?
  {
  }

  /**
   * An expression has the same value in all sessions exactly when no node of it looks beyond its operands, and in
   * all sessions with the pinned settings exactly when no node looks further than at those.
   */
  lemma SettledIff(ctx: Context, kinds: map<string, Kind>, e: Expr)
    ensures SameEverywhere(ctx, kinds, e) <==> Within(ctx, kinds, e, Operands)
    ensures SameWhenPinned(ctx, kinds, e) <==> Within(ctx, kinds, e, Styled)
  {
    hide Within, Eval;
    var row := Row(map[], JsNull);
    var s, t := Somewhere("UTC", 0), Somewhere("GMT", 1);
    if Within(ctx, kinds, e, Operands) {
      forall row, sem, s, t ensures Eval(ctx, kinds, row, e, sem, s) == Eval(ctx, kinds, row, e, sem, t) {
        WithinIgnores(ctx, kinds, row, e, Operands, sem, s, t);
      }
    } else {
      BeyondDiffers(ctx, kinds, row, e, Operands, s, t);
    }
    if Within(ctx, kinds, e, Styled) {
      forall row, sem, s, t ensures Eval(ctx, kinds, row, e, sem, Pinned(s)) == Eval(ctx, kinds, row, e, sem, Pinned(t)) {
        WithinIgnores(ctx, kinds, row, e, Styled, sem, Pinned(s), Pinned(t));
      }
    } else {
      BeyondDiffers(ctx, kinds, row, e, Styled, Pinned(s), Pinned(t));
    }
  }

  // ---------------------------------------------------------------- the filters together

  const OPERATORS := ["=", "<>", "<", "<=", ">", ">=", "+", "-", "*", "/", "%", "||", "->", "->>", "@>", "?"]
  const STATEMENT_FUNCTIONS := [
    "count", "sum", "min", "max", "avg", "jsonb_agg", "coalesce", "nullif", "lower", "upper", "length", "trim", "now",
    "clock_timestamp", "gen_random_uuid", "jsonb_build_object", "to_jsonb", "date_trunc", "btrim", "ltrim", "rtrim"]
  const STATEMENT_TYPES := ["text", "int4", "int8", "numeric", "bool", "uuid", "bytea", "jsonb", "timestamptz", "date"]

  /** What the statement allowlist asks of an expression; it runs before the proposal policy. */
  predicate Admitted(e: Expr) {
    && match e {
         case Op(_, op, _, _) => |op| == 1 && op[0] in OPERATORS
         case TypeCast(_, name) => CatalogName(name) in STATEMENT_TYPES
         case FuncCall(name, _) => CatalogName(name) in STATEMENT_FUNCTIONS
         case Other(kind, _) => kind in CHOICES || kind in TESTS
         case _ => true
       }
    && forall i :: 0 <= i < |Children(e)| ==> Admitted(Children(e)[i])
  }

  /**
   * The two ways left for an accepted node to look outside: it prints an interval, or a text meets a date, an instant
   * or an interval and is read as one, with the clock or with IntervalStyle.
   */
  predicate Loose(ctx: Context, kinds: map<string, Kind>, e: Expr) {
    match e
    case TypeCast(arg, _) => KindOf(ctx, kinds, arg).Span?
    case FuncCall(name, args) =>
      && (CatalogName(name) == "to_jsonb" || CatalogName(name) == "jsonb_build_object")
      && exists i :: 0 <= i < |args| && KindOf(ctx, kinds, args[i]).Span?
    case Op(_, op, l, r) =>
      var k := Join(KindOf(ctx, kinds, l), KindOf(ctx, kinds, r));
      if op == ["||"] then k.Span?
      else Moment(k) && (Supplies(ctx, l, true) || Supplies(ctx, r, true)
                         || ((k.Span? || op == ["+"]) && (Supplies(ctx, l, false) || Supplies(ctx, r, false))))
    case Other(kind, args) =>
      var k := JoinAll(ctx, kinds, args);
      kind in CHOICES && Moment(k) && (Supplies(ctx, e, true) || (k.Span? && Supplies(ctx, e, false)))
    case _ => false
  }

  predicate SomeLoose(ctx: Context, kinds: map<string, Kind>, e: Expr) {
    Loose(ctx, kinds, e) || exists i :: 0 <= i < |Children(e)| && SomeLoose(ctx, kinds, Children(e)[i])
  }

  lemma {:induction false} PrintedOutsideIff(ctx: Context, kinds: map<string, Kind>, args: seq<Expr>)
    ensures AllPrinted(ctx, kinds, args).Outside? <==> exists i :: 0 <= i < |args| && KindOf(ctx, kinds, args[i]).Span?
  {
    hide KindOf;
    if args != [] {
      PrintedOutsideIff(ctx, kinds, args[1..]);
      if AllPrinted(ctx, kinds, args[1..]).Outside? {
        var i :| 0 <= i < |args[1..]| && KindOf(ctx, kinds, args[1..][i]).Span?;
        assert args[i + 1] == args[1..][i];
      }
      assert forall i :: 0 < i < |args| ==> args[i] == args[1..][i - 1];
    }
  }

  lemma {:induction false} OpenIsText(ctx: Context, e: Expr)
    requires Supplies(ctx, e, true)
    ensures Supplies(ctx, e, false)
  {
    match e
    case Op(_, _, l, r) => if Supplies(ctx, l, true) { OpenIsText(ctx, l); } else { OpenIsText(ctx, r); }
    case Other(_, args) =>
      var i :| 0 <= i < |args| && Supplies(ctx, args[i], true);
      OpenIsText(ctx, args[i]);
    case _ =>
  }

  lemma AcceptedCallOutsideIff(ctx: Context, kinds: map<string, Kind>, e: Expr)
    requires e.FuncCall? && Allowed(ctx, e)
    ensures NodeReach(ctx, kinds, e).Outside? <==> Loose(ctx, kinds, e)
  {
    hide KindOf, AllPrinted, CatalogName;
    PrintedOutsideIff(ctx, kinds, e.args);
  }

  lemma AcceptedCastOutsideIff(ctx: Context, kinds: map<string, Kind>, e: Expr)
    requires e.TypeCast? && Allowed(ctx, e)
    ensures NodeReach(ctx, kinds, e).Outside? <==> Loose(ctx, kinds, e)
  {
    hide KindOf, CatalogName;
  }

  lemma AdmittedOperatorIsKnown(op: seq<string>)
    requires |op| == 1 && op[0] in OPERATORS
    ensures op == ["||"] || PureOperator(op)
  {
  }

  lemma AdmittedOperatorOutsideIff(ctx: Context, kinds: map<string, Kind>, e: Expr)
    requires e.Op? && |e.op| == 1 && (e.op == ["||"] || PureOperator(e.op))
    ensures NodeReach(ctx, kinds, e).Outside? <==> Loose(ctx, kinds, e)
  {
    hide KindOf, Supplies, PureOperator;
    if Supplies(ctx, e.left, true) { OpenIsText(ctx, e.left); }
    if Supplies(ctx, e.right, true) { OpenIsText(ctx, e.right); }
  }

  /** The proposal policy's own test of a node leaves exactly the loose ones outside. */
  lemma AcceptedNodeOutsideIff(ctx: Context, kinds: map<string, Kind>, e: Expr)
    requires Allowed(ctx, e) && Admitted(e)
    ensures NodeReach(ctx, kinds, e).Outside? <==> Loose(ctx, kinds, e)
  {
    hide KindOf, Supplies, AllPrinted, JoinAll, AllOf, CatalogName, OperatorReach;
    match e
    case FuncCall(_, _) => AcceptedCallOutsideIff(ctx, kinds, e);
    case TypeCast(_, _) => AcceptedCastOutsideIff(ctx, kinds, e);
    case Op(_, op, _, _) => AdmittedOperatorIsKnown(op); AdmittedOperatorOutsideIff(ctx, kinds, e);
    case Other(_, _) => if Supplies(ctx, e, true) { OpenIsText(ctx, e); }
    case _ =>
  }

  lemma DeterministicChildren(ctx: Context, e: Expr, i: nat)
    requires Deterministic(ctx, e) && i < |Children(e)|
    ensures Deterministic(ctx, Children(e)[i])
  {
  }

  /** An expression that passes both filters is settled by row, parameters and pinned settings, unless a node is loose. */
  lemma {:induction false} AcceptedWithinIff(ctx: Context, kinds: map<string, Kind>, e: Expr)
    requires Deterministic(ctx, e) && Admitted(e)
    ensures Within(ctx, kinds, e, Styled) <==> !SomeLoose(ctx, kinds, e)
  {
    hide Loose, NodeReach, Allowed;
    AcceptedNodeOutsideIff(ctx, kinds, e);
    forall i | 0 <= i < |Children(e)|
      ensures Within(ctx, kinds, Children(e)[i], Styled) <==> !SomeLoose(ctx, kinds, Children(e)[i])
    {
      DeterministicChildren(ctx, e, i);
      AcceptedWithinIff(ctx, kinds, Children(e)[i]);
    }
  }

  // ---------------------------------------------------------------- the whole mutation

  /** The columns as the catalog lists them: `temporal` holds those of type date or timestamptz. */
  ghost predicate Typed(ctx: Context, kinds: map<string, Kind>) {
    && (forall n :: n in kinds ==> kinds[n].Plain? || kinds[n].Binary? || kinds[n].Date? || kinds[n].Instant?)
    && (forall n :: n in ctx.temporal <==> n in kinds && (kinds[n].Date? || kinds[n].Instant?))
  }

  ghost predicate MutationAdmitted(m: Mutation) {
    && (forall i :: 0 <= i < |m.targets| ==> Admitted(m.targets[i].value))
    && (m.clause.Some? ==> Admitted(m.clause.value))
    && (forall i :: 0 <= i < |m.returning| ==> Admitted(m.returning[i]))
  }

  ghost predicate ConvertsSame(ctx: Context, kinds: map<string, Kind>, e: Expr, reach: Reach) {
    forall row, sem, s, t :: Converted(ctx, kinds, row, e, reach, sem, Pinned(s)) == Converted(ctx, kinds, row, e, reach, sem, Pinned(t))
  }

  ghost predicate StoresSame(ctx: Context, kinds: map<string, Kind>, a: Assignment) {
    ConvertsSame(ctx, kinds, a.value, StoreReach(ctx, kinds, a.column, a.value))
  }

  ghost predicate ReturnsSame(ctx: Context, kinds: map<string, Kind>, e: Expr) {
    ConvertsSame(ctx, kinds, e, Printed(KindOf(ctx, kinds, e)))
  }

  /** What the mutation stores, selects and returns is settled by the row and the parameters under the executor's settings. */
  ghost predicate EffectIsSettled(ctx: Context, kinds: map<string, Kind>, m: Mutation) {
    && (forall i :: 0 <= i < |m.targets| ==> StoresSame(ctx, kinds, m.targets[i]))
    && (m.clause.Some? ==> SameWhenPinned(ctx, kinds, m.clause.value))
    && (forall i :: 0 <= i < |m.returning| ==> ReturnsSame(ctx, kinds, m.returning[i]))
  }

  /** What an assignment or a returned expression must not be: loose inside, or an interval that is printed. */
  predicate LooseResult(ctx: Context, kinds: map<string, Kind>, e: Expr) {
    SomeLoose(ctx, kinds, e) || KindOf(ctx, kinds, e).Span?
  }

  predicate LooseMutation(ctx: Context, kinds: map<string, Kind>, m: Mutation) {
    || (exists i :: 0 <= i < |m.targets| && m.targets[i].column !in ctx.temporal && LooseResult(ctx, kinds, m.targets[i].value))
    || (m.clause.Some? && SomeLoose(ctx, kinds, m.clause.value))
    || (exists i :: 0 <= i < |m.returning| && LooseResult(ctx, kinds, m.returning[i]))
  }

  /** Converting a value before it is stored or sent adds its own reach. */
  lemma ConvertedSettledIff(ctx: Context, kinds: map<string, Kind>, e: Expr, reach: Reach)
    ensures ConvertsSame(ctx, kinds, e, reach) <==> Within(ctx, kinds, e, Styled) && !reach.Outside?
  {
    hide Within, Eval, NodeReach;
    if Within(ctx, kinds, e, Styled) && !reach.Outside? {
      forall row, sem, s, t
        ensures Converted(ctx, kinds, row, e, reach, sem, Pinned(s)) == Converted(ctx, kinds, row, e, reach, sem, Pinned(t))
      {
        WithinIgnores(ctx, kinds, row, e, Styled, sem, Pinned(s), Pinned(t));
      }
    } else {
      ConvertedDiffers(ctx, kinds, e, reach, Row(map[], JsNull), Somewhere("UTC", 0), Somewhere("GMT", 1));
    }
  }

  lemma ConvertedDiffers(ctx: Context, kinds: map<string, Kind>, e: Expr, reach: Reach, row: Row, s: Session, t: Session)
    requires !Within(ctx, kinds, e, Styled) || reach.Outside?
    requires s == Somewhere("UTC", 0) && t == Somewhere("GMT", 1)
    ensures Converted(ctx, kinds, row, e, reach, Free(), Pinned(s)) != Converted(ctx, kinds, row, e, reach, Free(), Pinned(t))
  {
    hide Within, Eval, NodeReach, Apply;
    var a, b := Eval(ctx, kinds, row, e, Free(), Pinned(s)), Eval(ctx, kinds, row, e, Free(), Pinned(t));
    if !Within(ctx, kinds, e, Styled) {
      BeyondDiffers(ctx, kinds, row, e, Styled, Pinned(s), Pinned(t));
      assert [a][0] != [b][0];
    }
    assert Pinned(s).rest(e, [a]) == JsInt(0) && Pinned(t).rest(e, [b]) == JsInt(1);
    ApplyDiffers(reach, e, [a], [b], Pinned(s), Pinned(t));
  }

  lemma WordsOfTemporal()
    ensures FixedWord("t") && FixedWord("z")
  {
    assert MARKS[0] == "t" && ZONES[0] == "z";
  }

  lemma OneLetter(s: string)
    requires s != "" && Letter(s[0]) && (|s| > 1 ==> !Letter(s[1]))
    ensures WordOf(s) == [Lower(s[0])]
  {
    assert WordOf(s[1..]) == "";
  }

  /** The only words of an accepted date or time are T and Z. */
  lemma TemporalTextHasNoOpenWord(s: string)
    requires TemporalText(s)
    ensures !OpenWord(s)
  {
    hide TemporalText;
    TemporalTextCharacters(s);
    WordsOfTemporal();
    hide FixedWord;
    forall i | 0 <= i < |s| && WordStart(s, i) ensures WordOf(s[i..]) == "t" || WordOf(s[i..]) == "z" {
      assert i + 1 < |s| ==> !Letter(s[i + 1]);
      OneLetter(s[i..]);
    }
  }

  /** An accepted assignment to a date or timestamptz column is never loose. */
  lemma TemporalStoreIsSettled(m: Mutation, params: seq<Js>, table: string, pk: seq<string>, temporal: seq<string>, kinds: map<string, Kind>, i: nat)
    requires GatedProposal(m, params, table, pk, temporal).Some? && i < |m.targets| && m.targets[i].column in temporal
    requires Typed(ContextOf(m, params, table, pk, temporal), kinds)
    ensures var ctx := ContextOf(m, params, table, pk, temporal);
      Within(ctx, kinds, m.targets[i].value, Styled) && !StoreReach(ctx, kinds, m.targets[i].column, m.targets[i].value).Outside?
  {
    hide Collect, TemporalText, OpenWord, Deterministic;
    var ctx := ContextOf(m, params, table, pk, temporal);
    var e := m.targets[i].value;
    assert TemporalValue(ctx, e);
    assert Children(e) == [];
    if TextOf(ctx, e).Some? { TemporalTextHasNoOpenWord(TextOf(ctx, e).value); }
  }

  /** So the effect of an accepted proposal is settled under the executor's settings exactly when nothing in it is loose. */
  lemma AcceptedEffectIsSettledIff(m: Mutation, params: seq<Js>, table: string, pk: seq<string>, temporal: seq<string>, kinds: map<string, Kind>)
    requires GatedProposal(m, params, table, pk, temporal).Some? && MutationAdmitted(m)
    requires Typed(ContextOf(m, params, table, pk, temporal), kinds)
    ensures m.relation == table && !m.joins
    ensures EffectIsSettled(ContextOf(m, params, table, pk, temporal), kinds, m)
        <==> !LooseMutation(ContextOf(m, params, table, pk, temporal), kinds, m)
  {
    hide Collect, SomeLoose, Within, Eval, SameWhenPinned, Admitted, TemporalValue, KindOf, StoreReach, ConvertsSame;
    var ctx := ContextOf(m, params, table, pk, temporal);
    assert MutationDeterministic(ctx, m);
    forall i | 0 <= i < |m.targets|
      ensures StoresSame(ctx, kinds, m.targets[i])
        <==> m.targets[i].column in ctx.temporal || !LooseResult(ctx, kinds, m.targets[i].value)
    {
      ConvertedSettledIff(ctx, kinds, m.targets[i].value, StoreReach(ctx, kinds, m.targets[i].column, m.targets[i].value));
      if m.targets[i].column in ctx.temporal {
        TemporalStoreIsSettled(m, params, table, pk, temporal, kinds, i);
      } else {
        AcceptedWithinIff(ctx, kinds, m.targets[i].value);
        PlainStoreReach(ctx, kinds, m.targets[i].column, m.targets[i].value);
      }
    }
    SettledIff(ctx, kinds, m.clause.value);
    AcceptedWithinIff(ctx, kinds, m.clause.value);
    forall i | 0 <= i < |m.returning|
      ensures ReturnsSame(ctx, kinds, m.returning[i]) <==> !LooseResult(ctx, kinds, m.returning[i])
    {
      ConvertedSettledIff(ctx, kinds, m.returning[i], Printed(KindOf(ctx, kinds, m.returning[i])));
      AcceptedWithinIff(ctx, kinds, m.returning[i]);
    }
  }

  lemma PlainStoreReach(ctx: Context, kinds: map<string, Kind>, column: string, e: Expr)
    requires Typed(ctx, kinds) && column !in ctx.temporal
    ensures StoreReach(ctx, kinds, column, e).Outside? <==> KindOf(ctx, kinds, e).Span?
  {
    hide KindOf;
  }

  // ---------------------------------------------------------------- both kinds of dependence occur

  function ById(targets: seq<Assignment>): Mutation {
    Mutation("t", None, false, targets, Some(Op(true, ["="], ColumnRef([Name("id")]), ParamRef(1))), [])
  }

  function ByIdContext(): Context {
    Context("t", "t", [JsInt(7)], ["id"], ["at", "seen"])
  }

  function Events(): map<string, Kind> {
    map["id" := Plain, "note" := Plain, "early" := Plain, "at" := Instant, "seen" := Instant]
  }

  predicate AcceptedById(column: string, e: Expr) {
    && GatedProposal(ById([Assignment(column, e)]), [JsInt(7)], "t", ["id"], ["at", "seen"]) == Some(map["id" := JsInt(7)])
    && Admitted(e) && Admitted(ById([]).clause.value)
  }

  lemma ByIdClause()
    ensures var clause := ById([]).clause.value;
      Deterministic(ByIdContext(), clause) && Admitted(clause) && Collect(ByIdContext(), clause, map[]) == Some(map["id" := JsInt(7)])
  {
    var clause := ById([]).clause.value;
    assert Column(ByIdContext(), clause.left) == Some("id");
  }

  lemma ByIdIsProposal(column: string, e: Expr)
    requires column == "note" || column == "early"
    requires Deterministic(ByIdContext(), e)
    ensures GatedProposal(ById([Assignment(column, e)]), [JsInt(7)], "t", ["id"], ["at", "seen"]) == Some(map["id" := JsInt(7)])
    ensures Admitted(ById([]).clause.value)
  {
    hide TemporalValue, Deterministic, Admitted, Collect;
    var m := ById([Assignment(column, e)]);
    ByIdClause();
    assert m.clause == ById([]).clause;
    assert MutationDeterministic(ByIdContext(), m);
    assert m.targets[0].column !in ["at", "seen"] && m.targets[0].column !in ["id"];
  }

  lemma ByIdIsAccepted(column: string, e: Expr)
    requires column == "note" || column == "early"
    requires Deterministic(ByIdContext(), e) && Admitted(e)
    ensures AcceptedById(column, e) && Typed(ByIdContext(), Events())
    ensures EffectIsSettled(ByIdContext(), Events(), ById([Assignment(column, e)])) <==> !LooseResult(ByIdContext(), Events(), e)
  {
    hide SomeLoose, KindOf, EffectIsSettled, LooseResult, Deterministic, Admitted, GatedProposal;
    var m := ById([Assignment(column, e)]);
    var ctx := ByIdContext();
    ByIdIsProposal(column, e);
    assert MutationAdmitted(m);
    assert Typed(ctx, Events());
    AcceptedEffectIsSettledIff(m, [JsInt(7)], "t", ["id"], ["at", "seen"], Events());
    ClauseIsTight();
    assert m.targets[0].value == e && m.targets[0].column == column;
  }

  lemma ClauseIsTight()
    ensures !SomeLoose(ByIdContext(), Events(), ById([]).clause.value)
  {
    var clause := ById([]).clause.value;
    assert KindOf(ByIdContext(), Events(), clause.left).Plain? && KindOf(ByIdContext(), Events(), clause.right).Untyped?;
    assert Children(clause) == [clause.left, clause.right] && Children(clause.left) == [] && Children(clause.right) == [];
  }

  /** An instant printed as text is accepted: it depends on the session, and no longer once the settings are pinned. */
  lemma InstantAsText()
    ensures var e := TypeCast(ColumnRef([Name("at")]), ["text"]);
      && AcceptedById("note", e) && !SameEverywhere(ByIdContext(), Events(), e)
      && EffectIsSettled(ByIdContext(), Events(), ById([Assignment("note", e)]))
  {
    hide EffectIsSettled, AcceptedById, SameEverywhere, SameWhenPinned;
    var e := TypeCast(ColumnRef([Name("at")]), ["text"]);
    InstantIsStyled();
    ByIdIsAccepted("note", e);
    SettledIff(ByIdContext(), Events(), e);
  }

  lemma InstantIsStyled()
    ensures var e := TypeCast(ColumnRef([Name("at")]), ["text"]);
      && Deterministic(ByIdContext(), e) && Admitted(e)
      && !Within(ByIdContext(), Events(), e, Operands) && !LooseResult(ByIdContext(), Events(), e)
  {
    var at := ColumnRef([Name("at")]);
    var e := TypeCast(at, ["text"]);
    assert Column(ByIdContext(), at) == Some("at") && KindOf(ByIdContext(), Events(), at).Instant?;
    assert Children(e) == [at] && Children(at) == [];
  }

  /** A comparison of an instant with a text is accepted whatever the text; it is not settled if that has an open word. */
  lemma OpenTextIsAccepted(text: string)
    requires OpenWord(text)
    ensures var e := Op(true, ["<"], ColumnRef([Name("at")]), Const(TextLiteral(text)));
      AcceptedById("early", e) && !EffectIsSettled(ByIdContext(), Events(), ById([Assignment("early", e)]))
  {
    hide OpenWord;
    var at, literal := ColumnRef([Name("at")]), Const(TextLiteral(text));
    var e := Op(true, ["<"], at, literal);
    var ctx := ByIdContext();
    assert Column(ctx, at) == Some("at") && KindOf(ctx, Events(), at).Instant?;
    assert Supplies(ctx, literal, true);
    assert Children(e) == [at, literal] && Loose(ctx, Events(), e) && Deterministic(ctx, e);
    ByIdIsAccepted("early", e);
  }

  /** The text 'now' reads the clock. */
  lemma ClockIsAccepted()
    ensures var e := Op(true, ["<"], ColumnRef([Name("at")]), Const(TextLiteral("now")));
      AcceptedById("early", e) && !EffectIsSettled(ByIdContext(), Events(), ById([Assignment("early", e)]))
  {
    hide AcceptedById, EffectIsSettled;
    NowIsOpen();
    OpenTextIsAccepted("now");
  }

  lemma NowIsNotFixed()
    ensures !FixedWord("now")
  {
    assert "now" !in MONTHS by { assert forall i :: 0 <= i < |MONTHS| ==> MONTHS[i][0] != 'n' || MONTHS[i][2] != 'w'; }
    assert "now" !in DAYS by { assert forall i :: 0 <= i < |DAYS| ==> DAYS[i][0] != 'n'; }
  }

  lemma EstIsNotFixed()
    ensures !FixedWord("est")
  {
    assert "est" !in MONTHS by { assert forall i :: 0 <= i < |MONTHS| ==> MONTHS[i][0] != 'e'; }
    assert "est" !in DAYS by { assert forall i :: 0 <= i < |DAYS| ==> DAYS[i][0] != 'e'; }
  }

  lemma NowIsOpen()
    ensures OpenWord("now")
  {
    var s := "now";
    assert s[0..] == "now" && s[1..] == "ow" && "ow"[1..] == "w" && "w"[1..] == "";
    assert WordOf("w") == "w" && WordOf("ow") == "ow" && WordOf("now") == "now";
    NowIsNotFixed();
    hide FixedWord;
    assert WordStart(s, 0) && !FixedWord(WordOf(s[0..]));
  }

  /** A zone abbreviation is looked up in a set that a setting chooses. */
  lemma ZoneNameIsAccepted()
    ensures var e := Op(true, ["<"], ColumnRef([Name("at")]), Const(TextLiteral("2026-01-01 00:00 EST")));
      AcceptedById("early", e) && !EffectIsSettled(ByIdContext(), Events(), ById([Assignment("early", e)]))
  {
    hide AcceptedById, EffectIsSettled;
    ZoneNameIsOpen();
    OpenTextIsAccepted("2026-01-01 00:00 EST");
  }

  lemma ZoneNameIsOpen()
    ensures OpenWord("2026-01-01 00:00 EST")
  {
    var s := "2026-01-01 00:00 EST";
    assert s[17..] == "EST" && "EST"[1..] == "ST" && "ST"[1..] == "T" && "T"[1..] == "";
    assert WordOf("T") == "t" && WordOf("ST") == "st" && WordOf("EST") == "est";
    EstIsNotFixed();
    hide FixedWord;
    assert WordStart(s, 17) && !FixedWord(WordOf(s[17..]));
  }

  /** So is the text of an interval, whose style nobody pins. */
  lemma IntervalIsAccepted()
    ensures var e := TypeCast(Op(true, ["-"], ColumnRef([Name("at")]), ColumnRef([Name("seen")])), ["text"]);
      AcceptedById("note", e) && !EffectIsSettled(ByIdContext(), Events(), ById([Assignment("note", e)]))
  {
    var at, seen := ColumnRef([Name("at")]), ColumnRef([Name("seen")]);
    var span := Op(true, ["-"], at, seen);
    var e := TypeCast(span, ["text"]);
    var ctx := ByIdContext();
    assert Column(ctx, at) == Some("at") && Column(ctx, seen) == Some("seen");
    assert KindOf(ctx, Events(), at).Instant? && KindOf(ctx, Events(), seen).Instant?;
    assert KindOf(ctx, Events(), span).Span?;
    assert Deterministic(ctx, span) && Children(span) == [at, seen] && Children(e) == [span];
    assert Loose(ctx, Events(), e) && Deterministic(ctx, e);
    ByIdIsAccepted("note", e);
  }
}
