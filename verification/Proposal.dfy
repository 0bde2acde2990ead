/**
Single-row proposals (apps/server/approvals/proposal-policy.ts): an UPDATE or DELETE whose WHERE clause is a
conjunction of equalities that together bind every primary-key column, and whose expressions are deterministic.
*/
module Proposal {
  import opened Wrappers
  import opened Sets

  /**
   * A JavaScript value; SQL's `=` is equality of these, and JsNull never equals anything. JsTerm is what an operation
   * yields when nothing more is known of it than its node and its operands.
   */
  datatype Js =
    | JsNull | JsUndefined | JsInt(number: int) | JsText(text: string) | JsBool(value: bool) | JsOther(tag: nat)
    | JsTerm(node: Expr, operands: seq<Js>)

  datatype Literal = IntLiteral(number: int) | NumericLiteral(text: string) | TextLiteral(text: string) | BoolLiteral(value: bool) | NullLiteral

  datatype Field = Name(name: string) | Star

  datatype BoolOp = AndExpr | OrExpr | NotExpr

  /** The parsed tree, as far as the policy looks at it; Other stands for every remaining kind of node. */
  datatype Expr =
    | ColumnRef(fields: seq<Field>)
    | ParamRef(number: int)
    | Const(literal: Literal)
    | Op(plain: bool, op: seq<string>, left: Expr, right: Expr)
    | BoolExpr(boolOp: BoolOp, args: seq<Expr>)
    | TypeCast(arg: Expr, typeName: seq<string>)
    | FuncCall(callee: seq<string>, args: seq<Expr>)
    | Special(kind: string)  // SELECT, sub-links, WITH, CURRENT_TIMESTAMP and its kind, DEFAULT
    | Other(kind: string, args: seq<Expr>)

  datatype Assignment = Assignment(column: string, value: Expr)

  datatype Mutation = Mutation(
    relation: string, alias: Option<string>, joins: bool, targets: seq<Assignment>, clause: Option<Expr>, returning: seq<Expr>)

  datatype Context = Context(table: string, alias: string, params: seq<Js>, pk: seq<string>, temporal: seq<string>)

  // ---------------------------------------------------------------- the policy

  /** pg_catalog is the only schema a name may be qualified with. */
  function CatalogName(parts: seq<string>): string {
    if |parts| == 1 then parts[0] else if |parts| == 2 && parts[0] == "pg_catalog" then parts[1] else ""
  }

  function FieldName(f: Field): string {
    if f.Star? then "*" else f.name
  }

  function Column(ctx: Context, e: Expr): Option<string> {
    if !e.ColumnRef? then None
    else if |e.fields| == 1 then Some(FieldName(e.fields[0]))
    else if |e.fields| == 2 && FieldName(e.fields[0]) == ctx.alias then Some(FieldName(e.fields[1]))
    else None
  }

  const CASTS := ["text", "int4", "int8", "numeric", "bool", "uuid", "jsonb"]
  const FUNCTIONS := ["lower", "upper", "length", "trim", "btrim", "ltrim", "rtrim", "jsonb_build_object", "to_jsonb"]

  /** What the policy asks of one node. */
  predicate Allowed(ctx: Context, e: Expr) {
    match e
    case Special(_) => false
    case TypeCast(_, name) => CatalogName(name) in CASTS
    case FuncCall(name, _) => CatalogName(name) in FUNCTIONS
    case ColumnRef(_) => Column(ctx, e).Some?
    case _ => true
  }

  predicate Deterministic(ctx: Context, e: Expr) {
    && Allowed(ctx, e)
    && match e
       case Op(_, _, left, right) => Deterministic(ctx, left) && Deterministic(ctx, right)
       case BoolExpr(_, args) => forall i :: 0 <= i < |args| ==> Deterministic(ctx, args[i])
       case TypeCast(arg, _) => Deterministic(ctx, arg)
       case FuncCall(_, args) => forall i :: 0 <= i < |args| ==> Deterministic(ctx, args[i])
       case Other(_, args) => forall i :: 0 <= i < |args| ==> Deterministic(ctx, args[i])
       case _ => true
  }

  function ValueOf(l: Literal): Js {
    match l
    case IntLiteral(n) => JsInt(n)
    case NumericLiteral(t) => JsText(t)
    case TextLiteral(t) => JsText(t)
    case BoolLiteral(b) => JsBool(b)
    case NullLiteral => JsNull
  }

  function ParamAt(ctx: Context, number: int): Js {
    if 1 <= number <= |ctx.params| then ctx.params[number - 1] else JsUndefined
  }

  predicate Digits(s: string, n: nat) {
    |s| >= n && forall i :: 0 <= i < n ==> '0' <= s[i] <= '9'
  }

  function SkipDigits(s: string): string {
    if s != "" && '0' <= s[0] <= '9' then SkipDigits(s[1..]) else s
  }

  /** (?:Z|[+-]\d{2}(?::?\d{2})?)? at the end */
  predicate Zone(s: string) {
    || s == "" || s == "Z"
    || (|s| >= 3 && (s[0] == '+' || s[0] == '-') && Digits(s[1..], 2)
        && (|s| == 3 || (|s| == 5 && Digits(s[3..], 2)) || (|s| == 6 && s[3] == ':' && Digits(s[4..], 2))))
  }

  /** (?::\d{2}(?:\.\d+)?)? and the zone */
  predicate Seconds(s: string) {
    || Zone(s)
    || (|s| >= 3 && s[0] == ':' && Digits(s[1..], 2)
        && (Zone(s[3..]) || (|s| >= 5 && s[3] == '.' && Digits(s[4..], 1) && Zone(SkipDigits(s[4..])))))
  }

  /** A date, or a date and a time: no 'now', 'today' or 'infinity'. */
  predicate TemporalText(s: string) {
    && |s| >= 10 && Digits(s, 4) && s[4] == '-' && Digits(s[5..], 2) && s[7] == '-' && Digits(s[8..], 2)
    && (|s| == 10
        || (|s| >= 16 && (s[10] == ' ' || s[10] == 'T') && Digits(s[11..], 2) && s[13] == ':' && Digits(s[14..], 2) && Seconds(s[16..])))
  }

  predicate TemporalValue(ctx: Context, e: Expr) {
    || (Column(ctx, e).Some? && Column(ctx, e).value in ctx.temporal)
    || (e.ParamRef? && (ParamAt(ctx, e.number) == JsNull || (ParamAt(ctx, e.number).JsText? && TemporalText(ParamAt(ctx, e.number).text))))
    || (e.Const? && (e.literal.NullLiteral? || (e.literal.TextLiteral? && TemporalText(e.literal.text))))
  }

  /** The key after reading one more WHERE expression, if it is a conjunction of new equalities on key columns. */
  function Collect(ctx: Context, e: Expr, key: map<string, Js>): Option<map<string, Js>> {
    match e
    case BoolExpr(op, args) => if op.AndExpr? then CollectAll(ctx, args, key) else None
    case Op(plain, op, l, r) =>
      var left, right := Column(ctx, l), Column(ctx, r);
      var name, bound := if left.Some? then left else right, if left.None? then l else r;
      if !plain || op != ["="] || name.None? || name.value !in ctx.pk || name.value in key then None
      else
        var v := if bound.ParamRef? then ParamAt(ctx, bound.number) else if bound.Const? then ValueOf(bound.literal) else JsNull;
        if v == JsNull || v == JsUndefined then None else Some(key[name.value := v])
    case _ => None
  }

  function CollectAll(ctx: Context, args: seq<Expr>, key: map<string, Js>): Option<map<string, Js>> {
    if args == [] then Some(key)
    else
      var first := Collect(ctx, args[0], key);
      if first.None? then None else CollectAll(ctx, args[1..], first.value)
  }

  predicate MutationDeterministic(ctx: Context, m: Mutation) {
    && (forall i :: 0 <= i < |m.targets| ==> Deterministic(ctx, m.targets[i].value))
    && (m.clause.Some? ==> Deterministic(ctx, m.clause.value))
    && (forall i :: 0 <= i < |m.returning| ==> Deterministic(ctx, m.returning[i]))
  }

  function ContextOf(m: Mutation, params: seq<Js>, table: string, pk: seq<string>, temporal: seq<string>): Context {
    Context(table, if m.alias.Some? then m.alias.value else table, params, pk, temporal)
  }

  function GatedProposal(m: Mutation, params: seq<Js>, table: string, pk: seq<string>, temporal: seq<string>): Option<map<string, Js>> {
    var ctx := ContextOf(m, params, table, pk, temporal);
    if m.relation != table || m.joins || !MutationDeterministic(ctx, m) then None
    else if exists i :: 0 <= i < |m.targets| && m.targets[i].column in temporal && !TemporalValue(ctx, m.targets[i].value) then None
    else if exists i :: 0 <= i < |m.targets| && m.targets[i].column in pk then None
    else if m.clause.None? then None
    else
      var key := Collect(ctx, m.clause.value, map[]);
      if key.Some? && |key.value| == |pk| then key else None
  }

  /** The map that `equality` fills while it walks the WHERE clause. */
  class KeyCollector {
    const ctx: Context
    var key: map<string, Js>

    constructor (ctx: Context)
      ensures this.ctx == ctx && key == map[]
    {
      this.ctx, key := ctx, map[];
    }

    method Equality(e: Expr) returns (ok: bool)
      modifies this
      ensures if ok then Collect(ctx, e, old(key)) == Some(key) else Collect(ctx, e, old(key)).None?
      decreases e, 1
    {
      match e
      case BoolExpr(op, args) =>
        if !op.AndExpr? { return false; }
        ok := Every(args);
      case Op(plain, op, l, r) =>
        if !plain || op != ["="] { return false; }
        var left, right := Column(ctx, l), Column(ctx, r);
        var name, bound := if left.Some? then left else right, if left.None? then l else r;
        if name.None? || name.value !in ctx.pk || name.value in key { return false; }
        if bound.ParamRef? {
          key := key[name.value := ParamAt(ctx, bound.number)];
        } else if bound.Const? {
          key := key[name.value := ValueOf(bound.literal)];
        } else {
          return false;
        }
        ok := key[name.value] != JsNull && key[name.value] != JsUndefined;
      case _ => ok := false;
    }

    method Every(args: seq<Expr>) returns (ok: bool)
      modifies this
      ensures if ok then CollectAll(ctx, args, old(key)) == Some(key) else CollectAll(ctx, args, old(key)).None?
      decreases args, 0
    {
      var i := 0;
      while i < |args|
        invariant 0 <= i <= |args|
        invariant CollectAll(ctx, args, old(key)) == CollectAll(ctx, args[i..], key)
      {
        ok := Equality(args[i]);
        if !ok { return; }
        assert args[i..][1..] == args[i + 1..];
        i := i + 1;
      }
      ok := true;
    }
  }

  // ---------------------------------------------------------------- SQL's meaning of the clause

  datatype Truth = True | False | Unknown

  /** A row's cells, with NULL as JsNull, and the composite value that a reference to the whole row denotes. */
  datatype Row = Row(cells: map<string, Js>, whole: Js)

  function And(a: Truth, b: Truth): Truth {
    if a.False? || b.False? then False else if a.True? && b.True? then True else Unknown
  }

  function Equal(a: Js, b: Js): Truth {
    if a == JsNull || b == JsNull then Unknown else if a == b then True else False
  }

  function Cell(row: Row, f: Field): Js {
    if f.Star? then row.whole else if f.name in row.cells then row.cells[f.name] else JsNull
  }

  /** The value of a side of an equality; anything the policy does not accept there is left unknown. */
  function SideValue(ctx: Context, row: Row, e: Expr): Js {
    match e
    case ColumnRef(fields) => if fields == [] then JsNull else Cell(row, fields[|fields| - 1])
    case ParamRef(n) => ParamAt(ctx, n)
    case Const(l) => ValueOf(l)
    case _ => JsNull
  }

  /** Three-valued truth of a clause made of AND and `=`. */
  function Holds(ctx: Context, row: Row, e: Expr): Truth {
    match e
    case BoolExpr(op, args) => if op.AndExpr? then AllHold(ctx, row, args) else Unknown
    case Op(plain, op, l, r) => if !plain || op != ["="] then Unknown else Equal(SideValue(ctx, row, l), SideValue(ctx, row, r))
    case _ => Unknown
  }

  function AllHold(ctx: Context, row: Row, args: seq<Expr>): Truth {
    if args == [] then True else And(Holds(ctx, row, args[0]), AllHold(ctx, row, args[1..]))
  }

  // ---------------------------------------------------------------- the accepted key is that meaning

  predicate IsStar(e: Expr) {
    e.ColumnRef? && e.fields != [] && e.fields[|e.fields| - 1].Star?
  }

  /** Some equality compares the whole row instead of a column. */
  predicate UsesStar(e: Expr) {
    match e
    case BoolExpr(_, args) => exists i :: 0 <= i < |args| && UsesStar(args[i])
    case Op(_, _, l, r) => IsStar(l) || IsStar(r)
    case _ => false
  }

  /** What the row must hold for one collected name. */
  predicate Bound(row: Row, name: string, star: bool, v: Js) {
    if name == "*" && star then row.whole == v else name in row.cells && row.cells[name] == v
  }

  /** What one accepted equality says, and that nothing collected before is lost. */
  lemma EqualityMeans(ctx: Context, e: Expr, key: map<string, Js>, row: Row)
    requires e.Op? && Collect(ctx, e, key).Some?
    ensures var after := Collect(ctx, e, key).value;
      exists name :: name !in key && name in ctx.pk && name in after && after == key[name := after[name]]
        && after[name] != JsNull && (UsesStar(e) ==> name == "*")
        && (Holds(ctx, row, e).True? <==> Bound(row, name, UsesStar(e), after[name]))
  {
    var left, right := Column(ctx, e.left), Column(ctx, e.right);
    var name := if left.Some? then left.value else right.value;
    var column := if left.Some? then e.left else e.right;
    assert Column(ctx, column) == Some(name);
    assert FieldName(column.fields[|column.fields| - 1]) == name;
    assert UsesStar(e) <==> IsStar(column);
    assert name in Collect(ctx, e, key).value;
  }

  ghost predicate Extends(a: map<string, Js>, b: map<string, Js>, pk: seq<string>) {
    && (forall n :: n in a ==> n in b && b[n] == a[n])
    && (forall n :: n in b && n !in a ==> n in pk && b[n] != JsNull)
  }

  ghost predicate Meets(row: Row, before: map<string, Js>, after: map<string, Js>, star: bool) {
    forall n :: n in after && n !in before ==> Bound(row, n, star, after[n])
  }

  lemma {:induction false} CollectMeans(ctx: Context, e: Expr, key: map<string, Js>, row: Row)
    requires Collect(ctx, e, key).Some?
    ensures var after := Collect(ctx, e, key).value;
      && Extends(key, after, ctx.pk)
      && (UsesStar(e) ==> "*" in after && "*" !in key)
      && (Holds(ctx, row, e).True? <==> Meets(row, key, after, UsesStar(e)))
    decreases e, 1
  {
    match e
    case BoolExpr(_, args) => CollectAllMeans(ctx, args, key, row);
    case Op(_, _, _, _) => EqualityMeans(ctx, e, key, row);
  }

  ghost predicate AnyStar(args: seq<Expr>) {
    exists i :: 0 <= i < |args| && UsesStar(args[i])
  }

  lemma {:induction false} CollectAllMeans(ctx: Context, args: seq<Expr>, key: map<string, Js>, row: Row)
    requires CollectAll(ctx, args, key).Some?
    ensures var after := CollectAll(ctx, args, key).value;
      && Extends(key, after, ctx.pk)
      && (AnyStar(args) ==> "*" in after && "*" !in key)
      && (AllHold(ctx, row, args).True? <==> Meets(row, key, after, AnyStar(args)))
    decreases args, 0
  {
    if args != [] {
      var first := Collect(ctx, args[0], key).value;
      var after := CollectAll(ctx, args, key).value;
      CollectMeans(ctx, args[0], key, row);
      CollectAllMeans(ctx, args[1..], first, row);
      AnyStarSplit(args);
      MeetsSplit(row, key, first, after, UsesStar(args[0]), AnyStar(args[1..]), ctx.pk);
    }
  }

  lemma AnyStarSplit(args: seq<Expr>)
    requires args != []
    ensures AnyStar(args) <==> UsesStar(args[0]) || AnyStar(args[1..])
  {
    if AnyStar(args[1..]) {
      var i :| 0 <= i < |args[1..]| && UsesStar(args[1..][i]);
      assert UsesStar(args[i + 1]);
    }
    if AnyStar(args) && !UsesStar(args[0]) {
      var i :| 0 <= i < |args| && UsesStar(args[i]);
      assert args[1..][i - 1] == args[i];
    }
  }

  lemma MeetsSplit(row: Row, a: map<string, Js>, b: map<string, Js>, c: map<string, Js>, first: bool, rest: bool, pk: seq<string>)
    requires Extends(a, b, pk) && Extends(b, c, pk)
    requires (first ==> "*" in b && "*" !in a) && (rest ==> "*" in c && "*" !in b)
    ensures Extends(a, c, pk)
    ensures Meets(row, a, c, first || rest) <==> Meets(row, a, b, first) && Meets(row, b, c, rest)
  {
    if Meets(row, a, c, first || rest) {
      forall n | n in b && n !in a ensures Bound(row, n, first, b[n]) { assert n in c && Bound(row, n, first || rest, c[n]); }
      forall n | n in c && n !in b ensures Bound(row, n, rest, c[n]) { assert Bound(row, n, first || rest, c[n]); }
    }
    if Meets(row, a, b, first) && Meets(row, b, c, rest) {
      forall n | n in c && n !in a ensures Bound(row, n, first || rest, c[n]) {
        if n in b { assert Bound(row, n, first, b[n]); } else { assert Bound(row, n, rest, c[n]); }
      }
    }
  }

  // ---------------------------------------------------------------- theorems

  ghost predicate Distinct(pk: seq<string>) {
    forall i, j :: 0 <= i < j < |pk| ==> pk[i] != pk[j]
  }

  /** The row has exactly this primary key. */
  ghost predicate HasKey(row: Row, pk: seq<string>, key: map<string, Js>) {
    forall i :: 0 <= i < |pk| ==> pk[i] in row.cells && pk[i] in key && row.cells[pk[i]] == key[pk[i]]
  }

  lemma {:induction false} DistinctCount(pk: seq<string>)
    requires Distinct(pk)
    ensures |set n | n in pk| == |pk|
  {
    if pk != [] {
      var last := |pk| - 1;
      DistinctCount(pk[..last]);
      assert (set n | n in pk) == (set n | n in pk[..last]) + {pk[last]};
    }
  }

  /** An accepted key binds every primary-key column, to a value other than NULL. */
  lemma KeyIsComplete(m: Mutation, params: seq<Js>, table: string, pk: seq<string>, temporal: seq<string>)
    requires Distinct(pk) && GatedProposal(m, params, table, pk, temporal).Some?
    ensures var key := GatedProposal(m, params, table, pk, temporal).value;
      forall n :: n in key <==> n in pk
    ensures forall n :: n in pk ==> GatedProposal(m, params, table, pk, temporal).value[n] != JsNull
  {
    var ctx := ContextOf(m, params, table, pk, temporal);
    var key := GatedProposal(m, params, table, pk, temporal).value;
    CollectMeans(ctx, m.clause.value, map[], Row(map[], JsNull));
    DistinctCount(pk);
    SubsetOfSameSize(key.Keys, set n | n in pk);
  }

  /** A row satisfies the WHERE clause exactly when its primary key is the accepted key. */
  lemma WhereMeansKey(m: Mutation, params: seq<Js>, table: string, pk: seq<string>, temporal: seq<string>, row: Row)
    requires Distinct(pk) && GatedProposal(m, params, table, pk, temporal).Some? && !UsesStar(m.clause.value)
    ensures Holds(ContextOf(m, params, table, pk, temporal), row, m.clause.value).True?
        <==> HasKey(row, pk, GatedProposal(m, params, table, pk, temporal).value)
  {
    var ctx := ContextOf(m, params, table, pk, temporal);
    var key := GatedProposal(m, params, table, pk, temporal).value;
    KeyIsComplete(m, params, table, pk, temporal);
    CollectMeans(ctx, m.clause.value, map[], row);
    assert forall n :: n in key <==> n in pk;
    if HasKey(row, pk, key) {
      forall n | n in key ensures Bound(row, n, false, key[n]) {
        var i :| 0 <= i < |pk| && pk[i] == n;
      }
      assert Meets(row, map[], key, false);
    } else {
      var i :| 0 <= i < |pk| && !(pk[i] in row.cells && pk[i] in key && row.cells[pk[i]] == key[pk[i]]);
      assert pk[i] in pk && pk[i] in key && !Bound(row, pk[i], false, key[pk[i]]);
      assert !Meets(row, map[], key, false);
    }
  }

  /**
   * That is all that can go wrong: the accepted key is the meaning of the clause for every row exactly when no
   * equality compares the whole row. It can only do so where a key column is itself named "*".
   */
  lemma MeaningExactlyWithoutStar(m: Mutation, params: seq<Js>, table: string, pk: seq<string>, temporal: seq<string>)
    requires Distinct(pk) && GatedProposal(m, params, table, pk, temporal).Some?
    ensures (forall row :: Holds(ContextOf(m, params, table, pk, temporal), row, m.clause.value).True?
                       <==> HasKey(row, pk, GatedProposal(m, params, table, pk, temporal).value))
        <==> !UsesStar(m.clause.value)
    ensures UsesStar(m.clause.value) ==> "*" in pk
  {
    var ctx := ContextOf(m, params, table, pk, temporal);
    var key := GatedProposal(m, params, table, pk, temporal).value;
    if UsesStar(m.clause.value) {
      KeyIsComplete(m, params, table, pk, temporal);
      CollectMeans(ctx, m.clause.value, map[], Row(map[], JsNull));
      var row := Row(key, if key["*"] == JsOther(0) then JsOther(1) else JsOther(0));
      CollectMeans(ctx, m.clause.value, map[], row);
      assert "*" in key && !Bound(row, "*", true, key["*"]);
      assert HasKey(row, pk, key);
      assert !Holds(ctx, row, m.clause.value).True?;
    } else {
      forall row ensures Holds(ctx, row, m.clause.value).True? <==> HasKey(row, pk, key) {
        WhereMeansKey(m, params, table, pk, temporal, row);
      }
    }
  }

  /**
   * The policy accepts such a proposal: a table whose key column is named "*", and a comparison of the whole row. It is
   * an input of the policy alone; PostgreSQL, whose typing is not modelled, would not compare a row with a number.
   */
  lemma StarIsAccepted()
    ensures var clause := Op(true, ["="], ColumnRef([Name("t"), Star]), ParamRef(1));
      var m := Mutation("t", None, false, [], Some(clause), []);
      GatedProposal(m, [JsInt(7)], "t", ["*"], []) == Some(map["*" := JsInt(7)]) && UsesStar(clause)
  {
    var clause := Op(true, ["="], ColumnRef([Name("t"), Star]), ParamRef(1));
    var m := Mutation("t", None, false, [], Some(clause), []);
    var ctx := ContextOf(m, [JsInt(7)], "t", ["*"], []);
    assert Column(ctx, clause.left) == Some("*");
    assert Deterministic(ctx, clause);
    assert Collect(ctx, clause, map[]) == Some(map["*" := JsInt(7)]);
  }

  // ---------------------------------------------------------------- running it

  ghost predicate PrimaryKey(rows: seq<Row>, pk: seq<string>) {
    && (forall i, n :: 0 <= i < |rows| && n in pk ==> n in rows[i].cells)
    && forall i, j :: 0 <= i < |rows| && 0 <= j < |rows| && i != j ==> DifferInKey(rows[i], rows[j], pk)
  }

  ghost predicate DifferInKey(a: Row, b: Row, pk: seq<string>) {
    exists k :: 0 <= k < |pk| && Cell(a, Name(pk[k])) != Cell(b, Name(pk[k]))
  }

  /** An UPDATE assigns its targets in every row for which the clause is true; `values` are what they evaluate to. */
  function Assigned(row: Row, targets: seq<Assignment>, values: seq<Js>): Row
    requires |targets| == |values|
  {
    if targets == [] then row
    else
      var n := |targets| - 1;
      Assigned(row, targets[..n], values[..n]).(cells := Assigned(row, targets[..n], values[..n]).cells[targets[n].column := values[n]])
  }

  lemma {:induction false} AssignedKeepsOthers(row: Row, targets: seq<Assignment>, values: seq<Js>, column: string)
    requires |targets| == |values| && forall i :: 0 <= i < |targets| ==> targets[i].column != column
    ensures column in row.cells <==> column in Assigned(row, targets, values).cells
    ensures column in row.cells ==> Assigned(row, targets, values).cells[column] == row.cells[column]
  {
    if targets != [] {
      var n := |targets| - 1;
      AssignedKeepsOthers(row, targets[..n], values[..n], column);
    }
  }

  /** A composite value determines the cells it is made of. */
  ghost predicate WholeIsCells(rows: seq<Row>) {
    forall i, j :: 0 <= i < |rows| && 0 <= j < |rows| && rows[i].whole == rows[j].whole ==> rows[i].cells == rows[j].cells
  }

  /** Also a clause that compares the whole row selects no two rows. */
  lemma ClauseSelectsOne(m: Mutation, params: seq<Js>, table: string, pk: seq<string>, temporal: seq<string>, rows: seq<Row>, i: nat, j: nat)
    requires Distinct(pk) && GatedProposal(m, params, table, pk, temporal).Some? && PrimaryKey(rows, pk) && WholeIsCells(rows)
    requires i < |rows| && j < |rows|
    requires Holds(ContextOf(m, params, table, pk, temporal), rows[i], m.clause.value).True?
    requires Holds(ContextOf(m, params, table, pk, temporal), rows[j], m.clause.value).True?
    ensures i == j
  {
    hide Holds, Collect;
    var ctx := ContextOf(m, params, table, pk, temporal);
    var key := GatedProposal(m, params, table, pk, temporal).value;
    if UsesStar(m.clause.value) {
      CollectMeans(ctx, m.clause.value, map[], rows[i]);
      CollectMeans(ctx, m.clause.value, map[], rows[j]);
      assert "*" in key && Bound(rows[i], "*", true, key["*"]) && Bound(rows[j], "*", true, key["*"]);
      assert rows[i].whole == rows[j].whole;
    } else {
      WhereMeansKey(m, params, table, pk, temporal, rows[i]);
      WhereMeansKey(m, params, table, pk, temporal, rows[j]);
    }
    assert !DifferInKey(rows[i], rows[j], pk);
  }

  /**
   * On a table with a primary key an accepted mutation touches at most one row, namely the one with the accepted key
   * unless the clause compares the whole row, and an UPDATE leaves that row's key as it was.
   */
  lemma MutationTouchesOneRow(m: Mutation, params: seq<Js>, table: string, pk: seq<string>, temporal: seq<string>, rows: seq<Row>,
                              i: nat, j: nat, values: seq<Js>)
    requires Distinct(pk) && GatedProposal(m, params, table, pk, temporal).Some? && PrimaryKey(rows, pk) && WholeIsCells(rows)
    requires i < |rows| && j < |rows| && |values| == |m.targets|
    requires Holds(ContextOf(m, params, table, pk, temporal), rows[i], m.clause.value).True?
    ensures Holds(ContextOf(m, params, table, pk, temporal), rows[j], m.clause.value).True? <==> i == j
    ensures !UsesStar(m.clause.value) ==> HasKey(rows[i], pk, GatedProposal(m, params, table, pk, temporal).value)
    ensures forall k :: 0 <= k < |pk| ==>
      pk[k] in rows[i].cells && pk[k] in Assigned(rows[i], m.targets, values).cells
      && Assigned(rows[i], m.targets, values).cells[pk[k]] == rows[i].cells[pk[k]]
  {
    hide Holds, Collect;
    if Holds(ContextOf(m, params, table, pk, temporal), rows[j], m.clause.value).True? {
      ClauseSelectsOne(m, params, table, pk, temporal, rows, i, j);
    }
    if !UsesStar(m.clause.value) { WhereMeansKey(m, params, table, pk, temporal, rows[i]); }
    forall k | 0 <= k < |pk|
      ensures pk[k] in rows[i].cells && pk[k] in Assigned(rows[i], m.targets, values).cells
      ensures Assigned(rows[i], m.targets, values).cells[pk[k]] == rows[i].cells[pk[k]]
    {
      assert pk[k] in pk;
      AssignedKeepsOthers(rows[i], m.targets, values, pk[k]);
    }
  }

  // ---------------------------------------------------------------- temporal texts

  predicate DigitOrMark(c: char) {
    '0' <= c <= '9' || c == '-' || c == ':' || c == '+' || c == '.'
  }

  /** Every character of a date or time. */
  predicate InTemporal(c: char) {
    DigitOrMark(c) || c == ' ' || c == 'T' || c == 'Z'
  }

  lemma {:induction false} SkippedDigits(s: string)
    ensures |SkipDigits(s)| <= |s| && s[|s| - |SkipDigits(s)|..] == SkipDigits(s)
    ensures forall i :: 0 <= i < |s| - |SkipDigits(s)| ==> '0' <= s[i] <= '9'
  {
    if s != "" && '0' <= s[0] <= '9' {
      SkippedDigits(s[1..]);
      var n := |s| - |SkipDigits(s)|;
      assert s[1..][n - 1..] == s[n..];
      forall i | 0 <= i < n ensures '0' <= s[i] <= '9' { if i > 0 { assert s[i] == s[1..][i - 1]; } }
    }
  }

  lemma ZoneCharacters(s: string)
    requires Zone(s)
    ensures forall i :: 0 <= i < |s| ==> DigitOrMark(s[i]) || (s[i] == 'Z' && i == |s| - 1)
  {
  }

  lemma SecondsCharacters(s: string)
    requires Seconds(s)
    ensures forall i :: 0 <= i < |s| ==> DigitOrMark(s[i]) || (s[i] == 'Z' && i == |s| - 1)
  {
    hide Zone;
    if Zone(s) {
      ZoneCharacters(s);
    } else if Zone(s[3..]) {
      ZoneCharacters(s[3..]);
      assert forall i :: 3 <= i < |s| ==> s[i] == s[3..][i - 3];
    } else {
      var fraction := s[4..];
      var zone := SkipDigits(fraction);
      SkippedDigits(fraction);
      ZoneCharacters(zone);
      assert forall i :: 4 <= i < |s| ==> s[i] == fraction[i - 4];
      assert forall i :: |fraction| - |zone| <= i < |fraction| ==> fraction[i] == zone[i - (|fraction| - |zone|)];
    }
  }

  /** A text that a temporal column may be set to is made of digits and separators, but for one T and a Z at its end. */
  lemma TemporalTextCharacters(s: string)
    requires TemporalText(s)
    ensures |s| == 10 || |s| >= 16
    ensures forall i :: 0 <= i < |s| ==>
      DigitOrMark(s[i]) || (i == 10 && (s[i] == ' ' || s[i] == 'T')) || (s[i] == 'Z' && 16 <= i == |s| - 1)
  {
    hide Seconds;
    if |s| > 10 {
      SecondsCharacters(s[16..]);
      assert forall i :: 16 <= i < |s| ==> s[i] == s[16..][i - 16];
    }
  }

  /** What an accepted UPDATE may assign to a date or timestamp column. */
  lemma TemporalAssignments(m: Mutation, params: seq<Js>, table: string, pk: seq<string>, temporal: seq<string>, i: nat, row: Row)
    requires GatedProposal(m, params, table, pk, temporal).Some? && i < |m.targets| && m.targets[i].column in temporal
    ensures var ctx := ContextOf(m, params, table, pk, temporal);
      var v := SideValue(ctx, row, m.targets[i].value);
      || (Column(ctx, m.targets[i].value).Some? && Column(ctx, m.targets[i].value).value in temporal)
      || v == JsNull
      || (v.JsText? && forall k :: 0 <= k < |v.text| ==> InTemporal(v.text[k]))
  {
    hide Collect, TemporalText, Deterministic;
    var ctx := ContextOf(m, params, table, pk, temporal);
    assert TemporalValue(ctx, m.targets[i].value);
    var v := SideValue(ctx, row, m.targets[i].value);
    if v.JsText? && TemporalText(v.text) { TemporalTextCharacters(v.text); }
  }
}
