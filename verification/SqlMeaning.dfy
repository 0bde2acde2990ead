/**
What PostgreSQL consults to evaluate an expression, on its own terms and not on those of any policy: which node looks at
nothing but its operands, which prints or reads a value in the style that session settings prescribe, and which takes
its value from elsewhere - the clock, other relations, defaults, unknown functions, settings nobody pins.
*/
module SqlMeaning {
  import opened Wrappers
  import opened Proposal

  // ---------------------------------------------------------------- PostgreSQL: kinds of values

  /**
   * What matters of a type. Workspace columns have only ten types: bytea is Binary, date is Date, timestamptz is
   * Instant and the others are Plain. Untyped is a text literal, NULL or a parameter; Span an interval, Composite a
   * whole row with a cell that prints in a style.
   */
  datatype Kind = Untyped | Plain | Binary | Date | Instant | Composite | Span

  predicate Moment(k: Kind) {
    k.Date? || k.Instant? || k.Composite? || k.Span?
  }

  function Join(a: Kind, b: Kind): Kind {
    if a.Span? || b.Span? then Span
    else if a.Composite? || b.Composite? then Composite
    else if a.Instant? || b.Instant? then Instant
    else if a.Date? || b.Date? then Date
    else if a.Binary? || b.Binary? then Binary
    else if a.Plain? || b.Plain? then Plain
    else Untyped
  }

  /** The kind of a sum or a difference: days between dates are a number, between instants an interval. */
  function Arithmetic(op: string, a: Kind, b: Kind): Kind {
    if a.Span? && b.Span? then Span
    else if op == "-" && a.Date? && (b.Date? || b.Untyped?) then Plain
    else if op == "-" && (a.Date? || a.Instant?) && (b.Date? || b.Instant? || b.Untyped?) then Span
    else if a.Instant? || b.Instant? || ((a.Date? || b.Date?) && (a.Span? || b.Span?)) then Instant
    else if a.Date? || b.Date? then Date
    else if a.Span? || b.Span? then Span
    else Plain
  }

  const CHOICES := ["CaseExpr", "CaseWhen", "CoalesceExpr"]
  const TESTS := ["NullTest", "BooleanTest"]

  function ColumnKind(ctx: Context, kinds: map<string, Kind>, f: Field): Kind {
    if f.Name? && f.name in kinds then kinds[f.name]
    else if (f.Star? || f.name == ctx.alias) && exists n :: n in kinds && Printed(kinds[n]).Styled? then Composite
    else Plain
  }

  function KindOf(ctx: Context, kinds: map<string, Kind>, e: Expr): Kind {
    match e
    case ColumnRef(fields) => if fields == [] then Plain else ColumnKind(ctx, kinds, fields[|fields| - 1])
    case ParamRef(_) => Untyped
    case Const(l) => if l.TextLiteral? || l.NullLiteral? then Untyped else Plain
    case Op(plain, op, l, r) =>
      if !plain then (if KindOf(ctx, kinds, l).Untyped? then KindOf(ctx, kinds, r) else KindOf(ctx, kinds, l))
      else if op == ["+"] || op == ["-"] then Arithmetic(op[0], KindOf(ctx, kinds, l), KindOf(ctx, kinds, r))
      else if (op == ["*"] || op == ["/"]) && (KindOf(ctx, kinds, l).Span? || KindOf(ctx, kinds, r).Span?) then Span
      else Plain
    case Other(kind, args) =>
      if kind == "CaseWhen" && args != [] then KindOf(ctx, kinds, args[|args| - 1])
      else if kind in CHOICES then JoinAll(ctx, kinds, args)
      else Plain
    case _ => Plain
  }

  function JoinAll(ctx: Context, kinds: map<string, Kind>, args: seq<Expr>): Kind {
    if args == [] then Untyped else Join(KindOf(ctx, kinds, args[0]), JoinAll(ctx, kinds, args[1..]))
  }

  // ---------------------------------------------------------------- PostgreSQL: texts that become dates

  /**
   * The words that mean the same in every session, as the input of dates and times knows them. UTC and its other names
   * are among them because every set of zone abbreviations that PostgreSQL comes with agrees on those.
   */
  predicate FixedWord(w: string) {
    w in ZONES || w in MARKS || w in MONTHS || w in DAYS
  }

  const ZONES := ["z", "zulu", "utc", "uct", "ut", "gmt"]
  const MARKS := ["t", "ad", "bc", "am", "pm", "at", "on", "epoch", "infinity", "allballs", "j", "jd", "julian"]
  const MONTHS := [
    "jan", "january", "feb", "february", "mar", "march", "apr", "april", "may", "jun", "june", "jul", "july", "aug",
    "august", "sep", "sept", "september", "oct", "october", "nov", "november", "dec", "december"]
  const DAYS := [
    "sun", "sunday", "mon", "monday", "tue", "tues", "tuesday", "wed", "weds", "wednesday", "thu", "thur", "thurs",
    "thursday", "fri", "friday", "sat", "saturday"]

  predicate Letter(c: char) {
    'A' <= c <= 'Z' || 'a' <= c <= 'z'
  }

  function Lower(c: char): char {
    if 'A' <= c <= 'Z' then c + 32 as char else c
  }

  /** The letters that a text starts with, in lower case. */
  function WordOf(s: string): string {
    if s != "" && Letter(s[0]) then [Lower(s[0])] + WordOf(s[1..]) else ""
  }

  predicate WordStart(s: string, i: nat) {
    i < |s| && Letter(s[i]) && (i > 0 ==> !Letter(s[i - 1]))
  }

  /**
   * Some word of the text need not mean the same in every session: now, today, tomorrow and yesterday read the clock,
   * zone names and abbreviations are looked up (timezone_abbreviations), and no other word is known.
   */
  predicate OpenWord(s: string) {
    exists i :: 0 <= i < |s| && WordStart(s, i) && !FixedWord(WordOf(s[i..]))
  }

  function TextOf(ctx: Context, e: Expr): Option<string> {
    match e
    case ParamRef(n) => if ParamAt(ctx, n).JsText? then Some(ParamAt(ctx, n).text) else None
    case Const(l) => if l.TextLiteral? then Some(l.text) else None
    case _ => None
  }

  /** The expression is, or chooses, a text literal or parameter; if `open`, one with an open word. */
  predicate Supplies(ctx: Context, e: Expr, open: bool) {
    match e
    case Op(plain, _, l, r) => !plain && (Supplies(ctx, l, open) || Supplies(ctx, r, open))
    case Other(kind, args) => kind in CHOICES && exists i :: 0 <= i < |args| && Supplies(ctx, args[i], open)
    case _ => TextOf(ctx, e).Some? && (open ==> OpenWord(TextOf(ctx, e).value))
  }

  // ---------------------------------------------------------------- PostgreSQL: what a node looks at

  datatype Reach = Operands | Styled | Outside

  /** Printing a value, as a cast to text, a JSON function, `||` or an assignment to a text column does. */
  function Printed(k: Kind): Reach {
    match k
    case Untyped => Operands
    case Plain => Operands
    case Span => Outside   // IntervalStyle
    case _ => Styled       // TimeZone, DateStyle, bytea_output
  }

  function Worst(a: Reach, b: Reach): Reach {
    if a.Outside? || b.Outside? then Outside else if a.Styled? || b.Styled? then Styled else Operands
  }

  function AllPrinted(ctx: Context, kinds: map<string, Kind>, args: seq<Expr>): Reach {
    if args == [] then Operands else Worst(Printed(KindOf(ctx, kinds, args[0])), AllPrinted(ctx, kinds, args[1..]))
  }

  /** Types whose input function looks at its text only; those of dates read the clock for some, others a catalog. */
  const PURE_TYPES := ["text", "varchar", "bpchar", "int2", "int4", "int8", "numeric", "bool", "uuid", "json", "jsonb", "bytea"]

  /** Catalog functions that are immutable. */
  const PURE_FUNCTIONS := [
    "abs", "ceil", "floor", "round", "sign", "lower", "upper", "initcap", "length", "char_length", "octet_length",
    "trim", "btrim", "ltrim", "rtrim", "replace", "reverse", "repeat", "strpos", "left", "right", "md5"]

  /** Catalog functions that only print their arguments; whether they are immutable depends on what they print. */
  const PRINTING_FUNCTIONS := [
    "to_json", "to_jsonb", "json_build_object", "json_build_array", "jsonb_build_object", "jsonb_build_array", "concat"]

  const PURE_OPERATORS := ["=", "<>", "<", "<=", ">", ">=", "+", "-", "*", "/", "%", "->", "->>", "@>", "?"]

  predicate PureOperator(op: seq<string>) {
    |op| == 1 && op[0] in PURE_OPERATORS
  }

  /** One table is in scope, under its alias. */
  predicate Own(ctx: Context, fields: seq<Field>) {
    |fields| == 1 || (|fields| == 2 && FieldName(fields[0]) == ctx.alias)
  }

  /** Values are brought together, converted to one kind, perhaps with a text that takes on that kind. */
  function Meeting(k: Kind, uniform: bool, text: bool, open: bool): Reach {
    if !Moment(k) || (uniform && !text) then Operands else if open || (text && k.Span?) then Outside else Styled
  }

  /** No conversion is needed between these: they are the same, or days and numbers. */
  predicate Uniform(a: Kind, b: Kind) {
    a == b || !(a.Instant? || a.Composite? || a.Span? || b.Instant? || b.Composite? || b.Span?)
  }

  predicate AllOf(ctx: Context, kinds: map<string, Kind>, args: seq<Expr>, k: Kind) {
    forall i :: 0 <= i < |args| ==> KindOf(ctx, kinds, args[i]) == k || KindOf(ctx, kinds, args[i]).Untyped?
  }

  function NodeReach(ctx: Context, kinds: map<string, Kind>, e: Expr): Reach {
    match e
    case Special(_) => Outside
    case ColumnRef(fields) => if Own(ctx, fields) then Operands else Outside
    case ParamRef(_) => Operands
    case Const(_) => Operands
    case BoolExpr(_, _) => Operands
    case TypeCast(arg, name) => if CatalogName(name) in PURE_TYPES then Printed(KindOf(ctx, kinds, arg)) else Outside
    case FuncCall(name, args) =>
      if CatalogName(name) in PURE_FUNCTIONS then Operands
      else if CatalogName(name) in PRINTING_FUNCTIONS then AllPrinted(ctx, kinds, args)
      else Outside
    case Op(_, op, l, r) =>
      if op == ["||"] then Worst(Printed(KindOf(ctx, kinds, l)), Printed(KindOf(ctx, kinds, r)))
      else if PureOperator(op) then OperatorReach(ctx, kinds, op[0], l, r)
      else Outside
    case Other(kind, args) =>
      if kind in TESTS then Operands
      else if kind in CHOICES then
        var k := JoinAll(ctx, kinds, args);
        Meeting(k, AllOf(ctx, kinds, args, k), Supplies(ctx, e, false), Supplies(ctx, e, true))
      else Outside
  }

  /** A text added to a date or an instant is read as an interval, any other takes on the kind of its partner. */
  function OperatorReach(ctx: Context, kinds: map<string, Kind>, op: string, l: Expr, r: Expr): Reach {
    var a, b := KindOf(ctx, kinds, l), KindOf(ctx, kinds, r);
    Meeting(if op == "+" && Moment(Join(a, b)) then Span else Join(a, b), Uniform(a, b),
            Supplies(ctx, l, false) || Supplies(ctx, r, false), Supplies(ctx, l, true) || Supplies(ctx, r, true))
  }

  // ---------------------------------------------------------------- PostgreSQL: evaluation

  datatype Settings = Settings(timeZone: string, dateStyle: string, byteaOutput: string)

  /** `rest` is where everything else comes from: the clock, defaults, other relations, chance, other settings. */
  datatype Session = Session(settings: Settings, rest: (Expr, seq<Js>) -> Js)

  /** What operations compute, left open. */
  datatype Semantics = Semantics(local: (Expr, seq<Js>) -> Js, styled: (Expr, seq<Js>, Settings) -> Js)

  function Apply(reach: Reach, e: Expr, values: seq<Js>, sem: Semantics, s: Session): Js {
    match reach
    case Operands => sem.local(e, values)
    case Styled => sem.styled(e, values, s.settings)
    case Outside => s.rest(e, values)
  }

  function Children(e: Expr): (r: seq<Expr>)
    ensures forall i :: 0 <= i < |r| ==> r[i] < e
  {
    match e
    case Op(_, _, l, r) => [l, r]
    case BoolExpr(_, args) => args
    case TypeCast(arg, _) => [arg]
    case FuncCall(_, args) => args
    case Other(_, args) => args
    case _ => []
  }

  function Eval(ctx: Context, kinds: map<string, Kind>, row: Row, e: Expr, sem: Semantics, s: Session): Js {
    if e.ParamRef? || e.Const? || (e.ColumnRef? && Own(ctx, e.fields)) then SideValue(ctx, row, e)
    else
      var args := Children(e);
      Apply(NodeReach(ctx, kinds, e), e,
            seq(|args|, i requires 0 <= i < |args| => Eval(ctx, kinds, row, args[i], sem, s)), sem, s)
  }

  /** A value is converted where it is stored or sent back. */
  function Converted(ctx: Context, kinds: map<string, Kind>, row: Row, e: Expr, reach: Reach, sem: Semantics, s: Session): Js {
    var v := Eval(ctx, kinds, row, e, sem, s);
    if reach.Operands? then v else Apply(reach, e, [v], sem, s)
  }

  /** Storing a value in a column; returned rows are printed as JSON, with the reach of Printed. */
  function StoreReach(ctx: Context, kinds: map<string, Kind>, column: string, e: Expr): Reach {
    var from := KindOf(ctx, kinds, e);
    var to := if column in kinds then kinds[column] else Plain;
    if to.Date? || to.Instant? then Meeting(Join(from, to), from == to, Supplies(ctx, e, false), Supplies(ctx, e, true))
    else if to.Binary? && from.Binary? then Operands
    else Printed(from)
  }

  /** The executor's SET LOCAL. */
  function Pinned(s: Session): Session {
    s.(settings := Settings("UTC", "ISO, YMD", "hex"))
  }
}
