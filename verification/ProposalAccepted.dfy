/** Exactly which proposals the policy accepts: the clause as a list of equalities, the expressions node by node, the texts by their pieces. */
module ProposalAccepted {
  import opened Wrappers
  import opened Sets
  import opened Proposal

  // ---------------------------------------------------------------- the clause

  /** The operands of nested ANDs, from left to right. */
  function Conjuncts(e: Expr): seq<Expr> {
    match e
    case BoolExpr(AndExpr, args) => AllConjuncts(args)
    case _ => [e]
  }

  function AllConjuncts(args: seq<Expr>): seq<Expr> {
    if args == [] then [] else Conjuncts(args[0]) + AllConjuncts(args[1..])
  }

  /** A field of a column reference reads as this name; the star reads as "*". */
  predicate Reads(f: Field, name: string) {
    f == Name(name) || (f == Star && name == "*")
  }

  /** A reference to a column, bare or qualified with the table's alias. */
  predicate Names(ctx: Context, e: Expr, name: string) {
    && e.ColumnRef?
    && ((|e.fields| == 1 && Reads(e.fields[0], name))
        || (|e.fields| == 2 && Reads(e.fields[0], ctx.alias) && Reads(e.fields[1], name)))
  }

  /** A given parameter or a literal, and not NULL. */
  predicate Supplies(ctx: Context, e: Expr, v: Js) {
    && v != JsNull && v != JsUndefined
    && ((e.ParamRef? && 1 <= e.number <= |ctx.params| && ctx.params[e.number - 1] == v)
        || (e.Const? && !e.literal.NullLiteral?
            && v == match e.literal
                    case IntLiteral(n) => JsInt(n)
                    case NumericLiteral(t) => JsText(t)
                    case TextLiteral(t) => JsText(t)
                    case BoolLiteral(b) => JsBool(b)))
  }

  /** column = value, or value = column */
  predicate Binds(ctx: Context, e: Expr, name: string, v: Js) {
    && e.Op? && e.plain && e.op == ["="] && name in ctx.pk
    && ((Names(ctx, e.left, name) && Supplies(ctx, e.right, v)) || (Supplies(ctx, e.left, v) && Names(ctx, e.right, name)))
  }

  lemma ColumnIff(ctx: Context, e: Expr, name: string)
    ensures Column(ctx, e) == Some(name) <==> Names(ctx, e, name)
  {
  }

  lemma {:induction false} CollectAppend(ctx: Context, a: seq<Expr>, b: seq<Expr>, key: map<string, Js>)
    ensures CollectAll(ctx, a + b, key) ==
      if CollectAll(ctx, a, key).None? then None else CollectAll(ctx, b, CollectAll(ctx, a, key).value)
  {
    hide Collect;
    if a == [] {
      assert a + b == b;
    } else {
      assert (a + b)[1..] == a[1..] + b;
      if Collect(ctx, a[0], key).Some? { CollectAppend(ctx, a[1..], b, Collect(ctx, a[0], key).value); }
    }
  }

  lemma {:induction false} CollectFlat(ctx: Context, e: Expr, key: map<string, Js>)
    ensures Collect(ctx, e, key) == CollectAll(ctx, Conjuncts(e), key)
    ensures forall c :: c in Conjuncts(e) ==> !(c.BoolExpr? && c.boolOp.AndExpr?)
    decreases e, 1
  {
    match e
    case BoolExpr(AndExpr, args) => CollectAllFlat(ctx, args, key);
    case _ => assert [e][1..] == [];
  }

  lemma {:induction false} CollectAllFlat(ctx: Context, args: seq<Expr>, key: map<string, Js>)
    ensures CollectAll(ctx, args, key) == CollectAll(ctx, AllConjuncts(args), key)
    ensures forall c :: c in AllConjuncts(args) ==> !(c.BoolExpr? && c.boolOp.AndExpr?)
    decreases args, 0
  {
    if args != [] {
      CollectFlat(ctx, args[0], key);
      CollectAppend(ctx, Conjuncts(args[0]), AllConjuncts(args[1..]), key);
      CollectAllFlat(ctx, args[1..], if Collect(ctx, args[0], key).Some? then Collect(ctx, args[0], key).value else key);
    }
  }

  /** One equality adds the one column that it binds. */
  lemma CollectOne(ctx: Context, e: Expr, key: map<string, Js>, after: map<string, Js>)
    requires !(e.BoolExpr? && e.boolOp.AndExpr?)
    ensures Collect(ctx, e, key) == Some(after) <==>
      exists name, v :: Binds(ctx, e, name, v) && name !in key && after == key[name := v]
  {
    if e.Op? {
      forall name ensures Column(ctx, e.left) == Some(name) <==> Names(ctx, e.left, name) { ColumnIff(ctx, e.left, name); }
      forall name ensures Column(ctx, e.right) == Some(name) <==> Names(ctx, e.right, name) { ColumnIff(ctx, e.right, name); }
      hide Names, Column;
      if Collect(ctx, e, key) == Some(after) {
        var name := if Column(ctx, e.left).Some? then Column(ctx, e.left).value else Column(ctx, e.right).value;
        assert Binds(ctx, e, name, after[name]);
      }
      if name, v :| Binds(ctx, e, name, v) && name !in key && after == key[name := v] {
        ColumnSuppliesNothing(ctx, e.left, v);
      }
    }
  }

  lemma ColumnSuppliesNothing(ctx: Context, e: Expr, v: Js)
    ensures Supplies(ctx, e, v) ==> Column(ctx, e).None?
  {
  }

  ghost predicate Different(names: seq<string>) {
    forall i, j :: 0 <= i < j < |names| ==> names[i] != names[j]
  }

  /** Each equality binds its column to what `after` holds for it, and nothing else is new in `after`. */
  ghost predicate BindAll(ctx: Context, cs: seq<Expr>, names: seq<string>, before: map<string, Js>, after: map<string, Js>) {
    && |names| == |cs| && Different(names)
    && (forall n :: n in after <==> n in before || n in names)
    && (forall n :: n in before ==> n !in names && after[n] == before[n])
    && (forall i :: 0 <= i < |cs| ==> Binds(ctx, cs[i], names[i], after[names[i]]))
  }

  lemma {:induction false} CollectAllIff(ctx: Context, cs: seq<Expr>, before: map<string, Js>, after: map<string, Js>)
    requires forall c :: c in cs ==> !(c.BoolExpr? && c.boolOp.AndExpr?)
    ensures CollectAll(ctx, cs, before) == Some(after) <==> exists names :: BindAll(ctx, cs, names, before, after)
  {
    hide Binds, Collect;
    if cs == [] {
      if CollectAll(ctx, cs, before) == Some(after) { assert BindAll(ctx, cs, [], before, after); }
      if names :| BindAll(ctx, cs, names, before, after) { assert after == before; }
    } else {
      if CollectAll(ctx, cs, before) == Some(after) {
        var mid := Collect(ctx, cs[0], before).value;
        CollectOne(ctx, cs[0], before, mid);
        CollectAllIff(ctx, cs[1..], mid, after);
        var name, v :| Binds(ctx, cs[0], name, v) && name !in before && mid == before[name := v];
        var rest :| BindAll(ctx, cs[1..], rest, mid, after);
        BindMore(ctx, cs, name, rest, before, mid, after);
      }
      if names :| BindAll(ctx, cs, names, before, after) {
        var mid := before[names[0] := after[names[0]]];
        CollectOne(ctx, cs[0], before, mid);
        BindRest(ctx, cs, names, before, mid, after);
        CollectAllIff(ctx, cs[1..], mid, after);
      }
    }
  }

  lemma BindMore(ctx: Context, cs: seq<Expr>, name: string, rest: seq<string>, before: map<string, Js>, mid: map<string, Js>, after: map<string, Js>)
    requires cs != [] && name !in before && name in mid && mid == before[name := mid[name]] && Binds(ctx, cs[0], name, mid[name])
    requires BindAll(ctx, cs[1..], rest, mid, after)
    ensures BindAll(ctx, cs, [name] + rest, before, after)
  {
    hide Binds;
    var names := [name] + rest;
    forall i | 0 <= i < |cs| ensures Binds(ctx, cs[i], names[i], after[names[i]]) {
      if i > 0 { assert Binds(ctx, cs[1..][i - 1], rest[i - 1], after[rest[i - 1]]); }
    }
  }

  lemma BindRest(ctx: Context, cs: seq<Expr>, names: seq<string>, before: map<string, Js>, mid: map<string, Js>, after: map<string, Js>)
    requires cs != [] && BindAll(ctx, cs, names, before, after) && mid == before[names[0] := after[names[0]]]
    ensures BindAll(ctx, cs[1..], names[1..], mid, after)
  {
    hide Binds;
    assert forall i :: 0 <= i < |names[1..]| ==> names[1..][i] == names[i + 1] && names[1..][i] != names[0];
    forall n ensures n in after <==> n in mid || n in names[1..] {
      if n in names && n != names[0] {
        var i :| 0 <= i < |names| && names[i] == n;
        assert names[1..][i - 1] == n;
      }
    }
  }

  /** The key is collected exactly from a conjunction of equalities that bind different key columns, and holds what they bind. */
  lemma CollectIff(ctx: Context, e: Expr, key: map<string, Js>)
    ensures Collect(ctx, e, map[]) == Some(key) <==> exists names :: BindAll(ctx, Conjuncts(e), names, map[], key)
  {
    hide BindAll;
    CollectFlat(ctx, e, map[]);
    CollectAllIff(ctx, Conjuncts(e), map[], key);
  }

  // ---------------------------------------------------------------- the expressions

  /** A node of the tree, the tree itself among them. */
  predicate Inside(x: Expr, e: Expr) {
    || x == e
    || match e
       case Op(_, _, left, right) => Inside(x, left) || Inside(x, right)
       case BoolExpr(_, args) => exists i :: 0 <= i < |args| && Inside(x, args[i])
       case TypeCast(arg, _) => Inside(x, arg)
       case FuncCall(_, args) => exists i :: 0 <= i < |args| && Inside(x, args[i])
       case Other(_, args) => exists i :: 0 <= i < |args| && Inside(x, args[i])
       case _ => false
  }

  /** The name alone, or in pg_catalog. */
  predicate Called(parts: seq<string>, names: set<string>) {
    (|parts| == 1 && parts[0] in names) || (|parts| == 2 && parts[0] == "pg_catalog" && parts[1] in names)
  }

  ghost predicate Permitted(ctx: Context, x: Expr) {
    match x
    case Special(_) => false
    case TypeCast(_, name) => Called(name, {"text", "int4", "int8", "numeric", "bool", "uuid", "jsonb"})
    case FuncCall(name, _) =>
      Called(name, {"lower", "upper", "length", "trim", "btrim", "ltrim", "rtrim", "jsonb_build_object", "to_jsonb"})
    case ColumnRef(_) => exists name :: Names(ctx, x, name)
    case _ => true
  }

  lemma AllowedIff(ctx: Context, x: Expr)
    ensures Allowed(ctx, x) <==> Permitted(ctx, x)
  {
    if x.ColumnRef? {
      forall name ensures Column(ctx, x) == Some(name) <==> Names(ctx, x, name) { ColumnIff(ctx, x, name); }
      hide Names, Column;
      if Column(ctx, x).Some? { assert Names(ctx, x, Column(ctx, x).value); }
    }
  }

  /** An expression is accepted exactly when all of its nodes are. */
  lemma {:induction false} DeterministicIff(ctx: Context, e: Expr)
    ensures Deterministic(ctx, e) <==> forall x :: Inside(x, e) ==> Permitted(ctx, x)
    decreases e, 1
  {
    AllowedIff(ctx, e);
    hide Allowed, Permitted;
    match e
    case Op(_, _, left, right) =>
      DeterministicIff(ctx, left);
      DeterministicIff(ctx, right);
    case BoolExpr(_, args) => EachDeterministic(ctx, e, args);
    case TypeCast(arg, _) => DeterministicIff(ctx, arg);
    case FuncCall(_, args) => EachDeterministic(ctx, e, args);
    case Other(_, args) => EachDeterministic(ctx, e, args);
    case _ =>
  }

  lemma {:induction false} EachDeterministic(ctx: Context, e: Expr, args: seq<Expr>)
    requires forall i :: 0 <= i < |args| ==> args[i] < e
    ensures (forall i :: 0 <= i < |args| ==> Deterministic(ctx, args[i]))
        <==> (forall i, x :: 0 <= i < |args| && Inside(x, args[i]) ==> Permitted(ctx, x))
    decreases e, 0
  {
    hide Permitted, Inside, Deterministic;
    forall i | 0 <= i < |args| ensures Deterministic(ctx, args[i]) <==> forall x :: Inside(x, args[i]) ==> Permitted(ctx, x) {
      DeterministicIff(ctx, args[i]);
    }
  }

  // ---------------------------------------------------------------- dates and times

  predicate AllDigits(s: string) {
    forall i :: 0 <= i < |s| ==> s[i] in "0123456789"
  }

  /** yyyy-mm-dd */
  ghost predicate IsDate(s: string) {
    exists y, m, d :: |y| == 4 && |m| == 2 && |d| == 2 && AllDigits(y + m + d) && s == y + "-" + m + "-" + d
  }

  /** Nothing, Z, or a signed offset: hours, and minutes with or without a colon. */
  ghost predicate IsZone(s: string) {
    s == "" || s == "Z" || IsOffset(s)
  }

  ghost predicate IsOffset(s: string) {
    exists sign, h, m :: Offset(s, sign, h, m)
  }

  predicate Offset(s: string, sign: string, h: string, m: string) {
    && (sign == "+" || sign == "-") && |h| == 2 && |m| == 2 && AllDigits(h) && AllDigits(m)
    && (s == sign + h || s == sign + h + m || s == sign + h + ":" + m)
  }

  /** Nothing, or seconds, which may have a fraction. */
  ghost predicate IsSeconds(s: string) {
    s == "" || exists ss, fraction :: |ss| == 2 && AllDigits(ss + fraction) && (s == ":" + ss || (fraction != "" && s == ":" + ss + "." + fraction))
  }

  /** hh:mm, perhaps seconds, perhaps a zone */
  ghost predicate IsTime(s: string) {
    exists h, m, seconds, zone ::
      |h| == 2 && |m| == 2 && AllDigits(h + m) && IsSeconds(seconds) && IsZone(zone) && s == h + ":" + m + seconds + zone
  }

  lemma DigitIff(c: char)
    ensures '0' <= c <= '9' <==> c in "0123456789"
  {
  }

  lemma DigitsIff(s: string, n: nat)
    ensures Digits(s, n) <==> |s| >= n && AllDigits(s[..n])
  {
    if |s| >= n {
      forall i | 0 <= i < n ensures '0' <= s[i] <= '9' <==> s[..n][i] in "0123456789" { DigitIff(s[i]); }
      hide Digits;
      assert Digits(s, n) <==> forall i :: 0 <= i < n ==> '0' <= s[i] <= '9' by { DigitsMeans(s, n); }
    }
  }

  lemma DigitsMeans(s: string, n: nat)
    requires |s| >= n
    ensures Digits(s, n) <==> forall i :: 0 <= i < n ==> '0' <= s[i] <= '9'
  {
  }

  lemma AllDigitsSplit(a: string, b: string)
    ensures AllDigits(a + b) <==> AllDigits(a) && AllDigits(b)
  {
    if AllDigits(a + b) {
      forall i | 0 <= i < |a| ensures a[i] in "0123456789" { assert (a + b)[i] == a[i]; }
      forall i | 0 <= i < |b| ensures b[i] in "0123456789" { assert (a + b)[|a| + i] == b[i]; }
    }
  }

  lemma ZoneIff(s: string)
    ensures Zone(s) <==> IsZone(s)
  {
    hide AllDigits, Digits;
    if Zone(s) && s != "" && s != "Z" {
      var sign, h := s[..1], s[1..3];
      DigitsIff(s[1..], 2);
      assert s[1..][..2] == h;
      var m := if |s| == 3 then "00" else s[|s| - 2..];
      if |s| > 3 { DigitsIff(m, 2); assert m[..2] == m; } else { TwoZeros(); }
      assert |s| == 5 ==> s[3..] == m;
      assert |s| == 6 ==> s[4..] == m;
      assert s == if |s| == 3 then sign + h else if |s| == 5 then sign + h + m else sign + h + ":" + m;
      assert sign == [s[0]];
      assert Offset(s, sign, h, m);
    }
    if IsOffset(s) {
      var sign, h, m :| Offset(s, sign, h, m);
      DigitsIff(s[1..], 2);
      assert s[1..][..2] == h;
      DigitsIff(m, 2);
      assert m[..2] == m;
      assert s[0] == sign[0] && (s[0] == '+' || s[0] == '-');
      if s == sign + h {
        assert Zone(s);
      } else if s == sign + h + m {
        assert s[3..] == m;
        assert Zone(s);
      } else {
        assert s == sign + h + ":" + m;
        assert s[3] == ':' && s[4..] == m;
        assert Zone(s);
      }
    }
  }

  lemma TwoZeros()
    ensures AllDigits("00")
  {
  }

  lemma {:induction false} SkipDigitsSplits(s: string) returns (run: string)
    ensures s == run + SkipDigits(s) && AllDigits(run)
    ensures SkipDigits(s) != "" ==> !('0' <= SkipDigits(s)[0] <= '9')
  {
    if s != "" && '0' <= s[0] <= '9' {
      DigitIff(s[0]);
      var more := SkipDigitsSplits(s[1..]);
      run := [s[0]] + more;
    } else {
      run := "";
    }
  }

  lemma {:induction false} SkipDigitsOf(run: string, rest: string)
    requires AllDigits(run) && (rest != "" ==> !('0' <= rest[0] <= '9'))
    ensures SkipDigits(run + rest) == rest
  {
    if run == "" {
      assert run + rest == rest;
    } else {
      DigitIff(run[0]);
      assert (run + rest)[1..] == run[1..] + rest;
      SkipDigitsOf(run[1..], rest);
    }
  }

  lemma ZoneStarts(z: string)
    requires IsZone(z) && z != ""
    ensures z[0] == 'Z' || z[0] == '+' || z[0] == '-'
  {
  }

  /** Seconds, if any, and then the zone. */
  ghost predicate IsTail(s: string) {
    exists seconds, zone :: IsSeconds(seconds) && IsZone(zone) && s == seconds + zone
  }

  lemma SecondsIff(s: string)
    ensures Seconds(s) <==> IsTail(s)
  {
    if Seconds(s) { SecondsTail(s); }
    if IsTail(s) { TailSeconds(s); }
  }

  lemma SecondsTail(s: string)
    requires Seconds(s)
    ensures IsTail(s)
  {
    hide AllDigits, Digits, IsZone, Zone, SkipDigits;
    if Zone(s) {
      ZoneIff(s);
      assert IsSeconds("") && s == "" + s;
    } else {
      var ss := s[1..3];
      DigitsIff(s[1..], 2);
      assert s[1..][..2] == ss;
      if Zone(s[3..]) {
        ZoneIff(s[3..]);
        assert ss + "" == ss;
        assert IsSeconds(":" + ss) && s == ":" + ss + s[3..];
      } else {
        DigitsIff(s[4..], 1);
        ZoneIff(SkipDigits(s[4..]));
        var fraction := SkipDigitsSplits(s[4..]);
        FirstDigit(s[4..], fraction);
        AllDigitsSplit(ss, fraction);
        assert s == ":" + ss + "." + fraction + SkipDigits(s[4..]);
        assert IsSeconds(":" + ss + "." + fraction);
      }
    }
  }

  lemma FirstDigit(s: string, run: string)
    requires |s| >= 1 && AllDigits(s[..1]) && s == run + SkipDigits(s) && (SkipDigits(s) != "" ==> !('0' <= SkipDigits(s)[0] <= '9'))
    ensures run != ""
  {
    DigitIff(s[0]);
    assert s[..1][0] == s[0];
  }

  lemma TailSeconds(s: string)
    requires IsTail(s)
    ensures Seconds(s)
  {
    hide AllDigits, Digits, IsZone, Zone, SkipDigits;
    var seconds, zone :| IsSeconds(seconds) && IsZone(zone) && s == seconds + zone;
    ZoneIff(zone);
    if seconds == "" {
      assert s == zone;
    } else {
      var ss, fraction :| |ss| == 2 && AllDigits(ss + fraction) && (seconds == ":" + ss || (fraction != "" && seconds == ":" + ss + "." + fraction));
      AllDigitsSplit(ss, fraction);
      DigitsIff(s[1..], 2);
      assert s[1..][..2] == ss;
      if seconds == ":" + ss {
        assert s[3..] == zone;
      } else {
        assert s[3] == '.' && s[4..] == fraction + zone;
        if zone != "" { ZoneStarts(zone); }
        SkipDigitsOf(fraction, zone);
        FirstDigits(fraction, zone);
      }
    }
  }

  lemma FirstDigits(fraction: string, zone: string)
    requires fraction != "" && AllDigits(fraction)
    ensures Digits(fraction + zone, 1)
  {
    DigitIff(fraction[0]);
  }

  predicate DateFirst(s: string) {
    |s| >= 10 && Digits(s, 4) && s[4] == '-' && Digits(s[5..], 2) && s[7] == '-' && Digits(s[8..], 2)
  }

  lemma DateIff(s: string)
    ensures DateFirst(s) <==> |s| >= 10 && IsDate(s[..10])
    ensures IsDate(s) ==> |s| == 10
  {
    if DateFirst(s) { DateHead(s); }
    if |s| >= 10 && IsDate(s[..10]) {
      var y, m, d :| |y| == 4 && |m| == 2 && |d| == 2 && AllDigits(y + m + d) && s[..10] == y + "-" + m + "-" + d;
      DateTail(s, y, m, d);
    }
  }

  lemma DateHead(s: string)
    requires DateFirst(s)
    ensures IsDate(s[..10])
  {
    hide AllDigits, Digits;
    DigitsIff(s, 4);
    DigitsIff(s[5..], 2);
    DigitsIff(s[8..], 2);
    var y, m, d := s[..4], s[5..7], s[8..10];
    assert s[5..][..2] == m && s[8..][..2] == d;
    AllDigitsSplit(y + m, d);
    AllDigitsSplit(y, m);
    assert s[..10] == y + "-" + m + "-" + d;
  }

  lemma DateTail(s: string, y: string, m: string, d: string)
    requires |y| == 4 && |m| == 2 && |d| == 2 && AllDigits(y + m + d) && |s| >= 10 && s[..10] == y + "-" + m + "-" + d
    ensures DateFirst(s)
  {
    hide AllDigits, Digits;
    var t, rest := s[..10], s[10..];
    assert s == y + ("-" + m + "-" + d + rest) && s[5..] == m + ("-" + d + rest) && s[8..] == d + rest;
    AllDigitsSplit(y + m, d);
    AllDigitsSplit(y, m);
    DigitsStart(y, "-" + m + "-" + d + rest);
    DigitsStart(m, "-" + d + rest);
    DigitsStart(d, rest);
  }

  lemma DigitsStart(a: string, rest: string)
    requires AllDigits(a)
    ensures Digits(a + rest, |a|)
  {
    DigitsIff(a + rest, |a|);
    assert (a + rest)[..|a|] == a;
  }

  predicate TimeFirst(t: string) {
    |t| >= 5 && Digits(t, 2) && t[2] == ':' && Digits(t[3..], 2)
  }

  lemma TimeIff(t: string)
    ensures IsTime(t) <==> TimeFirst(t) && Seconds(t[5..])
  {
    if TimeFirst(t) && Seconds(t[5..]) { TimeHead(t); }
    if IsTime(t) {
      var h, m, seconds, zone :|
        |h| == 2 && |m| == 2 && AllDigits(h + m) && IsSeconds(seconds) && IsZone(zone) && t == h + ":" + m + seconds + zone;
      TimeTail(t, h, m, seconds, zone);
    }
  }

  lemma TimeHead(t: string)
    requires TimeFirst(t) && Seconds(t[5..])
    ensures IsTime(t)
  {
    hide AllDigits, Digits, IsSeconds, IsZone, Seconds;
    SecondsIff(t[5..]);
    DigitsIff(t, 2);
    DigitsIff(t[3..], 2);
    var h, m := t[..2], t[3..5];
    assert t[3..][..2] == m;
    AllDigitsSplit(h, m);
    var seconds, zone :| IsSeconds(seconds) && IsZone(zone) && t[5..] == seconds + zone;
    assert t == h + ":" + m + seconds + zone;
  }

  lemma TimeTail(t: string, h: string, m: string, seconds: string, zone: string)
    requires |h| == 2 && |m| == 2 && AllDigits(h + m) && IsSeconds(seconds) && IsZone(zone) && t == h + ":" + m + seconds + zone
    ensures TimeFirst(t) && Seconds(t[5..])
  {
    hide AllDigits, Digits, IsSeconds, IsZone, Seconds;
    var tail := seconds + zone;
    assert t == h + (":" + m + tail) && t[3..] == m + tail && t[5..] == tail;
    AllDigitsSplit(h, m);
    DigitsStart(h, ":" + m + tail);
    DigitsStart(m, tail);
    SecondsIff(tail);
  }

  /** A text that a temporal column may be set to is a date, or a date, a blank or T, and a time. */
  lemma TemporalTextIff(s: string)
    ensures TemporalText(s) <==> IsDate(s) || exists d, sep, t :: IsDate(d) && sep in {" ", "T"} && IsTime(t) && s == d + sep + t
  {
    hide IsDate, IsTime, Digits, Seconds;
    DateIff(s);
    if IsDate(s) { assert s[..10] == s; }
    if TemporalText(s) {
      if |s| > 10 {
        TimeIff(s[11..]);
        assert s[11..][3..] == s[14..] && s[11..][5..] == s[16..];
        assert s[10..11] == [s[10]] && IsTime(s[11..]) && IsDate(s[..10]);
      }
      assert s[..10] == if |s| == 10 then s else s[..10];
      if |s| > 10 { assert s == s[..10] + s[10..11] + s[11..]; }
    }
    if d, sep, t :| IsDate(d) && sep in {" ", "T"} && IsTime(t) && s == d + sep + t {
      DateIff(d);
      TimeIff(t);
      assert |s| >= 16 && s[..10] == d && s[11..] == t && s[10] == sep[0];
      assert s[13] == t[2] && t[3..] == s[14..] && t[5..] == s[16..];
    }
  }

  // ---------------------------------------------------------------- the whole policy

  /** A temporal column may get another one, NULL, or a text of that form. */
  ghost predicate Settled(ctx: Context, e: Expr) {
    || (exists name :: Names(ctx, e, name) && name in ctx.temporal)
    || (exists v :: GivenOrNull(ctx, e, v) && (v == JsNull || (v.JsText? && TemporalText(v.text))))
  }

  /** A given parameter, NULL, or a text. */
  predicate GivenOrNull(ctx: Context, e: Expr, v: Js) {
    || (e.ParamRef? && 1 <= e.number <= |ctx.params| && ctx.params[e.number - 1] == v)
    || (e == Const(NullLiteral) && v == JsNull)
    || (e.Const? && e.literal.TextLiteral? && v == JsText(e.literal.text))
  }

  lemma SettledIff(ctx: Context, e: Expr)
    ensures TemporalValue(ctx, e) <==> Settled(ctx, e)
  {
    forall name ensures Column(ctx, e) == Some(name) <==> Names(ctx, e, name) { ColumnIff(ctx, e, name); }
    hide Names, Column, TemporalText;
    if TemporalValue(ctx, e) && !(Column(ctx, e).Some? && Column(ctx, e).value in ctx.temporal) {
      var v := if e.ParamRef? then ParamAt(ctx, e.number) else if e.literal.NullLiteral? then JsNull else JsText(e.literal.text);
      assert GivenOrNull(ctx, e, v);
    }
    if Column(ctx, e).Some? { assert Names(ctx, e, Column(ctx, e).value); }
  }

  ghost predicate AllPermitted(ctx: Context, m: Mutation) {
    && (forall i, x :: 0 <= i < |m.targets| && Inside(x, m.targets[i].value) ==> Permitted(ctx, x))
    && (forall x :: m.clause.Some? && Inside(x, m.clause.value) ==> Permitted(ctx, x))
    && (forall i, x :: 0 <= i < |m.returning| && Inside(x, m.returning[i]) ==> Permitted(ctx, x))
  }

  /**
   * The policy accepts a mutation exactly when it is of this table alone, all its nodes are permitted, it sets no key column and
   * only settled values to temporal ones, and its clause is a conjunction of equalities that bind each key column once; and then
   * the key is what they bind.
   */
  lemma AcceptedIff(m: Mutation, params: seq<Js>, table: string, pk: seq<string>, temporal: seq<string>, key: map<string, Js>)
    requires Distinct(pk)
    ensures GatedProposal(m, params, table, pk, temporal) == Some(key) <==>
      var ctx := Context(table, if m.alias.Some? then m.alias.value else table, params, pk, temporal);
      && m.relation == table && !m.joins && AllPermitted(ctx, m)
      && (forall i :: 0 <= i < |m.targets| ==> m.targets[i].column !in pk && (m.targets[i].column in temporal ==> Settled(ctx, m.targets[i].value)))
      && m.clause.Some? && (forall n :: n in pk ==> n in key) && exists names :: BindAll(ctx, Conjuncts(m.clause.value), names, map[], key)
  {
    hide GatedProposal, AllPermitted, Settled, Conjuncts, BindAll, Distinct, TemporalValue, MutationDeterministic, Collect;
    var ctx := Context(table, if m.alias.Some? then m.alias.value else table, params, pk, temporal);
    GatedIff(m, params, table, pk, temporal, key);
    AllPermittedIff(ctx, m);
    forall i | 0 <= i < |m.targets| ensures TemporalValue(ctx, m.targets[i].value) <==> Settled(ctx, m.targets[i].value) {
      SettledIff(ctx, m.targets[i].value);
    }
    if m.clause.Some? {
      CollectIff(ctx, m.clause.value, key);
      if Collect(ctx, m.clause.value, map[]) == Some(key) { KeyCounts(ctx, m.clause.value, key); }
    }
  }

  lemma GatedIff(m: Mutation, params: seq<Js>, table: string, pk: seq<string>, temporal: seq<string>, key: map<string, Js>)
    ensures GatedProposal(m, params, table, pk, temporal) == Some(key) <==>
      var ctx := Context(table, if m.alias.Some? then m.alias.value else table, params, pk, temporal);
      && m.relation == table && !m.joins && MutationDeterministic(ctx, m)
      && (forall i :: 0 <= i < |m.targets| ==> m.targets[i].column !in pk && (m.targets[i].column in temporal ==> TemporalValue(ctx, m.targets[i].value)))
      && m.clause.Some? && Collect(ctx, m.clause.value, map[]) == Some(key) && |key| == |pk|
  {
    hide MutationDeterministic, TemporalValue, Collect;
  }

  lemma KeyCounts(ctx: Context, e: Expr, key: map<string, Js>)
    requires Distinct(ctx.pk) && Collect(ctx, e, map[]) == Some(key)
    ensures |key| == |ctx.pk| <==> forall n :: n in ctx.pk ==> n in key
  {
    hide Collect, BindAll, Conjuncts, Distinct;
    CollectIff(ctx, e, key);
    var names :| BindAll(ctx, Conjuncts(e), names, map[], key);
    BoundAreKeys(ctx, Conjuncts(e), names, key);
    var all := set n | n in ctx.pk;
    DistinctCount(ctx.pk);
    assert key.Keys <= all && |key.Keys| == |key|;
    if |key| == |ctx.pk| { SubsetOfSameSize(key.Keys, all); }
    if forall n :: n in ctx.pk ==> n in key { assert key.Keys == all; }
  }

  lemma BoundAreKeys(ctx: Context, cs: seq<Expr>, names: seq<string>, key: map<string, Js>)
    requires BindAll(ctx, cs, names, map[], key)
    ensures forall n :: n in key ==> n in ctx.pk
  {
    hide Names, Supplies;
    forall n | n in key ensures n in ctx.pk {
      var i :| 0 <= i < |names| && names[i] == n;
      assert Binds(ctx, cs[i], n, key[n]);
    }
  }

  lemma AllPermittedIff(ctx: Context, m: Mutation)
    ensures MutationDeterministic(ctx, m) <==> AllPermitted(ctx, m)
  {
    hide Deterministic, Inside, Permitted;
    forall i | 0 <= i < |m.targets|
      ensures Deterministic(ctx, m.targets[i].value) <==> forall x :: Inside(x, m.targets[i].value) ==> Permitted(ctx, x)
    {
      DeterministicIff(ctx, m.targets[i].value);
    }
    forall i | 0 <= i < |m.returning|
      ensures Deterministic(ctx, m.returning[i]) <==> forall x :: Inside(x, m.returning[i]) ==> Permitted(ctx, x)
    {
      DeterministicIff(ctx, m.returning[i]);
    }
    if m.clause.Some? { DeterministicIff(ctx, m.clause.value); }
  }
}
