/**
The canonical text of a JavaScript value and the action hash over it (apps/server/approvals/gate-policy.ts):
object members sorted by key in code unit order, everything else as JSON.stringify prints it.
*/
module Canonical {
  import opened Wrappers
  import opened Json
  import Lex

  /** SHA-256, injective on the texts that occur. */
  datatype Hash = Sha256(of: Text)

  datatype Refusal = InvalidInput

  // ---------------------------------------------------------------- sorting by key

  /** Code units as characters, skipping the range that Dafny's characters skip, so that the order is the same. */
  function Chars(t: Text): (s: string)
    ensures |s| == |t|
  {
    if t == [] then "" else [if t[0] < 0xd800 then t[0] as char else (t[0] as int + 0x800) as char] + Chars(t[1..])
  }

  lemma {:induction false} CharsInjective(a: Text, b: Text)
    requires Chars(a) == Chars(b)
    ensures a == b
  {
    if a != [] {
      assert Chars(a)[1..] == Chars(a[1..]) && Chars(b)[1..] == Chars(b[1..]);
      CharsInjective(a[1..], b[1..]);
      assert Chars(a)[0] == Chars(b)[0];
      assert a == [a[0]] + a[1..] && b == [b[0]] + b[1..];
    }
  }

  predicate Before(a: Text, b: Text) {
    Lex.Less(Chars(a), Chars(b))
  }

  function InsertByKey<T>(p: Pair<T>, ps: seq<Pair<T>>): seq<Pair<T>> {
    if ps == [] || Before(p.key, ps[0].key) then [p] + ps else [ps[0]] + InsertByKey(p, ps[1..])
  }

  function SortByKey<T>(ps: seq<Pair<T>>): seq<Pair<T>> {
    if ps == [] then [] else InsertByKey(ps[0], SortByKey(ps[1..]))
  }

  predicate UniqueKeys<T>(ps: seq<Pair<T>>) {
    forall i, j :: 0 <= i < j < |ps| ==> ps[i].key != ps[j].key
  }

  ghost predicate SortedByKey<T>(ps: seq<Pair<T>>) {
    forall i, j :: 0 <= i < j < |ps| ==> Before(ps[i].key, ps[j].key)
  }

  // ---------------------------------------------------------------- canonical

  predicate HasUndefined(v: Value) {
    match v
    case Undefined => true
    case Array(items) => exists i :: 0 <= i < |items| && HasUndefined(items[i])
    case Object(members) => exists i :: 0 <= i < |members| && HasUndefined(members[i].value)
    case _ => false
  }

  /** Members are printed before they are sorted here; sorting looks at keys only. */
  function Canonical(v: Value): Result<Text, Refusal> {
    match v
    case Undefined => Err(InvalidInput)
    case Array(items) =>
      var texts := CanonicalItems(items);
      if texts.Err? then Err(texts.error) else Ok([OPEN_BRACKET] + Join(texts.value) + [CLOSE_BRACKET])
    case Object(members) =>
      var texts := CanonicalMembers(members);
      if texts.Err? then Err(texts.error) else Ok([OPEN_BRACE] + Join(PrintPairs(SortByKey(texts.value))) + [CLOSE_BRACE])
    case _ => Ok(Print(v))
  }

  function CanonicalItems(items: seq<Value>): (r: Result<seq<Text>, Refusal>)
    ensures r.Ok? ==> |r.value| == |items|
  {
    if items == [] then Ok([])
    else
      var first, more := Canonical(items[0]), CanonicalItems(items[1..]);
      if first.Err? then Err(first.error) else if more.Err? then Err(more.error) else Ok([first.value] + more.value)
  }

  function CanonicalMembers(members: seq<Pair<Value>>): (r: Result<seq<Pair<Text>>, Refusal>)
    ensures r.Ok? ==> |r.value| == |members|
  {
    if members == [] then Ok([])
    else
      var first, more := Canonical(members[0].value), CanonicalMembers(members[1..]);
      if first.Err? then Err(first.error) else if more.Err? then Err(more.error)
      else Ok([Pair(members[0].key, first.value)] + more.value)
  }

  function PrintPairs(ps: seq<Pair<Text>>): seq<Text> {
    if ps == [] then [] else [PrintMember(ps[0].key, ps[0].value)] + PrintPairs(ps[1..])
  }

  // ---------------------------------------------------------------- what it means

  /** The tree that the canonical text stands for: members in key order, numbers as they read back. */
  function Norm(v: Value): Value {
    match v
    case Num(n) => if n.NonFinite? then Null else if n.NegativeZero? then Num(Finite(ZERO_TEXT)) else v
    case Array(items) => Array(NormItems(items))
    case Object(members) => Object(SortByKey(NormMembers(members)))
    case _ => v
  }

  function NormItems(items: seq<Value>): (r: seq<Value>)
    ensures |r| == |items| && forall i :: 0 <= i < |items| ==> r[i] == Norm(items[i])
  {
    if items == [] then [] else [Norm(items[0])] + NormItems(items[1..])
  }

  function NormMembers(members: seq<Pair<Value>>): (r: seq<Pair<Value>>)
    ensures |r| == |members| && forall i :: 0 <= i < |members| ==> r[i] == Pair(members[i].key, Norm(members[i].value))
  {
    if members == [] then [] else [Pair(members[0].key, Norm(members[0].value))] + NormMembers(members[1..])
  }

  /** What JavaScript guarantees of its values: numbers print as numbers, and keys of one object differ. */
  predicate WellFormed(v: Value) {
    match v
    case Num(n) => n.Finite? ==> NumberText(n.text)
    case Array(items) => forall i :: 0 <= i < |items| ==> WellFormed(items[i])
    case Object(members) => UniqueKeys(members) && forall i :: 0 <= i < |members| ==> WellFormed(members[i].value)
    case _ => true
  }

  // ---------------------------------------------------------------- sorting does not look at values

  /** Two lists whose pairs belong together, one by one. */
  ghost predicate Alike(texts: seq<Pair<Text>>, values: seq<Pair<Value>>) {
    && |texts| == |values|
    && forall i :: 0 <= i < |texts| ==> texts[i].key == values[i].key && texts[i].value == Print(values[i].value)
  }

  lemma {:induction false} InsertAlike(p: Pair<Text>, ps: seq<Pair<Text>>, q: Pair<Value>, qs: seq<Pair<Value>>)
    requires p.key == q.key && p.value == Print(q.value) && Alike(ps, qs)
    ensures Alike(InsertByKey(p, ps), InsertByKey(q, qs))
  {
    hide Before, Print;
    if ps != [] && !Before(p.key, ps[0].key) { InsertAlike(p, ps[1..], q, qs[1..]); }
  }

  lemma {:induction false} SortAlike(ps: seq<Pair<Text>>, qs: seq<Pair<Value>>)
    requires Alike(ps, qs)
    ensures Alike(SortByKey(ps), SortByKey(qs))
  {
    hide Before, Print, InsertByKey;
    if ps != [] {
      SortAlike(ps[1..], qs[1..]);
      InsertAlike(ps[0], SortByKey(ps[1..]), qs[0], SortByKey(qs[1..]));
    }
  }

  lemma {:induction false} AlikePrints(ps: seq<Pair<Text>>, qs: seq<Pair<Value>>)
    requires Alike(ps, qs)
    ensures PrintPairs(ps) == PrintMembers(qs)
  {
    hide Print, PrintMember;
    if ps != [] { AlikePrints(ps[1..], qs[1..]); }
  }

  // ---------------------------------------------------------------- canonical text is the text of the normal form

  lemma {:induction false} CanonicalPrintsNorm(v: Value)
    ensures Canonical(v).Err? <==> HasUndefined(v)
    ensures Canonical(v).Ok? ==> Canonical(v).value == Print(Norm(v))
    decreases v, 0
  {
    hide Before, SortByKey, Join;
    match v
    case Array(items) =>
      CanonicalItemsPrint(items);
      if Canonical(v).Ok? { assert CanonicalItems(items).value == PrintItems(NormItems(items)); }
    case Object(members) =>
      CanonicalMembersAlike(members);
      if Canonical(v).Ok? {
        SortAlike(CanonicalMembers(members).value, NormMembers(members));
        AlikePrints(SortByKey(CanonicalMembers(members).value), SortByKey(NormMembers(members)));
      }
    case _ =>
  }

  lemma {:induction false} CanonicalItemsPrint(items: seq<Value>)
    ensures CanonicalItems(items).Err? <==> exists i :: 0 <= i < |items| && HasUndefined(items[i])
    ensures CanonicalItems(items).Ok? ==> CanonicalItems(items).value == PrintItems(NormItems(items))
    decreases items, 1
  {
    hide Canonical, Print, Norm, HasUndefined;
    if items != [] {
      CanonicalPrintsNorm(items[0]);
      CanonicalItemsPrint(items[1..]);
      assert NormItems(items)[1..] == NormItems(items[1..]);
      if CanonicalItems(items[1..]).Err? {
        var i :| 0 <= i < |items[1..]| && HasUndefined(items[1..][i]);
        assert HasUndefined(items[i + 1]);
      } else {
        assert forall i :: 1 <= i < |items| ==> !HasUndefined(items[i]) by {
          forall i | 1 <= i < |items| ensures !HasUndefined(items[i]) { assert items[i] == items[1..][i - 1]; }
        }
      }
    }
  }

  lemma {:induction false} CanonicalMembersAlike(members: seq<Pair<Value>>)
    ensures CanonicalMembers(members).Err? <==> exists i :: 0 <= i < |members| && HasUndefined(members[i].value)
    ensures CanonicalMembers(members).Ok? ==> Alike(CanonicalMembers(members).value, NormMembers(members))
    decreases members, 1
  {
    hide Canonical, Print, Norm, HasUndefined;
    if members != [] {
      CanonicalPrintsNorm(members[0].value);
      CanonicalMembersAlike(members[1..]);
      assert NormMembers(members)[1..] == NormMembers(members[1..]);
      if CanonicalMembers(members[1..]).Err? {
        var i :| 0 <= i < |members[1..]| && HasUndefined(members[1..][i].value);
        assert HasUndefined(members[i + 1].value);
      } else {
        assert forall i :: 1 <= i < |members| ==> !HasUndefined(members[i].value) by {
          forall i | 1 <= i < |members| ensures !HasUndefined(members[i].value) { assert members[i] == members[1..][i - 1]; }
        }
      }
    }
  }

  // ---------------------------------------------------------------- sorted lists

  lemma {:induction false} InsertKeeps<T>(p: Pair<T>, ps: seq<Pair<T>>)
    ensures multiset(InsertByKey(p, ps)) == multiset([p] + ps)
  {
    if ps != [] && !Before(p.key, ps[0].key) {
      InsertKeeps(p, ps[1..]);
      assert ps == [ps[0]] + ps[1..];
    }
  }

  lemma {:induction false} SortKeeps<T>(ps: seq<Pair<T>>)
    ensures multiset(SortByKey(ps)) == multiset(ps)
  {
    if ps != [] {
      SortKeeps(ps[1..]);
      InsertKeeps(ps[0], SortByKey(ps[1..]));
      assert ps == [ps[0]] + ps[1..];
    }
  }

  lemma {:induction false} SortHas<T>(ps: seq<Pair<T>>, p: Pair<T>)
    ensures p in SortByKey(ps) <==> p in ps
  {
    SortKeeps(ps);
    assert p in multiset(SortByKey(ps)) <==> p in multiset(ps);
  }

  lemma {:induction false} InsertSorted<T>(p: Pair<T>, ps: seq<Pair<T>>)
    requires SortedByKey(ps) && forall i :: 0 <= i < |ps| ==> ps[i].key != p.key
    ensures SortedByKey(InsertByKey(p, ps))
  {
    if ps != [] {
      var rest := InsertByKey(p, ps[1..]);
      if Before(p.key, ps[0].key) {
        forall i | 0 < i < |ps| ensures Before(p.key, ps[i].key) { Lex.Transitive(Chars(p.key), Chars(ps[0].key), Chars(ps[i].key)); }
      } else {
        InsertSorted(p, ps[1..]);
        InsertKeeps(p, ps[1..]);
        if Chars(p.key) == Chars(ps[0].key) { CharsInjective(p.key, ps[0].key); }
        Lex.Total(Chars(p.key), Chars(ps[0].key));
        forall i | 0 <= i < |rest| ensures Before(ps[0].key, rest[i].key) {
          assert rest[i] in multiset(rest) && rest[i] in [p] + ps[1..];
        }
      }
    }
  }

  lemma {:induction false} SortSorts<T>(ps: seq<Pair<T>>)
    requires UniqueKeys(ps)
    ensures SortedByKey(SortByKey(ps))
  {
    if ps != [] {
      SortSorts(ps[1..]);
      forall i | 0 <= i < |SortByKey(ps[1..])| ensures SortByKey(ps[1..])[i].key != ps[0].key {
        SortHas(ps[1..], SortByKey(ps[1..])[i]);
      }
      InsertSorted(ps[0], SortByKey(ps[1..]));
    }
  }

  lemma SortedHead<T>(ps: seq<Pair<T>>, qs: seq<Pair<T>>)
    requires SortedByKey(ps) && SortedByKey(qs) && multiset(ps) == multiset(qs) && ps != [] && qs != []
    ensures ps[0] == qs[0]
  {
    hide Before;
    assert ps[0] in multiset(qs) && qs[0] in multiset(ps);
    var i :| 0 <= i < |qs| && qs[i] == ps[0];
    var j :| 0 <= j < |ps| && ps[j] == qs[0];
    if i > 0 && j > 0 { NotBothBefore(ps[0].key, qs[0].key); }
  }

  lemma NotBothBefore(a: Text, b: Text)
    ensures !(Before(a, b) && Before(b, a))
  {
    Lex.NotBoth(Chars(a), Chars(b));
  }

  /** A sorted list is determined by what it holds. */
  lemma {:induction false} SortedIsUnique<T>(ps: seq<Pair<T>>, qs: seq<Pair<T>>)
    requires SortedByKey(ps) && SortedByKey(qs) && multiset(ps) == multiset(qs)
    ensures ps == qs
  {
    hide Before;
    assert |multiset(ps)| == |ps| && |multiset(qs)| == |qs|;
    if ps != [] {
      SortedHead(ps, qs);
      assert ps == [ps[0]] + ps[1..] && qs == [qs[0]] + qs[1..];
      assert multiset(ps[1..]) == multiset(ps) - multiset{ps[0]};
      assert multiset(qs[1..]) == multiset(qs) - multiset{qs[0]};
      SortedIsUnique(ps[1..], qs[1..]);
    }
  }

  // ---------------------------------------------------------------- theorems

  lemma {:induction false} NormIsPlain(v: Value)
    requires WellFormed(v) && !HasUndefined(v)
    ensures Plain(Norm(v))
  {
    match v
    case Array(items) =>
      forall i | 0 <= i < |items| ensures Plain(NormItems(items)[i]) { NormIsPlain(items[i]); }
    case Object(members) =>
      hide SortByKey, Before;
      var sorted := SortByKey(NormMembers(members));
      forall i | 0 <= i < |sorted| ensures Plain(sorted[i].value) {
        SortHas(NormMembers(members), sorted[i]);
        var j :| 0 <= j < |members| && NormMembers(members)[j] == sorted[i];
        NormIsPlain(members[j].value);
      }
    case _ =>
  }

  /** The parser reads the canonical text of any tree back as its normal form. */
  lemma ParseUndoesCanonical(v: Value)
    requires WellFormed(v) && !HasUndefined(v)
    ensures Canonical(v).Ok? && Parse(Canonical(v).value) == Some(Parsed(Norm(v), []))
  {
    CanonicalPrintsNorm(v);
    NormIsPlain(v);
    ParseOfPrint(Norm(v), []);
    assert Print(Norm(v)) + [] == Print(Norm(v));
  }

  /** Canonical texts are equal exactly when the trees have the same normal form. */
  lemma CanonicalEqualIff(v: Value, w: Value)
    requires WellFormed(v) && WellFormed(w) && !HasUndefined(v) && !HasUndefined(w)
    ensures Canonical(v) == Canonical(w) <==> Norm(v) == Norm(w)
  {
    hide *;
    ParseUndoesCanonical(v);
    ParseUndoesCanonical(w);
    CanonicalPrintsNorm(v);
    CanonicalPrintsNorm(w);
  }

  /** Objects have the same normal form exactly when they have the same members, in whatever order. */
  lemma ObjectsEqualIff(a: seq<Pair<Value>>, b: seq<Pair<Value>>)
    requires UniqueKeys(a) && UniqueKeys(b)
    ensures Norm(Object(a)) == Norm(Object(b)) <==> multiset(NormMembers(a)) == multiset(NormMembers(b))
  {
    var x, y := NormMembers(a), NormMembers(b);
    assert UniqueKeys(x) && UniqueKeys(y);
    SortKeeps(x);
    SortKeeps(y);
    SortSorts(x);
    SortSorts(y);
    if multiset(x) == multiset(y) { SortedIsUnique(SortByKey(x), SortByKey(y)); }
  }

  /** A value that JSON cannot express reads back as null: two different parameters then have one canonical text. */
  lemma NonFiniteCollides()
    ensures Canonical(Num(NonFinite)) == Canonical(Null) && Canonical(Num(NegativeZero)) == Canonical(Num(Finite(ZERO_TEXT)))
    ensures Num(NonFinite) != Null
  {
  }

  predicate Leaf(v: Value) {
    !v.Array? && !v.Object?
  }

  /** Those are the only values that coincide: null with the non-finite numbers, and zero with negative zero. */
  lemma LeavesEqualIff(v: Value, w: Value)
    requires Leaf(v) && Leaf(w)
    ensures Norm(v) == Norm(w) <==>
      || v == w
      || (v in {Null, Num(NonFinite)} && w in {Null, Num(NonFinite)})
      || (v in {Num(NegativeZero), Num(Finite(ZERO_TEXT))} && w in {Num(NegativeZero), Num(Finite(ZERO_TEXT))})
  {
  }

  // ---------------------------------------------------------------- the action hash

  const VERSION_KEY: Text := [0x76, 0x65, 0x72, 0x73, 0x69, 0x6f, 0x6e]
  const STATEMENT_KEY: Text := [0x73, 0x74, 0x61, 0x74, 0x65, 0x6d, 0x65, 0x6e, 0x74]
  const PARAMS_KEY: Text := [0x70, 0x61, 0x72, 0x61, 0x6d, 0x73]
  const EXPECT_ROWS_KEY: Text := [0x65, 0x78, 0x70, 0x65, 0x63, 0x74, 0x52, 0x6f, 0x77, 0x73]
  const TARGET_ID_KEY: Text := [0x74, 0x61, 0x72, 0x67, 0x65, 0x74, 0x49, 0x64]
  const ACTION_KEYS: seq<Text> := [VERSION_KEY, STATEMENT_KEY, PARAMS_KEY, EXPECT_ROWS_KEY, TARGET_ID_KEY]
  const ONE_TEXT: Text := [0x31]

  datatype Action = Action(statement: Text, params: seq<Value>, expectRows: Value, targetId: Text)

  function Described(a: Action): Value {
    Object([Pair(VERSION_KEY, Num(Finite(ONE_TEXT))), Pair(STATEMENT_KEY, Str(a.statement)), Pair(PARAMS_KEY, Array(a.params)),
            Pair(EXPECT_ROWS_KEY, a.expectRows), Pair(TARGET_ID_KEY, Str(a.targetId))])
  }

  function ActionHash(a: Action): Result<Hash, Refusal> {
    var text := Canonical(Described(a));
    if text.Err? then Err(text.error) else Ok(Sha256(text.value))
  }

  predicate WellFormedAction(a: Action) {
    WellFormed(Array(a.params)) && WellFormed(a.expectRows)
  }

  lemma DescribedWellFormed(a: Action)
    requires WellFormedAction(a)
    ensures WellFormed(Described(a))
    ensures HasUndefined(Described(a)) <==> HasUndefined(Array(a.params)) || HasUndefined(a.expectRows)
  {
    var ms := Described(a).members;
    assert UniqueKeys(ms) by {
      assert ms[0].key[0] == 0x76 && ms[1].key[0] == 0x73 && ms[2].key[0] == 0x70 && ms[3].key[0] == 0x65 && ms[4].key[0] == 0x74;
    }
    assert HasUndefined(ms[2].value) || HasUndefined(ms[3].value) ==> HasUndefined(Described(a));
  }

  /** An action without expectRows, or with an undefined parameter, has no hash: the caller gets invalid_input. */
  lemma ActionHashRefusesIff(a: Action)
    requires WellFormedAction(a)
    ensures ActionHash(a).Err? <==> HasUndefined(Array(a.params)) || HasUndefined(a.expectRows)
    ensures a.expectRows.Undefined? ==> ActionHash(a) == Err(InvalidInput)
  {
    DescribedWellFormed(a);
    CanonicalPrintsNorm(Described(a));
    hide Canonical;
    assert a.expectRows.Undefined? ==> HasUndefined(a.expectRows);
    if ActionHash(a).Err? { assert ActionHash(a).error.InvalidInput?; }
  }

  /** Equal hashes mean the same statement, parameters, row expectation and target, and conversely. */
  lemma ActionHashEqualIff(a: Action, b: Action)
    requires WellFormedAction(a) && WellFormedAction(b) && ActionHash(a).Ok? && ActionHash(b).Ok?
    ensures ActionHash(a) == ActionHash(b) <==>
      && a.statement == b.statement && a.targetId == b.targetId
      && NormItems(a.params) == NormItems(b.params) && Norm(a.expectRows) == Norm(b.expectRows)
  {
    DescribedWellFormed(a);
    DescribedWellFormed(b);
    ActionHashRefusesIff(a);
    ActionHashRefusesIff(b);
    CanonicalEqualIff(Described(a), Described(b));
    DescribedEqualIff(a, b);
  }

  lemma DescribedEqualIff(a: Action, b: Action)
    requires WellFormedAction(a) && WellFormedAction(b)
    ensures Norm(Described(a)) == Norm(Described(b)) <==>
      && a.statement == b.statement && a.targetId == b.targetId
      && NormItems(a.params) == NormItems(b.params) && Norm(a.expectRows) == Norm(b.expectRows)
  {
    DescribedWellFormed(a);
    DescribedWellFormed(b);
    DescribedMembers(a);
    DescribedMembers(b);
    hide *;
    var xs, ys := Described(a).members, Described(b).members;
    ObjectsEqualIff(xs, ys);
    MembersEqualIff(NormMembers(xs), NormMembers(ys), ACTION_KEYS, Num(Finite(ONE_TEXT)), a, b);
  }

  lemma DescribedMembers(a: Action)
    requires WellFormedAction(a)
    ensures Described(a).Object? && Described(a) == Object(Described(a).members) && UniqueKeys(Described(a).members)
    ensures Members(NormMembers(Described(a).members), ACTION_KEYS, Num(Finite(ONE_TEXT)), a)
  {
    DescribedWellFormed(a);
    var ms := Described(a).members;
    var x := NormMembers(ms);
    assert forall i :: 0 <= i < 5 ==> x[i] == Pair(ms[i].key, Norm(ms[i].value));
  }

  /** Five members under the same keys. */
  ghost predicate Members(x: seq<Pair<Value>>, keys: seq<Text>, version: Value, a: Action)
    requires |keys| == 5
  {
    && |x| == 5 && UniqueKeys(x) && (forall i :: 0 <= i < 5 ==> x[i].key == keys[i])
    && x[0].value == version && x[1].value == Str(a.statement) && x[2].value == Array(NormItems(a.params))
    && x[3].value == Norm(a.expectRows) && x[4].value == Str(a.targetId)
  }

  lemma MembersEqualIff(x: seq<Pair<Value>>, y: seq<Pair<Value>>, keys: seq<Text>, version: Value, a: Action, b: Action)
    requires |keys| == 5 && Members(x, keys, version, a) && Members(y, keys, version, b)
    ensures multiset(x) == multiset(y) <==>
      && a.statement == b.statement && a.targetId == b.targetId
      && NormItems(a.params) == NormItems(b.params) && Norm(a.expectRows) == Norm(b.expectRows)
  {
    hide Norm, NormItems;
    SameKeysEqualIff(x, y);
    assert x == y <==> x[0] == y[0] && x[1] == y[1] && x[2] == y[2] && x[3] == y[3] && x[4] == y[4];
  }

  lemma SameKeysEqualIff<T>(x: seq<Pair<T>>, y: seq<Pair<T>>)
    requires |x| == |y| && UniqueKeys(x) && forall i :: 0 <= i < |x| ==> x[i].key == y[i].key
    ensures multiset(x) == multiset(y) <==> x == y
  {
    if multiset(x) == multiset(y) {
      forall i | 0 <= i < |x| ensures x[i] == y[i] {
        assert x[i] in multiset(y);
        var j :| 0 <= j < |y| && y[j] == x[i];
      }
    }
  }
}
