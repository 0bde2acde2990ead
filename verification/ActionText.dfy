/** The very text that is hashed for an action. */
module ActionText {
  import opened Json
  import opened JsonStrings
  import opened Canonical
  import Lex

  function Ascii(s: string): (t: Text)
    requires forall i :: 0 <= i < |s| ==> s[i] as int < 128
    ensures |t| == |s| && forall i :: 0 <= i < |s| ==> t[i] == s[i] as int
  {
    seq(|s|, i requires 0 <= i < |s| => s[i] as int)
  }

  /** Keys are compared code unit by code unit: a key comes first if it ends first or has the lesser unit where they differ. */
  lemma BeforeIff(a: Text, b: Text)
    ensures Before(a, b) <==> exists n :: 0 <= n <= |a| && n < |b| && a[..n] == b[..n] && (n == |a| || a[n] < b[n])
  {
    var x, y := Chars(a), Chars(b);
    Lex.LessIff(x, y);
    CharsAt(a);
    CharsAt(b);
    if Before(a, b) {
      var n :| 0 <= n <= |x| && n < |y| && x[..n] == y[..n] && (n == |x| || x[n] < y[n]);
      forall i | 0 <= i < n ensures a[i] == b[i] { assert x[..n][i] == y[..n][i]; }
      assert a[..n] == b[..n];
    }
    if n :| 0 <= n <= |a| && n < |b| && a[..n] == b[..n] && (n == |a| || a[n] < b[n]) {
      forall i | 0 <= i < n ensures x[i] == y[i] { assert a[..n][i] == b[..n][i]; }
      assert x[..n] == y[..n];
    }
  }

  lemma {:induction false} CharsAt(t: Text)
    ensures forall i :: 0 <= i < |t| ==> Chars(t)[i] == if t[i] < 0xd800 then t[i] as char else (t[i] as int + 0x800) as char
  {
    if t != [] { CharsAt(t[1..]); }
  }

  /** The members of an action, in the order of their keys. */
  function InOrder(a: Action): seq<Pair<Value>> {
    [Pair(Ascii("expectRows"), Norm(a.expectRows)), Pair(Ascii("params"), Norm(Array(a.params))),
     Pair(Ascii("statement"), Str(a.statement)), Pair(Ascii("targetId"), Str(a.targetId)), Pair(Ascii("version"), Num(Finite([0x31])))]
  }

  lemma KeysAreWords()
    ensures VERSION_KEY == Ascii("version") && STATEMENT_KEY == Ascii("statement") && PARAMS_KEY == Ascii("params")
    ensures EXPECT_ROWS_KEY == Ascii("expectRows") && TARGET_ID_KEY == Ascii("targetId")
  {
  }

  lemma FirstUnitDecides(a: Text, b: Text)
    requires a != [] && b != [] && a[0] < b[0]
    ensures Before(a, b)
  {
    BeforeIff(a, b);
    assert a[..0] == b[..0];
  }

  /** The members in the order they are given in. */
  function AsGiven(a: Action): seq<Pair<Value>> {
    var o := InOrder(a);
    [o[4], o[2], o[1], o[0], o[3]]
  }

  lemma NormOfMembers(a: Action)
    ensures NormMembers(Described(a).members) == AsGiven(a)
  {
    KeysAreWords();
    var ms := Described(a).members;
    var x := NormMembers(ms);
    hide NormMembers;
    assert x[0] == AsGiven(a)[0] && x[1] == AsGiven(a)[1] && x[2] == AsGiven(a)[2] && x[3] == AsGiven(a)[3] && x[4] == AsGiven(a)[4];
  }

  lemma {:induction false} InsertAt<T>(p: Pair<T>, front: seq<Pair<T>>, back: seq<Pair<T>>)
    requires (forall q :: q in front ==> !Before(p.key, q.key)) && (back != [] ==> Before(p.key, back[0].key))
    ensures InsertByKey(p, front + back) == front + [p] + back
  {
    hide Before;
    if front == [] {
      assert front + back == back;
    } else {
      assert (front + back)[1..] == front[1..] + back;
      InsertAt(p, front[1..], back);
      assert front == [front[0]] + front[1..];
    }
  }

  /** Sorting members whose keys differ in their first units. */
  lemma SortsFive<T>(e: Pair<T>, p: Pair<T>, s: Pair<T>, t: Pair<T>, v: Pair<T>)
    requires e.key != [] && p.key != [] && s.key != [] && t.key != [] && v.key != []
    requires e.key[0] < p.key[0] < s.key[0] < t.key[0] < v.key[0]
    ensures SortByKey([v, s, p, e, t]) == [e, p, s, t, v]
  {
    Ordered(e, p); Ordered(e, s); Ordered(e, t); Ordered(e, v); Ordered(p, s); Ordered(p, t); Ordered(p, v);
    Ordered(s, t); Ordered(s, v); Ordered(t, v);
    hide Before, InsertByKey;
    InsertAt(t, [], []);
    InsertAt(e, [], [t]);
    InsertAt(p, [e], [t]);
    InsertAt(s, [e, p], [t]);
    InsertAt(v, [e, p, s, t], []);
    assert SortByKey([t]) == [t] by { assert [t][1..] == []; }
    assert SortByKey([e, t]) == [e, t] by { assert [e, t][1..] == [t]; }
    assert SortByKey([p, e, t]) == [e, p, t] by { assert [p, e, t][1..] == [e, t] && [e] + [t] == [e, t]; }
    assert SortByKey([s, p, e, t]) == [e, p, s, t] by { assert [s, p, e, t][1..] == [p, e, t] && [e, p] + [t] == [e, p, t]; }
    assert [v, s, p, e, t][1..] == [s, p, e, t] && [e, p, s, t] + [] == [e, p, s, t];
  }

  lemma Ordered<T>(p: Pair<T>, q: Pair<T>)
    requires p.key != [] && q.key != [] && p.key[0] < q.key[0]
    ensures Before(p.key, q.key) && !Before(q.key, p.key)
  {
    FirstUnitDecides(p.key, q.key);
    NotBothBefore(p.key, q.key);
  }

  lemma NormOfDescribed(a: Action)
    requires WellFormedAction(a)
    ensures Norm(Described(a)) == Object(InOrder(a))
  {
    NormOfMembers(a);
    hide Before, SortByKey, NormMembers;
    var o := InOrder(a);
    SortsFive(o[0], o[1], o[2], o[3], o[4]);
  }

  lemma JoinFive(a: Text, b: Text, c: Text, d: Text, e: Text)
    ensures Join([a, b, c, d, e]) == a + [COMMA] + (b + [COMMA] + (c + [COMMA] + (d + [COMMA] + e)))
  {
    assert [a, b, c, d, e][1..] == [b, c, d, e] && [b, c, d, e][1..] == [c, d, e] && [c, d, e][1..] == [d, e] && [d, e][1..] == [e];
    assert Join([d, e]) == d + [COMMA] + e;
    assert Join([c, d, e]) == c + [COMMA] + Join([d, e]);
    assert Join([b, c, d, e]) == b + [COMMA] + Join([c, d, e]);
  }

  /** "key":value */
  function Labelled(key: string, v: Text): Text
    requires forall i :: 0 <= i < |key| ==> key[i] as int < 128
  {
    Ascii("\"") + Ascii(key) + Ascii("\":") + v
  }

  lemma MemberPrints(key: string, v: Text)
    requires forall i :: 0 <= i < |key| ==> 0x20 < key[i] as int < 128 && key[i] != '"' && key[i] != '\\'
    ensures PrintMember(Ascii(key), v) == Labelled(key, v)
  {
    HarmlessPrintsItself(Ascii(key));
    hide Quoted;
    assert Ascii("\"") == [QUOTE] && Ascii("\":") == [QUOTE] + [COLON];
  }

  /** {"expectRows":...,"params":...,"statement":...,"targetId":...,"version":1} */
  function Envelope(expectRows: Text, params: Text, statement: Text, targetId: Text): Text {
    Ascii("{") + (
      Labelled("expectRows", expectRows) + Ascii(",") + (
      Labelled("params", params) + Ascii(",") + (
      Labelled("statement", statement) + Ascii(",") + (
      Labelled("targetId", targetId) + Ascii(",") +
      Labelled("version", Ascii("1")))))) + Ascii("}")
  }

  /** The hashed text names the version and then, in the order of their keys, holds the four parts of the action. */
  lemma HashedText(a: Action)
    requires WellFormedAction(a) && ActionHash(a).Ok?
    ensures Canonical.Canonical(a.expectRows).Ok? && Canonical.Canonical(Array(a.params)).Ok?
    ensures ActionHash(a).value.of ==
      Envelope(Canonical.Canonical(a.expectRows).value, Canonical.Canonical(Array(a.params)).value, Quote(a.statement), Quote(a.targetId))
  {
    ActionHashRefusesIff(a);
    NormOfDescribed(a);
    CanonicalPrintsNorm(Described(a));
    CanonicalPrintsNorm(a.expectRows);
    CanonicalPrintsNorm(Array(a.params));
    InOrderPrints(a);
  }

  lemma InOrderPrints(a: Action)
    ensures Print(Object(InOrder(a))) ==
      Envelope(Print(Norm(a.expectRows)), Print(Norm(Array(a.params))), Quote(a.statement), Quote(a.targetId))
  {
    hide Norm, Quote, PrintMember, Labelled, Join;
    var ms := InOrder(a);
    var texts := PrintMembers(ms);
    MemberPrints("expectRows", Print(Norm(a.expectRows)));
    MemberPrints("params", Print(Norm(Array(a.params))));
    MemberPrints("statement", Quote(a.statement));
    MemberPrints("targetId", Quote(a.targetId));
    MemberPrints("version", Ascii("1"));
    assert Ascii("1") == [0x31] && Ascii(",") == [COMMA] && Ascii("{") == [OPEN_BRACE] && Ascii("}") == [CLOSE_BRACE];
    assert texts == [texts[0], texts[1], texts[2], texts[3], texts[4]];
    JoinFive(texts[0], texts[1], texts[2], texts[3], texts[4]);
  }
}
