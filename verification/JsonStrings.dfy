/** The text of string literals, unit by unit: which units print as themselves, and how the others are escaped. */
module JsonStrings {
  import opened Json

  /** A surrogate pair would be cut in two between the texts. */
  predicate CutsPair(a: Text, b: Text) {
    a != [] && b != [] && 0xd800 <= a[|a| - 1] <= 0xdbff && 0xdc00 <= b[0] <= 0xdfff
  }

  /** Except within a surrogate pair, a text is printed piece by piece. */
  lemma {:induction false} QuotedInPieces(a: Text, b: Text)
    requires !CutsPair(a, b)
    ensures Quoted(a + b) == Quoted(a) + Quoted(b)
    decreases |a|
  {
    if a == [] {
      assert a + b == b;
    } else {
      hide Quoted, First, Rest;
      SameFirst(a, b);
      QuotedFirst(a);
      QuotedFirst(a + b);
      QuotedInPieces(Rest(a), b);
      assert First(a) + (Quoted(Rest(a)) + Quoted(b)) == First(a) + Quoted(Rest(a)) + Quoted(b);
    }
  }

  /** How the first unit, or the first pair, is printed. */
  function First(t: Text): Text
    requires t != []
  {
    if StartsWithPair(t) then t[..2] else Escaped(t[0])
  }

  function Rest(t: Text): Text
    requires t != []
  {
    if StartsWithPair(t) then t[2..] else t[1..]
  }

  lemma QuotedFirst(t: Text)
    requires t != []
    ensures Quoted(t) == First(t) + Quoted(Rest(t))
  {
    hide Escaped;
  }

  lemma SameFirst(a: Text, b: Text)
    requires a != [] && !CutsPair(a, b)
    ensures First(a + b) == First(a) && Rest(a + b) == Rest(a) + b
    ensures |Rest(a)| < |a| && !CutsPair(Rest(a), b)
  {
    hide Escaped;
    assert StartsWithPair(a + b) <==> StartsWithPair(a);
    if StartsWithPair(a) { assert (a + b)[..2] == a[..2]; }
  }

  /** A pair of surrogates stands for itself. */
  lemma PairPrintsItself(high: Unit, low: Unit)
    requires 0xd800 <= high <= 0xdbff && 0xdc00 <= low <= 0xdfff
    ensures Quoted([high, low]) == [high, low]
  {
    assert [high, low][2..] == [];
  }

  const LOWER_HEX: Text := [0x30, 0x31, 0x32, 0x33, 0x34, 0x35, 0x36, 0x37, 0x38, 0x39, 0x61, 0x62, 0x63, 0x64, 0x65, 0x66]

  /** \uXXXX with lower-case digits */
  function UnicodeEscape(u: Unit): Text {
    [0x5c, 0x75, LOWER_HEX[u / 4096], LOWER_HEX[u / 256 % 16], LOWER_HEX[u / 16 % 16], LOWER_HEX[u % 16]]
  }

  /** A unit that needs no escape: no control, no quote, no backslash, no surrogate. */
  predicate Harmless(u: Unit) {
    u >= 0x20 && u != 0x22 && u != 0x5c && !(0xd800 <= u <= 0xdfff)
  }

  /** Of single units the harmless ones print as themselves, seven have a short escape, and the rest are numbered. */
  lemma UnitPrints(u: Unit)
    ensures Harmless(u) ==> Quoted([u]) == [u]
    ensures u == 0x22 || u == 0x5c ==> Quoted([u]) == [0x5c, u]
    ensures u == 0x08 ==> Quoted([u]) == [0x5c, 0x62]
    ensures u == 0x09 ==> Quoted([u]) == [0x5c, 0x74]
    ensures u == 0x0a ==> Quoted([u]) == [0x5c, 0x6e]
    ensures u == 0x0c ==> Quoted([u]) == [0x5c, 0x66]
    ensures u == 0x0d ==> Quoted([u]) == [0x5c, 0x72]
    ensures !Harmless(u) && u !in {0x22, 0x5c, 0x08, 0x09, 0x0a, 0x0c, 0x0d} ==> Quoted([u]) == UnicodeEscape(u)
  {
    assert [u][1..] == [];
    assert forall n: nat :: n < 16 ==> HexDigit(n) == LOWER_HEX[n];
  }

  /** Every surrogate belongs to a pair. */
  /** A text of harmless units prints as it is. */
  lemma {:induction false} HarmlessPrintsItself(t: Text)
    requires forall i :: 0 <= i < |t| ==> Harmless(t[i])
    ensures Quoted(t) == t
  {
    if t != [] {
      HarmlessPrintsItself(t[1..]);
      assert t == [t[0]] + t[1..];
      UnitPrints(t[0]);
      QuotedInPieces([t[0]], t[1..]);
    }
  }

  predicate PairedAt(t: Text, i: nat)
    requires i < |t|
  {
    && (0xd800 <= t[i] <= 0xdbff ==> i + 1 < |t| && 0xdc00 <= t[i + 1] <= 0xdfff)
    && (0xdc00 <= t[i] <= 0xdfff ==> i > 0 && 0xd800 <= t[i - 1] <= 0xdbff)
  }

  ghost predicate Clean(t: Text) {
    forall i :: 0 <= i < |t| ==> t[i] >= 0x20 && PairedAt(t, i)
  }

  lemma CleanPieces(a: Text, b: Text)
    requires Clean(a) && Clean(b)
    ensures Clean(a + b)
  {
    forall i | 0 <= i < |a + b| ensures (a + b)[i] >= 0x20 && PairedAt(a + b, i) {
      if i < |a| { assert PairedAt(a, i); } else { assert PairedAt(b, i - |a|); }
    }
  }

  lemma UnitIsClean(u: Unit)
    ensures Clean(Quoted([u]))
  {
    UnitPrints(u);
    hide Quoted;
  }

  /** Whatever the text, its literal is well-formed UTF-16 without control characters. */
  lemma {:induction false} QuotedIsClean(t: Text)
    ensures Clean(Quoted(t))
    decreases |t|
  {
    if t == [] {
    } else {
      hide Quoted, Clean;
      var n := if StartsWithPair(t) then 2 else 1;
      assert t == t[..n] + t[n..];
      QuotedIsClean(t[n..]);
      FirstIsClean(t, n);
      QuotedInPieces(t[..n], t[n..]);
      CleanPieces(Quoted(t[..n]), Quoted(t[n..]));
    }
  }

  lemma FirstIsClean(t: Text, n: nat)
    requires t != [] && n == if StartsWithPair(t) then 2 else 1
    ensures Clean(Quoted(t[..n])) && !CutsPair(t[..n], t[n..])
  {
    hide Quoted;
    if n == 2 {
      assert t[..2] == [t[0], t[1]];
      PairPrintsItself(t[0], t[1]);
    } else {
      assert t[..1] == [t[0]];
      UnitIsClean(t[0]);
    }
  }
}
