/** The text form of UUIDs, as the database prints them and as clients may write them. */
module Uuid {

  predicate IsHex(c: char) {
    '0' <= c <= '9' || 'a' <= c <= 'f'
  }

  /** 8-4-4-4-12 lower-case hexadecimal digits. */
  predicate IsUuid(s: string) {
    |s| == 36 && forall i :: 0 <= i < 36 ==> if i == 8 || i == 13 || i == 18 || i == 23 then s[i] == '-' else IsHex(s[i])
  }

  predicate IsHexAnyCase(c: char) {
    IsHex(c) || 'A' <= c <= 'F'
  }

  /** The same with digits in either case. */
  predicate IsUuidAnyCase(s: string) {
    |s| == 36 && forall i :: 0 <= i < 36 ==> if i == 8 || i == 13 || i == 18 || i == 23 then s[i] == '-' else IsHexAnyCase(s[i])
  }

  const LOWER := "0123456789abcdef"
  const UPPER := "ABCDEF"

  predicate HexDigit(c: char, anyCase: bool) {
    c in LOWER || (anyCase && c in UPPER)
  }

  ghost predicate Hex(s: string, anyCase: bool) {
    forall i :: 0 <= i < |s| ==> HexDigit(s[i], anyCase)
  }

  /** Five groups of digits with hyphens between them. */
  ghost predicate Groups(s: string, anyCase: bool) {
    exists a, b, c, d, e :: Grouped(s, a, b, c, d, e) && Hex(a + b + c + d + e, anyCase)
  }

  predicate Grouped(s: string, a: string, b: string, c: string, d: string, e: string) {
    |a| == 8 && |b| == |c| == |d| == 4 && |e| == 12 && s == a + "-" + b + "-" + c + "-" + d + "-" + e
  }

  lemma HexDigitIff(c: char)
    ensures IsHex(c) <==> HexDigit(c, false)
    ensures IsHexAnyCase(c) <==> HexDigit(c, true)
  {
  }

  /** Hyphens in their four places, digits elsewhere. */
  ghost predicate Placed(s: string, anyCase: bool) {
    |s| == 36 && forall i :: 0 <= i < 36 ==> if i == 8 || i == 13 || i == 18 || i == 23 then s[i] == '-' else HexDigit(s[i], anyCase)
  }

  lemma PlacedIff(s: string)
    ensures IsUuid(s) <==> Placed(s, false)
    ensures IsUuidAnyCase(s) <==> Placed(s, true)
  {
    forall c ensures IsHex(c) <==> HexDigit(c, false) ensures IsHexAnyCase(c) <==> HexDigit(c, true) { HexDigitIff(c); }
    hide IsHex, IsHexAnyCase, HexDigit;
  }

  lemma PlacedGroups(s: string, anyCase: bool)
    requires Placed(s, anyCase)
    ensures Groups(s, anyCase)
  {
    hide HexDigit;
    var a, b, c, d, e := s[..8], s[9..13], s[14..18], s[19..23], s[24..];
    assert Grouped(s, a, b, c, d, e) by { assert s == a + "-" + b + "-" + c + "-" + d + "-" + e; }
    var digits := a + b + c + d + e;
    forall i | 0 <= i < |digits| ensures HexDigit(digits[i], anyCase) {
      var at := if i < 8 then i else if i < 12 then i + 1 else if i < 16 then i + 2 else if i < 20 then i + 3 else i + 4;
      assert digits[i] == s[at];
    }
  }

  lemma GroupsPlaced(s: string, a: string, b: string, c: string, d: string, e: string, anyCase: bool)
    requires Grouped(s, a, b, c, d, e) && Hex(a + b + c + d + e, anyCase)
    ensures Placed(s, anyCase)
  {
    hide HexDigit;
    var digits := a + b + c + d + e;
    assert forall i :: 0 <= i < 8 ==> s[i] == digits[i];
    assert forall i :: 9 <= i < 13 ==> s[i] == digits[i - 1];
    assert forall i :: 14 <= i < 18 ==> s[i] == digits[i - 2];
    assert forall i :: 19 <= i < 23 ==> s[i] == digits[i - 3];
    assert forall i :: 24 <= i < 36 ==> s[i] == digits[i - 4];
  }

  lemma UuidIff(s: string)
    ensures IsUuid(s) <==> Groups(s, false)
    ensures IsUuidAnyCase(s) <==> Groups(s, true)
  {
    PlacedIff(s);
    hide IsUuid, IsUuidAnyCase, Placed, Grouped, Hex;
    if Placed(s, false) { PlacedGroups(s, false); }
    if Placed(s, true) { PlacedGroups(s, true); }
    if a, b, c, d, e :| Grouped(s, a, b, c, d, e) && Hex(a + b + c + d + e, false) { GroupsPlaced(s, a, b, c, d, e, false); }
    if a, b, c, d, e :| Grouped(s, a, b, c, d, e) && Hex(a + b + c + d + e, true) { GroupsPlaced(s, a, b, c, d, e, true); }
  }
}
