/** Splitting a sequence at a separator, and joining it again. */
module Splitting {

  function Split<T(==)>(s: seq<T>, sep: T): (parts: seq<seq<T>>)
    ensures parts != []
  {
    if s == [] then [[]]
    else if s[0] == sep then [[]] + Split(s[1..], sep)
    else var rest := Split(s[1..], sep); [[s[0]] + rest[0]] + rest[1..]
  }

  function Join<T>(parts: seq<seq<T>>, sep: T): seq<T> {
    if parts == [] then [] else if |parts| == 1 then parts[0] else parts[0] + [sep] + Join(parts[1..], sep)
  }

  lemma {:induction false} SplitPlain<T>(s: seq<T>, sep: T, rest: seq<T>)
    requires sep !in s
    ensures Split(s, sep) == [s]
    ensures Split(s + [sep] + rest, sep) == [s] + Split(rest, sep)
  {
    if s == [] {
      assert s + [sep] + rest == [sep] + rest;
      assert ([sep] + rest)[1..] == rest;
    } else {
      SplitPlain(s[1..], sep, rest);
      assert s == [s[0]] + s[1..];
      assert (s + [sep] + rest)[1..] == s[1..] + [sep] + rest;
    }
  }

  lemma SplitFour<T>(a: seq<T>, b: seq<T>, c: seq<T>, d: seq<T>, sep: T)
    requires sep !in a && sep !in b && sep !in c && sep !in d
    ensures Split(a + [sep] + (b + [sep] + (c + [sep] + d)), sep) == [a, b, c, d]
  {
    hide Split;
    SplitPlain(d, sep, []);
    SplitPlain(c, sep, d);
    SplitPlain(b, sep, c + [sep] + d);
    SplitPlain(a, sep, b + [sep] + (c + [sep] + d));
  }

  lemma {:induction false} JoinOfSplit<T>(s: seq<T>, sep: T)
    ensures Join(Split(s, sep), sep) == s
    ensures forall i :: 0 <= i < |Split(s, sep)| ==> sep !in Split(s, sep)[i]
  {
    if s != [] {
      JoinOfSplit(s[1..], sep);
      var rest := Split(s[1..], sep);
      assert s == [s[0]] + s[1..];
      if s[0] == sep {
        assert ([[]] + rest)[1..] == rest;
        forall i | 0 <= i < |Split(s, sep)| ensures sep !in Split(s, sep)[i] {
          assert i > 0 ==> Split(s, sep)[i] == rest[i - 1];
        }
      } else {
        var first := [[s[0]] + rest[0]];
        assert (first + rest[1..])[1..] == rest[1..];
        if |rest| > 1 { assert rest[0] + [sep] + Join(rest[1..], sep) == s[1..]; }
        forall i | 0 <= i < |Split(s, sep)| ensures sep !in Split(s, sep)[i] {
          assert i > 0 ==> Split(s, sep)[i] == rest[i];
        }
      }
    }
  }

  lemma {:induction false} SplitOfJoined<T>(parts: seq<seq<T>>, sep: T)
    requires parts != [] && forall i :: 0 <= i < |parts| ==> sep !in parts[i]
    ensures Split(Join(parts, sep), sep) == parts
  {
    if |parts| == 1 {
      SplitPlain(parts[0], sep, []);
    } else {
      SplitOfJoined(parts[1..], sep);
      SplitPlain(parts[0], sep, Join(parts[1..], sep));
      assert parts == [parts[0]] + parts[1..];
    }
  }
}
