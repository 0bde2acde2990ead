/**
Whether an empty object satisfies a JSON Schema (`empty` in tooling/codegen/commands.ts). The document is a graph of
values, because the search remembers the schemas it is inside of by identity and references may form cycles.
*/
module EmptySchema {
  import opened Wrappers
  import J = Json

  type Id = nat

  /** The keywords that are read; `types` holds one name or the listed names. */
  datatype Keywords = Keywords(
    types: Option<seq<string>>, required: Option<seq<string>>, minProperties: Option<int>,
    constant: Option<J.Value>, enumeration: Option<seq<J.Value>>, negated: Option<Id>,
    anyOf: Option<seq<Id>>, oneOf: Option<seq<Id>>, allOf: Option<seq<Id>>,
    condition: Option<Id>, consequent: Option<Id>, alternative: Option<Id>)

  const NO_KEYWORDS := Keywords(None, None, None, None, None, None, None, None, None, None, None, None)

  /** A value of the document: false, another value that is no object, an object, or one with a resolved $ref. */
  datatype Node = False | NoObject | Schema(keywords: Keywords) | Ref(target: Id, siblings: Keywords)

  type Document = map<Id, Node>

  function KeywordsOf(n: Node): Keywords {
    match n
    case Schema(k) => k
    case Ref(_, k) => k
    case _ => NO_KEYWORDS
  }

  function One(id: Option<Id>): set<Id> {
    if id.Some? then {id.value} else {}
  }

  function Many(ids: Option<seq<Id>>): set<Id> {
    if ids.Some? then set id | id in ids.value else {}
  }

  function Children(k: Keywords): set<Id> {
    One(k.negated) + Many(k.anyOf) + Many(k.oneOf) + Many(k.allOf) + One(k.condition) + One(k.consequent) + One(k.alternative)
  }

  /** Every reference of the document resolves. */
  ghost predicate Closed(doc: Document) {
    forall id {:trigger ClosedAt(doc, id)} :: id in doc ==> ClosedAt(doc, id)
  }

  ghost predicate ClosedAt(doc: Document, id: Id)
    requires id in doc
  {
    Children(KeywordsOf(doc[id])) <= doc.Keys && (doc[id].Ref? ==> doc[id].target in doc)
  }

  function Count(ids: seq<Id>, yes: set<Id>): nat {
    if ids == [] then 0 else (if ids[0] in yes then 1 else 0) + Count(ids[1..], yes)
  }

  const EMPTY_OBJECT := J.Object([])

  /** The checks on one schema, in order; `yes` are the subschemas that an empty object satisfies. */
  predicate Passes(k: Keywords, yes: set<Id>) {
    if k.types.Some? && "object" !in k.types.value then false
    else if (k.required.Some? && |k.required.value| > 0) || (k.minProperties.Some? && k.minProperties.value > 0) then false
    else if k.constant.Some? && k.constant.value != EMPTY_OBJECT then false
    else if k.enumeration.Some? && EMPTY_OBJECT !in k.enumeration.value then false
    else if k.negated.Some? && k.negated.value in yes then false
    else if k.anyOf.Some? && !(exists i :: 0 <= i < |k.anyOf.value| && k.anyOf.value[i] in yes) then false
    else if k.oneOf.Some? && Count(k.oneOf.value, yes) != 1 then false
    else if k.allOf.Some? && !(forall i :: 0 <= i < |k.allOf.value| ==> k.allOf.value[i] in yes) then false
    else if k.condition.None? then true
    else
      var branch := if k.condition.value in yes then k.consequent else k.alternative;
      branch.None? || branch.value in yes
  }

  /** Terminates on every document: a schema that is entered again counts as unsatisfied. */
  function Empty(doc: Document, id: Id, seen: set<Id>): bool
    requires Closed(doc) && id in doc
    decreases |doc.Keys - seen|, 1
  {
    assert ClosedAt(doc, id);
    match doc[id]
    case False => false
    case NoObject => true
    case Schema(_) => EmptyAt(doc, id, seen)
    case Ref(target, _) => EmptyAt(doc, target, seen)
  }

  /** The schema that a value resolves to: one reference is followed, and a target that is no object is {}. */
  function EmptyAt(doc: Document, at: Id, seen: set<Id>): bool
    requires Closed(doc) && at in doc
    decreases |doc.Keys - seen|, 0
  {
    if !doc[at].Schema? && !doc[at].Ref? then true
    else if at in seen then false
    else
      Shrinks(doc.Keys, seen, at);
      Passes(KeywordsOf(doc[at]), EmptyChildren(doc, at, seen + {at}))
  }

  function EmptyChildren(doc: Document, at: Id, next: set<Id>): set<Id>
    requires Closed(doc) && at in doc
    decreases |doc.Keys - next|, 2
  {
    assert ClosedAt(doc, at);
    set c | c in Children(KeywordsOf(doc[at])) && Empty(doc, c, next)
  }

  lemma Shrinks(all: set<Id>, seen: set<Id>, at: Id)
    requires at in all && at !in seen
    ensures |all - (seen + {at})| < |all - seen|
  {
    assert all - (seen + {at}) == (all - seen) - {at};
  }

  // ---------------------------------------------------------------- what the keywords mean

  ghost predicate ExactlyOne(ids: seq<Id>, yes: set<Id>) {
    exists i :: 0 <= i < |ids| && ids[i] in yes && forall j :: 0 <= j < |ids| && j != i ==> ids[j] !in yes
  }

  /** An empty object has type object and no properties, and satisfies the applicators as JSON Schema defines them. */
  ghost predicate Satisfied(k: Keywords, yes: set<Id>) {
    && (k.types.Some? ==> "object" in k.types.value)
    && (k.required.Some? ==> k.required.value == [])
    && (k.minProperties.Some? ==> k.minProperties.value <= 0)
    && (k.constant.Some? ==> k.constant.value == EMPTY_OBJECT)
    && (k.enumeration.Some? ==> EMPTY_OBJECT in k.enumeration.value)
    && (k.negated.Some? ==> k.negated.value !in yes)
    && (k.anyOf.Some? ==> exists id :: id in k.anyOf.value && id in yes)
    && (k.oneOf.Some? ==> ExactlyOne(k.oneOf.value, yes))
    && (k.allOf.Some? ==> forall id :: id in k.allOf.value ==> id in yes)
    && (k.condition.Some? && k.condition.value in yes && k.consequent.Some? ==> k.consequent.value in yes)
    && (k.condition.Some? && k.condition.value !in yes && k.alternative.Some? ==> k.alternative.value in yes)
  }

  lemma {:induction false} CountNone(ids: seq<Id>, yes: set<Id>)
    ensures Count(ids, yes) == 0 <==> forall i :: 0 <= i < |ids| ==> ids[i] !in yes
  {
    if ids != [] {
      CountNone(ids[1..], yes);
      assert forall i :: 0 < i < |ids| ==> ids[i] == ids[1..][i - 1];
    }
  }

  lemma {:induction false} CountOne(ids: seq<Id>, yes: set<Id>)
    ensures Count(ids, yes) == 1 <==> ExactlyOne(ids, yes)
  {
    if ids != [] {
      var rest := ids[1..];
      CountOne(rest, yes);
      CountNone(rest, yes);
      assert forall i :: 0 < i < |ids| ==> ids[i] == rest[i - 1];
      if ids[0] in yes {
        if Count(ids, yes) == 1 { assert ids[0] in yes && forall j :: 0 <= j < |ids| && j != 0 ==> ids[j] !in yes; }
        if ExactlyOne(ids, yes) {
          var i :| 0 <= i < |ids| && ids[i] in yes && forall j :: 0 <= j < |ids| && j != i ==> ids[j] !in yes;
          assert i == 0;
          forall j | 0 <= j < |rest| ensures rest[j] !in yes { assert rest[j] == ids[j + 1]; }
        }
      } else {
        if ExactlyOne(rest, yes) {
          var i :| 0 <= i < |rest| && rest[i] in yes && forall j :: 0 <= j < |rest| && j != i ==> rest[j] !in yes;
          assert ids[i + 1] in yes;
          forall j | 0 <= j < |ids| && j != i + 1 ensures ids[j] !in yes { assert j > 0 ==> ids[j] == rest[j - 1]; }
        }
        if ExactlyOne(ids, yes) {
          var i :| 0 <= i < |ids| && ids[i] in yes && forall j :: 0 <= j < |ids| && j != i ==> ids[j] !in yes;
          assert rest[i - 1] in yes;
          forall j | 0 <= j < |rest| && j != i - 1 ensures rest[j] !in yes { assert rest[j] == ids[j + 1]; }
        }
      }
    }
  }

  lemma PassesIffSatisfied(k: Keywords, yes: set<Id>)
    ensures Passes(k, yes) <==> Satisfied(k, yes)
  {
    if k.oneOf.Some? { CountOne(k.oneOf.value, yes); }
  }

  // ---------------------------------------------------------------- schemas that are entered again

  /** The checks look at nothing but the subschemas. */
  lemma PassesLooksAtChildren(k: Keywords, a: set<Id>, b: set<Id>)
    requires forall c :: c in Children(k) ==> (c in a <==> c in b)
    ensures Passes(k, a) <==> Passes(k, b)
  {
    if k.oneOf.Some? { SameCount(k.oneOf.value, a, b); }
    hide Count;
  }

  lemma {:induction false} SameCount(ids: seq<Id>, a: set<Id>, b: set<Id>)
    requires forall c :: c in ids ==> (c in a <==> c in b)
    ensures Count(ids, a) == Count(ids, b)
  {
    if ids != [] { SameCount(ids[1..], a, b); }
  }

  /** Keywords that no empty object satisfies: {"type": []} */
  const REFUSING := NO_KEYWORDS.(types := Some([]))

  /** The document in which the own keywords of some schemas are replaced by such keywords. */
  function Cut(doc: Document, seen: set<Id>): Document {
    map id | id in doc :: if id !in seen then doc[id] else
      match doc[id]
      case Schema(_) => Schema(REFUSING)
      case Ref(target, _) => Ref(target, REFUSING)
      case n => n
  }

  lemma CutCloses(doc: Document, seen: set<Id>)
    requires Closed(doc)
    ensures Closed(Cut(doc, seen)) && Cut(doc, seen).Keys == doc.Keys
  {
    forall id | id in doc ensures ClosedAt(Cut(doc, seen), id) {
      assert ClosedAt(doc, id);
    }
  }

  /**
   * On any document, cycles or not, a schema that is entered again counts as one that accepts no empty object: inside of
   * `seen` the search finds what it finds in the document without the keywords of these schemas.
   */
  lemma {:induction false} EnteredAgainRefuses(doc: Document, id: Id, seen: set<Id>, more: set<Id>)
    requires Closed(doc) && id in doc
    ensures Closed(Cut(doc, seen)) && id in Cut(doc, seen)
    ensures Empty(doc, id, seen + more) == Empty(Cut(doc, seen), id, more)
    decreases |doc.Keys - (seen + more)|, 1
  {
    CutCloses(doc, seen);
    assert ClosedAt(doc, id);
    match doc[id]
    case Schema(_) => EnteredAtRefuses(doc, id, seen, more);
    case Ref(target, _) => EnteredAtRefuses(doc, target, seen, more);
    case _ =>
  }

  lemma {:induction false} EnteredAtRefuses(doc: Document, at: Id, seen: set<Id>, more: set<Id>)
    requires Closed(doc) && at in doc && Closed(Cut(doc, seen)) && at in Cut(doc, seen)
    ensures EmptyAt(doc, at, seen + more) == EmptyAt(Cut(doc, seen), at, more)
    decreases |doc.Keys - (seen + more)|, 0
  {
    hide Passes, Children, EmptyChildren, Empty, Closed;
    if doc[at].Schema? || doc[at].Ref? {
      var cut := Cut(doc, seen);
      if at in seen {
        NothingRefusing(EmptyChildren(cut, at, more + {at}));
      } else if at !in more {
        Shrinks(doc.Keys, seen + more, at);
        assert seen + more + {at} == seen + (more + {at});
        ChildrenEntered(doc, at, seen, more + {at});
      }
    }
  }

  lemma {:induction false} ChildrenEntered(doc: Document, at: Id, seen: set<Id>, more: set<Id>)
    requires Closed(doc) && at in doc && at !in seen && Closed(Cut(doc, seen)) && at in Cut(doc, seen)
    ensures EmptyChildren(doc, at, seen + more) == EmptyChildren(Cut(doc, seen), at, more)
    decreases |doc.Keys - (seen + more)|, 2
  {
    hide Children, Empty;
    assert ClosedAt(doc, at);
    forall c | c in Children(KeywordsOf(doc[at])) ensures c in Cut(doc, seen) && Empty(doc, c, seen + more) == Empty(Cut(doc, seen), c, more) {
      EnteredAgainRefuses(doc, c, seen, more);
    }
  }

  lemma NothingRefusing(yes: set<Id>)
    ensures !Passes(REFUSING, yes)
  {
  }
}
