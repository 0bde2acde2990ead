/** Documents on which the search for an empty object is wrong. */
module SchemaLimits {
  import opened Wrappers
  import opened EmptySchema
  import opened SchemaValidity

  const NEVER := NO_KEYWORDS.(required := Some(["id"]))

  lemma UnconstrainedIsEmpty(doc: Document, at: Id)
    requires Closed(doc) && at in doc && KeywordsOf(doc[at]) == NO_KEYWORDS
    ensures EmptyAt(doc, at, {})
  {
    PassesIffSatisfied(NO_KEYWORDS, EmptyChildren(doc, at, {} + {at}));
  }

  lemma NeverIsInvalid(doc: Document, rank: map<Id, nat>, id: Id)
    requires Acyclic(doc, rank) && id in doc && KeywordsOf(doc[id]) == NEVER
    ensures !Valid(doc, rank, id)
  {
    hide Acyclic, Children;
  }

  lemma NoChildren()
    ensures Children(NO_KEYWORDS) == {} && Children(NEVER) == {}
  {
  }

  /** Keywords beside $ref are ignored. */
  lemma SiblingsAreIgnored()
    ensures var doc: Document := map[0 := Ref(1, NEVER), 1 := Schema(NO_KEYWORDS)];
      var rank: map<Id, nat> := map[0 := 1, 1 := 0];
      Acyclic(doc, rank) && Empty(doc, 0, {}) && !Valid(doc, rank, 0)
  {
    hide Children, Satisfied, Passes, EmptyAt;
    var doc: Document := map[0 := Ref(1, NEVER), 1 := Schema(NO_KEYWORDS)];
    NoChildren();
    UnconstrainedIsEmpty(doc, 1);
    NeverIsInvalid(doc, map[0 := 1, 1 := 0], 0);
  }

  /** A reference to a reference is followed once only. */
  lemma ReferencesAreFollowedOnce()
    ensures var doc: Document := map[0 := Ref(1, NO_KEYWORDS), 1 := Ref(2, NO_KEYWORDS), 2 := Schema(NEVER)];
      var rank: map<Id, nat> := map[0 := 2, 1 := 1, 2 := 0];
      Acyclic(doc, rank) && Empty(doc, 0, {}) && !Valid(doc, rank, 0)
  {
    hide Children, Satisfied, Passes, EmptyAt;
    var doc: Document := map[0 := Ref(1, NO_KEYWORDS), 1 := Ref(2, NO_KEYWORDS), 2 := Schema(NEVER)];
    NoChildren();
    UnconstrainedIsEmpty(doc, 1);
    NeverIsInvalid(doc, map[0 := 2, 1 := 1, 2 := 0], 2);
  }

  /** A reference to the schema false accepts everything. */
  lemma ReferencedFalseIsLost()
    ensures var doc: Document := map[0 := Ref(1, NO_KEYWORDS), 1 := False];
      var rank: map<Id, nat> := map[0 := 1, 1 := 0];
      Acyclic(doc, rank) && Empty(doc, 0, {}) && !Valid(doc, rank, 0)
  {
    hide Children, Satisfied, Passes;
    NoChildren();
  }
}
