/** On documents without reference cycles: when the search for an empty object is right about every schema. */
module SchemaValidity {
  import opened EmptySchema

  /** Ranks fall from a schema to its subschemas and from a reference to its target. */
  ghost predicate Acyclic(doc: Document, rank: map<Id, nat>) {
    && Closed(doc) && rank.Keys == doc.Keys
    && forall id {:trigger FallsAt(doc, rank, id)} :: id in doc ==> FallsAt(doc, rank, id)
  }

  ghost predicate FallsAt(doc: Document, rank: map<Id, nat>, id: Id)
    requires Closed(doc) && rank.Keys == doc.Keys && id in doc
  {
    assert ClosedAt(doc, id);
    && (forall c :: c in Children(KeywordsOf(doc[id])) ==> rank[c] < rank[id])
    && (doc[id].Ref? ==> rank[doc[id].target] < rank[id])
  }

  /** {} is valid: $ref applies its target beside its siblings, and the values true and {} accept everything. */
  ghost function Valid(doc: Document, rank: map<Id, nat>, id: Id): bool
    requires Acyclic(doc, rank) && id in doc
    decreases rank[id], 1
  {
    assert ClosedAt(doc, id) && FallsAt(doc, rank, id);
    match doc[id]
    case False => false
    case NoObject => true
    case Schema(k) => Satisfied(k, ValidChildren(doc, rank, id))
    case Ref(target, k) => Valid(doc, rank, target) && Satisfied(k, ValidChildren(doc, rank, id))
  }

  ghost function ValidChildren(doc: Document, rank: map<Id, nat>, id: Id): set<Id>
    requires Acyclic(doc, rank) && id in doc
    decreases rank[id], 0
  {
    assert ClosedAt(doc, id) && FallsAt(doc, rank, id);
    set c | c in Children(KeywordsOf(doc[id])) && Valid(doc, rank, c)
  }

  /** The keywords in the object itself, without what its own $ref adds. */
  ghost predicate OwnKeywords(doc: Document, rank: map<Id, nat>, id: Id)
    requires Acyclic(doc, rank) && id in doc
  {
    Satisfied(KeywordsOf(doc[id]), ValidChildren(doc, rank, id))
  }

  /** What a reference stands for accepts {} whenever the keywords of its target alone do. */
  ghost predicate Harmless(doc: Document, rank: map<Id, nat>, id: Id)
    requires Acyclic(doc, rank) && id in doc && doc[id].Ref?
  {
    assert ClosedAt(doc, id);
    OwnKeywords(doc, rank, doc[id].target) ==> Valid(doc, rank, id)
  }

  ghost predicate HarmlessBelow(doc: Document, rank: map<Id, nat>, bound: nat)
    requires Acyclic(doc, rank)
  {
    forall id :: id in doc && doc[id].Ref? && rank[id] < bound ==> Harmless(doc, rank, id)
  }

  lemma NoKeywordsPass(yes: set<Id>)
    ensures Satisfied(NO_KEYWORDS, yes) && Children(NO_KEYWORDS) == {}
  {
  }

  /** What the search returns for the schema at `at`, if it is right about its subschemas. */
  lemma {:induction false} EmptyAtMeans(doc: Document, rank: map<Id, nat>, at: Id, seen: set<Id>)
    requires Acyclic(doc, rank) && at in doc && seen <= doc.Keys
    requires forall s :: s in seen ==> rank[s] > rank[at]
    requires HarmlessBelow(doc, rank, rank[at])
    ensures EmptyAt(doc, at, seen) <==> OwnKeywords(doc, rank, at)
    decreases rank[at], 1
  {
    hide Passes, Satisfied, Children, EmptyChildren, ValidChildren, HarmlessBelow;
    if !doc[at].Schema? && !doc[at].Ref? {
      NoKeywordsPass(ValidChildren(doc, rank, at));
    } else {
      ChildrenAgree(doc, rank, at, seen);
      PassesIffSatisfied(KeywordsOf(doc[at]), ValidChildren(doc, rank, at));
    }
  }

  lemma {:induction false} ChildrenAgree(doc: Document, rank: map<Id, nat>, at: Id, seen: set<Id>)
    requires Acyclic(doc, rank) && at in doc && seen <= doc.Keys
    requires forall s :: s in seen ==> rank[s] > rank[at]
    requires HarmlessBelow(doc, rank, rank[at])
    ensures EmptyChildren(doc, at, seen + {at}) == ValidChildren(doc, rank, at)
    decreases rank[at], 0
  {
    hide Children, Empty, Valid;
    var next := seen + {at};
    assert ClosedAt(doc, at) && FallsAt(doc, rank, at);
    forall c | c in Children(KeywordsOf(doc[at])) ensures Empty(doc, c, next) <==> Valid(doc, rank, c) {
      EmptyMeans(doc, rank, c, next);
    }
  }

  lemma {:induction false} EmptyMeans(doc: Document, rank: map<Id, nat>, id: Id, seen: set<Id>)
    requires Acyclic(doc, rank) && id in doc && seen <= doc.Keys
    requires forall s :: s in seen ==> rank[s] > rank[id]
    requires HarmlessBelow(doc, rank, rank[id] + 1)
    ensures Empty(doc, id, seen) <==> Valid(doc, rank, id)
    decreases rank[id], 2
  {
    hide Passes, Satisfied, EmptyAt;
    assert ClosedAt(doc, id) && FallsAt(doc, rank, id);
    match doc[id]
    case Schema(_) => EmptyAtMeans(doc, rank, id, seen);
    case Ref(target, _) =>
      EmptyAtMeans(doc, rank, target, seen);
      ValidHasOwnKeywords(doc, rank, target);
      assert Harmless(doc, rank, id);
    case _ =>
  }

  lemma ValidHasOwnKeywords(doc: Document, rank: map<Id, nat>, id: Id)
    requires Acyclic(doc, rank) && id in doc
    ensures Valid(doc, rank, id) ==> OwnKeywords(doc, rank, id)
  {
    hide Satisfied, Children;
    NoKeywordsPass(ValidChildren(doc, rank, id));
  }

  /** On documents without reference cycles the search is right about every schema exactly when all references are harmless. */
  lemma {:induction false} EmptyIsValidityIff(doc: Document, rank: map<Id, nat>)
    requires Acyclic(doc, rank)
    ensures (forall id :: id in doc ==> (Empty(doc, id, {}) <==> Valid(doc, rank, id)))
        <==> (forall id :: id in doc && doc[id].Ref? ==> Harmless(doc, rank, id))
  {
    if forall id :: id in doc && doc[id].Ref? ==> Harmless(doc, rank, id) {
      forall id | id in doc ensures Empty(doc, id, {}) <==> Valid(doc, rank, id) { EmptyMeans(doc, rank, id, {}); }
    }
    if forall id :: id in doc ==> (Empty(doc, id, {}) <==> Valid(doc, rank, id)) {
      forall id | id in doc && doc[id].Ref? ensures Harmless(doc, rank, id) { RightMeansHarmless(doc, rank, id); }
    }
  }

  lemma {:induction false} RightMeansHarmless(doc: Document, rank: map<Id, nat>, id: Id)
    requires Acyclic(doc, rank) && id in doc && doc[id].Ref?
    requires forall x :: x in doc ==> (Empty(doc, x, {}) <==> Valid(doc, rank, x))
    ensures Harmless(doc, rank, id)
    decreases rank[id]
  {
    forall x | x in doc && doc[x].Ref? && rank[x] < rank[id] ensures Harmless(doc, rank, x) { RightMeansHarmless(doc, rank, x); }
    assert ClosedAt(doc, id) && FallsAt(doc, rank, id);
    EmptyAtMeans(doc, rank, doc[id].target, {});
    assert Empty(doc, id, {}) == EmptyAt(doc, doc[id].target, {});
  }

  /**
   * The same condition in terms of the search alone, so that it can be checked: where the search accepts a reference,
   * it also accepts the target by itself - which is then not false, and if it is a reference leads to a schema that
   * passes - and the siblings of the reference pass.
   */
  predicate Checked(doc: Document, id: Id)
    requires Closed(doc) && id in doc && doc[id].Ref?
  {
    assert ClosedAt(doc, id);
    Empty(doc, id, {}) ==> Empty(doc, doc[id].target, {}) && Passes(doc[id].siblings, EmptyChildren(doc, id, {id}))
  }

  /** Below references that are harmless the two conditions agree. */
  lemma CheckedIsHarmless(doc: Document, rank: map<Id, nat>, id: Id)
    requires Acyclic(doc, rank) && id in doc && doc[id].Ref? && HarmlessBelow(doc, rank, rank[id])
    ensures Checked(doc, id) <==> Harmless(doc, rank, id)
  {
    hide Passes, Satisfied, Children, EmptyChildren, ValidChildren, EmptyAt;
    assert ClosedAt(doc, id) && FallsAt(doc, rank, id);
    EmptyAtMeans(doc, rank, doc[id].target, {});
    assert Empty(doc, id, {}) == EmptyAt(doc, doc[id].target, {});
    EmptyMeans(doc, rank, doc[id].target, {});
    ChildrenAgree(doc, rank, id, {});
    assert {} + {id} == {id};
    PassesIffSatisfied(doc[id].siblings, ValidChildren(doc, rank, id));
  }

  lemma {:induction false} AllCheckedAreHarmless(doc: Document, rank: map<Id, nat>, id: Id)
    requires Acyclic(doc, rank) && id in doc && doc[id].Ref?
    requires forall x :: x in doc && doc[x].Ref? ==> Checked(doc, x)
    ensures Harmless(doc, rank, id)
    decreases rank[id]
  {
    hide Checked, Harmless;
    forall x | x in doc && doc[x].Ref? && rank[x] < rank[id] ensures Harmless(doc, rank, x) { AllCheckedAreHarmless(doc, rank, x); }
    CheckedIsHarmless(doc, rank, id);
  }

  /** So the search can be trusted on such a document exactly when it finds no reference that fails its own check. */
  lemma TrustedIffChecked(doc: Document, rank: map<Id, nat>)
    requires Acyclic(doc, rank)
    ensures (forall id :: id in doc ==> (Empty(doc, id, {}) <==> Valid(doc, rank, id)))
        <==> (forall id :: id in doc && doc[id].Ref? ==> Checked(doc, id))
  {
    hide Checked, Harmless, Empty, Valid;
    EmptyIsValidityIff(doc, rank);
    if forall id :: id in doc && doc[id].Ref? ==> Harmless(doc, rank, id) {
      forall id | id in doc && doc[id].Ref? ensures Checked(doc, id) { CheckedIsHarmless(doc, rank, id); }
    }
    if forall id :: id in doc && doc[id].Ref? ==> Checked(doc, id) {
      forall id | id in doc && doc[id].Ref? ensures Harmless(doc, rank, id) { AllCheckedAreHarmless(doc, rank, id); }
    }
  }

  /** In the documents the tool is written for references stand alone and lead to objects that are no references. */
  ghost predicate BareReferences(doc: Document)
    requires Closed(doc)
  {
    forall id {:trigger BareAt(doc, id)} :: id in doc && doc[id].Ref? ==> BareAt(doc, id)
  }

  ghost predicate BareAt(doc: Document, id: Id)
    requires Closed(doc) && id in doc && doc[id].Ref?
  {
    assert ClosedAt(doc, id);
    doc[id].siblings == NO_KEYWORDS && (doc[doc[id].target].Schema? || doc[doc[id].target].NoObject?)
  }

  /** There the answer is whether {} is valid. */
  lemma EmptyIsValidity(doc: Document, rank: map<Id, nat>, id: Id)
    requires Acyclic(doc, rank) && id in doc && BareReferences(doc)
    ensures Empty(doc, id, {}) <==> Valid(doc, rank, id)
  {
    hide Satisfied, Children, FallsAt;
    forall x | x in doc && doc[x].Ref? ensures Harmless(doc, rank, x) {
      assert BareAt(doc, x);
      BareIsHarmless(doc, rank, x);
    }
    EmptyIsValidityIff(doc, rank);
  }

  lemma BareIsHarmless(doc: Document, rank: map<Id, nat>, id: Id)
    requires Acyclic(doc, rank) && id in doc && doc[id].Ref? && BareAt(doc, id)
    ensures Harmless(doc, rank, id)
  {
    hide Satisfied, Children;
    assert ClosedAt(doc, id) && FallsAt(doc, rank, id);
    NoKeywordsPass(ValidChildren(doc, rank, id));
    assert OwnKeywords(doc, rank, doc[id].target) ==> Valid(doc, rank, doc[id].target);
  }
}
