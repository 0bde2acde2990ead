/** What storage adoption keeps through crashes and lost commits, and what startup verification accepts. */
module AdoptionSafety {
  import opened Wrappers
  import opened Uuid
  import opened Content
  import opened StorageBinding
  import opened StorageAdoption

  /** A published marker names the single row, and a ready row has its marker. */
  ghost predicate Bound(st: State) {
    && (st.binding.Some? ==> ValidIds(st.binding.value))
    && (st.marker.Some? ==> st.binding.Some? && st.marker.value == BindingBytes(st.binding.value))
    && (IsReady(st.binding) ==> st.marker.Some?)
  }

  predicate ValidIdentity(i: Identity) {
    IsUuid(i.databaseId) && IsUuid(i.storeId) && IsUuid(i.generation)
  }

  /** The row may gain an intent and change its phase; its identity, once inserted, never changes. */
  ghost predicate IdentityKept(a: State, b: State) {
    a.binding.Some? ==> b.binding.Some? && SameIdentity(a.binding.value, b.binding.value)
  }

  ghost predicate StoreKept(a: State, b: State) {
    && b.site.objects == a.site.objects && b.site.references == a.site.references
    && b.backend == a.backend && b.populated == a.populated
    && (a.marker.Some? ==> b.marker == a.marker)
    && (forall r :: r in a.site.retained ==> r in b.site.retained && b.site.retained[r] == a.site.retained[r])
  }

  ghost predicate Keeps(a: State, b: State) {
    ValidState(b) && Bound(b) && IdentityKept(a, b) && StoreKept(a, b)
  }

  lemma MarkedKeeps(st: State)
    requires ValidState(st) && Bound(st) && st.binding.Some? && st.marker.None?
    ensures Keeps(st, Marked(st, BindingBytes(st.binding.value)))
  {
  }

  lemma ReadiedKeeps(st: State)
    requires ValidState(st) && Bound(st) && st.marker.Some?
    ensures Keeps(st, Readied(st))
  {
  }

  lemma KeepsTransitive(a: State, b: State, c: State)
    requires Keeps(a, b) && Keeps(b, c)
    ensures Keeps(a, c)
  {
  }

  lemma RelistedKeeps(st: State, listing: seq<ObjectRef>)
    requires ValidState(st) && Bound(st) && ListsAll(listing, st.site.objects)
    ensures Keeps(st, Relisted(st, listing))
  {
  }

  /** Where the second transaction can leave an installation. */
  lemma CompleteReaches(st: State, o: Options, digest: seq<Entry>, third: seq<ObjectRef>, f: Faults)
    requires ValidState(st) && Bound(st) && ListsAll(third, st.site.objects)
    ensures var t := Complete(st, o, digest, third, f).0;
      var marked := if st.marker.None? && st.binding.Some? then Marked(st, BindingBytes(st.binding.value)) else st;
      || t == st
      || (st.binding.Some? && (t == marked || t == Relisted(marked, third) || t == Readied(Relisted(marked, third))))
  {
  }

  lemma CompleteKeeps(st: State, o: Options, digest: seq<Entry>, third: seq<ObjectRef>, f: Faults)
    requires ValidState(st) && Bound(st) && ListsAll(third, st.site.objects)
    ensures Keeps(st, Complete(st, o, digest, third, f).0)
  {
    CompleteReaches(st, o, digest, third, f);
    hide Complete, InventoryAccepts;
    Reflexive(st);
    if st.binding.Some? {
      var marked := if st.marker.None? then Marked(st, BindingBytes(st.binding.value)) else st;
      if st.marker.None? { MarkedKeeps(st); }
      RelistedKeeps(marked, third);
      KeepsTransitive(st, marked, Relisted(marked, third));
      ReadiedKeeps(Relisted(marked, third));
      KeepsTransitive(st, Relisted(marked, third), Readied(Relisted(marked, third)));
    }
  }

  lemma PreparedKeeps(st: State, o: Options, ids: Identity, digest: seq<Entry>)
    requires ValidState(st) && Bound(st) && ValidIdentity(ids) && PrepareRefusal(st).None?
    ensures Keeps(st, Prepared(st, o, ids, digest))
  {
  }

  /** Where one attempt can leave an installation. */
  lemma AdoptReaches(st: State, o: Options, ids: Identity, l: Listings, f: Faults)
    requires ValidState(st) && ListAll(l, st.site.objects)
    ensures var t := Adopt(st, o, ids, l, f).0;
      || t == st
      || (PrepareRefusal(st).None?
          && var digest := InventoryOf(st.site).digest;
             PreparedValid(st, o, ids, digest);
             t == Resume(Prepared(st, o, ids, digest), o, digest, l, f).0)
  {
    hide InventoryOf, InventoryAccepts, IntentRefusal, Resume, Prepared;
  }

  /** Whatever one attempt meets, the marker stays the text of the single row and the identity stays fixed. */
  lemma AdoptKeeps(st: State, o: Options, ids: Identity, l: Listings, f: Faults)
    requires ValidState(st) && Bound(st) && ValidIdentity(ids) && ListAll(l, st.site.objects)
    ensures Keeps(st, Adopt(st, o, ids, l, f).0)
  {
    AdoptReaches(st, o, ids, l, f);
    hide Adopt, Complete;
    Reflexive(st);
    if PrepareRefusal(st).None? {
      var digest := InventoryOf(st.site).digest;
      var prepared := Prepared(st, o, ids, digest);
      PreparedKeeps(st, o, ids, digest);
      var relisted := Relisted(prepared, l.second);
      RelistedKeeps(prepared, l.second);
      CompleteKeeps(relisted, o, digest, l.third, f);
      KeepsTransitive(st, prepared, relisted);
      KeepsTransitive(st, relisted, Complete(relisted, o, digest, l.third, f).0);
    }
  }

  /** One attempt asks three times what the store lists. */
  datatype Attempt = Attempt(options: Options, ids: Identity, first: seq<ObjectRef>, more: Listings, faults: Faults)

  lemma AttemptKeeps(st: State, a: Attempt)
    requires ValidState(st) && Bound(st) && ValidAttempt(st, a)
    ensures ValidState(Relisted(st, a.first))
    ensures Keeps(st, Adopt(Relisted(st, a.first), a.options, a.ids, a.more, a.faults).0)
  {
    hide Adopt;
    var relisted := Relisted(st, a.first);
    RelistedKeeps(st, a.first);
    AdoptKeeps(relisted, a.options, a.ids, a.more, a.faults);
    KeepsTransitive(st, relisted, Adopt(relisted, a.options, a.ids, a.more, a.faults).0);
  }

  ghost predicate ValidAttempt(st: State, a: Attempt) {
    ValidIdentity(a.ids) && ListsAll(a.first, st.site.objects) && ListAll(a.more, st.site.objects)
  }

  ghost predicate ValidAttempts(st: State, attempts: seq<Attempt>) {
    forall a :: a in attempts ==> ValidAttempt(st, a)
  }

  /** Any number of attempts, with any options, listings and faults. */
  ghost function Attempts(st: State, attempts: seq<Attempt>): State
    requires ValidState(st) && Bound(st) && ValidAttempts(st, attempts)
    ensures ValidState(Attempts(st, attempts)) && Bound(Attempts(st, attempts))
    ensures IdentityKept(st, Attempts(st, attempts)) && StoreKept(st, Attempts(st, attempts))
    decreases |attempts|
  {
    if attempts == [] then st else
    var before := Attempts(st, attempts[..|attempts| - 1]);
    var a := attempts[|attempts| - 1];
    assert a in attempts;
    AttemptKeeps(before, a);
    Adopt(Relisted(before, a.first), a.options, a.ids, a.more, a.faults).0
  }

  /** From an installation with no row and no marker, through every history of attempts. */
  lemma EveryHistoryIsBound(st: State, attempts: seq<Attempt>)
    requires ValidState(st) && st.binding.None? && st.marker.None? && ValidAttempts(st, attempts)
    ensures var t := Attempts(st, attempts);
      && (t.marker.Some? ==> t.binding.Some? && t.marker.value == BindingBytes(t.binding.value))
      && (IsReady(t.binding) ==> t.marker.Some?)
  {
    assert Bound(st);
  }

  /** Whatever attempts come later, an identity once inserted and a marker once published stay. */
  lemma {:induction false} IdentityIsForever(st: State, attempts: seq<Attempt>, more: seq<Attempt>)
    requires ValidState(st) && Bound(st) && ValidAttempts(st, attempts + more)
    ensures ValidAttempts(st, attempts)
    ensures Keeps(Attempts(st, attempts), Attempts(st, attempts + more))
    decreases |more|
  {
    assert forall a :: a in attempts ==> a in attempts + more;
    if more == [] {
      assert attempts + more == attempts;
      Reflexive(Attempts(st, attempts));
    } else {
      var n := |more| - 1;
      var all, front := attempts + more, attempts + more[..n];
      assert all[..|all| - 1] == front && all[|all| - 1] == more[n] && more[n] in all;
      assert forall a :: a in front ==> a in all;
      IdentityIsForever(st, attempts, more[..n]);
      AttemptKeeps(Attempts(st, front), more[n]);
      hide Keeps, Adopt;
      KeepsTransitive(Attempts(st, attempts), Attempts(st, front), Attempts(st, all));
    }
  }

  lemma Reflexive(st: State)
    requires ValidState(st) && Bound(st)
    ensures Keeps(st, st)
  {
  }

  // ---------------------------------------------------------------- startup verification

  ghost predicate VerifyAccepts(st: State) {
    && IsReady(st.binding)
    && ValidIds(st.binding.value)
    && st.binding.value.backend == st.backend
    && st.marker == Some(BindingBytes(st.binding.value))
    && InventoryAccepts(st.site, false, false)
  }

  datatype BindingRefusal =
    | Required | NotReady | Invalid | BackendMismatch | MarkerAbsent | MarkerMismatch | Unproved(error: InventoryError)

  method VerifyStorageBinding(st: State) returns (r: Option<BindingRefusal>)
    requires ValidState(st)
    ensures r.None? <==> VerifyAccepts(st)
  {
    if st.binding.None? { return Some(Required); }
    var binding := st.binding.value;
    if !binding.phase.Ready? { return Some(NotReady); }
    if !(IsUuid(binding.databaseId) && IsUuid(binding.storeId) && IsUuid(binding.generation)) { return Some(Invalid); }
    if binding.backend != st.backend { return Some(BackendMismatch); }
    if st.marker.None? { return Some(MarkerAbsent); }
    if BindingBytes(binding) != st.marker.value { return Some(MarkerMismatch); }
    var proof := StorageInventory(st.site, false, false);
    if proof.Err? { return Some(Unproved(proof.error)); }
    return None;
  }

  /** Acceptance means: the store holds exactly the referenced and the retained objects, each as recorded. */
  lemma AcceptedStoreIsExact(st: State)
    requires ValidState(st) && VerifyAccepts(st)
    ensures st.site.objects.Keys == st.site.references.Keys + st.site.retained.Keys
    ensures st.site.references.Keys !! st.site.retained.Keys
    ensures forall r :: r in st.site.references ==> StampOf(st.site.objects[r]) == st.site.references[r]
    ensures forall r :: r in st.site.retained ==> StampOf(st.site.objects[r]) == st.site.retained[r]
  {
    assert Expected(st.site).Keys == st.site.references.Keys + st.site.retained.Keys;
    forall r | r in st.site.references ensures StampOf(st.site.objects[r]) == st.site.references[r] {
      assert r in Expected(st.site) && r !in st.site.retained;
    }
  }

  // ---------------------------------------------------------------- recovery

  /** The second transaction would go through: a proved store with this very intent committed. */
  ghost predicate Completable(st: State, o: Options) {
    && ValidState(st) && OptionsAllowed(o) && !o.mode.Inspect?
    && st.binding.Some? && st.binding.value.phase.Verifying? && st.binding.value.backend == st.backend
    && InventoryAccepts(st.site, false, true)
    && SameIntent(st.binding.value, o, InventoryOf(st.site).digest)
    && (o.mode.Initialize? ==> st.site.objects == map[] && !st.populated)
  }

  /** The first transaction would go through. */
  ghost predicate Preparable(st: State, o: Options) {
    && ValidState(st) && OptionsAllowed(o) && !o.mode.Inspect? && !(o.mode.Initialize? && IsReady(st.binding))
    && PrepareRefusal(st).None? && InventoryAccepts(st.site, true, AbsentAllowed(st))
    && IntentRefusal(st, o, InventoryOf(st.site).digest).None?
  }

  /** The command can still reach its end from here, whichever identity it would draw. */
  ghost predicate Recoverable(st: State, o: Options) {
    && ValidState(st) && Bound(st)
    && (|| (o.mode.Initialize? && VerifyAccepts(st))
        || (Preparable(st, o)
            && forall ids :: ValidIdentity(ids) ==> Completable(Prepared(st, o, ids, InventoryOf(st.site).digest), o)))
  }

  lemma SuccessIsRecoverable(st: State, o: Options, ids: Identity, l: Listings)
    requires ValidState(st) && Bound(st) && ValidIdentity(ids) && ListAll(l, st.site.objects)
    requires Adopt(st, o, ids, l, NO_FAULTS).1.ReadyNow?
    ensures Recoverable(st, o)
  {
    SuccessIsPreparable(st, o, ids, l);
    hide *;
    forall other | ValidIdentity(other) ensures Completable(Prepared(st, o, other, InventoryOf(st.site).digest), o) {
      SuccessPrepares(st, o, ids, l, other);
    }
    IsRecoverable(st, o);
  }

  lemma SuccessIsPreparable(st: State, o: Options, ids: Identity, l: Listings)
    requires ValidState(st) && ListAll(l, st.site.objects) && Adopt(st, o, ids, l, NO_FAULTS).1.ReadyNow?
    ensures Preparable(st, o)
  {
    hide Complete, InventoryAccepts;
  }

  /** Whether the second transaction goes through depends neither on the identities that were drawn nor on the listings. */
  lemma SuccessPrepares(st: State, o: Options, ids: Identity, l: Listings, other: Identity)
    requires ValidState(st) && Bound(st) && ValidIdentity(ids) && ValidIdentity(other) && ListAll(l, st.site.objects)
    requires Adopt(st, o, ids, l, NO_FAULTS).1.ReadyNow?
    ensures Completable(Prepared(st, o, other, InventoryOf(st.site).digest), o)
  {
    hide InventoryAccepts;
    var digest := InventoryOf(st.site).digest;
    SuccessIsPreparable(st, o, ids, l);
    PreparedKeeps(st, o, other, digest);
    var prepared := Prepared(st, o, other, digest);
    assert prepared.site == Prepared(st, o, ids, digest).site;
    AcceptedHasNoRepeat(st.site, true, AbsentAllowed(st));
    AcceptedHasNoRepeat(Relisted(prepared, l.second).site, false, true);
    RelistedInventory(prepared.site, l.second);
  }

  lemma AcceptedHasNoRepeat(s: Site, unreferenced: bool, absent: bool)
    requires InventoryAccepts(s, unreferenced, absent)
    ensures NoRepeat(s.listing)
  {
  }

  lemma CompletableIsRecoverable(st: State, o: Options)
    requires Completable(st, o) && Bound(st)
    ensures Recoverable(st, o)
  {
  }

  lemma ReadiedIsAccepted(st: State, o: Options)
    requires Completable(st, o) && Bound(st) && st.marker.Some?
    ensures Bound(Readied(st)) && VerifyAccepts(Readied(st))
  {
  }

  lemma ReadiedIsRecoverable(st: State, o: Options)
    requires Completable(st, o) && Bound(st) && st.marker.Some?
    ensures VerifyAccepts(Readied(st)) && Recoverable(Readied(st), o)
  {
    ReadiedIsAccepted(st, o);
    ReadiedIsValid(st, o);
    hide *;
    var t := Readied(st);
    if !o.mode.Initialize? {
      ReadiedIsPreparable(st, o);
      forall ids | ValidIdentity(ids) ensures Completable(Prepared(t, o, ids, InventoryOf(t.site).digest), o) {
        ReadiedPreparesAgain(st, o, ids);
      }
    }
    IsRecoverable(t, o);
  }

  lemma IsRecoverable(st: State, o: Options)
    requires ValidState(st) && Bound(st)
    requires || (o.mode.Initialize? && VerifyAccepts(st))
             || (Preparable(st, o) && forall ids :: ValidIdentity(ids) ==> Completable(Prepared(st, o, ids, InventoryOf(st.site).digest), o))
    ensures Recoverable(st, o)
  {
    hide Preparable, Completable, VerifyAccepts, Prepared;
  }

  lemma ReadiedIsValid(st: State, o: Options)
    requires Completable(st, o) && Bound(st)
    ensures ValidState(Readied(st))
  {
    assert Readied(st).site == st.site;
  }

  lemma ReadiedIsPreparable(st: State, o: Options)
    requires Completable(st, o) && Bound(st) && st.marker.Some? && !o.mode.Initialize?
    ensures Preparable(Readied(st), o)
  {
    var t := Readied(st);
    assert t.site == st.site && Leftovers(t.site) == map[];
  }

  lemma ReadiedPreparesAgain(st: State, o: Options, ids: Identity)
    requires Completable(st, o) && Bound(st) && st.marker.Some? && !o.mode.Initialize? && ValidIdentity(ids)
    ensures ValidState(Readied(st)) && Completable(Prepared(Readied(st), o, ids, InventoryOf(Readied(st).site).digest), o)
  {
    var t := Readied(st);
    assert Leftovers(t.site) == map[];
    assert t.site.retained + Leftovers(t.site) == t.site.retained;
    assert Prepared(t, o, ids, InventoryOf(t.site).digest).site == t.site;
  }

  lemma MarkedIsCompletable(st: State, o: Options)
    requires Completable(st, o) && Bound(st) && st.marker.None?
    ensures var t := Marked(st, BindingBytes(st.binding.value)); Completable(t, o) && Bound(t)
  {
    MarkedInventory(st.site);
  }

  /** Wherever the second transaction stops, the same command can be run again. */
  lemma CompleteStaysRecoverable(st: State, o: Options, third: seq<ObjectRef>, f: Faults)
    requires Completable(st, o) && Bound(st) && NoRepeat(third) && ListsAll(third, st.site.objects)
    ensures var (t, r) := Complete(st, o, InventoryOf(st.site).digest, third, f);
      && Recoverable(t, o) && !r.Refused?
      && (f == NO_FAULTS ==> r.ReadyNow? && VerifyAccepts(t))
  {
    var marked := if st.marker.None? then Marked(st, BindingBytes(st.binding.value)) else st;
    var relisted := Relisted(marked, third);
    CompleteGoesOn(st, o, third, f);
    if st.marker.None? { MarkedIsCompletable(st, o); }
    RelistedIsCompletable(marked, o, third);
    RelistedKeeps(marked, third);
    hide *;
    CompletableIsRecoverable(st, o);
    CompletableIsRecoverable(marked, o);
    CompletableIsRecoverable(relisted, o);
    ReadiedIsRecoverable(relisted, o);
  }

  /** Nothing refuses a second transaction that was proved possible; it is interrupted or it gets to its end. */
  lemma CompleteGoesOn(st: State, o: Options, third: seq<ObjectRef>, f: Faults)
    requires Completable(st, o) && Bound(st) && NoRepeat(third) && ListsAll(third, st.site.objects)
    ensures var (t, r) := Complete(st, o, InventoryOf(st.site).digest, third, f);
      var marked := if st.marker.None? then Marked(st, BindingBytes(st.binding.value)) else st;
      && (t == st || t == marked || t == Relisted(marked, third) || t == Readied(Relisted(marked, third)))
      && !r.Refused? && (f == NO_FAULTS ==> r.ReadyNow? && t == Readied(Relisted(marked, third)))
  {
    var marked := if st.marker.None? then Marked(st, BindingBytes(st.binding.value)) else st;
    MarkedDigest(st);
    if st.marker.None? { MarkedIsCompletable(st, o); }
    RelistedIsCompletable(marked, o, third);
    RootIsListed(Relisted(marked, third));
    hide InventoryAccepts, InventoryOf, BindingBytes;
  }

  /** Publishing the marker does not change the inventory. */
  lemma MarkedDigest(st: State)
    requires ValidState(st) && st.binding.Some?
    ensures InventoryOf(Marked(st, BindingBytes(st.binding.value)).site) == InventoryOf(st.site)
  {
    MarkedInventory(st.site);
  }

  /** Once there is a marker the store is not absent. */
  lemma RootIsListed(st: State)
    requires ValidState(st) && st.marker.Some? && InventoryAccepts(st.site, false, true)
    ensures InventoryAccepts(st.site, false, false)
  {
  }

  lemma AttemptStaysRecoverable(st: State, o: Options, ids: Identity, l: Listings, f: Faults)
    requires Recoverable(st, o) && ValidIdentity(ids) && ListAll(l, st.site.objects) && NoRepeat(l.second) && NoRepeat(l.third)
    ensures var (t, r) := Adopt(st, o, ids, l, f);
      && Recoverable(t, o)
      && (f == NO_FAULTS ==> (r.ReadyNow? || r.AlreadyBound?) && VerifyAccepts(t))
  {
    if Preparable(st, o) && !(o.mode.Initialize? && VerifyAccepts(st)) {
      var digest := InventoryOf(st.site).digest;
      var prepared := Prepared(st, o, ids, digest);
      PreparedKeeps(st, o, ids, digest);
      assert Completable(prepared, o);
      CompletableIsRecoverable(prepared, o);
      DigestIdentifiesContent(st.site, prepared.site);
      RelistedIsCompletable(prepared, o, l.second);
      RelistedKeeps(prepared, l.second);
      CompleteStaysRecoverable(Relisted(prepared, l.second), o, l.third, f);
    }
  }

  // ---------------------------------------------------------------- listing order

  /** A store that lists its objects in another order offers the same inventory, with the same digest. */
  lemma RelistedInventory(s: Site, listing: seq<ObjectRef>)
    requires ValidSite(s) && NoRepeat(s.listing) && NoRepeat(listing) && ListsAll(listing, s.objects)
    ensures var t := s.(listing := listing);
      && ValidSite(t) && InventoryOf(t).digest == InventoryOf(s).digest
      && forall unreferenced, absent :: InventoryAccepts(t, unreferenced, absent) == InventoryAccepts(s, unreferenced, absent)
  {
    var t := s.(listing := listing);
    assert ValidSite(t) && Expected(t) == Expected(s);
    DigestIdentifiesContent(s, t);
  }

  /** So the order of the listing does not stop a command, before or after its intent is committed. */
  lemma RelistingIsHarmless(st: State, o: Options, listing: seq<ObjectRef>)
    requires Recoverable(st, o) && NoRepeat(listing) && ListsAll(listing, st.site.objects)
    ensures Recoverable(Relisted(st, listing), o)
  {
    hide InventoryAccepts, InventoryOf;
    var t := Relisted(st, listing);
    AcceptedListing(st, o);
    RelistedInventory(st.site, listing);
    RelistedKeeps(st, listing);
    if !(o.mode.Initialize? && VerifyAccepts(st)) {
      var digest := InventoryOf(st.site).digest;
      assert Leftovers(t.site) == Leftovers(st.site);
      forall ids | ValidIdentity(ids) ensures Completable(Prepared(t, o, ids, digest), o) {
        var prepared := Prepared(st, o, ids, digest);
        assert Completable(prepared, o);
        RelistedIsCompletable(prepared, o, listing);
        assert Prepared(t, o, ids, digest) == Relisted(prepared, listing);
      }
    }
  }

  lemma AcceptedListing(st: State, o: Options)
    requires Recoverable(st, o)
    ensures NoRepeat(st.site.listing)
  {
    hide Prepared, Completable;
  }

  lemma RelistedIsCompletable(st: State, o: Options, listing: seq<ObjectRef>)
    requires Completable(st, o) && NoRepeat(listing) && ListsAll(listing, st.site.objects)
    ensures Completable(Relisted(st, listing), o) && InventoryOf(Relisted(st, listing).site).digest == InventoryOf(st.site).digest
  {
    RelistedInventory(st.site, listing);
  }

  // ---------------------------------------------------------------- the theorem

  ghost predicate NeverRepeat(a: Attempt) {
    NoRepeat(a.first) && NoRepeat(a.more.second) && NoRepeat(a.more.third)
  }

  /** Attempts at one command; each listing names every object once. */
  ghost predicate Retries(st: State, o: Options, attempts: seq<Attempt>) {
    ValidAttempts(st, attempts) && forall a :: a in attempts ==> a.options == o && NeverRepeat(a)
  }

  /**
   * Recovery: if a command would succeed undisturbed, then after any number of attempts at it, each stopped anywhere,
   * each drawing its own identities and meeting its own order at each of its listings, running it once more with
   * whatever identities and orders ends bound under the identity the first attempt committed, and the next startup
   * accepts.
   */
  lemma RerunRecovers(st: State, o: Options, ids: Identity, l: Listings, attempts: seq<Attempt>, last: Attempt)
    requires ValidState(st) && Bound(st) && ValidIdentity(ids) && ListAll(l, st.site.objects)
    requires Adopt(st, o, ids, l, NO_FAULTS).1.ReadyNow?
    requires Retries(st, o, attempts) && Retries(st, o, [last]) && last.faults == NO_FAULTS
    ensures ValidAttempt(st, last)
    ensures var stopped := Attempts(st, attempts);
      var (t, r) := Adopt(Relisted(stopped, last.first), o, last.ids, last.more, NO_FAULTS);
      && (r.ReadyNow? || r.AlreadyBound?) && VerifyAccepts(t)
      && IdentityKept(stopped, t) && t.site.objects == st.site.objects
  {
    hide Adopt, Recoverable, VerifyAccepts;
    assert last in [last];
    SuccessIsRecoverable(st, o, ids, l);
    AttemptsStayRecoverable(st, o, attempts);
    var stopped := Attempts(st, attempts);
    RelistingIsHarmless(stopped, o, last.first);
    RelistedKeeps(stopped, last.first);
    AttemptStaysRecoverable(Relisted(stopped, last.first), o, last.ids, last.more, NO_FAULTS);
    AdoptKeeps(Relisted(stopped, last.first), o, last.ids, last.more, NO_FAULTS);
  }

  lemma RecoverableIsBound(st: State, o: Options)
    requires Recoverable(st, o)
    ensures ValidState(st) && Bound(st)
  {
  }

  lemma {:induction false} AttemptsStayRecoverable(st: State, o: Options, attempts: seq<Attempt>)
    requires Recoverable(st, o) && Retries(st, o, attempts)
    ensures Recoverable(Attempts(st, attempts), o)
    decreases |attempts|
  {
    hide Adopt, Recoverable;
    if attempts != [] {
      var a := attempts[|attempts| - 1];
      assert a in attempts;
      RecoverableIsBound(st, o);
      var before := Attempts(st, attempts[..|attempts| - 1]);
      AttemptsStayRecoverable(st, o, attempts[..|attempts| - 1]);
      RelistingIsHarmless(before, o, a.first);
      AttemptStaysRecoverable(Relisted(before, a.first), o, a.ids, a.more, a.faults);
    }
  }
}
