/** What one adoption command does and when, written out without the functions that specify it step by step. */
module AdoptionEffects {
  import opened Wrappers
  import opened Content
  import opened StorageBinding
  import opened StorageAdoption
  import opened AdoptionSafety

  /** Binding and marker fit together and belong to this kind of store. */
  ghost predicate Fitting(st: State) {
    && (st.binding.Some? ==> st.binding.value.backend == st.backend)
    && (st.marker.Some? ==> st.binding.Some? && st.marker.value == BindingBytes(st.binding.value))
    && (st.binding.Some? && st.binding.value.phase.Ready? ==> st.marker.Some?)
  }

  /** The first inventory: nothing listed twice, nothing expected missing or different, a store there unless none is due yet. */
  ghost predicate Inventoried(st: State) {
    && NoRepeat(st.site.listing)
    && (forall r :: r in st.site.references ==> r !in st.site.retained && HasContent(st.site, r, st.site.references[r]))
    && (forall r :: r in st.site.retained ==> HasContent(st.site, r, st.site.retained[r]))
    && (st.site.root || (st.binding.None? && st.marker.None?) || (st.binding.Some? && st.binding.value.phase.Verifying?))
  }

  ghost predicate HasContent(s: Site, r: ObjectRef, stamp: Stamp) {
    r in s.objects && StampOf(s.objects[r]) == stamp
  }

  /** Stored, but neither referenced nor retained. */
  ghost predicate Unexplained(s: Site, r: ObjectRef) {
    r in s.objects && r !in s.references && r !in s.retained
  }

  /** The operator may ask for this: anybody may initialize; all else needs the fence, and to change something a checkpoint. */
  predicate MayAsk(o: Options) {
    match o.mode
    case Initialize => true
    case Inspect => o.fenced
    case Reconcile => o.fenced && CheckpointName(o.checkpoint)
  }

  /** What the mode asks of the installation: an empty unbound one, or one that is bound, with its unexplained objects to be retained. */
  ghost predicate ModeFits(st: State, o: Options)
    requires ValidState(st)
  {
    && !o.mode.Inspect?
    && (o.mode.Initialize? ==> st.site.objects == map[] && !st.populated)
    && match st.binding
       case None => o.mode.Initialize? && forall r :: r in st.site.retained ==> r in st.site.references || r !in st.site.objects
       case Some(b) =>
         if b.phase.Verifying? then
           b.intent == o.mode && b.checkpoint == o.checkpoint && b.retain == o.retain && b.inventory == Some(InventoryOf(st.site).digest)
         else o.mode.Reconcile? && (o.retain || forall r :: !Unexplained(st.site, r))
  }

  ghost predicate AlreadyReady(st: State, o: Options) {
    o.mode.Initialize? && st.binding.Some? && st.binding.value.phase.Ready?
  }

  /** The command gets as far as committing its intent. */
  ghost predicate Goes(st: State, o: Options, alone: bool)
    requires ValidState(st)
  {
    MayAsk(o) && !AlreadyReady(st, o) && alone && Fitting(st) && Inventoried(st) && ModeFits(st, o)
  }

  lemma InventoriedIff(st: State)
    requires ValidState(st)
    ensures InventoryAccepts(st.site, true, AbsentAllowed(st)) <==> Inventoried(st)
  {
    var s := st.site;
    if InventoryAccepts(s, true, AbsentAllowed(st)) {
      forall r | r in s.references ensures r !in s.retained && HasContent(s, r, s.references[r]) { assert r in Expected(s); }
      forall r | r in s.retained ensures HasContent(s, r, s.retained[r]) { assert r in Expected(s); }
    }
    if Inventoried(st) {
      forall r | r in Expected(s) ensures r in s.objects && StampOf(s.objects[r]) == Expected(s)[r] {
        assert r in s.retained || r in s.references;
      }
    }
  }

  lemma ModeFitsIff(st: State, o: Options)
    requires ValidState(st) && !AlreadyReady(st, o) && Inventoried(st)
    ensures !o.mode.Inspect? && IntentRefusal(st, o, InventoryOf(st.site).digest).None? <==> ModeFits(st, o)
  {
    hide InventoryOf;
    assert Leftovers(st.site) == map[] <==> forall r :: !Unexplained(st.site, r) by {
      assert forall r :: r in Leftovers(st.site) <==> Unexplained(st.site, r);
    }
  }

  /** A command that does not get that far changes nothing. */
  lemma RefusedBeforehand(st: State, o: Options, ids: Identity, l: Listings, f: Faults)
    requires ValidState(st) && ListAll(l, st.site.objects) && !Goes(st, o, f.alone)
    ensures var (t, r) := Adopt(st, o, ids, l, f); t == st && (r.Refused? || r.AlreadyBound? || r.Inspected?)
  {
    InventoriedIff(st);
    if !AlreadyReady(st, o) && Inventoried(st) { ModeFitsIff(st, o); }
    hide InventoryOf, InventoryAccepts, Inventoried, ModeFits, IntentRefusal, Resume, Prepared, AbsentAllowed, CheckpointName, BindingBytes,
      ListAll, ValidState;
  }

  /** Who is told what before anything is changed. */
  lemma ToldBeforehand(st: State, o: Options, ids: Identity, l: Listings, f: Faults)
    requires ValidState(st) && ListAll(l, st.site.objects)
    ensures var r := Adopt(st, o, ids, l, f).1;
      && (!MayAsk(o) ==> r == Refused(CheckpointAndFenceRequired))
      && (MayAsk(o) && AlreadyReady(st, o) ==>
            r == if st.marker.Some? && Fitting(st) then AlreadyBound else Refused(IntentMismatch))
      && (MayAsk(o) && !AlreadyReady(st, o) && !f.alone ==> r == Refused(StopAllServers))
      && (MayAsk(o) && !AlreadyReady(st, o) && f.alone && o.mode.Inspect? ==> (r == Inspected <==> Fitting(st) && Inventoried(st)))
  {
    InventoriedIff(st);
    hide InventoryOf, InventoryAccepts, Inventoried, ModeFits, IntentRefusal, Resume, Prepared, AbsentAllowed, CheckpointName, BindingBytes,
      ListAll, ValidState;
  }

  /** Why the mode does not fit, for an installation that is in order so far. */
  ghost predicate Misfits(st: State, o: Options, e: Refusal)
    requires ValidState(st)
  {
    var s := st.site;
    var orphaned := st.binding.None? && exists r :: r in s.objects && r in s.retained;
    var occupied := !orphaned && o.mode.Initialize? && (s.objects != map[] || st.populated);
    var verifying := !orphaned && !occupied && WasVerifying(st);
    var settled := !orphaned && !occupied && !WasVerifying(st);
    match e
    case UnboundDataUnsupported => occupied
    case UnreferencedRequiresRetention => settled && o.mode.Reconcile? && st.binding.Some? && !o.retain && exists r :: Unexplained(s, r)
    case IntentMismatch =>
      || orphaned
      || (verifying && !SameIntent(st.binding.value, o, InventoryOf(s).digest))
      || (settled && (o.mode.Reconcile? <==> st.binding.None?))
    case _ => false
  }

  /** Each refusal of an attempt that is alone and may be asked for names its cause; the first cause wins. */
  lemma RefusalNamesCause(st: State, o: Options, ids: Identity, l: Listings, f: Faults, e: Refusal)
    requires ValidState(st) && ListAll(l, st.site.objects) && MayAsk(o) && !AlreadyReady(st, o) && f.alone
    ensures var r := Adopt(st, o, ids, l, f).1;
      var unmarked := st.binding.Some? && st.binding.value.backend == st.backend && st.binding.value.phase.Ready? && st.marker.None?;
      && (!Fitting(st) ==> r == Refused(if unmarked then MarkerMissing else IntentMismatch))
      && (Fitting(st) && !Inventoried(st) ==> r == Refused(InventoryRefused(InventoryMismatch)))
      && (Fitting(st) && Inventoried(st) && !o.mode.Inspect? && !ModeFits(st, o) ==> (r == Refused(e) <==> Misfits(st, o, e)))
  {
    InventoriedIff(st);
    if Inventoried(st) { ModeFitsIff(st, o); }
    if Fitting(st) && Inventoried(st) && !o.mode.Inspect? { IntentRefusalIff(st, o, e); }
    hide InventoryOf, InventoryAccepts, Inventoried, ModeFits, IntentRefusal, Resume, Prepared, AbsentAllowed, CheckpointName, BindingBytes,
      ListAll, ValidState, Misfits;
  }

  lemma IntentRefusalIff(st: State, o: Options, e: Refusal)
    requires ValidState(st) && Inventoried(st) && !o.mode.Inspect? && !AlreadyReady(st, o)
    ensures IntentRefusal(st, o, InventoryOf(st.site).digest) == Some(e) <==> Misfits(st, o, e)
  {
    hide InventoryOf;
    assert forall r :: r in Leftovers(st.site) <==> Unexplained(st.site, r);
  }

  predicate WasVerifying(st: State) {
    st.binding.Some? && st.binding.value.phase.Verifying?
  }

  /** What the first transaction leaves: the intent under the old or the drawn identity, and every unexplained object retained. */
  ghost predicate IntentRecorded(st: State, o: Options, ids: Identity, b: Binding, retained: map<ObjectRef, Stamp>)
    requires ValidState(st)
  {
    && b.backend == st.backend
    && (if st.binding.Some? then SameIdentity(b, st.binding.value)
        else b.databaseId == ids.databaseId && b.storeId == ids.storeId && b.generation == ids.generation)
    && b.intent == o.mode && b.checkpoint == o.checkpoint && b.retain == o.retain && b.inventory == Some(InventoryOf(st.site).digest)
    && (forall r :: r in retained <==> r in st.site.retained || (Unexplained(st.site, r) && !WasVerifying(st)))
    && (forall r :: r in retained ==>
          retained[r] == if Unexplained(st.site, r) then StampOf(st.site.objects[r]) else st.site.retained[r])
  }

  lemma PreparedRecords(st: State, o: Options, ids: Identity)
    requires ValidState(st) && Goes(st, o, true)
    ensures var p := Prepared(st, o, ids, InventoryOf(st.site).digest);
      && p.binding.Some? && p.binding.value.phase.Verifying? && IntentRecorded(st, o, ids, p.binding.value, p.site.retained)
      && p == st.(binding := p.binding, site := st.site.(retained := p.site.retained))
  {
    hide InventoryOf, Inventoried, BindingBytes;
    assert forall r :: r in Leftovers(st.site) <==> Unexplained(st.site, r);
    assert forall r :: r in Leftovers(st.site) ==> Leftovers(st.site)[r] == StampOf(st.site.objects[r]);
  }

  /** The second transaction finds the store as the first one left it. */
  ghost predicate SecondProves(prepared: State, second: seq<ObjectRef>) {
    NoRepeat(second) && forall r :: !Unexplained(prepared.site, r)
  }

  /** Where the second transaction ends, by what happens to it. */
  ghost predicate Ends(p: State, l: Listings, f: Faults, t: State, r: Outcome)
    requires p.binding.Some?
  {
    var bytes := Some(BindingBytes(p.binding.value));
    var published := p.marker.Some? || f.publish.Published?;
    var proved := f.prepare.Acknowledged? && f.stillAlone && SecondProves(p, l.second);
    && t.binding.Some? && t.binding.value.(phase := Verifying) == p.binding.value
    && t.site == p.site.(listing := t.site.listing, root := t.site.root) && t.backend == p.backend && t.populated == p.populated
    && (t.marker == if proved && !(p.marker.None? && f.publish.Unpublished?) then bytes else p.marker)
    && (t.binding.value.phase.Ready? <==> proved && published && NoRepeat(l.third) && !f.complete.RolledBack?)
    && (r.Refused? <==> f.prepare.Acknowledged? && (!proved || (published && !NoRepeat(l.third))))
    && (r == Refused(StopAllServers) <==> f.prepare.Acknowledged? && !f.stillAlone)
    && (r.ReadyNow? <==> t.binding.value.phase.Ready? && f.complete.Acknowledged?)
    && (r.Refused? || r.ReadyNow? || r.Interrupted?)
  }

  /** All that is expected is stored as recorded, in the state that the first transaction leaves. */
  ghost predicate Recorded(p: State, o: Options) {
    && ValidState(p) && Fitting(p) && NoRepeat(p.site.listing)
    && p.site.references.Keys !! p.site.retained.Keys && Expected(p.site).Keys <= p.site.objects.Keys && ContentProved(p.site)
    && p.binding.Some? && p.binding.value.phase.Verifying? && SameIntent(p.binding.value, o, InventoryOf(p.site).digest)
  }

  lemma PreparedIsRecorded(st: State, o: Options, ids: Identity)
    requires ValidState(st) && Goes(st, o, true)
    ensures Recorded(Prepared(st, o, ids, InventoryOf(st.site).digest), o)
  {
    var p := Prepared(st, o, ids, InventoryOf(st.site).digest);
    PreparedRecords(st, o, ids);
    PreparedValid(st, o, ids, InventoryOf(st.site).digest);
    DigestIdentifiesContent(st.site, p.site);
    PreparedFits(st, o, ids);
    hide Prepared, InventoryOf, BindingBytes, ModeFits, MayAsk, Fitting;
    forall r | r in Expected(p.site) ensures r in p.site.objects && StampOf(p.site.objects[r]) == Expected(p.site)[r] {
      assert r in p.site.retained || r in p.site.references;
      assert r in st.site.retained ==> HasContent(st.site, r, st.site.retained[r]);
      assert r in st.site.references ==> HasContent(st.site, r, st.site.references[r]);
    }
    forall r | r in p.site.references ensures r !in p.site.retained { assert r !in st.site.retained && !Unexplained(st.site, r); }
  }

  lemma PreparedFits(st: State, o: Options, ids: Identity)
    requires ValidState(st) && Goes(st, o, true)
    ensures Fitting(Prepared(st, o, ids, InventoryOf(st.site).digest))
  {
    hide InventoryOf, Inventoried, MayAsk, Leftovers;
  }

  lemma SecondProvesIff(p: State, o: Options, second: seq<ObjectRef>)
    requires Recorded(p, o) && ListsAll(second, p.site.objects)
    ensures InventoryAccepts(Relisted(p, second).site, false, true) <==> SecondProves(p, second)
    ensures SecondProves(p, second) ==> InventoryOf(Relisted(p, second).site).digest == InventoryOf(p.site).digest
  {
    var s := Relisted(p, second).site;
    assert Expected(s) == Expected(p.site) && Expected(s).Keys == s.references.Keys + s.retained.Keys;
    if SecondProves(p, second) {
      forall r | r in s.objects ensures r in Expected(s) { assert !Unexplained(p.site, r); }
      DigestIdentifiesContent(p.site, s);
    }
    if InventoryAccepts(s, false, true) {
      forall r ensures !Unexplained(p.site, r) { if r in s.objects { assert r in Expected(s); } }
    }
  }

  /** With the second inventory proved and a marker there, the third one can only fail by listing something twice. */
  lemma ThirdProvesIff(p: State, o: Options, q: State)
    requires Recorded(p, o) && (forall r :: !Unexplained(p.site, r)) && ValidState(q)
    requires q.site == p.site.(listing := q.site.listing, root := true)
    ensures InventoryAccepts(q.site, false, false) <==> NoRepeat(q.site.listing)
    ensures NoRepeat(q.site.listing) ==> InventoryOf(q.site).digest == InventoryOf(p.site).digest
  {
    var s := q.site;
    assert Expected(s) == Expected(p.site) && Expected(s).Keys == s.references.Keys + s.retained.Keys;
    forall r | r in s.objects ensures r in Expected(s) { assert !Unexplained(p.site, r); }
    if NoRepeat(s.listing) { DigestIdentifiesContent(p.site, s); }
  }

  /** Where the second transaction stops, if it stops at all. */
  ghost predicate Stops(q: State, second: bool, third: seq<ObjectRef>, f: Faults, t: State, r: Outcome)
    requires q.binding.Some?
  {
    var marked := if q.marker.None? then Marked(q, BindingBytes(q.binding.value)) else q;
    var again := Relisted(marked, third);
    if !second then t == q && r.Refused? && !r.refusal.StopAllServers?
    else if q.marker.None? && f.publish.Unpublished? then t == q && r.Interrupted?
    else if q.marker.None? && f.publish.PublishedUnheard? then t == marked && r.Interrupted?
    else if !NoRepeat(third) then t == again && r.Refused? && !r.refusal.StopAllServers?
    else if f.complete.RolledBack? then t == again && r.Interrupted?
    else t == Readied(again) && r == if f.complete.Unheard? then Interrupted else ReadyNow
  }

  /** The second transaction by its faults, once the outcome of both its inventories is known. */
  lemma CompleteStops(q: State, o: Options, digest: seq<Entry>, second: bool, third: seq<ObjectRef>, f: Faults)
    requires ValidState(q) && ListsAll(third, q.site.objects) && Fitting(q)
    requires q.binding.Some? && SameIntent(q.binding.value, o, digest)
    requires InventoryAccepts(q.site, false, true) <==> second
    requires second ==> InventoryOf(q.site).digest == digest
    requires var again := Again(q, third);
      second ==> ValidState(again) && (InventoryAccepts(again.site, false, false) <==> NoRepeat(third))
                 && (NoRepeat(third) ==> InventoryOf(again.site).digest == digest)
    ensures var (t, r) := Complete(q, o, digest, third, f); Stops(q, second, third, f, t, r)
  {
    hide InventoryAccepts, InventoryOf, BindingBytes, SameIntent, NoRepeat, ValidState, ListsAll;
  }

  function Again(q: State, third: seq<ObjectRef>): State {
    Relisted(if q.marker.None? && q.binding.Some? then Marked(q, BindingBytes(q.binding.value)) else q, third)
  }

  lemma AgainIsValid(p: State, l: Listings)
    requires ValidState(p) && ListAll(l, p.site.objects)
    ensures ValidState(Relisted(p, l.second)) && ListsAll(l.third, Relisted(p, l.second).site.objects)
    ensures ValidState(Again(Relisted(p, l.second), l.third))
  {
  }

  lemma CompleteBy(p: State, o: Options, l: Listings, f: Faults)
    requires Recorded(p, o) && ListAll(l, p.site.objects)
    ensures ValidState(Relisted(p, l.second)) && ListsAll(l.third, Relisted(p, l.second).site.objects)
    ensures var (t, r) := Complete(Relisted(p, l.second), o, InventoryOf(p.site).digest, l.third, f);
      Stops(Relisted(p, l.second), SecondProves(p, l.second), l.third, f, t, r)
  {
    hide Complete, InventoryAccepts, InventoryOf, BindingBytes, Unexplained, ContentProved, Expected, NoRepeat, Stops, ListsAll;
    AgainIsValid(p, l);
    SecondProvesIff(p, o, l.second);
    var q := Relisted(p, l.second);
    if SecondProves(p, l.second) { ThirdProvesIff(p, o, Again(q, l.third)); }
    CompleteStops(q, o, InventoryOf(p.site).digest, SecondProves(p, l.second), l.third, f);
  }

  lemma ResumeEnds(p: State, o: Options, l: Listings, f: Faults)
    requires Recorded(p, o) && ListAll(l, p.site.objects) && !f.prepare.RolledBack?
    ensures var (t, r) := Resume(p, o, InventoryOf(p.site).digest, l, f); Ends(p, l, f, t, r)
  {
    hide Complete, InventoryAccepts, InventoryOf, BindingBytes, ContentProved, Expected, SameIntent, NoRepeat, SecondProves;
    if f.prepare.Acknowledged? && f.stillAlone { CompleteBy(p, o, l, f); }
  }

  /** What a command that gets that far does, for every fault. */
  lemma GoesOn(st: State, o: Options, ids: Identity, l: Listings, f: Faults)
    requires ValidState(st) && ListAll(l, st.site.objects) && Goes(st, o, f.alone)
    ensures var (t, r) := Adopt(st, o, ids, l, f);
      var p := Prepared(st, o, ids, InventoryOf(st.site).digest);
      if f.prepare.RolledBack? then t == st && r.Interrupted?
      else p.binding.Some? && IntentRecorded(st, o, ids, p.binding.value, p.site.retained) && Ends(p, l, f, t, r)
  {
    var p := Prepared(st, o, ids, InventoryOf(st.site).digest);
    PreparedRecords(st, o, ids);
    PreparedIsRecorded(st, o, ids);
    SameDigest(st, o, ids);
    if !f.prepare.RolledBack? { ResumeEnds(p, o, l, f); }
    AdoptResumes(st, o, ids, l, f);
    hide *;
  }

  lemma SameDigest(st: State, o: Options, ids: Identity)
    requires ValidState(st) && Goes(st, o, true)
    ensures ValidState(Prepared(st, o, ids, InventoryOf(st.site).digest))
    ensures InventoryOf(Prepared(st, o, ids, InventoryOf(st.site).digest).site).digest == InventoryOf(st.site).digest
  {
    PreparedValid(st, o, ids, InventoryOf(st.site).digest);
    DigestIdentifiesContent(st.site, Prepared(st, o, ids, InventoryOf(st.site).digest).site);
  }

  lemma AdoptResumes(st: State, o: Options, ids: Identity, l: Listings, f: Faults)
    requires ValidState(st) && ListAll(l, st.site.objects) && Goes(st, o, f.alone)
    ensures ValidState(Prepared(st, o, ids, InventoryOf(st.site).digest))
    ensures Prepared(st, o, ids, InventoryOf(st.site).digest).site.objects == st.site.objects
    ensures Adopt(st, o, ids, l, f) ==
      if f.prepare.RolledBack? then (st, Interrupted) else Resume(Prepared(st, o, ids, InventoryOf(st.site).digest), o, InventoryOf(st.site).digest, l, f)
  {
    PreparedValid(st, o, ids, InventoryOf(st.site).digest);
    InventoriedIff(st);
    ModeFitsIff(st, o);
    hide InventoryOf, InventoryAccepts, Inventoried, ModeFits, IntentRefusal, Resume, Prepared, AbsentAllowed, CheckpointName, BindingBytes,
      ListAll, ValidState;
  }

  // ---------------------------------------------------------------- while servers run

  ghost predicate SameButListed(a: State, b: State) {
    b == Relisted(a, b.site.listing)
  }

  /** Nothing is changed beside a running server: whatever attempts are made, only what the store lists may be another. */
  lemma {:induction false} ServersAreSafe(st: State, attempts: seq<Attempt>)
    requires ValidState(st) && Bound(st) && ValidAttempts(st, attempts) && forall a :: a in attempts ==> !a.faults.alone
    ensures SameButListed(st, Attempts(st, attempts))
    decreases |attempts|
  {
    if attempts != [] {
      var front, a := attempts[..|attempts| - 1], attempts[|attempts| - 1];
      assert a in attempts;
      ServersAreSafe(st, front);
      var before := Relisted(Attempts(st, front), a.first);
      AttemptKeeps(Attempts(st, front), a);
      hide Adopt, Keeps;
      RefusedBeforehand(before, a.options, a.ids, a.more, a.faults);
    }
  }

  /** So an attempt that changes the binding, the retained objects or the marker had the installation to itself. */
  lemma ChangesNeedSolitude(st: State, a: Attempt)
    requires ValidState(st) && Bound(st) && ValidAttempt(st, a)
    ensures ValidState(Relisted(st, a.first))
    ensures var t := Adopt(Relisted(st, a.first), a.options, a.ids, a.more, a.faults).0;
      t.binding != st.binding || t.site.retained != st.site.retained || t.marker != st.marker ==> a.faults.alone
  {
    AttemptKeeps(st, a);
    hide Adopt, Keeps;
    if !a.faults.alone { RefusedBeforehand(Relisted(st, a.first), a.options, a.ids, a.more, a.faults); }
  }

  /** A letter or a digit, by its code point. */
  predicate LetterOrDigit(c: char) {
    48 <= c as int <= 57 || 65 <= c as int <= 90 || 97 <= c as int <= 122
  }

  /** A Checkpoint's name has 1 to 256 letters, digits, dots, underscores, colons, slashes and hyphens, a letter or digit first. */
  lemma CheckpointNameIff(s: string)
    ensures CheckpointName(s) <==>
      && 1 <= |s| <= 256 && LetterOrDigit(s[0])
      && forall i :: 0 <= i < |s| ==> LetterOrDigit(s[i]) || s[i] == '.' || s[i] == '_' || s[i] == ':' || s[i] == '/' || s[i] == '-'
  {
  }
}
