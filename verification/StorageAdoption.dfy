/**
Binding a store to its database: commit the intent, publish the marker, prove the inventory again, mark
the binding ready (apps/server/blobs/storage-adoption.ts). The command holds the storage lease alone; what
can go wrong at each commit and at the publication is an input.
*/
module StorageAdoption {
  import opened Wrappers
  import opened Content
  import opened StorageBinding

  datatype Options = Options(mode: Mode, fenced: bool, checkpoint: string, retain: bool)

  /** Identities drawn for a new binding. */
  datatype Identity = Identity(databaseId: string, storeId: string, generation: string)

  datatype Commit = Acknowledged | Unheard | RolledBack
  datatype Publish = Published | Unpublished | PublishedUnheard

  /** What happens to one attempt: servers connected at its start or after its first transaction, the two commits, the publication. */
  datatype Faults = Faults(alone: bool, prepare: Commit, stillAlone: bool, publish: Publish, complete: Commit)

  const NO_FAULTS := Faults(true, Acknowledged, true, Published, Acknowledged)

  datatype Refusal =
    | CheckpointAndFenceRequired | StopAllServers | IntentMismatch | MarkerMissing | InventoryRefused(error: InventoryError)
    | UnboundDataUnsupported | UnreferencedRequiresRetention

  datatype Outcome = ReadyNow | AlreadyBound | Inspected | Refused(refusal: Refusal) | Interrupted

  datatype State = State(backend: Backend, site: Site, binding: Option<Binding>, marker: Option<string>, populated: bool)

  ghost predicate ValidState(st: State) {
    && ValidSite(st.site)
    && (st.marker.Some? ==> st.site.root)
    && (st.backend.S3? ==> st.site.root)
  }

  predicate IsAlphanumeric(c: char) {
    'A' <= c <= 'Z' || 'a' <= c <= 'z' || '0' <= c <= '9'
  }

  /** ^[A-Za-z0-9][A-Za-z0-9._:/-]{0,255}$ */
  predicate CheckpointName(s: string) {
    && 1 <= |s| <= 256 && IsAlphanumeric(s[0])
    && forall i :: 1 <= i < |s| ==> IsAlphanumeric(s[i]) || s[i] in "._:/-"
  }

  predicate OptionsAllowed(o: Options) {
    o.mode.Initialize? || (o.fenced && (o.mode.Inspect? || CheckpointName(o.checkpoint)))
  }

  predicate IsReady(b: Option<Binding>) {
    b.Some? && b.value.phase.Ready?
  }

  function Leftovers(s: Site): map<ObjectRef, Stamp> {
    map r | r in s.objects && r !in s.references && r !in s.retained :: StampOf(s.objects[r])
  }

  // ---------------------------------------------------------------- specification

  predicate SameIntent(b: Binding, o: Options, digest: seq<Entry>) {
    b.intent == o.mode && b.checkpoint == o.checkpoint && b.retain == o.retain && b.inventory == Some(digest)
  }

  /** The checks of the first transaction that look at the binding and the marker. */
  function PrepareRefusal(st: State): Option<Refusal> {
    if st.binding.Some? && st.binding.value.backend != st.backend then Some(IntentMismatch)
    else if st.marker.Some? && (st.binding.None? || BindingBytes(st.binding.value) != st.marker.value) then Some(IntentMismatch)
    else if IsReady(st.binding) && st.marker.None? then Some(MarkerMissing)
    else None
  }

  /** Before anything is published a filesystem store may have no directory yet. */
  predicate AbsentAllowed(st: State) {
    (st.binding.None? && st.marker.None?) || (st.binding.Some? && st.binding.value.phase.Verifying?)
  }

  /** The remaining checks of the first transaction, once the inventory is known. */
  function IntentRefusal(st: State, o: Options, digest: seq<Entry>): Option<Refusal> {
    if st.binding.None? && (exists r :: r in st.site.objects && r in st.site.retained && r !in st.site.references) then Some(IntentMismatch)
    else if o.mode.Initialize? && (st.site.objects != map[] || st.populated) then Some(UnboundDataUnsupported)
    else if st.binding.Some? && st.binding.value.phase.Verifying? then
      if SameIntent(st.binding.value, o, digest) then None else Some(IntentMismatch)
    else if o.mode.Initialize? == st.binding.Some? then Some(IntentMismatch)
    else if Leftovers(st.site) != map[] && !o.retain then Some(UnreferencedRequiresRetention)
    else None
  }

  /** The intent the first transaction commits. */
  function Prepared(st: State, o: Options, ids: Identity, digest: seq<Entry>): State {
    if st.binding.Some? && st.binding.value.phase.Verifying? then st else
    var identity := if st.binding.Some? then st.binding.value
                    else Binding(ids.databaseId, ids.storeId, ids.generation, st.backend, Verifying, o.mode, "", false, None);
    st.(binding := Some(identity.(phase := Verifying, intent := o.mode, checkpoint := o.checkpoint, retain := o.retain,
                                  inventory := Some(digest))),
        site := st.site.(retained := st.site.retained + Leftovers(st.site)))
  }

  function Marked(st: State, bytes: string): State {
    st.(marker := Some(bytes), site := st.site.(root := true))
  }

  function Readied(st: State): State {
    if st.binding.Some? then st.(binding := Some(st.binding.value.(phase := Ready))) else st
  }

  ghost predicate ListsAll(listing: seq<ObjectRef>, objects: map<ObjectRef, Bytes>) {
    forall r :: r in listing <==> r in objects
  }

  /** What the store lists when it is asked again: every object, in any order, perhaps with repetitions. */
  function Relisted(st: State, listing: seq<ObjectRef>): State {
    st.(site := st.site.(listing := listing))
  }

  /** The listings that the second and the third inventory of one command meet. */
  datatype Listings = Listings(second: seq<ObjectRef>, third: seq<ObjectRef>)

  ghost predicate ListAll(l: Listings, objects: map<ObjectRef, Bytes>) {
    ListsAll(l.second, objects) && ListsAll(l.third, objects)
  }

  ghost function Adopt(st: State, o: Options, ids: Identity, l: Listings, f: Faults): (State, Outcome)
    requires ValidState(st) && ListAll(l, st.site.objects)
  {
    if !OptionsAllowed(o) then (st, Refused(CheckpointAndFenceRequired))
    else if o.mode.Initialize? && IsReady(st.binding) then
      if st.binding.value.backend == st.backend && st.marker == Some(BindingBytes(st.binding.value)) then (st, AlreadyBound)
      else (st, Refused(IntentMismatch))
    else if !f.alone then (st, Refused(StopAllServers))
    else if PrepareRefusal(st).Some? then (st, Refused(PrepareRefusal(st).value))
    else if !InventoryAccepts(st.site, true, AbsentAllowed(st)) then (st, Refused(InventoryRefused(InventoryMismatch)))
    else if o.mode.Inspect? then (st, Inspected)
    else
      var digest := InventoryOf(st.site).digest;
      if IntentRefusal(st, o, digest).Some? then (st, Refused(IntentRefusal(st, o, digest).value)) else
      var prepared := Prepared(st, o, ids, digest);
      if f.prepare.RolledBack? then (st, Interrupted)
      else
        PreparedValid(st, o, ids, digest);
        Resume(prepared, o, digest, l, f)
  }

  /** What follows the commit of the intent. */
  ghost function Resume(prepared: State, o: Options, digest: seq<Entry>, l: Listings, f: Faults): (State, Outcome)
    requires ValidState(prepared) && ListAll(l, prepared.site.objects)
  {
    if f.prepare.Unheard? then (prepared, Interrupted)
    else if !f.stillAlone then (prepared, Refused(StopAllServers))
    else Complete(Relisted(prepared, l.second), o, digest, l.third, f)
  }

  /** The second transaction, which lists the store twice; a published marker stays whatever becomes of it. */
  ghost function Complete(st: State, o: Options, digest: seq<Entry>, third: seq<ObjectRef>, f: Faults): (State, Outcome)
    requires ValidState(st) && ListsAll(third, st.site.objects)
  {
    if st.binding.None? || !SameIntent(st.binding.value, o, digest) then (st, Refused(IntentMismatch))
    else if !InventoryAccepts(st.site, false, true) then (st, Refused(InventoryRefused(InventoryMismatch)))
    else if InventoryOf(st.site).digest != digest then (st, Refused(IntentMismatch))
    else
      var bytes := BindingBytes(st.binding.value);
      if st.marker.Some? && st.marker.value != bytes then (st, Refused(IntentMismatch))
      else if st.marker.None? && f.publish.Unpublished? then (st, Interrupted)
      else if st.marker.None? && f.publish.PublishedUnheard? then (Marked(st, bytes), Interrupted)
      else
        var marked := Relisted(if st.marker.None? then Marked(st, bytes) else st, third);
        if !InventoryAccepts(marked.site, false, false) then (marked, Refused(InventoryRefused(InventoryMismatch)))
        else if InventoryOf(marked.site).digest != digest then (marked, Refused(IntentMismatch))
        else if f.complete.RolledBack? then (marked, Interrupted)
        else (Readied(marked), if f.complete.Unheard? then Interrupted else ReadyNow)
  }

  /** Errors that only tell which part of the inventory failed are one refusal here. */
  function Coarse(r: Outcome): Outcome {
    if r.Refused? && r.refusal.InventoryRefused? then Refused(InventoryRefused(InventoryMismatch)) else r
  }

  // ---------------------------------------------------------------- the command

  class Installation {
    const backend: Backend
    var site: Site
    var binding: Option<Binding>
    var marker: Option<string>
    var populated: bool

    ghost function View(): State
      reads this
    {
      State(backend, site, binding, marker, populated)
    }

    constructor (backend: Backend, site: Site, populated: bool)
      ensures View() == State(backend, site, None, None, populated)
    {
      this.backend, this.site, this.populated := backend, site, populated;
      this.binding, this.marker := None, None;
    }

    method AdoptStorage(o: Options, ids: Identity, l: Listings, f: Faults) returns (r: Outcome)
      requires ValidState(View()) && ListAll(l, site.objects)
      modifies this
      ensures (View(), Coarse(r)) == Adopt(old(View()), o, ids, l, f)
      ensures !f.alone && !(o.mode.Initialize? && old(IsReady(binding))) ==> r.Refused? && View() == old(View())
    {
      hide Complete, Resume, InventoryAccepts, InventoryOf, SameIntent, AbsentAllowed, BindingBytes, Leftovers;
      if !OptionsAllowed(o) { return Refused(CheckpointAndFenceRequired); }
      if o.mode.Initialize? && IsReady(binding) {
        if binding.value.backend != backend || marker != Some(BindingBytes(binding.value)) { return Refused(IntentMismatch); }
        return AlreadyBound;
      }
      if !f.alone { return Refused(StopAllServers); }
      var st := State(backend, site, binding, marker, populated);
      if PrepareRefusal(st).Some? { return Refused(PrepareRefusal(st).value); }
      var inventory := StorageInventory(site, true, AbsentAllowed(st));
      if inventory.Err? { return Refused(InventoryRefused(inventory.error)); }
      if o.mode.Inspect? { return Inspected; }
      var digest := inventory.value.digest;
      if IntentRefusal(st, o, digest).Some? { return Refused(IntentRefusal(st, o, digest).value); }
      var prepared := Prepared(st, o, ids, digest);
      if f.prepare.RolledBack? { return Interrupted; }
      PreparedValid(st, o, ids, digest);
      binding, site := prepared.binding, prepared.site;
      r := ResumeAdoption(o, digest, l, f);
    }

    /** Between the two transactions the fence is checked again, and the store is asked anew what it lists. */
    method ResumeAdoption(o: Options, digest: seq<Entry>, l: Listings, f: Faults) returns (r: Outcome)
      requires ValidState(View()) && binding.Some? && ListAll(l, site.objects)
      modifies this
      ensures (View(), Coarse(r)) == Resume(old(View()), o, digest, l, f)
    {
      hide Complete;
      if f.prepare.Unheard? { return Interrupted; }
      if !f.stillAlone { return Refused(StopAllServers); }
      site := site.(listing := l.second);
      r := CompleteAdoption(o, digest, l.third, f);
    }

    method CompleteAdoption(o: Options, digest: seq<Entry>, third: seq<ObjectRef>, f: Faults) returns (r: Outcome)
      requires ValidState(View()) && binding.Some? && ListsAll(third, site.objects)
      modifies this
      ensures (View(), Coarse(r)) == Complete(old(View()), o, digest, third, f)
    {
      if !SameIntent(binding.value, o, digest) { return Refused(IntentMismatch); }
      var proof := StorageInventory(site, false, true);
      if proof.Err? { return Refused(InventoryRefused(proof.error)); }
      if proof.value.digest != digest { return Refused(IntentMismatch); }
      var bytes := BindingBytes(binding.value);
      if marker.Some? && marker.value != bytes { return Refused(IntentMismatch); }
      if marker.None? {
        if f.publish.Unpublished? { return Interrupted; }
        site := site.(root := true);
        marker := Some(bytes);
        if f.publish.PublishedUnheard? { return Interrupted; }
      }
      site := site.(listing := third);
      var again := StorageInventory(site, false, false);
      if again.Err? { return Refused(InventoryRefused(again.error)); }
      if again.value.digest != digest { return Refused(IntentMismatch); }
      if f.complete.RolledBack? { return Interrupted; }
      binding := Some(binding.value.(phase := Ready));
      r := if f.complete.Unheard? then Interrupted else ReadyNow;
    }
  }

  lemma PreparedValid(st: State, o: Options, ids: Identity, digest: seq<Entry>)
    requires ValidState(st)
    ensures ValidState(Prepared(st, o, ids, digest)) && Prepared(st, o, ids, digest).site.objects == st.site.objects
  {
  }

  lemma MarkedInventory(s: Site)
    requires ValidSite(s)
    ensures ItemsOf(s.(root := true), s.listing) == ItemsOf(s, s.listing)
    ensures InventoryOf(s.(root := true)) == InventoryOf(s)
  {
    SameItems(s, s.(root := true), s.listing);
  }

  lemma {:induction false} SameItems(s: Site, t: Site, listing: seq<ObjectRef>)
    requires t == s.(root := t.root) && forall r :: r in listing ==> r in s.objects
    ensures ItemsOf(s, listing) == ItemsOf(t, listing)
  {
    if listing != [] { SameItems(s, t, listing[1..]); }
  }
}
