/**
The identity that ties one database to one byte store, and the complete content proof
(apps/server/blobs/storage-binding.ts, apps/server/blobs/storage-inventory.ts).
*/
module StorageBinding {
  import opened Wrappers
  import opened Uuid
  import opened Content
  import Lex

  // ---------------------------------------------------------------- identity and marker

  datatype Backend = Filesystem | S3
  datatype Mode = Initialize | Reconcile | Inspect
  datatype Phase = Verifying | Ready

  datatype Binding = Binding(databaseId: string, storeId: string, generation: string, backend: Backend, phase: Phase,
                             intent: Mode, checkpoint: string, retain: bool, inventory: Option<seq<Entry>>)

  /** What the inventory digest covers: object key, size and hash, in key order. */
  datatype Entry = Entry(key: string, stamp: Stamp)

  predicate ValidIds(b: Binding) {
    IsUuid(b.databaseId) && IsUuid(b.storeId) && IsUuid(b.generation)
  }

  function BackendName(b: Backend): string {
    match b case Filesystem => "filesystem" case S3 => "s3"
  }

  function BindingBytes(b: Binding): string {
    "backplane-blob-store-v1\n" + (b.databaseId + ("\n" + (b.storeId + ("\n" + (b.generation + ("\n" + (BackendName(b.backend) + "\n")))))))
  }

  ghost predicate SameIdentity(a: Binding, b: Binding) {
    a.databaseId == b.databaseId && a.storeId == b.storeId && a.generation == b.generation && a.backend == b.backend
  }

  lemma SplitPrefix(a: string, x: string, b: string, y: string)
    requires |a| == |b| && a + x == b + y
    ensures a == b && x == y
  {
    assert a == (a + x)[..|a|] && b == (b + y)[..|a|];
    assert x == (a + x)[|a|..] && y == (b + y)[|a|..];
  }

  /** The marker text determines the identity: no two installations share one. */
  lemma MarkerIdentifies(a: Binding, b: Binding)
    requires ValidIds(a) && ValidIds(b)
    ensures BindingBytes(a) == BindingBytes(b) <==> SameIdentity(a, b)
  {
    if BindingBytes(a) == BindingBytes(b) {
      var ta, tb := BackendName(a.backend) + "\n", BackendName(b.backend) + "\n";
      var head := "backplane-blob-store-v1\n";
      SplitPrefix(head, a.databaseId + ("\n" + (a.storeId + ("\n" + (a.generation + ("\n" + ta))))),
                  head, b.databaseId + ("\n" + (b.storeId + ("\n" + (b.generation + ("\n" + tb))))));
      SplitPrefix(a.databaseId, "\n" + (a.storeId + ("\n" + (a.generation + ("\n" + ta)))),
                  b.databaseId, "\n" + (b.storeId + ("\n" + (b.generation + ("\n" + tb)))));
      SplitPrefix("\n", a.storeId + ("\n" + (a.generation + ("\n" + ta))), "\n", b.storeId + ("\n" + (b.generation + ("\n" + tb))));
      SplitPrefix(a.storeId, "\n" + (a.generation + ("\n" + ta)), b.storeId, "\n" + (b.generation + ("\n" + tb)));
      SplitPrefix("\n", a.generation + ("\n" + ta), "\n", b.generation + ("\n" + tb));
      SplitPrefix(a.generation, "\n" + ta, b.generation, "\n" + tb);
      SplitPrefix("\n", ta, "\n", tb);
      assert |BackendName(a.backend)| == |BackendName(b.backend)|;
    }
  }

  // ---------------------------------------------------------------- object keys

  datatype ObjectRef = ObjectRef(workspace: string, id: string, staging: bool)

  predicate ValidRef(r: ObjectRef) {
    IsUuid(r.workspace) && IsUuid(r.id)
  }

  function ObjectKey(r: ObjectRef): string {
    r.workspace + ("/" + ((if r.staging then "staging/" else "") + r.id))
  }

  lemma ObjectKeyInjective(a: ObjectRef, b: ObjectRef)
    requires ValidRef(a) && ValidRef(b) && ObjectKey(a) == ObjectKey(b)
    ensures a == b
  {
    var ta, tb := (if a.staging then "staging/" else "") + a.id, (if b.staging then "staging/" else "") + b.id;
    SplitPrefix(a.workspace, "/" + ta, b.workspace, "/" + tb);
    SplitPrefix("/", ta, "/", tb);
    assert |ta| == if a.staging then 44 else 36;
    SplitPrefix(if a.staging then "staging/" else "", a.id, if b.staging then "staging/" else "", b.id);
  }

  // ---------------------------------------------------------------- inventory

  datatype Kind = Referenced | Retained | Unreferenced
  datatype Item = Item(ref: ObjectRef, stamp: Stamp, kind: Kind)
  datatype Inventory = Inventory(objects: seq<Item>, digest: seq<Entry>)
  datatype InventoryError = StoreUnavailable | InventoryMismatch | ContentMismatch

  /** Both sides of an installation, apart from its binding. */
  datatype Site = Site(
    references: map<ObjectRef, Stamp>,   // control.blobs
    retained: map<ObjectRef, Stamp>,     // control.blob_storage_retained
    objects: map<ObjectRef, Bytes>,      // the byte store
    listing: seq<ObjectRef>,             // in the order the store lists it
    root: bool)                          // a filesystem store has its directory

  ghost predicate NoRepeat(listing: seq<ObjectRef>) {
    forall i, j :: 0 <= i < j < |listing| ==> listing[i] != listing[j]
  }

  ghost predicate ValidSite(s: Site) {
    && (forall r :: r in s.listing <==> r in s.objects)
    && (forall r :: r in s.objects ==> ValidRef(r))
    && (forall r :: r in s.references ==> !r.staging)
    && (s.objects != map[] ==> s.root)
  }

  function Expected(s: Site): map<ObjectRef, Stamp> {
    s.references + s.retained
  }

  ghost predicate ContentProved(s: Site) {
    forall r :: r in Expected(s) && r in s.objects ==> StampOf(s.objects[r]) == Expected(s)[r]
  }

  /** When the inventory succeeds. */
  ghost predicate InventoryAccepts(s: Site, allowUnreferenced: bool, allowAbsent: bool) {
    && (s.root || allowAbsent)
    && NoRepeat(s.listing)
    && s.references.Keys !! s.retained.Keys
    && Expected(s).Keys <= s.objects.Keys
    && (!allowUnreferenced ==> s.objects.Keys <= Expected(s).Keys)
    && ContentProved(s)
  }

  function KindOf(s: Site, r: ObjectRef): Kind {
    if r in s.references then Referenced else if r in s.retained then Retained else Unreferenced
  }

  function ItemOf(s: Site, r: ObjectRef): Item
    requires r in s.objects
  {
    Item(r, StampOf(s.objects[r]), KindOf(s, r))
  }

  function ItemsOf(s: Site, listing: seq<ObjectRef>): seq<Item>
    requires forall r :: r in listing ==> r in s.objects
  {
    if listing == [] then [] else [ItemOf(s, listing[0])] + ItemsOf(s, listing[1..])
  }

  lemma {:induction false} ItemsOfSnoc(s: Site, listing: seq<ObjectRef>, r: ObjectRef)
    requires r in s.objects && forall x :: x in listing ==> x in s.objects
    ensures ItemsOf(s, listing + [r]) == ItemsOf(s, listing) + [ItemOf(s, r)]
  {
    if listing == [] {
    } else {
      assert (listing + [r])[1..] == listing[1..] + [r];
      ItemsOfSnoc(s, listing[1..], r);
    }
  }

  function Insert(x: Item, sorted: seq<Item>): seq<Item> {
    if sorted == [] || Lex.Less(ObjectKey(x.ref), ObjectKey(sorted[0].ref)) then [x] + sorted
    else [sorted[0]] + Insert(x, sorted[1..])
  }

  function SortItems(items: seq<Item>): seq<Item> {
    if items == [] then [] else Insert(items[0], SortItems(items[1..]))
  }

  function EntriesOf(items: seq<Item>): seq<Entry> {
    if items == [] then [] else [Entry(ObjectKey(items[0].ref), items[0].stamp)] + EntriesOf(items[1..])
  }

  function InventoryOf(s: Site): Inventory
    requires forall r :: r in s.listing ==> r in s.objects
  {
    var sorted := SortItems(ItemsOf(s, s.listing));
    Inventory(sorted, EntriesOf(sorted))
  }

  /** First pass: the listing names every expected object once, and nothing else unless that is allowed. */
  method CheckListing(s: Site, allowUnreferenced: bool) returns (ok: bool)
    requires ValidSite(s)
    ensures ok <==> NoRepeat(s.listing) && Expected(s).Keys <= s.objects.Keys
                    && (!allowUnreferenced ==> s.objects.Keys <= Expected(s).Keys)
  {
    var expected := Expected(s);
    var seen: set<ObjectRef> := {};
    for i := 0 to |s.listing|
      invariant seen == set r | r in s.listing[..i]
      invariant NoRepeat(s.listing[..i])
      invariant !allowUnreferenced ==> seen <= expected.Keys
    {
      var ref := s.listing[i];
      if ref in seen { return false; }
      if ref !in expected && !allowUnreferenced { return false; }
      assert s.listing[..i + 1] == s.listing[..i] + [ref];
      seen := seen + {ref};
    }
    assert s.listing[..|s.listing|] == s.listing;
    assert seen == s.objects.Keys;
    ok := expected.Keys <= seen;
  }

  /** Second pass: every object is read, hashed and compared with its row. */
  method ReadListing(s: Site) returns (r: Option<seq<Item>>)
    requires ValidSite(s)
    ensures r.Some? <==> ContentProved(s)
    ensures r.Some? ==> r.value == ItemsOf(s, s.listing)
  {
    var expected := Expected(s);
    var items: seq<Item> := [];
    for i := 0 to |s.listing|
      invariant items == ItemsOf(s, s.listing[..i])
      invariant forall r :: r in s.listing[..i] && r in expected ==> StampOf(s.objects[r]) == expected[r]
    {
      var ref := s.listing[i];
      assert ref in s.listing;
      var stamp := StampOf(s.objects[ref]);
      if ref in expected && stamp != expected[ref] { return None; }
      items := items + [Item(ref, stamp, KindOf(s, ref))];
      ItemsOfSnoc(s, s.listing[..i], ref);
      assert s.listing[..i + 1] == s.listing[..i] + [ref];
    }
    assert s.listing[..|s.listing|] == s.listing;
    return Some(items);
  }

  method StorageInventory(s: Site, allowUnreferenced: bool, allowAbsent: bool)
    returns (r: Result<Inventory, InventoryError>)
    requires ValidSite(s)
    ensures r.Ok? <==> InventoryAccepts(s, allowUnreferenced, allowAbsent)
    ensures r.Ok? ==> r.value == InventoryOf(s)
    ensures r == Err(ContentMismatch) ==> !ContentProved(s)
  {
    if !s.root && !allowAbsent { return Err(StoreUnavailable); }
    DisjointSizes(s.references.Keys, s.retained.Keys);
    assert Expected(s).Keys == s.references.Keys + s.retained.Keys;
    assert |Expected(s)| == |Expected(s).Keys| && |s.references| == |s.references.Keys| && |s.retained| == |s.retained.Keys|;
    if |Expected(s)| != |s.references| + |s.retained| { return Err(InventoryMismatch); }
    var listed := CheckListing(s, allowUnreferenced);
    if !listed { return Err(InventoryMismatch); }
    var items := ReadListing(s);
    if items.None? { return Err(ContentMismatch); }
    var sorted := SortItems(items.value);
    return Ok(Inventory(sorted, EntriesOf(sorted)));
  }

  lemma DisjointSizes<T>(a: set<T>, b: set<T>)
    ensures |a + b| == |a| + |b| <==> a !! b
  {
    assert a + b == a + (b - a);
    assert b == (b - a) + (a * b);
    if |a * b| == 0 { assert a * b == {}; }
    assert |b| == |b - a| + |a * b|;
  }

  // ---------------------------------------------------------------- what the digest means

  ghost predicate SortedEntries(es: seq<Entry>) {
    forall i, j :: 0 <= i < j < |es| ==> Lex.Less(es[i].key, es[j].key)
  }

  function EntryOf(x: Item): Entry {
    Entry(ObjectKey(x.ref), x.stamp)
  }

  lemma {:induction false} EntriesOfMembers(items: seq<Item>)
    ensures |EntriesOf(items)| == |items|
    ensures forall i :: 0 <= i < |items| ==> EntriesOf(items)[i] == EntryOf(items[i])
  {
    if items != [] { EntriesOfMembers(items[1..]); }
  }

  ghost predicate SortedItems(items: seq<Item>) {
    forall i, j :: 0 <= i < j < |items| ==> Lex.Less(ObjectKey(items[i].ref), ObjectKey(items[j].ref))
  }

  lemma {:induction false} InsertSorts(x: Item, sorted: seq<Item>)
    requires SortedItems(sorted)
    requires forall y :: y in sorted ==> ObjectKey(y.ref) != ObjectKey(x.ref)
    ensures SortedItems(Insert(x, sorted))
    ensures forall y :: y in Insert(x, sorted) <==> y == x || y in sorted
  {
    if sorted == [] {
    } else {
      var k, h := ObjectKey(x.ref), ObjectKey(sorted[0].ref);
      Lex.Total(k, h);
      assert sorted[0] in sorted && forall y :: y in sorted <==> y == sorted[0] || y in sorted[1..];
      if Lex.Less(k, h) {
        forall i | 0 <= i < |sorted| ensures Lex.Less(k, ObjectKey(sorted[i].ref)) {
          if i > 0 { Lex.Transitive(k, h, ObjectKey(sorted[i].ref)); }
        }
      } else {
        InsertSorts(x, sorted[1..]);
        var rest := Insert(x, sorted[1..]);
        forall i | 0 <= i < |rest| ensures Lex.Less(h, ObjectKey(rest[i].ref)) {
          assert rest[i] in rest;
          if rest[i] != x { var j :| 0 <= j < |sorted[1..]| && sorted[1..][j] == rest[i]; }
        }
      }
    }
  }

  lemma {:induction false} SortItemsSorts(items: seq<Item>)
    requires forall i, j :: 0 <= i < j < |items| ==> ObjectKey(items[i].ref) != ObjectKey(items[j].ref)
    ensures SortedItems(SortItems(items))
    ensures forall y :: y in SortItems(items) <==> y in items
  {
    if items != [] {
      SortItemsSorts(items[1..]);
      assert forall y :: y in items <==> y == items[0] || y in items[1..];
      forall y | y in SortItems(items[1..]) ensures ObjectKey(y.ref) != ObjectKey(items[0].ref) {
        var j :| 0 <= j < |items[1..]| && items[1..][j] == y;
        assert items[j + 1] == y;
      }
      InsertSorts(items[0], SortItems(items[1..]));
    }
  }

  lemma {:induction false} SortedUnique(a: seq<Entry>, b: seq<Entry>)
    requires SortedEntries(a) && SortedEntries(b) && forall e :: e in a <==> e in b
    ensures a == b
  {
    assert (a != [] ==> a[0] in a) && (b != [] ==> b[0] in b);
    if a != [] {
      var i :| 0 <= i < |b| && b[i] == a[0];
      var j :| 0 <= j < |a| && a[j] == b[0];
      if i > 0 && j > 0 {
        Lex.Transitive(a[0].key, b[0].key, a[0].key);
        Lex.Irreflexive(a[0].key);
      }
      assert a[0] == b[0];
      Lex.Irreflexive(a[0].key);
      forall e ensures e in a[1..] <==> e in b[1..] {
        assert e in a <==> e == a[0] || e in a[1..];
        assert e in b <==> e == b[0] || e in b[1..];
        assert a[0] !in a[1..] && b[0] !in b[1..];
      }
      SortedUnique(a[1..], b[1..]);
      assert a == [a[0]] + a[1..] && b == [b[0]] + b[1..];
    }
  }

  lemma {:induction false} ItemsOfMembers(s: Site, listing: seq<ObjectRef>)
    requires forall r :: r in listing ==> r in s.objects
    ensures |ItemsOf(s, listing)| == |listing|
    ensures forall i :: 0 <= i < |listing| ==> listing[i] in s.objects && ItemsOf(s, listing)[i] == ItemOf(s, listing[i])
  {
    if listing != [] { ItemsOfMembers(s, listing[1..]); }
  }

  lemma SortedListing(s: Site)
    requires ValidSite(s) && NoRepeat(s.listing)
    ensures SortedItems(InventoryOf(s).objects)
    ensures forall y :: y in InventoryOf(s).objects <==> exists r :: r in s.objects && y == ItemOf(s, r)
  {
    var items := ItemsOf(s, s.listing);
    ItemsOfMembers(s, s.listing);
    forall i, j | 0 <= i < j < |items| ensures ObjectKey(items[i].ref) != ObjectKey(items[j].ref) {
      if ObjectKey(items[i].ref) == ObjectKey(items[j].ref) { ObjectKeyInjective(s.listing[i], s.listing[j]); }
    }
    SortItemsSorts(items);
    forall y | y in items ensures exists r :: r in s.objects && y == ItemOf(s, r) {
      var j :| 0 <= j < |items| && items[j] == y;
      assert s.listing[j] in s.listing;
    }
    forall r | r in s.objects ensures ItemOf(s, r) in items {
      assert r in s.listing;
      var j :| 0 <= j < |s.listing| && s.listing[j] == r;
      assert items[j] in items;
    }
  }

  /** The inventory lists exactly the stored objects, each by who has a claim to it. */
  lemma ObjectsAreClassified(s: Site, x: Item)
    requires ValidSite(s) && NoRepeat(s.listing)
    ensures x in InventoryOf(s).objects <==>
      && x.ref in s.objects && x.stamp == StampOf(s.objects[x.ref])
      && (x.kind == Referenced <==> x.ref in s.references)
      && (x.kind == Retained <==> x.ref !in s.references && x.ref in s.retained)
      && (x.kind == Unreferenced <==> x.ref !in s.references && x.ref !in s.retained)
  {
    SortedListing(s);
  }

  /** The digest lists exactly the stored objects, in key order. */
  lemma DigestLists(s: Site)
    requires ValidSite(s) && NoRepeat(s.listing)
    ensures SortedEntries(InventoryOf(s).digest)
    ensures forall e :: e in InventoryOf(s).digest
                        <==> exists r :: r in s.objects && e == Entry(ObjectKey(r), StampOf(s.objects[r]))
  {
    SortedListing(s);
    var sorted := InventoryOf(s).objects;
    EntriesOfMembers(sorted);
    var digest := EntriesOf(sorted);
    forall e | e in digest ensures exists r :: r in s.objects && e == Entry(ObjectKey(r), StampOf(s.objects[r])) {
      var k :| 0 <= k < |digest| && digest[k] == e;
      assert sorted[k] in sorted;
    }
    forall r | r in s.objects ensures Entry(ObjectKey(r), StampOf(s.objects[r])) in digest {
      assert ItemOf(s, r) in sorted;
      var k :| 0 <= k < |sorted| && sorted[k] == ItemOf(s, r);
      assert digest[k] == EntryOf(sorted[k]);
    }
  }

  /**
   * Two inventories have the same digest iff the stores hold the same objects: listing order, rows and
   * classification do not matter.
   */
  lemma DigestIdentifiesContent(s: Site, t: Site)
    requires ValidSite(s) && ValidSite(t) && NoRepeat(s.listing) && NoRepeat(t.listing)
    ensures InventoryOf(s).digest == InventoryOf(t).digest <==> s.objects == t.objects
  {
    DigestLists(s);
    DigestLists(t);
    if s.objects == t.objects { SortedUnique(InventoryOf(s).digest, InventoryOf(t).digest); }
    if InventoryOf(s).digest == InventoryOf(t).digest {
      DigestContained(s, t);
      DigestContained(t, s);
    }
  }

  lemma DigestContained(s: Site, t: Site)
    requires ValidSite(s) && ValidSite(t) && NoRepeat(s.listing) && NoRepeat(t.listing)
    requires InventoryOf(s).digest == InventoryOf(t).digest
    ensures forall r :: r in s.objects ==> r in t.objects && s.objects[r] == t.objects[r]
  {
    DigestLists(s);
    DigestLists(t);
    forall r | r in s.objects ensures r in t.objects && s.objects[r] == t.objects[r] {
      var e := Entry(ObjectKey(r), StampOf(s.objects[r]));
      assert e in InventoryOf(s).digest;
      var q :| q in t.objects && e == Entry(ObjectKey(q), StampOf(t.objects[q]));
      ObjectKeyInjective(q, r);
    }
  }
}
