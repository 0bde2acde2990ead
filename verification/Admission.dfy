/**
The app-wide admission gate (apps/server/platform/principal-admission.ts): a bounded number of requests at a time,
with one slot that only callbacks of running functions may take, so that an invocation can always finish.
*/
module Admission {
  import opened Sets

  /** A request is an identity and what its route and credential say of it. */
  datatype Request = Request(id: nat, callback: bool, invocation: bool)

  datatype Outcome = Pending | Granted | Rejected

  predicate Fits(r: Request, active: nat, nonCallbacks: nat, limit: nat) {
    active < limit && (r.callback || nonCallbacks + 1 < limit)
  }

  function Weight(r: Request): nat {
    if r.callback then 0 else 1
  }

  function Without(rs: seq<Request>, r: Request): seq<Request> {
    if rs == [] then [] else (if rs[0] == r then [] else [rs[0]]) + Without(rs[1..], r)
  }

  /** One pass over the waiters in order: who gets in, and who is left. */
  datatype Woken = Woken(admitted: seq<Request>, left: seq<Request>)

  function Wake(waiting: seq<Request>, active: nat, nonCallbacks: nat, limit: nat): Woken {
    if waiting == [] then Woken([], [])
    else if Fits(waiting[0], active, nonCallbacks, limit) then
      var w := Wake(waiting[1..], active + 1, nonCallbacks + Weight(waiting[0]), limit);
      Woken([waiting[0]] + w.admitted, w.left)
    else
      var w := Wake(waiting[1..], active, nonCallbacks, limit);
      Woken(w.admitted, [waiting[0]] + w.left)
  }

  function Weights(rs: seq<Request>): nat {
    if rs == [] then 0 else Weight(rs[0]) + Weights(rs[1..])
  }

  /** After the pass nobody who is left would fit, whatever their class. */
  lemma {:induction false} WakeLeavesNoneFitting(waiting: seq<Request>, active: nat, nonCallbacks: nat, limit: nat)
    ensures var w := Wake(waiting, active, nonCallbacks, limit);
      forall r :: r in w.left ==> !Fits(r, active + |w.admitted|, nonCallbacks + Weights(w.admitted), limit)
  {
    if waiting != [] {
      if Fits(waiting[0], active, nonCallbacks, limit) {
        WakeLeavesNoneFitting(waiting[1..], active + 1, nonCallbacks + Weight(waiting[0]), limit);
        var w := Wake(waiting, active, nonCallbacks, limit);
        assert w.admitted[1..] == Wake(waiting[1..], active + 1, nonCallbacks + Weight(waiting[0]), limit).admitted;
      } else {
        WakeLeavesNoneFitting(waiting[1..], active, nonCallbacks, limit);
        var w := Wake(waiting, active, nonCallbacks, limit);
        assert w.left == [waiting[0]] + Wake(waiting[1..], active, nonCallbacks, limit).left;
      }
    }
  }

  /** Of two waiters of one class the later one gets in only if the earlier one does. */
  lemma {:induction false} WakeIsFifo(waiting: seq<Request>, active: nat, nonCallbacks: nat, limit: nat, i: nat, j: nat)
    requires i < j < |waiting| && waiting[i].callback == waiting[j].callback
    requires forall a, b :: 0 <= a < b < |waiting| ==> waiting[a] != waiting[b]
    ensures var w := Wake(waiting, active, nonCallbacks, limit); waiting[j] in w.admitted ==> waiting[i] in w.admitted
  {
    var first := waiting[0];
    var fits := Fits(first, active, nonCallbacks, limit);
    var rest := if fits then Wake(waiting[1..], active + 1, nonCallbacks + Weight(first), limit) else Wake(waiting[1..], active, nonCallbacks, limit);
    if i > 0 {
      WakeIsFifo(waiting[1..], if fits then active + 1 else active, if fits then nonCallbacks + Weight(first) else nonCallbacks, limit, i - 1, j - 1);
    } else if !fits {
      NeverFits(waiting[1..], active, nonCallbacks, limit, first);
      assert waiting[j] == waiting[1..][j - 1];
    }
  }

  /** A waiter gets in exactly when it fits beside those who hold a slot and those admitted before it. */
  lemma {:induction false} WakeIsGreedy(waiting: seq<Request>, active: nat, nonCallbacks: nat, limit: nat, i: nat)
    requires i < |waiting| && forall a, b :: 0 <= a < b < |waiting| ==> waiting[a] != waiting[b]
    ensures var before := Wake(waiting[..i], active, nonCallbacks, limit).admitted;
      waiting[i] in Wake(waiting, active, nonCallbacks, limit).admitted <==>
        active + |before| < limit && (waiting[i].callback || nonCallbacks + Weights(before) + 1 < limit)
  {
    WakeHas(waiting[1..], active, nonCallbacks, limit);
    WakeHas(waiting[1..], active + 1, nonCallbacks + Weight(waiting[0]), limit);
    if i > 0 {
      assert waiting[..i][1..] == waiting[1..][..i - 1];
      if Fits(waiting[0], active, nonCallbacks, limit) {
        WakeIsGreedy(waiting[1..], active + 1, nonCallbacks + Weight(waiting[0]), limit, i - 1);
        var rest := Wake(waiting[1..][..i - 1], active + 1, nonCallbacks + Weight(waiting[0]), limit).admitted;
        assert ([waiting[0]] + rest)[1..] == rest;
      } else {
        WakeIsGreedy(waiting[1..], active, nonCallbacks, limit, i - 1);
      }
    }
  }

  lemma {:induction false} WakeHas(waiting: seq<Request>, active: nat, nonCallbacks: nat, limit: nat)
    ensures forall r :: r in Wake(waiting, active, nonCallbacks, limit).admitted ==> r in waiting
  {
    if waiting != [] {
      WakeHas(waiting[1..], active, nonCallbacks, limit);
      WakeHas(waiting[1..], active + 1, nonCallbacks + Weight(waiting[0]), limit);
    }
  }

  lemma {:induction false} NeverFits(waiting: seq<Request>, active: nat, nonCallbacks: nat, limit: nat, r: Request)
    requires !Fits(r, active, nonCallbacks, limit)
    ensures forall q :: q in Wake(waiting, active, nonCallbacks, limit).admitted ==> q.callback != r.callback
  {
    if waiting != [] {
      if Fits(waiting[0], active, nonCallbacks, limit) {
        NeverFits(waiting[1..], active + 1, nonCallbacks + Weight(waiting[0]), limit, r);
      } else {
        NeverFits(waiting[1..], active, nonCallbacks, limit, r);
      }
    }
  }

  function PendingOf(arrivals: seq<Request>, outcomes: map<Request, Outcome>): seq<Request> {
    if arrivals == [] then []
    else (if arrivals[0] in outcomes && outcomes[arrivals[0]].Pending? then [arrivals[0]] else []) + PendingOf(arrivals[1..], outcomes)
  }

  ghost predicate NoRepeat(rs: seq<Request>) {
    forall i, j :: 0 <= i < j < |rs| ==> rs[i] != rs[j]
  }

  lemma {:induction false} PendingHas(arrivals: seq<Request>, outcomes: map<Request, Outcome>)
    ensures forall r :: r in PendingOf(arrivals, outcomes) <==> r in arrivals && r in outcomes && outcomes[r].Pending?
  {
    if arrivals != [] { PendingHas(arrivals[1..], outcomes); }
  }

  lemma {:induction false} PendingUnique(arrivals: seq<Request>, outcomes: map<Request, Outcome>)
    requires NoRepeat(arrivals)
    ensures NoRepeat(PendingOf(arrivals, outcomes))
  {
    if arrivals != [] {
      PendingUnique(arrivals[1..], outcomes);
      PendingHas(arrivals[1..], outcomes);
    }
  }

  lemma {:induction false} PendingSettled(arrivals: seq<Request>, outcomes: map<Request, Outcome>, r: Request, o: Outcome)
    requires !o.Pending?
    ensures PendingOf(arrivals, outcomes[r := o]) == Without(PendingOf(arrivals, outcomes), r)
  {
    if arrivals != [] {
      PendingSettled(arrivals[1..], outcomes, r, o);
      var first := if arrivals[0] in outcomes && outcomes[arrivals[0]].Pending? then [arrivals[0]] else [];
      assert (first + PendingOf(arrivals[1..], outcomes))[|first|..] == PendingOf(arrivals[1..], outcomes);
    }
  }

  lemma {:induction false} PendingArrives(arrivals: seq<Request>, outcomes: map<Request, Outcome>, r: Request)
    requires r !in arrivals
    ensures PendingOf(arrivals + [r], outcomes[r := Pending]) == PendingOf(arrivals, outcomes) + [r]
  {
    if arrivals == [] {
      assert PendingOf([r][1..], outcomes[r := Pending]) == [];
    } else {
      assert (arrivals + [r])[1..] == arrivals[1..] + [r];
      PendingArrives(arrivals[1..], outcomes, r);
    }
  }

  lemma {:induction false} WithoutAbsent(rs: seq<Request>, r: Request)
    requires r !in rs
    ensures Without(rs, r) == rs
  {
    if rs != [] { WithoutAbsent(rs[1..], r); }
  }

  lemma {:induction false} WithoutMiddle(a: seq<Request>, r: Request, b: seq<Request>)
    requires r !in a && r !in b
    ensures Without(a + [r] + b, r) == a + b
  {
    if a == [] {
      assert [] + [r] + b == [r] + b && ([r] + b)[1..] == b;
      WithoutAbsent(b, r);
    } else {
      assert (a + [r] + b)[1..] == a[1..] + [r] + b;
      WithoutMiddle(a[1..], r, b);
    }
  }

  /** Nobody was admitted while an earlier request of the same class was still waiting. */
  ghost predicate Fifo(arrivals: seq<Request>, outcomes: map<Request, Outcome>) {
    forall i, j ::
      (0 <= i < j < |arrivals| && arrivals[i].callback == arrivals[j].callback
       && arrivals[i] in outcomes && arrivals[j] in outcomes && outcomes[arrivals[j]].Granted?)
      ==> !outcomes[arrivals[i]].Pending?
  }

  /** The gate's whole state. */
  datatype View = View(
    limit: nat, active: nat, nonCallbacks: nat, waiting: seq<Request>, releases: set<Request>, acquisitions: map<Request, Outcome>,
    arrivals: seq<Request>, released: set<Request>)

  function NonCallbacks(rs: set<Request>): set<Request> {
    set r | r in rs && !r.callback
  }

  ghost predicate Bounded(v: View) {
    && v.nonCallbacks <= v.active <= v.limit && (v.nonCallbacks > 0 ==> v.nonCallbacks + 1 <= v.limit)
    && v.active == |v.releases| && v.nonCallbacks == |NonCallbacks(v.releases)|
  }

  /** Slots are held by those who were granted one and have not given it back. */
  ghost predicate Accounted(v: View) {
    && v.releases !! v.released
    && (forall r :: r in v.acquisitions && v.acquisitions[r].Granted? <==> r in v.releases + v.released)
  }

  ghost predicate Queued(v: View) {
    && v.waiting == PendingOf(v.arrivals, v.acquisitions) && NoRepeat(v.arrivals)
    && (forall r :: r in v.arrivals <==> r in v.acquisitions)
    && Fifo(v.arrivals, v.acquisitions)
  }

  ghost predicate Counted(v: View) {
    Bounded(v) && Accounted(v) && Queued(v)
  }

  function Admitted(v: View, r: Request): View {
    v.(active := v.active + 1, nonCallbacks := v.nonCallbacks + Weight(r), waiting := Without(v.waiting, r),
       releases := v.releases + {r}, acquisitions := v.acquisitions[r := Granted])
  }

  function Refused(v: View, r: Request): View {
    v.(waiting := Without(v.waiting, r), acquisitions := v.acquisitions[r := Rejected])
  }

  function Freed(v: View, r: Request): View {
    v.(active := Minus(v.active, 1), nonCallbacks := Minus(v.nonCallbacks, Weight(r)), releases := v.releases - {r}, released := v.released + {r})
  }

  function Minus(a: nat, b: nat): nat {
    if b <= a then a - b else 0
  }

  /** Everyone who fits, in order, got a slot. */
  ghost predicate EnteredAll(v: View, t: View) {
    var w := Wake(v.waiting, v.active, v.nonCallbacks, v.limit);
    && t.waiting == w.left
    && t.releases == v.releases + (set r | r in w.admitted)
    && t.released == v.released && t.arrivals == v.arrivals
    && (forall r :: r in t.acquisitions <==> r in v.acquisitions || r in w.admitted)
    && (forall r :: r in t.acquisitions ==> t.acquisitions[r] == if r in w.admitted then Granted else v.acquisitions[r])
  }

  function Arrived(v: View, r: Request): View {
    v.(waiting := v.waiting + [r], acquisitions := v.acquisitions[r := Pending], arrivals := v.arrivals + [r])
  }

  lemma WaitingIsPending(v: View)
    requires Counted(v)
    ensures NoRepeat(v.waiting)
    ensures forall r :: r in v.waiting ==> r in v.acquisitions && v.acquisitions[r].Pending? && r !in v.releases && r !in v.released
  {
    PendingHas(v.arrivals, v.acquisitions);
    PendingUnique(v.arrivals, v.acquisitions);
  }

  lemma AdmitKeeps(v: View, r: Request, before: seq<Request>, after: seq<Request>)
    requires Counted(v) && v.waiting == before + [r] + after && Fits(r, v.active, v.nonCallbacks, v.limit)
    requires forall q :: q in before ==> !Fits(q, v.active, v.nonCallbacks, v.limit)
    ensures Counted(Admitted(v, r)) && Admitted(v, r).waiting == before + after
  {
    hide Bounded, Queued, Fits;
    WaitingIsPending(v);
    assert r in v.waiting;
    AdmitKeepsBounds(v, r);
    AdmitKeepsQueue(v, r, before, after);
  }

  lemma AdmitKeepsBounds(v: View, r: Request)
    requires Bounded(v) && r !in v.releases && Fits(r, v.active, v.nonCallbacks, v.limit)
    ensures Bounded(Admitted(v, r))
  {
    hide Without, NonCallbacks;
    NonCallbacksWith(v.releases, r);
  }

  lemma NonCallbacksWith(rs: set<Request>, r: Request)
    requires r !in rs
    ensures |NonCallbacks(rs + {r})| == |NonCallbacks(rs)| + Weight(r)
  {
    assert NonCallbacks(rs + {r}) == NonCallbacks(rs) + (if r.callback then {} else {r});
  }

  lemma AdmitKeepsQueue(v: View, r: Request, before: seq<Request>, after: seq<Request>)
    requires Queued(v) && v.waiting == before + [r] + after && Fits(r, v.active, v.nonCallbacks, v.limit)
    requires forall q :: q in before ==> !Fits(q, v.active, v.nonCallbacks, v.limit)
    ensures Queued(Admitted(v, r)) && Admitted(v, r).waiting == before + after
  {
    PendingHas(v.arrivals, v.acquisitions);
    PendingUnique(v.arrivals, v.acquisitions);
    SplitUnique(before, r, after);
    PendingSettled(v.arrivals, v.acquisitions, r, Granted);
    WithoutMiddle(before, r, after);
    assert r in v.waiting;
    EarlierSettled(v, r, before, after);
  }

  /** Whoever came before a request that fits and is of its class has an outcome. */
  lemma EarlierSettled(v: View, r: Request, before: seq<Request>, after: seq<Request>)
    requires Queued(v) && v.waiting == before + [r] + after && Fits(r, v.active, v.nonCallbacks, v.limit)
    requires forall q :: q in before ==> !Fits(q, v.active, v.nonCallbacks, v.limit)
    ensures Fifo(v.arrivals, v.acquisitions[r := Granted])
  {
    forall i, j | 0 <= i < j < |v.arrivals| && v.arrivals[j] == r && v.arrivals[i].callback == r.callback
      ensures !v.acquisitions[v.arrivals[i]].Pending?
    {
      assert v.arrivals[i] in v.acquisitions;
      if v.acquisitions[v.arrivals[i]].Pending? { EarlierIsBefore(v.arrivals, v.acquisitions, i, j, before, after); }
    }
  }

  lemma RefuseKeeps(v: View, r: Request)
    requires Counted(v) && r in v.waiting
    ensures Counted(Refused(v, r)) && forall q :: q in Refused(v, r).waiting ==> q in v.waiting
  {
    hide Queued, Without;
    WaitingIsPending(v);
    RefuseKeepsQueue(v, r);
  }

  lemma RefuseKeepsQueue(v: View, r: Request)
    requires Queued(v) && r in v.waiting
    ensures Queued(Refused(v, r)) && forall q :: q in Refused(v, r).waiting ==> q in v.waiting
  {
    hide PendingOf, Without;
    PendingSettled(v.arrivals, v.acquisitions, r, Rejected);
    PendingHas(v.arrivals, v.acquisitions[r := Rejected]);
    PendingHas(v.arrivals, v.acquisitions);
  }

  lemma FreeKeeps(v: View, r: Request)
    requires Counted(v) && r in v.releases
    ensures v.active > 0 && (r.callback || v.nonCallbacks > 0) && Counted(Freed(v, r))
  {
    hide Queued, Bounded;
    FreeKeepsBounds(v, r);
    FreeKeepsQueue(v, r);
  }

  lemma FreeKeepsBounds(v: View, r: Request)
    requires Bounded(v) && r in v.releases
    ensures v.active > 0 && (r.callback || v.nonCallbacks > 0) && Bounded(Freed(v, r))
  {
    assert !r.callback ==> r in NonCallbacks(v.releases);
    assert NonCallbacks(v.releases - {r}) == NonCallbacks(v.releases) - {r};
    SubsetIsSmaller(NonCallbacks(v.releases - {r}), v.releases - {r});
  }

  lemma FreeKeepsQueue(v: View, r: Request)
    requires Queued(v)
    ensures Queued(Freed(v, r))
  {
    hide PendingOf, Fifo, NoRepeat;
  }

  lemma ArriveKeeps(v: View, r: Request)
    requires Counted(v) && r !in v.acquisitions
    ensures Counted(Arrived(v, r))
  {
    hide Bounded, Queued;
    ArriveKeepsQueue(v, r);
    assert Bounded(Arrived(v, r)) by { ArriveKeepsBounds(v, r); }
  }

  lemma ArriveKeepsBounds(v: View, r: Request)
    requires Bounded(v)
    ensures Bounded(Arrived(v, r))
  {
    hide NonCallbacks;
  }

  lemma ArriveKeepsQueue(v: View, r: Request)
    requires Queued(v) && r !in v.acquisitions
    ensures Queued(Arrived(v, r))
  {
    hide PendingOf;
    PendingArrives(v.arrivals, v.acquisitions, r);
    var t := Arrived(v, r);
    forall i, j | 0 <= i < j < |t.arrivals| && t.arrivals[i].callback == t.arrivals[j].callback
        && t.arrivals[i] in t.acquisitions && t.arrivals[j] in t.acquisitions && t.acquisitions[t.arrivals[j]].Granted?
      ensures !t.acquisitions[t.arrivals[i]].Pending?
    {
      assert t.arrivals[i] == v.arrivals[i] && t.arrivals[j] == v.arrivals[j];
    }
  }

  class PrincipalAdmission {
    const limit: nat
    var active: nat
    var nonCallbacks: nat
    var rejected: nat
    var waiting: seq<Request>               // in order of arrival
    var releases: set<Request>              // who holds a slot
    var acquisitions: map<Request, Outcome> // what every request got, once and for all
    ghost var arrivals: seq<Request>        // every request that asked, in order
    ghost var released: set<Request>        // who held a slot and gave it back

    ghost function State(): View
      reads this
    {
      View(limit, active, nonCallbacks, waiting, releases, acquisitions, arrivals, released)
    }

    ghost predicate NoneFits()
      reads this
    {
      forall r :: r in waiting ==> !Fits(r, active, nonCallbacks, limit)
    }

    /** The counts are right, and nobody is left waiting who could be admitted. */
    ghost predicate Valid()
      reads this
    {
      Counted(State()) && NoneFits()
    }

    constructor (limit: nat)
      ensures Valid() && this.limit == limit && waiting == [] && releases == {} && acquisitions == map[]
      ensures rejected == 0 && arrivals == [] && released == {}
    {
      this.limit := limit;
      active, nonCallbacks, rejected, waiting, releases, acquisitions := 0, 0, 0, [], {}, map[];
      arrivals, released := [], {};
      new;
      assert NonCallbacks({}) == {};
    }

    /** In every run the counts stay within their bounds, and a slot is kept from all but callbacks. */
    lemma Bounds()
      requires Valid()
      ensures 0 <= nonCallbacks <= active <= limit && (limit > 0 ==> nonCallbacks <= limit - 1)
      ensures active == |releases| && nonCallbacks == |NonCallbacks(releases)|
      ensures limit > 0 && (exists r :: r in waiting && r.callback) ==> active == limit && exists r :: r in releases && r.callback
      ensures limit > 0 && (exists r :: r in waiting && !r.callback) ==> active == limit || nonCallbacks == limit - 1
    {
      if forall r :: r in releases ==> !r.callback { assert NonCallbacks(releases) == releases; }
    }

    /** A granted request either holds its slot or has given it back, once; nobody else ever does. */
    lemma GrantedOnce(r: Request)
      requires Valid()
      ensures r in acquisitions && acquisitions[r].Granted? <==> (r in releases) != (r in released)
      ensures r in waiting <==> r in acquisitions && acquisitions[r].Pending?
    {
      PendingHas(arrivals, acquisitions);
    }

    /** Requests of one class are admitted in the order they arrived in. */
    lemma AdmittedInOrder(i: nat, j: nat)
      requires Valid() && i < j < |arrivals| && arrivals[i].callback == arrivals[j].callback
      ensures arrivals[j] in releases + released ==> arrivals[i] !in waiting
    {
      PendingHas(arrivals, acquisitions);
      assert arrivals[i] in acquisitions && arrivals[j] in acquisitions;
    }

    /** finish(true): the request takes a slot. */
    method Admit(r: Request, ghost before: seq<Request>, ghost after: seq<Request>)
      requires Counted(State()) && waiting == before + [r] + after && Fits(r, active, nonCallbacks, limit)
      requires forall q :: q in before ==> !Fits(q, active, nonCallbacks, limit)
      modifies `active, `nonCallbacks, `waiting, `releases, `acquisitions
      ensures Counted(State()) && State() == Admitted(old(State()), r) && waiting == before + after
    {
      hide Counted, Without, Fits;
      AdmitKeeps(State(), r, before, after);
      active := active + 1;
      nonCallbacks := nonCallbacks + Weight(r);
      waiting := Without(waiting, r);
      releases := releases + {r};
      acquisitions := acquisitions[r := Granted];
    }

    /** Everyone who waits tries to enter, in order. */
    method EnterAll()
      requires Counted(State())
      modifies `active, `nonCallbacks, `waiting, `releases, `acquisitions
      ensures Valid()
      ensures EnteredAll(old(State()), State())
    {
      hide Counted, Wake, Fits, Weight;
      var all := waiting;
      var i := 0;
      ghost var left: seq<Request> := [];
      ghost var admitted: seq<Request> := [];
      while i < |all|
        invariant 0 <= i <= |all| && Counted(State()) && waiting == left + all[i..]
        invariant forall q :: q in left ==> !Fits(q, active, nonCallbacks, limit)
        invariant Rest(all[i..], active, nonCallbacks, limit, admitted, left) == Wake(all, old(active), old(nonCallbacks), limit)
        invariant releases == old(releases) + (set r | r in admitted)
        invariant forall r :: r in acquisitions <==> r in old(acquisitions) || r in admitted
        invariant forall r :: r in acquisitions ==> acquisitions[r] == if r in admitted then Granted else old(acquisitions[r])
      {
        RestStep(all[i..], active, nonCallbacks, limit, admitted, left);
        assert all[i..] == [all[i]] + all[i + 1..];
        if Fits(all[i], active, nonCallbacks, limit) {
          Admit(all[i], left, all[i + 1..]);
          FitsLess(left, active - 1, nonCallbacks - Weight(all[i]), active, nonCallbacks, limit);
          admitted := admitted + [all[i]];
        } else {
          left := left + [all[i]];
        }
        i := i + 1;
      }
      RestDone(active, nonCallbacks, limit, admitted, left);
    }

    /** finish(false): the request stops waiting. */
    method Refuse(r: Request)
      requires Valid() && r in waiting
      modifies `waiting, `acquisitions, `rejected
      ensures Valid() && State() == Refused(old(State()), r) && rejected == old(rejected) + 1
    {
      hide Counted, Without;
      RefuseKeeps(State(), r);
      waiting := Without(waiting, r);
      acquisitions := acquisitions[r := Rejected];
      rejected := rejected + 1;
    }

    /** The request takes its place behind all others, and tries to enter. */
    method Arrive(r: Request) returns (o: Outcome)
      requires Valid() && r !in acquisitions
      modifies this
      ensures Valid() && rejected == old(rejected)
      ensures o == (if Fits(r, old(active), old(nonCallbacks), limit) then Granted else Pending)
      ensures State() == if o.Granted? then Admitted(Arrived(old(State()), r), r) else Arrived(old(State()), r)
    {
      hide Counted, Without;
      ArriveKeeps(State(), r);
      ghost var before := waiting;
      waiting := waiting + [r];
      acquisitions := acquisitions[r := Pending];
      arrivals := arrivals + [r];
      o := Pending;
      if Fits(r, active, nonCallbacks, limit) {
        assert waiting == before + [r] + [];
        Admit(r, before, []);
        FitsLess(before, active - 1, nonCallbacks - Weight(r), active, nonCallbacks, limit);
        assert before + [] == before;
        o := Granted;
      }
    }

    /** Already aborted: refused without ever waiting. */
    method RefuseArrival(r: Request)
      requires Valid() && r !in acquisitions
      modifies `acquisitions, `arrivals, `rejected
      ensures Valid() && rejected == old(rejected) + 1
      ensures State() == old(State()).(acquisitions := old(acquisitions)[r := Rejected], arrivals := old(arrivals) + [r])
    {
      hide Counted;
      ArriveKeeps(State(), r);
      LastRefused(State(), r);
      acquisitions := acquisitions[r := Rejected];
      arrivals := arrivals + [r];
      rejected := rejected + 1;
    }

    /**
     * Asking again gets the first answer again. A request that fits gets a slot at once: it overtakes nobody of
     * its class, and a callback always fits while no other callback holds a slot.
     */
    method Acquire(r: Request, aborted: bool) returns (o: Outcome)
      requires Valid()
      modifies this
      ensures Valid()
      ensures r in old(acquisitions) ==> o == old(acquisitions[r]) && State() == old(State()) && rejected == old(rejected)
      ensures r !in old(acquisitions) && aborted ==>
        && o == Rejected && rejected == old(rejected) + 1
        && State() == old(State()).(acquisitions := old(acquisitions)[r := Rejected], arrivals := old(arrivals) + [r])
      ensures r !in old(acquisitions) && !aborted ==>
        && o == (if Fits(r, old(active), old(nonCallbacks), limit) then Granted else Pending) && rejected == old(rejected)
        && State() == if o.Granted? then Admitted(Arrived(old(State()), r), r) else Arrived(old(State()), r)
      ensures r !in old(acquisitions) && !aborted ==>
        (o.Granted? <==> |old(releases)| < limit && (r.callback || |NonCallbacks(old(releases))| < limit - 1))
      ensures o.Granted? && r !in old(acquisitions) ==> releases == old(releases) + {r} && waiting == old(waiting)
      ensures o.Pending? && r !in old(acquisitions) ==> releases == old(releases) && waiting == old(waiting) + [r]
      ensures r !in old(acquisitions) && o.Granted? ==> forall q :: q in old(waiting) ==> q.callback != r.callback
      ensures r !in old(acquisitions) && !aborted && r.callback && limit > 0 && (forall h :: h in old(releases) ==> !h.callback) ==> o.Granted?
    {
      if r in acquisitions { return acquisitions[r]; }
      AtOnce(r);
      ByHolders(r);
      hide Counted, NonCallbacks, Fits;
      if aborted {
        RefuseArrival(r);
        return Rejected;
      }
      WithoutLast(r);
      o := Arrive(r);
    }

    /** Whether a request fits, by who holds a slot. */
    lemma ByHolders(r: Request)
      requires Valid()
      ensures Fits(r, active, nonCallbacks, limit) <==> |releases| < limit && (r.callback || |NonCallbacks(releases)| < limit - 1)
    {
    }

    lemma WithoutLast(r: Request)
      requires Valid() && r !in acquisitions
      ensures Without(waiting + [r], r) == waiting
    {
      WaitingIsPending(State());
      WithoutMiddle(waiting, r, []);
      assert waiting + [r] + [] == waiting + [r] && waiting + [] == waiting;
    }

    lemma AtOnce(r: Request)
      requires Valid()
      ensures r.callback && limit > 0 && (forall h :: h in releases ==> !h.callback) ==> Fits(r, active, nonCallbacks, limit)
      ensures Fits(r, active, nonCallbacks, limit) ==> forall q :: q in waiting ==> q.callback != r.callback
    {
      if forall h :: h in releases ==> !h.callback { assert NonCallbacks(releases) == releases; }
    }

    /** A slot is given back once, and everyone it makes room for is admitted, in order; a second release does nothing. */
    method Release(r: Request)
      requires Valid()
      modifies this
      ensures Valid() && rejected == old(rejected)
      ensures r !in old(releases) ==> State() == old(State())
      ensures r in old(releases) ==> EnteredAll(Freed(old(State()), r), State())
    {
      hide *;
      if r !in releases { return; }
      CountsAreRight();
      Free(r);
      EnterAll();
    }

    lemma CountsAreRight()
      requires Valid()
      ensures Counted(State())
    {
    }

    method Free(r: Request)
      requires Counted(State()) && r in releases
      modifies `releases, `released, `active, `nonCallbacks
      ensures Counted(State()) && State() == Freed(old(State()), r)
    {
      hide Counted;
      FreeKeeps(State(), r);
      releases := releases - {r};
      released := released + {r};
      active, nonCallbacks := Minus(active, 1), Minus(nonCallbacks, Weight(r));
    }

    /** The client went away: a waiter is refused, a holder gives its slot back, unless it is an invocation. */
    method Abort(r: Request)
      requires Valid()
      modifies this
      ensures Valid()
      ensures r in old(waiting) ==> State() == Refused(old(State()), r)
      ensures rejected == old(rejected) + if r in old(waiting) then 1 else 0
      ensures r !in old(waiting) && (r !in old(releases) || r.invocation) ==> State() == old(State())
      ensures r !in old(waiting) && r in old(releases) && !r.invocation ==> EnteredAll(Freed(old(State()), r), State())
    {
      hide Counted, EnteredAll;
      if r in waiting {
        Refuse(r);
      } else if !r.invocation {
        Release(r);
      }
    }

    /** The wait is over. */
    method Timeout(r: Request)
      requires Valid()
      modifies this
      ensures Valid() && State() == if r in old(waiting) then Refused(old(State()), r) else old(State())
      ensures rejected == old(rejected) + if r in old(waiting) then 1 else 0
    {
      if r in waiting { Refuse(r); }
    }
  }

  lemma FitsLess(rs: seq<Request>, active: nat, nonCallbacks: nat, more: nat, moreNonCallbacks: nat, limit: nat)
    requires active <= more && nonCallbacks <= moreNonCallbacks
    requires forall q :: q in rs ==> !Fits(q, active, nonCallbacks, limit)
    ensures forall q :: q in rs ==> !Fits(q, more, moreNonCallbacks, limit)
  {
  }

  lemma LastRefused(v: View, r: Request)
    requires Counted(v) && Counted(Arrived(v, r)) && r !in v.acquisitions
    ensures Counted(v.(acquisitions := v.acquisitions[r := Rejected], arrivals := v.arrivals + [r]))
  {
    hide Counted, Without;
    assert r in Arrived(v, r).waiting;
    RefuseKeeps(Arrived(v, r), r);
    WaitingIsPending(v);
    assert v.waiting + [r] + [] == v.waiting + [r] && v.waiting + [] == v.waiting;
    WithoutMiddle(v.waiting, r, []);
    assert v.acquisitions[r := Pending][r := Rejected] == v.acquisitions[r := Rejected];
  }

  function Rest(rest: seq<Request>, active: nat, nonCallbacks: nat, limit: nat, admitted: seq<Request>, left: seq<Request>): Woken {
    var w := Wake(rest, active, nonCallbacks, limit);
    Woken(admitted + w.admitted, left + w.left)
  }

  lemma RestStep(rest: seq<Request>, active: nat, nonCallbacks: nat, limit: nat, admitted: seq<Request>, left: seq<Request>)
    requires rest != []
    ensures Rest(rest, active, nonCallbacks, limit, admitted, left) ==
      if Fits(rest[0], active, nonCallbacks, limit)
      then Rest(rest[1..], active + 1, nonCallbacks + Weight(rest[0]), limit, admitted + [rest[0]], left)
      else Rest(rest[1..], active, nonCallbacks, limit, admitted, left + [rest[0]])
  {
  }

  lemma RestDone(active: nat, nonCallbacks: nat, limit: nat, admitted: seq<Request>, left: seq<Request>)
    ensures Rest([], active, nonCallbacks, limit, admitted, left) == Woken(admitted, left)
  {
  }

  lemma SplitUnique(before: seq<Request>, r: Request, after: seq<Request>)
    requires NoRepeat(before + [r] + after)
    ensures r !in before && r !in after
  {
    var all := before + [r] + after;
    assert all[|before|] == r;
    forall i | 0 <= i < |before| ensures before[i] != r { assert all[i] == before[i]; }
    forall i | 0 <= i < |after| ensures after[i] != r { assert all[|before| + 1 + i] == after[i]; }
  }

  /** Among the pending, an earlier arrival comes first. */
  lemma {:induction false} EarlierIsBefore(arrivals: seq<Request>, outcomes: map<Request, Outcome>, i: nat, j: nat,
                                           before: seq<Request>, after: seq<Request>)
    requires NoRepeat(arrivals) && i < j < |arrivals| && PendingOf(arrivals, outcomes) == before + [arrivals[j]] + after
    requires arrivals[i] in outcomes && outcomes[arrivals[i]].Pending?
    ensures arrivals[i] in before
  {
    PendingHas(arrivals[1..], outcomes);
    var rest := PendingOf(arrivals[1..], outcomes);
    if arrivals[0] in outcomes && outcomes[arrivals[0]].Pending? {
      assert PendingOf(arrivals, outcomes)[0] == arrivals[0];
      assert before != [] && before[0] == arrivals[0];
      if i > 0 {
        assert rest == PendingOf(arrivals, outcomes)[1..];
        assert (before + [arrivals[j]] + after)[1..] == before[1..] + [arrivals[j]] + after;
        EarlierIsBefore(arrivals[1..], outcomes, i - 1, j - 1, before[1..], after);
      }
    } else {
      EarlierIsBefore(arrivals[1..], outcomes, i - 1, j - 1, before, after);
    }
  }
}
