/*
 * Electives (optional courses) and student registrations for them.  Each
 * elective keeps a student counter next to the registrations table;
 * registering checks the guards in a fixed order, adds one row and bumps the
 * counter, and unregistering removes the row and lowers the counter, never
 * below zero.
 */
module ElectiveService {
  import opened Common

  type ElectiveId = int

  /** A row of the electives table; is_active is an integer flag, 1 for active and 0 for inactive. */
  datatype Elective = Elective(
    id: ElectiveId,
    teacherUserId: UserId,
    isActive: int,
    maxStudents: int,
    currentStudents: int,
    createdAt: int)

  datatype Registration = Registration(id: string, electiveId: ElectiveId, userId: UserId, registeredAt: int)

  /** The electives table and the elective_registrations table, each in row order. */
  datatype ElectivesDb = ElectivesDb(electives: seq<Elective>, regs: seq<Registration>)

  const ErrElectiveNotFound := "Электив не найден"
  const ErrInactive := "Электив неактивен"
  const ErrAlreadyRegistered := "Вы уже записаны на этот электив"
  const ErrNoSeats := "Нет свободных мест"
  const ErrNotRegistered := "Вы не записаны на этот электив"

  function FindElective(electives: seq<Elective>, e: ElectiveId): (r: Option<nat>)
    ensures r.Some? ==> r.value < |electives| && electives[r.value].id == e
    ensures r.Some? ==> forall i :: 0 <= i < r.value ==> electives[i].id != e
    ensures r.None? <==> forall i :: 0 <= i < |electives| ==> electives[i].id != e
  {
    FindIndex(electives, (x: Elective) => x.id == e)
  }

  predicate IsRegistration(x: Registration, e: ElectiveId, u: UserId) {
    x.electiveId == e && x.userId == u
  }

  function FindRegistration(regs: seq<Registration>, e: ElectiveId, u: UserId): (r: Option<nat>)
    ensures r.Some? ==> r.value < |regs| && IsRegistration(regs[r.value], e, u)
    ensures r.Some? ==> forall i :: 0 <= i < r.value ==> !IsRegistration(regs[i], e, u)
    ensures r.None? <==> forall i :: 0 <= i < |regs| ==> !IsRegistration(regs[i], e, u)
  {
    FindIndex(regs, (x: Registration) => IsRegistration(x, e, u))
  }

  /** is_user_registered: a registration row exists for the pair. */
  function IsUserRegistered(db: ElectivesDb, e: ElectiveId, u: UserId): (r: bool)
    ensures r <==> exists i :: 0 <= i < |db.regs| && db.regs[i].electiveId == e && db.regs[i].userId == u
  {
    FindRegistration(db.regs, e, u).Some?
  }

  /** The number of registration rows for the elective. */
  function CountFor(regs: seq<Registration>, e: ElectiveId): (n: nat)
    ensures n <= |regs|
    ensures n == 0 <==> forall i :: 0 <= i < |regs| ==> regs[i].electiveId != e
  {
    if regs == [] then 0
    else (if regs[0].electiveId == e then 1 else 0) + CountFor(regs[1..], e)
  }

  // ---------------------------------------------------------------------------
  // Register and unregister on database values
  // ---------------------------------------------------------------------------

  /** register_for_elective: unknown, inactive (flag 0), duplicate, full, in that order; then one new row and the counter up by one. */
  function RegisterSpec(db: ElectivesDb, e: ElectiveId, u: UserId, now: int, regId: string): (r: Result<ElectivesDb>)
    ensures FindElective(db.electives, e).None? ==> r == Err(ErrElectiveNotFound)
    ensures FindElective(db.electives, e).Some? ==>
              var ev := db.electives[FindElective(db.electives, e).value];
              && (ev.isActive == 0 ==> r == Err(ErrInactive))
              && (ev.isActive != 0 && IsUserRegistered(db, e, u) ==> r == Err(ErrAlreadyRegistered))
              && (ev.isActive != 0 && !IsUserRegistered(db, e, u) && ev.currentStudents >= ev.maxStudents
                  ==> r == Err(ErrNoSeats))
              && (r.Ok? <==> ev.isActive != 0 && !IsUserRegistered(db, e, u) && ev.currentStudents < ev.maxStudents)
    ensures r.Ok? ==> FindElective(db.electives, e).Some? && !IsUserRegistered(db, e, u)
  {
    match FindElective(db.electives, e)
    case None => Err(ErrElectiveNotFound)
    case Some(i) =>
      var ev := db.electives[i];
      if ev.isActive == 0 then Err(ErrInactive)
      else if FindRegistration(db.regs, e, u).Some? then Err(ErrAlreadyRegistered)
      else if ev.currentStudents >= ev.maxStudents then Err(ErrNoSeats)
      else Ok(ElectivesDb(db.electives[i := ev.(currentStudents := ev.currentStudents + 1)],
                       db.regs + [Registration(regId, e, u, now)]))
  }

  /** unregister_from_elective: refused without a registration; otherwise the row goes and the counter drops, floored at 0. */
  function UnregisterSpec(db: ElectivesDb, e: ElectiveId, u: UserId): (r: Result<ElectivesDb>)
    ensures r.Err? <==> !IsUserRegistered(db, e, u)
    ensures r.Err? ==> r.error == ErrNotRegistered
  {
    match FindRegistration(db.regs, e, u)
    case None => Err(ErrNotRegistered)
    case Some(j) => Ok(ElectivesDb(DropCounter(db.electives, e), RemoveAt(db.regs, j)))
  }

  /** One student less, floored at zero. */
  function Decrement(ev: Elective): Elective {
    ev.(currentStudents := if ev.currentStudents - 1 < 0 then 0 else ev.currentStudents - 1)
  }

  /** The electives table with the elective's counter, if the elective exists, decremented. */
  function DropCounter(electives: seq<Elective>, e: ElectiveId): (r: seq<Elective>)
    ensures |r| == |electives|
    ensures forall k :: 0 <= k < |electives| ==> r[k].id == electives[k].id
  {
    match FindElective(electives, e)
    case None => electives
    case Some(i) => electives[i := Decrement(electives[i])]
  }

  // ---------------------------------------------------------------------------
  // The counter invariant
  // ---------------------------------------------------------------------------

  predicate ElectiveIdsDistinct(electives: seq<Elective>) {
    forall i, j :: 0 <= i < j < |electives| ==> electives[i].id != electives[j].id
  }

  predicate PairsUnique(regs: seq<Registration>) {
    forall i, j :: 0 <= i < j < |regs| ==> !IsRegistration(regs[j], regs[i].electiveId, regs[i].userId)
  }

  predicate CountersAgree(electives: seq<Elective>, regs: seq<Registration>) {
    forall i :: 0 <= i < |electives| ==>
      electives[i].currentStudents == CountFor(regs, electives[i].id)
      && electives[i].currentStudents <= electives[i].maxStudents
  }

  /** The tables as register and unregister keep them: one row per elective id and per (elective, user) pair, counters equal to row counts and within capacity. */
  predicate Valid(db: ElectivesDb) {
    ElectiveIdsDistinct(db.electives) && PairsUnique(db.regs) && CountersAgree(db.electives, db.regs)
  }

  lemma {:induction false} CountConcat(a: seq<Registration>, b: seq<Registration>, e: ElectiveId)
    ensures CountFor(a + b, e) == CountFor(a, e) + CountFor(b, e)
  {
    if a != [] {
      assert (a + b)[1..] == a[1..] + b;
      CountConcat(a[1..], b, e);
    } else {
      assert a + b == b;
    }
  }

  lemma CountRemove(regs: seq<Registration>, j: nat, e: ElectiveId)
    requires j < |regs|
    ensures CountFor(RemoveAt(regs, j), e) == CountFor(regs, e) - (if regs[j].electiveId == e then 1 else 0)
  {
    assert regs == regs[..j] + ([regs[j]] + regs[j + 1..]);
    CountConcat(regs[..j], [regs[j]] + regs[j + 1..], e);
    CountConcat([regs[j]], regs[j + 1..], e);
    CountConcat(regs[..j], regs[j + 1..], e);
  }

  /** Replacing one elective's counter keeps every elective id. */
  lemma SameIdsDistinct(electives: seq<Elective>, electives': seq<Elective>)
    requires ElectiveIdsDistinct(electives) && |electives'| == |electives|
    requires forall k :: 0 <= k < |electives| ==> electives'[k].id == electives[k].id
    ensures ElectiveIdsDistinct(electives')
  {
  }

  lemma RegisterCounters(electives: seq<Elective>, regs: seq<Registration>, i: nat, x: Registration)
    requires ElectiveIdsDistinct(electives) && CountersAgree(electives, regs)
    requires i < |electives| && x.electiveId == electives[i].id
    requires electives[i].currentStudents < electives[i].maxStudents
    ensures CountersAgree(electives[i := electives[i].(currentStudents := electives[i].currentStudents + 1)], regs + [x])
  {
    var electives' := electives[i := electives[i].(currentStudents := electives[i].currentStudents + 1)];
    forall k | 0 <= k < |electives'|
      ensures electives'[k].currentStudents == CountFor(regs + [x], electives'[k].id)
    {
      CountConcat(regs, [x], electives[k].id);
    }
  }

  /** With one row per elective id, dropping a counter touches exactly the rows of that elective. */
  lemma DropCounterOnDistinct(electives: seq<Elective>, e: ElectiveId)
    requires ElectiveIdsDistinct(electives)
    ensures forall k :: 0 <= k < |electives| ==>
              DropCounter(electives, e)[k] == if electives[k].id == e then Decrement(electives[k]) else electives[k]
  {
  }

  lemma UnregisterCounters(electives: seq<Elective>, regs: seq<Registration>, j: nat)
    requires ElectiveIdsDistinct(electives) && CountersAgree(electives, regs) && j < |regs|
    ensures CountersAgree(DropCounter(electives, regs[j].electiveId), RemoveAt(regs, j))
    ensures forall k :: 0 <= k < |electives| ==>
              DropCounter(electives, regs[j].electiveId)[k].currentStudents
              == electives[k].currentStudents - (if electives[k].id == regs[j].electiveId then 1 else 0)
  {
    var electives' := DropCounter(electives, regs[j].electiveId);
    DropCounterOnDistinct(electives, regs[j].electiveId);
    forall k | 0 <= k < |electives|
      ensures electives'[k].currentStudents == CountFor(RemoveAt(regs, j), electives'[k].id)
      ensures electives'[k].currentStudents == electives[k].currentStudents - (if electives[k].id == regs[j].electiveId then 1 else 0)
    {
      CountRemove(regs, j, electives[k].id);
    }
  }

  lemma AppendPairsUnique(regs: seq<Registration>, x: Registration)
    requires PairsUnique(regs)
    requires forall i :: 0 <= i < |regs| ==> !IsRegistration(regs[i], x.electiveId, x.userId)
    ensures PairsUnique(regs + [x])
  {
    var r := regs + [x];
    forall i, j | 0 <= i < j < |r| ensures !IsRegistration(r[j], r[i].electiveId, r[i].userId) {
      if j == |regs| {
        assert r[i] == regs[i];
      }
    }
  }

  lemma RemovePairsUnique(regs: seq<Registration>, j: nat)
    requires PairsUnique(regs) && j < |regs|
    ensures PairsUnique(RemoveAt(regs, j))
    ensures forall m :: 0 <= m < |regs| - 1 ==> !IsRegistration(RemoveAt(regs, j)[m], regs[j].electiveId, regs[j].userId)
  {
    var r := RemoveAt(regs, j);
    forall m | 0 <= m < |r| ensures !IsRegistration(r[m], regs[j].electiveId, regs[j].userId) {
      if m >= j {
        assert r[m] == regs[m + 1];
      }
    }
  }

  /** A successful registration adds exactly the new row, lifts exactly one counter by one, and keeps the tables valid. */
  lemma RegisterOutcome(db: ElectivesDb, e: ElectiveId, u: UserId, now: int, regId: string)
    requires Valid(db)
    requires RegisterSpec(db, e, u, now, regId).Ok?
    ensures var db' := RegisterSpec(db, e, u, now, regId).value;
            var i := FindElective(db.electives, e).value;
            && db'.regs == db.regs + [Registration(regId, e, u, now)]
            && |db'.electives| == |db.electives|
            && db'.electives[i].currentStudents == db.electives[i].currentStudents + 1
            && (forall k :: 0 <= k < |db.electives| && k != i ==> db'.electives[k] == db.electives[k])
            && Valid(db')
  {
    var i := FindElective(db.electives, e).value;
    var ev := db.electives[i];
    var x := Registration(regId, e, u, now);
    var db' := ElectivesDb(db.electives[i := ev.(currentStudents := ev.currentStudents + 1)], db.regs + [x]);
    assert RegisterSpec(db, e, u, now, regId).value == db';
    SameIdsDistinct(db.electives, db'.electives);
    AppendPairsUnique(db.regs, x);
    RegisterCounters(db.electives, db.regs, i, x);
  }

  /** A successful unregistration removes the pair's row, lowers its elective's counter by one, and keeps the tables valid. */
  lemma UnregisterOutcome(db: ElectivesDb, e: ElectiveId, u: UserId)
    requires Valid(db)
    requires UnregisterSpec(db, e, u).Ok?
    ensures var db' := UnregisterSpec(db, e, u).value;
            && |db'.regs| == |db.regs| - 1
            && |db'.electives| == |db.electives|
            && (forall k :: 0 <= k < |db.electives| ==>
                  db'.electives[k].currentStudents
                  == db.electives[k].currentStudents - (if db.electives[k].id == e then 1 else 0))
            && Valid(db')
            && !IsUserRegistered(db', e, u)
  {
    var j := FindRegistration(db.regs, e, u).value;
    RemovePairsUnique(db.regs, j);
    UnregisterCounters(db.electives, db.regs, j);
  }

  /** Unregistering right after registering restores both tables. */
  lemma RegisterThenUnregister(db: ElectivesDb, e: ElectiveId, u: UserId, now: int, regId: string)
    requires Valid(db)
    requires RegisterSpec(db, e, u, now, regId).Ok?
    ensures UnregisterSpec(RegisterSpec(db, e, u, now, regId).value, e, u) == Ok(db)
  {
    var i := FindElective(db.electives, e).value;
    assert db.electives[i].currentStudents == CountFor(db.regs, e);
    RegisterThenUnregisterAt(db, e, u, now, regId, i);
  }

  lemma RegisterThenUnregisterAt(db: ElectivesDb, e: ElectiveId, u: UserId, now: int, regId: string, i: nat)
    requires RegisterSpec(db, e, u, now, regId).Ok?
    requires FindElective(db.electives, e) == Some(i) && db.electives[i].currentStudents >= 0
    ensures UnregisterSpec(RegisterSpec(db, e, u, now, regId).value, e, u) == Ok(db)
  {
    var ev := db.electives[i];
    var bumped := ev.(currentStudents := ev.currentStudents + 1);
    var x := Registration(regId, e, u, now);
    assert RegisterSpec(db, e, u, now, regId).value == ElectivesDb(db.electives[i := bumped], db.regs + [x]);
    FindRegistrationIs(db.regs + [x], e, u, |db.regs|);
    FindElectiveIs(db.electives[i := bumped], e, i);
    assert RemoveAt(db.regs + [x], |db.regs|) == db.regs;
    assert Decrement(bumped) == ev;
    assert db.electives[i := bumped][i := ev] == db.electives;
  }

  lemma FindRegistrationIs(regs: seq<Registration>, e: ElectiveId, u: UserId, i: nat)
    requires i < |regs| && IsRegistration(regs[i], e, u)
    requires forall m :: 0 <= m < i ==> !IsRegistration(regs[m], e, u)
    ensures FindRegistration(regs, e, u) == Some(i)
  {
  }

  lemma FindElectiveIs(electives: seq<Elective>, e: ElectiveId, i: nat)
    requires i < |electives| && electives[i].id == e
    requires forall m :: 0 <= m < i ==> electives[m].id != e
    ensures FindElective(electives, e) == Some(i)
  {
  }

  /** On valid tables the stored counter is the number of registrations. */
  lemma ParticipantsCountIsCounter(db: ElectivesDb, i: nat)
    requires Valid(db) && i < |db.electives|
    ensures CountFor(db.regs, db.electives[i].id) == db.electives[i].currentStudents
  {
  }

  // ---------------------------------------------------------------------------
  // Listing
  // ---------------------------------------------------------------------------

  function NegCreated(x: Elective): int { -x.createdAt }

  lemma NewestFirst(s: seq<Elective>)
    requires SortedBy(s, NegCreated)
    ensures forall i, j :: 0 <= i < j < |s| ==> s[i].createdAt >= s[j].createdAt
  {
    forall i, j | 0 <= i < j < |s| ensures s[i].createdAt >= s[j].createdAt {
      assert NegCreated(s[i]) <= NegCreated(s[j]);
    }
  }

  /** get_all_electives: active ones (flag 1) only when asked, newest created first, then OFFSET and LIMIT. */
  function AllElectives(db: ElectivesDb, skip: nat, limit: nat, activeOnly: bool): (r: seq<Elective>)
    ensures |r| <= limit
    ensures forall x :: x in r ==> x in db.electives && (activeOnly ==> x.isActive == 1)
    ensures forall i, j :: 0 <= i < j < |r| ==> r[i].createdAt >= r[j].createdAt
  {
    var kept := if activeOnly then Filter(db.electives, (x: Elective) => x.isActive == 1) else db.electives;
    var sorted := SortBy(kept, NegCreated);
    SameMembers(kept, sorted);
    var r := Page(sorted, skip, limit);
    assert forall i :: 0 <= i < |r| ==> r[i] in sorted;
    PageSorted(sorted, skip, limit, NegCreated);
    NewestFirst(r);
    r
  }

  /** Paging loses nothing: with no offset and a large enough limit the list holds every elective that qualifies. */
  lemma AllElectivesComplete(db: ElectivesDb, activeOnly: bool, x: Elective)
    requires x in db.electives && (activeOnly ==> x.isActive == 1)
    ensures x in AllElectives(db, 0, |db.electives|, activeOnly)
  {
    var kept := if activeOnly then Filter(db.electives, (y: Elective) => y.isActive == 1) else db.electives;
    var sorted := SortBy(kept, NegCreated);
    SameMembers(kept, sorted);
    assert Page(sorted, 0, |db.electives|) == sorted;
  }

  /** get_user_electives: the active electives (flag 1) the user is registered in, newest created first. */
  function UserElectives(db: ElectivesDb, u: UserId): (r: seq<Elective>)
    ensures forall x :: x in r <==> x in db.electives && x.isActive == 1 && IsUserRegistered(db, x.id, u)
    ensures forall i, j :: 0 <= i < j < |r| ==> r[i].createdAt >= r[j].createdAt
  {
    var mine := Filter(db.electives, (x: Elective) => x.isActive == 1 && IsUserRegistered(db, x.id, u));
    var r := SortBy(mine, NegCreated);
    SameMembers(mine, r);
    NewestFirst(r);
    r
  }

  /** An elective the user just joined is among their electives exactly when it is active with flag 1. */
  lemma RegisteredShowsInMine(db: ElectivesDb, e: ElectiveId, u: UserId, now: int, regId: string)
    requires Valid(db)
    requires RegisterSpec(db, e, u, now, regId).Ok?
    ensures var db' := RegisterSpec(db, e, u, now, regId).value;
            var x := db'.electives[FindElective(db.electives, e).value];
            x in UserElectives(db', u) <==> x.isActive == 1
  {
    var i := FindElective(db.electives, e).value;
    RegisterOutcome(db, e, u, now, regId);
    var db' := RegisterSpec(db, e, u, now, regId).value;
    assert db'.regs[|db.regs|] == Registration(regId, e, u, now);
  }

  // ---------------------------------------------------------------------------
  // The mutable store
  // ---------------------------------------------------------------------------

  class ElectiveStore {
    var electives: seq<Elective>
    var regs: seq<Registration>

    function State(): ElectivesDb
      reads this
    {
      ElectivesDb(electives, regs)
    }

    constructor(electives: seq<Elective>, regs: seq<Registration>)
      ensures State() == ElectivesDb(electives, regs)
    {
      this.electives := electives;
      this.regs := regs;
    }

    method Register(e: ElectiveId, u: UserId, now: int, regId: string) returns (r: Result<Registration>)
      modifies this
      ensures RegisterSpec(old(State()), e, u, now, regId).Err? ==>
                State() == old(State()) && r == Err(RegisterSpec(old(State()), e, u, now, regId).error)
      ensures RegisterSpec(old(State()), e, u, now, regId).Ok? ==>
                State() == RegisterSpec(old(State()), e, u, now, regId).value && r == Ok(Registration(regId, e, u, now))
    {
      var i := FindElective(electives, e);
      if i.None? {
        return Err(ErrElectiveNotFound);
      }
      var ev := electives[i.value];
      if ev.isActive == 0 {
        return Err(ErrInactive);
      }
      if FindRegistration(regs, e, u).Some? {
        return Err(ErrAlreadyRegistered);
      }
      if ev.currentStudents >= ev.maxStudents {
        return Err(ErrNoSeats);
      }
      var reg := Registration(regId, e, u, now);
      regs := regs + [reg];
      electives := electives[i.value := ev.(currentStudents := ev.currentStudents + 1)];
      r := Ok(reg);
    }

    method Unregister(e: ElectiveId, u: UserId) returns (r: Result<bool>)
      modifies this
      ensures UnregisterSpec(old(State()), e, u).Err? ==>
                State() == old(State()) && r == Err(ErrNotRegistered)
      ensures UnregisterSpec(old(State()), e, u).Ok? ==>
                State() == UnregisterSpec(old(State()), e, u).value && r == Ok(true)
    {
      var j := FindRegistration(regs, e, u);
      if j.None? {
        return Err(ErrNotRegistered);
      }
      var i := FindElective(electives, e);
      if i.Some? {
        var ev := electives[i.value];
        var n := ev.currentStudents - 1;
        if n < 0 {
          n := 0;
        }
        electives := electives[i.value := ev.(currentStudents := n)];
      }
      regs := RemoveAt(regs, j.value);
      r := Ok(true);
    }
  }
}
