/** The student service: lookup, delete and the aggregate update, over the
    set of persisted students. */
module Services {
  import opened Common
  import opened Enums
  import opened Entities
  import opened MappingProfile

  // ---------------------------------------------------------------------
  // Keyed lookup (FirstOrDefault) and removal

  /** The position of the first key equal to `key`, if any. */
  function FirstMatch<K(==)>(keys: seq<K>, key: K): (r: Option<nat>)
    ensures r.None? <==> key !in keys
    ensures r.Some? ==> r.value < |keys| && keys[r.value] == key
    ensures r.Some? ==> forall j :: 0 <= j < r.value ==> keys[j] != key
  {
    if keys == [] then None
    else if keys[0] == key then Some(0)
    else match FirstMatch(keys[1..], key)
      case None => None
      case Some(k) => Some(k + 1)
  }

  predicate Distinct<K(==)>(keys: seq<K>)
  {
    forall i, j :: 0 <= i < j < |keys| ==> keys[i] != keys[j]
  }

  /** When keys are distinct, the first match is the only match. */
  lemma FirstMatchIsUnique<K>(keys: seq<K>, key: K, k: nat)
    requires Distinct(keys) && k < |keys|
    ensures FirstMatch(keys, key) == Some(k) <==> keys[k] == key
  {
    var m := FirstMatch(keys, key);
    if keys[k] == key {
      assert key in keys;
      assert m.value <= k;
    }
  }

  /** The sequence without its element at position `k`. */
  function RemoveAt<T>(s: seq<T>, k: nat): (r: seq<T>)
    requires k < |s|
    ensures |r| == |s| - 1
    ensures forall j :: 0 <= j < k ==> r[j] == s[j]
    ensures forall j :: k <= j < |r| ==> r[j] == s[j + 1]
    ensures multiset(r) + multiset{s[k]} == multiset(s)
  {
    assert s == s[..k] + [s[k]] + s[k + 1..];
    s[..k] + s[k + 1..]
  }

  /** Removing the first match drops exactly one occurrence of the key
      and keeps every occurrence of every other key. */
  lemma RemoveFirstMatch<K>(keys: seq<K>, key: K)
    requires key in keys
    ensures multiset(RemoveAt(keys, FirstMatch(keys, key).value)) == multiset(keys) - multiset{key}
  {
  }

  // ---------------------------------------------------------------------
  // Clear and rebuild of one owned collection

  /** Every element gets `owner` as its StudentId; nothing else changes. */
  function SetOwner<T>(es: seq<Owned<T>>, owner: int): (r: seq<Owned<T>>)
    ensures |r| == |es|
    ensures forall i :: 0 <= i < |es| ==> r[i] == es[i].(studentId := owner)
  {
    if es == [] then [] else [es[0].(studentId := owner)] + SetOwner(es[1..], owner)
  }

  /** What a collection is after the update: cleared if it existed, then,
      when the request carries a list, replaced by that list mapped to
      fresh entities owned by `owner`. An absent list leaves a null
      collection null and any other one empty; a present list gives one
      fresh element per requested element, in order, with the request's
      data, unset identity, owned by `owner` and stamped at `at`. */
  function Rebuilt<T>(list: Collection<T>, requested: Option<seq<T>>, owner: int, at: Instant): (r: Collection<T>)
    ensures requested.None? ==> (r.None? <==> list.None?) && (r.Some? ==> r.value == [])
    ensures requested.Some? ==> r.Some? && |r.value| == |requested.value|
    ensures requested.Some? ==> forall i :: 0 <= i < |r.value| ==>
      && r.value[i].data == requested.value[i]
      && r.value[i].id == UnsetKey && r.value[i].pid == EmptyGuid
      && r.value[i].createdOn == at && r.value[i].updatedOn == at
    ensures OwnedBy(r, owner)
  {
    match requested
    case None => if list.Some? then Some([]) else None
    case Some(ds) => Some(SetOwner(MapAll(ds, at), owner))
  }

  /** A requested list replaces the collection whatever it held before. */
  lemma RebuiltIgnoresExisting<T>(a: Collection<T>, b: Collection<T>, ds: seq<T>, owner: int, at: Instant)
    ensures Rebuilt(a, Some(ds), owner, at) == Rebuilt(b, Some(ds), owner, at)
  {
  }

  /** An absent list does not leave a non-empty collection untouched: it
      empties it. */
  lemma AbsentListEmptiesCollection<T>(list: Collection<T>, owner: int, at: Instant)
    requires list.Some? && list.value != []
    ensures Rebuilt(list, None, owner, at) == Some([])
    ensures Rebuilt(list, None, owner, at) != list
  {
  }

  /** Clears the loaded list (if there is one) and, when the request has a
      list, maps it and sets every element's StudentId. */
  method RebuildCollection<T>(list: Collection<T>, requested: Option<seq<T>>, owner: int, at: Instant)
    returns (r: Collection<T>)
    ensures r == Rebuilt(list, requested, owner, at)
  {
    r := list;
    if r.Some? {
      r := Some([]);
    }
    if requested.Some? {
      var mapped := MapAll(requested.value, at);
      var i := 0;
      while i < |mapped|
        invariant 0 <= i <= |mapped| == |requested.value|
        invariant forall j :: 0 <= j < i ==> mapped[j] == MapNew(requested.value[j], at).(studentId := owner)
        invariant forall j :: i <= j < |mapped| ==> mapped[j] == MapNew(requested.value[j], at)
      {
        mapped := mapped[i := mapped[i].(studentId := owner)];
        i := i + 1;
      }
      assert mapped == SetOwner(MapAll(requested.value, at), owner);
      r := Some(mapped);
    }
  }

  /** How many records of the list have document type `t`. */
  function TypeCount(docs: seq<Owned<DocumentFields>>, t: DocumentType): nat
  {
    if docs == [] then 0
    else (if docs[0].data.documentType == t then 1 else 0) + TypeCount(docs[1..], t)
  }

  /** How many requested documents have type `t`. */
  function RequestedTypeCount(ds: seq<DocumentFields>, t: DocumentType): nat
  {
    if ds == [] then 0
    else (if ds[0].documentType == t then 1 else 0) + RequestedTypeCount(ds[1..], t)
  }

  lemma {:induction false} TypeCountOfData(docs: seq<Owned<DocumentFields>>, ds: seq<DocumentFields>, t: DocumentType)
    requires |docs| == |ds|
    requires forall i :: 0 <= i < |ds| ==> docs[i].data == ds[i]
    ensures TypeCount(docs, t) == RequestedTypeCount(ds, t)
  {
    if ds != [] {
      TypeCountOfData(docs[1..], ds[1..], t);
    }
  }

  /** Rebuilding the documents keeps exactly the requested number of
      records of each type: the update enforces no limit per type. */
  lemma RebuiltDocumentTypes(list: Collection<DocumentFields>, ds: seq<DocumentFields>, owner: int, at: Instant, t: DocumentType)
    ensures TypeCount(Rebuilt(list, Some(ds), owner, at).value, t) == RequestedTypeCount(ds, t)
  {
    TypeCountOfData(Rebuilt(list, Some(ds), owner, at).value, ds, t);
  }

  // ---------------------------------------------------------------------
  // The aggregate update

  /** A one-to-one child after the update: if present, its simple
      properties are copied by name from its request group and it is
      stamped with `now`; if absent, it stays absent. */
  function Refreshed(d: Option<Detail>, dto: Fields, now: Instant, at: Instant): (r: Option<Detail>)
    ensures r.Some? <==> d.Some?
    ensures r.Some? ==> SameIdentity(r.value, d.value) && r.value.data == CopyByName(dto, d.value.data)
    ensures r.Some? ==> r.value.createdOn == at && r.value.updatedOn == now
  {
    match d
    case None => None
    case Some(e) => Some(MapOnto(dto, e, at).(updatedOn := now))
  }

  /** The request groups of the seven one-to-one children, in declaration
      order. */
  function DetailRequests(dto: CompleteRequest): (gs: seq<Fields>)
    ensures |gs| == 7
  {
    [dto.personal, dto.contact, dto.financial, dto.bank, dto.citizenship, dto.enrollment, dto.declaration]
  }

  /** The request lists of the six collections other than documents, in
      declaration order. */
  function FieldRequests(dto: CompleteRequest): (ls: seq<Option<seq<Fields>>>)
    ensures |ls| == 6
  {
    [dto.addresses, dto.emergencyContacts, dto.disabilityDetails, dto.parentGuardians,
     dto.academicHistories, dto.extracurricularDetails]
  }

  /** All seven one-to-one children after the update: each keeps its
      presence and identity, takes the properties of its own request group
      by name, and is stamped. */
  function RefreshedDetails(d: OneToOne, dto: CompleteRequest, now: Instant, at: Instant): (r: OneToOne)
    ensures forall i :: 0 <= i < 7 ==> (Details(r)[i].Some? <==> Details(d)[i].Some?)
    ensures forall i :: 0 <= i < 7 && Details(r)[i].Some? ==>
      && SameIdentity(Details(r)[i].value, Details(d)[i].value)
      && Details(r)[i].value.data == CopyByName(DetailRequests(dto)[i], Details(d)[i].value.data)
      && Details(r)[i].value.createdOn == at && Details(r)[i].value.updatedOn == now
  {
    OneToOne(
      Refreshed(d.personalDetails, dto.personal, now, at),
      Refreshed(d.contactDetail, dto.contact, now, at),
      Refreshed(d.financialDetail, dto.financial, now, at),
      Refreshed(d.bankDetail, dto.bank, now, at),
      Refreshed(d.citizenshipDetail, dto.citizenship, now, at),
      Refreshed(d.academicEnrollment, dto.enrollment, now, at),
      Refreshed(d.declaration, dto.declaration, now, at))
  }

  /** All seven collections after the update: each is rebuilt from its own
      loaded list and its own request list, and every element ends owned
      by `owner`. */
  function RebuiltCollections(c: OwnedCollections, dto: CompleteRequest, owner: int, at: Instant): (r: OwnedCollections)
    ensures forall i :: 0 <= i < 6 ==>
      FieldCollections(r)[i] == Rebuilt(FieldCollections(c)[i], FieldRequests(dto)[i], owner, at)
    ensures r.documents == Rebuilt(c.documents, dto.documents, owner, at)
    ensures AllOwnedBy(r, owner)
  {
    OwnedCollections(
      Rebuilt(c.addresses, dto.addresses, owner, at),
      Rebuilt(c.emergencyContacts, dto.emergencyContacts, owner, at),
      Rebuilt(c.disabilityDetails, dto.disabilityDetails, owner, at),
      Rebuilt(c.parentGuardians, dto.parentGuardians, owner, at),
      Rebuilt(c.academicHistories, dto.academicHistories, owner, at),
      Rebuilt(c.extracurricularDetails, dto.extracurricularDetails, owner, at),
      Rebuilt(c.documents, dto.documents, owner, at))
  }

  /** The aggregate after an update with request `dto`, where `now` is the
      instant the service captures and `at` the instant the mapper stamps.
      The root keeps its Id, Pid and IsActive, takes the request's simple
      properties by name and a CreatedOn of `at`; the root and every
      present one-to-one child are stamped with the one instant `now`; and
      every element of every collection is owned by the root's Id. */
  function UpdatedAggregate(v: StudentValue, dto: CompleteRequest, now: Instant, at: Instant): (r: StudentValue)
    ensures r.scalars.id == v.scalars.id && r.scalars.pid == v.scalars.pid
    ensures r.scalars.isActive == v.scalars.isActive
    ensures r.scalars.fields == CopyByName(dto.fields, v.scalars.fields) && r.scalars.createdOn == at
    ensures StampedAt(r, now)
    ensures AllOwnedBy(r.collections, v.scalars.id)
  {
    var root := MapStudent(dto, v.scalars, at).(updatedOn := now);
    StudentValue(
      root,
      RefreshedDetails(v.details, dto, now, at),
      RebuiltCollections(v.collections, dto, root.id, at))
  }

  /** The root and every present one-to-one child were last updated at `now`. */
  predicate StampedAt(v: StudentValue, now: Instant)
  {
    && v.scalars.updatedOn == now
    && forall d | d in Details(v.details) :: d.Some? ==> d.value.updatedOn == now
  }

  /** Every element of the collection (if any) has StudentId `owner`. */
  predicate OwnedBy<T>(c: Collection<T>, owner: int)
  {
    c.Some? ==> forall i :: 0 <= i < |c.value| ==> c.value[i].studentId == owner
  }

  /** Every element of every collection has StudentId `owner`. */
  predicate AllOwnedBy(c: OwnedCollections, owner: int)
  {
    && (forall l | l in FieldCollections(c) :: OwnedBy(l, owner))
    && OwnedBy(c.documents, owner)
  }

  /** Each collection is rebuilt from its own loaded list and its own
      request list only: whatever else differs in the aggregate or the
      request, equal inputs for one collection give equal results. */
  lemma CollectionsIndependent(v: StudentValue, w: StudentValue, dto: CompleteRequest, e: CompleteRequest, now: Instant, at: Instant)
    requires v.scalars.id == w.scalars.id
    ensures var rv, rw := UpdatedAggregate(v, dto, now, at).collections, UpdatedAggregate(w, e, now, at).collections;
      var cv, cw := v.collections, w.collections;
      && (cv.addresses == cw.addresses && dto.addresses == e.addresses ==> rv.addresses == rw.addresses)
      && (cv.emergencyContacts == cw.emergencyContacts && dto.emergencyContacts == e.emergencyContacts ==>
            rv.emergencyContacts == rw.emergencyContacts)
      && (cv.disabilityDetails == cw.disabilityDetails && dto.disabilityDetails == e.disabilityDetails ==>
            rv.disabilityDetails == rw.disabilityDetails)
      && (cv.parentGuardians == cw.parentGuardians && dto.parentGuardians == e.parentGuardians ==>
            rv.parentGuardians == rw.parentGuardians)
      && (cv.academicHistories == cw.academicHistories && dto.academicHistories == e.academicHistories ==>
            rv.academicHistories == rw.academicHistories)
      && (cv.extracurricularDetails == cw.extracurricularDetails && dto.extracurricularDetails == e.extracurricularDetails ==>
            rv.extracurricularDetails == rw.extracurricularDetails)
      && (cv.documents == cw.documents && dto.documents == e.documents ==> rv.documents == rw.documents)
  {
  }

  /** Updates the loaded student in place: the root's simple properties
      and stamps, then each one-to-one child that exists, then each
      collection. */
  method ApplyUpdate(s: Student, dto: CompleteRequest, now: Instant, at: Instant)
    modifies s
    ensures s.Value() == UpdatedAggregate(old(s.Value()), dto, now, at)
  {
    var root := MapStudent(dto, s.Scalars(), at);
    s.createdOn, s.updatedOn, s.fields := root.createdOn, root.updatedOn, root.fields;
    s.updatedOn := now;
    UpdateDetails(s, dto, now, at);
    UpdateCollections(s, dto, at);
  }

  /** For each one-to-one child that exists: maps its request group onto
      it, then stamps it with `now`. */
  method UpdateDetails(s: Student, dto: CompleteRequest, now: Instant, at: Instant)
    modifies s`details
    ensures s.details == RefreshedDetails(old(s.details), dto, now, at)
  {
    var personal := RefreshDetail(s.details.personalDetails, dto.personal, now, at);
    s.details := s.details.(personalDetails := personal);
    var contact := RefreshDetail(s.details.contactDetail, dto.contact, now, at);
    s.details := s.details.(contactDetail := contact);
    var financial := RefreshDetail(s.details.financialDetail, dto.financial, now, at);
    s.details := s.details.(financialDetail := financial);
    var bank := RefreshDetail(s.details.bankDetail, dto.bank, now, at);
    s.details := s.details.(bankDetail := bank);
    var citizenship := RefreshDetail(s.details.citizenshipDetail, dto.citizenship, now, at);
    s.details := s.details.(citizenshipDetail := citizenship);
    var enrollment := RefreshDetail(s.details.academicEnrollment, dto.enrollment, now, at);
    s.details := s.details.(academicEnrollment := enrollment);
    var declaration := RefreshDetail(s.details.declaration, dto.declaration, now, at);
    s.details := s.details.(declaration := declaration);
  }

  /** One child's step: if it exists, maps its request group onto it and
      then stamps it with `now`. */
  method RefreshDetail(d: Option<Detail>, dto: Fields, now: Instant, at: Instant) returns (r: Option<Detail>)
    ensures r == Refreshed(d, dto, now, at)
  {
    r := d;
    if r.Some? {
      r := Some(MapOnto(dto, r.value, at));
      r := Some(r.value.(updatedOn := now));
    }
  }

  /** Clears and rebuilds each of the seven collections in turn, every
      element owned by the student's Id. */
  method UpdateCollections(s: Student, dto: CompleteRequest, at: Instant)
    modifies s`collections
    ensures s.collections == RebuiltCollections(old(s.collections), dto, s.id, at)
  {
    var addresses := RebuildCollection(s.collections.addresses, dto.addresses, s.id, at);
    s.collections := s.collections.(addresses := addresses);
    var contacts := RebuildCollection(s.collections.emergencyContacts, dto.emergencyContacts, s.id, at);
    s.collections := s.collections.(emergencyContacts := contacts);
    var disabilities := RebuildCollection(s.collections.disabilityDetails, dto.disabilityDetails, s.id, at);
    s.collections := s.collections.(disabilityDetails := disabilities);
    var guardians := RebuildCollection(s.collections.parentGuardians, dto.parentGuardians, s.id, at);
    s.collections := s.collections.(parentGuardians := guardians);
    var histories := RebuildCollection(s.collections.academicHistories, dto.academicHistories, s.id, at);
    s.collections := s.collections.(academicHistories := histories);
    var extracurriculars := RebuildCollection(s.collections.extracurricularDetails, dto.extracurricularDetails, s.id, at);
    s.collections := s.collections.(extracurricularDetails := extracurriculars);
    var documents := RebuildCollection(s.collections.documents, dto.documents, s.id, at);
    s.collections := s.collections.(documents := documents);
  }

  // ---------------------------------------------------------------------
  // The service over the persisted students

  class StudentService {
    /** The persisted students, in store order. */
    var students: seq<Student>

    /** The service over the students the database holds; their Ids are
        distinct because Id is the primary key. */
    constructor (ss: seq<Student>)
      requires forall i, j :: 0 <= i < j < |ss| ==> ss[i].id != ss[j].id
      ensures students == ss && Valid()
    {
      students := ss;
    }

    /** The database keys are distinct (Id is the primary key). */
    ghost predicate Valid()
      reads this, students
    {
      Distinct(Ids())
    }

    function Ids(): (r: seq<int>)
      reads this, students
      ensures |r| == |students|
      ensures forall i :: 0 <= i < |students| ==> r[i] == students[i].id
    {
      var ss := students;
      seq(|ss|, i reads ss requires 0 <= i < |ss| => ss[i].id)
    }

    function Pids(): (r: seq<Guid>)
      reads this, students
      ensures |r| == |students|
      ensures forall i :: 0 <= i < |students| ==> r[i] == students[i].pid
    {
      var ss := students;
      seq(|ss|, i reads ss requires 0 <= i < |ss| => ss[i].pid)
    }

    /** The first student with key `id`, projected; not-found otherwise. */
    method GetStudentById(id: int) returns (r: Result<StudentResponse>)
      ensures FirstMatch(Ids(), id).None? ==> r == Failure(NotFoundById(id))
      ensures FirstMatch(Ids(), id).Some? ==>
        r == Success(ToResponse(students[FirstMatch(Ids(), id).value].Value()))
    {
      var k := FirstMatch(Ids(), id);
      if k.None? {
        return Failure(NotFoundById(id));
      }
      r := Success(ToResponse(students[k.value].Value()));
    }

    /** The first student with public id `pid`, projected; not-found otherwise. */
    method GetStudentByPid(pid: Guid) returns (r: Result<StudentResponse>)
      ensures FirstMatch(Pids(), pid).None? ==> r == Failure(NotFoundByPid(pid))
      ensures FirstMatch(Pids(), pid).Some? ==>
        r == Success(ToResponse(students[FirstMatch(Pids(), pid).value].Value()))
    {
      var k := FirstMatch(Pids(), pid);
      if k.None? {
        return Failure(NotFoundByPid(pid));
      }
      r := Success(ToResponse(students[k.value].Value()));
    }

    /** Every student, projected, in store order. */
    method GetAllStudents() returns (r: seq<StudentResponse>)
      ensures |r| == |students|
      ensures forall i :: 0 <= i < |students| ==> r[i] == ToResponse(students[i].Value())
    {
      var ss := students;
      r := seq(|ss|, i reads ss requires 0 <= i < |ss| => ToResponse(ss[i].Value()));
    }

    /** Removes the first student with public id `pid`; not-found otherwise. */
    method DeleteStudent(pid: Guid) returns (r: Outcome)
      requires Valid()
      modifies this
      ensures Valid()
      ensures FirstMatch(old(Pids()), pid).None? ==> r == Fail(NotFoundByPid(pid)) && students == old(students)
      ensures FirstMatch(old(Pids()), pid).Some? ==>
        && r == Pass
        && students == RemoveAt(old(students), FirstMatch(old(Pids()), pid).value)
        && multiset(Pids()) == multiset(old(Pids())) - multiset{pid}
    {
      var k := FirstMatch(Pids(), pid);
      if k.None? {
        return Fail(NotFoundByPid(pid));
      }
      ghost var ids, pids := Ids(), Pids();
      students := RemoveAt(students, k.value);
      assert Ids() == RemoveAt(ids, k.value);
      assert Pids() == RemoveAt(pids, k.value);
      RemoveFirstMatch(pids, pid);
      r := Pass;
    }

    /** Updates the first student with public id `pid` from `dto` and
        returns its reloaded projection; not-found otherwise, with nothing
        changed. */
    method UpdateStudent(pid: Guid, dto: CompleteRequest, now: Instant, at: Instant)
      returns (r: Result<StudentResponse>)
      requires Valid()
      modifies students
      ensures Valid()
      ensures FirstMatch(old(Pids()), pid).None? ==>
        && r == Failure(NotFoundByPid(pid))
        && forall i :: 0 <= i < |students| ==> unchanged(students[i])
      ensures FirstMatch(old(Pids()), pid).Some? ==>
        var k := FirstMatch(old(Pids()), pid).value;
        && students[k].Value() == UpdatedAggregate(old(students[k].Value()), dto, now, at)
        && (forall i :: 0 <= i < |students| && i != k ==> unchanged(students[i]))
        && r == Success(ToResponse(students[k].Value()))
    {
      var k := FirstMatch(Pids(), pid);
      if k.None? {
        return Failure(NotFoundByPid(pid));
      }
      var s := students[k.value];
      ghost var ids := Ids();
      forall i | 0 <= i < |students| && i != k.value
        ensures students[i] != s
      {
        assert ids[i] != ids[k.value];
      }
      ApplyUpdate(s, dto, now, at);
      assert Ids() == ids;
      FirstMatchIsUnique(Ids(), s.id, k.value);
      r := GetStudentById(s.id);
    }
  }
}
