/** The request-to-entity and entity-to-response mapping rules. Each
    mapping copies a member, ignores it (the target keeps its value), or
    sets it to the current time; `at` is the instant the clock gives while
    the mapping runs. */
module MappingProfile {
  import opened Common
  import opened Entities

  /** The key and foreign key of an entity that has just been constructed
      and not yet saved. */
  const UnsetKey: int := 0

  // ---------------------------------------------------------------------
  // Request -> entity

  /** Copies simple properties by name: every property of the target that
      the request also carries takes the request's value; every other
      property keeps its own. Request members the target lacks are
      dropped. */
  function CopyByName(src: Fields, dst: Fields): (r: Fields)
    ensures r.Keys == dst.Keys
    ensures forall k :: k in dst && k in src ==> r[k] == src[k]
    ensures forall k :: k in dst && k !in src ==> r[k] == dst[k]
  {
    map k | k in dst :: if k in src then src[k] else dst[k]
  }

  /** Copying the same request twice is the same as copying it once. */
  lemma CopyByNameIdempotent(src: Fields, dst: Fields)
    ensures CopyByName(src, CopyByName(src, dst)) == CopyByName(src, dst)
  {
  }

  /** Only the properties the request does not carry survive a copy: two
      targets with the same properties that agree on those map to the same
      result. */
  lemma CopyByNameOverwrites(src: Fields, d1: Fields, d2: Fields)
    requires d1.Keys == d2.Keys
    requires forall k :: k in d1 && k !in src ==> d1[k] == d2[k]
    ensures CopyByName(src, d1) == CopyByName(src, d2)
  {
  }

  /** Maps the request onto the root's simple properties: Id, Pid and
      IsActive are ignored, CreatedOn and UpdatedOn are stamped, the rest
      is copied by name. */
  function MapStudent(dto: CompleteRequest, s: StudentScalars, at: Instant): (r: StudentScalars)
    ensures r.id == s.id && r.pid == s.pid && r.isActive == s.isActive
    ensures r.fields == CopyByName(dto.fields, s.fields)
    ensures r.createdOn == at && r.updatedOn == at
  {
    s.(createdOn := at, updatedOn := at, fields := CopyByName(dto.fields, s.fields))
  }

  /** Id, Pid and StudentId (with the Student link) agree. */
  predicate SameIdentity<T>(a: Owned<T>, b: Owned<T>)
  {
    a.id == b.id && a.pid == b.pid && a.studentId == b.studentId
  }

  /** Maps a request group onto an existing one-to-one child: Id, Pid,
      StudentId and Student are ignored, CreatedOn and UpdatedOn are
      stamped, the simple properties are copied by name. */
  function MapOnto(dto: Fields, e: Detail, at: Instant): (r: Detail)
    ensures SameIdentity(r, e)
    ensures r.data == CopyByName(dto, e.data)
    ensures r.createdOn == at && r.updatedOn == at
  {
    e.(createdOn := at, updatedOn := at, data := CopyByName(dto, e.data))
  }

  /** Maps a request element to a freshly constructed entity: the ignored
      members keep their unset values, so in particular StudentId is not
      taken from the request. */
  function MapNew<T>(dto: T, at: Instant): (r: Owned<T>)
    ensures r.id == UnsetKey && r.pid == EmptyGuid && r.studentId == UnsetKey
    ensures r.data == dto
    ensures r.createdOn == at && r.updatedOn == at
  {
    Owned(UnsetKey, EmptyGuid, UnsetKey, at, at, dto)
  }

  /** Maps a request list to a list of fresh entities, one per element, in
      order. */
  function MapAll<T>(ds: seq<T>, at: Instant): (r: seq<Owned<T>>)
    ensures |r| == |ds|
    ensures forall i :: 0 <= i < |ds| ==> r[i] == MapNew(ds[i], at)
  {
    if ds == [] then [] else [MapNew(ds[0], at)] + MapAll(ds[1..], at)
  }

  /** Mapping onto the root keeps its Id, Pid and IsActive and the
      properties the request does not carry, and nothing else: two roots
      that agree on those map to the same result. */
  lemma MapStudentOverwrites(dto: CompleteRequest, s1: StudentScalars, s2: StudentScalars, at: Instant)
    requires s1.id == s2.id && s1.pid == s2.pid && s1.isActive == s2.isActive
    requires s1.fields.Keys == s2.fields.Keys
    requires forall k :: k in s1.fields && k !in dto.fields ==> s1.fields[k] == s2.fields[k]
    ensures MapStudent(dto, s1, at) == MapStudent(dto, s2, at)
  {
    CopyByNameOverwrites(dto.fields, s1.fields, s2.fields);
  }

  /** Mapping the same request twice at the same instant is the same as
      mapping it once. */
  lemma MapOntoIdempotent(dto: Fields, e: Detail, at: Instant)
    ensures MapOnto(dto, MapOnto(dto, e, at), at) == MapOnto(dto, e, at)
  {
    CopyByNameIdempotent(dto, e.data);
  }

  /** A fresh element is what mapping onto an entity with unset identity
      and the request's own properties gives: the two mapping modes
      agree. */
  lemma MapNewIsMapOntoUnset(dto: Fields, e: Detail, at: Instant)
    requires e.id == UnsetKey && e.pid == EmptyGuid && e.studentId == UnsetKey
    requires e.data.Keys == dto.Keys
    ensures MapOnto(dto, e, at) == MapNew(dto, at)
  {
    assert CopyByName(dto, e.data) == dto;
  }

  // ---------------------------------------------------------------------
  // Entity -> response (one mapping per entity type, no custom rules)

  datatype OwnedResponse<T> = OwnedResponse(
    id: int,
    pid: Guid,
    studentId: int,
    createdOn: Instant,
    updatedOn: Instant,
    data: T)

  datatype StudentResponse = StudentResponse(
    id: int,
    pid: Guid,
    isActive: bool,
    createdOn: Instant,
    updatedOn: Instant,
    fields: Fields,
    personalDetails: Option<OwnedResponse<Fields>>,
    contactDetail: Option<OwnedResponse<Fields>>,
    financialDetail: Option<OwnedResponse<Fields>>,
    bankDetail: Option<OwnedResponse<Fields>>,
    citizenshipDetail: Option<OwnedResponse<Fields>>,
    academicEnrollment: Option<OwnedResponse<Fields>>,
    declaration: Option<OwnedResponse<Fields>>,
    addresses: seq<OwnedResponse<Fields>>,
    emergencyContacts: seq<OwnedResponse<Fields>>,
    disabilityDetails: seq<OwnedResponse<Fields>>,
    parentGuardians: seq<OwnedResponse<Fields>>,
    academicHistories: seq<OwnedResponse<Fields>>,
    extracurricularDetails: seq<OwnedResponse<Fields>>,
    documents: seq<OwnedResponse<DocumentFields>>)

  function ToOwnedResponse<T>(e: Owned<T>): OwnedResponse<T>
  {
    OwnedResponse(e.id, e.pid, e.studentId, e.createdOn, e.updatedOn, e.data)
  }

  function ToDetailResponse(d: Option<Detail>): Option<OwnedResponse<Fields>>
  {
    match d
    case None => None
    case Some(e) => Some(ToOwnedResponse(e))
  }

  /** Projects a list element by element, keeping its order. */
  function ToResponses<T>(es: seq<Owned<T>>): (r: seq<OwnedResponse<T>>)
    ensures |r| == |es|
    ensures forall i :: 0 <= i < |es| ==> r[i] == ToOwnedResponse(es[i])
  {
    if es == [] then [] else [ToOwnedResponse(es[0])] + ToResponses(es[1..])
  }

  /** Projects a collection. Under the mapper's default configuration a
      null source collection becomes an empty list, so the response never
      holds a null list. */
  function ToCollectionResponse<T>(c: Collection<T>): (r: seq<OwnedResponse<T>>)
    ensures c.None? ==> r == []
    ensures c.Some? ==> r == ToResponses(c.value)
  {
    match c
    case None => []
    case Some(es) => ToResponses(es)
  }

  /** The collection with null read as empty. */
  function NullAsEmpty<T>(c: Collection<T>): (r: Collection<T>)
    ensures r.Some?
    ensures c.Some? ==> r == c
    ensures c.None? ==> r.value == []
  {
    match c
    case None => Some([])
    case Some(_) => c
  }

  /** The aggregate with every null collection read as empty. */
  function WithEmptyCollections(v: StudentValue): StudentValue
  {
    var c := v.collections;
    v.(collections := OwnedCollections(
      NullAsEmpty(c.addresses), NullAsEmpty(c.emergencyContacts), NullAsEmpty(c.disabilityDetails),
      NullAsEmpty(c.parentGuardians), NullAsEmpty(c.academicHistories),
      NullAsEmpty(c.extracurricularDetails), NullAsEmpty(c.documents)))
  }

  function FromOwnedResponse<T>(r: OwnedResponse<T>): Owned<T>
  {
    Owned(r.id, r.pid, r.studentId, r.createdOn, r.updatedOn, r.data)
  }

  function FromDetailResponse(r: Option<OwnedResponse<Fields>>): Option<Detail>
  {
    match r
    case None => None
    case Some(e) => Some(FromOwnedResponse(e))
  }

  function FromCollectionResponse<T>(rs: seq<OwnedResponse<T>>): Collection<T>
  {
    Some(seq(|rs|, i requires 0 <= i < |rs| => FromOwnedResponse(rs[i])))
  }

  /** Reads an aggregate back from its response, member by member. */
  function FromResponse(r: StudentResponse): StudentValue
  {
    StudentValue(
      StudentScalars(r.id, r.pid, r.isActive, r.createdOn, r.updatedOn, r.fields),
      OneToOne(
        FromDetailResponse(r.personalDetails), FromDetailResponse(r.contactDetail),
        FromDetailResponse(r.financialDetail), FromDetailResponse(r.bankDetail),
        FromDetailResponse(r.citizenshipDetail), FromDetailResponse(r.academicEnrollment),
        FromDetailResponse(r.declaration)),
      OwnedCollections(
        FromCollectionResponse(r.addresses), FromCollectionResponse(r.emergencyContacts),
        FromCollectionResponse(r.disabilityDetails), FromCollectionResponse(r.parentGuardians),
        FromCollectionResponse(r.academicHistories), FromCollectionResponse(r.extracurricularDetails),
        FromCollectionResponse(r.documents)))
  }

  /** Reading a one-to-one child back from its projection gives the child. */
  lemma DetailRoundTrip(d: Option<Detail>)
    ensures FromDetailResponse(ToDetailResponse(d)) == d
  {
  }

  /** Reading a collection back from its projection gives the collection,
      except that a null one comes back empty. */
  lemma CollectionRoundTrip<T>(c: Collection<T>)
    ensures FromCollectionResponse(ToCollectionResponse(c)) == NullAsEmpty(c)
  {
    if c.Some? {
      var rs := ToResponses(c.value);
      assert seq(|rs|, i requires 0 <= i < |rs| => FromOwnedResponse(rs[i])) == c.value;
    } else {
      var rs: seq<OwnedResponse<T>> := [];
      assert seq(|rs|, i requires 0 <= i < |rs| => FromOwnedResponse(rs[i])) == [];
    }
  }

  /** The response projection of a whole aggregate. */
  function ToResponse(v: StudentValue): (r: StudentResponse)
    ensures FromResponse(r) == WithEmptyCollections(v)
  {
    var c := v.collections;
    var r := StudentResponse(
      v.scalars.id, v.scalars.pid, v.scalars.isActive,
      v.scalars.createdOn, v.scalars.updatedOn, v.scalars.fields,
      ToDetailResponse(v.details.personalDetails), ToDetailResponse(v.details.contactDetail),
      ToDetailResponse(v.details.financialDetail), ToDetailResponse(v.details.bankDetail),
      ToDetailResponse(v.details.citizenshipDetail), ToDetailResponse(v.details.academicEnrollment),
      ToDetailResponse(v.details.declaration),
      ToCollectionResponse(c.addresses), ToCollectionResponse(c.emergencyContacts),
      ToCollectionResponse(c.disabilityDetails), ToCollectionResponse(c.parentGuardians),
      ToCollectionResponse(c.academicHistories), ToCollectionResponse(c.extracurricularDetails),
      ToCollectionResponse(c.documents));
    var d := v.details;
    DetailRoundTrip(d.personalDetails);
    DetailRoundTrip(d.contactDetail);
    DetailRoundTrip(d.financialDetail);
    DetailRoundTrip(d.bankDetail);
    DetailRoundTrip(d.citizenshipDetail);
    DetailRoundTrip(d.academicEnrollment);
    DetailRoundTrip(d.declaration);
    CollectionRoundTrip(c.addresses);
    CollectionRoundTrip(c.emergencyContacts);
    CollectionRoundTrip(c.disabilityDetails);
    CollectionRoundTrip(c.parentGuardians);
    CollectionRoundTrip(c.academicHistories);
    CollectionRoundTrip(c.extracurricularDetails);
    CollectionRoundTrip(c.documents);
    assert FromResponse(r).scalars == v.scalars;
    assert FromResponse(r).details == v.details;
    assert FromResponse(r).collections == WithEmptyCollections(v).collections;
    r
  }

  /** The response is a field-for-field projection of the aggregate that
      loses only the difference between a null and an empty collection:
      two aggregates have the same response exactly when they agree once
      null collections are read as empty. */
  lemma ToResponseInjective(a: StudentValue, b: StudentValue)
    ensures ToResponse(a) == ToResponse(b) <==> WithEmptyCollections(a) == WithEmptyCollections(b)
  {
    if WithEmptyCollections(a) == WithEmptyCollections(b) {
      var ca, cb := a.collections, b.collections;
      assert NullAsEmpty(ca.addresses) == NullAsEmpty(cb.addresses);
      assert NullAsEmpty(ca.emergencyContacts) == NullAsEmpty(cb.emergencyContacts);
      assert NullAsEmpty(ca.disabilityDetails) == NullAsEmpty(cb.disabilityDetails);
      assert NullAsEmpty(ca.parentGuardians) == NullAsEmpty(cb.parentGuardians);
      assert NullAsEmpty(ca.academicHistories) == NullAsEmpty(cb.academicHistories);
      assert NullAsEmpty(ca.extracurricularDetails) == NullAsEmpty(cb.extracurricularDetails);
      assert NullAsEmpty(ca.documents) == NullAsEmpty(cb.documents);
      assert ToResponse(WithEmptyCollections(a)) == ToResponse(a);
      assert ToResponse(WithEmptyCollections(b)) == ToResponse(b);
    }
  }
}
