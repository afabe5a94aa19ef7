/** The student aggregate: the root entity, its seven one-to-one children,
    its seven owned collections, and the request that updates it. */
module Entities {
  import opened Common
  import opened Enums

  /** An owned entity: a one-to-one child or a collection element. Every
      such entity has a database key, a public identifier, the key of the
      student that owns it (which also stands for its Student navigation
      link), audit timestamps, and its own data. */
  datatype Owned<T> = Owned(
    id: int,
    pid: Guid,
    studentId: int,
    createdOn: Instant,
    updatedOn: Instant,
    data: T)

  /** A one-to-one child (personal, contact, financial, bank, citizenship,
      enrollment, declaration details). */
  type Detail = Owned<Fields>

  /** An owned collection; None is a null list. */
  type Collection<T> = Option<seq<Owned<T>>>

  /** The data of a document record: its kind and its other properties. */
  datatype DocumentFields = DocumentFields(documentType: DocumentType, fields: Fields)

  /** The root's own simple properties. */
  datatype StudentScalars = StudentScalars(
    id: int,
    pid: Guid,
    isActive: bool,
    createdOn: Instant,
    updatedOn: Instant,
    fields: Fields)

  /** The seven one-to-one children; None is a null navigation property. */
  datatype OneToOne = OneToOne(
    personalDetails: Option<Detail>,
    contactDetail: Option<Detail>,
    financialDetail: Option<Detail>,
    bankDetail: Option<Detail>,
    citizenshipDetail: Option<Detail>,
    academicEnrollment: Option<Detail>,
    declaration: Option<Detail>)

  /** The seven owned collections. */
  datatype OwnedCollections = OwnedCollections(
    addresses: Collection<Fields>,
    emergencyContacts: Collection<Fields>,
    disabilityDetails: Collection<Fields>,
    parentGuardians: Collection<Fields>,
    academicHistories: Collection<Fields>,
    extracurricularDetails: Collection<Fields>,
    documents: Collection<DocumentFields>)

  /** The whole aggregate as a value. */
  datatype StudentValue = StudentValue(
    scalars: StudentScalars,
    details: OneToOne,
    collections: OwnedCollections)

  /** The seven one-to-one children, in declaration order. */
  function Details(d: OneToOne): (ds: seq<Option<Detail>>)
    ensures |ds| == 7
  {
    [d.personalDetails, d.contactDetail, d.financialDetail, d.bankDetail,
     d.citizenshipDetail, d.academicEnrollment, d.declaration]
  }

  /** The six collections whose elements carry plain properties. */
  function FieldCollections(c: OwnedCollections): (cs: seq<Collection<Fields>>)
    ensures |cs| == 6
  {
    [c.addresses, c.emergencyContacts, c.disabilityDetails, c.parentGuardians,
     c.academicHistories, c.extracurricularDetails]
  }

  /** The complete registration request. In the source it is one flat
      object whose properties are matched to each entity by name; here the
      match is made explicit by giving each entity its own group. A list
      that is None was absent (null) in the request. */
  datatype CompleteRequest = CompleteRequest(
    fields: Fields,
    personal: Fields,
    contact: Fields,
    financial: Fields,
    bank: Fields,
    citizenship: Fields,
    enrollment: Fields,
    declaration: Fields,
    addresses: Option<seq<Fields>>,
    emergencyContacts: Option<seq<Fields>>,
    disabilityDetails: Option<seq<Fields>>,
    parentGuardians: Option<seq<Fields>>,
    academicHistories: Option<seq<Fields>>,
    extracurricularDetails: Option<seq<Fields>>,
    documents: Option<seq<DocumentFields>>)

  /** A loaded student entity, tracked by the persistence layer and
      updated in place. The seven one-to-one navigation properties are
      held together in `details`, the seven collection properties together
      in `collections`; the children are held as values. */
  class Student {
    var id: int
    var pid: Guid
    var isActive: bool
    var createdOn: Instant
    var updatedOn: Instant
    var fields: Fields
    var details: OneToOne
    var collections: OwnedCollections

    /** Materialises a student loaded with every child and collection. */
    constructor (v: StudentValue)
      ensures Value() == v
    {
      id, pid, isActive := v.scalars.id, v.scalars.pid, v.scalars.isActive;
      createdOn, updatedOn, fields := v.scalars.createdOn, v.scalars.updatedOn, v.scalars.fields;
      details, collections := v.details, v.collections;
    }

    /** The root's simple properties. */
    function Scalars(): StudentScalars
      reads this
    {
      StudentScalars(id, pid, isActive, createdOn, updatedOn, fields)
    }

    /** The whole aggregate as it currently stands. */
    function Value(): StudentValue
      reads this
    {
      StudentValue(Scalars(), details, collections)
    }
  }
}
