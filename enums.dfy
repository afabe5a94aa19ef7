/** The enumeration the document records use. */
module Enums {

  /** The kind of a document record. */
  datatype DocumentType = Photo | Signature | Citizenship | CharacterCertificate | Other
}
