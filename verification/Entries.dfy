/** Service names and the dependency entries of a service's data. */
module Entries {

  import opened Basics

  datatype Name = Name(text: string)

  datatype Kind = Require | Need | Use | Other

  /** A data entry of a service; the string of a dependency entry may be missing. */
  datatype Entry = Entry(kind: Kind, target: Option<Name>)
}
