/** The objects that travel through the bus: requests (PHP `Command` and its
    sub-interface `Query`) and the opaque values handlers return. */
module Requests {

  /** A PHP class name, as `get_class` reports it. */
  type ClassName = string

  /** `Query` requests take the read path; every other `Command` takes the
      write path. In PHP the kind follows from the class; here it is carried
      beside the class name. */
  datatype Kind = Command | Query

  /** One request object. `id` tells apart distinct objects of one class. */
  datatype Request = Request(className: ClassName, kind: Kind, id: nat)

  /** What a handler returns; `Null` is also what a void PHP method yields. */
  datatype Value = Null | Data(id: nat)
}
