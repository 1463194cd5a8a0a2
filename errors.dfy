/** The exceptions the modelled code raises or lets through, as values. */
module Errors {

  datatype Error =
    | ExpirationOutOfRange(ttl: int)  // a non-positive relative expiration
    | InvalidData(message: string)    // InvalidDataException
    | NullReference                   // reading a message field that is not set
    | Upstream(message: string)       // a failure of the data source, passed through
}
