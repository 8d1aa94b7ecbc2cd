/**
 * The serialization strategies. Their text (JSON and XML, with the escaping
 * rules of Python's standard library) is not modelled: a serializer is a
 * function of (strategy, title, content) that the caller supplies.
 */
module Serialization {
  datatype SerializationMethod = JSONSerialization | XMLSerialization

  type Serializer = (SerializationMethod, string, string) -> string
}
