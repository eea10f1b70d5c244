/**
 What a route handler sends back: a status code and a payload. The payload
 is a message object, one record, a list of records, or nothing at all.
 */
module Http {

  const StatusOk := 200
  const StatusCreated := 201
  const StatusNoContent := 204
  const StatusBadRequest := 400
  const StatusNotFound := 404
  const StatusServerError := 500

  datatype Body<+T> =
    | Message(text: string)
    | Single(value: T)
    | Many(values: seq<T>)
    | Empty

  datatype Response<+T> = Response(status: int, body: Body<T>)
}
