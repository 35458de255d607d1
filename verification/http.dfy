/** The part of an HTTP response the two API routes set: a status code and
    either no body (`res.end()`) or a JSON body. */
module Http {
  import Database

  datatype Body =
    | Empty
    | ReviewList(reviews: seq<Database.Review>)
    | ReviewJson(review: Database.Review)
    | AppointmentJson(appointment: Database.Appointment)
    | ErrorJson(error: string)

  datatype Response = Response(status: int, body: Body)

  const StatusOk := 200
  const StatusCreated := 201
  const StatusMethodNotAllowed := 405
  const StatusServerError := 500
}
