/** What an upstream answers (web/client.go, web/upstream_refusal.go). */
module Upstream {

  datatype Response = Response(status: int, header: map<string, seq<string>>, entity: string)

  /** A response carried as a failure while a retry is running. */
  datatype Refusal = Refusal(status: int, entity: string, header: map<string, seq<string>>)

  /** A fault, and the refusal errors.As finds in it, if it finds one. */
  datatype Fault = Refused(op: string, refusal: Refusal) | Broken(op: string)

  predicate IsSuccessful(response: Response) { 200 <= response.status < 300 }

  function RefusalOf(response: Response): Refusal { Refusal(response.status, response.entity, response.header) }

  function ResponseOf(refusal: Refusal): Response { Response(refusal.status, refusal.header, refusal.entity) }
}
