/**
 * The REST client the reconciler calls (JokeService). Its answers come from an oracle
 * fixed when the service is built; every call made is logged.
 */
module Services {
  import opened JokeModels

  /** The arguments of getRandom: category, comma-joined excluded topics, safety flag, response type. */
  datatype ServiceQuery = ServiceQuery(category: string, excluded: string, safe: bool, responseType: string)

  /**
   * What a call yields: a model (with the text its toString gives), or an exception with
   * its message. A null answer is an exception too, since the caller dereferences it.
   */
  datatype ServiceOutcome = Returned(model: JokeModel, rendered: string) | Threw(message: string)

  class JokeService {
    const respond: ServiceQuery -> ServiceOutcome
    var requests: seq<ServiceQuery>

    constructor (respond: ServiceQuery -> ServiceOutcome)
      ensures this.respond == respond && requests == []
    {
      this.respond := respond;
      requests := [];
    }

    method GetRandom(category: string, excluded: string, safe: bool, responseType: string)
      returns (outcome: ServiceOutcome)
      modifies this
      ensures requests == old(requests) + [ServiceQuery(category, excluded, safe, responseType)]
      ensures outcome == respond(ServiceQuery(category, excluded, safe, responseType))
    {
      var query := ServiceQuery(category, excluded, safe, responseType);
      requests := requests + [query];
      outcome := respond(query);
    }
  }
}
