/** The JokeRequest custom resource: fixed identity and spec, and a status the reconciler replaces. */
module Requests {
  import opened Wrappers
  import opened Specs
  import opened Statuses

  datatype RequestMetadata = RequestMetadata(name: string, namespace: string, uid: string)

  /** The parts of a request that one reconcile only reads. */
  datatype RequestView = RequestView(
    apiVersion: string,
    crdName: string,
    metadata: RequestMetadata,
    spec: Option<JokeRequestSpec>)

  class JokeRequest {
    const apiVersion: string
    const crdName: string
    const metadata: RequestMetadata
    const spec: Option<JokeRequestSpec>
    var status: Option<JokeRequestStatus>

    constructor (apiVersion: string, crdName: string, metadata: RequestMetadata,
                 spec: Option<JokeRequestSpec>, status: Option<JokeRequestStatus>)
      ensures View() == RequestView(apiVersion, crdName, metadata, spec)
      ensures this.status == status
    {
      this.apiVersion := apiVersion;
      this.crdName := crdName;
      this.metadata := metadata;
      this.spec := spec;
      this.status := status;
    }

    function View(): RequestView
    {
      RequestView(apiVersion, crdName, metadata, spec)
    }
  }
}
