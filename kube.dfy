/** The parts of Kubernetes object metadata that the reconciler reads and writes. */
module Kube {
  import opened Wrappers

  /** A back-pointer from a derived resource to its owner; equality is over all fields. */
  datatype OwnerReference = OwnerReference(
    apiVersion: string,
    blockOwnerDeletion: bool,
    controller: bool,
    kind: string,
    name: string,
    uid: string)

  /** Object metadata: a name, a namespace (unset until the store places the object) and owners. */
  datatype ObjectMeta = ObjectMeta(
    name: string,
    namespace: Option<string>,
    ownerReferences: seq<OwnerReference>)
}
