/**
 * The reconciler (JokeRequestReconciler.java): the idempotency check, the convergence
 * step with its catch-all, and owner-scoped deletion before creation. The value-level
 * functions below specify the methods of the class at the end.
 */
module Reconciler {
  import opened Wrappers
  import opened Kube
  import opened Specs
  import opened Statuses
  import opened Jokes
  import opened Requests
  import opened Services
  import opened JokeStores
  import opened Ownership
  import opened Topics

  /** What reconcile asks of its caller: nothing, or to persist the status subresource. */
  datatype UpdateControl = NoUpdate | PatchStatus

  /** The collaborators' fixed behaviour: the store's configuration and the service oracle. */
  datatype Cluster = Cluster(config: StoreConfig, respond: ServiceQuery -> ServiceOutcome)

  /** The response-shape argument of every service call. */
  const ResponseType: string := "single"

  /** The fixed start of every message the catch-all writes. */
  const CaughtPrefix: string := "Error querying API: "

  /** Stands for the text of the NullPointerException a missing spec raises. */
  const NullSpecMessage: string := "spec is null"

  /** The idempotency check: the last attempt succeeded for this very spec and its Joke is still there. */
  predicate NoUpdateNeeded(spec: Option<JokeRequestSpec>, status: Option<JokeRequestStatus>, existing: set<string>)
  {
    && status.Some?
    && status.value.state == Created
    && status.value.appliedSpec == spec
    && status.value.jokeId.Some?
    && status.value.jokeId.value in existing
  }

  /**
   * createOwnerReference: the request's API version, its CRD name in the kind field, its
   * name and UID, and both the blockOwnerDeletion and controller flags set.
   */
  function CreateOwnerReference(request: RequestView): OwnerReference
  {
    OwnerReference(request.apiVersion, true, true, request.crdName, request.metadata.name, request.metadata.uid)
  }

  /** The arguments getJokeModel passes to the service. */
  function QueryFor(spec: JokeRequestSpec): ServiceQuery
  {
    ServiceQuery(spec.category, ExcludedAsString(spec.excluded), spec.safe, ResponseType)
  }

  /** The Joke built from a successful response, carrying the request's owner reference. */
  function NewJokeFor(request: RequestView, model: JokeModels.JokeModel): Joke
  {
    AddOwnerReference(JokeFrom(model), CreateOwnerReference(request))
  }

  /** The catch-all: a fresh status in state Error whose message starts with the fixed prefix. */
  function CaughtStatus(reason: string): (s: JokeRequestStatus)
    ensures s.state == Error && s.error
    ensures s.appliedSpec == None && s.jokeId == None
    ensures s.message.Some? && |s.message.value| >= |CaughtPrefix|
    ensures s.message.value[..|CaughtPrefix|] == CaughtPrefix
  {
    NewStatus.(message := Some(CaughtPrefix + reason), state := Error, error := true)
  }

  /** One convergence attempt: the status it yields, the store after it, the service calls it made. */
  datatype Attempt = Attempt(status: JokeRequestStatus, jokes: seq<Joke>, queries: seq<ServiceQuery>)

  /** reconcileJoke on values: call, then on success delete the owned Jokes and create the new one. */
  function ReconcileJokeSpec(request: RequestView, jokes: seq<Joke>, cluster: Cluster): Attempt
  {
    if request.spec.None? then Attempt(CaughtStatus(NullSpecMessage), jokes, [])
    else
      var query := QueryFor(request.spec.value);
      match cluster.respond(query)
      case Threw(reason) => Attempt(CaughtStatus(reason), jokes, [query])
      case Returned(model, rendered) =>
        var status := StatusFrom(model).(appliedSpec := request.spec);
        if model.error then
          Attempt(status.(message := Some("Failed with " + rendered), error := true, state := Error), jokes, [query])
        else
          var newJoke := NewJokeFor(request, model);
          var ref := CreateOwnerReference(request);
          var deleted := DeleteEach(jokes, Owned(jokes, request.metadata.namespace, ref), cluster.config.deleteFaults);
          if deleted.failure.Some? then Attempt(CaughtStatus(deleted.failure.value), deleted.items, [query])
          else
            var created := CreateOne(deleted.items, cluster.config, newJoke);
            if created.failure.Some? then Attempt(CaughtStatus(created.failure.value), created.items, [query])
            else
              Attempt(status.(message := Some("Joke " + newJoke.id + " created"),
                              jokeId := Some(newJoke.metadata.name), state := Created),
                      created.items, [query])
  }

  /** What one reconcile leaves behind: the control returned, the request's status, the store, the calls. */
  datatype Effect = Effect(control: UpdateControl, status: Option<JokeRequestStatus>,
                           jokes: seq<Joke>, queries: seq<ServiceQuery>)

  /** reconcile on values: the idempotency check, then one convergence attempt whose status is written. */
  function ReconcileSpec(request: RequestView, status: Option<JokeRequestStatus>, jokes: seq<Joke>,
                         cluster: Cluster): Effect
  {
    if NoUpdateNeeded(request.spec, status, NamesIn(jokes, cluster.config.clientNamespace)) then
      Effect(NoUpdate, status, jokes, [])
    else
      var attempt := ReconcileJokeSpec(request, jokes, cluster);
      Effect(PatchStatus, Some(attempt.status), attempt.jokes, attempt.queries)
  }

  class JokeRequestReconciler {
    const jokeRestService: JokeService
    const k8s: JokeStore

    constructor (jokeRestService: JokeService, k8s: JokeStore)
      ensures this.jokeRestService == jokeRestService && this.k8s == k8s
    {
      this.jokeRestService := jokeRestService;
      this.k8s := k8s;
    }

    function Env(): Cluster
    {
      Cluster(k8s.config, jokeRestService.respond)
    }

    method Reconcile(jokeRequest: JokeRequest) returns (control: UpdateControl)
      requires k8s.Valid()
      modifies jokeRequest, k8s, jokeRestService
      ensures k8s.Valid()
      ensures var e := ReconcileSpec(jokeRequest.View(), old(jokeRequest.status), old(k8s.items), Env());
        && control == e.control
        && jokeRequest.status == e.status
        && k8s.items == e.jokes
        && jokeRestService.requests == old(jokeRestService.requests) + e.queries
    {
      var spec := jokeRequest.spec;
      var status := jokeRequest.status;
      if status.Some? && status.value.state == Created && status.value.appliedSpec == spec {
        if status.value.jokeId.Some? {
          if k8s.Get(status.value.jokeId.value).Some? {
            return NoUpdate;
          }
        }
      }
      var newStatus := ReconcileJoke(jokeRequest, spec);
      jokeRequest.status := Some(newStatus);
      control := PatchStatus;
    }

    method ReconcileJoke(jokeRequest: JokeRequest, spec: Option<JokeRequestSpec>)
      returns (status: JokeRequestStatus)
      requires k8s.Valid()
      modifies k8s, jokeRestService
      ensures k8s.Valid()
      ensures var a := ReconcileJokeSpec(jokeRequest.View().(spec := spec), old(k8s.items), Env());
        && status == a.status
        && k8s.items == a.jokes
        && jokeRestService.requests == old(jokeRestService.requests) + a.queries
    {
      if spec.None? {
        status := CaughtStatus(NullSpecMessage);
        return;
      }
      var restResponse := GetJokeModel(spec.value);
      match restResponse {
        case Threw(reason) =>
          status := CaughtStatus(reason);
        case Returned(model, rendered) =>
          status := StatusFrom(model).(appliedSpec := spec);
          if !model.error {
            var newJoke := JokeFrom(model);
            var ownerReference := CreateOwnerReference(jokeRequest.View());
            newJoke := AddOwnerReference(newJoke, ownerReference);
            var failure := DeleteManagedJokes(ownerReference, jokeRequest.metadata.namespace);
            if failure.Some? {
              status := CaughtStatus(failure.value);
              return;
            }
            failure := k8s.Create(newJoke);
            if failure.Some? {
              status := CaughtStatus(failure.value);
              return;
            }
            status := status.(message := Some("Joke " + newJoke.id + " created"),
                              jokeId := Some(newJoke.metadata.name), state := Created);
          } else {
            status := status.(message := Some("Failed with " + rendered), error := true, state := Error);
          }
      }
    }

    /** Deletes, in list order, every Joke of `namespace` that carries `ownerReference`. */
    method DeleteManagedJokes(ownerReference: OwnerReference, namespace: string)
      returns (failure: Option<string>)
      requires k8s.Valid()
      modifies k8s
      ensures k8s.Valid()
      ensures var d := DeleteEach(old(k8s.items), Owned(old(k8s.items), namespace, ownerReference),
                                  k8s.config.deleteFaults);
        k8s.items == d.items && failure == d.failure
    {
      var targets := Owned(k8s.items, namespace, ownerReference);
      ghost var goal := DeleteEach(k8s.items, targets, k8s.config.deleteFaults);
      failure := None;
      var i := 0;
      while i < |targets|
        invariant 0 <= i <= |targets|
        invariant k8s.Valid()
        invariant failure == None
        invariant DeleteEach(k8s.items, targets[i..], k8s.config.deleteFaults) == goal
      {
        assert targets[i..][0] == targets[i] && targets[i..][1..] == targets[i + 1..];
        failure := k8s.Delete(KeyOf(targets[i]));
        if failure.Some? {
          return;
        }
        i := i + 1;
      }
    }

    method GetJokeModel(spec: JokeRequestSpec) returns (outcome: ServiceOutcome)
      modifies jokeRestService
      ensures outcome == jokeRestService.respond(QueryFor(spec))
      ensures jokeRestService.requests == old(jokeRestService.requests) + [QueryFor(spec)]
    {
      outcome := jokeRestService.GetRandom(spec.category, ExcludedAsString(spec.excluded), spec.safe, ResponseType);
    }
  }
}
