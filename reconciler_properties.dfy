/** Properties of one reconcile, and of two in a row, stated over the value-level model. */
module ReconcilerProperties {
  import opened Wrappers
  import opened Kube
  import opened Specs
  import opened JokeModels
  import opened Statuses
  import opened Jokes
  import opened Decimal
  import opened Requests
  import opened Services
  import opened JokeStores
  import opened Ownership
  import opened Reconciler

  /**
   * The idempotency check decides the control: no update exactly when it holds, and then
   * nothing is written, deleted, created or called. Otherwise a status is always written,
   * it is Created or Error (never Unknown, Processing or AlreadyPresent), its error flag
   * says which, and the service is called once, with the spec's parameters, when there is a spec.
   */
  lemma ReconcileControl(request: RequestView, status: Option<JokeRequestStatus>, jokes: seq<Joke>,
                         cluster: Cluster)
    ensures var e := ReconcileSpec(request, status, jokes, cluster);
      && (e.control == NoUpdate <==>
            NoUpdateNeeded(request.spec, status, NamesIn(jokes, cluster.config.clientNamespace)))
      && (e.control == NoUpdate ==> e.status == status && e.jokes == jokes && e.queries == [])
      && (e.control == PatchStatus ==>
            && e.status.Some?
            && (e.status.value.state == Created || e.status.value.state == Error)
            && (e.status.value.error <==> e.status.value.state == Error)
            && e.queries == (if request.spec.Some? then [QueryFor(request.spec.value)] else []))
  {
  }

  /**
   * An error payload from the service: state Error with the error flag, the spec recorded
   * as applied, the message replaced by "Failed with " and the response's text, and the
   * store untouched.
   */
  lemma ErrorResponse(request: RequestView, status: Option<JokeRequestStatus>, jokes: seq<Joke>,
                      cluster: Cluster, model: JokeModel, rendered: string)
    requires !NoUpdateNeeded(request.spec, status, NamesIn(jokes, cluster.config.clientNamespace))
    requires request.spec.Some? && cluster.respond(QueryFor(request.spec.value)) == Returned(model, rendered)
    requires model.error
    ensures var e := ReconcileSpec(request, status, jokes, cluster);
      && e.status == Some(JokeRequestStatus(Error, true, Some("Failed with " + rendered), request.spec, None))
      && e.jokes == jokes
  {
  }

  /**
   * A missing spec, or an exception from the service call: the catch-all status, message
   * "Error querying API: " and the reason, no applied spec, no joke id; the store untouched.
   */
  lemma ExceptionBeforeStore(request: RequestView, status: Option<JokeRequestStatus>, jokes: seq<Joke>,
                             cluster: Cluster)
    requires !NoUpdateNeeded(request.spec, status, NamesIn(jokes, cluster.config.clientNamespace))
    requires request.spec.Some? ==> cluster.respond(QueryFor(request.spec.value)).Threw?
    ensures var e := ReconcileSpec(request, status, jokes, cluster);
      && e.status == Some(CaughtStatus(
           if request.spec.None? then NullSpecMessage
           else cluster.respond(QueryFor(request.spec.value)).message))
      && e.jokes == jokes
  {
  }

  /**
   * A successful response. The reconcile ends Created exactly when no owned Joke's delete
   * throws and the new Joke's create neither faults nor finds its name taken. Then the
   * status records the spec and the new Joke's name, which is the decimal id; the store holds
   * the Jokes that were not owned plus the new Joke, placed in the client's namespace and
   * carrying exactly the request's owner reference; and, when the request lives in the
   * client's namespace, that Joke is the only one the request owns there. Otherwise the
   * catch-all status is written, its message starting "Error querying API: ", and the
   * deletes already done stay done.
   */
  lemma {:induction false} SuccessfulResponse(request: RequestView, status: Option<JokeRequestStatus>,
                                              jokes: seq<Joke>, cluster: Cluster,
                                              model: JokeModel, rendered: string)
    requires UniqueKeys(jokes)
    requires !NoUpdateNeeded(request.spec, status, NamesIn(jokes, cluster.config.clientNamespace))
    requires request.spec.Some? && cluster.respond(QueryFor(request.spec.value)) == Returned(model, rendered)
    requires !model.error
    ensures var e := ReconcileSpec(request, status, jokes, cluster);
      var ns := request.metadata.namespace;
      var ref := CreateOwnerReference(request);
      var faults := cluster.config.deleteFaults;
      var id := DecimalString(model.id as int);
      var stored := Placed(NewJokeFor(request, model), cluster.config.clientNamespace);
      && e.status.Some?
      && UniqueKeys(e.jokes)
      && (e.status.value.state == Created <==>
            && (forall j :: j in jokes && OwnedBy(j, ns, ref) ==> KeyOf(j) !in faults)
            && KeyOf(stored) !in cluster.config.createFaults
            && KeyOf(stored) !in KeysOf(Keep(jokes, ns, ref)))
      && (e.status.value.state == Created ==>
            && e.status.value == JokeRequestStatus(Created, false, Some("Joke " + id + " created"),
                                                   request.spec, Some(id))
            && e.jokes == Keep(jokes, ns, ref) + [stored]
            && stored.metadata.name == id
            && stored.metadata.namespace == Some(cluster.config.clientNamespace)
            && stored.metadata.ownerReferences == [ref]
            && ref == OwnerReference(request.apiVersion, true, true, request.crdName,
                                     request.metadata.name, request.metadata.uid)
            && stored.joke == model.joke && stored.category == model.category
            && stored.safe == model.safe && stored.lang == model.lang
            && |Owned(e.jokes, ns, ref)| <= 1
            && (ns == cluster.config.clientNamespace ==> Owned(e.jokes, ns, ref) == [stored]))
      && (e.status.value.state != Created ==>
            && e.status.value.state == Error && e.status.value.error
            && e.status.value.appliedSpec == None && e.status.value.jokeId == None
            && e.status.value.message.Some? && |e.status.value.message.value| >= |CaughtPrefix|
            && e.status.value.message.value[..|CaughtPrefix|] == CaughtPrefix
            && e.jokes == DeleteOwned(jokes, ns, ref, faults).items)
  {
    var ns := request.metadata.namespace;
    var ref := CreateOwnerReference(request);
    var faults := cluster.config.deleteFaults;
    var stored := Placed(NewJokeFor(request, model), cluster.config.clientNamespace);
    DeleteEachMatchesDeleteOwned(jokes, ns, ref, faults);
    DeleteOwnedPrecision(jokes, ns, ref, faults);
    OwnedAppend(Keep(jokes, ns, ref), stored, ns, ref);
    OwnedOfKeepIsEmpty(jokes, ns, ref);
  }

  /**
   * Every reconcile keeps the store's keys unique, never leaves the request owning more
   * than one Joke in its namespace when it owned at most one before, keeps every Joke the
   * request does not own, and adds nothing but the Joke built from the service's answer.
   */
  lemma {:induction false} ReconcilePreservesStore(request: RequestView, status: Option<JokeRequestStatus>,
                                                   jokes: seq<Joke>, cluster: Cluster)
    requires UniqueKeys(jokes)
    ensures var e := ReconcileSpec(request, status, jokes, cluster);
      var ns := request.metadata.namespace;
      var ref := CreateOwnerReference(request);
      && UniqueKeys(e.jokes)
      && (|Owned(jokes, ns, ref)| <= 1 ==> |Owned(e.jokes, ns, ref)| <= 1)
      && (forall j :: j in jokes && !OwnedBy(j, ns, ref) ==> j in e.jokes)
      && (forall j :: j in e.jokes ==>
            j in jokes
            || (&& request.spec.Some?
                && cluster.respond(QueryFor(request.spec.value)).Returned?
                && j == Placed(NewJokeFor(request, cluster.respond(QueryFor(request.spec.value)).model),
                               cluster.config.clientNamespace)))
  {
    var ns := request.metadata.namespace;
    var ref := CreateOwnerReference(request);
    if !NoUpdateNeeded(request.spec, status, NamesIn(jokes, cluster.config.clientNamespace)) {
      if request.spec.None? || cluster.respond(QueryFor(request.spec.value)).Threw? {
        ExceptionBeforeStore(request, status, jokes, cluster);
      } else {
        var outcome := cluster.respond(QueryFor(request.spec.value));
        if outcome.model.error {
          ErrorResponse(request, status, jokes, cluster, outcome.model, outcome.rendered);
        } else {
          SuccessfulResponse(request, status, jokes, cluster, outcome.model, outcome.rendered);
          DeleteOwnedPrecision(jokes, ns, ref, cluster.config.deleteFaults);
        }
      }
    }
  }

  /**
   * Idempotence: once a reconcile has ended Created, reconciling again with the same spec
   * and store is a no-op, whatever the service would now answer.
   */
  lemma CreatedThenNoOp(request: RequestView, status: Option<JokeRequestStatus>,
                        jokes: seq<Joke>, cluster: Cluster, later: Cluster)
    requires later.config.clientNamespace == cluster.config.clientNamespace
    ensures var e := ReconcileSpec(request, status, jokes, cluster);
      e.status.Some? && e.status.value.state == Created ==>
        ReconcileSpec(request, e.status, e.jokes, later) == Effect(NoUpdate, e.status, e.jokes, [])
  {
    var cns := cluster.config.clientNamespace;
    if !NoUpdateNeeded(request.spec, status, NamesIn(jokes, cns)) {
      var attempt := ReconcileJokeSpec(request, jokes, cluster);
      if attempt.status.state == Created {
        var model := cluster.respond(QueryFor(request.spec.value)).model;
        var ref := CreateOwnerReference(request);
        var deleted := DeleteEach(jokes, Owned(jokes, request.metadata.namespace, ref), cluster.config.deleteFaults);
        var stored := Placed(NewJokeFor(request, model), cns);
        assert attempt.jokes == deleted.items + [stored];
        assert stored in attempt.jokes && stored.metadata.namespace == Some(cns);
        assert attempt.status.jokeId.value in NamesIn(attempt.jokes, cns);
      }
    }
  }

  /**
   * The end-to-end case of the reconciler's test: a first reconcile of a fresh request
   * against a service answering joke 1, "Hello", ends Created with a Joke named "1" holding
   * "Hello" as the only stored Joke; a second reconcile is a no-op.
   */
  lemma CanReconcileScenario()
    ensures var model := JokeModel(false, false, "", [], "", "", "Hello", map[], 1, false, "");
      var spec := JokeRequestSpec("Any", [], false);
      var request := RequestView("joke.platform.kb.dk/v1alpha1", "jokerequests.joke.platform.kb.dk",
                                 RequestMetadata("myjoke1", "test", "uid-1"), Some(spec));
      var cluster := Cluster(StoreConfig("test", map[], map[]),
                             (q: ServiceQuery) => if q.category == "Any" then Returned(model, "JokeModel[id=1]") else Threw("null"));
      var e := ReconcileSpec(request, None, [], cluster);
      && e.control == PatchStatus
      && e.status.Some? && e.status.value.state == Created && e.status.value.jokeId == Some("1")
      && |e.jokes| == 1 && e.jokes[0].joke == "Hello" && e.jokes[0].metadata.name == "1"
      && ReconcileSpec(request, e.status, e.jokes, cluster).control == NoUpdate
  {
  }
}
