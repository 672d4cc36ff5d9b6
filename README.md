# Joke operator reconciler: a Dafny model

This project models the core of a Kubernetes operator. The operator watches `JokeRequest`
resources and asks an external REST service for a random joke matching the request's spec.
It stores the answer as an owned `Joke` resource and records the outcome in the request's
status. The model covers:

- the idempotency check that makes a reconcile a no-op;
- the convergence step: call the service, build the Joke, attach the request's owner
  reference, delete every Joke of the namespace that carries that reference, create the
  new Joke, and write a `CREATED` or `ERROR` status;
- the catch-all that turns any exception into an `ERROR` status;
- the pure helpers: owner-reference construction, the comma-join of excluded topics,
  `Joke.from` with Java's decimal rendering of the id, and `JokeRequestStatus.from`.

Layout, one module per file:

- `wrappers.dfy`: `Option`, which stands for Java's nullable references.
- `decimal.dfy`: `Integer.toString` on an `int`, with its inverse.
- `joke_model.dfy`, `joke_request_spec.dfy`: the service's record and the request spec, as datatypes.
- `kube.dfy`: owner references and object metadata.
- `joke.dfy`: the Joke resource, its constructor, `Joke.from` and `addOwnerReference`.
- `joke_request_status.dfy`: the `State` enum, the status defaults and `from`.
- `joke_request.dfy`: the request. It is a class because the reconciler replaces its status.
- `joke_service.dfy`: the REST client. It is a class whose oracle `respond` gives the answer
  to each query and which logs every query made.
- `joke_store.dfy`: the Kubernetes store for Jokes. It is a class holding the stored Jokes
  in list order, unique by namespace and name. Fixed fault tables decide which deletes and
  creates throw. Create refuses a name that is already taken.
- `ownership.dfy`: owner-scoped deletion. It holds the delete loop as the code runs it
  (`DeleteEach`) and an item-by-item reference definition (`DeleteOwned`), proved equal.
- `topics.dfy`: `excludedAsString` and a splitting inverse.
- `reconciler.dfy`: the reconciler class. `Reconcile`, `ReconcileJoke` and
  `DeleteManagedJokes` are proved against the value-level functions `ReconcileSpec`,
  `ReconcileJokeSpec` and `DeleteEach`; `GetJokeModel` is proved against `QueryFor` and
  the service's `respond` oracle.
- `reconciler_properties.dfy`: lemmas about one reconcile and about two in a row.

Other design decisions:

- The status is a plain value. The Java fluent setters become record updates. Each status
  the reconciler writes is freshly built in `reconcileJoke`, so no aliasing is lost.
- An exception inside the `try` becomes an early exit that builds the catch-all status.
- The resource name constant is `Jokes.Name`, which is `"jokes." + Group`.
- A new status starts in `Unknown` with `error == false`; this is `Statuses.NewStatus`.
- The new Joke has no namespace, so the store places it in the client's own namespace.
- The existence lookup at `JokeRequestReconciler.java:82-84` is a lookup by name in the
  client's namespace, not in the request's namespace.
- The informer watches only the client's current namespace (line 51). Facts about "the
  request's namespace" after a create therefore assume the request lives there. The
  lemmas state this as a hypothesis where it is needed.

Where the design description and the code differ, the model follows the code:

- A delete that throws is not best-effort. The exception reaches the catch-all, the new
  Joke is not created, and the deletes already done stay done. So every reconcile keeps
  "at most one owned Joke in the namespace" (`ReconcilePreservesStore`).
- On an error payload, the message `JokeRequestStatus.from` builds is overwritten by
  `"Failed with "` plus the response's text.
- The catch-all builds a fresh status, so `appliedSpec` and `jokeId` are unset there.
- The `kind` field of the owner reference holds the request's CRD name (`getCRDName()`),
  as the code passes it.

## Model

| member | source | states |
|---|---|---|
| `Reconciler.JokeRequestReconciler.Reconcile` | src/main/java/dk/kb/platform/joke/JokeRequestReconciler.java:75-95 | The control returned, the request's new status, the store and the service calls equal `ReconcileSpec` of the old state; the store's keys stay unique |
| `Reconciler.JokeRequestReconciler.ReconcileJoke` | src/main/java/dk/kb/platform/joke/JokeRequestReconciler.java:97-127 | The status returned, the store afterwards and the calls made equal `ReconcileJokeSpec`: call, error or success branch, and the catch-all |
| `Reconciler.JokeRequestReconciler.DeleteManagedJokes` | src/main/java/dk/kb/platform/joke/JokeRequestReconciler.java:129-138 | The loop deletes the owned Jokes by key in list order and stops at the first delete that throws; store and failure equal `DeleteEach` |
| `Reconciler.JokeRequestReconciler.GetJokeModel` | src/main/java/dk/kb/platform/joke/JokeRequestReconciler.java:150-162 | Exactly one service call is made, with category, comma-joined excluded topics, safety flag and "single"; its answer is returned |
| `Reconciler.CaughtStatus` | src/main/java/dk/kb/platform/joke/JokeRequestReconciler.java:119-125 | The catch-all status: state Error, error set, message starting with "Error querying API: ", no applied spec, no joke id |
| `ReconcilerProperties.ReconcileControl` | src/main/java/dk/kb/platform/joke/JokeRequestReconciler.java:80-94 | No update if and only if the idempotency check holds; then status, store and call log are unchanged; otherwise a status is written, it is Created or Error (error set exactly for Error), and the spec's query is sent once |
| `ReconcilerProperties.ErrorResponse` | src/main/java/dk/kb/platform/joke/JokeRequestReconciler.java:100-118 | An error payload gives state Error, error set, the spec recorded as applied, message "Failed with " plus the response text, no joke id; the store is untouched |
| `ReconcilerProperties.ExceptionBeforeStore` | src/main/java/dk/kb/platform/joke/JokeRequestReconciler.java:97-125 | A missing spec or a service exception gives the catch-all status carrying that reason; the store is untouched |
| `ReconcilerProperties.SuccessfulResponse` | src/main/java/dk/kb/platform/joke/JokeRequestReconciler.java:102-147 | On a good payload the result is Created if and only if no owned Joke's delete throws and the create neither faults nor collides. When Created: exact status, the unowned Jokes plus the new one named by the decimal id, the owner reference with both flags set, and that Joke as the only owned one in the namespace. Otherwise: state Error with the error flag, a message starting "Error querying API: ", no applied spec and no joke id, with earlier deletes kept |
| `ReconcilerProperties.ReconcilePreservesStore` | src/main/java/dk/kb/platform/joke/JokeRequestReconciler.java:107-125 | Every reconcile keeps keys unique and keeps every Joke the request does not own. It adds only the Joke built from the answer. It never takes the owned count above one when it was at most one |
| `ReconcilerProperties.CreatedThenNoOp` | src/main/java/dk/kb/platform/joke/JokeRequestReconciler.java:80-115 | After a reconcile that ends Created, a second reconcile with the same spec and store is a no-op, whatever the service would answer |
| `ReconcilerProperties.CanReconcileScenario` | src/test/java/dk/kb/platform/joke/JokeRequestReconcilerTest.java:44-82 | A fresh request against a service answering joke 1 "Hello" ends Created with one stored Joke named "1" holding "Hello"; the next reconcile is a no-op |
| `Ownership.Owned` | src/main/java/dk/kb/platform/joke/JokeRequestReconciler.java:131-136 | The listing filter keeps exactly the Jokes in the namespace whose owner-reference list contains the reference |
| `Ownership.DeleteEachMatchesDeleteOwned` | src/main/java/dk/kb/platform/joke/JokeRequestReconciler.java:129-138 | On a store with unique keys, deleting the filtered list by key equals the item-by-item reference definition |
| `Ownership.DeleteOwnedPrecision` | src/main/java/dk/kb/platform/joke/JokeRequestReconciler.java:129-138 | The delete step fails if and only if some owned Joke's delete faults. Without a failure exactly the owned Jokes go. Jokes of other namespaces or owners always stay; nothing is added; the owned count never grows; keys stay unique |
| `Topics.ExcludedAsStringRoundTrip` | src/main/java/dk/kb/platform/joke/JokeRequestReconciler.java:173-177 | For comma-free topic names, splitting the joined string at commas gives back the names in iteration order |
| `Topics.ExcludedAsStringOfNone` | src/main/java/dk/kb/platform/joke/JokeRequestReconciler.java:173-177 | No topics give the empty string |
| `Statuses.StatusFrom` | src/main/java/dk/kb/platform/joke/JokeRequestStatus.java:37-48 | For an error model: error set, state Error, message "message: additionalInfo". Otherwise: no error, state Processing, no message. The error flag is set exactly in state Error; the state is only Error or Processing; appliedSpec and jokeId are never set |
| `Jokes.NewJoke` | src/main/java/dk/kb/platform/joke/Joke.java:51-58 | The object's name equals the id; the payload fields are stored as given; no namespace and no owners yet |
| `Jokes.JokeFrom` | src/main/java/dk/kb/platform/joke/Joke.java:60-62 | The id and name are the decimal string of the model's id; joke, category, safe and lang are copied unchanged |
| `Jokes.AddOwnerReference` | src/main/java/dk/kb/platform/joke/JokeRequestReconciler.java:107-108 | The reference is appended to the owner list and nothing else changes |
| `Jokes.JokeIdRoundTrip` | src/main/java/dk/kb/platform/joke/Joke.java:61 | Reading back a Joke's id gives the model's integer id |
| `Jokes.JokeNameDeterminesId` | src/main/java/dk/kb/platform/joke/Joke.java:51-61 | Two models give Jokes of the same name only when their ids are equal |
| `Decimal.DecimalString` | src/main/java/dk/kb/platform/joke/Joke.java:61 | `int + ""`: a minus sign exactly for negatives, then digits |
| `Decimal.Digits` | src/main/java/dk/kb/platform/joke/Joke.java:61 | At least one digit, all decimal digits, and a leading zero only in "0", the rendering of zero |
| `Decimal.DecimalRoundTrip` | src/main/java/dk/kb/platform/joke/Joke.java:61 | Parsing the decimal string of an integer gives the integer |
| `Decimal.DecimalInjective` | src/main/java/dk/kb/platform/joke/Joke.java:61 | Distinct integers have distinct decimal strings |
| `JokeStores.FindByName` | src/main/java/dk/kb/platform/joke/JokeRequestReconciler.java:82-84 | The name lookup finds a Joke if and only if a Joke of that name lies in the client's namespace; the one it finds is stored there under that name |
| `JokeStores.DeleteOne` | src/main/java/dk/kb/platform/joke/JokeRequestReconciler.java:137 | A delete throws exactly on a faulting key, and then changes nothing. Otherwise it removes exactly the objects with that key; keys stay unique |
| `JokeStores.CreateOne` | src/main/java/dk/kb/platform/joke/JokeRequestReconciler.java:112 | A create succeeds if and only if the placed key neither faults nor is already taken. On success the placed Joke is appended; on failure nothing changes; keys stay unique |
| `JokeStores.JokeStore.Delete` | src/main/java/dk/kb/platform/joke/JokeRequestReconciler.java:137 | The store's contents and the failure equal `DeleteOne` of the old contents; validity is kept |
| `JokeStores.JokeStore.Create` | src/main/java/dk/kb/platform/joke/JokeRequestReconciler.java:112 | The store's contents and the failure equal `CreateOne` of the old contents; validity is kept |
| `Services.JokeService.GetRandom` | src/main/java/dk/kb/platform/joke/JokeRequestReconciler.java:156-159 | The query is logged, and the oracle's answer to it is returned |

## Left out

- Kubernetes client plumbing (informer, fabric8 handles, status-subresource patching by the framework): replaced by the store class; `UpdateControl` is reduced to no-update versus patch-status.
- The REST client's transport: replaced by the `respond` oracle, which is fixed for the service's lifetime.
- An exception from the existence lookup at `JokeRequestReconciler.java:82-84`: it lies outside the `try` and would escape the reconcile. The store lookup in the model cannot fail.
- Exception texts and the record's `toString`: `Threw` carries the message, `Returned` carries the rendered text. The null-spec message (`NullSpecMessage`) and the name-taken message (`AlreadyExists`) are placeholders.
- The excluded topics as a collection: `JokeRequestSpec.excluded` is a sequence, so spec equality in the idempotency check is sequence equality (order and duplicates matter). If the source's collection is a `Set`, a reordered spec of equal topics would be a no-op there but is reprocessed here.
- Java null strings in the service's record (printed as "null" when concatenated): modelled as plain strings.
- fabric8's `addOwnerReference` checks (rejecting null fields, skipping a duplicate UID): the owner list is empty when the reference is added, and the request's fields are never null here.
- The 10-second reschedule (line 71) and the delete timeout (line 137): timing only; a timed-out delete is a delete fault.
- `toMapStringString` (lines 164-171): unused.
- Logging, dependency injection, CSV/RBAC/controller annotations, JSON serialisation: deployment and framework concerns.
- Concurrency and per-key serialisation: supplied by the framework; each reconcile is modelled as one sequential step.
- Cascading deletion by the Kubernetes garbage collector when a request is removed: not done by this code.
