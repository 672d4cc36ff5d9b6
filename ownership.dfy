/**
 * Owner-scoped garbage collection (deleteManagedJokes): which stored Jokes a request
 * owns, the delete loop as the code runs it, and an item-by-item reference definition
 * of its outcome.
 */
module Ownership {
  import opened Wrappers
  import opened Kube
  import opened Jokes
  import opened JokeStores

  /** `j` lies in `namespace` and its owner-reference list contains `ref`. */
  predicate OwnedBy(j: Joke, namespace: string, ref: OwnerReference)
  {
    j.metadata.namespace == Some(namespace) && ref in j.metadata.ownerReferences
  }

  /** The owned Jokes, in list order: what the filtered listing yields. */
  function Owned(items: seq<Joke>, namespace: string, ref: OwnerReference): (r: seq<Joke>)
    ensures forall j :: j in r <==> j in items && OwnedBy(j, namespace, ref)
    ensures |r| <= |items|
    decreases |items|
  {
    if items == [] then []
    else
      assert items == [items[0]] + items[1..];
      if OwnedBy(items[0], namespace, ref) then [items[0]] + Owned(items[1..], namespace, ref)
      else Owned(items[1..], namespace, ref)
  }

  /** The Jokes that are not owned, in list order. */
  function Keep(items: seq<Joke>, namespace: string, ref: OwnerReference): (r: seq<Joke>)
    ensures forall j :: j in r <==> j in items && !OwnedBy(j, namespace, ref)
    decreases |items|
  {
    if items == [] then []
    else
      assert items == [items[0]] + items[1..];
      if OwnedBy(items[0], namespace, ref) then Keep(items[1..], namespace, ref)
      else [items[0]] + Keep(items[1..], namespace, ref)
  }

  /**
   * The delete loop as the code runs it: each target is deleted by key in turn; the
   * first delete that throws ends the loop, and earlier deletes stay done.
   */
  function DeleteEach(items: seq<Joke>, targets: seq<Joke>, faults: map<JokeKey, string>): StoreResult
    decreases |targets|
  {
    if targets == [] then StoreResult(items, None)
    else
      var step := DeleteOne(items, KeyOf(targets[0]), faults);
      if step.failure.Some? then step
      else DeleteEach(step.items, targets[1..], faults)
  }

  function Cons(x: Joke, r: StoreResult): StoreResult
  {
    StoreResult([x] + r.items, r.failure)
  }

  /**
   * Reference definition, item by item in list order: an owned Joke is dropped, or stops
   * the walk when its delete throws; every other Joke is kept.
   */
  function DeleteOwned(items: seq<Joke>, namespace: string, ref: OwnerReference,
                       faults: map<JokeKey, string>): StoreResult
    decreases |items|
  {
    if items == [] then StoreResult([], None)
    else if OwnedBy(items[0], namespace, ref) && KeyOf(items[0]) in faults then
      StoreResult(items, Some(faults[KeyOf(items[0])]))
    else
      var rest := DeleteOwned(items[1..], namespace, ref, faults);
      if OwnedBy(items[0], namespace, ref) then rest else Cons(items[0], rest)
  }

  lemma {:induction false} DeleteEachSkipsHead(x: Joke, rest: seq<Joke>, targets: seq<Joke>,
                                              faults: map<JokeKey, string>)
    requires forall t :: t in targets ==> KeyOf(t) != KeyOf(x)
    ensures DeleteEach([x] + rest, targets, faults) == Cons(x, DeleteEach(rest, targets, faults))
    decreases |targets|
  {
    if targets != [] {
      var k := KeyOf(targets[0]);
      if k !in faults {
        assert ([x] + rest)[0] == x && ([x] + rest)[1..] == rest;
        assert RemoveKey([x] + rest, k) == [x] + RemoveKey(rest, k);
        DeleteEachSkipsHead(x, RemoveKey(rest, k), targets[1..], faults);
      }
    }
  }

  /** On a store with unique keys, the delete loop and the reference definition agree. */
  lemma {:induction false} DeleteEachMatchesDeleteOwned(items: seq<Joke>, namespace: string,
                                                       ref: OwnerReference, faults: map<JokeKey, string>)
    requires UniqueKeys(items)
    ensures DeleteEach(items, Owned(items, namespace, ref), faults) == DeleteOwned(items, namespace, ref, faults)
    decreases |items|
  {
    if items != [] {
      var x, rest := items[0], items[1..];
      assert items == [x] + rest;
      DeleteEachMatchesDeleteOwned(rest, namespace, ref, faults);
      if OwnedBy(x, namespace, ref) {
        if KeyOf(x) !in faults {
          RemoveKeyAbsent(rest, KeyOf(x));
          assert RemoveKey(items, KeyOf(x)) == rest;
        }
      } else {
        forall t | t in Owned(rest, namespace, ref)
          ensures KeyOf(t) != KeyOf(x)
        {
          assert KeyOf(t) in KeysOf(rest);
        }
        DeleteEachSkipsHead(x, rest, Owned(rest, namespace, ref), faults);
      }
    }
  }

  /**
   * What garbage collection does to the store: it fails exactly when some owned Joke's
   * delete throws; without a failure exactly the owned Jokes are gone; Jokes that are not
   * owned always stay; nothing is added; the owned count never grows; keys stay unique.
   */
  lemma {:induction false} DeleteOwnedPrecision(items: seq<Joke>, namespace: string,
                                               ref: OwnerReference, faults: map<JokeKey, string>)
    ensures var d := DeleteOwned(items, namespace, ref, faults);
      && (d.failure.None? <==> forall j :: j in items && OwnedBy(j, namespace, ref) ==> KeyOf(j) !in faults)
      && (d.failure.None? ==> d.items == Keep(items, namespace, ref))
      && (forall j :: j in items && !OwnedBy(j, namespace, ref) ==> j in d.items)
      && (forall j :: j in d.items ==> j in items)
      && |Owned(d.items, namespace, ref)| <= |Owned(items, namespace, ref)|
      && (UniqueKeys(items) ==> UniqueKeys(d.items))
    decreases |items|
  {
    if items != [] {
      var x, rest := items[0], items[1..];
      assert items == [x] + rest;
      DeleteOwnedPrecision(rest, namespace, ref, faults);
      var r := DeleteOwned(rest, namespace, ref, faults);
      if !OwnedBy(x, namespace, ref) {
        var d := Cons(x, r);
        assert d.items[0] == x && d.items[1..] == r.items;
        assert Owned(d.items, namespace, ref) == Owned(r.items, namespace, ref);
        if UniqueKeys(items) {
          assert KeysOf(r.items) <= KeysOf(rest);
        }
      }
    }
  }

  /** Owned distributes over appending one Joke. */
  lemma {:induction false} OwnedAppend(items: seq<Joke>, x: Joke, namespace: string, ref: OwnerReference)
    ensures Owned(items + [x], namespace, ref)
            == Owned(items, namespace, ref) + (if OwnedBy(x, namespace, ref) then [x] else [])
    decreases |items|
  {
    if items == [] {
      assert [x][1..] == [];
    } else {
      assert (items + [x])[0] == items[0] && (items + [x])[1..] == items[1..] + [x];
      OwnedAppend(items[1..], x, namespace, ref);
    }
  }

  /** Nothing that survives a full collection is owned. */
  lemma OwnedOfKeepIsEmpty(items: seq<Joke>, namespace: string, ref: OwnerReference)
    ensures Owned(Keep(items, namespace, ref), namespace, ref) == []
  {
  }
}
