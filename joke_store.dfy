/**
 * The Kubernetes store as the reconciler sees it, for the Joke kind: a list of stored
 * Jokes in list order, unique by namespace and name. Transport failures of delete and
 * create come from fault tables fixed with the store.
 */
module JokeStores {
  import opened Wrappers
  import opened Kube
  import opened Jokes

  /** Identity of a stored object: namespace and name. */
  datatype JokeKey = JokeKey(namespace: Option<string>, name: string)

  /**
   * The client's own namespace (where objects without a namespace are created and where
   * lookups by bare name look) and the keys whose delete or create fails, with messages.
   */
  datatype StoreConfig = StoreConfig(
    clientNamespace: string,
    deleteFaults: map<JokeKey, string>,
    createFaults: map<JokeKey, string>)

  /** The store's contents after an operation, and the message of the exception it raised, if any. */
  datatype StoreResult = StoreResult(items: seq<Joke>, failure: Option<string>)

  function KeyOf(j: Joke): JokeKey
  {
    JokeKey(j.metadata.namespace, j.metadata.name)
  }

  function KeysOf(s: seq<Joke>): set<JokeKey>
  {
    set j | j in s :: KeyOf(j)
  }

  /** No two stored objects share a namespace and name. */
  predicate UniqueKeys(s: seq<Joke>)
    decreases |s|
  {
    |s| == 0 || (KeyOf(s[0]) !in KeysOf(s[1..]) && UniqueKeys(s[1..]))
  }

  /** The list with every object of key `k` taken out, the others kept in order. */
  function RemoveKey(s: seq<Joke>, k: JokeKey): (r: seq<Joke>)
    ensures forall j :: j in r <==> j in s && KeyOf(j) != k
    ensures UniqueKeys(s) ==> UniqueKeys(r)
    decreases |s|
  {
    if s == [] then []
    else if KeyOf(s[0]) == k then RemoveKey(s[1..], k)
    else
      var rest := RemoveKey(s[1..], k);
      assert ([s[0]] + rest)[1..] == rest;
      [s[0]] + rest
  }

  lemma {:induction false} RemoveKeyAbsent(s: seq<Joke>, k: JokeKey)
    requires k !in KeysOf(s)
    ensures RemoveKey(s, k) == s
    decreases |s|
  {
    if s != [] {
      assert KeysOf(s[1..]) <= KeysOf(s);
      RemoveKeyAbsent(s[1..], k);
    }
  }

  /** Appending an object whose key is not yet present keeps the keys unique. */
  lemma {:induction false} UniqueKeysAppend(s: seq<Joke>, x: Joke)
    requires UniqueKeys(s) && KeyOf(x) !in KeysOf(s)
    ensures UniqueKeys(s + [x])
    decreases |s|
  {
    if s != [] {
      assert (s + [x])[1..] == s[1..] + [x];
      assert KeysOf(s[1..]) <= KeysOf(s);
      UniqueKeysAppend(s[1..], x);
      assert KeysOf(s[1..] + [x]) == KeysOf(s[1..]) + {KeyOf(x)};
    }
  }

  /** Delete by key: a key with a fault throws and changes nothing; deleting an absent key is not an error. */
  function DeleteOne(items: seq<Joke>, key: JokeKey, faults: map<JokeKey, string>): (r: StoreResult)
    ensures r.failure.None? <==> key !in faults
    ensures r.failure.Some? ==> r.items == items
    ensures r.failure.None? ==> (forall j :: j in r.items <==> j in items && KeyOf(j) != key)
    ensures UniqueKeys(items) ==> UniqueKeys(r.items)
  {
    if key in faults then StoreResult(items, Some(faults[key]))
    else StoreResult(RemoveKey(items, key), None)
  }

  /** The object as the store keeps it: placed in the client's namespace when it names none. */
  function Placed(j: Joke, clientNamespace: string): (r: Joke)
    ensures r.metadata.namespace == Some(j.metadata.namespace.GetOr(clientNamespace))
    ensures r.(metadata := j.metadata) == j
    ensures r.metadata.name == j.metadata.name && r.metadata.ownerReferences == j.metadata.ownerReferences
  {
    j.(metadata := j.metadata.(namespace := Some(j.metadata.namespace.GetOr(clientNamespace))))
  }

  /** The message a create of an existing name fails with (its exact text is not modelled). */
  function AlreadyExists(name: string): string
  {
    Name + " \"" + name + "\" already exists"
  }

  /** Create: refused on a transport fault or when the key is taken (no upsert); otherwise appended. */
  function CreateOne(items: seq<Joke>, config: StoreConfig, joke: Joke): (r: StoreResult)
    ensures var key := KeyOf(Placed(joke, config.clientNamespace));
      && (r.failure.None? <==> key !in config.createFaults && key !in KeysOf(items))
      && (r.failure.None? ==> r.items == items + [Placed(joke, config.clientNamespace)])
      && (r.failure.Some? ==> r.items == items)
    ensures UniqueKeys(items) ==> UniqueKeys(r.items)
  {
    var placed := Placed(joke, config.clientNamespace);
    var key := KeyOf(placed);
    if key in config.createFaults then StoreResult(items, Some(config.createFaults[key]))
    else if key in KeysOf(items) then StoreResult(items, Some(AlreadyExists(joke.metadata.name)))
    else
      assert UniqueKeys(items) ==> UniqueKeys(items + [placed]) by {
        if UniqueKeys(items) { UniqueKeysAppend(items, placed); }
      }
      StoreResult(items + [placed], None)
  }

  /** The names of the objects stored in `namespace`. */
  function NamesIn(items: seq<Joke>, namespace: string): set<string>
  {
    set j | j in items && j.metadata.namespace == Some(namespace) :: j.metadata.name
  }

  /** Lookup by name within one namespace: the first match in list order. */
  function FindByName(items: seq<Joke>, namespace: string, name: string): (r: Option<Joke>)
    ensures r.Some? <==> name in NamesIn(items, namespace)
    ensures r.Some? ==> r.value in items && r.value.metadata.name == name
                        && r.value.metadata.namespace == Some(namespace)
    decreases |items|
  {
    if items == [] then None
    else if items[0].metadata.namespace == Some(namespace) && items[0].metadata.name == name then
      Some(items[0])
    else
      assert NamesIn(items, namespace) == NamesIn(items[1..], namespace) + 
        (if items[0].metadata.namespace == Some(namespace) then {items[0].metadata.name} else {}) by {
        assert items == [items[0]] + items[1..];
      }
      FindByName(items[1..], namespace, name)
  }

  class JokeStore {
    const config: StoreConfig
    var items: seq<Joke>

    ghost predicate Valid()
      reads this
    {
      UniqueKeys(items)
    }

    constructor (config: StoreConfig, items: seq<Joke>)
      requires UniqueKeys(items)
      ensures Valid() && this.config == config && this.items == items
    {
      this.config := config;
      this.items := items;
    }

    /** `resources(Joke.class).withName(name).get()`: a lookup in the client's namespace. */
    function Get(name: string): Option<Joke>
      reads this
    {
      FindByName(items, config.clientNamespace, name)
    }

    method Delete(key: JokeKey) returns (failure: Option<string>)
      requires Valid()
      modifies this
      ensures Valid()
      ensures StoreResult(items, failure) == DeleteOne(old(items), key, config.deleteFaults)
    {
      if key in config.deleteFaults {
        failure := Some(config.deleteFaults[key]);
      } else {
        items := RemoveKey(items, key);
        failure := None;
      }
    }

    method Create(joke: Joke) returns (failure: Option<string>)
      requires Valid()
      modifies this
      ensures Valid()
      ensures StoreResult(items, failure) == CreateOne(old(items), config, joke)
    {
      var placed := Placed(joke, config.clientNamespace);
      var key := KeyOf(placed);
      if key in config.createFaults {
        failure := Some(config.createFaults[key]);
      } else if key in KeysOf(items) {
        failure := Some(AlreadyExists(joke.metadata.name));
      } else {
        UniqueKeysAppend(items, placed);
        items := items + [placed];
        failure := None;
      }
    }
  }
}
