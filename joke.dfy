/** The Joke custom resource (Joke.java): the result materialised for a request. */
module Jokes {
  import opened Wrappers
  import opened Kube
  import opened JokeModels
  import opened Decimal

  const Group: string := "joke.platform.kb.dk"
  const Version: string := "v1alpha1"
  /** The resource name of the Joke custom resource definition. */
  const Name: string := "jokes." + Group

  datatype Joke = Joke(
    metadata: ObjectMeta,
    joke: string,
    category: string,
    safe: bool,
    lang: string,
    id: string)

  /**
   * The five-argument constructor: the object's name is its id; namespace and owner
   * references start unset, as on a freshly created custom resource.
   */
  function NewJoke(id: string, joke: string, category: string, safe: bool, lang: string): (j: Joke)
    ensures j.metadata.name == j.id == id
    ensures j.joke == joke && j.category == category && j.safe == safe && j.lang == lang
    ensures j.metadata.namespace == None && j.metadata.ownerReferences == []
  {
    Joke(ObjectMeta(id, None, []), joke, category, safe, lang, id)
  }

  /** Joke.from: a Joke whose id, and so whose name, is the decimal form of the model's id. */
  function JokeFrom(model: JokeModel): (j: Joke)
    ensures j.id == DecimalString(model.id as int) && j.metadata.name == j.id
    ensures j.joke == model.joke && j.category == model.category
    ensures j.safe == model.safe && j.lang == model.lang
    ensures j.metadata.namespace == None && j.metadata.ownerReferences == []
  {
    NewJoke(DecimalString(model.id as int), model.joke, model.category, model.safe, model.lang)
  }

  /** addOwnerReference on a resource: the reference is appended, nothing else changes. */
  function AddOwnerReference(j: Joke, ref: OwnerReference): (r: Joke)
    ensures r.metadata.ownerReferences == j.metadata.ownerReferences + [ref]
    ensures r.metadata.name == j.metadata.name && r.metadata.namespace == j.metadata.namespace
    ensures r.(metadata := j.metadata) == j
  {
    j.(metadata := j.metadata.(ownerReferences := j.metadata.ownerReferences + [ref]))
  }

  /** The model's id can be read back from the Joke built from it. */
  lemma JokeIdRoundTrip(model: JokeModel)
    ensures ParseDecimal(JokeFrom(model).id) == model.id as int
  {
    DecimalRoundTrip(model.id as int);
  }

  /** Two models give Jokes of the same name only when their ids agree. */
  lemma JokeNameDeterminesId(m1: JokeModel, m2: JokeModel)
    ensures JokeFrom(m1).metadata.name == JokeFrom(m2).metadata.name ==> m1.id == m2.id
  {
    DecimalInjective(m1.id as int, m2.id as int);
  }
}
