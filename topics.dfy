/**
 * excludedAsString: the names of the excluded topics joined by commas, in iteration
 * order, as the `excluded` argument of the service call. Split is its inverse.
 */
module Topics {
  import opened Specs

  function Names(topics: seq<ExcludedTopic>): (names: seq<string>)
    ensures |names| == |topics|
    ensures forall i :: 0 <= i < |topics| ==> names[i] == topics[i].name
  {
    seq(|topics|, i requires 0 <= i < |topics| => topics[i].name)
  }

  /** Collectors.joining(","): the empty string for no parts. */
  function Join(parts: seq<string>): string
    decreases |parts|
  {
    if |parts| == 0 then ""
    else if |parts| == 1 then parts[0]
    else parts[0] + "," + Join(parts[1..])
  }

  function ExcludedAsString(excluded: seq<ExcludedTopic>): string
  {
    Join(Names(excluded))
  }

  /** The pieces of `s` between commas, in order; always at least one. */
  function Split(s: string): (parts: seq<string>)
    ensures |parts| >= 1
    decreases |s|
  {
    if s == [] then [""]
    else
      var rest := Split(s[1..]);
      if s[0] == ',' then [""] + rest else [[s[0]] + rest[0]] + rest[1..]
  }

  lemma {:induction false} SplitWithoutComma(a: string)
    requires ',' !in a
    ensures Split(a) == [a]
    decreases |a|
  {
    if a != [] {
      assert ',' !in a[1..] by { assert forall c :: c in a[1..] ==> c in a; }
      SplitWithoutComma(a[1..]);
      assert a == [a[0]] + a[1..];
    }
  }

  lemma {:induction false} SplitAtFirstComma(a: string, b: string)
    requires ',' !in a
    ensures Split(a + "," + b) == [a] + Split(b)
    decreases |a|
  {
    var s := a + "," + b;
    if a == [] {
      assert s[0] == ',' && s[1..] == b;
    } else {
      assert ',' !in a[1..] by { assert forall c :: c in a[1..] ==> c in a; }
      assert s[0] == a[0] && s[1..] == a[1..] + "," + b;
      SplitAtFirstComma(a[1..], b);
      assert a == [a[0]] + a[1..];
    }
  }

  /** No topics give the empty string. */
  lemma ExcludedAsStringOfNone()
    ensures ExcludedAsString([]) == ""
  {
  }

  /**
   * For topic names free of commas (an enum constant's name is one), splitting the
   * joined string at its commas gives back the names, in the same order.
   */
  lemma {:induction false} ExcludedAsStringRoundTrip(excluded: seq<ExcludedTopic>)
    requires |excluded| > 0
    requires forall i :: 0 <= i < |excluded| ==> ',' !in excluded[i].name
    ensures Split(ExcludedAsString(excluded)) == Names(excluded)
    decreases |excluded|
  {
    var names := Names(excluded);
    if |excluded| == 1 {
      SplitWithoutComma(excluded[0].name);
    } else {
      var rest := excluded[1..];
      assert names[1..] == Names(rest);
      ExcludedAsStringRoundTrip(rest);
      SplitAtFirstComma(excluded[0].name, ExcludedAsString(rest));
      assert names == [names[0]] + names[1..];
    }
  }
}
