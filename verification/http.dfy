/**
 * The slice of the Fetch Standard's `Headers` and `Response` objects that the
 * tunnel touches. A header list maps each name, lower-cased, to its values in
 * the order they were appended; names are compared ASCII case-insensitively.
 */
module Http {
  import opened Wrappers

  type HeaderMap = map<string, seq<string>>

  function LowerChar(c: char): char {
    if 'A' <= c <= 'Z' then (c as int + 32) as char else c
  }

  /** ASCII lower-casing, the normalisation `Headers` applies to names. */
  function Lower(name: string): (r: string)
    ensures |r| == |name|
    ensures forall i :: 0 <= i < |name| ==> r[i] == LowerChar(name[i])
  {
    seq(|name|, i requires 0 <= i < |name| => LowerChar(name[i]))
  }

  /** All values stored under `name`, oldest first. */
  function Values(h: HeaderMap, name: string): seq<string> {
    if Lower(name) in h then h[Lower(name)] else []
  }

  /** The values joined by a comma and a space, as `Headers.get` combines them. */
  function Combine(values: seq<string>): string {
    if |values| == 0 then ""
    else if |values| == 1 then values[0]
    else values[0] + ", " + Combine(values[1..])
  }

  /** `headers.get(name)`: null (None) when no value is stored, else the combined values. */
  function Get(h: HeaderMap, name: string): (r: Option<string>)
    ensures r.None? <==> Values(h, name) == []
    ensures |Values(h, name)| == 1 ==> r == Some(Values(h, name)[0])
  {
    var vs := Values(h, name);
    if |vs| == 0 then None else Some(Combine(vs))
  }

  /** `headers.set(name, value)`: every earlier value of `name` is replaced by `value`; other names are untouched. */
  function Set(h: HeaderMap, name: string, value: string): (r: HeaderMap)
    ensures Values(r, name) == [value]
    ensures Get(r, name) == Some(value)
    ensures forall n {:trigger Values(r, n)} :: Lower(n) != Lower(name) ==> Values(r, n) == Values(h, n)
    ensures r.Keys == h.Keys + {Lower(name)}
  {
    h[Lower(name) := [value]]
  }

  lemma {:induction false} CombineSnoc(values: seq<string>, v: string)
    requires |values| >= 1
    ensures Combine(values + [v]) == Combine(values) + ", " + v
    decreases |values|
  {
    if |values| > 1 {
      CombineSnoc(values[1..], v);
      assert (values + [v])[1..] == values[1..] + [v];
    }
  }

  /**
   * `headers.append(name, value)`: `value` goes after the values already
   * stored, so `get` then yields the old combined value, ", " and `value`.
   */
  function Append(h: HeaderMap, name: string, value: string): (r: HeaderMap)
    ensures Values(r, name) == Values(h, name) + [value]
    ensures Get(r, name) == Some(if Values(h, name) == [] then value
                                 else Combine(Values(h, name)) + ", " + value)
    ensures forall n {:trigger Values(r, n)} :: Lower(n) != Lower(name) ==> Values(r, n) == Values(h, n)
    ensures r.Keys == h.Keys + {Lower(name)}
  {
    var before := Values(h, name);
    assert before != [] ==> Combine(before + [value]) == Combine(before) + ", " + value by {
      if before != [] { CombineSnoc(before, value); }
    }
    h[Lower(name) := before + [value]]
  }

  /** The header list built from an object literal: each (name, value) pair appended in order. */
  function FromPairs(pairs: seq<(string, string)>): HeaderMap
  {
    if |pairs| == 0 then map[]
    else Append(FromPairs(pairs[..|pairs| - 1]), pairs[|pairs| - 1].0, pairs[|pairs| - 1].1)
  }

  /** No two pairs name the same header once names are lower-cased. */
  predicate DistinctNames(pairs: seq<(string, string)>) {
    forall i, j :: 0 <= i < j < |pairs| ==> Lower(pairs[i].0) != Lower(pairs[j].0)
  }

  /** The lower-cased names of the pairs. */
  function Names(pairs: seq<(string, string)>): (r: set<string>)
    ensures forall i :: 0 <= i < |pairs| ==> Lower(pairs[i].0) in r
    ensures forall k :: k in r ==> exists i :: 0 <= i < |pairs| && Lower(pairs[i].0) == k
    decreases |pairs|
  {
    if |pairs| == 0 then {}
    else
      var n := |pairs| - 1;
      assert forall i :: 0 <= i < n ==> pairs[..n][i] == pairs[i];
      Names(pairs[..n]) + {Lower(pairs[n].0)}
  }

  /** The header list built from any pairs holds exactly the pairs' names. */
  lemma {:induction false} FromPairsKeys(pairs: seq<(string, string)>)
    ensures FromPairs(pairs).Keys == Names(pairs)
    decreases |pairs|
  {
    if |pairs| > 0 {
      FromPairsKeys(pairs[..|pairs| - 1]);
    }
  }

  /** With distinct names, each pair's name holds exactly that pair's value. */
  lemma {:induction false} FromPairsValues(pairs: seq<(string, string)>)
    requires DistinctNames(pairs)
    ensures forall i :: 0 <= i < |pairs| ==> Values(FromPairs(pairs), pairs[i].0) == [pairs[i].1]
    decreases |pairs|
  {
    if |pairs| > 0 {
      var n := |pairs| - 1;
      var init := pairs[..n];
      assert forall i :: 0 <= i < n ==> init[i] == pairs[i];
      FromPairsValues(init);
      FromPairsKeys(init);
      var h := FromPairs(init);
      assert Lower(pairs[n].0) !in h;
      forall i | 0 <= i < n
        ensures Values(FromPairs(pairs), pairs[i].0) == [pairs[i].1]
      {
        assert Lower(pairs[i].0) != Lower(pairs[n].0);
        assert Values(h, init[i].0) == [init[i].1];
      }
    }
  }

  /** The header list of an object literal with four distinctly named fields. */
  lemma FourPairs(pairs: seq<(string, string)>)
    requires |pairs| == 4 && DistinctNames(pairs)
    ensures FromPairs(pairs).Keys == {Lower(pairs[0].0), Lower(pairs[1].0), Lower(pairs[2].0), Lower(pairs[3].0)}
    ensures forall i :: 0 <= i < 4 ==> Get(FromPairs(pairs), pairs[i].0) == Some(pairs[i].1)
  {
    FromPairsKeys(pairs);
    FourNames(pairs);
    FromPairsValues(pairs);
  }

  lemma FourNames(pairs: seq<(string, string)>)
    requires |pairs| == 4
    ensures Names(pairs) == {Lower(pairs[0].0), Lower(pairs[1].0), Lower(pairs[2].0), Lower(pairs[3].0)}
  {
    var expected := {Lower(pairs[0].0), Lower(pairs[1].0), Lower(pairs[2].0), Lower(pairs[3].0)};
    forall k | k in Names(pairs) ensures k in expected {
      var i :| 0 <= i < |pairs| && Lower(pairs[i].0) == k;
    }
  }

  /** A response: status code, status text, body text (None for a null body) and headers. */
  datatype Response = Response(status: nat, statusText: string, body: Option<string>, headers: HeaderMap)

  /**
   * `new Response(text, { status })`: a string body gets the Fetch Standard's
   * default `Content-Type: text/plain;charset=UTF-8`, and the status text is empty.
   */
  function TextResponse(status: nat, text: string): (r: Response)
    ensures r.status == status && r.body == Some(text)
    ensures Get(r.headers, "Content-Type") == Some("text/plain;charset=UTF-8")
  {
    Response(status, "", Some(text), FromPairs([("Content-Type", "text/plain;charset=UTF-8")]))
  }
}
