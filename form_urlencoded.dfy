/** The `URLSearchParams` query buffer: an ordered list of name/value pairs
    that `append` extends in place and `toString` serializes as
    application/x-www-form-urlencoded (WHATWG URL Standard, section 5.2),
    with the parser of section 5.1 as its partner. */
module FormUrlEncoded {
  import opened Wrappers
  import opened UrlEncoding

  type Pair = (string, string)

  /** `name=value`, both form-encoded. */
  function PairString(p: Pair): string {
    Encode(p.0, Form) + "=" + Encode(p.1, Form)
  }

  /** The serialization: the pairs in order, separated by `&`. */
  function Serialize(pairs: seq<Pair>): (s: string)
    ensures s == "" <==> pairs == []
  {
    if pairs == [] then ""
    else if |pairs| == 1 then PairString(pairs[0])
    else PairString(pairs[0]) + "&" + Serialize(pairs[1..])
  }

  /** The position of the first `c` in `s`, or `|s|` when there is none. */
  function IndexOf(s: string, c: char): (i: nat)
    ensures i <= |s|
    ensures i < |s| ==> s[i] == c
    ensures forall j :: 0 <= j < i ==> s[j] != c
  {
    if s == [] then 0 else if s[0] == c then 0 else 1 + IndexOf(s[1..], c)
  }

  /** One `&`-free sequence of a query: the name is what precedes the first
      `=`, the value what follows it (empty when there is no `=`); both are
      read with `+` as a space and then percent-decoded. Input the standard
      parser would repair (a stray `%`, bytes that are not UTF-8) gives `None`. */
  function ParsePair(chunk: string): Option<Pair>
  {
    var j := IndexOf(chunk, '=');
    var value := if j < |chunk| then chunk[j + 1..] else "";
    match (Decode(chunk[..j], true), Decode(value, true))
    case (Some(name), Some(v)) => Some((name, v))
    case _ => None
  }

  /** The pairs of a query string, split on `&`, empty sequences skipped. */
  function ParseQuery(s: string): Option<seq<Pair>>
    decreases |s|
  {
    if s == [] then Some([])
    else
      var i := IndexOf(s, '&');
      var rest := if i < |s| then s[i + 1..] else "";
      if i == 0 then ParseQuery(rest)
      else
        match (ParsePair(s[..i]), ParseQuery(rest))
        case (Some(p), Some(ps)) => Some([p] + ps)
        case _ => None
  }

  lemma IndexOfAfter(a: string, c: char, b: string)
    requires c !in a
    ensures IndexOf(a + [c] + b, c) == |a|
  {
    var s := a + [c] + b;
    assert s[|a|] == c;
    assert forall j :: 0 <= j < |a| ==> s[j] == a[j];
  }

  lemma IndexOfAbsent(a: string, c: char)
    requires c !in a
    ensures IndexOf(a, c) == |a|
  {
  }

  /** Form-encoded text never holds the two delimiters of a query. */
  lemma FormEncodingHasNoDelimiters(x: string)
    ensures '&' !in Encode(x, Form) && '=' !in Encode(x, Form)
  {
  }

  lemma PairStringHasNoAmpersand(p: Pair)
    ensures '&' !in PairString(p)
  {
    FormEncodingHasNoDelimiters(p.0);
    FormEncodingHasNoDelimiters(p.1);
  }

  /** A serialized pair parses back to the pair. */
  lemma ParsePairString(p: Pair)
    ensures ParsePair(PairString(p)) == Some(p)
  {
    var name := Encode(p.0, Form);
    var value := Encode(p.1, Form);
    var chunk := PairString(p);
    FormEncodingHasNoDelimiters(p.0);
    IndexOfAfter(name, '=', value);
    assert chunk[..|name|] == name;
    assert chunk[|name| + 1..] == value;
    DecodeEncode(p.0, Form, true);
    DecodeEncode(p.1, Form, true);
  }

  /** Two pairs whose names and values need no escaping serialize as
      `name=value&name=value`. */
  lemma SerializeTwo(n1: string, v1: string, n2: string, v2: string)
    requires Encode(n1, Form) == n1 && Encode(v1, Form) == v1
    requires Encode(n2, Form) == n2 && Encode(v2, Form) == v2
    ensures Serialize([(n1, v1), (n2, v2)]) == n1 + "=" + v1 + "&" + n2 + "=" + v2
  {
    assert [(n1, v1), (n2, v2)][1..] == [(n2, v2)];
  }

  /** Parsing a serialization gives back exactly the pairs, in order: no pair
      is lost, split, merged or reordered, whatever the names and values hold. */
  lemma {:induction false} ParseSerialize(pairs: seq<Pair>)
    ensures ParseQuery(Serialize(pairs)) == Some(pairs)
    decreases |pairs|
  {
    if pairs != [] {
      var first := PairString(pairs[0]);
      PairStringHasNoAmpersand(pairs[0]);
      ParsePairString(pairs[0]);
      if |pairs| == 1 {
        ParseQueryLast(first, pairs[0]);
        assert pairs == [pairs[0]];
      } else {
        ParseSerialize(pairs[1..]);
        ParseQueryFirst(first, pairs[0], Serialize(pairs[1..]), pairs[1..]);
        assert [pairs[0]] + pairs[1..] == pairs;
      }
    }
  }

  /** A query that is one sequence with no `&` holds that sequence's pair. */
  lemma ParseQueryLast(chunk: string, p: Pair)
    requires chunk != [] && '&' !in chunk && ParsePair(chunk) == Some(p)
    ensures ParseQuery(chunk) == Some([p])
  {
    IndexOfAbsent(chunk, '&');
    assert chunk[..|chunk|] == chunk;
    assert ParseQuery([]) == Some([]);
    assert [p] + [] == [p];
  }

  /** A non-empty `&`-free sequence followed by `&` contributes its pair ahead
      of the rest's. */
  lemma ParseQueryFirst(chunk: string, p: Pair, rest: string, ps: seq<Pair>)
    requires chunk != [] && '&' !in chunk && ParsePair(chunk) == Some(p)
    requires ParseQuery(rest) == Some(ps)
    ensures ParseQuery(chunk + "&" + rest) == Some([p] + ps)
  {
    var s := chunk + "&" + rest;
    IndexOfAfter(chunk, '&', rest);
    assert s[..|chunk|] == chunk;
    assert s[|chunk| + 1..] == rest;
  }

  /** The query buffer of one request. */
  class SearchParams {
    var entries: seq<Pair>

    constructor ()
      ensures entries == []
    {
      entries := [];
    }

    /** `params.append(name, value)`: adds a pair at the end; pairs already
        there, even with the same name, stay. */
    method Append(name: string, value: string)
      modifies this
      ensures entries == old(entries) + [(name, value)]
    {
      entries := entries + [(name, value)];
    }

    /** `params.toString()`: empty exactly when there are no pairs, and a
        query that parses back to exactly the pairs. */
    function ToString(): (s: string)
      reads this
      ensures s == "" <==> entries == []
      ensures ParseQuery(s) == Some(entries)
    {
      ParseSerialize(entries);
      Serialize(entries)
    }
  }
}
