// Go values of type `any` as they occur in claims, and what a JSON hop does to them.
module Json {

  // A Go []string is a StringList; a JSON decoder only ever produces the other forms.
  datatype Json =
    | Null
    | Bool(b: bool)
    | Number(n: int)
    | Text(s: string)
    | Array(items: seq<Json>)
    | Object(fields: map<string, Json>)
    | StringList(list: seq<string>)

  type Claims = map<string, Json>

  // A value as a JSON decoder delivers it.
  predicate Decoded(j: Json) {
    match j
    case Array(items) => forall i :: 0 <= i < |items| ==> Decoded(items[i])
    case Object(fields) => forall k :: k in fields ==> Decoded(fields[k])
    case StringList(_) => false
    case _ => true
  }

  predicate DecodedClaims(claims: Claims) {
    forall k :: k in claims ==> Decoded(claims[k])
  }

  // Encoding to JSON and decoding again: a Go string list comes back as a generic list.
  function Hop(j: Json): Json {
    match j
    case Array(items) => Array(seq(|items|, i requires 0 <= i < |items| => Hop(items[i])))
    case Object(fields) => Object(map k | k in fields :: Hop(fields[k]))
    case StringList(list) => Array(seq(|list|, i requires 0 <= i < |list| => Text(list[i])))
    case _ => j
  }

  function HopClaims(claims: Claims): Claims {
    map k | k in claims :: Hop(claims[k])
  }

  lemma {:induction false} HopKeepsDecoded(j: Json)
    requires Decoded(j)
    ensures Hop(j) == j
  {
    match j
    case Array(items) =>
      forall i | 0 <= i < |items| ensures Hop(items[i]) == items[i] { HopKeepsDecoded(items[i]); }
      assert seq(|items|, i requires 0 <= i < |items| => Hop(items[i])) == items;
    case Object(fields) =>
      forall k | k in fields ensures Hop(fields[k]) == fields[k] { HopKeepsDecoded(fields[k]); }
      assert (map k | k in fields :: Hop(fields[k])) == fields;
    case _ =>
  }

  lemma {:induction false} HopDecodes(j: Json)
    ensures Decoded(Hop(j))
  {
    match j
    case Array(items) =>
      forall i | 0 <= i < |items| ensures Decoded(Hop(items[i])) { HopDecodes(items[i]); }
    case Object(fields) =>
      forall k | k in fields ensures Decoded(Hop(fields[k])) { HopDecodes(fields[k]); }
    case _ =>
  }

  // The first hop fixes a claims tree for good: further hops change nothing.
  lemma HopIsIdempotent(claims: Claims)
    ensures DecodedClaims(HopClaims(claims))
    ensures HopClaims(HopClaims(claims)) == HopClaims(claims)
    ensures DecodedClaims(claims) ==> HopClaims(claims) == claims
  {
    forall k | k in claims
      ensures Decoded(Hop(claims[k])) && Hop(Hop(claims[k])) == Hop(claims[k])
      ensures Decoded(claims[k]) ==> Hop(claims[k]) == claims[k]
    {
      HopDecodes(claims[k]);
      HopKeepsDecoded(Hop(claims[k]));
      if Decoded(claims[k]) { HopKeepsDecoded(claims[k]); }
    }
  }
}
