/**
 * URL-encoded form bodies as the clients build them with string.Format:
 * "name=value" pairs joined by '&', each value inserted exactly as given (no
 * escaping). Decode is the reading a server makes of such a body; the round
 * trip holds when no name or value contains the separators.
 */
module Forms {
  import opened Text

  type Field = (string, string)

  function Pair(f: Field): string {
    f.0 + "=" + f.1
  }

  /** The body the format string produces: fields in the given order, values verbatim. */
  function Encode(fields: seq<Field>): string
    requires |fields| > 0
  {
    if |fields| == 1 then Pair(fields[0]) else Pair(fields[0]) + "&" + Encode(fields[1..])
  }

  /** The body split at every '&'. */
  function Split(s: string): (parts: seq<string>)
    ensures |parts| >= 1
    decreases |s|
  {
    var i := IndexOf(s, "&");
    if i == -1 then [s] else [s[..i]] + Split(s[i + 1..])
  }

  /** One "name=value" pair split at its first '='. */
  function ParseField(p: string): Field {
    var i := IndexOf(p, "=");
    if i == -1 then (p, "") else (p[..i], p[i + 1..])
  }

  function Decode(s: string): seq<Field> {
    var parts := Split(s);
    seq(|parts|, k requires 0 <= k < |parts| => ParseField(parts[k]))
  }

  /** A field the encoding keeps apart from its neighbours. */
  predicate Plain(f: Field) {
    '&' !in f.0 && '&' !in f.1 && '=' !in f.0
  }

  lemma ParsePair(f: Field)
    requires '=' !in f.0
    ensures ParseField(Pair(f)) == f
  {
    var p := Pair(f);
    assert p[..|f.0|] == f.0;
    FirstChar(p, '=', |f.0|);
    assert p[|f.0| + 1..] == f.1;
  }

  /** The "name=value" pairs of the fields, in order. */
  function Pairs(fields: seq<Field>): (ps: seq<string>)
    ensures |ps| == |fields|
  {
    seq(|fields|, k requires 0 <= k < |fields| => Pair(fields[k]))
  }

  /** A piece without '&' followed by '&' splits off as the first part. */
  lemma SplitFirst(p: string, rest: string)
    requires '&' !in p
    ensures Split(p + "&" + rest) == [p] + Split(rest)
  {
    var s := p + "&" + rest;
    assert s[..|p|] == p;
    FirstChar(s, '&', |p|);
    assert s[|p| + 1..] == rest;
  }

  /** A piece without '&' is a single part. */
  lemma SplitWhole(p: string)
    requires '&' !in p
    ensures Split(p) == [p]
  {
    NoChar(p, '&');
  }

  lemma {:induction false} SplitEncode(fields: seq<Field>)
    requires |fields| > 0
    requires forall k :: 0 <= k < |fields| ==> Plain(fields[k])
    ensures Split(Encode(fields)) == Pairs(fields)
  {
    var p := Pair(fields[0]);
    assert '&' !in p by {
      assert Plain(fields[0]);
    }
    if |fields| == 1 {
      SplitWhole(p);
      assert Pairs(fields) == [p];
    } else {
      SplitFirst(p, Encode(fields[1..]));
      SplitEncode(fields[1..]);
      assert Pairs(fields) == [p] + Pairs(fields[1..]);
    }
  }

  /**
   * Reading back a body built from plain fields gives the same fields, in the
   * same order: the format string neither drops, reorders nor alters a value.
   */
  lemma DecodeEncode(fields: seq<Field>)
    requires |fields| > 0
    requires forall k :: 0 <= k < |fields| ==> Plain(fields[k])
    ensures Decode(Encode(fields)) == fields
  {
    SplitEncode(fields);
    forall k | 0 <= k < |fields| ensures Decode(Encode(fields))[k] == fields[k] {
      assert Split(Encode(fields))[k] == Pair(fields[k]);
      ParsePair(fields[k]);
    }
  }
}
