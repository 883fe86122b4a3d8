/**
 * The in-memory configuration document: the nested mapping that the YAML
 * loader produces, addressed by paths of keys.
 */
module Document {
  import opened Errors

  /** A value as the YAML loader returns it (floats are not modelled). */
  datatype Value =
    | Null
    | Bool(b: bool)
    | Int(i: int)
    | Str(s: string)
    | List(items: seq<Value>)
    | Map(entries: map<string, Value>)

  /** Python truthiness: `if value:` */
  predicate Truthy(v: Value): (b: bool)
    ensures !b <==> v in {Null, Bool(false), Int(0), Str(""), List([]), Map(map[])}
  {
    match v
    case Null => false
    case Bool(b) => b
    case Int(i) => i != 0
    case Str(s) => s != ""
    case List(items) => items != []
    case Map(entries) => entries != map[]
  }

  /** The top-level mapping, `self.__options`. */
  type Doc = map<string, Value>

  /** A chain of keys, `["s3server"]["S3_SERVER_CONFIG"]["S3_REUSEPORT"]`. */
  type Path = seq<string>

  /** The YAML library, which this model does not look inside. */
  datatype Codec = Codec(dump: Doc -> string, load: string -> Option<Doc>)

  /**
   * The value at `p`, as the chained subscript `d[p0][p1]...` reads it; None
   * where Python raises KeyError (missing key) or TypeError (not a mapping).
   * The empty path denotes the whole document.
   */
  function Get(d: Doc, p: Path): (r: Option<Value>)
    // a lookup below the top level needs the first key to hold a mapping
    ensures r.Some? && |p| > 1 ==> p[0] in d && d[p[0]].Map?
    decreases |p|
  {
    if p == [] then Some(Map(d))
    else if p[0] !in d then None
    else if |p| == 1 then Some(d[p[0]])
    else match d[p[0]]
      case Map(sub) => Get(sub, p[1..])
      case _ => None
  }

  /** A missing key or a non-mapping on the way makes the lookup fail; a present top-level key is found. */
  lemma GetTopLevel(d: Doc, p: Path)
    ensures p != [] && p[0] !in d ==> Get(d, p) == None
    ensures |p| > 1 && p[0] in d && !d[p[0]].Map? ==> Get(d, p) == None
    ensures |p| == 1 && p[0] in d ==> Get(d, p) == Some(d[p[0]])
  {
  }

  /** A successful lookup passed through a mapping at every proper prefix of its path. */
  lemma {:induction false} GetThroughPrefix(d: Doc, p: Path, k: nat)
    requires Get(d, p).Some? && k < |p|
    ensures Get(d, p[..k]).Some? && Get(d, p[..k]).value.Map?
    decreases |p|
  {
    if k > 0 {
      var sub := d[p[0]].entries;
      GetThroughPrefix(sub, p[1..], k - 1);
      assert p[..k][1..] == p[1..][..k - 1];
    }
  }

  /**
   * The chained item assignment `d[p0][p1]...[pn] = x`: every key but the last
   * must lead to a mapping; the last one is set whether present or not. Where
   * Python would raise, the document is left as it is.
   */
  function Put(d: Doc, p: Path, x: Value): (r: Doc)
    ensures |p| == 1 ==> p[0] in r && r[p[0]] == x
    decreases |p|
  {
    if p == [] then d
    else if |p| == 1 then d[p[0] := x]
    else if p[0] !in d then d
    else match d[p[0]]
      case Map(sub) => d[p[0] := Map(Put(sub, p[1..], x))]
      case _ => d
  }

  /** An assignment below a missing mapping changes nothing. */
  lemma {:induction false} PutUnderMissing(d: Doc, p: Path, x: Value)
    requires p != [] && Get(d, p[..|p| - 1]).None?
    ensures Put(d, p, x) == d
    decreases |p|
  {
    if |p| > 1 && p[0] in d && d[p[0]].Map? {
      assert p[..|p| - 1][1..] == p[1..][..|p[1..]| - 1];
      PutUnderMissing(d[p[0]].entries, p[1..], x);
    }
  }

  /** Only a top-level assignment adds a key; a deeper one keeps the top-level keys. */
  lemma PutKeys(d: Doc, p: Path, x: Value)
    ensures |p| == 1 ==> Put(d, p, x).Keys == d.Keys + {p[0]}
    ensures |p| != 1 ==> Put(d, p, x).Keys == d.Keys
  {
  }

  /** Assigning a setting leaves every other top-level entry as it was. */
  lemma PutKeepsSiblings(d: Doc, p: Path, x: Value, k: string)
    requires p != [] && k in d && k != p[0]
    ensures k in Put(d, p, x) && Put(d, p, x)[k] == d[k]
  {
  }

  /** Neither path is a prefix of the other: they address unrelated parts. */
  predicate Disjoint(p: Path, q: Path) {
    !(p <= q) && !(q <= p)
  }

  lemma {:induction false} GetAfterPut(d: Doc, p: Path, x: Value)
    requires p != [] && Get(d, p).Some?
    ensures Get(Put(d, p, x), p) == Some(x)
    decreases |p|
  {
    if |p| > 1 {
      match d[p[0]]
      case Map(sub) => GetAfterPut(sub, p[1..], x);
      case _ =>
    }
  }

  /** Writing back the value already there changes nothing. */
  lemma {:induction false} PutCurrent(d: Doc, p: Path)
    requires p != [] && Get(d, p).Some?
    ensures Put(d, p, Get(d, p).value) == d
    decreases |p|
  {
    if |p| > 1 {
      match d[p[0]]
      case Map(sub) =>
        PutCurrent(sub, p[1..]);
      case _ =>
    }
  }

  /** An assignment at `p` leaves every unrelated path as it was. */
  lemma {:induction false} GetAfterPutElsewhere(d: Doc, p: Path, q: Path, x: Value)
    requires Disjoint(p, q)
    ensures Get(Put(d, p, x), q) == Get(d, q)
    decreases |p|
  {
    if p[0] == q[0] && |p| > 1 && p[0] in d {
      assert |q| > 1;
      match d[p[0]]
      case Map(sub) =>
        GetAfterPutElsewhere(sub, p[1..], q[1..], x);
      case _ =>
    }
  }

  /**
   * Overwriting an existing value keeps the key structure: every path that
   * does not run through `p` is present afterwards iff it was present before.
   */
  lemma {:induction false} PutKeepsShape(d: Doc, p: Path, q: Path, x: Value)
    requires Get(d, p).Some?
    requires !(p < q)
    ensures Get(Put(d, p, x), q).Some? == Get(d, q).Some?
    decreases |p|
  {
    if p != [] && q != [] && p[0] == q[0] && |p| > 1 && |q| > 1 {
      match d[p[0]]
      case Map(sub) =>
        PutKeepsShape(sub, p[1..], q[1..], x);
      case _ =>
    }
  }

  /**
   * `dict.update`: a shallow merge. Every incoming top-level key replaces the
   * old entry wholesale; keys only in `d` keep their values.
   */
  function Merge(d: Doc, incoming: Doc): (r: Doc)
    ensures r.Keys == d.Keys + incoming.Keys
    ensures forall k :: k in incoming ==> r[k] == incoming[k]
    ensures forall k :: k in d && k !in incoming ==> r[k] == d[k]
  {
    d + incoming
  }

  /** Below an incoming top-level key, the merged document is exactly the incoming one. */
  lemma MergeReplacesWholesale(d: Doc, incoming: Doc, p: Path)
    requires p != [] && p[0] in incoming
    ensures Get(Merge(d, incoming), p) == Get(incoming, p)
  {
  }

  /** Below any other top-level key, the merged document is the old one. */
  lemma MergeKeepsOthers(d: Doc, incoming: Doc, p: Path)
    requires p != [] && p[0] !in incoming
    ensures Get(Merge(d, incoming), p) == Get(d, p)
  {
  }

  /** Nested siblings are not merged: `{"domain": {"A": 1}}` over `{"domain": {"A": 2, "B": 3}}` drops B. */
  lemma MergeDropsNestedSiblings()
    ensures var old_ := map["domain" := Map(map["A" := Int(2), "B" := Int(3)])];
            var new_ := map["domain" := Map(map["A" := Int(1)])];
            Merge(old_, new_) == new_ && Get(Merge(old_, new_), ["domain", "B"]) == None
  {
  }
}
