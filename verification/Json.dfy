/** Request bodies as JSON, and the canonical value that the cache key digests (src/cache/mod.rs).

    `Text` is a document as written: object members in order, names possibly repeated.
    `Value` is what parsing yields: objects are sorted maps, so equal maps serialise alike. */
module Json {
  import opened Wrappers

  datatype Text =
    | TNull
    | TBool(b: bool)
    | TNumber(token: string)
    | TString(s: string)
    | TArray(items: seq<Text>)
    | TObject(members: seq<Member>)

  datatype Member = Member(name: string, value: Text)

  datatype Value =
    | Null
    | Bool(b: bool)
    | Number(token: string)
    | String(s: string)
    | Array(items: seq<Value>)
    | Object(members: map<string, Value>)

  /** A repeated member name keeps the last value. */
  function Parse(t: Text): Value
    decreases t
  {
    match t
    case TNull => Null
    case TBool(b) => Bool(b)
    case TNumber(n) => Number(n)
    case TString(s) => String(s)
    case TArray(items) => Array(ParseItems(items))
    case TObject(members) => Object(ParseMembers(members))
  }

  function ParseItems(items: seq<Text>): (vs: seq<Value>)
    ensures |vs| == |items|
    ensures forall i | 0 <= i < |items| :: vs[i] == Parse(items[i])
    decreases items
  {
    if items == [] then []
    else ParseItems(items[..|items| - 1]) + [Parse(items[|items| - 1])]
  }

  function ParseMembers(members: seq<Member>): map<string, Value>
    decreases members
  {
    if members == [] then map[]
    else
      var last := members[|members| - 1];
      ParseMembers(members[..|members| - 1])[last.name := Parse(last.value)]
  }

  // ----- Order of members does not matter -----

  ghost predicate DistinctNames(members: seq<Member>) {
    forall i, j | 0 <= i < j < |members| :: members[i].name != members[j].name
  }

  /** No object anywhere in the text repeats a name. */
  ghost predicate NoRepeats(t: Text)
    decreases t
  {
    match t
    case TArray(items) => forall i | 0 <= i < |items| :: NoRepeats(items[i])
    case TObject(members) =>
      DistinctNames(members) && forall i | 0 <= i < |members| :: NoRepeats(members[i].value)
    case _ => true
  }

  /** The two texts differ at most in the order of object members, at any depth. */
  ghost predicate SameUpToOrder(a: Text, b: Text)
    decreases a
  {
    match (a, b)
    case (TArray(xs), TArray(ys)) =>
      |xs| == |ys| && forall i | 0 <= i < |xs| :: SameUpToOrder(xs[i], ys[i])
    case (TObject(ms), TObject(ns)) =>
      |ms| == |ns| && forall i | 0 <= i < |ms| ::
        exists j | 0 <= j < |ns| :: ms[i].name == ns[j].name && SameUpToOrder(ms[i].value, ns[j].value)
    case (_, _) => !a.TArray? && !a.TObject? && a == b
  }

  function Names(members: seq<Member>): set<string> {
    set i | 0 <= i < |members| :: members[i].name
  }

  lemma {:induction false} ParsedNames(members: seq<Member>)
    ensures ParseMembers(members).Keys == Names(members)
  {
    if members != [] {
      var n := |members| - 1;
      ParsedNames(members[..n]);
      assert Names(members) == Names(members[..n]) + {members[n].name};
    }
  }

  /** Of members of one name, the last counts. */
  lemma {:induction false} ParsedMember(members: seq<Member>, i: nat)
    requires i < |members| && forall k | i < k < |members| :: members[k].name != members[i].name
    ensures members[i].name in ParseMembers(members)
    ensures ParseMembers(members)[members[i].name] == Parse(members[i].value)
  {
    var n := |members| - 1;
    if i < n {
      ParsedMember(members[..n], i);
    }
  }

  lemma {:induction false} NamesCount(members: seq<Member>)
    requires DistinctNames(members)
    ensures |Names(members)| == |members|
  {
    if members != [] {
      var n := |members| - 1;
      NamesCount(members[..n]);
      assert members[n].name !in Names(members[..n]);
      assert Names(members) == Names(members[..n]) + {members[n].name};
    }
  }

  /** Names of equally many members, each found on the other side, are the same names. */
  lemma {:induction false} SameNames(ms: seq<Member>, ns: seq<Member>)
    requires DistinctNames(ms) && DistinctNames(ns) && |ms| == |ns|
    requires Names(ms) <= Names(ns)
    ensures Names(ms) == Names(ns)
  {
    NamesCount(ms);
    NamesCount(ns);
    SubsetOfSameSize(Names(ms), Names(ns));
  }

  lemma SubsetOfSameSize(a: set<string>, b: set<string>)
    requires a <= b && |a| == |b|
    ensures a == b
  {
    assert |b - a| == |b| - |a|;
  }

  /** Texts without repeated names parse to one value exactly when they agree up to member order. */
  lemma {:induction false} SameValueIffSameUpToOrder(a: Text, b: Text)
    requires NoRepeats(a) && NoRepeats(b)
    ensures Parse(a) == Parse(b) <==> SameUpToOrder(a, b)
    decreases a
  {
    match (a, b)
    case (TArray(xs), TArray(ys)) => ArraysAgree(xs, ys);
    case (TObject(ms), TObject(ns)) => ObjectsAgree(ms, ns);
    case (_, _) =>
  }

  lemma {:induction false} ArraysAgree(xs: seq<Text>, ys: seq<Text>)
    requires NoRepeats(TArray(xs)) && NoRepeats(TArray(ys))
    ensures ParseItems(xs) == ParseItems(ys) <==> SameUpToOrder(TArray(xs), TArray(ys))
    decreases xs
  {
    if |xs| == |ys| {
      forall i | 0 <= i < |xs|
        ensures Parse(xs[i]) == Parse(ys[i]) <==> SameUpToOrder(xs[i], ys[i])
      {
        SameValueIffSameUpToOrder(xs[i], ys[i]);
      }
      if ParseItems(xs) == ParseItems(ys) {
        forall i | 0 <= i < |xs|
          ensures SameUpToOrder(xs[i], ys[i])
        {
          assert ParseItems(xs)[i] == ParseItems(ys)[i];
        }
      }
    }
  }

  /** Member i of one object stands somewhere in the other with the same parsed value. */
  ghost predicate Matched(ms: seq<Member>, ns: seq<Member>, i: nat)
    requires i < |ms|
  {
    exists j | 0 <= j < |ns| :: ms[i].name == ns[j].name && Parse(ms[i].value) == Parse(ns[j].value)
  }

  lemma {:induction false} ObjectsAgree(ms: seq<Member>, ns: seq<Member>)
    requires NoRepeats(TObject(ms)) && NoRepeats(TObject(ns))
    ensures ParseMembers(ms) == ParseMembers(ns) <==> SameUpToOrder(TObject(ms), TObject(ns))
    decreases ms
  {
    forall i | 0 <= i < |ms|
      ensures Matched(ms, ns, i) <==>
              exists j | 0 <= j < |ns| :: ms[i].name == ns[j].name && SameUpToOrder(ms[i].value, ns[j].value)
    {
      forall j | 0 <= j < |ns|
        ensures Parse(ms[i].value) == Parse(ns[j].value) <==> SameUpToOrder(ms[i].value, ns[j].value)
      {
        assert ms[i].value < ms[i];
        SameValueIffSameUpToOrder(ms[i].value, ns[j].value);
      }
    }
    if ParseMembers(ms) == ParseMembers(ns) {
      EqualMapsMatch(ms, ns);
    }
    if |ms| == |ns| && forall i | 0 <= i < |ms| :: Matched(ms, ns, i) {
      MatchingMapsAreEqual(ms, ns);
    }
  }

  lemma {:induction false} EqualMapsMatch(ms: seq<Member>, ns: seq<Member>)
    requires DistinctNames(ms) && DistinctNames(ns) && ParseMembers(ms) == ParseMembers(ns)
    ensures |ms| == |ns| && forall i | 0 <= i < |ms| :: Matched(ms, ns, i)
  {
    ParsedNames(ms);
    ParsedNames(ns);
    NamesCount(ms);
    NamesCount(ns);
    forall i | 0 <= i < |ms|
      ensures Matched(ms, ns, i)
    {
      assert ms[i].name in Names(ns);
      var j :| 0 <= j < |ns| && ns[j].name == ms[i].name;
      ParsedMember(ms, i);
      ParsedMember(ns, j);
    }
  }

  lemma {:induction false} MatchingMapsAreEqual(ms: seq<Member>, ns: seq<Member>)
    requires DistinctNames(ms) && DistinctNames(ns)
    requires |ms| == |ns| && forall i | 0 <= i < |ms| :: Matched(ms, ns, i)
    ensures ParseMembers(ms) == ParseMembers(ns)
  {
    forall i | 0 <= i < |ms|
      ensures ms[i].name in Names(ns)
      ensures ms[i].name in ParseMembers(ms) && ms[i].name in ParseMembers(ns)
      ensures ParseMembers(ms)[ms[i].name] == ParseMembers(ns)[ms[i].name]
    {
      assert Matched(ms, ns, i);
      var j :| 0 <= j < |ns| && ms[i].name == ns[j].name && Parse(ms[i].value) == Parse(ns[j].value);
      ParsedMember(ms, i);
      ParsedMember(ns, j);
    }
    SameNames(ms, ns);
    ParsedNames(ms);
    ParsedNames(ns);
  }

  // ----- JSON-RPC bodies and the canonical value -----

  /** A request body; None stands for bytes that are not JSON. */
  type Body = Option<Text>

  /** `extract_json_rpc_method`. */
  function Method(body: Body): Option<string> {
    match body
    case None => None
    case Some(t) =>
      match Parse(t)
      case Object(m) => if "method" in m && m["method"].String? then Some(m["method"].s) else None
      case _ => None
  }

  /** A request's method is its member "method", the last one if there are several, if that is a string; the
      request must be an object. */
  lemma {:induction false} MethodIs(members: seq<Member>)
    ensures (forall i | 0 <= i < |members| :: members[i].name != "method") ==> Method(Some(TObject(members))) == None
    ensures forall i | 0 <= i < |members| && members[i].name == "method"
              && (forall k | i < k < |members| :: members[k].name != "method") ::
              Method(Some(TObject(members))) ==
              match members[i].value case TString(s) => Some(s) case _ => None
    ensures forall t: Text | !t.TObject? :: Method(Some(t)) == None
  {
    ParsedNames(members);
    forall i | 0 <= i < |members| && members[i].name == "method"
               && (forall k | i < k < |members| :: members[k].name != "method")
      ensures Method(Some(TObject(members))) == match members[i].value case TString(s) => Some(s) case _ => None
    {
      ParsedMember(members, i);
    }
  }

  const ENVELOPE: set<string> := {"id", "jsonrpc"}

  function Stripped(v: Value): Value {
    match v
    case Object(m) => Object(m - ENVELOPE)
    case _ => v
  }

  /** What `compute_cache_key` serialises and digests. */
  function Canonical(body: Body): Value {
    match body
    case None => Null
    case Some(t) => Stripped(Parse(t))
  }

  /** The two values are the same request except for its `id` and `jsonrpc`. */
  ghost predicate SameRequest(a: Value, b: Value) {
    match (a, b)
    case (Object(m), Object(n)) =>
      forall name: string | name != "id" && name != "jsonrpc" ::
        (name in m <==> name in n) && (name in m ==> m[name] == n[name])
    case (_, _) => a == b
  }

  lemma {:induction false} StrippedIffSameRequest(a: Value, b: Value)
    ensures Stripped(a) == Stripped(b) <==> SameRequest(a, b)
  {
    if a.Object? && b.Object? {
      var m, n := a.members, b.members;
      if Stripped(a) == Stripped(b) {
        forall name: string | name != "id" && name != "jsonrpc"
          ensures (name in m <==> name in n) && (name in m ==> m[name] == n[name])
        {
          assert name in m <==> name in m - ENVELOPE;
          assert name in n <==> name in n - ENVELOPE;
        }
      }
      if SameRequest(a, b) {
        assert m - ENVELOPE == n - ENVELOPE;
      }
    }
  }

  /** Bodies with a method never fall back to the digest of null, and share a canonical value
      exactly when they are the same request up to `id` and `jsonrpc`; then the methods agree. */
  lemma {:induction false} CanonicalIffSameRequest(a: Body, b: Body)
    requires Method(a).Some? && Method(b).Some?
    ensures a.Some? && b.Some? && Canonical(a).Object? && Canonical(b).Object?
    ensures Canonical(a) == Canonical(b) <==> SameRequest(Parse(a.value), Parse(b.value))
    ensures Canonical(a) == Canonical(b) ==> Method(a) == Method(b)
  {
    StrippedIffSameRequest(Parse(a.value), Parse(b.value));
    assert "method" !in ENVELOPE;
  }

  /** Requests written with their members in another order share a canonical value. */
  lemma {:induction false} OrderDoesNotMatter(a: Text, b: Text)
    requires NoRepeats(a) && NoRepeats(b) && SameUpToOrder(a, b)
    ensures Canonical(Some(a)) == Canonical(Some(b)) && Method(Some(a)) == Method(Some(b))
  {
    SameValueIffSameUpToOrder(a, b);
  }
}
