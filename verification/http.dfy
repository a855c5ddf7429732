/** The outgoing HTTP calls the gateways build: a path, an ordered list of
    query parameters (what `URLSearchParams` holds) and a payload. */
module Http {
  import opened Wrappers
  import Text

  type Param = (string, string)

  datatype Url = Url(path: string, query: seq<Param>)

  /** One request handed to the transport wrapper; `B` is the gateway's payload type. */
  datatype ApiCall<+B> =
    | Get(url: Url)
    | Post(url: Url, body: B)
    | Put(url: Url, body: B)
    | Delete(url: Url)
  {
    function Target(): Url {
      match this
      case Get(u) => u
      case Post(u, _) => u
      case Put(u, _) => u
      case Delete(u) => u
    }
  }

  /** A URL without a query string. */
  function Bare(path: string): (u: Url)
    ensures u.path == path && u.query == []
  {
    Url(path, [])
  }

  /** The keys of a query, in order. */
  function Keys(q: seq<Param>): (ks: seq<string>)
    ensures |ks| == |q|
    ensures forall i :: 0 <= i < |q| ==> ks[i] == q[i].0
  {
    if q == [] then [] else [q[0].0] + Keys(q[1..])
  }

  /** `params.get(key)`: the value of the first parameter named `key`. */
  function Lookup(q: seq<Param>, key: string): (r: Option<string>)
    ensures r.None? <==> key !in Keys(q)
    ensures r.Some? ==> (key, r.value) in q
  {
    if q == [] then None
    else if q[0].0 == key then Some(q[0].1)
    else Lookup(q[1..], key)
  }

  /** The keys of a concatenation are the concatenation of the keys. */
  lemma {:induction false} KeysAppend(a: seq<Param>, b: seq<Param>)
    ensures Keys(a + b) == Keys(a) + Keys(b)
  {
    if a != [] {
      assert (a + b)[1..] == a[1..] + b;
      KeysAppend(a[1..], b);
    } else {
      assert a + b == b;
    }
  }

  /** Looking a key up in a concatenation finds it in the first part when it
      is there, and in the second part otherwise. */
  lemma {:induction false} LookupAppend(a: seq<Param>, b: seq<Param>, key: string)
    ensures Lookup(a + b, key) == if key in Keys(a) then Lookup(a, key) else Lookup(b, key)
  {
    if a != [] {
      assert (a + b)[0] == a[0];
      if a[0].0 == key {
        assert key in Keys(a) by { assert Keys(a)[0] == key; }
      } else {
        assert (a + b)[1..] == a[1..] + b;
        LookupAppend(a[1..], b, key);
        assert Keys(a) == [a[0].0] + Keys(a[1..]);
      }
    } else {
      assert a + b == b;
    }
  }

  /** A query is determined by its keys and lookups when it has one key. */
  lemma {:induction false} SingleParam(q: seq<Param>, key: string, v: string)
    requires Keys(q) == [key] && Lookup(q, key) == Some(v)
    ensures q == [(key, v)]
  {
    assert q[0].0 == key;
  }

  /** A parameter for an optional value: present exactly when the value is. */
  function OptionalParam(key: string, v: Option<string>): (q: seq<Param>)
    ensures Keys(q) == if v.Some? then [key] else []
    ensures forall k :: Lookup(q, k) == if v.Some? && k == key then v else None
  {
    if v.Some? then [(key, v.value)] else []
  }

  /** `params.toString()` without percent-encoding: `k1=v1&k2=v2...`. */
  function Encode(q: seq<Param>): string {
    if q == [] then ""
    else if |q| == 1 then q[0].0 + "=" + q[0].1
    else q[0].0 + "=" + q[0].1 + "&" + Encode(q[1..])
  }

  /** `queryString ? `${path}?${queryString}` : path`. */
  function Render(u: Url): (r: string)
    ensures u.query == [] ==> r == u.path
    ensures u.query != [] ==> |r| > |u.path| && r[..|u.path| + 1] == u.path + "?"
  {
    if u.query == [] then u.path
    else
      var r := u.path + "?" + Encode(u.query);
      assert r[..|u.path| + 1] == u.path + "?";
      r
  }

  /** A rendered URL carries a '?' exactly when it has query parameters
      (paths never contain one). */
  lemma RenderHasQuestionMarkIffQuery(u: Url)
    requires '?' !in u.path
    ensures '?' in Render(u) <==> u.query != []
  {
    if u.query != [] {
      var r := Render(u);
      assert r[|u.path|] == (u.path + "?")[|u.path|] == '?';
    }
  }
}
