/**
 * The `http.Header` value of Go's net/http: a map from a header name to the
 * ordered list of its values. Header names are case-insensitive (section 5.1
 * of RFC 9110); `Add`, `Set` and `Get` first bring the name into canonical form.
 */
module Headers {
  import opened Ascii

  type Header = map<string, seq<string>>

  /**
   * Canonical form of a header name: the first character and every character
   * after a '-' upper-cased, all others lower-cased ("content-type" becomes
   * "Content-Type").
   */
  function Canon(k: string): string
  {
    seq(|k|, i requires 0 <= i < |k| => if i == 0 || k[i - 1] == '-' then Upper(k[i]) else Lower(k[i]))
  }

  /** Canonicalising an already canonical name changes nothing. */
  lemma CanonIdempotent(k: string)
    ensures Canon(Canon(k)) == Canon(k)
  {
    var c := Canon(k);
    forall i | 0 <= i < |k|
      ensures Canon(c)[i] == c[i]
    {
      if i > 0 {
        assert c[i - 1] == '-' <==> k[i - 1] == '-';
      }
    }
  }

  /** Canonicalisation does not depend on the case the caller used. */
  lemma CanonIgnoresCase(k: string, k': string)
    requires |k| == |k'|
    requires forall i :: 0 <= i < |k| ==> Lower(k[i]) == Lower(k'[i])
    ensures Canon(k) == Canon(k')
  {
    forall i | 0 <= i < |k|
      ensures Canon(k)[i] == Canon(k')[i]
    {
      assert Upper(k[i]) == Upper(k'[i]) by {
        assert Lower(k[i]) == Lower(k'[i]);
      }
      if i > 0 {
        assert Lower(k[i - 1]) == Lower(k'[i - 1]);
      }
    }
  }

  lemma CanonContentType()
    ensures Canon("Content-Type") == "Content-Type"
  {
  }

  /** The values stored under exactly the key `k` (no canonicalisation); none if absent. */
  function Values(h: Header, k: string): (vs: seq<string>)
    ensures k !in h ==> vs == []
  {
    if k in h then h[k] else []
  }

  /** `h.Get(k)`: the first value under the canonical form of `k`, or "" when there is none. */
  function Get(h: Header, k: string): (v: string)
    ensures v != "" ==> |Values(h, Canon(k))| > 0 && v == Values(h, Canon(k))[0]
    ensures |Values(h, Canon(k))| > 0 ==> v == Values(h, Canon(k))[0]
  {
    var vs := Values(h, Canon(k));
    if |vs| == 0 then "" else vs[0]
  }

  /** `h.Add(k, v)`: append `v` to the values under the canonical form of `k`. */
  function Add(h: Header, k: string, v: string): (h': Header)
    ensures Values(h', Canon(k)) == Values(h, Canon(k)) + [v]
    ensures forall k' :: k' != Canon(k) ==> Values(h', k') == Values(h, k')
    ensures h'.Keys == h.Keys + {Canon(k)}
  {
    h[Canon(k) := Values(h, Canon(k)) + [v]]
  }

  /** `h.Set(k, v)`: replace all values under the canonical form of `k` by `[v]`. */
  function Set(h: Header, k: string, v: string): (h': Header)
    ensures Values(h', Canon(k)) == [v]
    ensures forall k' :: k' != Canon(k) ==> Values(h', k') == Values(h, k')
    ensures h'.Keys == h.Keys + {Canon(k)}
  {
    h[Canon(k) := [v]]
  }

  /**
   * The effect of `for _, v := range vs { h.Add(k, v) }`: the values are
   * appended in order, and an empty `vs` leaves `h` exactly as it was.
   */
  function AddValues(h: Header, k: string, vs: seq<string>): Header
  {
    if vs == [] then h else h[Canon(k) := Values(h, Canon(k)) + vs]
  }

  /** Adding one more value extends the loop above by one iteration. */
  lemma AddValuesStep(h: Header, k: string, vs: seq<string>, v: string)
    ensures Add(AddValues(h, k, vs), k, v) == AddValues(h, k, vs + [v])
  {
    var K := Canon(k);
    if vs != [] {
      assert Values(AddValues(h, k, vs), K) == Values(h, K) + vs;
      assert Values(h, K) + vs + [v] == Values(h, K) + (vs + [v]);
    } else {
      assert vs + [v] == [v];
    }
  }

  /** `order` lists every key of `keys` exactly once: one possible map iteration order. */
  ghost predicate IsEnumeration(order: seq<string>, keys: set<string>)
  {
    && (forall i, j :: 0 <= i < j < |order| ==> order[i] != order[j])
    && (forall k :: k in order <==> k in keys)
    && |order| == |keys|
  }

  /**
   * The effect of adding, key by key in the iteration order `order`, every
   * value of `src` to `h`.
   */
  function AddAll(h: Header, src: Header, order: seq<string>): Header
    requires forall k :: k in order ==> k in src
  {
    if order == [] then h
    else
      var last := order[|order| - 1];
      AddValues(AddAll(h, src, order[..|order| - 1]), last, src[last])
  }

  /** The values of `src` that land under the canonical key `K`, in the order `order` visits them. */
  function ValuesFor(src: Header, order: seq<string>, K: string): seq<string>
    requires forall k :: k in order ==> k in src
  {
    if order == [] then []
    else
      var last := order[|order| - 1];
      ValuesFor(src, order[..|order| - 1], K) + (if Canon(last) == K then src[last] else [])
  }

  /**
   * Adding never replaces: under every key the old values come first, followed
   * by the values of `src` whose names canonicalise to that key. A key gains an
   * entry only if some value is added to it.
   */
  lemma {:induction false} AddAllAt(h: Header, src: Header, order: seq<string>, K: string)
    requires forall k :: k in order ==> k in src
    ensures Values(AddAll(h, src, order), K) == Values(h, K) + ValuesFor(src, order, K)
    ensures K in AddAll(h, src, order) <==> K in h || ValuesFor(src, order, K) != []
  {
    if order != [] {
      var init := order[..|order| - 1];
      var last := order[|order| - 1];
      assert forall k :: k in init ==> k in src by {
        forall k | k in init ensures k in src {
          assert k in order;
        }
      }
      var prev := AddAll(h, src, init);
      var more := if Canon(last) == K then src[last] else [];
      assert AddAll(h, src, order) == AddValues(prev, last, src[last]);
      assert ValuesFor(src, order, K) == ValuesFor(src, init, K) + more;
      AddAllAt(h, src, init, K);
      AddValuesAt(prev, last, src[last], K);
      assert Values(h, K) + ValuesFor(src, init, K) + more == Values(h, K) + (ValuesFor(src, init, K) + more);
    }
  }

  /** One key's worth of adds: `K` gains `vs` if `k` canonicalises to it, and nothing otherwise. */
  lemma AddValuesAt(h: Header, k: string, vs: seq<string>, K: string)
    ensures Values(AddValues(h, k, vs), K) == Values(h, K) + (if Canon(k) == K then vs else [])
    ensures K in AddValues(h, k, vs) <==> K in h || (Canon(k) == K && vs != [])
  {
  }

  /** A key that no name in `order` canonicalises to receives nothing. */
  lemma {:induction false} ValuesForUnrelated(src: Header, order: seq<string>, K: string)
    requires forall k :: k in order ==> k in src
    requires forall k :: k in order ==> Canon(k) != K
    ensures ValuesFor(src, order, K) == []
  {
    if order != [] {
      var init := order[..|order| - 1];
      forall k | k in init ensures k in src && Canon(k) != K {
        assert k in order;
      }
      ValuesForUnrelated(src, init, K);
    }
  }

  /**
   * When exactly one name `k` of `src` canonicalises to `K`, the values landing
   * under `K` are `src[k]` in their original order, whatever the iteration order.
   */
  lemma ValuesForUnique(src: Header, order: seq<string>, K: string, k: string)
    requires IsEnumeration(order, src.Keys)
    requires k in src && Canon(k) == K
    requires forall k' :: k' in src && Canon(k') == K ==> k' == k
    ensures ValuesFor(src, order, K) == src[k]
  {
    var i :| 0 <= i < |order| && order[i] == k;
    ValuesForSplit(src, order, K, i);
    assert ValuesFor(src, order[..i], K) == [] by {
      SliceMissesKey(src, order, K, i, 0, i);
      assert order[0..i] == order[..i];
      ValuesForUnrelated(src, order[..i], K);
    }
    assert ValuesFor(src, order[i + 1..], K) == [] by {
      SliceMissesKey(src, order, K, i, i + 1, |order|);
      assert order[i + 1..|order|] == order[i + 1..];
      ValuesForUnrelated(src, order[i + 1..], K);
    }
    assert [] + src[k] + [] == src[k];
  }

  /**
   * In an enumeration, a slice that leaves out position `i` holds no other
   * name with the same canonical form as `order[i]`, when that name is unique.
   */
  lemma SliceMissesKey(src: Header, order: seq<string>, K: string, i: int, a: int, b: int)
    requires IsEnumeration(order, src.Keys)
    requires 0 <= i < |order| && Canon(order[i]) == K
    requires forall k' :: k' in src && Canon(k') == K ==> k' == order[i]
    requires 0 <= a <= b <= |order| && (i < a || b <= i)
    ensures forall k' :: k' in order[a..b] ==> k' in src && Canon(k') != K
  {
    forall k' | k' in order[a..b] ensures k' in src && Canon(k') != K {
      var j :| 0 <= j < b - a && order[a..b][j] == k';
      assert order[a + j] == k';
    }
  }

  /** `ValuesFor` over `order` splits around its `i`-th key. */
  lemma ValuesForSplit(src: Header, order: seq<string>, K: string, i: int)
    requires forall k :: k in order ==> k in src
    requires 0 <= i < |order|
    ensures forall k :: k in order[..i] ==> k in src
    ensures forall k :: k in order[i + 1..] ==> k in src
    ensures ValuesFor(src, order, K)
         == ValuesFor(src, order[..i], K)
          + (if Canon(order[i]) == K then src[order[i]] else [])
          + ValuesFor(src, order[i + 1..], K)
  {
    var pre, mid, post := order[..i], [order[i]], order[i + 1..];
    SliceInSource(src, order, 0, i);
    SliceInSource(src, order, i + 1, |order|);
    assert order[0..i] == pre;
    assert order[i + 1..|order|] == post;
    assert order == pre + mid + post;
    ValuesForAppend(src, pre, mid, K);
    ValuesForAppend(src, pre + mid, post, K);
    assert ValuesFor(src, mid, K) == (if Canon(order[i]) == K then src[order[i]] else []) by {
      assert mid[..0] == [];
    }
  }

  /** `ValuesFor` over a concatenation is the concatenation of the two parts. */
  lemma {:induction false} ValuesForAppend(src: Header, a: seq<string>, b: seq<string>, K: string)
    requires forall k :: k in a ==> k in src
    requires forall k :: k in b ==> k in src
    ensures forall k :: k in a + b ==> k in src
    ensures ValuesFor(src, a + b, K) == ValuesFor(src, a, K) + ValuesFor(src, b, K)
  {
    if b == [] {
      assert a + b == a;
    } else {
      var b' := b[..|b| - 1];
      SliceInSource(src, b, 0, |b| - 1);
      assert b[0..|b| - 1] == b';
      assert (a + b)[..|a + b| - 1] == a + b';
      ValuesForAppend(src, a, b', K);
    }
  }

  /** Every key in a slice of `order` is a key of `src`. */
  lemma SliceInSource(src: Header, order: seq<string>, a: int, b: int)
    requires forall k :: k in order ==> k in src
    requires 0 <= a <= b <= |order|
    ensures forall k :: k in order[a..b] ==> k in src
  {
    forall k | k in order[a..b] ensures k in src {
      var j :| 0 <= j < b - a && order[a..b][j] == k;
      assert order[a + j] == k;
    }
  }
}
