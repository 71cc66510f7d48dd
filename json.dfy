/**
 * JSON values and insertion-ordered dictionaries with the semantics of a
 * Python dict: one entry per key, a new key goes at the end, and assigning
 * to an existing key replaces its value where it stands.
 */
module Json {
  import opened Results

  /** A Python dict as the list of its (key, value) entries in insertion order. */
  type Dict<K(==), V> = seq<(K, V)>

  /** A JSON value; objects keep their keys in insertion order. */
  datatype Json =
    | JNull
    | JBool(b: bool)
    | JInt(i: int)
    | JNumber(token: string)   // a float, kept as an opaque token
    | JString(s: string)
    | JArray(items: seq<Json>)
    | JObject(fields: Dict<string, Json>)

  function Keys<K(==), V>(d: Dict<K, V>): seq<K> {
    seq(|d|, i requires 0 <= i < |d| => d[i].0)
  }

  predicate HasKey<K(==), V>(d: Dict<K, V>, k: K) {
    exists i | 0 <= i < |d| :: d[i].0 == k
  }

  /** Every key occurs once, as in any Python dict. */
  predicate UniqueKeys<K(==), V>(d: Dict<K, V>) {
    forall i, j | 0 <= i < j < |d| :: d[i].0 != d[j].0
  }

  /** The position of the first entry with key `k`. */
  function IndexOf<K(==), V>(d: Dict<K, V>, k: K): (r: Option<nat>)
    ensures r.Some? ==> r.value < |d| && d[r.value].0 == k
    ensures r.Some? ==> forall j | 0 <= j < r.value :: d[j].0 != k
    ensures r.None? <==> !HasKey(d, k)
  {
    if |d| == 0 then None
    else if d[0].0 == k then Some(0)
    else match IndexOf(d[1..], k)
      case None => None
      case Some(i) => Some(i + 1)
  }

  /** `d.get(k)`: the value stored under `k`, if any. */
  function Get<K(==), V>(d: Dict<K, V>, k: K): (r: Option<V>)
    ensures r.Some? <==> HasKey(d, k)
  {
    match IndexOf(d, k)
    case None => None
    case Some(i) => Some(d[i].1)
  }

  /** `d[k] = v`: replace the value of an existing key in place, or append a new entry. */
  function Set<K(==), V>(d: Dict<K, V>, k: K, v: V): Dict<K, V> {
    match IndexOf(d, k)
    case Some(i) => d[i := (k, v)]
    case None => d + [(k, v)]
  }

  /** `d.update(src)`: assign every entry of `src` in order. */
  function Update<K(==), V>(d: Dict<K, V>, src: Dict<K, V>): Dict<K, V>
    decreases |src|
  {
    if |src| == 0 then d
    else Set(Update(d, src[..|src| - 1]), src[|src| - 1].0, src[|src| - 1].1)
  }

  /** Updating with a one-entry dict is assigning that entry. */
  lemma UpdateSingle<K, V>(d: Dict<K, V>, k: K, v: V)
    ensures Update(d, [(k, v)]) == Set(d, k, v)
  {
    assert [(k, v)][..0] == [];
  }

  /** `d.pop(k, …)` as seen on the dict: every entry with key `k` is removed. */
  function Remove<K(==), V>(d: Dict<K, V>, k: K): Dict<K, V>
    decreases |d|
  {
    if |d| == 0 then []
    else if d[|d| - 1].0 == k then Remove(d[..|d| - 1], k)
    else Remove(d[..|d| - 1], k) + [d[|d| - 1]]
  }

  lemma IndexOfIs<K, V>(d: Dict<K, V>, k: K, i: nat)
    requires i < |d| && d[i].0 == k
    requires forall j | 0 <= j < i :: d[j].0 != k
    ensures IndexOf(d, k) == Some(i)
  {
  }

  /** Two dicts with the same key sequence find every key at the same place. */
  lemma IndexOfByKeys<K, V>(d: Dict<K, V>, e: Dict<K, V>, k: K)
    requires |d| == |e|
    requires forall i | 0 <= i < |d| :: d[i].0 == e[i].0
    ensures IndexOf(d, k) == IndexOf(e, k)
  {
    match IndexOf(d, k)
    case None =>
      forall i | 0 <= i < |e|
        ensures e[i].0 != k
      {
        assert d[i].0 == e[i].0;
      }
    case Some(i) =>
      IndexOfIs(e, k, i);
  }

  /** Reading back after an assignment: only the assigned key changes. */
  lemma {:induction false} GetSet<K, V>(d: Dict<K, V>, k: K, v: V, q: K)
    ensures Get(Set(d, k, v), q) == if q == k then Some(v) else Get(d, q)
  {
    var s := Set(d, k, v);
    match IndexOf(d, k)
    case Some(i) =>
      assert s == d[i := (k, v)];
      IndexOfByKeys(d, s, q);
    case None =>
      assert s == d + [(k, v)];
      if q == k {
        IndexOfIs(s, k, |d|);
      } else {
        match IndexOf(d, q)
        case Some(i) =>
          IndexOfIs(s, q, i);
        case None =>
          forall j | 0 <= j < |s|
            ensures s[j].0 != q
          {
            if j < |d| { assert s[j] == d[j]; }
          }
      }
  }

  /** An assignment keeps every existing key where it was and appends a new one. */
  lemma KeysSet<K, V>(d: Dict<K, V>, k: K, v: V)
    ensures Keys(Set(d, k, v)) == if HasKey(d, k) then Keys(d) else Keys(d) + [k]
  {
  }

  lemma HasKeySet<K, V>(d: Dict<K, V>, k: K, v: V, q: K)
    ensures HasKey(Set(d, k, v), q) <==> q == k || HasKey(d, q)
  {
    GetSet(d, k, v, q);
  }

  /** Every entry after an assignment is either the assigned one or the entry that stood there before. */
  lemma SetEntries<K, V>(d: Dict<K, V>, k: K, v: V)
    ensures |d| <= |Set(d, k, v)| <= |d| + 1
    ensures forall i | 0 <= i < |Set(d, k, v)| :: Set(d, k, v)[i] == (k, v) || (i < |d| && Set(d, k, v)[i] == d[i])
  {
  }

  lemma SetUnique<K, V>(d: Dict<K, V>, k: K, v: V)
    requires UniqueKeys(d)
    ensures UniqueKeys(Set(d, k, v))
  {
  }

  /** Assigning the value a key already has changes nothing. */
  lemma SetSame<K, V>(d: Dict<K, V>, k: K, v: V)
    requires Get(d, k) == Some(v)
    ensures Set(d, k, v) == d
  {
  }

  lemma UpdateUnique<K, V>(d: Dict<K, V>, src: Dict<K, V>)
    requires UniqueKeys(d)
    ensures UniqueKeys(Update(d, src))
    decreases |src|
  {
    if |src| > 0 {
      UpdateUnique(d, src[..|src| - 1]);
      SetUnique(Update(d, src[..|src| - 1]), src[|src| - 1].0, src[|src| - 1].1);
    }
  }

  lemma {:induction false} HasKeyUpdate<K, V>(d: Dict<K, V>, src: Dict<K, V>, q: K)
    ensures HasKey(Update(d, src), q) <==> HasKey(d, q) || HasKey(src, q)
    decreases |src|
  {
    if |src| > 0 {
      var init := src[..|src| - 1];
      HasKeyUpdate(d, init, q);
      HasKeySet(Update(d, init), src[|src| - 1].0, src[|src| - 1].1, q);
      assert HasKey(src, q) <==> HasKey(init, q) || src[|src| - 1].0 == q by {
        if HasKey(src, q) {
          var j :| 0 <= j < |src| && src[j].0 == q;
          if j < |src| - 1 { assert init[j].0 == q; }
        }
        if HasKey(init, q) {
          var j :| 0 <= j < |init| && init[j].0 == q;
          assert src[j].0 == q;
        }
      }
    }
  }

  /** Looking up in a dict extended by one entry. */
  lemma {:induction false} IndexOfSnoc<K, V>(d: Dict<K, V>, e: (K, V), q: K)
    ensures IndexOf(d + [e], q) == if HasKey(d, q) then IndexOf(d, q) else if e.0 == q then Some(|d|) else None
    decreases |d|
  {
    if |d| > 0 {
      assert (d + [e])[1..] == d[1..] + [e];
      IndexOfSnoc(d[1..], e, q);
      if d[0].0 != q && HasKey(d, q) {
        var i :| 0 <= i < |d| && d[i].0 == q;
        assert d[1..][i - 1].0 == q;
      }
      if HasKey(d[1..], q) {
        var i :| 0 <= i < |d[1..]| && d[1..][i].0 == q;
        assert d[i + 1].0 == q;
      }
    }
  }

  /** `d.update(src)` with a proper dict `src`: src's keys take src's values, the rest are untouched. */
  lemma {:induction false} GetUpdate<K, V>(d: Dict<K, V>, src: Dict<K, V>, q: K)
    requires UniqueKeys(src)
    ensures Get(Update(d, src), q) == if HasKey(src, q) then Get(src, q) else Get(d, q)
    decreases |src|
  {
    if |src| > 0 {
      var n := |src| - 1;
      var init := src[..n];
      assert src == init + [src[n]];
      assert UniqueKeys(init);
      GetUpdate(d, init, q);
      GetSet(Update(d, init), src[n].0, src[n].1, q);
      IndexOfSnoc(init, src[n], q);
    }
  }

  /** Updating twice with the same dict is the same as updating once. */
  lemma {:induction false} UpdateIdempotent<K, V>(d: Dict<K, V>, src: Dict<K, V>)
    requires UniqueKeys(src)
    ensures Update(Update(d, src), src) == Update(d, src)
  {
    var once := Update(d, src);
    forall n | 0 <= n <= |src|
      ensures Update(once, src[..n]) == once
    {
      UpdateFixedPrefix(d, src, n);
    }
    assert src[..|src|] == src;
  }

  lemma {:induction false} UpdateFixedPrefix<K, V>(d: Dict<K, V>, src: Dict<K, V>, n: nat)
    requires UniqueKeys(src)
    requires n <= |src|
    ensures Update(Update(d, src), src[..n]) == Update(d, src)
    decreases n
  {
    if n > 0 {
      var once := Update(d, src);
      UpdateFixedPrefix(d, src, n - 1);
      assert src[..n][..n - 1] == src[..n - 1];
      GetUpdate(d, src, src[n - 1].0);
      IndexOfIs(src, src[n - 1].0, n - 1);
      SetSame(once, src[n - 1].0, src[n - 1].1);
    }
  }

  lemma {:induction false} GetRemove<K, V>(d: Dict<K, V>, k: K, q: K)
    requires UniqueKeys(d)
    ensures UniqueKeys(Remove(d, k))
    ensures Get(Remove(d, k), q) == if q == k then None else Get(d, q)
    decreases |d|
  {
    if |d| > 0 {
      var n := |d| - 1;
      var init := d[..n];
      assert d == init + [d[n]];
      assert UniqueKeys(init);
      assert !HasKey(init, d[n].0) by {
        forall j | 0 <= j < n
          ensures init[j].0 != d[n].0
        {
          assert init[j] == d[j];
        }
      }
      GetRemove(init, k, q);
      GetAppendNew(init, d[n], q);
      if d[n].0 != k {
        var r := Remove(init, k);
        RemoveKeys(init, k);
        assert !HasKey(r, d[n].0) by {
          forall j | 0 <= j < |r|
            ensures r[j].0 != d[n].0
          {
            var e := r[j];
            assert e in init;
            var i :| 0 <= i < |init| && init[i] == e;
            assert d[i] == e;
          }
        }
        UniqueAppendNew(r, d[n]);
        GetAppendNew(r, d[n], q);
      }
    }
  }

  /** Appending an entry whose key is new keeps every key unique. */
  lemma UniqueAppendNew<K, V>(d: Dict<K, V>, e: (K, V))
    requires UniqueKeys(d) && !HasKey(d, e.0)
    ensures UniqueKeys(d + [e])
  {
    forall i, j | 0 <= i < j < |d| + 1
      ensures (d + [e])[i].0 != (d + [e])[j].0
    {
      assert (d + [e])[i] == d[i];
      if j == |d| {
        assert (d + [e])[j] == e;
      } else {
        assert (d + [e])[j] == d[j];
      }
    }
  }

  /** Looking a key up after appending an entry with a new key. */
  lemma GetAppendNew<K, V>(d: Dict<K, V>, e: (K, V), q: K)
    requires !HasKey(d, e.0)
    ensures Get(d + [e], q) == if q == e.0 then Some(e.1) else Get(d, q)
  {
    var de := d + [e];
    if q == e.0 {
      forall j | 0 <= j < |d|
        ensures de[j].0 != q
      {
        assert de[j] == d[j];
      }
      IndexOfIs(de, q, |d|);
    } else {
      match IndexOf(d, q)
      case Some(j) =>
        forall i | 0 <= i < j
          ensures de[i].0 != q
        {
          assert de[i] == d[i];
        }
        assert de[j] == d[j];
        IndexOfIs(de, q, j);
      case None =>
        forall j | 0 <= j < |de|
          ensures de[j].0 != q
        {
          if j < |d| { assert de[j] == d[j]; }
        }
    }
  }

  /** Removing a key keeps the other keys, each one where it could be found. */
  lemma {:induction false} RemoveKeys<K, V>(d: Dict<K, V>, k: K)
    ensures forall i | 0 <= i < |Remove(d, k)| :: Remove(d, k)[i].0 != k
    ensures forall i | 0 <= i < |Remove(d, k)| :: Remove(d, k)[i] in d
    decreases |d|
  {
    if |d| > 0 {
      RemoveKeys(d[..|d| - 1], k);
    }
  }

  /** `key in j` for a JSON object (and false for anything else). */
  predicate HasMember(j: Json, key: string) {
    j.JObject? && HasKey(j.fields, key)
  }

  /** `j.get(key)` for a JSON object. */
  function Member(j: Json, key: string): Option<Json> {
    if j.JObject? then Get(j.fields, key) else None
  }

  /** `j.get(key, default)`. */
  function MemberOr(j: Json, key: string, default: Json): Json {
    match Member(j, key)
    case Some(v) => v
    case None => default
  }

  /** An object literal `{k: v}`. */
  function Single(k: string, v: Json): Json {
    JObject([(k, v)])
  }
}
