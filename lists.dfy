/** A list comprehension, as the source's loops build one. */
module Lists {
  /** `[f(x) for x in xs]`, built front to back as the source's loops build it. */
  function Each<A, B>(f: A -> B, xs: seq<A>): seq<B>
    decreases |xs|
  {
    if |xs| == 0 then [] else Each(f, xs[..|xs| - 1]) + [f(xs[|xs| - 1])]
  }

  lemma {:induction false} EachAt<A, B>(f: A -> B, xs: seq<A>)
    ensures |Each(f, xs)| == |xs|
    ensures forall i | 0 <= i < |xs| :: Each(f, xs)[i] == f(xs[i])
    decreases |xs|
  {
    if |xs| > 0 {
      var init := xs[..|xs| - 1];
      EachAt(f, init);
      assert forall i | 0 <= i < |init| :: init[i] == xs[i];
    }
  }

  /** One more element extends the list by its image. */
  lemma EachSnoc<A, B>(f: A -> B, xs: seq<A>, i: nat)
    requires i < |xs|
    ensures Each(f, xs[..i + 1]) == Each(f, xs[..i]) + [f(xs[i])]
  {
    assert xs[..i + 1][..i] == xs[..i];
  }

  /** Mapping with `f` and then with `g` is mapping with their composition `h`. */
  lemma {:induction false} EachCompose<A, B, C>(f: A -> B, g: B -> C, h: A -> C, xs: seq<A>)
    requires forall x :: g(f(x)) == h(x)
    ensures Each(g, Each(f, xs)) == Each(h, xs)
    decreases |xs|
  {
    if |xs| > 0 {
      var init := xs[..|xs| - 1];
      EachCompose(f, g, h, init);
      EachAt(f, xs);
      assert Each(f, xs)[..|xs| - 1] == Each(f, init);
    }
  }

  /** Concatenation is associative. */
  lemma AppendAssoc<T>(a: seq<T>, b: seq<T>, c: seq<T>)
    ensures (a + b) + c == a + (b + c)
  {
  }
}
