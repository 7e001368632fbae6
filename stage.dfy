/** The shape every stage shares: a `for item := range in` loop whose body
    either sends one value on `out` or `continue`s, and sends any number of
    errors on `errc` along the way. Channels are sequences here and the stage
    runs to the end of its input; `S` is external state the body reads and
    changes (the stack map for the enrichment stage, nothing for the others). */
module Stage {
  import opened Wrappers
  import opened Errors

  /** One pass of the loop body. */
  datatype Step<B, S> = Step(out: Option<B>, errs: seq<Error>, state: S)

  function Emitted<B, S>(step: Step<B, S>): seq<B>
  {
    if step.out.Some? then [step.out.value] else []
  }

  /** What the stage has sent on `out` and on `errc` after the loop has run over
      `items`, and the state it leaves. */
  function Run<C, A, B, S>(body: (C, A, S) -> Step<B, S>, c: C, items: seq<A>, s0: S): (r: (seq<B>, seq<Error>, S))
    ensures |r.0| <= |items|
    decreases |items|
  {
    if items == [] then ([], [], s0)
    else
      var (out, errs, s) := Run(body, c, items[..|items| - 1], s0);
      var step := body(c, items[|items| - 1], s);
      (out + Emitted(step), errs + step.errs, step.state)
  }

  /** Running the loop one item further: how every stage's loop invariant is kept. */
  lemma RunOneMore<C, A, B, S>(body: (C, A, S) -> Step<B, S>, c: C, items: seq<A>, s0: S, i: nat)
    requires i < |items|
    ensures var (out, errs, s) := Run(body, c, items[..i], s0);
            var step := body(c, items[i], s);
            Run(body, c, items[..i + 1], s0) == (out + Emitted(step), errs + step.errs, step.state)
  {
    assert items[..i + 1][..i] == items[..i];
  }

  /** The state the body sees when it reaches items[i]. */
  function StateAt<C, A, B, S>(body: (C, A, S) -> Step<B, S>, c: C, items: seq<A>, s0: S, i: nat): S
    requires i <= |items|
  {
    Run(body, c, items[..i], s0).2
  }

  /** The positions whose pass sent a value on `out`, in input order. */
  function Kept<C, A, B, S>(body: (C, A, S) -> Step<B, S>, c: C, items: seq<A>, s0: S): seq<nat>
    decreases |items|
  {
    if items == [] then []
    else
      var n := |items| - 1;
      var ks := Kept(body, c, items[..n], s0);
      if body(c, items[n], Run(body, c, items[..n], s0).2).out.Some? then ks + [n] else ks
  }

  function Flatten(ess: seq<seq<Error>>): seq<Error>
  {
    if ess == [] then [] else Flatten(ess[..|ess| - 1]) + ess[|ess| - 1]
  }

  lemma PrefixOfPrefix<A>(items: seq<A>, n: nat, i: nat)
    requires i <= n <= |items|
    ensures items[..n][..i] == items[..i]
  {
  }

  lemma StatesAgreeOnPrefix<C, A, B, S>(body: (C, A, S) -> Step<B, S>, c: C, items: seq<A>, s0: S, n: nat)
    requires n <= |items|
    ensures forall i :: 0 <= i <= n ==> StateAt(body, c, items, s0, i) == StateAt(body, c, items[..n], s0, i)
  {
    forall i | 0 <= i <= n
      ensures StateAt(body, c, items, s0, i) == StateAt(body, c, items[..n], s0, i)
    {
      PrefixOfPrefix(items, n, i);
    }
  }

  lemma {:induction false} KeptIncreasing<C, A, B, S>(body: (C, A, S) -> Step<B, S>, c: C, items: seq<A>, s0: S)
    ensures var ks := Kept(body, c, items, s0);
            && (forall k :: 0 <= k < |ks| ==> ks[k] < |items|)
            && (forall k, l :: 0 <= k < l < |ks| ==> ks[k] < ks[l])
    decreases |items|
  {
    if items != [] {
      var n := |items| - 1;
      KeptIncreasing<C, A, B, S>(body, c, items[..n], s0);
      var ks' := Kept(body, c, items[..n], s0);
      assert |items[..n]| == n;
      assert forall k :: 0 <= k < |Kept(body, c, items[..n], s0)| ==> Kept(body, c, items[..n], s0)[k] < |items[..n]|;
      assert forall k :: 0 <= k < |ks'| ==> ks'[k] < n;
      if body(c, items[n], Run(body, c, items[..n], s0).2).out.Some? {
        assert Kept(body, c, items, s0) == ks' + [n];
      } else {
        assert Kept(body, c, items, s0) == ks';
      }
    }
  }

  lemma {:induction false} KeptProduced<C, A, B, S>(body: (C, A, S) -> Step<B, S>, c: C, items: seq<A>, s0: S)
    ensures var out := Run(body, c, items, s0).0;
            var ks := Kept(body, c, items, s0);
            && |ks| == |out|
            && (forall k :: 0 <= k < |ks| ==>
                  ks[k] < |items| && body(c, items[ks[k]], StateAt(body, c, items, s0, ks[k])).out == Some(out[k]))
    decreases |items|
  {
    if items != [] {
      var n := |items| - 1;
      var prefix := items[..n];
      KeptProduced(body, c, prefix, s0);
      StatesAgreeOnPrefix(body, c, items, s0, n);
      var out', ks' := Run(body, c, prefix, s0).0, Kept(body, c, prefix, s0);
      forall k | 0 <= k < |ks'|
        ensures body(c, items[ks'[k]], StateAt(body, c, items, s0, ks'[k])).out == Some(out'[k])
      {
        assert items[ks'[k]] == prefix[ks'[k]];
      }
    }
  }

  lemma {:induction false} KeptComplete<C, A, B, S>(body: (C, A, S) -> Step<B, S>, c: C, items: seq<A>, s0: S)
    ensures forall i :: 0 <= i < |items| && body(c, items[i], StateAt(body, c, items, s0, i)).out.Some?
              ==> i in Kept(body, c, items, s0)
    decreases |items|
  {
    if items != [] {
      var n := |items| - 1;
      var prefix := items[..n];
      KeptComplete(body, c, prefix, s0);
      StatesAgreeOnPrefix(body, c, items, s0, n);
      var ks' := Kept(body, c, prefix, s0);
      var ks := Kept(body, c, items, s0);
      assert ks'ContainedInKs: forall i :: i in ks' ==> i in ks by {
        assert ks == ks' || ks == ks' + [n];
      }
      forall i | 0 <= i < |items| && body(c, items[i], StateAt(body, c, items, s0, i)).out.Some?
        ensures i in ks
      {
        if i < n {
          assert items[i] == prefix[i];
          assert i in ks';
        } else {
          assert ks == ks' + [n];
        }
      }
    }
  }

  /** One kept position per value sent on `out`. */
  lemma {:induction false} KeptLength<C, A, B, S>(body: (C, A, S) -> Step<B, S>, c: C, items: seq<A>, s0: S)
    ensures |Kept(body, c, items, s0)| == |Run(body, c, items, s0).0|
    decreases |items|
  {
    if items != [] {
      KeptLength(body, c, items[..|items| - 1], s0);
    }
  }

  /** The k-th value sent on `out` came from the pass over item Kept[k]. */
  lemma KeptAt<C, A, B, S>(body: (C, A, S) -> Step<B, S>, c: C, items: seq<A>, s0: S, k: nat)
    requires k < |Kept(body, c, items, s0)|
    ensures var ks := Kept(body, c, items, s0);
            && ks[k] < |items| && k < |Run(body, c, items, s0).0|
            && body(c, items[ks[k]], StateAt(body, c, items, s0, ks[k])).out == Some(Run(body, c, items, s0).0[k])
  {
    KeptProduced(body, c, items, s0);
  }

  /** Positions through two stages: the k-th survivor of the second stage is
      item outer[k] of its input, which was item inner[outer[k]] of the first's. */
  function Compose(inner: seq<nat>, outer: seq<nat>): (r: seq<nat>)
    ensures |r| == |outer|
  {
    seq(|outer|, k requires 0 <= k < |outer| => if outer[k] < |inner| then inner[outer[k]] else 0)
  }

  predicate IncreasingBelow(ks: seq<nat>, n: nat)
  {
    && (forall k :: 0 <= k < |ks| ==> ks[k] < n)
    && (forall k, l :: 0 <= k < l < |ks| ==> ks[k] < ks[l])
  }

  /** Composing increasing position maps gives an increasing position map. */
  lemma ComposeIncreasing(inner: seq<nat>, outer: seq<nat>, n: nat)
    requires IncreasingBelow(inner, n) && IncreasingBelow(outer, |inner|)
    ensures IncreasingBelow(Compose(inner, outer), n)
    ensures forall k :: 0 <= k < |outer| ==> Compose(inner, outer)[k] == inner[outer[k]]
  {
  }

  /** Output order is input order: the k-th value sent on `out` is what the
      pass over the k-th kept item produced, the kept positions increase, and
      every pass that produced a value is kept. */
  lemma RunKeepsOrder<C, A, B, S>(body: (C, A, S) -> Step<B, S>, c: C, items: seq<A>, s0: S)
    ensures var out := Run(body, c, items, s0).0;
            var ks := Kept(body, c, items, s0);
            && |ks| == |out|
            && (forall k :: 0 <= k < |ks| ==>
                  ks[k] < |items| && body(c, items[ks[k]], StateAt(body, c, items, s0, ks[k])).out == Some(out[k]))
            && (forall k, l :: 0 <= k < l < |ks| ==> ks[k] < ks[l])
            && (forall i :: 0 <= i < |items| && body(c, items[i], StateAt(body, c, items, s0, i)).out.Some? ==> i in ks)
  {
    KeptProduced(body, c, items, s0);
    KeptIncreasing(body, c, items, s0);
    KeptComplete(body, c, items, s0);
  }

  /** Everything sent on `errc`, in order, is the errors of each pass in turn. */
  lemma {:induction false} RunErrors<C, A, B, S>(body: (C, A, S) -> Step<B, S>, c: C, items: seq<A>, s0: S)
    ensures Run(body, c, items, s0).1
         == Flatten(seq(|items|, i requires 0 <= i < |items| => body(c, items[i], StateAt(body, c, items, s0, i)).errs))
    decreases |items|
  {
    if items != [] {
      var n := |items| - 1;
      var prefix := items[..n];
      RunErrors(body, c, prefix, s0);
      var ess := seq(|items|, i requires 0 <= i < |items| => body(c, items[i], StateAt(body, c, items, s0, i)).errs);
      StatesAgreeOnPrefix(body, c, items, s0, n);
      assert ess[..n] == seq(|prefix|, i requires 0 <= i < |prefix| => body(c, prefix[i], StateAt(body, c, prefix, s0, i)).errs);
    }
  }

  function Positions(ks: seq<nat>): set<nat>
  {
    set k | k in ks
  }

  /** A strictly increasing sequence of positions has no repeats. */
  lemma {:induction false} IncreasingCard(ks: seq<nat>)
    requires forall k, l :: 0 <= k < l < |ks| ==> ks[k] < ks[l]
    ensures |Positions(ks)| == |ks|
  {
    if ks != [] {
      var n := |ks| - 1;
      var prefix := ks[..n];
      assert forall k :: 0 <= k < n ==> prefix[k] == ks[k];
      IncreasingCard(prefix);
      assert Positions(ks) == Positions(prefix) + {ks[n]};
      assert forall k :: k in prefix ==> k < ks[n];
      assert ks[n] !in Positions(prefix);
    }
  }
}
