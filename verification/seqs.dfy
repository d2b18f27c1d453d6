// Facts about sequences that proofs elsewhere call on by name, so that the
// solver looks for them nowhere else.
module Seqs {
  lemma Assoc<T>(a: seq<T>, b: seq<T>, c: seq<T>)
    ensures (a + b) + c == a + (b + c)
  {
  }

  lemma Unit<T>(a: seq<T>)
    ensures a + [] == a && [] + a == a
  {
  }

  lemma Front<T>(a: seq<T>, e: T)
    ensures (a + [e])[..|a|] == a && (a + [e])[|a|] == e
  {
  }

  lemma Tail<T>(a: seq<T>, n: nat)
    requires n < |a|
    ensures a[n..][0] == a[n] && a[n..][1..] == a[n + 1..]
  {
  }

  lemma Grow<T>(a: seq<T>, n: nat)
    requires n < |a|
    ensures a[..n + 1] == a[..n] + [a[n]]
  {
  }

  lemma Split<T>(a: seq<T>)
    requires a != []
    ensures a == a[..|a| - 1] + [a[|a| - 1]]
  {
  }

  // States and the actions between them.
  ghost predicate Chain<S(!new), A(!new)>(next: (S, A, S) -> bool, ss: seq<S>, acts: seq<A>) {
    |ss| == |acts| + 1 && forall i :: 0 <= i < |acts| ==> next(ss[i], acts[i], ss[i + 1])
  }

  // A chain may go on in another way from any of its states.
  lemma ChainOn<S(!new), A(!new)>(next: (S, A, S) -> bool, ss: seq<S>, acts: seq<A>, i: nat, tt: seq<S>, bcts: seq<A>)
    requires Chain(next, ss, acts) && i < |ss| && Chain(next, tt, bcts) && tt[0] == ss[i]
    ensures Chain(next, ss[..i] + tt, acts[..i] + bcts)
    ensures (ss[..i] + tt)[..i + 1] == ss[..i + 1] && (ss[..i] + tt)[i + |bcts|] == tt[|bcts|]
  {
    var all, abs := ss[..i] + tt, acts[..i] + bcts;
    forall k | 0 <= k < |abs| ensures next(all[k], abs[k], all[k + 1]) {
      if k < i {
        assert all[k] == ss[k] && abs[k] == acts[k] && all[k + 1] == ss[k + 1];
      } else {
        assert all[k] == tt[k - i] && abs[k] == bcts[k - i] && all[k + 1] == tt[k - i + 1];
      }
    }
  }

  lemma ChainOne<S(!new), A(!new)>(next: (S, A, S) -> bool, s: S, a: A, tt: seq<S>, bcts: seq<A>)
    requires Chain(next, tt, bcts) && next(s, a, tt[0])
    ensures Chain(next, [s] + tt, [a] + bcts)
  {
    var all, abs := [s] + tt, [a] + bcts;
    forall k | 0 <= k < |abs| ensures next(all[k], abs[k], all[k + 1]) {
      if k > 0 {
        assert all[k] == tt[k - 1] && abs[k] == bcts[k - 1] && all[k + 1] == tt[k];
      }
    }
  }
}
