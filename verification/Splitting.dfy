/** Recovering the parts of a sequence that were joined around a separator. */
module Splitting {
  function FindFirst<T(==)>(s: seq<T>, x: T): (i: nat)
    ensures i <= |s|
  {
    if s == [] || s[0] == x then 0 else 1 + FindFirst(s[1..], x)
  }

  lemma {:induction false} FirstIsSeparator<T>(a: seq<T>, x: T, rest: seq<T>)
    requires x !in a
    ensures FindFirst(a + [x] + rest, x) == |a|
  {
    var s := a + [x] + rest;
    if a == [] {
      assert s[0] == x;
    } else {
      assert s[0] == a[0] && s[1..] == a[1..] + [x] + rest;
      FirstIsSeparator(a[1..], x, rest);
    }
  }

  /** A separator that the first parts avoid splits two equal sequences alike. */
  lemma SplitAlike<T>(a: seq<T>, b: seq<T>, x: T, rest: seq<T>, rest': seq<T>)
    requires x !in a && x !in b && a + [x] + rest == b + [x] + rest'
    ensures a == b && rest == rest'
  {
    hide FindFirst;
    FirstIsSeparator(a, x, rest);
    FirstIsSeparator(b, x, rest');
    var s, t := a + [x] + rest, b + [x] + rest';
    assert a == s[..|a|] && b == t[..|b|];
    assert rest == s[|a| + 1..] && rest' == t[|b| + 1..];
  }

  /** Each part followed by a separator, then a tail. */
  function Terminated<T>(parts: seq<seq<T>>, x: T, tail: seq<T>): seq<T> {
    if parts == [] then tail else parts[0] + [x] + Terminated(parts[1..], x, tail)
  }

  predicate Avoid<T(==)>(parts: seq<seq<T>>, x: T) {
    forall p | p in parts :: x !in p
  }

  lemma {:induction false} TerminatedInjective<T>(ps: seq<seq<T>>, qs: seq<seq<T>>, x: T, tail: seq<T>, tail': seq<T>)
    requires |ps| == |qs| && Avoid(ps, x) && Avoid(qs, x)
    requires Terminated(ps, x, tail) == Terminated(qs, x, tail')
    ensures ps == qs && tail == tail'
    decreases |ps|
  {
    if ps != [] {
      SplitAlike(ps[0], qs[0], x, Terminated(ps[1..], x, tail), Terminated(qs[1..], x, tail'));
      TerminatedInjective(ps[1..], qs[1..], x, tail, tail');
      assert ps == [ps[0]] + ps[1..] && qs == [qs[0]] + qs[1..];
    }
  }
}
