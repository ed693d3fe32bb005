/**
 * The shape every extractor loop in content.js shares: candidates are
 * tried in a fixed order, the first one that yields a value wins, and there
 * is no value when all of them fail. Stated once, for any candidate test.
 */
module Search {
  import opened Wrappers

  /** `f` applied to every element of `xs`, in order. */
  function MapSeq<A, B>(f: A -> B, xs: seq<A>): (r: seq<B>)
    ensures |r| == |xs|
    ensures forall i {:trigger r[i]} | 0 <= i < |xs| :: r[i] == f(xs[i])
  {
    seq(|xs|, i requires 0 <= i < |xs| => f(xs[i]))
  }

  lemma MapSeqAppend<A, B>(f: A -> B, a: seq<A>, b: seq<A>)
    ensures MapSeq(f, a + b) == MapSeq(f, a) + MapSeq(f, b)
  {
    var l, r := MapSeq(f, a + b), MapSeq(f, a) + MapSeq(f, b);
    forall i | 0 <= i < |l| ensures l[i] == r[i] {
      if i < |a| {
        assert (a + b)[i] == a[i];
      } else {
        assert (a + b)[i] == b[i - |a|];
      }
    }
  }

  /** The first present value of `xs`, if any. */
  function FirstSome<T>(xs: seq<Option<T>>): Option<T> {
    if xs == [] then None else if xs[0].Some? then xs[0] else FirstSome(xs[1..])
  }

  /**
   * A value is found exactly when some candidate yields one, and it is the
   * value of the first candidate that does.
   */
  lemma {:induction false} FirstSomeLeftmost<T>(xs: seq<Option<T>>)
    ensures FirstSome(xs).Some? <==> exists i | 0 <= i < |xs| :: xs[i].Some?
    ensures FirstSome(xs).Some? ==> exists i | 0 <= i < |xs| ::
              && FirstSome(xs) == xs[i]
              && forall j | 0 <= j < i :: xs[j].None?
  {
    if xs != [] && xs[0].None? {
      FirstSomeLeftmost(xs[1..]);
      assert forall i | 1 <= i < |xs| :: xs[i] == xs[1..][i - 1];
      if FirstSome(xs).Some? {
        var i :| 0 <= i < |xs[1..]| && FirstSome(xs[1..]) == xs[1..][i]
                 && forall j | 0 <= j < i :: xs[1..][j].None?;
        assert forall j | 0 <= j < i + 1 :: xs[j].None?;
      }
    } else if xs != [] {
      assert FirstSome(xs) == xs[0];
    }
  }

  /** Trying `a` and then `b` is trying `a + b`. */
  lemma {:induction false} FirstSomeAppend<T>(a: seq<Option<T>>, b: seq<Option<T>>)
    ensures FirstSome(a + b) == if FirstSome(a).Some? then FirstSome(a) else FirstSome(b)
  {
    if a == [] {
      assert a + b == b;
    } else {
      assert (a + b)[0] == a[0];
      assert (a + b)[1..] == a[1..] + b;
      FirstSomeAppend(a[1..], b);
    }
  }

  /** One more candidate that fails the test still yields nothing. */
  lemma FirstMapExtend<A, B>(f: A -> Option<B>, tried: seq<A>, x: A)
    requires FirstSome(MapSeq(f, tried)) == None && f(x).None?
    ensures FirstSome(MapSeq(f, tried + [x])) == None
  {
    MapSeqAppend(f, tried, [x]);
    FirstSomeAppend(MapSeq(f, tried), MapSeq(f, [x]));
    assert MapSeq(f, [x]) == [f(x)];
  }

  /** After candidates that fail, the first that passes decides, whatever follows it. */
  lemma FirstMapFound<A, B>(f: A -> Option<B>, tried: seq<A>, x: A, rest: seq<A>)
    requires FirstSome(MapSeq(f, tried)) == None && f(x).Some?
    ensures FirstSome(MapSeq(f, tried + ([x] + rest))) == f(x)
  {
    MapSeqAppend(f, tried, [x] + rest);
    MapSeqAppend(f, [x], rest);
    assert MapSeq(f, [x]) == [f(x)];
    FirstSomeAppend(MapSeq(f, tried), MapSeq(f, [x] + rest));
  }

  /** Something passes the test exactly when a value is found, and the first that passes decides. */
  lemma FirstMapLeftmost<A, B>(f: A -> Option<B>, xs: seq<A>)
    ensures FirstSome(MapSeq(f, xs)).Some? <==> exists i | 0 <= i < |xs| :: f(xs[i]).Some?
    ensures FirstSome(MapSeq(f, xs)).Some? ==> exists i | 0 <= i < |xs| ::
              && FirstSome(MapSeq(f, xs)) == f(xs[i])
              && forall j | 0 <= j < i :: f(xs[j]).None?
  {
    var ys := MapSeq(f, xs);
    FirstSomeLeftmost(ys);
    assert forall i | 0 <= i < |xs| :: ys[i] == f(xs[i]);
    if FirstSome(ys).Some? {
      var i :| 0 <= i < |ys| && FirstSome(ys) == ys[i] && forall j | 0 <= j < i :: ys[j].None?;
      assert forall j | 0 <= j < i :: f(xs[j]).None?;
    }
  }

  /** The elements of every group, group after group. */
  function Flatten<T>(groups: seq<seq<T>>): seq<T> {
    if groups == [] then [] else groups[0] + Flatten(groups[1..])
  }

  lemma {:induction false} FlattenAppend<T>(a: seq<seq<T>>, b: seq<seq<T>>)
    ensures Flatten(a + b) == Flatten(a) + Flatten(b)
  {
    if a == [] {
      assert a + b == b;
    } else {
      assert (a + b)[1..] == a[1..] + b;
      FlattenAppend(a[1..], b);
    }
  }

  lemma FlattenStep<T>(groups: seq<seq<T>>, s: nat)
    requires s < |groups|
    ensures Flatten(groups[..s + 1]) == Flatten(groups[..s]) + groups[s]
  {
    assert groups[..s + 1] == groups[..s] + [groups[s]];
    FlattenAppend(groups[..s], [groups[s]]);
    assert Flatten([groups[s]]) == groups[s] + Flatten([]);
  }

  /** Where element `e` of group `s` sits in the flattened sequence. */
  lemma FlattenAt<T>(groups: seq<seq<T>>, s: nat, e: nat)
    requires s < |groups| && e < |groups[s]|
    ensures Flatten(groups)
         == (Flatten(groups[..s]) + groups[s][..e]) + ([groups[s][e]] + (groups[s][e + 1..] + Flatten(groups[s + 1..])))
  {
    FlattenStep(groups, s);
    FlattenAppend(groups[..s + 1], groups[s + 1..]);
    assert groups[..s + 1] + groups[s + 1..] == groups;
    var before, g, after := Flatten(groups[..s]), groups[s], Flatten(groups[s + 1..]);
    assert g == g[..e] + [g[e]] + g[e + 1..];
    assert before + g + after == (before + g[..e]) + ([g[e]] + (g[e + 1..] + after));
  }

  /**
   * A selector loop: each candidate in turn, returning the first value the
   * test yields, or none after the last candidate.
   */
  method FirstMatch<A, B>(test: A -> Option<B>, candidates: seq<A>) returns (r: Option<B>)
    ensures r == FirstSome(MapSeq(test, candidates))
  {
    var i := 0;
    while i < |candidates|
      invariant 0 <= i <= |candidates|
      invariant FirstSome(MapSeq(test, candidates[..i])) == None
    {
      var value := test(candidates[i]);
      if value.Some? {
        FirstMapFound(test, candidates[..i], candidates[i], candidates[i + 1..]);
        assert candidates[..i] + ([candidates[i]] + candidates[i + 1..]) == candidates;
        return value;
      }
      FirstMapExtend(test, candidates[..i], candidates[i]);
      assert candidates[..i + 1] == candidates[..i] + [candidates[i]];
      i := i + 1;
    }
    assert candidates[..i] == candidates;
    return None;
  }

  /**
   * Two nested loops (every element of every selector) with an early
   * return: the same search over the groups' elements, group after group.
   */
  method FirstMatchNested<A, B>(test: A -> Option<B>, groups: seq<seq<A>>) returns (r: Option<B>)
    ensures r == FirstSome(MapSeq(test, Flatten(groups)))
  {
    var s := 0;
    while s < |groups|
      invariant 0 <= s <= |groups|
      invariant FirstSome(MapSeq(test, Flatten(groups[..s]))) == None
    {
      var elements := groups[s];
      ghost var done := Flatten(groups[..s]);
      assert done + elements[..0] == done;
      var e := 0;
      while e < |elements|
        invariant 0 <= e <= |elements|
        invariant FirstSome(MapSeq(test, done + elements[..e])) == None
      {
        var value := test(elements[e]);
        ghost var tried := done + elements[..e];
        if value.Some? {
          FlattenAt(groups, s, e);
          FirstMapFound(test, tried, elements[e], elements[e + 1..] + Flatten(groups[s + 1..]));
          return value;
        }
        FirstMapExtend(test, tried, elements[e]);
        assert done + elements[..e + 1] == tried + [elements[e]];
        e := e + 1;
      }
      FlattenStep(groups, s);
      assert elements[..e] == elements;
      s := s + 1;
    }
    assert groups[..s] == groups;
    return None;
  }
}
