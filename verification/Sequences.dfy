// Shared vocabulary: options, list combinators and counting over sequences.

module Sequences {

  datatype Option<+T> = None | Some(value: T)

  lemma ConcatAssoc<A>(a: seq<A>, b: seq<A>, c: seq<A>)
    ensures a + (b + c) == (a + b) + c
  {
  }

  // ---------------------------------------------------------------- mapping

  function Map<A, B>(f: A -> B, s: seq<A>): (r: seq<B>)
    ensures |r| == |s|
    ensures forall i :: 0 <= i < |s| ==> r[i] == f(s[i])
  {
    if s == [] then [] else [f(s[0])] + Map(f, s[1..])
  }

  lemma {:induction false} MapAppend<A, B>(f: A -> B, s: seq<A>, t: seq<A>)
    ensures Map(f, s + t) == Map(f, s) + Map(f, t)
  {
  }

  // The values that f accepts, in order.
  function FilterMap<A, B>(f: A -> Option<B>, s: seq<A>): (r: seq<B>)
    ensures |r| <= |s|
  {
    if s == [] then []
    else
      var rest := FilterMap(f, s[1..]);
      match f(s[0])
      case None => rest
      case Some(b) => [b] + rest
  }

  function AsSeq<B>(o: Option<B>): seq<B> { if o.Some? then [o.value] else [] }

  lemma FilterMapStep<A, B>(f: A -> Option<B>, s: seq<A>, x: A, rest: seq<A>)
    requires s != [] && s[0] == x && s[1..] == rest
    ensures FilterMap(f, s) == AsSeq(f(x)) + FilterMap(f, rest)
  {
  }

  lemma {:induction false} FilterMapAppend<A, B>(f: A -> Option<B>, s: seq<A>, t: seq<A>)
    ensures FilterMap(f, s + t) == FilterMap(f, s) + FilterMap(f, t)
  {
    if s == [] {
      assert s + t == t;
    } else {
      FilterMapAppend(f, s[1..], t);
      assert (s + t)[1..] == s[1..] + t;
      FilterMapStep(f, s + t, s[0], s[1..] + t);
      FilterMapStep(f, s, s[0], s[1..]);
      ConcatAssoc(AsSeq(f(s[0])), FilterMap(f, s[1..]), FilterMap(f, t));
    }
  }

  lemma {:induction false} FilterMapKeeps<A, B>(f: A -> Option<B>, s: seq<A>, i: nat)
    requires i < |s| && f(s[i]).Some?
    ensures f(s[i]).value in FilterMap(f, s)
  {
    if i > 0 {
      FilterMapKeeps(f, s[1..], i - 1);
    }
  }

  // ------------------------------------------------------------- flattening

  function Flatten<A>(ss: seq<seq<A>>): seq<A> {
    if ss == [] then [] else ss[0] + Flatten(ss[1..])
  }

  lemma {:induction false} FlattenAppend<A>(s: seq<seq<A>>, t: seq<seq<A>>)
    ensures Flatten(s + t) == Flatten(s) + Flatten(t)
  {
    if s == [] {
      assert s + t == t;
    } else {
      FlattenAppend(s[1..], t);
      assert (s + t)[0] == s[0] && (s + t)[1..] == s[1..] + t;
      ConcatAssoc(s[0], Flatten(s[1..]), Flatten(t));
    }
  }

  lemma FlattenSnoc<A>(s: seq<seq<A>>, x: seq<A>)
    ensures Flatten(s + [x]) == Flatten(s) + x
  {
    FlattenAppend(s, [x]);
    assert Flatten([x]) == x;
  }

  // A member of the list occurs in the flattening as one contiguous block.
  lemma {:induction false} FlattenContains<A>(ss: seq<seq<A>>, x: seq<A>)
    requires x in ss
    ensures exists pre, post :: Flatten(ss) == pre + x + post
  {
    var i :| 0 <= i < |ss| && ss[i] == x;
    FlattenAppend(ss[..i], ss[i..]);
    assert ss == ss[..i] + ss[i..];
    assert Flatten(ss) == Flatten(ss[..i]) + x + Flatten(ss[i..][1..]);
  }

  // --------------------------------------------------------------- counting

  function Bit(b: bool): nat { if b then 1 else 0 }

  // How many elements satisfy p.
  function Count<A>(p: A -> bool, s: seq<A>): (n: nat)
    ensures n <= |s|
  {
    if s == [] then 0 else Bit(p(s[0])) + Count(p, s[1..])
  }

  lemma {:induction false} CountUpdate<A>(p: A -> bool, s: seq<A>, i: nat, x: A)
    requires i < |s|
    ensures Count(p, s[i := x]) == Count(p, s) - Bit(p(s[i])) + Bit(p(x))
  {
    if i == 0 {
      assert s[i := x][1..] == s[1..];
    } else {
      CountUpdate(p, s[1..], i - 1, x);
      assert s[i := x][1..] == s[1..][i - 1 := x];
    }
  }

  lemma {:induction false} CountAppend<A>(p: A -> bool, s: seq<A>, t: seq<A>)
    ensures Count(p, s + t) == Count(p, s) + Count(p, t)
  {
    if s == [] {
      assert s + t == t;
    } else {
      CountAppend(p, s[1..], t);
      assert (s + t)[1..] == s[1..] + t;
    }
  }

  lemma CountSnoc<A>(p: A -> bool, s: seq<A>, i: nat)
    requires i < |s|
    ensures Count(p, s[..i + 1]) == Count(p, s[..i]) + Bit(p(s[i]))
  {
    assert s[..i + 1] == s[..i] + [s[i]];
    CountAppend(p, s[..i], [s[i]]);
    assert [s[i]][1..] == [];
  }

  // Zero exactly when nobody satisfies p; the full length exactly when everybody does.
  lemma {:induction false} CountExtremes<A>(p: A -> bool, s: seq<A>)
    ensures Count(p, s) == 0 <==> forall i :: 0 <= i < |s| ==> !p(s[i])
    ensures Count(p, s) == |s| <==> forall i :: 0 <= i < |s| ==> p(s[i])
  {
    if s != [] {
      CountExtremes(p, s[1..]);
      assert s == [s[0]] + s[1..];
      assert (forall i :: 0 <= i < |s| ==> p(s[i])) ==> (forall i :: 0 <= i < |s[1..]| ==> p(s[1..][i])) by {
        assert forall i :: 0 <= i < |s[1..]| ==> s[1..][i] == s[i + 1];
      }
      assert (forall i :: 0 <= i < |s| ==> !p(s[i])) ==> (forall i :: 0 <= i < |s[1..]| ==> !p(s[1..][i])) by {
        assert forall i :: 0 <= i < |s[1..]| ==> s[1..][i] == s[i + 1];
      }
    }
  }

  // Pointwise implication is monotone in the count.
  lemma {:induction false} CountMonotone<A>(p: A -> bool, q: A -> bool, s: seq<A>)
    requires forall i :: 0 <= i < |s| && p(s[i]) ==> q(s[i])
    ensures Count(p, s) <= Count(q, s)
  {
    if s != [] {
      assert forall i :: 0 <= i < |s[1..]| ==> s[1..][i] == s[i + 1];
      CountMonotone(p, q, s[1..]);
    }
  }

  // ---------------------------------------------------------------- summing

  function Sum<A>(f: A -> int, s: seq<A>): int {
    if s == [] then 0 else f(s[0]) + Sum(f, s[1..])
  }

  lemma {:induction false} SumSame<A>(f: A -> int, g: A -> int, s: seq<A>)
    requires forall i :: 0 <= i < |s| ==> f(s[i]) == g(s[i])
    ensures Sum(f, s) == Sum(g, s)
  {
    if s != [] {
      assert forall i :: 0 <= i < |s[1..]| ==> s[1..][i] == s[i + 1];
      SumSame(f, g, s[1..]);
    }
  }

  lemma {:induction false} SumUpdate<A>(f: A -> int, s: seq<A>, i: nat, x: A)
    requires i < |s|
    ensures Sum(f, s[i := x]) == Sum(f, s) - f(s[i]) + f(x)
  {
    if i == 0 {
      assert s[i := x][1..] == s[1..];
    } else {
      SumUpdate(f, s[1..], i - 1, x);
      assert s[i := x][1..] == s[1..][i - 1 := x];
    }
  }

  lemma {:induction false} SumAppend<A>(f: A -> int, s: seq<A>, t: seq<A>)
    ensures Sum(f, s + t) == Sum(f, s) + Sum(f, t)
  {
    if s == [] {
      assert s + t == t;
    } else {
      SumAppend(f, s[1..], t);
      assert (s + t)[1..] == s[1..] + t;
    }
  }
}
