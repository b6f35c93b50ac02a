/** Small shared vocabulary. */
module Common {

  datatype Option<+T> = None | Some(value: T)

  function Last<T>(s: seq<T>): T
    requires s != []
  {
    s[|s| - 1]
  }

  function Front<T>(s: seq<T>): seq<T>
    requires s != []
  {
    s[..|s| - 1]
  }

  lemma Associative<T>(a: seq<T>, b: seq<T>, c: seq<T>)
    ensures a + b + c == a + (b + c)
  {
  }

  /** What `f` picks from each element, in order. */
  function Gather<T, U>(s: seq<T>, f: T -> seq<U>): seq<U> {
    if s == [] then [] else Gather(Front(s), f) + f(Last(s))
  }

  lemma {:induction false} GatherConcat<T, U>(a: seq<T>, b: seq<T>, f: T -> seq<U>)
    ensures Gather(a + b, f) == Gather(a, f) + Gather(b, f)
  {
    if b == [] {
      assert a + b == a;
    } else {
      GatherConcat(a, Front(b), f);
      assert Front(a + b) == a + Front(b) && Last(a + b) == Last(b);
      Associative(Gather(a, f), Gather(Front(b), f), f(Last(b)));
    }
  }

  lemma NothingGathered<T, U>(f: T -> seq<U>)
    ensures Gather([], f) == []
  {
  }

  lemma GatherOne<T, U>(x: T, f: T -> seq<U>)
    ensures Gather([x], f) == f(x)
  {
    assert Front([x]) == [];
  }

  lemma GatherSnoc<T, U>(s: seq<T>, x: T, f: T -> seq<U>)
    ensures Gather(s + [x], f) == Gather(s, f) + f(x)
  {
    GatherConcat(s, [x], f);
    GatherOne(x, f);
  }

  lemma GatherFirst<T, U>(s: seq<T>, f: T -> seq<U>)
    requires s != []
    ensures Gather(s, f) == f(s[0]) + Gather(s[1..], f)
  {
    GatherConcat([s[0]], s[1..], f);
    GatherOne(s[0], f);
    assert s == [s[0]] + s[1..];
  }
}
