/** Small building blocks shared by every component model. */
module Common {
  datatype Option<+T> = None | Some(value: T)

  datatype Result<+T, +E> = Ok(value: T) | Err(error: E)

  /** The first argument unless it is absent (the source's `if value is not None`). */
  function OrElse<T>(o: Option<T>, default: T): T {
    match o case Some(v) => v case None => default
  }

  predicate Distinct<T(==)>(s: seq<T>) { forall i, j :: 0 <= i < j < |s| ==> s[i] != s[j] }

  lemma Regroup<T>(a: seq<T>, b: seq<T>, c: seq<T>)
    ensures (a + b) + c == a + (b + c)
  {
  }

  lemma TailOfSum<T>(a: seq<T>, b: seq<T>)
    requires a != []
    ensures (a + b)[0] == a[0] && (a + b)[1..] == a[1..] + b
  {
  }

  lemma SplitsBack<T>(a: seq<T>, b: seq<T>)
    ensures (a + b)[..|a|] == a && (a + b)[|a|..] == b
    ensures b != [] ==> (a + b)[|a|] == b[0] && (a + b)[|a| + 1..] == b[1..]
  {
  }

  predicate IsMax(s: set<nat>, m: nat) { m in s && forall x :: x in s ==> x <= m }

  /** Greatest element of a finite set of naturals; zero when it is empty. */
  function MaxOf(s: set<nat>): (m: nat)
    ensures forall x :: x in s ==> x <= m
    ensures s != {} ==> m in s
    ensures s == {} ==> m == 0
  {
    if s == {} then 0
    else
      HasMax(s);
      var m: nat :| IsMax(s, m);
      m
  }

  lemma {:induction false} HasMax(s: set<nat>)
    requires s != {}
    ensures exists m :: IsMax(s, m)
  {
    var x :| x in s;
    var rest := s - {x};
    if rest == {} {
      assert s == {x};
      assert IsMax(s, x);
    } else {
      HasMax(rest);
      var m :| IsMax(rest, m);
      assert s == rest + {x};
      assert IsMax(s, if x < m then m else x);
    }
  }
}
