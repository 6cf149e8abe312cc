/** Outcome types shared by the whole model: a missing value (Python's None) and a
  * value-or-exception (a Python call that may raise). */
module Wrappers {
  datatype Option<T> = None | Some(value: T)

  datatype Result<T, E> = Ok(value: T) | Err(error: E)
  {
    predicate IsOk() { this.Ok? }
  }

  /** The Python exceptions the model's operations can raise; a
    * `ValidationError` is pydantic's refusal of a field value. */
  datatype PyError = ValueError | ZeroDivisionError | IndexError | UnboundLocalError | FileNotFoundError | ValidationError

  /** A loop that collects the values of `rs` in order and raises at the first
    * error. */
  function Collect<T, E>(rs: seq<Result<T, E>>): (r: Result<seq<T>, E>)
    ensures r.Err? ==> exists k | 0 <= k < |rs| :: rs[k] == Err(r.error)
  {
    if rs == [] then Ok([])
    else
      match Collect(rs[..|rs| - 1])
      case Err(e) => Err(e)
      case Ok(vs) =>
        match rs[|rs| - 1]
        case Err(e) => Err(e)
        case Ok(v) => Ok(vs + [v])
  }

  /** Collecting succeeds with one value per result, in order. */
  lemma {:induction false} CollectContents<T, E>(rs: seq<Result<T, E>>)
    requires Collect(rs).Ok?
    ensures var vs := Collect(rs).value;
      |vs| == |rs| && forall k | 0 <= k < |rs| :: rs[k] == Ok(vs[k])
  {
    if rs != [] {
      var init := rs[..|rs| - 1];
      CollectContents(init);
      var vs := Collect(rs).value;
      forall k | 0 <= k < |rs| ensures rs[k] == Ok(vs[k]) {
        if k < |init| {
          assert init[k] == rs[k];
        }
      }
    }
  }

  /** Collecting fails exactly when some result is an error. */
  lemma {:induction false} CollectFails<T, E>(rs: seq<Result<T, E>>)
    ensures Collect(rs).Err? <==> exists k | 0 <= k < |rs| :: rs[k].Err?
  {
    if rs != [] {
      var init := rs[..|rs| - 1];
      CollectFails(init);
      if Collect(init).Ok? && rs[|rs| - 1].Ok? {
        forall k | 0 <= k < |rs| ensures rs[k].Ok? {
          if k < |init| {
            assert init[k] == rs[k];
          }
        }
      } else if Collect(init).Err? {
        var k :| 0 <= k < |init| && init[k].Err?;
        assert rs[k] == init[k];
      }
    }
  }

  /** One more result: its value is appended, or its error is raised. */
  lemma CollectStep<T, E>(rs: seq<Result<T, E>>, i: nat)
    requires i < |rs| && Collect(rs[..i]).Ok?
    ensures rs[i].Ok? ==> Collect(rs[..i + 1]) == Ok(Collect(rs[..i]).value + [rs[i].value])
    ensures rs[i].Err? ==> Collect(rs[..i + 1]) == Err(rs[i].error)
  {
    assert rs[..i + 1][..i] == rs[..i];
  }

  /** Once a prefix fails, the whole sequence fails with the same error. */
  lemma {:induction false} CollectErrSticks<T, E>(rs: seq<Result<T, E>>, i: nat)
    requires i <= |rs| && Collect(rs[..i]).Err?
    ensures Collect(rs) == Collect(rs[..i])
    decreases |rs|
  {
    if i == |rs| {
      assert rs[..i] == rs;
    } else {
      var init := rs[..|rs| - 1];
      assert init[..i] == rs[..i];
      CollectErrSticks(init, i);
    }
  }

  /** The values of the present entries, in order: a loop that appends what a
    * parser returns unless it returns None. */
  function Somes<T>(xs: seq<Option<T>>): (r: seq<T>)
    ensures |r| <= |xs|
  {
    if xs == [] then []
    else Somes(xs[..|xs| - 1]) + (match xs[|xs| - 1] case Some(v) => [v] case None => [])
  }

  /** A value is kept exactly when some entry holds it. */
  lemma {:induction false} SomesMembers<T>(xs: seq<Option<T>>)
    ensures forall v :: v in Somes(xs) <==> Some(v) in xs
  {
    if xs != [] {
      var init := xs[..|xs| - 1];
      SomesMembers(init);
      assert xs == init + [xs[|xs| - 1]];
    }
  }

  /** Every entry is kept, in order, when none is missing. */
  lemma {:induction false} SomesAll<T>(xs: seq<Option<T>>)
    requires forall k | 0 <= k < |xs| :: xs[k].Some?
    ensures |Somes(xs)| == |xs|
    ensures forall k | 0 <= k < |xs| :: Somes(xs)[k] == xs[k].value
  {
    if xs != [] {
      SomesAll(xs[..|xs| - 1]);
    }
  }

  /** One more entry: its value, if present, is kept last. */
  lemma SomesSnoc<T>(xs: seq<Option<T>>, i: nat)
    requires i < |xs|
    ensures Somes(xs[..i + 1]) == Somes(xs[..i]) + (match xs[i] case Some(v) => [v] case None => [])
  {
    assert xs[..i + 1][..i] == xs[..i];
  }

  // Sequence facts, stated once over any element type so that a proof about
  // a particular sequence does not redo the extensional reasoning.

  /** A non-empty sequence is its head followed by its tail. */
  lemma HeadTail<T>(s: seq<T>)
    requires |s| > 0
    ensures [s[0]] + s[1..] == s
  {
  }

  /** A property of every element survives putting one more element in front. */
  lemma AllCons<T>(x: T, xs: seq<T>, P: T -> bool)
    requires P(x) && forall k | 0 <= k < |xs| :: P(xs[k])
    ensures forall k | 0 <= k < |[x] + xs| :: P(([x] + xs)[k])
  {
    forall k | 0 <= k < |[x] + xs|
      ensures P(([x] + xs)[k])
    {
      if k > 0 {
        assert ([x] + xs)[k] == xs[k - 1];
      }
    }
  }

  /** Growing a prefix by one element. */
  lemma PrefixStep<T>(s: seq<T>, i: nat)
    requires i < |s|
    ensures s[..i + 1][..i] == s[..i] && s[..i + 1] == s[..i] + [s[i]]
  {
  }

  /** The last element of `a + b` is the last of `b`, and what precedes it is
    * `a` followed by the rest of `b`. */
  lemma DropLastOfAppend<T>(a: seq<T>, b: seq<T>)
    requires |b| > 0
    ensures (a + b)[..|a + b| - 1] == a + b[..|b| - 1]
    ensures (a + b)[|a + b| - 1] == b[|b| - 1]
  {
  }

  /** The images of the elements under `f`, concatenated in order: a loop that
    * extends one output list element by element. */
  function ConcatMap<A, B>(xs: seq<A>, f: A -> seq<B>): seq<B>
    decreases |xs|
  {
    if |xs| == 0 then [] else ConcatMap(xs[..|xs| - 1], f) + f(xs[|xs| - 1])
  }

  lemma ConcatMapSnoc<A, B>(xs: seq<A>, x: A, f: A -> seq<B>)
    ensures ConcatMap(xs + [x], f) == ConcatMap(xs, f) + f(x)
  {
    assert (xs + [x])[..|xs|] == xs;
  }

  /** The images of `a + b` are those of `a` followed by those of `b`. */
  lemma {:induction false} ConcatMapAppend<A, B>(a: seq<A>, b: seq<A>, f: A -> seq<B>)
    ensures ConcatMap(a + b, f) == ConcatMap(a, f) + ConcatMap(b, f)
    decreases |b|
  {
    if |b| == 0 {
      assert a + b == a;
    } else {
      var init, last := b[..|b| - 1], b[|b| - 1];
      DropLastOfAppend(a, b);
      ConcatMapAppend(a, init, f);
      var x, y, z := ConcatMap(a, f), ConcatMap(init, f), f(last);
      assert (x + y) + z == x + (y + z);
    }
  }

  /** `f` applied to each element, in order. */
  function Mapped<A, B>(xs: seq<A>, f: A -> B): (ys: seq<B>)
    ensures |ys| == |xs| && forall k | 0 <= k < |xs| :: ys[k] == f(xs[k])
  {
    seq(|xs|, k requires 0 <= k < |xs| => f(xs[k]))
  }
}
