/** Error kinds and the failure-compatible Result and Option types shared by every module. */
module Wrappers {

  /** The exceptions the modelled code raises: g-sorcery's own hierarchy
      (g_sorcery/exceptions.py) and the Python built-ins it lets escape. */
  datatype Error =
    | DBError
    | DBLayoutError
    | DBStructureError
    | InvalidKeyError
    | SyncError
    | IntegrityError
    | FileJSONError
    | XMLGeneratorError
    | DependencyError
    | TypeError
    | KeyError
    | IndexError
    | ValueError
    | AttributeError
    | ImportError
    | IOError

  /** Every error kind in a fixed order; PickError uses it to report one of several failures. */
  const AllErrors: seq<Error> :=
    [DBError, DBLayoutError, DBStructureError, InvalidKeyError, SyncError, IntegrityError,
     FileJSONError, XMLGeneratorError, DependencyError, TypeError, KeyError, IndexError,
     ValueError, AttributeError, ImportError, IOError]

  lemma AllErrorsListed(e: Error)
    ensures e in AllErrors
  {
  }

  /** One error out of a non-empty set of errors, the first in AllErrors order. */
  function PickError(errs: set<Error>): (e: Error)
    requires errs != {}
    ensures e in errs
  {
    var someErr :| someErr in errs;
    AllErrorsListed(someErr);
    PickFrom(AllErrors, errs)
  }

  function PickFrom(order: seq<Error>, errs: set<Error>): (e: Error)
    requires exists x :: x in order && x in errs
    ensures e in errs && e in order
  {
    if order[0] in errs then order[0] else PickFrom(order[1..], errs)
  }

  datatype Option<+T> = None | Some(value: T)

  datatype Result<+T> = Ok(value: T) | Err(error: Error) {
    predicate IsFailure() { Err? }

    function PropagateFailure<U>(): Result<U>
      requires Err?
    {
      Err(error)
    }

    function Extract(): T
      requires Ok?
    {
      value
    }
  }

  /** f on every element, in order; the first failure stops the walk. */
  function MapAll<T, U>(f: T -> Result<U>, xs: seq<T>): (r: Result<seq<U>>)
    ensures r.Ok? ==> |r.value| == |xs|
    decreases |xs|
  {
    if |xs| == 0 then Ok([])
    else
      var first :- f(xs[0]);
      var rest :- MapAll(f, xs[1..]);
      Ok([first] + rest)
  }

  lemma MapAllOne<T, U>(f: T -> Result<U>, x: T)
    ensures MapAll(f, [x]) == if f(x).Ok? then Ok([f(x).value]) else Err(f(x).error)
  {
    assert [x][0] == x && [x][1..] == [];
    if f(x).Ok? {
      assert [f(x).value] + [] == [f(x).value];
    }
  }

  /** Walking two lists one after the other. */
  lemma {:induction false} MapAllConcat<T, U>(f: T -> Result<U>, a: seq<T>, b: seq<T>)
    ensures MapAll(f, a).Err? ==> MapAll(f, a + b) == MapAll(f, a)
    ensures MapAll(f, a).Ok? && MapAll(f, b).Err? ==> MapAll(f, a + b) == MapAll(f, b)
    ensures MapAll(f, a).Ok? && MapAll(f, b).Ok? ==> MapAll(f, a + b) == Ok(MapAll(f, a).value + MapAll(f, b).value)
    decreases |a|
  {
    if |a| == 0 {
      assert a + b == b;
      if MapAll(f, b).Ok? {
        assert [] + MapAll(f, b).value == MapAll(f, b).value;
      }
    } else {
      assert (a + b)[0] == a[0] && (a + b)[1..] == a[1..] + b;
      MapAllConcat(f, a[1..], b);
      if MapAll(f, a).Ok? && MapAll(f, b).Ok? {
        var x := MapAll(f, a).value;
        assert x == [x[0]] + x[1..];
        assert [x[0]] + (x[1..] + MapAll(f, b).value) == x + MapAll(f, b).value;
      }
    }
  }

  /** Extending a walk that succeeded so far by one more element. */
  lemma MapAllSnoc<T, U>(f: T -> Result<U>, xs: seq<T>, i: nat, done: seq<U>)
    requires i < |xs| && MapAll(f, xs[..i]) == Ok(done)
    ensures f(xs[i]).Ok? ==> MapAll(f, xs[..i + 1]) == Ok(done + [f(xs[i]).value])
    ensures f(xs[i]).Err? ==> MapAll(f, xs) == Err(f(xs[i]).error)
  {
    if f(xs[i]).Ok? {
      MapAllSnocOk(f, xs, i);
    } else {
      MapAllSnocErr(f, xs, i);
    }
  }

  lemma MapAllSnocOk<T, U>(f: T -> Result<U>, xs: seq<T>, i: nat)
    requires i < |xs| && MapAll(f, xs[..i]).Ok? && f(xs[i]).Ok?
    ensures MapAll(f, xs[..i + 1]) == Ok(MapAll(f, xs[..i]).value + [f(xs[i]).value])
  {
    assert xs[..i + 1] == xs[..i] + [xs[i]];
    MapAllAppendOne(f, xs[..i], xs[i]);
  }

  lemma MapAllSnocErr<T, U>(f: T -> Result<U>, xs: seq<T>, i: nat)
    requires i < |xs| && MapAll(f, xs[..i]).Ok? && f(xs[i]).Err?
    ensures MapAll(f, xs) == Err(f(xs[i]).error)
  {
    assert xs[..i + 1] == xs[..i] + [xs[i]];
    MapAllAppendOne(f, xs[..i], xs[i]);
    MapAllPrefixErr(f, xs, i + 1);
  }

  lemma MapAllAppendOne<T, U>(f: T -> Result<U>, a: seq<T>, x: T)
    requires MapAll(f, a).Ok?
    ensures f(x).Ok? ==> MapAll(f, a + [x]) == Ok(MapAll(f, a).value + [f(x).value])
    ensures f(x).Err? ==> MapAll(f, a + [x]) == Err(f(x).error)
  {
    MapAllOne(f, x);
    MapAllConcat(f, a, [x]);
  }

  /** A walk that fails on a prefix fails the same way on the whole list. */
  lemma MapAllPrefixErr<T, U>(f: T -> Result<U>, xs: seq<T>, n: nat)
    requires n <= |xs| && MapAll(f, xs[..n]).Err?
    ensures MapAll(f, xs) == MapAll(f, xs[..n])
  {
    assert xs == xs[..n] + xs[n..];
    MapAllConcat(f, xs[..n], xs[n..]);
  }

  /** A walk succeeds exactly when f succeeds on every element, and then holds f's
      results in order. */
  lemma {:induction false} MapAllPointwise<T, U>(f: T -> Result<U>, xs: seq<T>)
    ensures MapAll(f, xs).Ok? <==> forall k :: 0 <= k < |xs| ==> f(xs[k]).Ok?
    ensures MapAll(f, xs).Ok? ==> forall k :: 0 <= k < |xs| ==> MapAll(f, xs).value[k] == f(xs[k]).value
    decreases |xs|
  {
    if |xs| > 0 {
      MapAllPointwise(f, xs[1..]);
      assert forall k :: 1 <= k < |xs| ==> xs[1..][k - 1] == xs[k];
    }
  }

  /** Taking one element out of what is left of a set adds it to what is done. */
  lemma RemovedOne<T>(all: set<T>, todo: set<T>, x: T)
    requires todo <= all && x in todo
    ensures all - (todo - {x}) == (all - todo) + {x}
  {
  }

  /** Concatenation is associative. */
  lemma SeqAssoc<T>(a: seq<T>, b: seq<T>, c: seq<T>)
    ensures a + b + c == a + (b + c)
  {
  }

  /** Two maps with the same keys and the same values are equal. */
  lemma SameMaps<K, V>(a: map<K, V>, b: map<K, V>)
    requires a.Keys == b.Keys && forall k :: k in a ==> a[k] == b[k]
    ensures a == b
  {
  }
}
