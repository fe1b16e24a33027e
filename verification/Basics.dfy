/** Helpers shared by every component of the model. */
module Basics {
  datatype Option<+T> = None | Some(value: T)

  /** Clock readings and durations, in milliseconds. */
  type Time = int

  predicate OccursAt(text: string, part: string, i: int) {
    0 <= i <= |text| - |part| && text[i..i + |part|] == part
  }

  predicate Contains(text: string, part: string) {
    exists i :: 0 <= i <= |text| - |part| && OccursAt(text, part, i)
  }

  /** A one-to-one image of a finite set is as large as the set. */
  lemma {:induction false} InjectiveImageSize<A(!new), B>(domain: set<A>, f: A --> B, image: set<B>)
    requires forall a :: a in domain ==> f.requires(a)
    requires forall a :: a in domain ==> f(a) in image
    requires forall b :: b in image ==> exists a :: a in domain && f(a) == b
    requires forall a, a' :: a in domain && a' in domain && f(a) == f(a') ==> a == a'
    ensures |image| == |domain|
  {
    if domain == {} {
      assert image == {};
    } else {
      var a :| a in domain;
      var smaller := domain - {a};
      forall b | b in image - {f(a)} ensures exists a' :: a' in smaller && f(a') == b {
        var a' :| a' in domain && f(a') == b;
        assert a' in smaller;
      }
      InjectiveImageSize(smaller, f, image - {f(a)});
    }
  }

  lemma SubsetSize<T>(small: set<T>, big: set<T>)
    requires small <= big
    ensures |small| <= |big|
    ensures |small| == |big| ==> small == big
  {
    assert big == small + (big - small);
    if small != big {
      var x :| x in big - small;
      assert |big - small| >= 1;
    }
  }

  lemma SingletonSet<T>(s: set<T>, x: T)
    requires x in s && |s| <= 1
    ensures s == {x}
  {
    SubsetSize({x}, s);
  }

  /** A set of two or more is not used up by taking one member out. */
  lemma OthersRemain<T>(s: set<T>, x: T)
    requires |s| >= 2
    ensures s - {x} != {}
  {
    assert |s - {x}| >= |s| - 1;
  }

  /** Some number exceeds every member of a finite set. */
  lemma {:induction false} UpperBound(s: set<nat>) returns (bound: nat)
    ensures forall x :: x in s ==> x < bound
  {
    bound := 0;
    var rest := s;
    while rest != {}
      invariant rest <= s
      invariant forall x :: x in s && x !in rest ==> x < bound
    {
      var x :| x in rest;
      bound := if bound <= x then x + 1 else bound;
      rest := rest - {x};
    }
  }

  /** A non-empty finite set of numbers has a least member. */
  lemma {:induction false} LeastMember(s: set<nat>) returns (least: nat)
    requires s != {}
    ensures least in s && forall x :: x in s ==> least <= x
  {
    var some :| some in s;
    var smaller := set y | y in s && y < some;
    if smaller == {} {
      least := some;
      assert forall x :: x in s && x < some ==> x in smaller;
    } else {
      assert some !in smaller && smaller < s;
      least := LeastMember(smaller);
      forall x | x in s ensures least <= x {
        if x < some { assert x in smaller; }
      }
    }
  }

  /** And a greatest. */
  lemma {:induction false} GreatestMember(s: set<nat>) returns (greatest: nat)
    requires s != {}
    ensures greatest in s && forall x :: x in s ==> x <= greatest
  {
    var some :| some in s;
    var greater := set y | y in s && y > some;
    if greater == {} {
      greatest := some;
      assert forall x :: x in s && x > some ==> x in greater;
    } else {
      assert some !in greater && greater < s;
      greatest := GreatestMember(greater);
      forall x | x in s ensures x <= greatest {
        if x > some { assert x in greater; }
      }
    }
  }
}
