/**
 The order of `std::string` keys, in which `std::map` is iterated.
 */
module Names {

  predicate Before(a: string, b: string) {
    b != "" && (a == "" || a[0] < b[0] || (a[0] == b[0] && Before(a[1..], b[1..])))
  }

  lemma {:induction false} BeforeIsStrict(a: string, b: string)
    ensures !(Before(a, b) && Before(b, a)) && !Before(a, a)
    decreases |a| + |b|
  {
    if a != "" && b != "" && a[0] == b[0] { BeforeIsStrict(a[1..], b[1..]); }
    if a != "" { BeforeIsStrict(a[1..], ""); IrreflexiveStep(a); }
  }

  lemma {:induction false} IrreflexiveStep(a: string)
    ensures !Before(a, a)
    decreases |a|
  {
    if a != "" { IrreflexiveStep(a[1..]); }
  }

  lemma {:induction false} BeforeIsTotal(a: string, b: string)
    ensures a == b || Before(a, b) || Before(b, a)
    decreases |a|
  {
    if a != "" && b != "" && a[0] == b[0] {
      BeforeIsTotal(a[1..], b[1..]);
      if a[1..] == b[1..] { assert a == [a[0]] + a[1..] == b; }
    }
  }

  lemma {:induction false} BeforeIsTransitive(a: string, b: string, c: string)
    requires Before(a, b) && Before(b, c)
    ensures Before(a, c)
    decreases |a|
  {
    if a != "" && a[0] == b[0] == c[0] { BeforeIsTransitive(a[1..], b[1..], c[1..]); }
  }

  /** The two names agree up to place `k`, where `a` ends or has the smaller character. */
  predicate SmallerAt(a: string, b: string, k: nat) {
    && k <= |a| && k < |b| && a[..k] == b[..k]
    && (k == |a| || a[k] < b[k])
  }

  lemma {:induction false} BeforeFrom(a: string, b: string, k: nat)
    requires SmallerAt(a, b, k)
    ensures Before(a, b)
    decreases k
  {
    if k > 0 {
      assert a[0] == a[..k][0] == b[..k][0] == b[0];
      assert a[1..][..k - 1] == a[..k][1..] && b[1..][..k - 1] == b[..k][1..];
      BeforeFrom(a[1..], b[1..], k - 1);
    }
  }

  /** It is the lexicographic order: what counts is the first place where the names differ. */
  lemma {:induction false} BeforeIsLexicographic(a: string, b: string)
    ensures Before(a, b) <==> exists k: nat :: SmallerAt(a, b, k)
    decreases |a|
  {
    if k: nat :| SmallerAt(a, b, k) { BeforeFrom(a, b, k); }
    if Before(a, b) {
      if a == "" || a[0] < b[0] {
        assert SmallerAt(a, b, 0);
      } else {
        BeforeIsLexicographic(a[1..], b[1..]);
        var k: nat :| SmallerAt(a[1..], b[1..], k);
        assert a[..k + 1] == [a[0]] + a[1..][..k] && b[..k + 1] == [b[0]] + b[1..][..k];
        assert SmallerAt(a, b, k + 1);
      }
    }
  }

  predicate IsLeast(x: string, names: set<string>) {
    x in names && forall y | y in names :: y == x || Before(x, y)
  }

  lemma {:induction false} LeastExists(names: set<string>)
    requires names != {}
    ensures exists least :: IsLeast(least, names)
    decreases |names|
  {
    var x :| x in names;
    var rest := names - {x};
    if rest == {} {
      assert names == {x} + rest;
      assert IsLeast(x, names);
    } else {
      LeastExists(rest);
      var y :| IsLeast(y, rest);
      BeforeIsTotal(x, y);
      if Before(y, x) {
        assert IsLeast(y, names);
      } else {
        forall z | z in names
          ensures z == x || Before(x, z)
        {
          if z != x && z != y { BeforeIsTransitive(x, y, z); }
        }
        assert IsLeast(x, names);
      }
    }
  }

  predicate Increasing(order: seq<string>) {
    forall i, k | 0 <= i < k < |order| :: Before(order[i], order[k])
  }

  /** The keys of a `std::map`, first to last. */
  ghost function InOrder(names: set<string>): seq<string>
    decreases |names|
  {
    if names == {} then []
    else
      LeastExists(names);
      var least :| IsLeast(least, names);
      [least] + InOrder(names - {least})
  }

  /** Every name occurs once. */
  lemma {:induction false} InOrderElements(names: set<string>)
    ensures |InOrder(names)| == |names|
    ensures forall x :: x in InOrder(names) <==> x in names
    ensures forall i, k | 0 <= i < k < |names| :: InOrder(names)[i] != InOrder(names)[k]
    decreases |names|
  {
    if names != {} {
      LeastExists(names);
      var order := InOrder(names);
      var rest := names - {order[0]};
      InOrderElements(rest);
      assert order == [order[0]] + InOrder(rest);
      forall i, k | 0 <= i < k < |names|
        ensures order[i] != order[k]
      {
        assert order[k] == InOrder(rest)[k - 1];
        assert InOrder(rest)[k - 1] in InOrder(rest);
        if i > 0 { assert order[i] == InOrder(rest)[i - 1]; }
      }
    }
  }

  lemma {:induction false} InOrderIncreases(names: set<string>)
    ensures Increasing(InOrder(names))
    decreases |names|
  {
    if names != {} {
      LeastExists(names);
      var order := InOrder(names);
      var rest := InOrder(names - {order[0]});
      InOrderIncreases(names - {order[0]});
      InOrderElements(names - {order[0]});
      forall i, k | 0 <= i < k < |order|
        ensures Before(order[i], order[k])
      {
        assert order[k] == rest[k - 1] && rest[k - 1] in rest;
        if i > 0 { assert order[i] == rest[i - 1]; }
      }
    }
  }

  /** There is only one increasing enumeration of a set of names. */
  lemma {:induction false} OrderIsUnique(names: set<string>, order: seq<string>)
    requires Increasing(order) && (forall x :: x in order <==> x in names)
    ensures order == InOrder(names)
    decreases |names|
  {
    InOrderElements(names);
    InOrderIncreases(names);
    if order == [] {
      assert names == {};
    } else {
      var expected := InOrder(names);
      assert order[0] in order;
      assert order[0] in names && expected[0] in names;
      FirstsAgree(order, expected);
      var rest := names - {order[0]};
      TailElements(names, order);
      TailElements(names, expected);
      OrderIsUnique(rest, order[1..]);
      OrderIsUnique(rest, expected[1..]);
      assert order == [order[0]] + order[1..] && expected == [expected[0]] + expected[1..];
    }
  }

  lemma FirstsAgree(a: seq<string>, b: seq<string>)
    requires a != [] && b != [] && Increasing(a) && Increasing(b)
    requires a[0] in b && b[0] in a
    ensures a[0] == b[0]
  {
    if a[0] != b[0] {
      var i :| 0 <= i < |b| && b[i] == a[0];
      var k :| 0 <= k < |a| && a[k] == b[0];
      BeforeIsStrict(a[0], b[0]);
    }
  }

  lemma TailElements(names: set<string>, order: seq<string>)
    requires order != [] && Increasing(order) && (forall x :: x in order <==> x in names)
    ensures Increasing(order[1..])
    ensures forall x :: x in order[1..] <==> x in names - {order[0]}
  {
    BeforeIsStrict(order[0], order[0]);
    forall x
      ensures x in order[1..] <==> x in names - {order[0]}
    {
      if x in names && x != order[0] {
        var i :| 0 <= i < |order| && order[i] == x;
        assert order[1..][i - 1] == x;
      }
    }
  }

  method Sorted(names: set<string>) returns (order: seq<string>)
    ensures order == InOrder(names)
  {
    order := [];
    var rest := names;
    while rest != {}
      invariant rest <= names && Increasing(order)
      invariant forall x :: x in order <==> x in names - rest
      invariant forall i, x | 0 <= i < |order| && x in rest :: Before(order[i], x)
      decreases rest
    {
      LeastExists(rest);
      ghost var witness' :| IsLeast(witness', rest);
      var least :| least in rest && forall y | y in rest :: y == least || Before(least, y);
      order, rest := order + [least], rest - {least};
    }
    OrderIsUnique(names, order);
  }
}
