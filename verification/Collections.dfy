/** What the other modules share: sequences seen as sets, sets put in some order, sizes and slices. */
module Collections {
  function Min(a: nat, b: nat): nat { if a < b then a else b }

  lemma SubsetSize<T>(a: set<T>, b: set<T>)
    requires a <= b
    ensures |a| <= |b|
  {
    assert b == a + (b - a);
  }

  lemma SameSize<T>(a: set<T>, b: set<T>)
    requires a <= b && |a| == |b|
    ensures a == b
  {
    assert b == a + (b - a);
  }

  /** An injective image is as large as what it is the image of. */
  lemma {:induction false} ImageSize<A, B>(items: set<A>, f: A -> B, image: set<B>)
    requires image == set x | x in items :: f(x)
    requires forall x, y :: x in items && y in items && f(x) == f(y) ==> x == y
    ensures |image| == |items|
  {
    if items != {} {
      var x :| x in items;
      var rest := items - {x};
      var others := set y | y in rest :: f(y);
      ImageSize(rest, f, others);
      assert image == others + {f(x)};
    }
  }

  lemma Regroup<T>(a: seq<T>, b: seq<T>, c: seq<T>)
    ensures a + b + c == a + (b + c)
  {
  }

  lemma TailFirst<T>(items: seq<T>, i: nat)
    requires i < |items|
    ensures items[i..] == [items[i]] + items[i + 1..]
  {
  }

  lemma TakeFirst<T>(a: seq<T>, b: seq<T>)
    requires a != []
    ensures a == [a[0]] + a[1..] && a + b == [a[0]] + (a[1..] + b)
  {
    var whole, parts := a + b, [a[0]] + (a[1..] + b);
    forall i | 0 <= i < |whole| ensures whole[i] == parts[i] {
    }
  }

  lemma PrefixMore<T>(items: seq<T>, i: nat)
    requires i < |items|
    ensures items[..i + 1] == items[..i] + [items[i]]
  {
  }

  lemma SplitAt<T>(data: seq<T>, i: nat, j: nat, k: nat)
    requires i <= j <= k <= |data|
    ensures data[i..k] == data[i..j] + data[j..k]
  {
  }

  function Elements<T>(items: seq<T>): set<T> {
    set i | i in items
  }

  ghost predicate Distinct<T>(items: seq<T>) {
    forall i, j :: 0 <= i < j < |items| ==> items[i] != items[j]
  }

  lemma ExtendElements<T>(items: seq<T>, i: T)
    ensures Elements(items + [i]) == Elements(items) + {i}
  {
    assert forall x :: x in items + [i] <==> x in items || x == i;
  }

  lemma TakeOneMore<T>(items: seq<T>, i: nat)
    requires i < |items| && Distinct(items)
    ensures items[i] in Elements(items)
    ensures items[i] !in Elements(items[..i])
    ensures Elements(items[..i + 1]) == Elements(items[..i]) + {items[i]}
  {
    assert items[..i + 1] == items[..i] + [items[i]];
  }

  /** Any duplicate-free enumeration; the sorted orders of the source are among them. */
  method Enumerate<T(==)>(items: set<T>) returns (order: seq<T>)
    ensures Distinct(order) && Elements(order) == items
  {
    order := [];
    var rest := items;
    while rest != {}
      invariant rest <= items && Distinct(order) && Elements(order) == items - rest
      decreases rest
    {
      var i :| i in rest;
      ExtendElements(order, i);
      rest := rest - {i};
      order := order + [i];
    }
  }

  lemma {:induction false} DistinctBySize<T>(items: seq<T>)
    ensures Distinct(items) <==> |items| == |Elements(items)|
    ensures |Elements(items)| <= |items|
  {
    if items != [] {
      var n := |items| - 1;
      DistinctBySize(items[..n]);
      assert items == items[..n] + [items[n]];
      ExtendElements(items[..n], items[n]);
    } else {
      assert Elements(items) == {};
    }
  }
}
