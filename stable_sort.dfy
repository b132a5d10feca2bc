/** Python's `sorted(deals, key=price)`: an ascending, stable sort of deals by price.
    Stability is stated per price: the deals of each price appear in the output in
    the order they had in the input. */
module StableSort {
  import opened Prices

  /** Prices never decrease along `r`. */
  predicate SortedByPrice(r: seq<Deal>)
  {
    forall i, j :: 0 <= i < j < |r| ==> r[i].price <= r[j].price
  }

  /** The deals of `s` whose price is `p`, in their order in `s`. */
  function WithPrice(s: seq<Deal>, p: Price): (r: seq<Deal>)
    ensures |r| <= |s|
  {
    if s == [] then []
    else (if s[0].price == p then [s[0]] else []) + WithPrice(s[1..], p)
  }

  /** The first deal of a sequence heads the deals of its own price. */
  lemma WithPriceHead(r: seq<Deal>, p: Price)
    requires r != []
    ensures WithPrice(r, p) == (if r[0].price == p then [r[0]] else []) + WithPrice(r[1..], p)
  {
  }

  /** A deal is among the deals of price `p` exactly when it is in `s` at that price. */
  lemma {:induction false} WithPriceMember(s: seq<Deal>, p: Price, d: Deal)
    ensures d in WithPrice(s, p) <==> d in s && d.price == p
  {
    if s != [] {
      WithPriceMember(s[1..], p, d);
      assert s == [s[0]] + s[1..];
    }
  }

  /** Filtering by price keeps every copy of a deal of that price and no other deal. */
  lemma {:induction false} WithPriceCount(s: seq<Deal>, p: Price, d: Deal)
    ensures multiset(WithPrice(s, p))[d] == if d.price == p then multiset(s)[d] else 0
  {
    if s != [] {
      WithPriceCount(s[1..], p, d);
      assert s == [s[0]] + s[1..];
      assert multiset(s) == multiset{s[0]} + multiset(s[1..]);
      var head := if s[0].price == p then [s[0]] else [];
      assert multiset(WithPrice(s, p)) == multiset(head) + multiset(WithPrice(s[1..], p));
    }
  }

  /** Two sequences with the same deals at every price are permutations of each other. */
  lemma StablePermutation(r: seq<Deal>, s: seq<Deal>)
    requires forall p :: WithPrice(r, p) == WithPrice(s, p)
    ensures multiset(r) == multiset(s)
  {
    forall d
      ensures multiset(r)[d] == multiset(s)[d]
    {
      WithPriceCount(r, d.price, d);
      WithPriceCount(s, d.price, d);
    }
  }

  /** Inserts `d` in front of the first deal whose price is not below its own. */
  function Insert(d: Deal, r: seq<Deal>): (t: seq<Deal>)
    ensures |t| == |r| + 1
  {
    if r == [] || d.price <= r[0].price then [d] + r
    else [r[0]] + Insert(d, r[1..])
  }

  /** The deals after insertion are `d` and those of `r`. */
  lemma {:induction false} InsertMember(d: Deal, r: seq<Deal>, x: Deal)
    ensures x in Insert(d, r) <==> x == d || x in r
  {
    if r != [] && d.price > r[0].price {
      InsertMember(d, r[1..], x);
      assert Insert(d, r) == [r[0]] + Insert(d, r[1..]);
      assert r == [r[0]] + r[1..];
    }
  }

  /** `d` goes right after the leading deals that are cheaper than it: the deals
      before position `k` stay, `d` is at `k`, and the rest move up by one. */
  lemma {:induction false} InsertAt(d: Deal, r: seq<Deal>, k: nat)
    requires k <= |r|
    requires forall i :: 0 <= i < k ==> r[i].price < d.price
    requires k < |r| ==> d.price <= r[k].price
    ensures Insert(d, r)[k] == d
    ensures forall i :: 0 <= i < k ==> Insert(d, r)[i] == r[i]
    ensures forall i :: k < i <= |r| ==> Insert(d, r)[i] == r[i - 1]
  {
    var u := Insert(d, r);
    if k == 0 {
      assert u == [d] + r;
    } else {
      assert r[0].price < d.price;
      var rest := r[1..];
      var t := Insert(d, rest);
      assert u == [r[0]] + t;
      forall i | 0 <= i < k - 1
        ensures rest[i].price < d.price
      {
        assert rest[i] == r[i + 1];
      }
      InsertAt(d, rest, k - 1);
      forall i | 0 < i <= |r|
        ensures u[i] == t[i - 1]
      {
      }
    }
  }

  /** `d` lands ahead of every deal of its own price and leaves the others in order. */
  lemma {:induction false} InsertWithPrice(d: Deal, r: seq<Deal>, p: Price)
    ensures WithPrice(Insert(d, r), p) == (if d.price == p then [d] else []) + WithPrice(r, p)
  {
    if r == [] || d.price <= r[0].price {
      assert Insert(d, r) == [d] + r;
      WithPriceHead([d] + r, p);
      assert ([d] + r)[1..] == r;
    } else {
      var t := Insert(d, r[1..]);
      assert Insert(d, r) == [r[0]] + t;
      InsertWithPrice(d, r[1..], p);
      WithPriceHead([r[0]] + t, p);
      assert ([r[0]] + t)[1..] == t;
      WithPriceHead(r, p);
      if d.price == p {
        assert r[0].price != p;
      }
    }
  }

  /** A lower bound of `d` and of every deal of `r` bounds every deal after insertion. */
  lemma {:induction false} InsertLowerBound(d: Deal, r: seq<Deal>, b: Price)
    requires b <= d.price
    requires forall i :: 0 <= i < |r| ==> b <= r[i].price
    ensures forall i :: 0 <= i < |Insert(d, r)| ==> b <= Insert(d, r)[i].price
  {
    var u := Insert(d, r);
    if r == [] || d.price <= r[0].price {
      assert u == [d] + r;
      forall i | 0 < i < |u|
        ensures b <= u[i].price
      {
        assert u[i] == r[i - 1];
      }
    } else {
      var t := Insert(d, r[1..]);
      assert u == [r[0]] + t;
      forall i | 0 <= i < |r[1..]|
        ensures b <= r[1..][i].price
      {
        assert r[1..][i] == r[i + 1];
      }
      InsertLowerBound(d, r[1..], b);
      forall i | 0 < i < |u|
        ensures b <= u[i].price
      {
        assert u[i] == t[i - 1];
      }
    }
  }

  /** Inserting into a sorted sequence keeps it sorted. */
  lemma {:induction false} InsertSorted(d: Deal, r: seq<Deal>)
    requires SortedByPrice(r)
    ensures SortedByPrice(Insert(d, r))
  {
    var u := Insert(d, r);
    if r == [] || d.price <= r[0].price {
      assert u == [d] + r;
      forall i, j | 0 <= i < j < |u|
        ensures u[i].price <= u[j].price
      {
        assert u[j] == r[j - 1];
        if i == 0 {
          assert r[0].price <= r[j - 1].price;
        } else {
          assert u[i] == r[i - 1];
        }
      }
    } else {
      var rest := r[1..];
      var t := Insert(d, rest);
      assert u == [r[0]] + t;
      forall i, j | 0 <= i < j < |rest|
        ensures rest[i].price <= rest[j].price
      {
        assert rest[i] == r[i + 1] && rest[j] == r[j + 1];
      }
      InsertSorted(d, rest);
      forall i | 0 <= i < |rest|
        ensures r[0].price <= rest[i].price
      {
        assert rest[i] == r[i + 1];
      }
      InsertLowerBound(d, rest, r[0].price);
      forall i, j | 0 <= i < j < |u|
        ensures u[i].price <= u[j].price
      {
        assert u[j] == t[j - 1];
        if i > 0 {
          assert u[i] == t[i - 1];
        }
      }
    }
  }

  /** Stable insertion sort by ascending price. */
  function SortByPrice(s: seq<Deal>): (r: seq<Deal>)
    ensures |r| == |s|
  {
    if s == [] then [] else Insert(s[0], SortByPrice(s[1..]))
  }

  /** The sort keeps every deal, orders them by price, and keeps the deals of
      each price in their input order. */
  lemma {:induction false} SortByPriceCorrect(s: seq<Deal>)
    ensures |SortByPrice(s)| == |s|
    ensures SortedByPrice(SortByPrice(s))
    ensures forall p :: WithPrice(SortByPrice(s), p) == WithPrice(s, p)
  {
    if s != [] {
      var rest := SortByPrice(s[1..]);
      SortByPriceCorrect(s[1..]);
      InsertSorted(s[0], rest);
      forall p
        ensures WithPrice(SortByPrice(s), p) == WithPrice(s, p)
      {
        InsertWithPrice(s[0], rest, p);
        WithPriceHead(s, p);
      }
    }
  }

  /** The sort reorders its input and nothing more. */
  lemma SortByPricePermutation(s: seq<Deal>)
    ensures multiset(SortByPrice(s)) == multiset(s)
  {
    SortByPriceCorrect(s);
    StablePermutation(SortByPrice(s), s);
  }

  /** Being sorted and keeping each price's deals in order determines the result:
      two sequences with both properties and the same deals per price are equal. */
  lemma {:induction false} StableSortUnique(r1: seq<Deal>, r2: seq<Deal>)
    requires SortedByPrice(r1) && SortedByPrice(r2)
    requires forall p :: WithPrice(r1, p) == WithPrice(r2, p)
    ensures r1 == r2
    decreases |r1| + |r2|
  {
    if r1 == [] || r2 == [] {
      if r1 != [] {
        WithPriceHead(r1, r1[0].price);
        assert false;
      } else if r2 != [] {
        WithPriceHead(r2, r2[0].price);
        assert false;
      }
    } else {
      var p1, p2 := r1[0].price, r2[0].price;
      WithPriceHead(r1, p1);
      WithPriceHead(r2, p2);
      assert r1[0] in WithPrice(r2, p1);
      WithPriceMember(r2, p1, r1[0]);
      assert r2[0] in WithPrice(r1, p2);
      WithPriceMember(r1, p2, r2[0]);
      assert p1 == p2;
      assert WithPrice(r1, p1)[0] == r1[0];
      assert WithPrice(r2, p1)[0] == r2[0];
      assert r1[0] == r2[0];
      forall q
        ensures WithPrice(r1[1..], q) == WithPrice(r2[1..], q)
      {
        WithPriceHead(r1, q);
        WithPriceHead(r2, q);
        assert WithPrice(r1, q) == WithPrice(r2, q);
        if q == p1 {
          assert WithPrice(r1[1..], q) == WithPrice(r1, q)[1..];
          assert WithPrice(r2[1..], q) == WithPrice(r2, q)[1..];
        } else {
          assert WithPrice(r1[1..], q) == WithPrice(r1, q);
          assert WithPrice(r2[1..], q) == WithPrice(r2, q);
        }
      }
      StableSortUnique(r1[1..], r2[1..]);
      assert r1 == [r1[0]] + r1[1..];
      assert r2 == [r2[0]] + r2[1..];
    }
  }
}
