/**
 * Allocation: the loop in `main` that turns each purchase, and the purchaser
 * identifiers typed for it, into per-flatmate baskets of cost shares; and
 * `divide_order_bill`, which reduces every basket to its sum.
 */
module Allocation {
  import opened Support
  import opened Text
  import opened Receipt

  /** Flatmate identifier to the shares recorded for them, in recording order (the `baskets` dict). */
  type Baskets = map<string, seq<real>>

  /** `price / float(quantity)` with a quantity of 0 raises `ZeroDivisionError`, which ends the run. */
  datatype AllocError = ZeroQuantity(description: string)

  /** The shares recorded for a flatmate so far; none for a flatmate without a basket. */
  function Basket(b: Baskets, flatmate: string): seq<real>
  {
    if flatmate in b then b[flatmate] else []
  }

  /** One share recorded for one flatmate: a new basket on first use, otherwise appended to theirs. */
  function Record(b: Baskets, flatmate: string, share: real): (r: Baskets)
    ensures r.Keys == b.Keys + {flatmate}
    ensures Basket(r, flatmate) == Basket(b, flatmate) + [share]
    ensures forall f :: f != flatmate ==> Basket(r, f) == Basket(b, f)
  {
    if flatmate !in b then b[flatmate := [share]] else b[flatmate := b[flatmate] + [share]]
  }

  /** One share recorded for every purchaser listed, in order. */
  function RecordAll(b: Baskets, flatmates: seq<string>, share: real): (r: Baskets)
    ensures forall f :: f !in flatmates ==> Basket(r, f) == Basket(b, f)
    decreases |flatmates|
  {
    if flatmates == [] then b else RecordAll(Record(b, flatmates[0], share), flatmates[1..], share)
  }

  /** Recording creates a basket for every listed flatmate and drops none. */
  lemma {:induction false} RecordAllKeys(b: Baskets, flatmates: seq<string>, share: real)
    ensures RecordAll(b, flatmates, share).Keys == b.Keys + (set f | f in flatmates)
    decreases |flatmates|
  {
    if flatmates != [] {
      RecordAllKeys(Record(b, flatmates[0], share), flatmates[1..], share);
      ElementsFirst(flatmates);
    }
  }

  /** Each flatmate gets one more share per time they are listed; in particular an unlisted flatmate's basket stays as it was. */
  lemma {:induction false} RecordAllBasket(b: Baskets, flatmates: seq<string>, share: real, flatmate: string)
    ensures Basket(RecordAll(b, flatmates, share), flatmate) == Basket(b, flatmate) + Repeat(share, multiset(flatmates)[flatmate])
    decreases |flatmates|
  {
    if flatmates != [] {
      var t := flatmates[0];
      RecordAllBasket(Record(b, t, share), flatmates[1..], share, flatmate);
      CountFirst(flatmates, flatmate);
      if flatmate == t {
        var k := multiset(flatmates[1..])[flatmate];
        RepeatFirst(share, k);
        ConcatAssoc(Basket(b, flatmate), [share], Repeat(share, k));
      }
    }
  }

  /** The share each purchaser listed for a purchase is charged: its price over its quantity. */
  function UnitShare(p: Purchase): real
    requires p.quantity > 0
  {
    p.price / p.quantity as real
  }

  /** The purchaser identifiers read from each typed answer, one list per purchase. */
  function SplitAnswers(answers: seq<string>): seq<seq<string>>
  {
    seq(|answers|, i requires 0 <= i < |answers| => Split(answers[i]))
  }

  /** The loop body for one purchase and the purchasers listed for it. */
  function Step(b: Baskets, p: Purchase, names: seq<string>): (r: Result<Baskets, AllocError>)
    ensures r.Failure? <==> p.price != 0.0 && p.quantity == 0
    ensures r.Failure? ==> r.error == ZeroQuantity(p.description)
    ensures p.price == 0.0 ==> r == Success(b)
  {
    if p.price == 0.0 then Success(b)
    else if p.quantity == 0 then Failure(ZeroQuantity(p.description))
    else Success(RecordAll(b, names, UnitShare(p)))
  }

  /** The first `i` purchases are all priced, and purchase `i` is the one the division fails on. */
  predicate FirstUnpriced(purchases: seq<Purchase>, i: nat)
  {
    i < |purchases| && purchases[i].price != 0.0 && purchases[i].quantity == 0 && Priced(purchases[..i])
  }

  /**
   * The whole loop from baskets `b`: the purchases in order, `lists[i]` being the purchasers
   * listed for purchase `i`. It stops at the first purchase it cannot divide, and the error names it.
   */
  function Allocate(b: Baskets, purchases: seq<Purchase>, lists: seq<seq<string>>): (r: Result<Baskets, AllocError>)
    requires |purchases| == |lists|
    ensures r.Failure? ==> exists i: nat :: FirstUnpriced(purchases, i) && r.error == ZeroQuantity(purchases[i].description)
    decreases |purchases|
  {
    if purchases == [] then Success(b)
    else match Step(b, purchases[0], lists[0])
      case Failure(e) =>
        assert FirstUnpriced(purchases, 0);
        Failure(e)
      case Success(b') =>
        var rest := Allocate(b', purchases[1..], lists[1..]);
        if rest.Failure? then
          FirstUnpricedLater(purchases, rest.error);
          rest
        else rest
  }

  /** A failure first met in the tail of the purchases is first met at the next index of the whole list. */
  lemma FirstUnpricedLater(purchases: seq<Purchase>, e: AllocError)
    requires purchases != [] && (purchases[0].price != 0.0 ==> purchases[0].quantity > 0)
    requires exists i: nat :: FirstUnpriced(purchases[1..], i) && e == ZeroQuantity(purchases[1..][i].description)
    ensures exists i: nat :: FirstUnpriced(purchases, i) && e == ZeroQuantity(purchases[i].description)
  {
    var i: nat :| FirstUnpriced(purchases[1..], i) && e == ZeroQuantity(purchases[1..][i].description);
    assert purchases[..i + 1] == [purchases[0]] + purchases[1..][..i];
    assert FirstUnpriced(purchases, i + 1);
  }

  /**
   * The assignment loop of `main`: starting from no baskets, every purchase with a
   * non-zero price charges its unit share once to each purchaser typed for it.
   */
  method AllocateBaskets(purchases: seq<Purchase>, answers: seq<string>) returns (r: Result<Baskets, AllocError>)
    requires |purchases| == |answers|
    ensures r == Allocate(map[], purchases, SplitAnswers(answers))
  {
    ghost var lists := SplitAnswers(answers);
    var baskets: Baskets := map[];
    for i := 0 to |purchases|
      invariant Allocate(baskets, purchases[i..], lists[i..]) == Allocate(map[], purchases, lists)
    {
      var purchase := purchases[i];
      assert purchases[i..][1..] == purchases[i + 1..] && lists[i..][1..] == lists[i + 1..];
      if purchase.price == 0.0 {
        continue;
      }
      if purchase.quantity == 0 {
        return Failure(ZeroQuantity(purchase.description));
      }
      var costEach := purchase.price / (purchase.quantity as real);
      var purchasers := Split(answers[i]);
      assert purchasers == lists[i];
      ghost var before := baskets;
      for j := 0 to |purchasers|
        invariant RecordAll(baskets, purchasers[j..], costEach) == RecordAll(before, purchasers, costEach)
      {
        var flatmate := purchasers[j];
        assert purchasers[j..][1..] == purchasers[j + 1..];
        if flatmate !in baskets {
          baskets := baskets[flatmate := [costEach]];
        } else {
          baskets := baskets[flatmate := baskets[flatmate] + [costEach]];
        }
      }
    }
    return Success(baskets);
  }

  /** Every purchase with a non-zero price has a quantity to divide by. */
  predicate Priced(purchases: seq<Purchase>)
  {
    forall i :: 0 <= i < |purchases| && purchases[i].price != 0.0 ==> purchases[i].quantity > 0
  }

  /** The loop stops with an error exactly when some purchase has a non-zero price and a quantity of 0. */
  lemma {:induction false} AllocateFails(b: Baskets, purchases: seq<Purchase>, lists: seq<seq<string>>)
    requires |purchases| == |lists|
    ensures Allocate(b, purchases, lists).Success? <==> Priced(purchases)
    decreases |purchases|
  {
    if purchases != [] {
      var p := purchases[0];
      assert forall i :: 1 <= i < |purchases| ==> purchases[1..][i - 1] == purchases[i];
      match Step(b, p, lists[0])
      case Failure(_) =>
      case Success(b') =>
        AllocateFails(b', purchases[1..], lists[1..]);
    }
  }

  /** How many times a flatmate is listed for a purchase. */
  function Times(flatmate: string, names: seq<string>): nat
  {
    multiset(names)[flatmate]
  }

  /** The shares one purchase charges a flatmate: none for a purchase with price 0. */
  function Charged(flatmate: string, p: Purchase, names: seq<string>): seq<real>
    requires p.price != 0.0 ==> p.quantity > 0
  {
    if p.price == 0.0 then [] else Repeat(UnitShare(p), Times(flatmate, names))
  }

  /** What one purchase costs a flatmate. */
  function Due(flatmate: string, p: Purchase, names: seq<string>): real
    requires p.price != 0.0 ==> p.quantity > 0
  {
    if p.price == 0.0 then 0.0 else Times(flatmate, names) as real * UnitShare(p)
  }

  /** The shares a flatmate is charged, purchase after purchase: one unit share per time they are listed for a purchase with a non-zero price. */
  function Shares(flatmate: string, purchases: seq<Purchase>, lists: seq<seq<string>>): seq<real>
    requires |purchases| == |lists| && Priced(purchases)
  {
    if purchases == [] then []
    else
      Charged(flatmate, purchases[0], lists[0]) + Shares(flatmate, purchases[1..], lists[1..])
  }

  /** Everyone listed for some purchase with a non-zero price. */
  function Purchasers(purchases: seq<Purchase>, lists: seq<seq<string>>): set<string>
    requires |purchases| == |lists|
  {
    if purchases == [] then {}
    else
      (if purchases[0].price == 0.0 then {} else set f | f in lists[0])
        + Purchasers(purchases[1..], lists[1..])
  }

  /** A flatmate is charged something exactly when they are listed for some purchase with a non-zero price. */
  lemma {:induction false} SharesOfPurchasers(flatmate: string, purchases: seq<Purchase>, lists: seq<seq<string>>)
    requires |purchases| == |lists| && Priced(purchases)
    ensures flatmate in Purchasers(purchases, lists) <==> Shares(flatmate, purchases, lists) != []
  {
    if purchases != [] {
      SharesOfPurchasers(flatmate, purchases[1..], lists[1..]);
      assert flatmate in lists[0] <==> Times(flatmate, lists[0]) > 0;
    }
  }

  lemma PricedTail(purchases: seq<Purchase>)
    requires purchases != [] && Priced(purchases)
    ensures Priced(purchases[1..])
  {
    assert forall i :: 1 <= i < |purchases| ==> purchases[1..][i - 1] == purchases[i];
  }

  /**
   * The flatmates the loop leaves with a basket: exactly those who had one and those
   * listed for a purchase with a non-zero price. No basket is ever dropped.
   */
  lemma {:induction false} AllocateKeys(b: Baskets, purchases: seq<Purchase>, lists: seq<seq<string>>)
    requires |purchases| == |lists| && Priced(purchases)
    ensures Allocate(b, purchases, lists).Success?
    ensures Allocate(b, purchases, lists).value.Keys == b.Keys + Purchasers(purchases, lists)
    decreases |purchases|
  {
    if purchases != [] {
      var p := purchases[0];
      PricedTail(purchases);
      if p.price == 0.0 {
        AllocateKeys(b, purchases[1..], lists[1..]);
      } else {
        RecordAllKeys(b, lists[0], UnitShare(p));
        AllocateKeys(RecordAll(b, lists[0], UnitShare(p)), purchases[1..], lists[1..]);
      }
    }
  }

  /** One purchase adds to a flatmate's basket exactly the shares it charges them. */
  lemma StepBasket(b: Baskets, p: Purchase, names: seq<string>, flatmate: string)
    requires p.price != 0.0 ==> p.quantity > 0
    ensures Step(b, p, names).Success?
    ensures Basket(Step(b, p, names).value, flatmate) == Basket(b, flatmate) + Charged(flatmate, p, names)
  {
    if p.price == 0.0 {
      assert Basket(b, flatmate) + [] == Basket(b, flatmate);
    } else {
      RecordAllBasket(b, names, UnitShare(p), flatmate);
    }
  }

  /** The loop after a first purchase that went through is the loop on the rest from the baskets it left. */
  lemma AllocateFirst(b: Baskets, purchases: seq<Purchase>, lists: seq<seq<string>>)
    requires |purchases| == |lists| && purchases != [] && Step(b, purchases[0], lists[0]).Success?
    ensures Allocate(b, purchases, lists) == Allocate(Step(b, purchases[0], lists[0]).value, purchases[1..], lists[1..])
  {
  }

  /**
   * What the loop leaves in a flatmate's basket: the old basket followed by that
   * flatmate's shares in purchase order. Old entries are never removed or reordered.
   */
  lemma {:induction false} AllocateBasket(b: Baskets, purchases: seq<Purchase>, lists: seq<seq<string>>, flatmate: string)
    requires |purchases| == |lists| && Priced(purchases)
    ensures Allocate(b, purchases, lists).Success?
    ensures Basket(Allocate(b, purchases, lists).value, flatmate) == Basket(b, flatmate) + Shares(flatmate, purchases, lists)
    decreases |purchases|
  {
    if purchases != [] {
      var p := purchases[0];
      assert p.price != 0.0 ==> p.quantity > 0;
      PricedTail(purchases);
      StepBasket(b, p, lists[0], flatmate);
      var b' := Step(b, p, lists[0]).value;
      AllocateFirst(b, purchases, lists);
      AllocateBasket(b', purchases[1..], lists[1..], flatmate);
      var before, here, rest := Basket(b, flatmate), Charged(flatmate, p, lists[0]), Shares(flatmate, purchases[1..], lists[1..]);
      ConcatAssoc(before, here, rest);
    }
  }

  /** The answer for a purchase with price 0 is never used: the prompt is not even shown for it. */
  lemma {:induction false} ZeroPriceAnswerIgnored(b: Baskets, purchases: seq<Purchase>, lists: seq<seq<string>>, i: nat, other: seq<string>)
    requires |purchases| == |lists| && i < |purchases| && purchases[i].price == 0.0
    ensures Allocate(b, purchases, lists) == Allocate(b, purchases, lists[i := other])
    decreases |purchases|
  {
    var lists' := lists[i := other];
    if i == 0 {
      assert lists'[1..] == lists[1..];
    } else {
      assert lists'[0] == lists[0];
      assert lists'[1..] == lists[1..][i - 1 := other];
      match Step(b, purchases[0], lists[0])
      case Failure(_) =>
      case Success(b') =>
        ZeroPriceAnswerIgnored(b', purchases[1..], lists[1..], i - 1, other);
    }
  }

  /** `divide_order_bill`: every flatmate of the baskets, and nobody else, mapped to the sum of their shares. */
  function DivideOrderBill(baskets: Baskets): (r: map<string, real>)
    ensures r.Keys == baskets.Keys
    ensures forall f :: f in r ==> r[f] == Sum(baskets[f])
  {
    map f | f in baskets :: Sum(baskets[f])
  }

  /** The bill does not depend on the order in which shares were recorded. */
  lemma DivideOrderBillOrderFree(b1: Baskets, b2: Baskets)
    requires b1.Keys == b2.Keys
    requires forall f :: f in b1 ==> multiset(b1[f]) == multiset(b2[f])
    ensures DivideOrderBill(b1) == DivideOrderBill(b2)
  {
    forall f | f in b1 ensures Sum(b1[f]) == Sum(b2[f]) {
      SumPermutation(b1[f], b2[f]);
    }
  }

  /** What a flatmate owes, purchase after purchase: the unit share of each priced purchase times the number of times they are listed for it. */
  function Owed(flatmate: string, purchases: seq<Purchase>, lists: seq<seq<string>>): real
    requires |purchases| == |lists| && Priced(purchases)
  {
    if purchases == [] then 0.0
    else
      Due(flatmate, purchases[0], lists[0]) + Owed(flatmate, purchases[1..], lists[1..])
  }

  lemma SumCharged(flatmate: string, p: Purchase, names: seq<string>)
    requires p.price != 0.0 ==> p.quantity > 0
    ensures Sum(Charged(flatmate, p, names)) == Due(flatmate, p, names)
  {
    if p.price != 0.0 {
      SumRepeat(UnitShare(p), Times(flatmate, names));
    }
  }

  lemma {:induction false} SumShares(flatmate: string, purchases: seq<Purchase>, lists: seq<seq<string>>)
    requires |purchases| == |lists| && Priced(purchases)
    ensures Sum(Shares(flatmate, purchases, lists)) == Owed(flatmate, purchases, lists)
    decreases |purchases|
  {
    if purchases != [] {
      var p := purchases[0];
      PricedTail(purchases);
      SumConcat(Charged(flatmate, p, lists[0]), Shares(flatmate, purchases[1..], lists[1..]));
      SumShares(flatmate, purchases[1..], lists[1..]);
      SumCharged(flatmate, p, lists[0]);
    }
  }

  /** The final bill: the flatmates listed for some priced purchase, each owing the sum over purchases of unit share times times listed. */
  lemma FinalBill(purchases: seq<Purchase>, lists: seq<seq<string>>)
    requires |purchases| == |lists| && Priced(purchases)
    ensures Allocate(map[], purchases, lists).Success?
    ensures var bill := DivideOrderBill(Allocate(map[], purchases, lists).value);
      && bill.Keys == Purchasers(purchases, lists)
      && forall f :: f in bill ==> bill[f] == Owed(f, purchases, lists)
  {
    AllocateKeys(map[], purchases, lists);
    var r := Allocate(map[], purchases, lists).value;
    var bill := DivideOrderBill(r);
    forall f | f in bill ensures bill[f] == Owed(f, purchases, lists) {
      AllocateBasket(map[], purchases, lists, f);
      SumShares(f, purchases, lists);
      var shares := Shares(f, purchases, lists);
      assert Basket(r, f) == Basket(map[], f) + shares;
      assert Basket(map[], f) == [];
      assert r[f] == shares;
    }
  }

  const ExampleTyped: seq<string> := ["Alice Bob", "Alice", "Alice Bob", "Alice Bob"]

  const ExampleListed: seq<seq<string>> := [["Alice", "Bob"], ["Alice"], ["Alice", "Bob"], ["Alice", "Bob"]]

  /** Typed answers: two identifiers separated by a space give both, a single identifier gives itself. */
  lemma ExampleAnswers()
    ensures SplitAnswers(ExampleTyped) == ExampleListed
  {
    assert Join(["Alice", "Bob"]) == "Alice Bob";
    SplitJoin(["Alice", "Bob"]);
    SplitToken("Alice");
  }

  lemma ExamplePurchasers()
    ensures Priced(ExamplePurchases)
    ensures Purchasers(ExamplePurchases, ExampleListed) == {"Alice", "Bob"}
  {
    var ps, ls := ExamplePurchases, ExampleListed;
    assert (set f | f in ls[0]) == {"Alice", "Bob"};
    assert (set f | f in ls[1]) == {"Alice"};
    assert ps[1..][1..][1..][1..] == [] && ls[1..][1..][1..][1..] == [];
    assert Purchasers(ps[1..][1..][1..], ls[1..][1..][1..]) == {"Alice", "Bob"};
    assert Purchasers(ps[1..][1..], ls[1..][1..]) == {"Alice", "Bob"};
    assert Purchasers(ps[1..], ls[1..]) == {"Alice"} + {"Alice", "Bob"};
  }

  /** What each example purchase costs each flatmate. */
  lemma ExampleDues()
    ensures Priced(ExamplePurchases)
    ensures var ps, ls := ExamplePurchases, ExampleListed;
      && Due("Alice", ps[0], ls[0]) == 0.5 && Due("Bob", ps[0], ls[0]) == 0.5
      && Due("Alice", ps[1], ls[1]) == 2.0 && Due("Bob", ps[1], ls[1]) == 0.0
      && Due("Alice", ps[2], ls[2]) == 3.0 && Due("Bob", ps[2], ls[2]) == 3.0
      && Due("Alice", ps[3], ls[3]) == -1.0 && Due("Bob", ps[3], ls[3]) == -1.0
  {
    var ls := ExampleListed;
    assert Times("Alice", ls[0]) == 1 && Times("Bob", ls[0]) == 1;
    assert Times("Alice", ls[1]) == 1 && Times("Bob", ls[1]) == 0;
  }

  /** What a flatmate owes for four purchases: the dues added up. */
  lemma OwedFour(flatmate: string, purchases: seq<Purchase>, lists: seq<seq<string>>)
    requires |purchases| == |lists| == 4 && Priced(purchases)
    ensures Owed(flatmate, purchases, lists) ==
      Due(flatmate, purchases[0], lists[0]) + Due(flatmate, purchases[1], lists[1])
        + Due(flatmate, purchases[2], lists[2]) + Due(flatmate, purchases[3], lists[3])
  {
    var p1, l1 := purchases[1..], lists[1..];
    var p2, l2 := p1[1..], l1[1..];
    var p3, l3 := p2[1..], l2[1..];
    PricedTail(purchases);
    PricedTail(p1);
    PricedTail(p2);
    PricedTail(p3);
    assert p3[1..] == [];
    assert Owed(flatmate, p3, l3) == Due(flatmate, purchases[3], lists[3]) + 0.0;
    assert Owed(flatmate, p2, l2) == Due(flatmate, purchases[2], lists[2]) + Owed(flatmate, p3, l3);
    assert Owed(flatmate, p1, l1) == Due(flatmate, purchases[1], lists[1]) + Owed(flatmate, p2, l2);
  }

  lemma ExampleOwed()
    ensures Priced(ExamplePurchases)
    ensures Owed("Alice", ExamplePurchases, ExampleListed) == 4.5
    ensures Owed("Bob", ExamplePurchases, ExampleListed) == 2.5
  {
    ExampleDues();
    OwedFour("Alice", ExamplePurchases, ExampleListed);
    OwedFour("Bob", ExamplePurchases, ExampleListed);
  }

  /** A map with exactly two keys is the display of its two entries. */
  lemma TwoEntries(m: map<string, real>, a: string, b: string)
    requires m.Keys == {a, b}
    ensures m == map[a := m[a], b := m[b]]
  {
  }

  /** The whole run on the example: Alice owes 4.50 and Bob 2.50. */
  lemma ExampleSharedShopping()
    ensures Allocate(map[], ExamplePurchases, SplitAnswers(ExampleTyped)).Success?
    ensures DivideOrderBill(Allocate(map[], ExamplePurchases, SplitAnswers(ExampleTyped)).value) == map["Alice" := 4.5, "Bob" := 2.5]
  {
    ExampleAnswers();
    ExamplePurchasers();
    ExampleOwed();
    FinalBill(ExamplePurchases, ExampleListed);
    var bill := DivideOrderBill(Allocate(map[], ExamplePurchases, ExampleListed).value);
    TwoEntries(bill, "Alice", "Bob");
  }
}
