/** The cart held in a web session and the three views that work on it:
    adding an item, removing an item, and listing the cart with its totals.
    The session's "cart" entry is a dictionary that may be missing, may be
    empty ({}), or holds "items" (the ordered lines) and, once the cart page
    has been shown, "total" and "tax_included_total". */
module CartViews {
  import opened CartLines
  import opened Tax

  /** How a view that can raise ends: normally, or with a KeyError on a key. */
  datatype Outcome = Done | KeyError(key: string)

  /** How the cart page ends: with no cart the view returns at once and
      computes and writes nothing (RedirectHome, after the redirect object
      it returns as its queryset), Item.DoesNotExist for a line the catalog
      lacks, or the rows and the two totals. */
  datatype CartPage =
    | RedirectHome
    | ItemDoesNotExist(pk: string)
    | Listed(rows: seq<Row>, total: int, taxIncludedTotal: int)

  class SessionCart {
    /** The session has a "cart" entry. */
    var present: bool
    /** That entry holds "items". */
    var hasItems: bool
    /** cart["items"]: insertion order and quantities. */
    var keys: seq<string>
    var qty: map<string, int>
    /** cart["total"] and cart["tax_included_total"], when written. */
    var total: Option<int>
    var taxIncludedTotal: Option<int>

    /** A cart without "items" is the empty dictionary, and no cart has no
        entries at all. */
    ghost predicate Valid()
      reads this
    {
      Items().Valid() &&
      (!present ==> !hasItems) &&
      (!hasItems ==> keys == [] && qty == map[] && total == None && taxIncludedTotal == None)
    }

    function Items(): Lines
      reads this
    {
      Lines(keys, qty)
    }

    /** `cart is None or len(cart) == 0`: for a valid cart, exactly the carts
        without "items". */
    predicate NoCart(): (none: bool)
      reads this
      ensures Valid() ==> (none <==> !hasItems)
    {
      !present || (!hasItems && total == None && taxIncludedTotal == None)
    }

    /** A session that has never stored a cart. */
    constructor Absent()
      ensures Valid() && !present && NoCart()
    {
      present, hasItems := false, false;
      keys, qty := [], map[];
      total, taxIncludedTotal := None, None;
    }

    /** A session whose cart entry is the empty dictionary. */
    constructor Cleared()
      ensures Valid() && present && !hasItems && NoCart()
    {
      present, hasItems := true, false;
      keys, qty := [], map[];
      total, taxIncludedTotal := None, None;
    }

    /** AddCartView.post: create the cart if there is none, then add
        `quantity` to the line of `itemPk` or open a line for it. The
        quantity is not checked, and stored totals are left as they were. */
    method Add(itemPk: string, quantity: int)
      requires Valid()
      modifies this
      ensures Valid() && present && hasItems
      ensures old(NoCart()) ==> keys == [itemPk] && qty == map[itemPk := quantity]
      ensures Items() == Put(old(Items()), itemPk, quantity)
      ensures total == old(total) && taxIncludedTotal == old(taxIncludedTotal)
    {
      if NoCart() {
        present, hasItems := true, true;
        keys, qty := [], map[];
        total, taxIncludedTotal := None, None;
      }
      ghost var before := Items();
      assert before == old(Items());
      if itemPk in qty {
        qty := qty[itemPk := qty[itemPk] + quantity];
      } else {
        keys := keys + [itemPk];
        qty := qty[itemPk := quantity];
      }
      assert Items() == Put(before, itemPk, quantity);
    }

    /** remove_from_cart: `del cart["items"][pk]` when there is a cart. */
    method Remove(pk: string) returns (r: Outcome)
      requires Valid()
      modifies this
      ensures Valid()
      ensures !old(present) ==> r == Done
      ensures old(present) && !old(hasItems) ==> r == KeyError("items")
      ensures old(hasItems) && pk !in old(qty) ==> r == KeyError(pk)
      ensures old(hasItems) && pk in old(qty) ==> r == Done && Items() == Delete(old(Items()), pk)
      ensures r != Done || !old(hasItems) ==> Items() == old(Items())
      ensures present == old(present) && hasItems == old(hasItems)
      ensures total == old(total) && taxIncludedTotal == old(taxIncludedTotal)
    {
      if !present {
        return Done;
      }
      if !hasItems {
        return KeyError("items");
      }
      if pk !in qty {
        return KeyError(pk);
      }
      ghost var before := Items();
      var i := IndexOf(keys, pk);
      keys := keys[..i] + keys[i + 1..];
      qty := qty - {pk};
      assert Items() == Delete(before, pk);
      r := Done;
    }

    /** The loop of CartListView.get_queryset: walk the lines in order, look
        each item up, append its row and add its subtotal to the running
        total; the first lookup of an unknown item raises. */
    method ComputeRows(prices: map<string, int>) returns (v: Listing)
      requires Valid()
      ensures v == View(Items(), prices)
    {
      var lines, quantities := keys, qty;
      assert Covers(lines, quantities) by {
        ValidCovers(Items());
      }
      var rows: seq<Row> := [];
      var sum := 0;
      var i := 0;
      while i < |lines|
        invariant 0 <= i <= |lines|
        invariant Covers(lines[..i], prices)
        invariant rows == RowsOf(lines[..i], quantities, prices)
        invariant sum == Sum(rows)
      {
        var pk := lines[i];
        if pk !in prices {
          assert Unpriced(pk) == View(Items(), prices) by {
            ViewUnpriced(Items(), prices, i);
          }
          return Unpriced(pk);
        }
        var price := prices[pk];
        var quantity := quantities[pk];
        var row := Row(pk, price, quantity, price * quantity);
        RowsOfExtend(lines, i, quantities, prices);
        rows := rows + [row];
        sum := sum + price * quantity;
        i := i + 1;
      }
      assert Priced(rows, sum) == View(Items(), prices) by {
        assert lines[..i] == lines;
        ViewPriced(Items(), prices);
      }
      v := Priced(rows, sum);
    }

    /** CartListView.get_queryset: with no cart, return at once and change
        nothing; otherwise list the cart and write both totals back into it.
        A line whose item the catalog lacks makes the view raise before
        anything is written. */
    method Recompute(prices: map<string, int>, rate: Rate) returns (page: CartPage)
      requires Valid() && rate.den > 0
      modifies this
      ensures Valid()
      ensures Items() == old(Items()) && present == old(present) && hasItems == old(hasItems)
      ensures old(NoCart()) ==> page == RedirectHome
      ensures !old(NoCart()) && View(Items(), prices).Unpriced? ==>
                page == ItemDoesNotExist(View(Items(), prices).pk)
      ensures !old(NoCart()) && View(Items(), prices).Priced? ==>
                var t := View(Items(), prices).total;
                page == Listed(View(Items(), prices).rows, t, TaxIncluded(t, rate)) &&
                total == Some(t) && taxIncludedTotal == Some(TaxIncluded(t, rate))
      ensures !page.Listed? ==> total == old(total) && taxIncludedTotal == old(taxIncludedTotal)
    {
      if NoCart() {
        return RedirectHome;
      }
      var v := ComputeRows(prices);
      match v
      case Unpriced(pk) =>
        page := ItemDoesNotExist(pk);
      case Priced(rows, sum) =>
        var taxed := TaxIncluded(sum, rate);
        total, taxIncludedTotal := Some(sum), Some(taxed);
        page := Listed(rows, sum, taxed);
    }

    /** Showing the cart page twice with the same catalog and rate shows the
        same page and stores the same totals. */
    static method RecomputeTwice(cart: SessionCart, prices: map<string, int>, rate: Rate)
      returns (first: CartPage, second: CartPage)
      requires cart.Valid() && rate.den > 0
      modifies cart
      ensures first == second
      ensures cart.Valid()
      ensures cart.Items() == old(cart.Items())
      ensures cart.present == old(cart.present) && cart.hasItems == old(cart.hasItems)
      ensures first.Listed? ==>
                cart.total == Some(first.total) && cart.taxIncludedTotal == Some(first.taxIncludedTotal)
      ensures !first.Listed? ==>
                cart.total == old(cart.total) && cart.taxIncludedTotal == old(cart.taxIncludedTotal)
    {
      first := cart.Recompute(prices, rate);
      second := cart.Recompute(prices, rate);
    }
  }

  /** Two adds, the cart page, a removal and the cart page again, with items
      at 500 and 1000 and a ten per cent tax. */
  method StorefrontScenario()
  {
    var prices := map["item-1" := 500, "item-2" := 1000];
    var rate := Rate(1, 10);
    var cart := new SessionCart.Absent();
    cart.Add("item-1", 2);
    var first := Lines(["item-1"], map["item-1" := 2]);
    var both := Lines(["item-1", "item-2"], map["item-1" := 2, "item-2" := 1]);
    AddsSecondLine(first, both);
    cart.Add("item-2", 1);
    ListsTwoLines(both, prices);
    var page := cart.Recompute(prices, rate);
    TenPercentExamples();
    assert page == Listed([Row("item-1", 500, 2, 1000), Row("item-2", 1000, 1, 1000)], 2000, 2200);
    RemoveFirstAndList(cart, prices, rate);
  }

  /** The second half of the scenario: removing the first of the two lines
      and showing the cart page again lists the other line alone, and
      stores its totals. */
  method RemoveFirstAndList(cart: SessionCart, prices: map<string, int>, rate: Rate)
    requires cart.Valid() && cart.present && cart.hasItems
    requires cart.Items() == Lines(["item-1", "item-2"], map["item-1" := 2, "item-2" := 1])
    requires prices == map["item-1" := 500, "item-2" := 1000] && rate == Rate(1, 10)
    modifies cart
    ensures cart.Items() == Lines(["item-2"], map["item-2" := 1])
    ensures cart.total == Some(1000) && cart.taxIncludedTotal == Some(1100)
  {
    var one := Lines(["item-2"], map["item-2" := 1]);
    RemovesFirstLine(cart.Items(), one);
    var r := cart.Remove("item-1");
    assert r == Done && cart.Items() == one;
    ListsOneLine(one, prices);
    var page := cart.Recompute(prices, rate);
    TenPercentExamples();
    assert page == Listed([Row("item-2", 1000, 1, 1000)], 1000, 1100);
  }


  lemma AddsSecondLine(first: Lines, both: Lines)
    requires first == Lines(["item-1"], map["item-1" := 2])
    requires both == Lines(["item-1", "item-2"], map["item-1" := 2, "item-2" := 1])
    ensures Put(first, "item-2", 1) == both
  {
    ItemKeysDiffer();
    assert "item-2" !in first.qty;
  }

  lemma ListsTwoLines(l: Lines, prices: map<string, int>)
    requires l == Lines(["item-1", "item-2"], map["item-1" := 2, "item-2" := 1])
    requires prices == map["item-1" := 500, "item-2" := 1000]
    ensures l.Valid()
    ensures View(l, prices) == Priced([Row("item-1", 500, 2, 1000), Row("item-2", 1000, 1, 1000)], 2000)
  {
    TwoLinesValid(l);
    TwoRows(l, prices);
    ViewPriced(l, prices);
    TwoRowsSum();
  }

  lemma TwoLinesValid(l: Lines)
    requires l == Lines(["item-1", "item-2"], map["item-1" := 2, "item-2" := 1])
    ensures l.Valid()
  {
    ItemKeysDiffer();
  }

  /** The two rows of the scenario's cart: 2 x 500 and 1 x 1000. */
  lemma TwoRows(l: Lines, prices: map<string, int>)
    requires l == Lines(["item-1", "item-2"], map["item-1" := 2, "item-2" := 1])
    requires prices == map["item-1" := 500, "item-2" := 1000]
    ensures Covers(l.keys, l.qty) && Covers(l.keys, prices)
    ensures RowsOf(l.keys, l.qty, prices) == [Row("item-1", 500, 2, 1000), Row("item-2", 1000, 1, 1000)]
  {
    var rows := RowsOf(l.keys, l.qty, prices);
    RowsOfAt(l.keys, l.qty, prices, 0);
    RowsOfAt(l.keys, l.qty, prices, 1);
    SubtotalIsProduct(500, 2);
    SubtotalIsProduct(1000, 1);
    assert rows == [Row("item-1", 500, 2, 1000), Row("item-2", 1000, 1, 1000)];
  }

  lemma TwoRowsSum()
    ensures Sum([Row("item-1", 500, 2, 1000), Row("item-2", 1000, 1, 1000)]) == 2000
  {
    var rows := [Row("item-1", 500, 2, 1000), Row("item-2", 1000, 1, 1000)];
    assert rows[..1] == [rows[0]] && rows[..1][..0] == [];
  }


  lemma RemovesFirstLine(both: Lines, one: Lines)
    requires both == Lines(["item-1", "item-2"], map["item-1" := 2, "item-2" := 1])
    requires one == Lines(["item-2"], map["item-2" := 1])
    ensures both.Valid() && "item-1" in both.qty
    ensures Delete(both, "item-1") == one
  {
    ItemKeysDiffer();
    assert both.Valid();
    assert IndexOf(both.keys, "item-1") == 0;
    DeleteShape(both, "item-1");
    CutFirstLine(both, one);
  }

  /** Without its first line, the two-line cart is the one-line cart. */
  lemma CutFirstLine(both: Lines, one: Lines)
    requires both == Lines(["item-1", "item-2"], map["item-1" := 2, "item-2" := 1])
    requires one == Lines(["item-2"], map["item-2" := 1])
    ensures both.keys[..0] + both.keys[1..] == one.keys
    ensures both.qty - {"item-1"} == one.qty
  {
    ItemKeysDiffer();
  }

  lemma ListsOneLine(l: Lines, prices: map<string, int>)
    requires l == Lines(["item-2"], map["item-2" := 1])
    requires prices == map["item-1" := 500, "item-2" := 1000]
    ensures l.Valid()
    ensures View(l, prices) == Priced([Row("item-2", 1000, 1, 1000)], 1000)
  {
    assert Covers(l.keys, prices);
    ViewPriced(l, prices);
    var rows := RowsOf(l.keys, l.qty, prices);
    RowsOfAt(l.keys, l.qty, prices, 0);
    SubtotalIsProduct(1000, 1);
    assert rows == [Row("item-2", 1000, 1, 1000)];
    assert rows[..0] == [];
  }

  /** The scenario's two item keys are different strings. */
  lemma ItemKeysDiffer()
    ensures "item-2" != "item-1"
  {
    assert "item-2"[5] != "item-1"[5];
  }
}
