/** The lines of a session cart: the insertion-ordered dictionary kept under
    cart["items"] (item primary key -> quantity), the two ways the views change
    it, and the rows and grand total the cart page derives from it. */
module CartLines {

  datatype Option<T> = None | Some(value: T)

  /** An ordered dictionary: `keys` is the insertion order, `qty` the values. */
  datatype Lines = Lines(keys: seq<string>, qty: map<string, int>)
  {
    /** Every key occurs once in the order, and the order lists exactly the
        keys of the dictionary. */
    predicate Valid()
    {
      Distinct(keys) &&
      (forall k :: k in qty ==> k in keys) &&
      (forall k :: k in keys ==> k in qty)
    }
  }

  predicate Distinct(s: seq<string>)
  {
    forall i, j :: 0 <= i < j < |s| ==> s[i] != s[j]
  }

  /** The position of `x` in an insertion order. */
  function IndexOf(s: seq<string>, x: string): (i: nat)
    requires x in s
    ensures i < |s| && s[i] == x
    ensures forall j :: 0 <= j < i ==> s[j] != x
  {
    if s[0] == x then 0 else 1 + IndexOf(s[1..], x)
  }

  /** In a distinct order the key at position i occurs nowhere else. */
  lemma OnlyAt(s: seq<string>, i: nat)
    requires Distinct(s) && i < |s|
    ensures forall j :: 0 <= j < |s| && j != i ==> s[j] != s[i]
  {
  }

  lemma IndexOfDistinct(s: seq<string>, m: nat)
    requires Distinct(s) && m < |s|
    ensures IndexOf(s, s[m]) == m
  {
  }

  /** `items[k] += q` when `k` is already a line, `items[k] = q` otherwise. */
  function Put(l: Lines, k: string, q: int): (r: Lines)
    ensures k in r.qty && r.qty[k] == (if k in l.qty then l.qty[k] + q else q)
    ensures forall j :: j != k ==> (j in r.qty <==> j in l.qty)
    ensures forall j :: j != k && j in l.qty ==> r.qty[j] == l.qty[j]
    ensures l.keys <= r.keys
    ensures k !in l.qty ==> |r.keys| == |l.keys| + 1 && r.keys[|l.keys|] == k
    ensures k in l.qty ==> r.keys == l.keys
    ensures l.Valid() ==> r.Valid()
  {
    if k in l.qty then Lines(l.keys, l.qty[k := l.qty[k] + q])
    else Lines(l.keys + [k], l.qty[k := q])
  }

  /** `del items[k]` for a key that is present. */
  function Delete(l: Lines, k: string): (r: Lines)
    requires l.Valid() && k in l.qty
    ensures r.Valid()
    ensures k !in r.qty && k !in r.keys
    ensures forall j :: j != k ==> (j in r.qty <==> j in l.qty)
    ensures forall j :: j in r.qty ==> r.qty[j] == l.qty[j]
    ensures |r.keys| == |l.keys| - 1
  {
    var i := IndexOf(l.keys, k);
    Omit(l.keys, i);
    Lines(l.keys[..i] + l.keys[i + 1..], l.qty - {k})
  }

  /** Cutting position i out of an order without repeats keeps the others,
      in order and without repeats. */
  lemma Omit(s: seq<string>, i: nat)
    requires Distinct(s) && i < |s|
    ensures |s[..i] + s[i + 1..]| == |s| - 1
    ensures forall m :: 0 <= m < i ==> (s[..i] + s[i + 1..])[m] == s[m]
    ensures forall m :: i < m < |s| ==> (s[..i] + s[i + 1..])[m - 1] == s[m]
    ensures Distinct(s[..i] + s[i + 1..])
    ensures forall x :: x in s[..i] + s[i + 1..] <==> x in s && x != s[i]
  {
    var r := s[..i] + s[i + 1..];
    assert forall m :: 0 <= m < |r| ==> r[m] == s[if m < i then m else m + 1];
    forall x | x in s && x != s[i] ensures x in r {
      var n := IndexOf(s, x);
      assert r[if n < i then n else n - 1] == x;
    }
  }

  /** Put keeps the position of every existing line and puts a new key last. */
  lemma PutKeepsOrder(l: Lines, k: string, q: int, x: string)
    requires l.Valid() && x in l.keys
    ensures x in Put(l, k, q).keys
    ensures IndexOf(Put(l, k, q).keys, x) == IndexOf(l.keys, x)
    ensures k !in l.keys ==> IndexOf(Put(l, k, q).keys, k) == |l.keys|
  {
    var r := Put(l, k, q);
    var n := IndexOf(l.keys, x);
    assert r.keys[n] == x;
    IndexOfDistinct(r.keys, n);
    if k !in l.keys {
      IndexOfDistinct(r.keys, |l.keys|);
    }
  }

  /** Delete keeps the relative order of the remaining lines. */
  lemma DeleteKeepsOrder(l: Lines, k: string, x: string, y: string)
    requires l.Valid() && k in l.qty
    requires x in Delete(l, k).keys && y in Delete(l, k).keys
    ensures x in l.keys && y in l.keys
    ensures IndexOf(Delete(l, k).keys, x) < IndexOf(Delete(l, k).keys, y)
            <==> IndexOf(l.keys, x) < IndexOf(l.keys, y)
  {
    var i := IndexOf(l.keys, k);
    var rest := l.keys[..i] + l.keys[i + 1..];
    assert Delete(l, k).keys == rest by {
      DeleteShape(l, k);
    }
    assert Distinct(l.keys) && i < |l.keys|;
    OmitIndex(l.keys, i, x);
    OmitIndex(l.keys, i, y);
  }

  /** Cutting position i out of a distinct order moves every later key one
      place forward and leaves every earlier key where it was. */
  lemma OmitIndex(s: seq<string>, i: nat, x: string)
    requires Distinct(s) && i < |s| && x in s[..i] + s[i + 1..]
    ensures x in s
    ensures var a := IndexOf(s[..i] + s[i + 1..], x);
            IndexOf(s, x) == if a < i then a else a + 1
  {
    var rest := s[..i] + s[i + 1..];
    var a := IndexOf(rest, x);
    var a' := if a < i then a else a + 1;
    OmitAt(s, i, a);
    IndexOfDistinct(s, a');
  }

  /** Position m of the order without position i. */
  lemma OmitAt(s: seq<string>, i: nat, m: nat)
    requires i < |s| && m < |s| - 1
    ensures (s[..i] + s[i + 1..])[m] == s[if m < i then m else m + 1]
  {
  }

  /** Adding a then b to one key gives one line holding a + b. */
  lemma PutTwice(l: Lines, k: string, a: int, b: int)
    ensures Put(Put(l, k, a), k, b) == Put(l, k, a + b)
  {
  }

  /** Deleting a key just added to a cart without it gives the cart back. */
  lemma DeleteUndoesPut(l: Lines, k: string, q: int)
    requires l.Valid() && k !in l.qty
    ensures Delete(Put(l, k, q), k) == l
  {
    var p := Put(l, k, q);
    assert IndexOf(p.keys, k) == |l.keys| by {
      IndexOfDistinct(p.keys, |l.keys|);
    }
    assert p.keys[..|l.keys|] + p.keys[|l.keys| + 1..] == l.keys;
    assert p.qty - {k} == l.qty;
  }

  // ---------------------------------------------------------------------
  // The cart page: one row per line, and the grand total

  /** A row of the cart page: the item, its quantity and its subtotal. */
  datatype Row = Row(itemPk: string, price: int, quantity: int, subtotal: int)

  /** Every key of `keys` has an entry in `m`. */
  predicate Covers(keys: seq<string>, m: map<string, int>)
  {
    forall i :: 0 <= i < |keys| ==> keys[i] in m
  }

  /** int(price * quantity) for integer prices. It is written as repeated
      addition so that sums of rows stay linear arithmetic; SubtotalIsProduct
      relates it to `*`. */
  function Subtotal(price: int, quantity: int): (s: int)
    ensures quantity == 0 ==> s == 0
    ensures price >= 0 && quantity >= 0 ==> s >= 0
    ensures price >= 0 && quantity <= 0 ==> s <= 0
    decreases if quantity < 0 then -quantity else quantity
  {
    if quantity == 0 then 0
    else if quantity > 0 then Subtotal(price, quantity - 1) + price
    else Subtotal(price, quantity + 1) - price
  }

  lemma {:induction false} SubtotalIsProduct(price: int, quantity: int)
    ensures Subtotal(price, quantity) == price * quantity
    decreases if quantity < 0 then -quantity else quantity
  {
    if quantity > 0 {
      SubtotalIsProduct(price, quantity - 1);
      MulStep(price, quantity - 1);
    } else if quantity < 0 {
      SubtotalIsProduct(price, quantity + 1);
      MulStep(price, quantity);
    }
  }

  lemma MulStep(price: int, quantity: int)
    ensures price * (quantity + 1) == price * quantity + price
  {
  }

  /** Subtotals add up over quantities: the subtotal of a + q is the
      subtotal of a plus the subtotal of q. */
  lemma SubtotalAdd(price: int, a: int, q: int)
    ensures Subtotal(price, a + q) == Subtotal(price, a) + Subtotal(price, q)
  {
    SubtotalIsProduct(price, a + q);
    SubtotalIsProduct(price, a);
    SubtotalIsProduct(price, q);
    Distributes(price, a, q);
  }

  lemma Distributes(price: int, a: int, q: int)
    ensures price * (a + q) == price * a + price * q
  {
  }

  function RowOf(pk: string, qty: map<string, int>, prices: map<string, int>): (r: Row)
    requires pk in qty && pk in prices
    ensures r.itemPk == pk && r.price == prices[pk] && r.quantity == qty[pk]
  {
    Row(pk, prices[pk], qty[pk], Subtotal(prices[pk], qty[pk]))
  }

  /** A row's subtotal is its price times its quantity. */
  lemma RowOfSubtotal(pk: string, qty: map<string, int>, prices: map<string, int>)
    requires pk in qty && pk in prices
    ensures RowOf(pk, qty, prices).subtotal == RowOf(pk, qty, prices).price * RowOf(pk, qty, prices).quantity
  {
    SubtotalIsProduct(prices[pk], qty[pk]);
  }

  /** The rows for `keys`, built by appending one row per key. */
  function RowsOf(keys: seq<string>, qty: map<string, int>, prices: map<string, int>): (rows: seq<Row>)
    requires Covers(keys, qty) && Covers(keys, prices)
    ensures |rows| == |keys|
  {
    if keys == [] then []
    else RowsOf(keys[..|keys| - 1], qty, prices) + [RowOf(keys[|keys| - 1], qty, prices)]
  }

  /** The running total: the subtotals added up in row order. */
  function Sum(rows: seq<Row>): (s: int)
    ensures rows == [] ==> s == 0
    ensures |rows| == 1 ==> s == rows[0].subtotal
  {
    if rows == [] then 0 else Sum(rows[..|rows| - 1]) + rows[|rows| - 1].subtotal
  }

  /** Row m is the row of key m. */
  lemma {:induction false} RowsOfAt(keys: seq<string>, qty: map<string, int>, prices: map<string, int>, m: nat)
    requires Covers(keys, qty) && Covers(keys, prices) && m < |keys|
    ensures RowsOf(keys, qty, prices)[m] == RowOf(keys[m], qty, prices)
  {
    if m < |keys| - 1 {
      RowsOfAt(keys[..|keys| - 1], qty, prices, m);
    }
  }

  lemma {:induction false} SumAppend(a: seq<Row>, b: seq<Row>)
    ensures Sum(a + b) == Sum(a) + Sum(b)
    decreases |b|
  {
    if b != [] {
      assert (a + b)[..|a + b| - 1] == a + b[..|b| - 1];
      SumAppend(a, b[..|b| - 1]);
    } else {
      assert a + b == a;
    }
  }

  lemma {:induction false} RowsOfAppend(a: seq<string>, b: seq<string>, qty: map<string, int>, prices: map<string, int>)
    requires Covers(a + b, qty) && Covers(a + b, prices)
    ensures Covers(a, qty) && Covers(a, prices) && Covers(b, qty) && Covers(b, prices)
    ensures RowsOf(a + b, qty, prices) == RowsOf(a, qty, prices) + RowsOf(b, qty, prices)
    decreases |b|
  {
    assert forall i :: 0 <= i < |a| ==> (a + b)[i] == a[i];
    assert forall i :: 0 <= i < |b| ==> (a + b)[|a| + i] == b[i];
    if b != [] {
      assert (a + b)[..|a + b| - 1] == a + b[..|b| - 1];
      RowsOfAppend(a, b[..|b| - 1], qty, prices);
    } else {
      assert a + b == a;
    }
  }

  /** Rows only depend on the quantities of the keys they list. */
  lemma {:induction false} RowsOfAgree(keys: seq<string>, qty: map<string, int>, qty': map<string, int>, prices: map<string, int>)
    requires Covers(keys, qty) && Covers(keys, qty') && Covers(keys, prices)
    requires forall i :: 0 <= i < |keys| ==> qty[keys[i]] == qty'[keys[i]]
    ensures RowsOf(keys, qty, prices) == RowsOf(keys, qty', prices)
  {
    if keys != [] {
      RowsOfAgree(keys[..|keys| - 1], qty, qty', prices);
    }
  }

  /** With no negative subtotal the grand total is not negative. */
  lemma {:induction false} SumNonnegative(rows: seq<Row>)
    requires forall i :: 0 <= i < |rows| ==> rows[i].subtotal >= 0
    ensures Sum(rows) >= 0
  {
    if rows != [] {
      SumNonnegative(rows[..|rows| - 1]);
    }
  }

  /** The first line, in insertion order, whose item the catalog lacks;
      |keys| when the catalog knows every item. */
  function FirstUnpriced(keys: seq<string>, prices: map<string, int>): (i: nat)
    ensures i <= |keys| && Covers(keys[..i], prices)
    ensures i < |keys| ==> keys[i] !in prices
  {
    if keys == [] || keys[0] !in prices then 0
    else
      var j := FirstUnpriced(keys[1..], prices);
      assert keys[..j + 1] == [keys[0]] + keys[1..][..j];
      1 + j
  }

  /** What the cart page computes: the lookup of a missing item raises, or
      the rows and their total. */
  datatype Listing = Unpriced(pk: string) | Priced(rows: seq<Row>, total: int)

  lemma ValidCovers(l: Lines)
    requires l.Valid()
    ensures Covers(l.keys, l.qty)
  {
    assert forall i :: 0 <= i < |l.keys| ==> l.keys[i] in l.keys;
  }

  function View(l: Lines, prices: map<string, int>): (v: Listing)
    requires l.Valid()
    ensures v.Priced? <==> Covers(l.keys, prices)
    ensures v.Unpriced? ==> v.pk in l.qty && v.pk !in prices
    ensures v.Priced? ==> |v.rows| == |l.keys| && v.total == Sum(v.rows)
    ensures l.keys == [] ==> v == Priced([], 0)
  {
    ValidCovers(l);
    var i := FirstUnpriced(l.keys, prices);
    if i < |l.keys| then Unpriced(l.keys[i])
    else
      assert l.keys[..i] == l.keys;
      var rows := RowsOf(l.keys, l.qty, prices);
      Priced(rows, Sum(rows))
  }

  /** The priced view, when the catalog knows every item, is the rows of
      the lines in order and their sum. */
  lemma ViewPriced(l: Lines, prices: map<string, int>)
    requires l.Valid() && Covers(l.keys, prices)
    ensures Covers(l.keys, l.qty)
    ensures View(l, prices) == Priced(RowsOf(l.keys, l.qty, prices), Sum(RowsOf(l.keys, l.qty, prices)))
  {
    ValidCovers(l);
    assert l.keys[..|l.keys|] == l.keys;
  }

  /** The page has one row per line, in insertion order, each with
      subtotal = price * quantity. */
  lemma ViewRowsMatchLines(l: Lines, prices: map<string, int>, m: nat)
    requires l.Valid() && View(l, prices).Priced? && m < |l.keys|
    ensures l.keys[m] in prices && l.keys[m] in l.qty
    ensures View(l, prices).rows[m]
            == Row(l.keys[m], prices[l.keys[m]], l.qty[l.keys[m]], prices[l.keys[m]] * l.qty[l.keys[m]])
  {
    ViewPriced(l, prices);
    RowsOfAt(l.keys, l.qty, prices, m);
    SubtotalIsProduct(prices[l.keys[m]], l.qty[l.keys[m]]);
  }

  /** Stopping at the first line the catalog lacks is what the view reports. */
  lemma ViewUnpriced(l: Lines, prices: map<string, int>, i: nat)
    requires l.Valid() && i < |l.keys| && Covers(l.keys[..i], prices) && l.keys[i] !in prices
    ensures View(l, prices) == Unpriced(l.keys[i])
  {
  }

  /** One more priced line appends one more row and adds its subtotal to
      the running total. */
  lemma RowsOfExtend(keys: seq<string>, i: nat, qty: map<string, int>, prices: map<string, int>)
    requires i < |keys| && Covers(keys, qty) && Covers(keys[..i], prices) && keys[i] in prices
    ensures Covers(keys[..i], qty) && Covers(keys[..i + 1], qty) && Covers(keys[..i + 1], prices)
    ensures RowsOf(keys[..i + 1], qty, prices)
            == RowsOf(keys[..i], qty, prices) + [Row(keys[i], prices[keys[i]], qty[keys[i]], prices[keys[i]] * qty[keys[i]])]
    ensures Sum(RowsOf(keys[..i + 1], qty, prices)) == Sum(RowsOf(keys[..i], qty, prices)) + prices[keys[i]] * qty[keys[i]]
  {
    SubtotalIsProduct(prices[keys[i]], qty[keys[i]]);
    assert keys[..i + 1] == keys[..i] + [keys[i]];
    assert keys[..i + 1][..i] == keys[..i];
    var rows := RowsOf(keys[..i], qty, prices) + [RowOf(keys[i], qty, prices)];
    assert rows[..|rows| - 1] == RowsOf(keys[..i], qty, prices);
  }

  lemma CoversOmit(keys: seq<string>, i: nat, m: map<string, int>)
    requires Covers(keys, m) && i < |keys|
    ensures Covers(keys[..i] + keys[i + 1..], m)
  {
    var rest := keys[..i] + keys[i + 1..];
    forall j | 0 <= j < |rest| ensures rest[j] in m {
      assert rest[j] == keys[if j < i then j else j + 1];
    }
  }

  /** Taking line i out of an order takes exactly its subtotal out of the sum. */
  lemma SumWithout(keys: seq<string>, i: nat, qty: map<string, int>, prices: map<string, int>)
    requires Covers(keys, qty) && Covers(keys, prices) && i < |keys|
    ensures Covers(keys[..i] + keys[i + 1..], qty) && Covers(keys[..i] + keys[i + 1..], prices)
    ensures Sum(RowsOf(keys, qty, prices))
            == Sum(RowsOf(keys[..i] + keys[i + 1..], qty, prices)) + Subtotal(prices[keys[i]], qty[keys[i]])
  {
    var pre, k, post := keys[..i], keys[i], keys[i + 1..];
    assert keys == pre + [k] + post;
    var row := RowOf(k, qty, prices);
    var rowsPre, rowsPost := RowsOf(pre, qty, prices), RowsOf(post, qty, prices);
    assert RowsOf(keys, qty, prices) == rowsPre + [row] + rowsPost by {
      RowsOfAppend(pre + [k], post, qty, prices);
      RowsOfAppend(pre, [k], qty, prices);
      assert [k][..0] == [];
    }
    assert Covers(pre + post, qty) && Covers(pre + post, prices) by {
      CoversOmit(keys, i, qty);
      CoversOmit(keys, i, prices);
    }
    assert RowsOf(pre + post, qty, prices) == rowsPre + rowsPost by {
      RowsOfAppend(pre, post, qty, prices);
    }
    assert Sum(rowsPre + [row] + rowsPost) == Sum(rowsPre) + row.subtotal + Sum(rowsPost) by {
      SumAppend(rowsPre + [row], rowsPost);
      SumAppend(rowsPre, [row]);
      assert [row][..0] == [];
    }
    SumAppend(rowsPre, rowsPost);
  }

  /** After removing a line the page still renders, without that item, and
      its total drops by exactly that line's subtotal. */
  lemma DeleteLowersTotal(l: Lines, k: string, prices: map<string, int>)
    requires l.Valid() && k in l.qty && View(l, prices).Priced?
    ensures k in prices
    ensures View(Delete(l, k), prices).Priced?
    ensures View(Delete(l, k), prices).total == View(l, prices).total - prices[k] * l.qty[k]
    ensures forall m :: 0 <= m < |View(Delete(l, k), prices).rows| ==> View(Delete(l, k), prices).rows[m].itemPk != k
  {
    DeleteLowersCoveredTotal(l, k, prices);
  }

  /** DeleteLowersTotal, for lines whose every item has a price. */
  lemma DeleteLowersCoveredTotal(l: Lines, k: string, prices: map<string, int>)
    requires l.Valid() && k in l.qty && Covers(l.keys, prices)
    ensures k in prices
    ensures View(Delete(l, k), prices).Priced?
    ensures View(Delete(l, k), prices).total == View(l, prices).total - prices[k] * l.qty[k]
    ensures forall m :: 0 <= m < |View(Delete(l, k), prices).rows| ==> View(Delete(l, k), prices).rows[m].itemPk != k
  {
    var i := IndexOf(l.keys, k);
    var rest := l.keys[..i] + l.keys[i + 1..];
    assert Covers(l.keys, l.qty) && k in prices by {
      ValidCovers(l);
    }
    assert Covers(rest, l.qty) && Covers(rest, prices) && k !in rest by {
      CoversOmit(l.keys, i, l.qty);
      CoversOmit(l.keys, i, prices);
      DeleteShape(l, k);
    }
    var after := RowsOf(rest, l.qty, prices);
    assert View(Delete(l, k), prices) == Priced(after, Sum(after)) by {
      DeletedView(l, k, prices);
    }
    assert View(l, prices).total == Sum(RowsOf(l.keys, l.qty, prices)) by {
      ViewPriced(l, prices);
    }
    assert Sum(RowsOf(l.keys, l.qty, prices)) == Sum(after) + Subtotal(prices[k], l.qty[k]) by {
      SumWithout(l.keys, i, l.qty, prices);
    }
    SubtotalIsProduct(prices[k], l.qty[k]);
    RowsOfOmits(rest, l.qty, prices, k);
  }

  /** No row names a key that is not in the order. */
  lemma RowsOfOmits(keys: seq<string>, qty: map<string, int>, prices: map<string, int>, k: string)
    requires Covers(keys, qty) && Covers(keys, prices) && k !in keys
    ensures forall m :: 0 <= m < |RowsOf(keys, qty, prices)| ==> RowsOf(keys, qty, prices)[m].itemPk != k
  {
    forall m | 0 <= m < |RowsOf(keys, qty, prices)| ensures RowsOf(keys, qty, prices)[m].itemPk != k {
      RowsOfAt(keys, qty, prices, m);
    }
  }

  /** When every line is priced, the page after a deletion lists the
      remaining keys in order with their old quantities. */
  lemma DeletedView(l: Lines, k: string, prices: map<string, int>)
    requires l.Valid() && k in l.qty
    requires var rest := l.keys[..IndexOf(l.keys, k)] + l.keys[IndexOf(l.keys, k) + 1..];
             Covers(rest, l.qty) && Covers(rest, prices)
    ensures var rest := l.keys[..IndexOf(l.keys, k)] + l.keys[IndexOf(l.keys, k) + 1..];
            View(Delete(l, k), prices) == Priced(RowsOf(rest, l.qty, prices), Sum(RowsOf(rest, l.qty, prices)))
  {
    var i := IndexOf(l.keys, k);
    DeleteShape(l, k);
    ViewWithout(l.keys[..i] + l.keys[i + 1..], l.qty, k, prices);
  }

  /** The page of lines from which k has been cut lists the rows of the
      remaining keys, with the quantities they had before. */
  lemma ViewWithout(rest: seq<string>, qty: map<string, int>, k: string, prices: map<string, int>)
    requires Lines(rest, qty - {k}).Valid() && k !in rest
    requires Covers(rest, qty) && Covers(rest, prices)
    ensures View(Lines(rest, qty - {k}), prices) == Priced(RowsOf(rest, qty, prices), Sum(RowsOf(rest, qty, prices)))
  {
    var r := Lines(rest, qty - {k});
    ViewPriced(r, prices);
    RowsOfWithout(rest, qty, k, prices);
  }

  /** Delete cuts the key's position out of the order and the key out of
      the dictionary. */
  lemma DeleteShape(l: Lines, k: string)
    requires l.Valid() && k in l.qty
    ensures var i := IndexOf(l.keys, k);
            Delete(l, k) == Lines(l.keys[..i] + l.keys[i + 1..], l.qty - {k}) &&
            k !in l.keys[..i] + l.keys[i + 1..]
  {
  }

  /** Dropping the quantity of a key the rows do not list leaves the rows as
      they are. */
  lemma {:induction false} RowsOfWithout(keys: seq<string>, qty: map<string, int>, k: string, prices: map<string, int>)
    requires Covers(keys, qty) && Covers(keys, prices) && k !in keys
    ensures Covers(keys, qty - {k})
    ensures RowsOf(keys, qty - {k}, prices) == RowsOf(keys, qty, prices)
  {
    assert forall i :: 0 <= i < |keys| ==> keys[i] != k;
    if keys != [] {
      RowsOfWithout(keys[..|keys| - 1], qty, k, prices);
    }
  }

  /** The last row adds its subtotal to the running total. */
  lemma SumSnoc(rows: seq<Row>, r: Row)
    ensures Sum(rows + [r]) == Sum(rows) + r.subtotal
  {
    assert (rows + [r])[..|rows|] == rows;
  }

  /** Raising the quantity of the line of `k`, at position `i`, by q raises
      the sum by price * q. */
  lemma {:induction false} SumAfterIncrease(keys: seq<string>, i: nat, k: string, qty: map<string, int>, q: int, prices: map<string, int>)
    requires Covers(keys, qty) && Covers(keys, prices) && i < |keys| && keys[i] == k
    requires forall j :: 0 <= j < |keys| && j != i ==> keys[j] != k
    ensures Covers(keys, qty[k := qty[k] + q])
    ensures Sum(RowsOf(keys, qty[k := qty[k] + q], prices)) == Sum(RowsOf(keys, qty, prices)) + Subtotal(prices[k], q)
    decreases |keys|, 1
  {
    if i == |keys| - 1 {
      SumAfterIncreaseLast(keys, i, k, qty, q, prices);
    } else {
      SumAfterIncreaseEarlier(keys, i, k, qty, q, prices);
    }
  }

  /** The case of SumAfterIncrease where the raised line is not the last
      one: the last row is unchanged and the rest is the same question on
      the earlier lines. */
  lemma {:induction false} SumAfterIncreaseEarlier(keys: seq<string>, i: nat, k: string, qty: map<string, int>, q: int, prices: map<string, int>)
    requires Covers(keys, qty) && Covers(keys, prices) && i < |keys| - 1 && keys[i] == k
    requires forall j :: 0 <= j < |keys| && j != i ==> keys[j] != k
    ensures Covers(keys, qty[k := qty[k] + q])
    ensures Sum(RowsOf(keys, qty[k := qty[k] + q], prices)) == Sum(RowsOf(keys, qty, prices)) + Subtotal(prices[k], q)
    decreases |keys|, 0
  {
    var n := |keys| - 1;
    var qty' := qty[k := qty[k] + q];
    var init, last := keys[..n], keys[n];
    assert init[i] == k && last == keys[n] != k;
    assert Covers(keys, qty');
    assert Covers(init, qty) && Covers(init, prices);
    var before, after := RowsOf(init, qty, prices), RowsOf(init, qty', prices);
    assert Sum(after) == Sum(before) + Subtotal(prices[k], q) by {
      assert forall j :: 0 <= j < |init| && j != i ==> init[j] != k;
      SumAfterIncrease(init, i, k, qty, q, prices);
    }
    var row := RowOf(last, qty, prices);
    assert RowOf(last, qty', prices) == row;
    SumSnoc(before, row);
    SumSnoc(after, row);
  }

  /** The case of SumAfterIncrease where the raised line is the last one. */
  lemma SumAfterIncreaseLast(keys: seq<string>, i: nat, k: string, qty: map<string, int>, q: int, prices: map<string, int>)
    requires Covers(keys, qty) && Covers(keys, prices) && i == |keys| - 1 && keys[i] == k
    requires forall j :: 0 <= j < |keys| && j != i ==> keys[j] != k
    ensures Covers(keys, qty[k := qty[k] + q])
    ensures Sum(RowsOf(keys, qty[k := qty[k] + q], prices)) == Sum(RowsOf(keys, qty, prices)) + Subtotal(prices[k], q)
  {
    var qty' := qty[k := qty[k] + q];
    var init := keys[..i];
    assert Covers(keys, qty');
    assert Covers(init, qty) && Covers(init, qty') && Covers(init, prices);
    var before := RowsOf(init, qty, prices);
    var total, total' := Sum(RowsOf(keys, qty, prices)), Sum(RowsOf(keys, qty', prices));
    assert total == Sum(before) + Subtotal(prices[k], qty[k]) by {
      SumSnoc(before, RowOf(k, qty, prices));
    }
    assert total' == Sum(before) + Subtotal(prices[k], qty'[k]) by {
      forall j | 0 <= j < |init| ensures qty[init[j]] == qty'[init[j]] {
        assert init[j] == keys[j] != k;
      }
      RowsOfAgree(init, qty, qty', prices);
      SumSnoc(before, RowOf(k, qty', prices));
    }
    SubtotalAdd(prices[k], qty[k], q);
  }

  /** Appending a new line of q adds price * q to the sum. */
  lemma SumAfterAppend(keys: seq<string>, k: string, qty: map<string, int>, q: int, prices: map<string, int>)
    requires k !in keys && Covers(keys, qty) && Covers(keys, prices) && k in prices
    ensures Covers(keys + [k], qty[k := q]) && Covers(keys + [k], prices)
    ensures Sum(RowsOf(keys + [k], qty[k := q], prices)) == Sum(RowsOf(keys, qty, prices)) + Subtotal(prices[k], q)
  {
    var keys' := keys + [k];
    assert keys'[..|keys'| - 1] == keys;
    RowsOfAgree(keys, qty, qty[k := q], prices);
  }

  lemma PutExistingRaisesTotal(l: Lines, k: string, q: int, prices: map<string, int>)
    requires l.Valid() && Covers(l.keys, prices) && k in l.qty
    ensures View(Put(l, k, q), prices).Priced?
    ensures View(Put(l, k, q), prices).total == View(l, prices).total + Subtotal(prices[k], q)
  {
    assert Covers(l.keys, l.qty) && View(l, prices).total == Sum(RowsOf(l.keys, l.qty, prices)) by {
      ViewPriced(l, prices);
    }
    PutExistingTotals(l, k, q, prices);
  }

  /** The page after adding to an existing line, against the rows before. */
  lemma PutExistingTotals(l: Lines, k: string, q: int, prices: map<string, int>)
    requires l.Valid() && Covers(l.keys, prices) && Covers(l.keys, l.qty) && k in l.qty
    ensures View(Put(l, k, q), prices).Priced?
    ensures View(Put(l, k, q), prices).total == Sum(RowsOf(l.keys, l.qty, prices)) + Subtotal(prices[k], q)
  {
    var p := Put(l, k, q);
    ViewPriced(p, prices);
    PutExistingSum(l.keys, k, l.qty, p.qty, q, prices);
  }

  /** The rows' total when the line of k, which occurs once in the order,
      holds q more and every other line is unchanged. */
  lemma PutExistingSum(keys: seq<string>, k: string, qty: map<string, int>, raised: map<string, int>, q: int, prices: map<string, int>)
    requires Distinct(keys) && Covers(keys, qty) && Covers(keys, raised) && Covers(keys, prices) && k in keys
    requires forall i :: 0 <= i < |keys| ==> raised[keys[i]] == if keys[i] == k then qty[k] + q else qty[keys[i]]
    ensures Sum(RowsOf(keys, raised, prices)) == Sum(RowsOf(keys, qty, prices)) + Subtotal(prices[k], q)
  {
    var i := IndexOf(keys, k);
    OnlyAt(keys, i);
    RowsOfAgree(keys, raised, qty[k := qty[k] + q], prices);
    SumAfterIncrease(keys, i, k, qty, q, prices);
  }

  lemma PutNewRaisesTotal(l: Lines, k: string, q: int, prices: map<string, int>)
    requires l.Valid() && Covers(l.keys, prices) && k in prices && k !in l.qty
    ensures View(Put(l, k, q), prices).Priced?
    ensures View(Put(l, k, q), prices).total == View(l, prices).total + Subtotal(prices[k], q)
  {
    var p := Put(l, k, q);
    ViewPriced(l, prices);
    assert Covers(p.keys, prices);
    ViewPriced(p, prices);
    SumAfterAppend(l.keys, k, l.qty, q, prices);
  }

  /** Adding q of a catalog item raises the total by price * q, whether it
      accumulates onto a line or opens one. */
  lemma PutRaisesTotal(l: Lines, k: string, q: int, prices: map<string, int>)
    requires l.Valid() && View(l, prices).Priced? && k in prices
    ensures View(Put(l, k, q), prices).Priced?
    ensures View(Put(l, k, q), prices).total == View(l, prices).total + prices[k] * q
  {
    if k in l.qty {
      PutExistingRaisesTotal(l, k, q, prices);
    } else {
      PutNewRaisesTotal(l, k, q, prices);
    }
    SubtotalIsProduct(prices[k], q);
  }

  // ---------------------------------------------------------------------
  // Histories of add and remove requests

  datatype Request = AddItem(pk: string, quantity: int) | RemoveItem(pk: string)

  /** The lines after a history of requests on a cart that has items. A
      removal of a key that is not a line raises KeyError before changing
      anything, so that request leaves the lines as they were and the next
      request works on them. */
  function Replay(l: Lines, reqs: seq<Request>): (r: Lines)
    requires l.Valid()
    ensures r.Valid()
    decreases |reqs|
  {
    if reqs == [] then l
    else match reqs[0]
      case AddItem(k, q) => Replay(Put(l, k, q), reqs[1..])
      case RemoveItem(k) => if k in l.qty then Replay(Delete(l, k), reqs[1..]) else Replay(l, reqs[1..])
  }

  /** A removal of a key that is not a line raises and changes nothing:
      the rest of the history runs on the same lines. */
  lemma ReplaySkipsFailedRemove(l: Lines, k: string, rest: seq<Request>)
    requires l.Valid() && k !in l.qty
    ensures Replay(l, [RemoveItem(k)] + rest) == Replay(l, rest)
  {
    assert ([RemoveItem(k)] + rest)[1..] == rest;
  }

  /** Requests are handled one after another: a history split in two is
      its second half replayed on the lines the first half leaves. */
  lemma {:induction false} ReplayAppend(l: Lines, a: seq<Request>, b: seq<Request>)
    requires l.Valid()
    ensures Replay(l, a + b) == Replay(Replay(l, a), b)
    decreases |a|
  {
    if a == [] {
      assert a + b == b;
    } else {
      assert (a + b)[0] == a[0] && (a + b)[1..] == a[1..] + b;
      match a[0]
      case AddItem(k, q) =>
        ReplayAppend(Put(l, k, q), a[1..], b);
      case RemoveItem(k) =>
        if k in l.qty {
          ReplayAppend(Delete(l, k), a[1..], b);
        } else {
          ReplayAppend(l, a[1..], b);
        }
    }
  }

  predicate AllPositive(l: Lines)
  {
    forall k :: k in l.qty ==> l.qty[k] > 0
  }

  predicate AddsPositive(reqs: seq<Request>)
  {
    forall i :: 0 <= i < |reqs| ==> (reqs[i].AddItem? ==> reqs[i].quantity > 0)
  }

  /** Lines only grow by +=, so when every added quantity is positive every
      line quantity stays positive, whatever the history. */
  lemma {:induction false} QuantitiesStayPositive(l: Lines, reqs: seq<Request>)
    requires l.Valid() && AllPositive(l) && AddsPositive(reqs)
    ensures AllPositive(Replay(l, reqs))
    decreases |reqs|
  {
    if reqs != [] {
      assert AddsPositive(reqs[1..]) by {
        forall i | 0 <= i < |reqs[1..]| ensures (reqs[1..][i].AddItem? ==> reqs[1..][i].quantity > 0) {
          assert reqs[1..][i] == reqs[i + 1];
        }
      }
      match reqs[0]
      case AddItem(k, q) =>
        assert reqs[0].quantity > 0;
        QuantitiesStayPositive(Put(l, k, q), reqs[1..]);
      case RemoveItem(k) =>
        if k in l.qty {
          QuantitiesStayPositive(Delete(l, k), reqs[1..]);
        } else {
          QuantitiesStayPositive(l, reqs[1..]);
        }
    }
  }

  /** With positive quantities and non-negative prices the total is not negative. */
  lemma TotalNonnegative(l: Lines, prices: map<string, int>)
    requires l.Valid() && AllPositive(l) && View(l, prices).Priced?
    requires forall k :: k in prices ==> prices[k] >= 0
    ensures View(l, prices).total >= 0
  {
    ValidCovers(l);
    var rows := View(l, prices).rows;
    forall i | 0 <= i < |rows| ensures rows[i].subtotal >= 0 {
      RowsOfAt(l.keys, l.qty, prices, i);
      SubtotalIsProduct(prices[l.keys[i]], l.qty[l.keys[i]]);
    }
    SumNonnegative(rows);
  }
}
