# Session cart of the storefront, in Dafny

This project models the shopping cart of a Django storefront. The cart is kept in the
web session under `"cart"`. It is a dictionary whose `"items"` entry is an ordered
dictionary from item primary key to quantity. Once the cart page has been shown, it
also holds `"total"` and `"tax_included_total"`. Three views work on it:

- **add** (`AddCartView.post`) creates the cart when the session has none or holds an
  empty dictionary. It then adds the quantity to the item's line, or opens a new line
  at the end.
- **remove** (`remove_from_cart`) deletes the item's line when the session has a cart.
- **cart page** (`CartListView.get_queryset`) returns at once, computing and writing
  nothing, when there is no cart. Otherwise it walks the lines in insertion order and looks up each item's price. It
  builds one row per line with `subtotal = price * quantity` and sums the subtotals.
  It computes `int(total * (TAX_RATE + 1))` and writes both totals back into the cart.

Files:

- `cart_lines.dfy` (module `CartLines`) holds the pure specification. It models the
  ordered dictionary as `Lines(keys, qty)`, with insertion order and quantities. `Put`
  and `Delete` are the two changes the views make to it. `View` gives the rows and total
  of the cart page, and `Replay` runs a history of add and remove requests. The lemmas
  cover order, accumulation, totals and positivity.
- `tax.dfy` (module `Tax`) models the tax rate as an exact fraction `num/den`. It writes
  Python's `int()` out as truncation toward zero.
- `cart_views.dfy` (module `CartViews`) holds the class `SessionCart`, whose fields are
  the session's cart entry. Its methods are the three views. Each is proved against the
  functions of `CartLines` and `Tax`. A scenario method runs add, add, view, remove and
  view on concrete items.

The model follows the code, which is laxer than one might expect:

- add accepts any quantity, including zero and negatives, and does not check the item
  against the catalog;
- remove of a key that is not a line raises `KeyError`;
- the cart page raises `Item.DoesNotExist` on the first line whose item the catalog
  lacks, and writes nothing; stale lines are not pruned;
- add and remove leave the stored totals as they were, so they are stale until the cart
  page is shown again;
- a cart entry that is the empty dictionary `{}` counts as "no cart" for add and for the
  cart page. remove only tests for `None`, so on `{}` it raises `KeyError("items")`.

## Model

| member | source | states |
|---|---|---|
| `CartLines.Put` | src/base/views/cart_views.py:55-58 | an existing line gains exactly `q`; a new key gets a line of exactly `q`, appended after the old order; every other line and its quantity is unchanged; well-formedness is kept |
| `CartLines.PutTwice` | src/base/views/cart_views.py:55-58 | adding `a` then `b` to one key gives the same lines as adding `a + b` once: one line, not two |
| `CartLines.PutKeepsOrder` | src/base/views/cart_views.py:53-58 | after an add every existing line keeps its position, and a new key is at position `|keys|`, last |
| `CartLines.Delete` | src/base/views/cart_views.py:75 | deleting a present key removes exactly that line: the key is gone from order and dictionary, every other key keeps its quantity, and the order shrinks by one |
| `CartLines.DeleteKeepsOrder` | src/base/views/cart_views.py:75 | any two remaining lines are in the same relative order after the deletion as before |
| `CartLines.DeleteUndoesPut` | src/base/views/cart_views.py:55-58 | deleting a key that was just added to lines without it gives the original lines back |
| `CartLines.FirstUnpriced` | src/base/views/cart_views.py:19-20 | the first line, in insertion order, whose item has no price; every earlier line is priced |
| `CartLines.View` | src/base/views/cart_views.py:17-25 | the page renders iff every line's item has a price; otherwise it names a line missing from the catalog; it has one row per line and total = sum of subtotals; no lines give total 0 |
| `CartLines.ViewRowsMatchLines` | src/base/views/cart_views.py:19-24 | row `m` is line `m`: its key, its price, its quantity and subtotal price * quantity |
| `CartLines.RowsOfAt` | src/base/views/cart_views.py:21-24 | the row built for position `m` is the row of the key at `m`: that key, its price, its quantity and its subtotal |
| `CartLines.Subtotal` | src/base/views/cart_views.py:23 | a line's subtotal: zero for a zero quantity; not negative for a non-negative price and quantity; not positive for a non-negative price and a non-positive quantity |
| `CartLines.RowOf` | src/base/views/cart_views.py:20-23 | the row of a line carries that line's key, the catalog price of its item and its quantity |
| `CartLines.RowOfSubtotal` | src/base/views/cart_views.py:23 | a row's subtotal is its price times its quantity |
| `CartLines.Sum` | src/base/views/cart_views.py:18-25 | the running total starts at 0, and a single row contributes exactly its subtotal (with `SumAppend`, the total is the sum of all subtotals) |
| `CartLines.RowsOf` | src/base/views/cart_views.py:19-24 | the rows built for the lines: exactly one row per line |
| `CartLines.SumNonnegative` | src/base/views/cart_views.py:25 | a running total of non-negative subtotals is not negative |
| `CartLines.SubtotalIsProduct` | src/base/views/cart_views.py:23 | the subtotal, written as repeated addition, equals price * quantity for every quantity, negative ones included |
| `CartLines.SubtotalAdd` | src/base/views/cart_views.py:56 | the subtotal of an accumulated quantity `a + q` is the subtotal of `a` plus the subtotal of `q` |
| `CartLines.SumAppend` | src/base/views/cart_views.py:25 | the running total of two runs of rows is the sum of their totals |
| `CartLines.DeleteLowersTotal` | src/base/views/cart_views.py:75 | after removing a line the page still renders, no row names the removed item, and the total drops by exactly its price * quantity |
| `CartLines.PutRaisesTotal` | src/base/views/cart_views.py:55-58 | adding `q` of a catalog item raises the page total by exactly price * `q`, whether the line existed or not |
| `CartLines.Replay` | src/base/views/cart_views.py:48-77 | any history of adds and removes on a cart with items keeps the lines well formed |
| `CartLines.ReplaySkipsFailedRemove` | src/base/views/cart_views.py:73-75 | a removal of a key that is not a line raises and leaves the lines as they were, and the following requests go on from them |
| `CartLines.ReplayAppend` | src/base/views/cart_views.py:48-77 | requests are handled one after another: replaying a history split in two is replaying the second part on the lines the first part leaves |
| `CartLines.QuantitiesStayPositive` | src/base/views/cart_views.py:55-58 | if every added quantity is positive, every line quantity stays positive after any history of adds and removes, failed removals included |
| `CartLines.TotalNonnegative` | src/base/views/cart_views.py:23-25 | with positive quantities and non-negative prices the page total is not negative |
| `Tax.TruncDiv` | src/base/views/cart_views.py:26 | `int()` of a quotient: for a non-negative dividend the floor, for a negative one the ceiling (toward zero) |
| `Tax.TaxIncluded` | src/base/views/cart_views.py:26 | `int(total * (TAX_RATE + 1))` with the rate as `num/den`: for a non-negative product, the largest integer not above it; for a negative one, the smallest integer not below it |
| `Tax.TaxIncludedBounds` | src/base/views/cart_views.py:26 | for total >= 0 and rate >= 0: total <= tax_included_total <= total * (1 + rate) < tax_included_total + 1 |
| `Tax.TaxIncludedNegative` | src/base/views/cart_views.py:26 | a negative total is truncated toward zero: the result is in [total * (1 + rate), total * (1 + rate) + 1) |
| `Tax.ZeroRateKeepsTotal` | src/base/views/cart_views.py:26 | a zero rate leaves the total unchanged |
| `Tax.TenPercentExamples` | src/base/views/cart_views.py:26 | at 10%: 2000 gives 2200, 1000 gives 1100, 999 gives 1098, and -999 gives -1098 |
| `CartViews.SessionCart.NoCart` | src/base/views/cart_views.py:15 | `cart is None or len(cart) == 0`, the same test as line 52: for a valid session it holds exactly when there is no "items" entry |
| `CartViews.SessionCart.Absent` | src/base/views/cart_views.py:51 | a session without a cart counts as "no cart" |
| `CartViews.SessionCart.Cleared` | src/base/views/cart_views.py:52 | a cart entry that is the empty dictionary also counts as "no cart" |
| `CartViews.SessionCart.Add` | src/base/views/cart_views.py:48-60 | with no cart, the result is a cart whose only line is `itemPk` with `quantity`; otherwise the lines become `Put(old lines, itemPk, quantity)`; stored totals are untouched |
| `CartViews.SessionCart.Remove` | src/base/views/cart_views.py:63-77 | no cart: nothing changes; `{}`: `KeyError("items")`; missing key: `KeyError(pk)`, nothing changes; otherwise the lines become `Delete(old lines, pk)`; totals are untouched |
| `CartViews.SessionCart.ComputeRows` | src/base/views/cart_views.py:17-25 | the loop returns exactly `View(lines, prices)`: the rows in order with their running total, or the first line whose item lookup raises |
| `CartViews.SessionCart.Recompute` | src/base/views/cart_views.py:13-29 | no cart: `RedirectHome` (the view returns at once) and nothing changes; unknown item: `Item.DoesNotExist` and nothing is written; otherwise rows, total and `TaxIncluded(total, rate)` are returned and both totals are stored; the lines never change |
| `CartViews.SessionCart.RecomputeTwice` | src/base/views/cart_views.py:19-29 | showing the cart page twice with the same catalog and rate gives the same page. The cart stays valid, and its presence, its "items" entry and its lines are unchanged. The stored totals are the page's totals when it lists the cart, and unchanged otherwise |
| `CartViews.ListsTwoLines` | src/base/views/cart_views.py:19-25 | a cart of 2 x item-1 at 500 and 1 x item-2 at 1000 is listed as those two rows in that order, with total 2000 |
| `CartViews.RemoveFirstAndList` | src/base/views/cart_views.py:73-77 | removing item-1 from that cart leaves item-2 alone, and the cart page then stores total 1000 and tax-included total 1100 |

## Left out

- Django plumbing is not modelled: the redirect responses, `request.session["cart"] = cart`, template rendering, and `get_context_data` with its `try/except` (src/base/views/cart_views.py:32-39). `get_queryset` returns a redirect object as its queryset when there is no cart. This is modelled only as `RedirectHome`, with no change.
- Request parsing is not modelled. `item_pk` and `quantity` arrive as a string and an integer. A `ValueError` from `int()` on a non-numeric quantity, and a missing `item_pk`, are outside the model.
- `CartViews.SessionCart.Recompute`: the tax uses an exact rational rate `num/den` instead of the float `settings.TAX_RATE`. The float product can land just below an integer and truncate one lower, and the model does not capture that.
- `CartLines.View`: a row carries the item key, price, quantity and subtotal. The other display fields of the `Item` object are not modelled. Prices are integers, so `int(obj.price * quantity)` is the product itself.
- The catalog (`Item.objects.get`) is a parameter, a map from key to price. A missing key stands for `Item.DoesNotExist`. Database errors are not modelled.
- Exceptions end the request with nothing saved. The model returns them as values (`KeyError`, `ItemDoesNotExist`) with the cart unchanged.
- Concurrent requests on one session, where one can overwrite another's update, are not modelled. The code does nothing about them, and they are not sequential logic.
- The session's serialisation of the cart (the `OrderedDict` stored as JSON) is not modelled. Only the insertion order matters here, and it is modelled.
- The logger modules, `manage.py`, the URL table, the admin registrations and the item list/detail views are not part of this model. They hold no cart logic.
