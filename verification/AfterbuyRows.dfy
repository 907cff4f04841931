// What the mirror holds of an order: which row an item goes to and which data it gets.
module AfterbuyRows {
  import opened Common
  import opened Afterbuy
  import opened AfterbuyRuns

  // A text in a column of n characters.
  predicate Fitted(stored: string, given: string, n: nat) {
    if |given| <= n then stored == given else |stored| == n && stored <= given
  }

  // The key of an item's row: the first of these that is not empty, in 80 characters.
  lemma KeySays(item: SoldItem)
    ensures Fitted(KeyOf(item),
                   if item.itemId != "" then item.itemId
                   else if item.anr != "" then item.anr
                   else if item.sku != "" then item.sku
                   else if item.productId != "" then item.productId
                   else if item.ean != "" then item.ean
                   else if item.title != "" then item.title
                   else "item", 80)
  {
    var title := Afterbuy.Prefix(item.title, 80);
    FirstOf(item.itemId, [item.anr, item.sku, item.productId, item.ean, title]);
    FirstOf(item.anr, [item.sku, item.productId, item.ean, title]);
    FirstOf(item.sku, [item.productId, item.ean, title]);
    FirstOf(item.productId, [item.ean, title]);
    FirstOf(item.ean, [title]);
    FirstOf(title, []);
    assert [item.itemId, item.anr, item.sku, item.productId, item.ean, title] == [item.itemId] + [item.anr, item.sku, item.productId, item.ean, title];
    assert [item.anr, item.sku, item.productId, item.ean, title] == [item.anr] + [item.sku, item.productId, item.ean, title];
    assert [item.sku, item.productId, item.ean, title] == [item.sku] + [item.productId, item.ean, title];
    assert [item.productId, item.ean, title] == [item.productId] + [item.ean, title];
    assert [item.ean, title] == [item.ean] + [title] && [title] == [title] + [];
  }

  lemma FirstOf(value: string, rest: seq<string>)
    ensures FirstNonEmpty([value] + rest) == if value != "" then value else FirstNonEmpty(rest)
  {
    assert ([value] + rest)[1..] == rest;
  }

  // The marketplace of an item is the order's when it names none, and another than the three known
  // ones is kept as unknown.
  lemma LineSays(item: SoldItem, o: SoldOrder, matched: Option<ProductId>)
    ensures var l := LineOf(item, o, matched);
            && Fitted(l.itemId, item.itemId, 32) && Fitted(l.anr, item.anr, 64) && Fitted(l.productId, item.productId, 64)
            && Fitted(l.sku, item.sku, 64) && Fitted(l.ean, item.ean, 14) && Fitted(l.title, item.title, 255)
            && Fitted(l.platformName, item.platformName, 80) && Fitted(l.platformOrder, item.platformOrder, 80)
            && l.quantity == item.quantity && l.unitPrice == item.unitPrice && l.tags == item.tags && l.matched == matched
            && l.marketplace == if item.marketplace.Known? then item.marketplace
                                else if item.marketplace.Blank? && o.marketplace.Known? then o.marketplace
                                else Unknown
  {
  }

  lemma HeaderSays(o: SoldOrder)
    ensures var h := HeaderOf(o);
            && h.marketplace == (if o.marketplace.Known? then o.marketplace else Unknown)
            && h.paidAt == o.paidAt && h.total == o.total
            && Fitted(h.currency, if o.currency == "" then "EUR" else o.currency, 8)
            && Fitted(h.payment, o.payment, 80) && Fitted(h.platformOrder, o.platformOrder, 80)
            && Fitted(h.buyer.name, o.buyer.name, 160) && Fitted(h.buyer.email, o.buyer.email, 254)
            && Fitted(h.buyer.platformUser, o.buyer.platformUser, 120)
  {
  }

  // An order is stored when it is paid, has items and it or one of them names a known marketplace.
  lemma {:induction false} AcceptedSays(o: SoldOrder)
    ensures Accepted(o) <==>
              o.paidAt.Some? && o.items != [] && (o.marketplace.Known? || exists i | 0 <= i < |o.items| :: o.items[i].marketplace.Known?)
  {
    AnyTrackedSays(o.items);
  }

  lemma {:induction false} AnyTrackedSays(items: seq<SoldItem>)
    ensures AnyTracked(items) <==> exists i | 0 <= i < |items| :: items[i].marketplace.Known?
  {
    if items != [] {
      AnyTrackedSays(items[1..]);
      if i :| 0 <= i < |items[1..]| && items[1..][i].marketplace.Known? {
        assert items[i + 1].marketplace.Known?;
      }
      if i :| 0 <= i < |items| && items[i].marketplace.Known? {
        assert i > 0 ==> items[1..][i - 1].marketplace.Known?;
      }
    }
  }

  // The items of an order that are stored.
  predicate Stores(o: SoldOrder, i: nat)
    requires i < |o.items|
  {
    o.items[i].marketplace.Known? || o.marketplace.Known?
  }

  predicate LastWithKey(o: SoldOrder, i: nat, n: nat)
    requires i < n <= |o.items|
  {
    Stores(o, i) && forall j | i < j < n && Stores(o, j) :: KeyOf(o.items[j]) != KeyOf(o.items[i])
  }

  function RowOf(account: Account, o: SoldOrder, i: nat): ItemKey
    requires i < |o.items|
  {
    ItemKey(OrderKey(account, o.id), KeyOf(o.items[i]))
  }

  function LineFor(account: Account, o: SoldOrder, i: nat, catalogue: Catalogue): Line
    requires i < |o.items|
  {
    LineOf(o.items[i], o, IdOf(catalogue(account, o.items[i])))
  }

  // What item n adds to the writes.
  function WritesOf(account: Account, o: SoldOrder, catalogue: Catalogue, n: nat): seq<Write>
    requires n < |o.items|
  {
    if Stores(o, n) then [ItemWrite(account, o, o.items[n], catalogue(account, o.items[n]))] else []
  }

  lemma OneItemSays(account: Account, o: SoldOrder, catalogue: Catalogue, n: nat, k: ItemKey)
    requires n < |o.items|
    ensures ItemWrites(account, o, catalogue, n + 1) == ItemWrites(account, o, catalogue, n) + WritesOf(account, o, catalogue, n)
    ensures LastHeader(WritesOf(account, o, catalogue, n), k.order).None?
    ensures LastLine(WritesOf(account, o, catalogue, n), k)
            == if Stores(o, n) && k == RowOf(account, o, n) then Some(LineFor(account, o, n, catalogue)) else None
  {
    assert WritesOf(account, o, catalogue, n)[..0] == [];
  }

  lemma {:induction false} LastItemIsWritten(account: Account, o: SoldOrder, catalogue: Catalogue, i: nat, n: nat)
    requires i < n <= |o.items| && LastWithKey(o, i, n)
    ensures LastLine(ItemWrites(account, o, catalogue, n), RowOf(account, o, i)) == Some(LineFor(account, o, i, catalogue))
  {
    OneItemSays(account, o, catalogue, n - 1, RowOf(account, o, i));
    SummaryAppend(ItemWrites(account, o, catalogue, n - 1), WritesOf(account, o, catalogue, n - 1), RowOf(account, o, i));
    if i < n - 1 {
      LastItemIsWritten(account, o, catalogue, i, n - 1);
    }
  }

  // Storing an order gives each row the data of the last of its items that goes there, and the
  // header its own.
  lemma StoredRows(m: Mirror, account: Account, o: SoldOrder, catalogue: Catalogue, i: nat)
    requires i < |o.items| && LastWithKey(o, i, |o.items|)
    ensures var after := ApplyAll(m, OrderWrites(account, o, catalogue));
            && RowOf(account, o, i) in after.items && after.items[RowOf(account, o, i)].line == LineFor(account, o, i, catalogue)
            && OrderKey(account, o.id) in after.orders && after.orders[OrderKey(account, o.id)] == HeaderOf(o)
  {
    var k := RowOf(account, o, i);
    var header, items := [OrderRow(OrderKey(account, o.id), HeaderOf(o))], ItemWrites(account, o, catalogue, |o.items|);
    LastItemIsWritten(account, o, catalogue, i, |o.items|);
    SummaryAppend(header, items, k);
    NoHeaderAmongItems(account, o, catalogue, |o.items|, k.order);
    assert header[..0] == [] && LastHeader(header, k.order) == Some(HeaderOf(o));
    WritesSummary(m, OrderWrites(account, o, catalogue), k, k.order);
  }

  lemma {:induction false} NoHeaderAmongItems(account: Account, o: SoldOrder, catalogue: Catalogue, n: nat, k: OrderKey)
    requires n <= |o.items|
    ensures LastHeader(ItemWrites(account, o, catalogue, n), k).None?
  {
    if n > 0 {
      NoHeaderAmongItems(account, o, catalogue, n - 1, k);
      OneItemSays(account, o, catalogue, n - 1, ItemKey(k, ""));
      SummaryAppend(ItemWrites(account, o, catalogue, n - 1), WritesOf(account, o, catalogue, n - 1), ItemKey(k, ""));
    }
  }

  // Rows no stored item of the order goes to are left alone.
  lemma {:induction false} OtherRowsStay(account: Account, o: SoldOrder, catalogue: Catalogue, n: nat, k: ItemKey)
    requires n <= |o.items| && forall i | 0 <= i < n && Stores(o, i) :: RowOf(account, o, i) != k
    ensures LastLine(ItemWrites(account, o, catalogue, n), k).None?
  {
    if n > 0 {
      OtherRowsStay(account, o, catalogue, n - 1, k);
      OneItemSays(account, o, catalogue, n - 1, k);
      SummaryAppend(ItemWrites(account, o, catalogue, n - 1), WritesOf(account, o, catalogue, n - 1), k);
    }
  }

  // So the items of an order with ids of their own, within the key length, keep rows of their own.
  lemma OwnIdsKeepOwnRows(m: Mirror, account: Account, o: SoldOrder, catalogue: Catalogue, i: nat)
    requires i < |o.items| && Stores(o, i)
    requires forall j | 0 <= j < |o.items| :: 0 < |o.items[j].itemId| <= 80
    requires forall j, n | 0 <= j < n < |o.items| :: o.items[j].itemId != o.items[n].itemId
    ensures var after, k := ApplyAll(m, OrderWrites(account, o, catalogue)), ItemKey(OrderKey(account, o.id), o.items[i].itemId);
            && k in after.items
            && after.items[k].line.quantity == o.items[i].quantity && after.items[k].line.unitPrice == o.items[i].unitPrice
            && Fitted(after.items[k].line.title, o.items[i].title, 255)
            && after.items[k].line.matched == IdOf(catalogue(account, o.items[i]))
  {
    forall j | 0 <= j < |o.items| ensures KeyOf(o.items[j]) == o.items[j].itemId {
      KeySays(o.items[j]);
    }
    StoredRows(m, account, o, catalogue, i);
    LineSays(o.items[i], o, IdOf(catalogue(account, o.items[i])));
  }

  // ---- pages ----

  // All orders of the first n pages.
  function AllOrders(pages: seq<Page>, n: nat): seq<SoldOrder>
    requires n <= |pages|
  {
    if n == 0 then [] else AllOrders(pages, n - 1) + pages[n - 1].orders
  }

  lemma {:induction false} AcceptedInOrder(a: seq<SoldOrder>, b: seq<SoldOrder>)
    ensures PageOrders(a + b) == PageOrders(a) + PageOrders(b)
  {
    if b == [] {
      assert a + b == a;
    } else {
      assert (a + b)[..|a + b| - 1] == a + b[..|b| - 1];
      AcceptedInOrder(a, b[..|b| - 1]);
    }
  }

  lemma OneOrderAccepted(o: SoldOrder)
    ensures PageOrders([o]) == if Accepted(o) then [o] else []
  {
    assert [o][..0] == [];
  }

  // The report counts every order that was read as fetched, and the accepted ones among them, in
  // their order, as stored, each id once as unique.
  lemma {:induction false} TallySays(pages: seq<Page>, n: nat)
    requires n <= |pages|
    ensures var all := AllOrders(pages, n);
            Window(pages, n) == PageOrders(all) && TallyOf(pages, n) == Tally(|all|, |PageOrders(all)|, Ids(PageOrders(all)))
  {
    if n > 0 {
      TallySays(pages, n - 1);
      AcceptedInOrder(AllOrders(pages, n - 1), pages[n - 1].orders);
    }
  }

  // Reading ends with the first page that is the last one, names no last order, or names the one
  // the page before named.
  lemma EndsSays(pages: seq<Page>, n: nat)
    requires 0 < n <= |pages|
    ensures EndsAt(pages[n - 1], Cursor(pages, n - 1)) <==>
              !pages[n - 1].hasMore || pages[n - 1].lastOrderId == "" || (n > 1 && pages[n - 2].lastOrderId == pages[n - 1].lastOrderId)
  {
  }
}
