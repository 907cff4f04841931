// Mirroring sold orders of Afterbuy (apps/afterbuy/sync.py, settlement.py, notify.py): an order
// and its items are updated or created, the price of a sold item is frozen once, and managers
// are told about it once.
module Afterbuy {
  import opened Common

  type ProductId = nat

  // The marketplace named by an order or an item; names compare without case.
  datatype Channel = Blank | Unknown | Known(marketplace: Marketplace)

  datatype SoldItem = SoldItem(
    itemId: string, anr: string, productId: string, sku: string, ean: string, title: string,
    quantity: int, unitPrice: Option<real>, platformName: string, marketplace: Channel, platformOrder: string, tags: map<string, string>)

  datatype SoldOrder = SoldOrder(
    id: string, paidAt: Option<int>, total: Option<real>, currency: string, payment: string, platformOrder: string,
    buyer: Buyer, marketplace: Channel, items: seq<SoldItem>)

  datatype Buyer = Buyer(name: string, email: string, platformUser: string)

  datatype OrderKey = OrderKey(account: Account, id: string)

  datatype ItemKey = ItemKey(order: OrderKey, key: string)

  datatype Header = Header(
    marketplace: Channel, paidAt: Option<int>, total: Option<real>, currency: string, payment: string, platformOrder: string, buyer: Buyer)

  // The fields every synchronisation rewrites.
  datatype Line = Line(
    itemId: string, anr: string, productId: string, sku: string, ean: string, title: string,
    quantity: int, unitPrice: Option<real>, platformName: string, marketplace: Channel, platformOrder: string, tags: map<string, string>,
    matched: Option<ProductId>)

  datatype Settlement = Settlement(price: real, currency: string)

  datatype Stored = Stored(line: Line, settled: Option<Settlement>)

  // A catalogue product as the match finds it, with its present price.
  datatype Matched = Matched(id: ProductId, price: Settlement)

  // `notices` tells whether the notice of an item is sent, `messages` lists the items managers
  // were told about, one entry for each round of messages.
  datatype Mirror = Mirror(
    orders: map<OrderKey, Header>, items: map<ItemKey, Stored>, notices: map<ItemKey, bool>, messages: seq<ItemKey>)

  const EmptyMirror := Mirror(map[], map[], map[], [])

  // ---- normalization ----

  function Prefix(s: string, n: nat): string {
    if |s| <= n then s else s[..n]
  }

  function FirstNonEmpty(values: seq<string>): string {
    if values == [] then "item" else if values[0] != "" then values[0] else FirstNonEmpty(values[1..])
  }

  function KeyOf(item: SoldItem): string {
    Prefix(FirstNonEmpty([item.itemId, item.anr, item.sku, item.productId, item.ean, Prefix(item.title, 80)]), 80)
  }

  predicate Tracked(c: Channel) {
    c.Known?
  }

  // Every other channel is stored as "other".
  function ChannelOf(c: Channel): Channel {
    if Tracked(c) then c else Unknown
  }

  function HeaderOf(o: SoldOrder): Header {
    Header(ChannelOf(o.marketplace), o.paidAt, o.total, Prefix(if o.currency == "" then "EUR" else o.currency, 8),
           Prefix(o.payment, 80), Prefix(o.platformOrder, 80),
           Buyer(Prefix(o.buyer.name, 160), Prefix(o.buyer.email, 254), Prefix(o.buyer.platformUser, 120)))
  }

  function LineOf(item: SoldItem, o: SoldOrder, matched: Option<ProductId>): Line {
    Line(Prefix(item.itemId, 32), Prefix(item.anr, 64), Prefix(item.productId, 64), Prefix(item.sku, 64), Prefix(item.ean, 14),
         Prefix(item.title, 255), item.quantity, item.unitPrice, Prefix(item.platformName, 80),
         ChannelOf(if item.marketplace == Blank then o.marketplace else item.marketplace), Prefix(item.platformOrder, 80),
         item.tags, matched)
  }

  // ---- writes ----

  datatype Write = OrderRow(key: OrderKey, header: Header) | ItemRow(item: ItemKey, line: Line, product: Option<Matched>)

  // update_or_create of the item, then the price snapshot.
  function Saved(before: Option<Stored>, line: Line, product: Option<Matched>): Stored {
    var settled := if before.Some? then before.value.settled else None;
    Stored(line, if settled.None? && product.Some? then Some(product.value.price) else settled)
  }

  function ItemAt(m: Mirror, k: ItemKey): Option<Stored> {
    if k in m.items then Some(m.items[k]) else None
  }

  predicate IsSent(m: Mirror, k: ItemKey) {
    k in m.notices && m.notices[k]
  }

  function Apply(m: Mirror, w: Write): Mirror {
    match w
    case OrderRow(k, header) => m.(orders := m.orders[k := header])
    case ItemRow(k, line, product) =>
      var saved := m.(items := m.items[k := Saved(ItemAt(m, k), line, product)]);
      if product.None? || IsSent(m, k) then saved
      else saved.(notices := saved.notices[k := true], messages := saved.messages + [k])
  }

  function ApplyAll(m: Mirror, ws: seq<Write>): Mirror {
    if ws == [] then m else Apply(ApplyAll(m, ws[..|ws| - 1]), ws[|ws| - 1])
  }

  // ---- one order ----

  // The catalogue, as far as the matching sees it.
  type Catalogue = (Account, SoldItem) -> Option<Matched>

  function IdOf(product: Option<Matched>): Option<ProductId> {
    if product.Some? then Some(product.value.id) else None
  }

  function ItemWrite(account: Account, o: SoldOrder, item: SoldItem, product: Option<Matched>): Write {
    ItemRow(ItemKey(OrderKey(account, o.id), KeyOf(item)), LineOf(item, o, IdOf(product)), product)
  }

  function ItemWrites(account: Account, o: SoldOrder, catalogue: Catalogue, n: nat): seq<Write>
    requires n <= |o.items|
  {
    if n == 0 then []
    else
      var item := o.items[n - 1];
      ItemWrites(account, o, catalogue, n - 1)
      + if Tracked(item.marketplace) || Tracked(o.marketplace) then [ItemWrite(account, o, item, catalogue(account, item))] else []
  }

  function OrderWrites(account: Account, o: SoldOrder, catalogue: Catalogue): seq<Write> {
    [OrderRow(OrderKey(account, o.id), HeaderOf(o))] + ItemWrites(account, o, catalogue, |o.items|)
  }

  lemma {:induction false} ApplyAppend(m: Mirror, first: seq<Write>, more: seq<Write>)
    ensures ApplyAll(m, first + more) == ApplyAll(ApplyAll(m, first), more)
  {
    if more == [] {
      assert first + more == first;
    } else {
      assert (first + more)[..|first + more| - 1] == first + more[..|more| - 1];
      ApplyAppend(m, first, more[..|more| - 1]);
    }
  }

  lemma ApplyOne(m: Mirror, w: Write)
    ensures ApplyAll(m, [w]) == Apply(m, w)
  {
    assert [w][..0] == [];
    assert ApplyAll(m, [w][..0]) == m;
  }

  // ---- pages ----

  datatype Page = Page(orders: seq<SoldOrder>, hasMore: bool, lastOrderId: string)

  predicate AnyTracked(items: seq<SoldItem>) {
    items != [] && (Tracked(items[0].marketplace) || AnyTracked(items[1..]))
  }

  predicate Accepted(o: SoldOrder) {
    o.items != [] && o.paidAt.Some? && (AnyTracked(o.items) || Tracked(o.marketplace))
  }

  function PageOrders(orders: seq<SoldOrder>): seq<SoldOrder> {
    if orders == [] then []
    else PageOrders(orders[..|orders| - 1]) + if Accepted(orders[|orders| - 1]) then [orders[|orders| - 1]] else []
  }

  function OrdersWrites(account: Account, orders: seq<SoldOrder>, catalogue: Catalogue): seq<Write> {
    if orders == [] then []
    else OrdersWrites(account, orders[..|orders| - 1], catalogue) + OrderWrites(account, orders[|orders| - 1], catalogue)
  }

  function Ids(orders: seq<SoldOrder>): set<string> {
    set o | o in orders :: o.id
  }

  // Accepted orders of the first n pages.
  function Window(pages: seq<Page>, n: nat): seq<SoldOrder>
    requires n <= |pages|
  {
    if n == 0 then [] else Window(pages, n - 1) + PageOrders(pages[n - 1].orders)
  }

  function Fetched(pages: seq<Page>, n: nat): nat
    requires n <= |pages|
  {
    if n == 0 then 0 else Fetched(pages, n - 1) + |pages[n - 1].orders|
  }

  // The cursor page n is fetched with.
  function Cursor(pages: seq<Page>, n: nat): Option<string>
    requires n <= |pages|
  {
    if n == 0 then None else Some(pages[n - 1].lastOrderId)
  }

  // The page that ends the loop.
  predicate EndsAt(page: Page, cursor: Option<string>) {
    !page.hasMore || page.lastOrderId == "" || Some(page.lastOrderId) == cursor
  }

  predicate NoneEnds(pages: seq<Page>, n: nat)
    requires n <= |pages|
  {
    n == 0 || (NoneEnds(pages, n - 1) && !EndsAt(pages[n - 1], Cursor(pages, n - 1)))
  }

  ghost predicate PageSynced(before: Mirror, page: Page, after: Mirror, account: Account, catalogue: Catalogue) {
    forall ws | ws == OrdersWrites(account, PageOrders(page.orders), catalogue) :: after == ApplyAll(before, ws)
  }

  ghost predicate SyncedAt(states: seq<Mirror>, pages: seq<Page>, account: Account, catalogue: Catalogue, i: nat)
    requires i + 1 < |states| <= |pages| + 1
  {
    PageSynced(states[i], pages[i], states[i + 1], account, catalogue)
  }

  // The stored state before the first page and after each of the pages read.
  ghost predicate PagesSynced(states: seq<Mirror>, pages: seq<Page>, account: Account, catalogue: Catalogue) {
    0 < |states| <= |pages| + 1
    && forall i | 0 <= i < |states| - 1 :: SyncedAt(states, pages, account, catalogue, i)
  }

  // Pages up to n have been read, and only the last of them may have ended the loop.
  predicate ReadUpTo(pages: seq<Page>, n: nat, ended: bool, cursor: Option<string>) {
    n <= |pages|
    && if ended then n > 0 && EndsAt(pages[n - 1], Cursor(pages, n - 1)) && NoneEnds(pages, n - 1)
       else NoneEnds(pages, n) && cursor == Cursor(pages, n)
  }

  ghost predicate ReadSoFar(pages: seq<Page>, n: nat, ended: bool, cursor: Option<string>) {
    forall ps | ps == pages :: ReadUpTo(ps, n, ended, cursor)
  }

  lemma ReadSoFarMeans(pages: seq<Page>, n: nat, ended: bool, cursor: Option<string>)
    ensures ReadSoFar(pages, n, ended, cursor) <==> ReadUpTo(pages, n, ended, cursor)
  {
  }

  lemma ReadNothing(pages: seq<Page>)
    ensures ReadSoFar(pages, 0, false, None)
  {
  }

  lemma ReadNext(pages: seq<Page>, n: nat, cursor: Option<string>)
    requires n < |pages| && ReadSoFar(pages, n, false, cursor)
    ensures ReadSoFar(pages, n + 1, EndsAt(pages[n], cursor), Some(pages[n].lastOrderId))
  {
    ReadSoFarMeans(pages, n, false, cursor);
    ReadSoFarMeans(pages, n + 1, EndsAt(pages[n], cursor), Some(pages[n].lastOrderId));
  }

  datatype Tally = Tally(fetched: nat, stored: nat, seen: set<string>)

  function TallyOf(pages: seq<Page>, n: nat): Tally
    requires n <= |pages|
  {
    Tally(Fetched(pages, n), |Window(pages, n)|, Ids(Window(pages, n)))
  }

  ghost predicate Tallied(tally: Tally, pages: seq<Page>, n: nat)
    requires n <= |pages|
  {
    forall w | w == Window(pages, n) :: tally == Tally(Fetched(pages, n), |w|, Ids(w))
  }

  lemma TalliedMeans(tally: Tally, pages: seq<Page>, n: nat)
    requires n <= |pages|
    ensures Tallied(tally, pages, n) <==> tally == TallyOf(pages, n)
  {
    assert TallyOf(pages, n) == Tally(Fetched(pages, n), |Window(pages, n)|, Ids(Window(pages, n)));
  }

  lemma NothingTallied(pages: seq<Page>)
    ensures Tallied(Tally(0, 0, {}), pages, 0)
  {
    TalliedMeans(Tally(0, 0, {}), pages, 0);
    assert Ids([]) == {};
  }

  lemma OneMorePage(states: seq<Mirror>, after: Mirror, pages: seq<Page>, account: Account, catalogue: Catalogue)
    requires PagesSynced(states, pages, account, catalogue) && |states| <= |pages|
    requires PageSynced(states[|states| - 1], pages[|states| - 1], after, account, catalogue)
    ensures PagesSynced(states + [after], pages, account, catalogue)
  {
    forall i | 0 <= i < |states| ensures SyncedAt(states + [after], pages, account, catalogue, i) {
      assert i < |states| - 1 ==> SyncedAt(states, pages, account, catalogue, i);
    }
  }

  datatype SyncReport = Skipped | Synced(fetched: nat, stored: nat, unique: nat) | FetchFailed

  function ReportOf(t: Tally): SyncReport {
    Synced(t.fetched, t.stored, |t.seen|)
  }

  class Database {
    var mirror: Mirror

    method ApplyCardPriceSnapshot(k: ItemKey, product: Option<Matched>)
      requires k in mirror.items
      modifies this
      ensures mirror == old(mirror).(items := old(mirror).items[k := Saved(Some(old(mirror).items[k]), old(mirror).items[k].line, product)])
    {
      if product.None? || mirror.items[k].settled.Some? {
        return;
      }
      mirror := mirror.(items := mirror.items[k := mirror.items[k].(settled := Some(product.value.price))]);
    }

    method QueueSaleNotification(k: ItemKey)
      modifies this
      ensures mirror == if IsSent(old(mirror), k) then old(mirror)
                        else old(mirror).(notices := old(mirror).notices[k := true], messages := old(mirror).messages + [k])
    {
      if k !in mirror.notices {
        mirror := mirror.(notices := mirror.notices[k := false]);
      }
      if mirror.notices[k] {
        return;
      }
      mirror := mirror.(messages := mirror.messages + [k]);
      mirror := mirror.(notices := mirror.notices[k := true]);
    }

    method UpsertItem(k: ItemKey, line: Line, product: Option<Matched>)
      modifies this
      ensures mirror == Apply(old(mirror), ItemRow(k, line, product))
    {
      var stored := if k in mirror.items then mirror.items[k].(line := line) else Stored(line, None);
      mirror := mirror.(items := mirror.items[k := stored]);
      ApplyCardPriceSnapshot(k, product);
      if product.Some? {
        QueueSaleNotification(k);
      }
    }

    method UpsertSoldOrder(account: Account, o: SoldOrder, catalogue: Catalogue)
      modifies this
      ensures mirror == ApplyAll(old(mirror), OrderWrites(account, o, catalogue))
    {
      ghost var start := mirror;
      var key := OrderKey(account, o.id);
      mirror := mirror.(orders := mirror.orders[key := HeaderOf(o)]);
      ghost var written := [OrderRow(key, HeaderOf(o))];
      ApplyOne(start, written[0]);
      for i := 0 to |o.items|
        invariant written == [OrderRow(key, HeaderOf(o))] + ItemWrites(account, o, catalogue, i)
        invariant mirror == ApplyAll(start, written)
      {
        var item := o.items[i];
        if Tracked(item.marketplace) || Tracked(o.marketplace) {
          var product := catalogue(account, item);
          ghost var w := ItemWrite(account, o, item, product);
          ApplyAppend(start, written, [w]);
          ApplyOne(mirror, w);
          UpsertItem(ItemKey(key, KeyOf(item)), LineOf(item, o, IdOf(product)), product);
          written := written + [w];
        }
      }
    }

    method SyncPage(account: Account, orders: seq<SoldOrder>, catalogue: Catalogue) returns (stored: nat, seen: set<string>)
      modifies this
      ensures mirror == ApplyAll(old(mirror), OrdersWrites(account, PageOrders(orders), catalogue))
      ensures stored == |PageOrders(orders)| && seen == Ids(PageOrders(orders))
    {
      ghost var start := mirror;
      stored, seen := 0, {};
      for i := 0 to |orders|
        invariant mirror == ApplyAll(start, OrdersWrites(account, PageOrders(orders[..i]), catalogue))
        invariant stored == |PageOrders(orders[..i])| && seen == Ids(PageOrders(orders[..i]))
      {
        var o := orders[i];
        NextPageOrder(account, orders, catalogue, i);
        if Accepted(o) {
          ApplyAppend(start, OrdersWrites(account, PageOrders(orders[..i]), catalogue), OrderWrites(account, o, catalogue));
          UpsertSoldOrder(account, o, catalogue);
          stored, seen := stored + 1, seen + {o.id};
        }
      }
      assert orders[..|orders|] == orders;
    }

    method SyncAccount(account: Account, configured: bool, pages: seq<Page>, catalogue: Catalogue)
      returns (report: SyncReport, read: nat, ghost states: seq<Mirror>)
      modifies this
      ensures read <= |pages| && |states| == read + 1 && PagesSynced(states, pages, account, catalogue)
      ensures states[0] == old(mirror) && states[read] == mirror
      ensures report == Skipped <==> !configured
      ensures report == Skipped ==> read == 0
      ensures report.Synced? ==>
                read > 0 && EndsAt(pages[read - 1], Cursor(pages, read - 1)) && NoneEnds(pages, read - 1)
                && report == ReportOf(TallyOf(pages, read))
      ensures report == FetchFailed ==> read == |pages| && NoneEnds(pages, |pages|)
    {
      if !configured {
        return Skipped, 0, [mirror];
      }
      var tally, ended;
      tally, read, ended, states := SyncPages(account, pages, catalogue);
      TalliedMeans(tally, pages, read);
      ghost var cursor :| ReadSoFar(pages, read, ended, cursor);
      ReadSoFarMeans(pages, read, ended, cursor);
      report := if ended then ReportOf(tally) else FetchFailed;
    }

    // The cursor loop; a request past the last page of `pages` is one that failed. What was
    // stored before a failure stays.
    method SyncPages(account: Account, pages: seq<Page>, catalogue: Catalogue)
      returns (tally: Tally, read: nat, ended: bool, ghost states: seq<Mirror>)
      modifies this
      ensures read <= |pages| && |states| == read + 1 && PagesSynced(states, pages, account, catalogue)
      ensures states[0] == old(mirror) && states[read] == mirror
      ensures Tallied(tally, pages, read)
      ensures exists cursor :: ReadSoFar(pages, read, ended, cursor)
      ensures ended || read == |pages|
    {
      read, tally, ended, states := 0, Tally(0, 0, {}), false, [mirror];
      NothingTallied(pages);
      ReadNothing(pages);
      var cursor := None;
      while read < |pages| && !ended
        invariant read <= |pages| && |states| == read + 1 && PagesSynced(states, pages, account, catalogue)
        invariant states[0] == old(mirror) && states[read] == mirror
        invariant Tallied(tally, pages, read)
        invariant ReadSoFar(pages, read, ended, cursor)
        decreases |pages| - read
      {
        ReadNext(pages, read, cursor);
        tally := ReadPage(account, pages, catalogue, read, tally);
        OneMorePage(states, mirror, pages, account, catalogue);
        states := states + [mirror];
        ended, cursor := EndsAt(pages[read], cursor), Some(pages[read].lastOrderId);
        read := read + 1;
      }
    }

    method ReadPage(account: Account, pages: seq<Page>, catalogue: Catalogue, n: nat, tally: Tally) returns (next: Tally)
      requires n < |pages| && Tallied(tally, pages, n)
      modifies this
      ensures PageSynced(old(mirror), pages[n], mirror, account, catalogue) && Tallied(next, pages, n + 1)
    {
      TalliedMeans(tally, pages, n);
      IdsAppend(Window(pages, n), PageOrders(pages[n].orders));
      var stored, seen := SyncPage(account, pages[n].orders, catalogue);
      next := Tally(tally.fetched + |pages[n].orders|, tally.stored + stored, tally.seen + seen);
      TalliedMeans(next, pages, n + 1);
    }
  }

  lemma NextPageOrder(account: Account, orders: seq<SoldOrder>, catalogue: Catalogue, i: nat)
    requires i < |orders|
    ensures var before, after := PageOrders(orders[..i]), PageOrders(orders[..i + 1]);
            if Accepted(orders[i])
            then after == before + [orders[i]] && Ids(after) == Ids(before) + {orders[i].id}
                 && OrdersWrites(account, after, catalogue) == OrdersWrites(account, before, catalogue) + OrderWrites(account, orders[i], catalogue)
            else after == before
  {
    var before := PageOrders(orders[..i]);
    assert orders[..i + 1][..i] == orders[..i];
    assert (before + [orders[i]])[..|before|] == before;
  }

  lemma PageSyncedMeans(before: Mirror, page: Page, after: Mirror, account: Account, catalogue: Catalogue)
    requires PageSynced(before, page, after, account, catalogue)
    ensures after == ApplyAll(before, OrdersWrites(account, PageOrders(page.orders), catalogue))
  {
  }

  // Page by page or all accepted orders at once: the same writes.
  lemma {:induction false} PagesAreOneWindow(states: seq<Mirror>, pages: seq<Page>, account: Account, catalogue: Catalogue, n: nat)
    requires PagesSynced(states, pages, account, catalogue) && n < |states|
    ensures states[n] == ApplyAll(states[0], OrdersWrites(account, Window(pages, n), catalogue))
  {
    if n > 0 {
      PagesAreOneWindow(states, pages, account, catalogue, n - 1);
      var before, page := Window(pages, n - 1), PageOrders(pages[n - 1].orders);
      assert SyncedAt(states, pages, account, catalogue, n - 1);
      PageSyncedMeans(states[n - 1], pages[n - 1], states[n], account, catalogue);
      OrdersWritesAppend(account, before, page, catalogue);
      ApplyAppend(states[0], OrdersWrites(account, before, catalogue), OrdersWrites(account, page, catalogue));
    }
  }

  lemma IdsAppend(a: seq<SoldOrder>, b: seq<SoldOrder>)
    ensures Ids(a + b) == Ids(a) + Ids(b)
  {
    forall id ensures id in Ids(a + b) <==> id in Ids(a) + Ids(b) {
      if o :| o in a + b && o.id == id {
        assert o in a || o in b;
      }
    }
  }

  lemma {:induction false} OrdersWritesAppend(account: Account, a: seq<SoldOrder>, b: seq<SoldOrder>, catalogue: Catalogue)
    ensures OrdersWrites(account, a + b, catalogue) == OrdersWrites(account, a, catalogue) + OrdersWrites(account, b, catalogue)
  {
    if b == [] {
      assert a + b == a;
    } else {
      assert (a + b)[..|a + b| - 1] == a + b[..|b| - 1];
      OrdersWritesAppend(account, a, b[..|b| - 1], catalogue);
    }
  }
}
