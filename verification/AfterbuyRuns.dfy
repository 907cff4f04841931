// What repeated and overlapping synchronisations do to the mirror.
module AfterbuyRuns {
  import opened Common
  import opened Afterbuy

  // ---- written once ----

  // A frozen price is never touched again, whatever the catalogue says later.
  lemma {:induction false} SettlementIsFinal(m: Mirror, ws: seq<Write>, k: ItemKey)
    requires k in m.items && m.items[k].settled.Some?
    ensures k in ApplyAll(m, ws).items && ApplyAll(m, ws).items[k].settled == m.items[k].settled
  {
    if ws != [] {
      SettlementIsFinal(m, ws[..|ws| - 1], k);
    }
  }

  function Rounds(messages: seq<ItemKey>, k: ItemKey): nat {
    if messages == [] then 0
    else Rounds(messages[..|messages| - 1], k) + if messages[|messages| - 1] == k then 1 else 0
  }

  lemma RoundsAppend(messages: seq<ItemKey>, x: ItemKey, k: ItemKey)
    ensures Rounds(messages + [x], k) == Rounds(messages, k) + if x == k then 1 else 0
  {
    assert (messages + [x])[..|messages|] == messages;
  }

  // One round of messages for every sent notice, none for the others.
  ghost predicate ToldOnce(m: Mirror) {
    forall k :: Rounds(m.messages, k) == if IsSent(m, k) then 1 else 0
  }

  lemma WriteTellsOnce(m: Mirror, w: Write)
    requires ToldOnce(m)
    ensures ToldOnce(Apply(m, w))
  {
    forall k ensures Rounds(Apply(m, w).messages, k) == if IsSent(Apply(m, w), k) then 1 else 0 {
      OneWrite(m, w, k, OrderKey(JV, ""));
      if w.ItemRow? && w.product.Some? && !IsSent(m, w.item) {
        RoundsAppend(m.messages, w.item, k);
      }
    }
  }

  // Managers are told about an item at most once over any run of writes.
  lemma {:induction false} ManagersAreToldOnce(m: Mirror, ws: seq<Write>)
    requires ToldOnce(m)
    ensures ToldOnce(ApplyAll(m, ws))
    ensures forall k :: Rounds(ApplyAll(m, ws).messages, k) <= 1
  {
    if ws != [] {
      ManagersAreToldOnce(m, ws[..|ws| - 1]);
      WriteTellsOnce(ApplyAll(m, ws[..|ws| - 1]), ws[|ws| - 1]);
    }
  }

  // ---- the last write wins, the first match settles ----

  function LastHeader(ws: seq<Write>, k: OrderKey): Option<Header> {
    if ws == [] then None
    else
      match ws[|ws| - 1]
      case OrderRow(key, header) => if key == k then Some(header) else LastHeader(ws[..|ws| - 1], k)
      case ItemRow(_, _, _) => LastHeader(ws[..|ws| - 1], k)
  }

  function LastLine(ws: seq<Write>, k: ItemKey): Option<Line> {
    if ws == [] then None
    else
      match ws[|ws| - 1]
      case ItemRow(key, line, _) => if key == k then Some(line) else LastLine(ws[..|ws| - 1], k)
      case OrderRow(_, _) => LastLine(ws[..|ws| - 1], k)
  }

  function FirstMatch(ws: seq<Write>, k: ItemKey): Option<Settlement> {
    if ws == [] then None
    else
      var before := FirstMatch(ws[..|ws| - 1], k);
      if before.Some? then before
      else
        match ws[|ws| - 1]
        case ItemRow(key, _, product) => if key == k && product.Some? then Some(product.value.price) else None
        case OrderRow(_, _) => None
  }

  function OrElse<T>(a: Option<T>, b: Option<T>): Option<T> {
    if a.Some? then a else b
  }

  function OrderAt(m: Mirror, k: OrderKey): Option<Header> {
    if k in m.orders then Some(m.orders[k]) else None
  }

  function LineAt(m: Mirror, k: ItemKey): Option<Line> {
    if k in m.items then Some(m.items[k].line) else None
  }

  function SettledAt(m: Mirror, k: ItemKey): Option<Settlement> {
    if k in m.items then m.items[k].settled else None
  }

  // A write in four lines: what it does to an order, an item line, a settlement and a notice.
  lemma OneWrite(m: Mirror, w: Write, k: ItemKey, o: OrderKey)
    ensures OrderAt(Apply(m, w), o) == if w.OrderRow? && w.key == o then Some(w.header) else OrderAt(m, o)
    ensures LineAt(Apply(m, w), k) == if w.ItemRow? && w.item == k then Some(w.line) else LineAt(m, k)
    ensures SettledAt(Apply(m, w), k)
            == OrElse(SettledAt(m, k), if w.ItemRow? && w.item == k && w.product.Some? then Some(w.product.value.price) else None)
    ensures IsSent(Apply(m, w), k) == (IsSent(m, k) || (w.ItemRow? && w.item == k && w.product.Some?))
    ensures k in Apply(m, w).notices <==> k in m.notices || (w.ItemRow? && w.item == k && w.product.Some?)
  {
  }

  // The whole state after any writes, also when several items share a key.
  lemma {:induction false} WritesSummary(m: Mirror, ws: seq<Write>, k: ItemKey, o: OrderKey)
    ensures OrderAt(ApplyAll(m, ws), o) == OrElse(LastHeader(ws, o), OrderAt(m, o))
    ensures LineAt(ApplyAll(m, ws), k) == OrElse(LastLine(ws, k), LineAt(m, k))
    ensures SettledAt(ApplyAll(m, ws), k) == OrElse(SettledAt(m, k), FirstMatch(ws, k))
    ensures IsSent(ApplyAll(m, ws), k) == (IsSent(m, k) || FirstMatch(ws, k).Some?)
    ensures k in ApplyAll(m, ws).notices <==> k in m.notices || FirstMatch(ws, k).Some?
  {
    if ws != [] {
      WritesSummary(m, ws[..|ws| - 1], k, o);
      OneWrite(ApplyAll(m, ws[..|ws| - 1]), ws[|ws| - 1], k, o);
    }
  }

  lemma {:induction false} NothingNewToTell(m: Mirror, ws: seq<Write>)
    requires forall k | FirstMatch(ws, k).Some? :: IsSent(m, k)
    ensures ApplyAll(m, ws).messages == m.messages && ApplyAll(m, ws).notices == m.notices
  {
    if ws != [] {
      var front, last := ws[..|ws| - 1], ws[|ws| - 1];
      forall k | FirstMatch(front, k).Some? ensures FirstMatch(ws, k).Some? {
      }
      NothingNewToTell(m, front);
      if last.ItemRow? && last.product.Some? {
        assert FirstMatch(ws, last.item).Some?;
        assert IsSent(m, last.item);
      }
    }
  }

  lemma SameMirror(m: Mirror, n: Mirror)
    requires m.notices == n.notices && m.messages == n.messages
    requires forall o :: OrderAt(m, o) == OrderAt(n, o)
    requires forall k :: LineAt(m, k) == LineAt(n, k) && SettledAt(m, k) == SettledAt(n, k)
    ensures m == n
  {
    forall o ensures (o in m.orders <==> o in n.orders) && (o in m.orders ==> m.orders[o] == n.orders[o]) {
      assert OrderAt(m, o) == OrderAt(n, o);
    }
    forall k ensures (k in m.items <==> k in n.items) && (k in m.items ==> m.items[k] == n.items[k]) {
      assert LineAt(m, k) == LineAt(n, k) && SettledAt(m, k) == SettledAt(n, k);
    }
    assert m.orders == n.orders;
    assert m.items == n.items;
  }

  // Main result: replaying the same writes on an unchanged catalogue changes nothing, even when
  // items of an order collide on their key.
  lemma ReplayChangesNothing(m: Mirror, ws: seq<Write>)
    ensures ApplyAll(ApplyAll(m, ws), ws) == ApplyAll(m, ws)
  {
    var once := ApplyAll(m, ws);
    var twice := ApplyAll(once, ws);
    forall k ensures IsSent(once, k) == (IsSent(m, k) || FirstMatch(ws, k).Some?) {
      WritesSummary(m, ws, k, OrderKey(JV, ""));
    }
    NothingNewToTell(once, ws);
    forall o ensures OrderAt(twice, o) == OrderAt(once, o) {
      WritesSummary(m, ws, ItemKey(o, ""), o);
      WritesSummary(once, ws, ItemKey(o, ""), o);
    }
    forall k ensures LineAt(twice, k) == LineAt(once, k) && SettledAt(twice, k) == SettledAt(once, k) {
      WritesSummary(m, ws, k, k.order);
      WritesSummary(once, ws, k, k.order);
    }
    SameMirror(twice, once);
  }

  // Overlapping windows: reading the common part again is as good as reading on.
  lemma OverlapIsHarmless(m: Mirror, early: seq<Write>, common: seq<Write>, late: seq<Write>)
    ensures ApplyAll(ApplyAll(m, early + common), common + late) == ApplyAll(m, early + common + late)
  {
    var first := ApplyAll(m, early);
    ApplyAppend(m, early, common);
    ReplayChangesNothing(first, common);
    ApplyAppend(ApplyAll(m, early + common), common, late);
    ApplyAppend(m, early + common, late);
  }

  // ---- writes of one order among those of others ----

  predicate About(w: Write, o: OrderKey) {
    match w
    case OrderRow(key, _) => key == o
    case ItemRow(item, _, _) => item.order == o
  }

  ghost predicate AllAbout(ws: seq<Write>, o: OrderKey) {
    forall i | 0 <= i < |ws| :: About(ws[i], o)
  }

  ghost predicate NoneAbout(ws: seq<Write>, o: OrderKey) {
    forall i | 0 <= i < |ws| :: !About(ws[i], o)
  }

  lemma {:induction false} NotMentioned(ws: seq<Write>, k: ItemKey)
    requires NoneAbout(ws, k.order)
    ensures LastHeader(ws, k.order).None? && LastLine(ws, k).None? && FirstMatch(ws, k).None?
  {
    if ws != [] {
      var front := ws[..|ws| - 1];
      assert forall i | 0 <= i < |front| :: front[i] == ws[i];
      NotMentioned(front, k);
      assert !About(ws[|ws| - 1], k.order);
    }
  }

  // The writes of an order may come again after any writes that are not about it.
  lemma ReplayAfterOthers(m: Mirror, ws: seq<Write>, others: seq<Write>, o: OrderKey)
    requires AllAbout(ws, o) && NoneAbout(others, o)
    ensures var once := ApplyAll(ApplyAll(m, ws), others);
            ApplyAll(once, ws) == once
  {
    var first := ApplyAll(m, ws);
    var once := ApplyAll(first, others);
    forall k: ItemKey ensures if k.order == o then NoneAbout(others, k.order) else NoneAbout(ws, k.order) {
    }
    forall k | FirstMatch(ws, k).Some? ensures IsSent(once, k) {
      WritesSummary(m, ws, k, o);
      WritesSummary(first, others, k, o);
    }
    NothingNewToTell(once, ws);
    forall k: ItemKey
      ensures OrderAt(ApplyAll(once, ws), k.order) == OrderAt(once, k.order)
      ensures LineAt(ApplyAll(once, ws), k) == LineAt(once, k) && SettledAt(ApplyAll(once, ws), k) == SettledAt(once, k)
    {
      WritesSummary(m, ws, k, k.order);
      WritesSummary(first, others, k, k.order);
      WritesSummary(once, ws, k, k.order);
      NotMentioned(if k.order == o then others else ws, k);
    }
    forall p ensures OrderAt(ApplyAll(once, ws), p) == OrderAt(once, p) {
      assert ItemKey(p, "").order == p;
    }
    SameMirror(ApplyAll(once, ws), once);
  }

  lemma {:induction false} ItemWritesAbout(account: Account, o: SoldOrder, catalogue: Catalogue, n: nat)
    requires n <= |o.items|
    ensures AllAbout(ItemWrites(account, o, catalogue, n), OrderKey(account, o.id))
  {
    if n > 0 {
      ItemWritesAbout(account, o, catalogue, n - 1);
    }
  }

  lemma OrderWritesAbout(account: Account, o: SoldOrder, catalogue: Catalogue)
    ensures AllAbout(OrderWrites(account, o, catalogue), OrderKey(account, o.id))
  {
    ItemWritesAbout(account, o, catalogue, |o.items|);
  }

  lemma {:induction false} OtherOrdersWrites(account: Account, orders: seq<SoldOrder>, catalogue: Catalogue, id: string)
    requires id !in Ids(orders)
    ensures NoneAbout(OrdersWrites(account, orders, catalogue), OrderKey(account, id))
  {
    if orders != [] {
      var front, last := orders[..|orders| - 1], orders[|orders| - 1];
      assert last in orders;
      OtherOrdersWrites(account, front, catalogue, id);
      OrderWritesAbout(account, last, catalogue);
    }
  }

  // An order stored twice with the same catalogue is stored once, whatever orders come between.
  lemma UpsertIsIdempotent(m: Mirror, account: Account, o: SoldOrder, between: seq<SoldOrder>, catalogue: Catalogue)
    requires o.id !in Ids(between)
    ensures var once := ApplyAll(ApplyAll(m, OrderWrites(account, o, catalogue)), OrdersWrites(account, between, catalogue));
            ApplyAll(once, OrderWrites(account, o, catalogue)) == once
  {
    OrderWritesAbout(account, o, catalogue);
    OtherOrdersWrites(account, between, catalogue, o.id);
    ReplayAfterOthers(m, OrderWrites(account, o, catalogue), OrdersWrites(account, between, catalogue), OrderKey(account, o.id));
  }

  // ---- overlapping windows ----

  function After(m: Mirror, account: Account, orders: seq<SoldOrder>, catalogue: Catalogue): Mirror {
    ApplyAll(m, OrdersWrites(account, orders, catalogue))
  }

  // Afterbuy tells the same of an order wherever it appears.
  ghost predicate Unchanging(orders: seq<SoldOrder>) {
    forall o, p | o in orders && p in orders && o.id == p.id :: o == p
  }

  lemma SameId(orders: seq<SoldOrder>, o: SoldOrder, p: SoldOrder)
    requires Unchanging(orders) && o in orders && p in orders && o.id == p.id
    ensures o == p
  {
  }

  lemma {:induction false} LastPlace(orders: seq<SoldOrder>, id: string) returns (i: nat)
    requires id in Ids(orders)
    ensures i < |orders| && orders[i].id == id && id !in Ids(orders[i + 1..])
  {
    var front, last := orders[..|orders| - 1], orders[|orders| - 1];
    if last.id == id {
      i := |orders| - 1;
    } else {
      var o :| o in orders && o.id == id;
      assert o in front;
      i := LastPlace(front, id);
      assert orders[i + 1..] == front[i + 1..] + [last];
      IdsAppend(front[i + 1..], [last]);
    }
  }

  // What was read before may be read again at any later time.
  lemma RepeatIsHarmless(m: Mirror, account: Account, orders: seq<SoldOrder>, o: SoldOrder, catalogue: Catalogue)
    requires o in orders && Unchanging(orders)
    ensures var once := After(m, account, orders, catalogue);
            ApplyAll(once, OrderWrites(account, o, catalogue)) == once
  {
    var i := LastPlace(orders, o.id);
    assert orders[i] == o;
    var early, late := orders[..i], orders[i + 1..];
    assert orders == orders[..i + 1] + late && orders[..i + 1][..i] == early;
    OrdersWritesAppend(account, orders[..i + 1], late, catalogue);
    ApplyAppend(m, OrdersWrites(account, orders[..i + 1], catalogue), OrdersWrites(account, late, catalogue));
    ApplyAppend(m, OrdersWrites(account, early, catalogue), OrderWrites(account, o, catalogue));
    UpsertIsIdempotent(ApplyAll(m, OrdersWrites(account, early, catalogue)), account, o, late, catalogue);
  }

  // The orders whose id is not known yet.
  function NewOrders(orders: seq<SoldOrder>, known: set<string>): seq<SoldOrder> {
    if orders == [] then []
    else NewOrders(orders[..|orders| - 1], known) + if orders[|orders| - 1].id in known then [] else [orders[|orders| - 1]]
  }

  lemma OneMoreOrder(m: Mirror, account: Account, orders: seq<SoldOrder>, o: SoldOrder, catalogue: Catalogue)
    ensures After(m, account, orders + [o], catalogue) == ApplyAll(After(m, account, orders, catalogue), OrderWrites(account, o, catalogue))
  {
    assert (orders + [o])[..|orders|] == orders;
    ApplyAppend(m, OrdersWrites(account, orders, catalogue), OrderWrites(account, o, catalogue));
  }

  lemma NextNewOrder(orders: seq<SoldOrder>, o: SoldOrder, known: set<string>)
    ensures NewOrders(orders + [o], known) == if o.id in known then NewOrders(orders, known) else NewOrders(orders, known) + [o]
  {
    assert (orders + [o])[..|orders|] == orders;
  }

  lemma OneAfterAnother(m: Mirror, account: Account, a: seq<SoldOrder>, b: seq<SoldOrder>, catalogue: Catalogue)
    ensures After(After(m, account, a, catalogue), account, b, catalogue) == After(m, account, a + b, catalogue)
  {
    OrdersWritesAppend(account, a, b, catalogue);
    ApplyAppend(m, OrdersWrites(account, a, catalogue), OrdersWrites(account, b, catalogue));
  }

  // Main result: after the window `a`, the window `b` stores its new orders and changes nothing
  // else, wherever the common orders stand in either of them.
  lemma {:induction false} OnlyNewOrdersCount(m: Mirror, account: Account, a: seq<SoldOrder>, b: seq<SoldOrder>, catalogue: Catalogue)
    requires Unchanging(a + b)
    ensures var first := After(m, account, a, catalogue);
            After(first, account, b, catalogue) == After(first, account, NewOrders(b, Ids(a)), catalogue)
  {
    if b != [] {
      var front, last := b[..|b| - 1], b[|b| - 1];
      assert front + [last] == b;
      assert forall o | o in a + front :: o in a + b;
      OnlyNewOrdersCount(m, account, a, front, catalogue);
      NextNewOrder(front, last, Ids(a));
      OneMoreOrder(After(m, account, a, catalogue), account, front, last, catalogue);
      if last.id in Ids(a) {
        KnownAgain(m, account, a, front, last, catalogue);
      } else {
        OneMoreOrder(After(m, account, a, catalogue), account, NewOrders(front, Ids(a)), last, catalogue);
      }
    }
  }

  lemma KnownAgain(m: Mirror, account: Account, a: seq<SoldOrder>, front: seq<SoldOrder>, last: SoldOrder, catalogue: Catalogue)
    requires Unchanging(a + (front + [last])) && last.id in Ids(a)
    ensures var once := After(After(m, account, a, catalogue), account, front, catalogue);
            ApplyAll(once, OrderWrites(account, last, catalogue)) == once
  {
    var all := a + (front + [last]);
    assert forall o | o in a + front :: o in all;
    var o :| o in a && o.id == last.id;
    assert o in all && last in all;
    OneAfterAnother(m, account, a, front, catalogue);
    RepeatIsHarmless(m, account, a + front, last, catalogue);
  }

  // ---- the union of windows ----

  // Each order where it was read first.
  function FirstSeen(orders: seq<SoldOrder>): seq<SoldOrder> {
    if orders == [] then []
    else
      var before := FirstSeen(orders[..|orders| - 1]);
      before + if orders[|orders| - 1].id in Ids(before) then [] else [orders[|orders| - 1]]
  }

  ghost predicate DistinctIds(orders: seq<SoldOrder>) {
    forall i, j | 0 <= i < j < |orders| :: orders[i].id != orders[j].id
  }

  lemma NextSeen(orders: seq<SoldOrder>, o: SoldOrder)
    ensures FirstSeen(orders + [o]) == if o.id in Ids(FirstSeen(orders)) then FirstSeen(orders) else FirstSeen(orders) + [o]
  {
    assert (orders + [o])[..|orders|] == orders;
  }

  lemma {:induction false} FirstSeenIsUnion(orders: seq<SoldOrder>)
    ensures DistinctIds(FirstSeen(orders)) && Ids(FirstSeen(orders)) == Ids(orders)
    ensures forall o | o in FirstSeen(orders) :: o in orders
  {
    if orders != [] {
      var front, last := orders[..|orders| - 1], orders[|orders| - 1];
      assert orders == front + [last];
      FirstSeenIsUnion(front);
      NextSeen(front, last);
      IdsAppend(front, [last]);
      IdsAppend(FirstSeen(front), [last]);
      assert Ids([last]) == {last.id};
    }
  }

  // Any number of windows, one after another, stores each of their orders once.
  lemma {:induction false} WindowsStoreOnce(m: Mirror, account: Account, orders: seq<SoldOrder>, catalogue: Catalogue)
    requires Unchanging(orders)
    ensures After(m, account, orders, catalogue) == After(m, account, FirstSeen(orders), catalogue)
  {
    if orders != [] {
      var front, last := orders[..|orders| - 1], orders[|orders| - 1];
      assert orders == front + [last];
      assert forall o | o in front :: o in orders;
      WindowsStoreOnce(m, account, front, catalogue);
      FirstSeenIsUnion(front);
      NextSeen(front, last);
      OneMoreOrder(m, account, front, last, catalogue);
      if last.id in Ids(front) {
        var o :| o in front && o.id == last.id;
        assert last in orders;
        RepeatIsHarmless(m, account, front, last, catalogue);
      } else {
        OneMoreOrder(m, account, FirstSeen(front), last, catalogue);
      }
    }
  }

  lemma {:induction false} SummaryAppend(a: seq<Write>, b: seq<Write>, k: ItemKey)
    ensures LastHeader(a + b, k.order) == OrElse(LastHeader(b, k.order), LastHeader(a, k.order))
    ensures LastLine(a + b, k) == OrElse(LastLine(b, k), LastLine(a, k))
    ensures FirstMatch(a + b, k) == OrElse(FirstMatch(a, k), FirstMatch(b, k))
  {
    if b == [] {
      assert a + b == a;
    } else {
      assert (a + b)[..|a + b| - 1] == a + b[..|b| - 1];
      SummaryAppend(a, b[..|b| - 1], k);
    }
  }

  // Of many orders the one with the id says all there is about it.
  lemma {:induction false} OneOrderSays(account: Account, orders: seq<SoldOrder>, o: SoldOrder, catalogue: Catalogue, k: ItemKey)
    requires o in orders && Unchanging(orders) && k.order == OrderKey(account, o.id)
    ensures LastHeader(OrdersWrites(account, orders, catalogue), k.order) == LastHeader(OrderWrites(account, o, catalogue), k.order)
    ensures LastLine(OrdersWrites(account, orders, catalogue), k) == LastLine(OrderWrites(account, o, catalogue), k)
    ensures FirstMatch(OrdersWrites(account, orders, catalogue), k) == FirstMatch(OrderWrites(account, o, catalogue), k)
  {
    var front, last := orders[..|orders| - 1], orders[|orders| - 1];
    assert orders == front + [last];
    SummaryAppend(OrdersWrites(account, front, catalogue), OrderWrites(account, last, catalogue), k);
    if o in front {
      OneOrderSays(account, front, o, catalogue, k);
    } else {
      assert o == last;
      if o.id in Ids(front) {
        var p :| p in front && p.id == o.id;
        SameId(orders, p, o);
        assert false;
      }
      OtherOrdersWrites(account, front, catalogue, o.id);
      NotMentioned(OrdersWrites(account, front, catalogue), k);
    }
    if last != o {
      assert last in orders;
      OrderWritesAbout(account, last, catalogue);
      NotMentioned(OrderWrites(account, last, catalogue), k);
    }
  }

  lemma NoOrderSays(account: Account, orders: seq<SoldOrder>, catalogue: Catalogue, k: ItemKey)
    requires k.order.account != account || k.order.id !in Ids(orders)
    ensures NoneAbout(OrdersWrites(account, orders, catalogue), k.order)
  {
    if k.order.account == account {
      OtherOrdersWrites(account, orders, catalogue, k.order.id);
    } else {
      OtherAccountsWrites(account, orders, catalogue, k.order);
    }
  }

  lemma {:induction false} OtherAccountsWrites(account: Account, orders: seq<SoldOrder>, catalogue: Catalogue, o: OrderKey)
    requires o.account != account
    ensures NoneAbout(OrdersWrites(account, orders, catalogue), o)
  {
    if orders != [] {
      OtherAccountsWrites(account, orders[..|orders| - 1], catalogue, o);
      OrderWritesAbout(account, orders[|orders| - 1], catalogue);
    }
  }

  lemma SameOrdersSayTheSame(account: Account, a: seq<SoldOrder>, b: seq<SoldOrder>, catalogue: Catalogue, k: ItemKey)
    requires Unchanging(a + b) && Ids(a) == Ids(b)
    ensures var u, v := OrdersWrites(account, a, catalogue), OrdersWrites(account, b, catalogue);
            LastHeader(u, k.order) == LastHeader(v, k.order) && LastLine(u, k) == LastLine(v, k) && FirstMatch(u, k) == FirstMatch(v, k)
  {
    if k.order.account == account && k.order.id in Ids(a) {
      var o :| o in a && o.id == k.order.id;
      var p :| p in b && p.id == k.order.id;
      assert o in a + b && p in a + b;
      assert forall x | x in a || x in b :: x in a + b;
      OneOrderSays(account, a, o, catalogue, k);
      OneOrderSays(account, b, o, catalogue, k);
    } else {
      NoOrderSays(account, a, catalogue, k);
      NoOrderSays(account, b, catalogue, k);
      NotMentioned(OrdersWrites(account, a, catalogue), k);
      NotMentioned(OrdersWrites(account, b, catalogue), k);
    }
  }

  // A round of messages goes out for an item that is matched and was not told about.
  lemma {:induction false} RoundsExact(m: Mirror, ws: seq<Write>, k: ItemKey)
    ensures Rounds(ApplyAll(m, ws).messages, k) == Rounds(m.messages, k) + if !IsSent(m, k) && FirstMatch(ws, k).Some? then 1 else 0
  {
    if ws != [] {
      var before, last := ApplyAll(m, ws[..|ws| - 1]), ws[|ws| - 1];
      RoundsExact(m, ws[..|ws| - 1], k);
      WritesSummary(m, ws[..|ws| - 1], k, k.order);
      if last.ItemRow? && last.product.Some? && !IsSent(before, last.item) {
        RoundsAppend(before.messages, last.item, k);
      }
    }
  }

  // Main result: the set of orders read decides what is stored and who is told about what. The
  // windows they came in, their repetitions and their order do not.
  lemma SetOfOrdersDecides(m: Mirror, account: Account, a: seq<SoldOrder>, b: seq<SoldOrder>, catalogue: Catalogue)
    requires Unchanging(a + b) && Ids(a) == Ids(b)
    ensures var x, y := After(m, account, a, catalogue), After(m, account, b, catalogue);
            x.orders == y.orders && x.items == y.items && (forall k :: IsSent(x, k) == IsSent(y, k) && Rounds(x.messages, k) == Rounds(y.messages, k))
  {
    var u, v := OrdersWrites(account, a, catalogue), OrdersWrites(account, b, catalogue);
    var x, y := ApplyAll(m, u), ApplyAll(m, v);
    forall k: ItemKey
      ensures OrderAt(x, k.order) == OrderAt(y, k.order) && LineAt(x, k) == LineAt(y, k) && SettledAt(x, k) == SettledAt(y, k)
      ensures IsSent(x, k) == IsSent(y, k) && Rounds(x.messages, k) == Rounds(y.messages, k)
    {
      SameOrdersSayTheSame(account, a, b, catalogue, k);
      WritesSummary(m, u, k, k.order);
      WritesSummary(m, v, k, k.order);
      RoundsExact(m, u, k);
      RoundsExact(m, v, k);
    }
    forall p ensures OrderAt(x, p) == OrderAt(y, p) {
      assert ItemKey(p, "").order == p;
    }
    SameMirror(x, y.(notices := x.notices, messages := x.messages));
  }

  // Starting from nothing, managers are told once about every item that was ever matched, and
  // about no other.
  lemma MatchedItemsAreToldOnce(ws: seq<Write>, k: ItemKey)
    ensures Rounds(ApplyAll(EmptyMirror, ws).messages, k) == if FirstMatch(ws, k).Some? then 1 else 0
  {
    ManagersAreToldOnce(EmptyMirror, ws);
    WritesSummary(EmptyMirror, ws, k, k.order);
  }
}
