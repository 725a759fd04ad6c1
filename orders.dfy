/** Orders: the status patch, the per-consumer listing and the choices
    listings. */
module Orders {
  import opened Python
  import opened Http
  import Permissions
  import StatusGuard

  /** An `Order` row. `totalPriceCents` stands for the nullable decimal
      total, and dates are day numbers; timestamps are not modelled. */
  datatype Order = Order(consumer: int, offer: int, quantity: nat, totalPriceCents: Option<int>,
                         status: string, pickupDate: Option<int>, paymentMethod: Option<string>)

  const OrderChoices: StatusGuard.Choices :=
    [("pending", "Pending"), ("confirmed", "Confirmed"), ("canceled", "Canceled"), ("completed", "Completed")]

  predicate IsStatus(s: string)
  {
    s in StatusGuard.ChoiceValues(OrderChoices)
  }

  lemma OrderValues()
    ensures StatusGuard.ChoiceValues(OrderChoices) == ["pending", "confirmed", "canceled", "completed"]
  {
  }

  /** `", ".join(...)` of the four values, piece by piece. */
  lemma OrderValuesJoined()
    ensures Join(["pending", "confirmed", "canceled", "completed"], ", ") ==
      "pending" + ", " + ("confirmed" + ", " + ("canceled" + ", " + "completed"))
  {
    var vs := ["pending", "confirmed", "canceled", "completed"];
    assert vs[1..] == ["confirmed", "canceled", "completed"];
    assert vs[1..][1..] == ["canceled", "completed"];
    assert vs[1..][1..][1..] == ["completed"];
  }

  /** The four statuses, and the message an unknown one gets. */
  lemma OrderStatuses()
    ensures StatusGuard.ChoiceValues(OrderChoices) == ["pending", "confirmed", "canceled", "completed"]
    ensures StatusGuard.InvalidStatusMessage(OrderChoices) ==
      "Must be one of: " + ("pending" + ", " + ("confirmed" + ", " + ("canceled" + ", " + "completed")))
  {
    OrderValues();
    OrderValuesJoined();
  }

  class OrderTable {
    var orders: map<int, Order>

    ghost predicate Valid()
      reads this
    {
      forall id :: id in orders ==> IsStatus(orders[id].status)
    }

    constructor(rows: map<int, Order>)
      requires forall id :: id in rows ==> IsStatus(rows[id].status)
      ensures Valid() && orders == rows
    {
      orders := rows;
    }

    /** `OrderStatusUpdateView.patch`: any authenticated caller may move
        any order to any of the four statuses; the other fields stay; a
        failure changes nothing. */
    method PatchStatus(caller: Option<Permissions.User>, id: int, data: map<string, Value>)
      returns (r: Outcome<Order>)
      requires Valid()
      modifies this
      ensures Valid()
      ensures var d := StatusGuard.PatchDecision(caller, "Order", id in old(orders), OrderChoices, data);
        && (r.Ok? <==> d.Ok?)
        && (d.Err? ==> r == Err(d.error) && orders == old(orders))
        && (d.Ok? ==> orders == old(orders)[id := old(orders)[id].(status := d.value)]
                      && r.value == orders[id])
    {
      var d := StatusGuard.PatchDecision(caller, "Order", id in orders, OrderChoices, data);
      if d.Err? {
        return Err(d.error);
      }
      orders := orders[id := orders[id].(status := d.value)];
      r := Ok(orders[id]);
    }
  }

  /** The patch guard has no ownership check: whether it succeeds depends
      only on authentication, the row's existence and the payload, never on
      who owns the order or on its current status. */
  lemma PatchIgnoresOwnership(u: Permissions.User, v: Permissions.User, data: map<string, Value>)
    requires u.isAuthenticated && v.isAuthenticated
    ensures StatusGuard.PatchDecision(Some(u), "Order", true, OrderChoices, data) ==
            StatusGuard.PatchDecision(Some(v), "Order", true, OrderChoices, data)
    ensures StatusGuard.PatchDecision(Some(u), "Order", true, OrderChoices, map["status" := Str("completed")]) ==
            Ok("completed")
  {
    OrderStatuses();
  }

  /** `ConsumerOrdersView.get`: the consumer's orders, narrowed by a truthy
      `status` parameter. An empty selection is still a success, and its
      envelope carries no `data`. */
  function ConsumerOrders(table: map<int, Order>, consumerId: int, status: Option<string>): (r: map<int, Order>)
    ensures forall id :: id in r <==>
      id in table && table[id].consumer == consumerId &&
      (!StatusGuard.Given(status) || table[id].status == status.value)
    ensures forall id :: id in r ==> r[id] == table[id]
  {
    var mine := StatusGuard.Where(table, (o: Order) => o.consumer == consumerId);
    if StatusGuard.Given(status) then StatusGuard.Where(mine, (o: Order) => o.status == status.value)
    else mine
  }

  /** A status filter only narrows the consumer's orders, and a filter
      naming no status of the choices selects nothing from a valid table. */
  lemma ConsumerOrdersNarrow(table: map<int, Order>, consumerId: int, s: string)
    requires forall id :: id in table ==> IsStatus(table[id].status)
    ensures ConsumerOrders(table, consumerId, Some(s)).Keys <= ConsumerOrders(table, consumerId, None).Keys
    ensures |s| > 0 && !IsStatus(s) ==> ConsumerOrders(table, consumerId, Some(s)) == map[]
  {
    if |s| > 0 && !IsStatus(s) {
      var selected := ConsumerOrders(table, consumerId, Some(s));
      assert forall id :: id !in selected;
      assert selected.Keys == {};
    }
  }

  /** `OrderStatusChoicesView.get`. */
  function StatusChoices(): (r: seq<map<string, string>>)
    ensures |r| == 4
    ensures forall s :: (exists i :: 0 <= i < |r| && "value" in r[i] && r[i]["value"] == s) <==>
      StatusGuard.CheckStatus(OrderChoices, map["status" := Str(s)]).Ok?
    ensures r[0] == map["value" := "pending", "display" := "Pending"]
    ensures r[3] == map["value" := "completed", "display" := "Completed"]
  {
    var r := StatusGuard.ChoicesListing(OrderChoices);
    forall s ensures (exists i :: 0 <= i < |r| && "value" in r[i] && r[i]["value"] == s) <==>
      StatusGuard.CheckStatus(OrderChoices, map["status" := Str(s)]).Ok? {
      StatusGuard.ListingMatchesGuard(OrderChoices, s);
    }
    r
  }
}
