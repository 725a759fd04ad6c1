/** Transactions: the status patch, the filtered list and the lookup of an
    order's transaction. */
module Transactions {
  import opened Python
  import opened Http
  import Permissions
  import StatusGuard

  /** A `Transaction` row. `order` is the one-to-one order key, the decimal
      amount is in integer cents; the dates are not modelled. */
  datatype Transaction = Transaction(order: int, amountCents: int, status: string, paymentMethod: string)

  const TransactionChoices: StatusGuard.Choices :=
    [("pending", "Pending"), ("successful", "Successful"), ("failed", "Failed")]

  predicate IsStatus(s: string)
  {
    s in StatusGuard.ChoiceValues(TransactionChoices)
  }

  /** `OneToOneField(Order)`: no two transactions share an order. */
  ghost predicate OneTransactionPerOrder(table: map<int, Transaction>)
  {
    forall a, b :: a in table && b in table && table[a].order == table[b].order ==> a == b
  }

  /** The 404 of an order without a transaction. */
  const NoTransactionForOrder: map<string, string> := map["detail" := "No transaction found for this order"]

  /** `TransactionByOrderView.get`: the permission check, then the one
      transaction whose order is `orderId`, or the 404. */
  function ByOrder(caller: Option<Permissions.User>, table: map<int, Transaction>, orderId: int): (r: Outcome<int>)
    requires OneTransactionPerOrder(table)
    ensures !Permissions.Authenticated(caller) ==> r.Err? && r.error.kind == NotAuthenticated
    ensures Permissions.Authenticated(caller) ==>
      (r.Ok? <==> exists id :: id in table && table[id].order == orderId)
    ensures r.Ok? ==> r.value in table && table[r.value].order == orderId
    ensures Permissions.Authenticated(caller) && r.Err? ==> r == Fail(NotFound, NoTransactionForOrder)
  {
    var auth := Permissions.CustomIsAuthenticated(caller);
    if auth.Deny? then Err(Denied(auth))
    else if exists id :: id in table && table[id].order == orderId then
      var id :| id in table && table[id].order == orderId;
      Ok(id)
    else Fail(NotFound, NoTransactionForOrder)
  }

  /** The lookup finds every transaction by its own order. */
  lemma ByOrderFindsEach(u: Permissions.User, table: map<int, Transaction>, id: int)
    requires u.isAuthenticated
    requires OneTransactionPerOrder(table)
    requires id in table
    ensures ByOrder(Some(u), table, table[id].order) == Ok(id)
  {
    assert Permissions.Authenticated(Some(u));
  }

  /** `TransactionCreateView.get`: a truthy `status` and a truthy
      `payment_method` each add a filter, and the two conjoin. */
  function TransactionList(table: map<int, Transaction>, status: Option<string>,
                           paymentMethod: Option<string>): (r: map<int, Transaction>)
    ensures forall id :: id in r <==>
      && id in table
      && (!StatusGuard.Given(status) || table[id].status == status.value)
      && (!StatusGuard.Given(paymentMethod) || table[id].paymentMethod == paymentMethod.value)
    ensures forall id :: id in r ==> r[id] == table[id]
  {
    var byStatus :=
      if StatusGuard.Given(status) then StatusGuard.Where(table, (t: Transaction) => t.status == status.value)
      else table;
    if StatusGuard.Given(paymentMethod) then
      StatusGuard.Where(byStatus, (t: Transaction) => t.paymentMethod == paymentMethod.value)
    else byStatus
  }

  /** Filtering on both is filtering on one and then the other, in either
      order; without parameters the whole table is listed. */
  lemma ListFiltersCommute(table: map<int, Transaction>, status: Option<string>, paymentMethod: Option<string>)
    ensures TransactionList(table, status, paymentMethod) ==
      TransactionList(TransactionList(table, None, paymentMethod), status, None)
    ensures TransactionList(table, status, paymentMethod) ==
      TransactionList(TransactionList(table, status, None), None, paymentMethod)
    ensures TransactionList(table, None, None) == table
  {
    var both := TransactionList(table, status, paymentMethod);
    var a := TransactionList(TransactionList(table, None, paymentMethod), status, None);
    var b := TransactionList(TransactionList(table, status, None), None, paymentMethod);
    assert both.Keys == a.Keys;
    assert both.Keys == b.Keys;
    assert TransactionList(table, None, None).Keys == table.Keys;
  }

  class TransactionTable {
    var transactions: map<int, Transaction>

    ghost predicate Valid()
      reads this
    {
      && OneTransactionPerOrder(transactions)
      && forall id :: id in transactions ==> IsStatus(transactions[id].status)
    }

    constructor(rows: map<int, Transaction>)
      requires OneTransactionPerOrder(rows)
      requires forall id :: id in rows ==> IsStatus(rows[id].status)
      ensures Valid() && transactions == rows
    {
      transactions := rows;
    }

    /** `TransactionStatusUpdateView.patch`: only the status changes, to the
        payload's value when it is pending, successful or failed; any failure
        changes nothing. */
    method PatchStatus(caller: Option<Permissions.User>, id: int, data: map<string, Value>)
      returns (r: Outcome<Transaction>)
      requires Valid()
      modifies this
      ensures Valid()
      ensures var d := StatusGuard.PatchDecision(caller, "Transaction", id in old(transactions),
                                                  TransactionChoices, data);
        && (r.Ok? <==> d.Ok?)
        && (d.Err? ==> r == Err(d.error) && transactions == old(transactions))
        && (d.Ok? ==> transactions == old(transactions)[id := old(transactions)[id].(status := d.value)]
                      && r.value == transactions[id])
    {
      var d := StatusGuard.PatchDecision(caller, "Transaction", id in transactions, TransactionChoices, data);
      if d.Err? {
        return Err(d.error);
      }
      transactions := transactions[id := transactions[id].(status := d.value)];
      r := Ok(transactions[id]);
    }
  }
}
