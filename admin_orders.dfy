/** The admin order view (`AdminOrdersComponent`): the loaded orders, the derived
    statistics, the status-then-text filtered list, the expanded row and the status
    workflow. The order service is outside the model: each of its replies is passed
    in as a `Result`. */
module AdminOrders {
  import opened Wrappers
  import opened Seqs
  import opened Text
  import opened Models
  import opened Views

  const ALL := "all"
  const LOAD_ERROR := "Failed to load orders."
  const UPDATE_ERROR := "Failed to update order status."

  // ----- The status workflow -----

  /** `getNextStatuses`: the statuses offered as the next step; unknown statuses have none. */
  function NextStatuses(current: string): (r: seq<string>)
    ensures forall t :: t in r ==> IsKnownStatus(t) && StatusRank(current) < StatusRank(t)
    ensures !IsKnownStatus(current) || current == DELIVERED || current == CANCELLED ==> r == []
    ensures IsKnownStatus(current) && current != DELIVERED && current != CANCELLED ==> CANCELLED in r || r == [DELIVERED]
  {
    if current == PENDING then [PROCESSING, CANCELLED]
    else if current == PROCESSING then [SHIPPED, CANCELLED]
    else if current == SHIPPED then [DELIVERED]
    else []
  }

  predicate IsKnownStatus(s: string)
  {
    s == PENDING || s == PROCESSING || s == SHIPPED || s == DELIVERED || s == CANCELLED
  }

  /** How far along the workflow a status is; both terminal statuses are last. */
  function StatusRank(s: string): nat
  {
    if s == PENDING then 0
    else if s == PROCESSING then 1
    else if s == SHIPPED then 2
    else 3
  }

  /** The transition table, entry by entry. */
  lemma NextStatusesTable(s: string)
    ensures NextStatuses(PENDING) == [PROCESSING, CANCELLED]
    ensures NextStatuses(PROCESSING) == [SHIPPED, CANCELLED]
    ensures NextStatuses(SHIPPED) == [DELIVERED]
    ensures NextStatuses(DELIVERED) == [] && NextStatuses(CANCELLED) == []
    ensures !IsKnownStatus(s) ==> NextStatuses(s) == []
  {
  }

  /** Every offered transition goes between known statuses and strictly forward. */
  lemma NextStatusesAdvance(s: string, t: string)
    requires t in NextStatuses(s)
    ensures IsKnownStatus(s) && IsKnownStatus(t) && StatusRank(s) < StatusRank(t)
  {
  }

  /** A sequence of statuses in which each one is offered as the next step of the previous. */
  ghost predicate IsWorkflowPath(p: seq<string>)
  {
    forall i :: 0 <= i < |p| - 1 ==> p[i + 1] in NextStatuses(p[i])
  }

  lemma {:induction false} WorkflowPathRank(p: seq<string>)
    requires |p| >= 2 && IsWorkflowPath(p)
    ensures StatusRank(p[|p| - 1]) >= StatusRank(p[0]) + |p| - 1
  {
    NextStatusesAdvance(p[0], p[1]);
    if |p| > 2 {
      assert IsWorkflowPath(p[1..]);
      WorkflowPathRank(p[1..]);
    }
  }

  /** The workflow has no cycles: no order can be moved through more than three offered steps
      (pending, processing, shipped, delivered). */
  lemma WorkflowPathsShort(p: seq<string>)
    requires IsWorkflowPath(p)
    ensures |p| <= 4
  {
    if |p| >= 2 {
      WorkflowPathRank(p);
    }
  }

  // ----- Statistics -----

  function OrderTotal(o: Order): int
  {
    o.total
  }

  function HasStatus(status: string): Order -> bool
  {
    (o: Order) => o.status == status
  }

  function NotCancelled(): Order -> bool
  {
    (o: Order) => o.status != CANCELLED
  }

  function HasOrderId(id: int): Order -> bool
  {
    (o: Order) => o.id == id
  }

  /** `totalRevenue`: the totals of the orders that are not cancelled, added up; it is the sum
      over all orders in which a cancelled order counts for nothing. */
  function TotalRevenue(orders: seq<Order>): (r: int)
    ensures r == SumBy(orders, RevenueOf)
  {
    TotalRevenueExcludesCancelled(orders);
    SumBy(Filter(orders, NotCancelled()), OrderTotal)
  }

  /** `pendingCount` and `shippedCount`: how many orders carry the status. */
  function CountStatus(orders: seq<Order>, status: string): (r: nat)
    ensures r <= |orders|
  {
    |Filter(orders, HasStatus(status))|
  }

  /** The count is the number of positions that hold an order with the status. */
  lemma CountStatusPositions(orders: seq<Order>, status: string)
    ensures CountStatus(orders, status) == |set i | 0 <= i < |orders| && orders[i].status == status|
  {
    FilterLengthCountsIndices(orders, HasStatus(status));
    assert (set i | 0 <= i < |orders| && orders[i].status == status) == Positions(orders, HasStatus(status));
  }

  /** What one order adds to the revenue. */
  function RevenueOf(o: Order): int
  {
    if o.status == CANCELLED then 0 else o.total
  }

  /** Summing the totals of the orders that are not cancelled is summing over all orders with a
      cancelled order counting for nothing. */
  lemma {:induction false} TotalRevenueExcludesCancelled(orders: seq<Order>)
    ensures SumBy(Filter(orders, NotCancelled()), OrderTotal) == SumBy(orders, RevenueOf)
  {
    if orders != [] {
      TotalRevenueExcludesCancelled(orders[1..]);
    }
  }

  /** A pending order of 100 and a cancelled order of 50 give revenue 100. */
  lemma TotalRevenueExample(a: Order, b: Order)
    requires a.total == 100 && a.status == PENDING
    requires b.total == 50 && b.status == CANCELLED
    ensures TotalRevenue([a, b]) == 100
  {
    assert [a, b][1..] == [b] && [b][1..] == [];
    assert SumBy([b], RevenueOf) == 0;
  }

  /** Changing the status of one order moves the revenue by that order's change in contribution. */
  lemma TotalRevenueAfterStatusChange(orders: seq<Order>, i: int, status: string)
    requires 0 <= i < |orders|
    ensures TotalRevenue(orders[i := orders[i].(status := status)]) ==
            TotalRevenue(orders) - RevenueOf(orders[i]) + RevenueOf(orders[i].(status := status))
  {
    SumByUpdate(orders, i, orders[i].(status := status), RevenueOf);
  }

  /** Pending and shipped orders are disjoint groups of the orders. */
  lemma {:induction false} StatusCountsBounded(orders: seq<Order>)
    ensures CountStatus(orders, PENDING) + CountStatus(orders, SHIPPED) <= |orders|
  {
    if orders != [] {
      StatusCountsBounded(orders[1..]);
    }
  }

  // ----- Filtering -----

  /** `(field && field.toLowerCase().includes(term))`: an absent or empty field never matches. */
  predicate FieldIncludes(field: Option<string>, term: string)
  {
    field.Some? && field.value != "" && Includes(Lower(field.value), term)
  }

  /** The text test for an already lower-cased term. */
  function OrderMatches(term: string): Order -> bool
  {
    (o: Order) =>
      Includes(Lower(o.orderNumber), term) || FieldIncludes(o.email, term) ||
      FieldIncludes(o.firstName, term) || FieldIncludes(o.lastName, term)
  }

  /** `applyFilter`: the status filter, then the case-insensitive text filter. The list keeps
      the orders in their original relative order. */
  function FilterOrders(orders: seq<Order>, statusFilter: string, searchTerm: string): (r: seq<Order>)
    ensures |r| <= |orders| && IsSubsequence(r, orders)
    ensures forall i :: 0 <= i < |r| ==> statusFilter == ALL || r[i].status == statusFilter
    ensures statusFilter == ALL && !HasSearchText(searchTerm) ==> r == orders
  {
    var byStatus := if statusFilter != ALL then Filter(orders, HasStatus(statusFilter)) else orders;
    assert IsSubsequence(byStatus, orders) by {
      if statusFilter != ALL {
        FilterIsSubsequence(orders, HasStatus(statusFilter));
      } else {
        SubsequenceReflexive(orders);
      }
    }
    if HasSearchText(searchTerm) then
      var r := Filter(byStatus, OrderMatches(Lower(searchTerm)));
      FilterIsSubsequence(byStatus, OrderMatches(Lower(searchTerm)));
      SubsequenceTransitive(r, byStatus, orders);
      assert forall i :: 0 <= i < |r| ==> statusFilter == ALL || r[i].status == statusFilter by {
        forall i | 0 <= i < |r| ensures statusFilter == ALL || r[i].status == statusFilter {
          assert r[i] in byStatus;
        }
      }
      r
    else
      byStatus
  }

  /** The field holds the term as a substring, once both are lower-cased. */
  ghost predicate FieldMentions(field: Option<string>, term: string)
  {
    field.Some? && Occurs(Lower(field.value), term)
  }

  /** An order mentions a lower-cased term in its number or in one of its present buyer fields. */
  ghost predicate OrderMentions(o: Order, term: string)
  {
    Occurs(Lower(o.orderNumber), term) ||
    FieldMentions(o.email, term) || FieldMentions(o.firstName, term) || FieldMentions(o.lastName, term)
  }

  lemma FieldIncludesIff(field: Option<string>, term: string)
    requires term != ""
    ensures FieldIncludes(field, term) <==> FieldMentions(field, term)
  {
    if field.Some? {
      IncludesIff(Lower(field.value), term);
      if field.value == "" {
        assert Lower(field.value) == "";
      }
    }
  }

  lemma OrderMatchesIff(o: Order, term: string)
    requires term != ""
    ensures OrderMatches(term)(o) <==> OrderMentions(o, term)
  {
    IncludesIff(Lower(o.orderNumber), term);
    FieldIncludesIff(o.email, term);
    FieldIncludesIff(o.firstName, term);
    FieldIncludesIff(o.lastName, term);
  }

  /** With a status filter other than "all", every listed order has exactly that status. */
  lemma FilterOrdersStatus(orders: seq<Order>, statusFilter: string, searchTerm: string)
    requires statusFilter != ALL
    ensures forall o :: o in FilterOrders(orders, statusFilter, searchTerm) ==> o.status == statusFilter
  {
    forall o | o in FilterOrders(orders, statusFilter, searchTerm)
      ensures o.status == statusFilter
    {
      var byStatus := Filter(orders, HasStatus(statusFilter));
      if HasSearchText(searchTerm) {
        FilterMembership(byStatus, OrderMatches(Lower(searchTerm)), o);
      }
      FilterMembership(orders, HasStatus(statusFilter), o);
    }
  }

  /** With "all" and a term made only of white space, the list is the whole collection. */
  lemma FilterOrdersAllBlank(orders: seq<Order>, searchTerm: string)
    requires forall i :: 0 <= i < |searchTerm| ==> IsWhitespace(searchTerm[i])
    ensures FilterOrders(orders, ALL, searchTerm) == orders
  {
    TrimEmptyIff(searchTerm);
  }

  /** An order is listed exactly when it is loaded, passes the status filter, and either the
      term is blank or the lower-cased, untrimmed term is a substring of its lower-cased order
      number or of one of its present buyer fields. */
  lemma FilterOrdersMembership(orders: seq<Order>, statusFilter: string, searchTerm: string, o: Order)
    ensures o in FilterOrders(orders, statusFilter, searchTerm) <==>
            o in orders && (statusFilter == ALL || o.status == statusFilter) &&
            (!HasSearchText(searchTerm) || OrderMentions(o, Lower(searchTerm)))
    ensures multiset(FilterOrders(orders, statusFilter, searchTerm))[o] ==
            if (statusFilter == ALL || o.status == statusFilter) &&
               (!HasSearchText(searchTerm) || OrderMentions(o, Lower(searchTerm)))
            then multiset(orders)[o] else 0
  {
    var byStatus := if statusFilter != ALL then Filter(orders, HasStatus(statusFilter)) else orders;
    if statusFilter != ALL {
      FilterMembership(orders, HasStatus(statusFilter), o);
      FilterMultiset(orders, HasStatus(statusFilter), o);
    }
    if HasSearchText(searchTerm) {
      FilterMembership(byStatus, OrderMatches(Lower(searchTerm)), o);
      FilterMultiset(byStatus, OrderMatches(Lower(searchTerm)), o);
      assert searchTerm != "";
      OrderMatchesIff(o, Lower(searchTerm));
    }
  }

  // ----- Status update -----

  /** The `next` branch of `updateStatus`: the first order with the reply's id takes the reply's
      status; an id that is not loaded changes nothing. */
  function SetOrderStatus(orders: seq<Order>, id: int, status: string): (r: seq<Order>)
    ensures |r| == |orders|
    ensures forall j {:trigger r[j]} :: 0 <= j < |r| ==> r[j] == orders[j] || (orders[j].id == id && r[j] == orders[j].(status := status))
    ensures (forall j :: 0 <= j < |orders| ==> orders[j].id != id) ==> r == orders
  {
    var i := FindIndex(orders, HasOrderId(id));
    if i == -1 then orders else orders[i := orders[i].(status := status)]
  }

  /** Only the first order with the id changes, and in it only the status. */
  lemma SetOrderStatusChangesOneStatus(orders: seq<Order>, id: int, status: string)
    ensures var r := SetOrderStatus(orders, id, status);
            var i := FindIndex(orders, HasOrderId(id));
            |r| == |orders| &&
            (forall j :: 0 <= j < |orders| && j != i ==> r[j] == orders[j]) &&
            (i != -1 ==> r[i] == orders[i].(status := status))
  {
  }

  /** Nothing checks the new status against the workflow table: a delivered order can be
      moved back to pending. */
  lemma SetOrderStatusIgnoresWorkflow(o: Order)
    requires o.status == DELIVERED
    ensures SetOrderStatus([o], o.id, PENDING) == [o.(status := PENDING)]
    ensures PENDING !in NextStatuses(o.status)
  {
  }

  class AdminOrdersComponent {
    var orders: seq<Order>
    var filteredOrders: seq<Order>
    var searchTerm: string
    var statusFilter: string
    var loading: bool
    var error: string
    var expandedOrderId: Option<int>
    var totalOrders: int
    var totalRevenue: int
    var pendingCount: int
    var shippedCount: int

    constructor()
      ensures orders == [] && filteredOrders == [] && searchTerm == "" && statusFilter == ALL
      ensures loading && error == "" && expandedOrderId == None
      ensures totalOrders == 0 && totalRevenue == 0 && pendingCount == 0 && shippedCount == 0
    {
      orders, filteredOrders := [], [];
      searchTerm, statusFilter := "", ALL;
      loading, error, expandedOrderId := true, "", None;
      totalOrders, totalRevenue, pendingCount, shippedCount := 0, 0, 0, 0;
    }

    /** The statistics describe the current orders. */
    ghost predicate StatsCurrent()
      reads this`orders, this`totalOrders, this`totalRevenue, this`pendingCount, this`shippedCount
    {
      totalOrders == |orders| && totalRevenue == TotalRevenue(orders) &&
      pendingCount == CountStatus(orders, PENDING) && shippedCount == CountStatus(orders, SHIPPED)
    }

    /** The displayed list is the filter applied to the current orders and criteria. */
    ghost predicate FilterCurrent()
      reads this`orders, this`filteredOrders, this`statusFilter, this`searchTerm
    {
      filteredOrders == FilterOrders(orders, statusFilter, searchTerm)
    }

    /** `loadOrders`, with the order service's reply as `outcome`. */
    method LoadOrders(outcome: Result<seq<Order>, ServiceError>)
      modifies this`orders, this`filteredOrders, this`totalOrders, this`totalRevenue, this`pendingCount,
               this`shippedCount, this`loading, this`error
      ensures !loading
      ensures searchTerm == old(searchTerm) && statusFilter == old(statusFilter)
      ensures expandedOrderId == old(expandedOrderId)
      ensures outcome.Success? ==>
                orders == outcome.value && StatsCurrent() && FilterCurrent() && error == old(error)
      ensures outcome.Failure? ==>
                error == LOAD_ERROR && orders == old(orders) && filteredOrders == old(filteredOrders) &&
                totalOrders == old(totalOrders) && totalRevenue == old(totalRevenue) &&
                pendingCount == old(pendingCount) && shippedCount == old(shippedCount)
    {
      loading := true;
      match outcome
      case Success(loaded) =>
        orders := loaded;
        Refresh();
        loading := false;
      case Failure(_) =>
        error := LOAD_ERROR;
        loading := false;
    }

    /** `computeStats`. */
    method ComputeStats()
      modifies this`totalOrders, this`totalRevenue, this`pendingCount, this`shippedCount
      ensures StatsCurrent()
    {
      totalOrders := |orders|;
      totalRevenue := TotalRevenue(orders);
      pendingCount := CountStatus(orders, PENDING);
      shippedCount := CountStatus(orders, SHIPPED);
    }

    /** `applyFilter`: recomputes the displayed list; `orders` is only read. */
    method ApplyFilter()
      modifies this`filteredOrders
      ensures FilterCurrent()
    {
      filteredOrders := FilterOrders(orders, statusFilter, searchTerm);
    }

    /** The `computeStats(); applyFilter();` pair that follows every change of the orders. */
    method Refresh()
      modifies this`totalOrders, this`totalRevenue, this`pendingCount, this`shippedCount, this`filteredOrders
      ensures StatsCurrent() && FilterCurrent()
    {
      ComputeStats();
      ApplyFilter();
    }

    /** `toggleExpand`. */
    method ToggleExpand(orderId: int)
      modifies this`expandedOrderId
      ensures expandedOrderId == ToggleExpanded(old(expandedOrderId), orderId)
    {
      expandedOrderId := if expandedOrderId == Some(orderId) then None else Some(orderId);
    }

    /** `updateStatus`, with the order service's reply as `outcome`. */
    method UpdateStatus(outcome: Result<Order, ServiceError>)
      modifies this`orders, this`filteredOrders, this`totalOrders, this`totalRevenue, this`pendingCount,
               this`shippedCount, this`error
      ensures searchTerm == old(searchTerm) && statusFilter == old(statusFilter)
      ensures loading == old(loading) && expandedOrderId == old(expandedOrderId)
      ensures outcome.Success? ==>
                orders == SetOrderStatus(old(orders), outcome.value.id, outcome.value.status) &&
                error == old(error)
      ensures outcome.Success? && FindIndex(old(orders), HasOrderId(outcome.value.id)) != -1 ==>
                StatsCurrent() && FilterCurrent()
      ensures (outcome.Success? && FindIndex(old(orders), HasOrderId(outcome.value.id)) == -1) ||
              outcome.Failure? ==>
                orders == old(orders) && filteredOrders == old(filteredOrders) &&
                totalOrders == old(totalOrders) && totalRevenue == old(totalRevenue) &&
                pendingCount == old(pendingCount) && shippedCount == old(shippedCount)
      ensures outcome.Failure? ==> error == UPDATE_ERROR
    {
      match outcome
      case Success(updated) =>
        var index := FindIndex(orders, HasOrderId(updated.id));
        if index != -1 {
          orders := orders[index := orders[index].(status := updated.status)];
          Refresh();
        }
      case Failure(_) =>
        error := UPDATE_ERROR;
    }
  }
}
