/**
 * The admin order list: the loaded orders, the one whose details are
 * expanded, and the approve/reject handlers that swap in the order the API
 * returns; plus the status badge colours.
 */
module OrderManagement {
  import opened Types
  import opened Seqs

  /** The message shown when the list cannot be loaded. */
  const LoadError: string := "Impossible de charger les commandes"

  /** `toggleExpandOrder`: collapse the expanded order, or expand another one. */
  function ToggleExpanded(expanded: Option<string>, orderId: string): Option<string>
  {
    if expanded == Some(orderId) then None else Some(orderId)
  }

  /**
   * Toggling the expanded order collapses it and toggling any other order
   * expands it. Toggling the same order twice restores the previous state
   * exactly when nothing, or that order, was expanded; when another order
   * was expanded it leaves everything collapsed.
   */
  lemma ToggleExpandedSpec(expanded: Option<string>, orderId: string)
    ensures expanded == Some(orderId) ==> ToggleExpanded(expanded, orderId) == None
    ensures expanded != Some(orderId) ==> ToggleExpanded(expanded, orderId) == Some(orderId)
    ensures ToggleExpanded(ToggleExpanded(expanded, orderId), orderId) == expanded <==>
      expanded == None || expanded == Some(orderId)
    ensures expanded.Some? && expanded != Some(orderId) ==>
      ToggleExpanded(ToggleExpanded(expanded, orderId), orderId) == None
  {
  }

  /** `getStatusBadge`. */
  function StatusBadge(status: string): string
  {
    if status == "pending" then "bg-yellow-100 text-yellow-800"
    else if status == "approved" then "bg-green-100 text-green-800"
    else if status == "rejected" then "bg-red-100 text-red-800"
    else "bg-gray-100 text-gray-800"
  }

  /**
   * The three statuses get three different badges, none of them the grey
   * default, and every other value gets the grey default.
   */
  lemma StatusBadgeSpec(status: string)
    ensures var known := {"pending", "approved", "rejected"};
      && (status in known ==> StatusBadge(status) != "bg-gray-100 text-gray-800")
      && (status !in known ==> StatusBadge(status) == "bg-gray-100 text-gray-800")
    ensures forall a, b ::
      a in {"pending", "approved", "rejected"} && b in {"pending", "approved", "rejected"} && StatusBadge(a) == StatusBadge(b)
      ==> a == b
  {
  }

  /** Every order whose id is `orderId` replaced by `updated`. */
  function ReplaceOrder(orders: seq<BackendOrder>, orderId: string, updated: BackendOrder): seq<BackendOrder>
  {
    ReplaceWhere(orders, (o: BackendOrder) => o.orderId == orderId, updated)
  }

  /**
   * The replacement keeps the length, puts the returned order where the
   * requested id was, and leaves every other order in place.
   */
  lemma ReplaceOrderSpec(orders: seq<BackendOrder>, orderId: string, updated: BackendOrder)
    ensures var r := ReplaceOrder(orders, orderId, updated);
      && |r| == |orders|
      && (forall i :: 0 <= i < |r| && orders[i].orderId == orderId ==> r[i] == updated)
      && (forall i :: 0 <= i < |r| && orders[i].orderId != orderId ==> r[i] == orders[i])
      && ((forall o :: o in orders ==> o.orderId != orderId) ==> r == orders)
  {
    var r := ReplaceOrder(orders, orderId, updated);
    if forall o :: o in orders ==> o.orderId != orderId {
      assert forall i :: 0 <= i < |r| ==> r[i] == orders[i];
    }
  }

  /** The status change a button asks the API for. */
  datatype OrderAction = ApproveOrder(orderId: string) | RejectOrder(orderId: string)

  /** The admin order page's state. */
  class OrderList {
    var orders: seq<BackendOrder>
    var expandedOrder: Option<string>
    var loading: bool
    var error: Option<string>

    constructor ()
      ensures orders == [] && expandedOrder == None && loading && error == None
    {
      orders := [];
      expandedOrder := None;
      loading := true;
      error := None;
    }

    /** The initial load: the fetched list, or the load error; loading ends either way. */
    method Load(response: Response<seq<BackendOrder>>)
      modifies this
      ensures !loading && expandedOrder == old(expandedOrder)
      ensures response.Success? ==> orders == response.body && error == old(error)
      ensures response.Failure? ==> orders == old(orders) && error == Some(LoadError)
    {
      loading := true;
      if response.Success? {
        orders := response.body;
      } else {
        error := Some(LoadError);
      }
      loading := false;
    }

    /** The returned order replaces the requested one; a failed request changes nothing. */
    method ApplyStatusResponse(orderId: string, response: Response<BackendOrder>)
      modifies this
      ensures response.Success? ==> orders == ReplaceOrder(old(orders), orderId, response.body)
      ensures response.Failure? ==> orders == old(orders)
      ensures expandedOrder == old(expandedOrder) && loading == old(loading) && error == old(error)
    {
      if response.Success? {
        orders := ReplaceOrder(orders, orderId, response.body);
      }
    }

    /** `handleApprove`: asks to approve `orderId` and applies the response. */
    method HandleApprove(orderId: string, response: Response<BackendOrder>) returns (request: OrderAction)
      modifies this
      ensures request == ApproveOrder(orderId)
      ensures response.Success? ==> orders == ReplaceOrder(old(orders), orderId, response.body)
      ensures response.Failure? ==> orders == old(orders)
      ensures expandedOrder == old(expandedOrder) && loading == old(loading) && error == old(error)
    {
      request := ApproveOrder(orderId);
      ApplyStatusResponse(orderId, response);
    }

    /** `handleReject`: asks to reject `orderId` and applies the response. */
    method HandleReject(orderId: string, response: Response<BackendOrder>) returns (request: OrderAction)
      modifies this
      ensures request == RejectOrder(orderId)
      ensures response.Success? ==> orders == ReplaceOrder(old(orders), orderId, response.body)
      ensures response.Failure? ==> orders == old(orders)
      ensures expandedOrder == old(expandedOrder) && loading == old(loading) && error == old(error)
    {
      request := RejectOrder(orderId);
      ApplyStatusResponse(orderId, response);
    }

    /** `toggleExpandOrder`. */
    method ToggleExpandOrder(orderId: string)
      modifies this
      ensures expandedOrder == ToggleExpanded(old(expandedOrder), orderId)
      ensures orders == old(orders) && loading == old(loading) && error == old(error)
    {
      expandedOrder := if expandedOrder == Some(orderId) then None else Some(orderId);
    }
  }
}
