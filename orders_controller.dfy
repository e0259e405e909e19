/**
 * The order API: a store of orders keyed by id, the newest-first listing,
 * the approve and reject status writes, and the invoice lines of the PDF.
 */
module OrdersController {
  import opened Types
  import opened Seqs

  /** The body of every 404 reply. */
  const NotFoundMessage: string := "Commande introuvable"

  /** A JSON reply: the order, or an error status with its message. */
  datatype Reply = Json(order: BackendOrder) | ErrorReply(status: int, message: string)

  /** One line of the invoice, in the order the document writes them. */
  datatype PdfLine =
    | TitleLine
    | OrderLine(orderId: string)
    | DateLine(createdAt: int)
    | ClientLine(fullName: string, email: string)
    | PhoneLine(phone: string)
    | AddressLine(address: string)
    | StatusLine(status: string)
    | ArticlesHeading
    | ItemLine(number: int, item: BackendOrderItem)
    | TotalLine(amount: int)

  datatype PdfReply = PdfDocument(lines: seq<PdfLine>) | PdfError(status: int, message: string)

  /** `sort({ createdAt: -1 })`: a later creation date comes first. */
  const NewestFirst: (BackendOrder, BackendOrder) -> int :=
    (a: BackendOrder, b: BackendOrder) => b.createdAt - a.createdAt

  /** Every stored order is filed under its own id. */
  predicate KeyedById(orders: map<string, BackendOrder>)
  {
    forall k :: k in orders ==> orders[k].orderId == k
  }

  /** `findByIdAndUpdate(id, { status })`: the order's status overwritten, if there is one. */
  function WithStatus(orders: map<string, BackendOrder>, id: string, status: string): map<string, BackendOrder>
  {
    if id in orders then orders[id := orders[id].(status := status)] else orders
  }

  /**
   * A status write changes only the status of the order with that id: the
   * set of ids, the other orders and the order's other fields stay as they
   * were, and orders stay filed under their ids.
   */
  lemma WithStatusSpec(orders: map<string, BackendOrder>, id: string, status: string)
    ensures var r := WithStatus(orders, id, status);
      && r.Keys == orders.Keys
      && (id in orders ==> r[id].status == status && r[id] == orders[id].(status := status))
      && (forall k :: k in orders && k != id ==> r[k] == orders[k])
      && (KeyedById(orders) ==> KeyedById(r))
  {
  }

  /**
   * There is no transition guard: writing the same status twice is the same
   * as writing it once, and of two writes the last one wins.
   */
  lemma WithStatusUnguarded(orders: map<string, BackendOrder>, id: string, first: string, second: string)
    ensures WithStatus(WithStatus(orders, id, first), id, first) == WithStatus(orders, id, first)
    ensures WithStatus(WithStatus(orders, id, first), id, second) == WithStatus(orders, id, second)
  {
    if id in orders {
      var once := WithStatus(orders, id, first);
      assert once[id].(status := second) == orders[id].(status := second);
    }
  }

  /** Approving and then rejecting an order leaves it rejected, and the other way round. */
  lemma ApproveThenReject(orders: map<string, BackendOrder>, id: string)
    requires id in orders
    ensures WithStatus(WithStatus(orders, id, "approved"), id, "rejected")[id].status == "rejected"
    ensures WithStatus(WithStatus(orders, id, "rejected"), id, "approved")[id].status == "approved"
  {
    WithStatusUnguarded(orders, id, "approved", "rejected");
    WithStatusUnguarded(orders, id, "rejected", "approved");
  }

  /** The lines written before the items. */
  function InvoiceHeader(o: BackendOrder): seq<PdfLine>
  {
    [TitleLine, OrderLine(o.orderId), DateLine(o.createdAt), ClientLine(o.user_full_name, o.user_email),
     PhoneLine(o.phone), AddressLine(o.shipping_address), StatusLine(o.status), ArticlesHeading]
  }

  /** The newest-first order is a consistent comparator. */
  lemma NewestFirstConsistent()
    ensures ConsistentComparator(NewestFirst)
  {
  }

  /** The order collection. */
  class OrderStore {
    var orders: map<string, BackendOrder>

    predicate Valid()
      reads this
    {
      KeyedById(orders)
    }

    constructor (initial: map<string, BackendOrder>)
      requires KeyedById(initial)
      ensures Valid() && orders == initial
    {
      orders := initial;
    }

    /** `list`: every stored order once, newest first. */
    method List() returns (r: seq<BackendOrder>)
      requires Valid()
      ensures forall o :: o in r <==> o in orders.Values
      ensures |r| == |orders|
      ensures NoDups(r)
      ensures forall i, j :: 0 <= i < j < |r| ==> r[i].createdAt >= r[j].createdAt
    {
      NewestFirstConsistent();
      var keys := orders.Keys;
      r := [];
      while keys != {}
        invariant keys <= orders.Keys
        invariant |r| + |keys| == |orders.Keys|
        invariant forall o :: o in r ==> o.orderId in orders && o.orderId !in keys && orders[o.orderId] == o
        invariant forall k :: k in orders && k !in keys ==> orders[k] in r
        invariant NoDups(r)
        invariant Sorted(r, NewestFirst)
        decreases |keys|
      {
        var k :| k in keys;
        var o := orders[k];
        assert o !in r;
        InsertKeepsNoDups(o, r, NewestFirst);
        InsertSorted(o, r, NewestFirst);
        InsertMembers(o, r, NewestFirst);
        r := Insert(o, r, NewestFirst);
        keys := keys - {k};
      }
      assert forall o :: o in orders.Values ==> o in r by {
        forall o | o in orders.Values ensures o in r {
          var k :| k in orders && orders[k] == o;
        }
      }
      forall i, j | 0 <= i < j < |r| ensures r[i].createdAt >= r[j].createdAt {
        assert NewestFirst(r[i], r[j]) <= 0;
      }
    }

    /** Writes `status` on the order with that id and returns it; an unknown id is a 404 and changes nothing. */
    method SetStatus(id: string, status: string) returns (reply: Reply)
      requires Valid()
      modifies this
      ensures Valid()
      ensures orders == WithStatus(old(orders), id, status)
      ensures id in old(orders) ==> reply == Json(old(orders)[id].(status := status))
      ensures id !in old(orders) ==> reply == ErrorReply(404, NotFoundMessage) && orders == old(orders)
    {
      WithStatusSpec(orders, id, status);
      if id in orders {
        orders := orders[id := orders[id].(status := status)];
        reply := Json(orders[id]);
      } else {
        reply := ErrorReply(404, NotFoundMessage);
      }
    }

    /** `approve`. */
    method Approve(id: string) returns (reply: Reply)
      requires Valid()
      modifies this
      ensures Valid()
      ensures orders == WithStatus(old(orders), id, "approved")
      ensures id in old(orders) ==> reply == Json(old(orders)[id].(status := "approved"))
      ensures id !in old(orders) ==> reply == ErrorReply(404, NotFoundMessage) && orders == old(orders)
    {
      reply := SetStatus(id, "approved");
    }

    /** `reject`. */
    method Reject(id: string) returns (reply: Reply)
      requires Valid()
      modifies this
      ensures Valid()
      ensures orders == WithStatus(old(orders), id, "rejected")
      ensures id in old(orders) ==> reply == Json(old(orders)[id].(status := "rejected"))
      ensures id !in old(orders) ==> reply == ErrorReply(404, NotFoundMessage) && orders == old(orders)
    {
      reply := SetStatus(id, "rejected");
    }

    /**
     * `pdf`: for an unknown id a 404; otherwise the header lines, one line
     * per item numbered 1..n in item order, and the total.
     */
    method Pdf(id: string) returns (reply: PdfReply)
      ensures id !in orders ==> reply == PdfError(404, NotFoundMessage)
      ensures id in orders ==>
        var o := orders[id];
        && reply.PdfDocument?
        && |reply.lines| == |InvoiceHeader(o)| + |o.items| + 1
        && reply.lines[..|InvoiceHeader(o)|] == InvoiceHeader(o)
        && (forall i :: 0 <= i < |o.items| ==> reply.lines[|InvoiceHeader(o)| + i] == ItemLine(i + 1, o.items[i]))
        && reply.lines[|reply.lines| - 1] == TotalLine(o.total_amount)
    {
      if id !in orders {
        return PdfError(404, NotFoundMessage);
      }
      var o := orders[id];
      var header := InvoiceHeader(o);
      var lines := header;
      var idx := 0;
      while idx < |o.items|
        invariant 0 <= idx <= |o.items|
        invariant |lines| == |header| + idx
        invariant lines[..|header|] == header
        invariant forall i :: 0 <= i < idx ==> lines[|header| + i] == ItemLine(i + 1, o.items[i])
      {
        lines := lines + [ItemLine(idx + 1, o.items[idx])];
        idx := idx + 1;
      }
      lines := lines + [TotalLine(o.total_amount)];
      reply := PdfDocument(lines);
    }
  }
}
