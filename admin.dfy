/** The admin order list (src/App.tsx, AdminPanel): which status actions a
    row offers, and the optimistic patch applied after the server accepts a
    status update. */
module Admin {
  import opened Types
  import Api

  /** `delivered` and `cancelled` rows show no action buttons. */
  predicate IsTerminal(status: string)
  {
    status == "delivered" || status == "cancelled"
  }

  /** The Ship, Deliver and Cancel buttons of a row, in that order, shown for
      every status except `delivered` and `cancelled`. */
  function OfferedActions(status: string): (r: seq<string>)
    ensures r == [] <==> IsTerminal(status)
    ensures forall a :: a in r ==> a == "shipped" || a == "delivered" || a == "cancelled"
  {
    if status != "delivered" && status != "cancelled" then ["shipped", "delivered", "cancelled"] else []
  }

  /** The buttons permit `pending` to `delivered` directly and `shipped` to
      `shipped` again, and a status outside the four still gets all three. */
  lemma OfferedTransitions()
    ensures "delivered" in OfferedActions("pending")
    ensures "shipped" in OfferedActions("shipped")
    ensures OfferedActions("returned") == ["shipped", "delivered", "cancelled"]
    ensures OfferedActions("delivered") == [] && OfferedActions("cancelled") == []
  {
    assert OfferedActions("shipped")[0] == "shipped";
    assert OfferedActions("pending")[1] == "delivered";
  }

  /** The client-side patch after an ok reply: every order with the id takes
      the new status; nothing else about any order changes. */
  function PatchStatus(orders: seq<Order>, orderId: int, status: string): (r: seq<Order>)
    ensures |r| == |orders|
    ensures forall k :: 0 <= k < |orders| ==>
              && r[k] == orders[k].(status := r[k].status)
              && (orders[k].id == orderId ==> r[k].status == status)
              && (orders[k].id != orderId ==> r[k] == orders[k])
  {
    seq(|orders|, k requires 0 <= k < |orders| =>
      if orders[k].id == orderId then orders[k].(status := status) else orders[k])
  }

  /** Order ids come from the orders table's primary key. */
  predicate DistinctIds(orders: seq<Order>)
  {
    forall i, j :: 0 <= i < j < |orders| ==> orders[i].id != orders[j].id
  }

  /** With distinct ids the patch changes the status of exactly the order
      with that id and leaves every other order, and the length, as they were. */
  lemma PatchOne(orders: seq<Order>, orderId: int, status: string, k: int)
    requires DistinctIds(orders)
    requires 0 <= k < |orders| && orders[k].id == orderId
    ensures PatchStatus(orders, orderId, status) == orders[k := orders[k].(status := status)]
  {
    var r := PatchStatus(orders, orderId, status);
    forall j | 0 <= j < |orders| && j != k ensures r[j] == orders[j] {
      if j < k { assert orders[j].id != orders[k].id; } else { assert orders[k].id != orders[j].id; }
    }
  }

  /** An id that no listed order has leaves the list as it was. */
  lemma PatchAbsent(orders: seq<Order>, orderId: int, status: string)
    requires forall k :: 0 <= k < |orders| ==> orders[k].id != orderId
    ensures PatchStatus(orders, orderId, status) == orders
  {
  }

  // ---------------------------------------------------------------------
  // Clicks and replies as separate events
  // ---------------------------------------------------------------------

  /** A status update the panel has sent and whose reply has not arrived. */
  datatype Request = Request(id: int, status: string)

  /** The listed orders, and the requests in flight in the order they were
      sent. */
  datatype PanelState = PanelState(orders: seq<Order>, inFlight: seq<Request>)

  /** A press of a row's button (`confirmed` is the answer to the Cancel
      button's confirmation dialog; the other buttons ignore it), or the
      arrival of the reply to the in-flight request at `index`. Replies may
      arrive in any order. */
  datatype Event =
    | Press(row: int, action: string, confirmed: bool)
    | Answer(index: int, outcome: FetchOutcome)

  /** No request in flight is about the order with this id. */
  predicate NoneInFlight(inFlight: seq<Request>, id: int)
  {
    forall i :: 0 <= i < |inFlight| ==> inFlight[i].id != id
  }

  /** The requests in flight once the one at `i` has been answered. */
  function Without(inFlight: seq<Request>, i: int): (r: seq<Request>)
    requires 0 <= i < |inFlight|
    ensures |r| == |inFlight| - 1
    ensures forall j :: 0 <= j < |r| ==> r[j] == inFlight[if j < i then j else j + 1]
  {
    inFlight[..i] + inFlight[i + 1..]
  }

  /** A press sends a request when the row exists and shows that button at
      the moment of the press, and a Cancel was confirmed. With `locked`, a
      row's buttons are also disabled while a request about its order is in
      flight; the panel as written has no such lock. */
  predicate Sends(s: PanelState, row: int, action: string, confirmed: bool, locked: bool)
  {
    && 0 <= row < |s.orders|
    && action in OfferedActions(s.orders[row].status)
    && (action != "cancelled" || confirmed)
    && (locked ==> NoneInFlight(s.inFlight, s.orders[row].id))
  }

  /** One event. A press that sends adds a request for that row's order id and action to
      the requests in flight; the list itself changes only when a reply
      arrives, and then only if it is ok, by the patch of the id and status
      that request carried. The list keeps its length and its ids. */
  function Step(s: PanelState, e: Event, locked: bool): (r: PanelState)
    ensures |r.orders| == |s.orders|
    ensures forall k :: 0 <= k < |s.orders| ==> r.orders[k].id == s.orders[k].id
  {
    match e
    case Press(row, action, confirmed) =>
      if Sends(s, row, action, confirmed, locked)
      then PanelState(s.orders, s.inFlight + [Request(s.orders[row].id, action)])
      else s
    case Answer(i, outcome) =>
      if 0 <= i < |s.inFlight| then
        var q := s.inFlight[i];
        PanelState(if IsOk(outcome) then PatchStatus(s.orders, q.id, q.status) else s.orders,
                   Without(s.inFlight, i))
      else s
  }

  /** A sequence of events, one after the other. */
  function Run(s: PanelState, events: seq<Event>, locked: bool): (r: PanelState)
    ensures |r.orders| == |s.orders|
    ensures forall k :: 0 <= k < |s.orders| ==> r.orders[k].id == s.orders[k].id
    decreases |events|
  {
    if events == [] then s else Run(Step(s, events[0], locked), events[1..], locked)
  }

  /** One event leaves a delivered or cancelled order that no request in
      flight is about exactly as it is, and sends no request about it. */
  lemma StepIdleTerminal(s: PanelState, e: Event, locked: bool, k: int)
    requires DistinctIds(s.orders)
    requires 0 <= k < |s.orders| && IsTerminal(s.orders[k].status)
    requires NoneInFlight(s.inFlight, s.orders[k].id)
    ensures Step(s, e, locked).orders[k] == s.orders[k]
    ensures NoneInFlight(Step(s, e, locked).inFlight, s.orders[k].id)
  {
    match e
    case Press(row, action, confirmed) =>
      if Sends(s, row, action, confirmed, locked) {
        assert row != k;
        if row < k { assert s.orders[row].id != s.orders[k].id; }
        else { assert s.orders[k].id != s.orders[row].id; }
      }
    case Answer(i, outcome) =>
      if 0 <= i < |s.inFlight| {
        assert s.inFlight[i].id != s.orders[k].id;
      }
  }

  /** A delivered or cancelled order changes only through the reply to a
      request sent while it was not yet terminal: once no such request is in
      flight, it never changes again, whatever presses and replies follow,
      with or without the lock. */
  lemma {:induction false} IdleTerminalIsFinal(s: PanelState, events: seq<Event>, locked: bool, k: int)
    requires DistinctIds(s.orders)
    requires 0 <= k < |s.orders| && IsTerminal(s.orders[k].status)
    requires NoneInFlight(s.inFlight, s.orders[k].id)
    ensures Run(s, events, locked).orders[k] == s.orders[k]
    decreases |events|
  {
    if events != [] {
      var next := Step(s, events[0], locked);
      StepIdleTerminal(s, events[0], locked, k);
      assert DistinctIds(next.orders);
      IdleTerminalIsFinal(next, events[1..], locked, k);
    }
  }

  /** A pending order with id 1, and the presses and replies of the race. */
  function RaceStart(): PanelState
  {
    PanelState([Order(1, "", "", "", [], "pending")], [])
  }

  function RaceEvents(): seq<Event>
  {
    [Press(0, "delivered", false), Press(0, "shipped", false),
     Answer(0, Responded(200)), Answer(0, Responded(200))]
  }

  /** As written, a row's buttons stay live while its request is in flight.
      Pressing Deliver and then Ship on a pending order, with both replies
      ok and in order, makes it delivered and then shipped again. */
  lemma RaceRevivesDelivered()
    ensures Run(RaceStart(), RaceEvents()[..3], false).orders[0].status == "delivered"
    ensures Run(RaceStart(), RaceEvents(), false).orders[0].status == "shipped"
  {
    var s, events := RaceStart(), RaceEvents();
    assert OfferedActions("pending") == ["shipped", "delivered", "cancelled"];
    var a1 := Step(s, events[0], false);
    assert a1.inFlight == [Request(1, "delivered")];
    var a2 := Step(a1, events[1], false);
    assert a2.inFlight == [Request(1, "delivered"), Request(1, "shipped")];
    var a3 := Step(a2, events[2], false);
    assert a3.orders[0].status == "delivered" && a3.inFlight == [Request(1, "shipped")];
    var a4 := Step(a3, events[3], false);
    assert a4.orders[0].status == "shipped";
    assert Run(a3, events[3..], false) == a4;
    assert Run(a2, events[2..], false) == a4;
    assert Run(a1, events[1..], false) == a4;
    assert events[..3][1..] == events[1..3] && events[1..3][1..] == events[2..3];
    assert Run(a2, events[2..3], false) == a3;
  }

  /** With the lock, the same presses and replies leave the order
      delivered: the second press finds a request in flight and sends
      nothing. */
  lemma LockRefusesSecondPress()
    ensures Run(RaceStart(), RaceEvents(), true).orders[0].status == "delivered"
  {
    var s, events := RaceStart(), RaceEvents();
    assert OfferedActions("pending") == ["shipped", "delivered", "cancelled"];
    var b1 := Step(s, events[0], true);
    assert b1.inFlight == [Request(1, "delivered")];
    assert b1.inFlight[0].id == 1;
    var b2 := Step(b1, events[1], true);
    assert b2 == b1;
    var b3 := Step(b2, events[2], true);
    assert b3.orders[0].status == "delivered" && b3.inFlight == [];
    var b4 := Step(b3, events[3], true);
    assert b4 == b3;
    assert Run(b3, events[3..], true) == b4;
    assert Run(b2, events[2..], true) == b4;
    assert Run(b1, events[1..], true) == b4;
  }

  /** What the lock keeps true: ids are distinct, at most one request per
      order is in flight, and none is about a delivered or cancelled order. */
  predicate LockInvariant(s: PanelState)
  {
    && DistinctIds(s.orders)
    && (forall i, j :: 0 <= i < j < |s.inFlight| ==> s.inFlight[i].id != s.inFlight[j].id)
    && (forall k :: 0 <= k < |s.orders| && IsTerminal(s.orders[k].status) ==>
          NoneInFlight(s.inFlight, s.orders[k].id))
  }

  lemma LockedPressKeeps(s: PanelState, row: int, action: string, confirmed: bool)
    requires LockInvariant(s)
    ensures LockInvariant(Step(s, Press(row, action, confirmed), true))
  {
    var r := Step(s, Press(row, action, confirmed), true);
    if Sends(s, row, action, confirmed, true) {
      var id := s.orders[row].id;
      assert r.inFlight == s.inFlight + [Request(id, action)];
      forall k | 0 <= k < |r.orders| && IsTerminal(r.orders[k].status)
        ensures NoneInFlight(r.inFlight, r.orders[k].id)
      {
        assert k != row;
        if k < row { assert s.orders[k].id != id; } else { assert id != s.orders[k].id; }
      }
    }
  }

  lemma LockedAnswerKeeps(s: PanelState, i: int, outcome: FetchOutcome)
    requires LockInvariant(s)
    ensures LockInvariant(Step(s, Answer(i, outcome), true))
  {
    var r := Step(s, Answer(i, outcome), true);
    if 0 <= i < |s.inFlight| {
      var q := s.inFlight[i];
      var rest := Without(s.inFlight, i);
      assert r.inFlight == rest;
      forall j | 0 <= j < |rest| ensures rest[j].id != q.id {
        if j < i { assert s.inFlight[j].id != s.inFlight[i].id; }
        else { assert s.inFlight[i].id != s.inFlight[j + 1].id; }
      }
      forall a, b | 0 <= a < b < |rest| ensures rest[a].id != rest[b].id {
        var a', b' := if a < i then a else a + 1, if b < i then b else b + 1;
        assert rest[a] == s.inFlight[a'] && rest[b] == s.inFlight[b'] && a' < b';
      }
      forall k | 0 <= k < |r.orders| && IsTerminal(r.orders[k].status)
        ensures NoneInFlight(rest, r.orders[k].id)
      {
        if r.orders[k].id != q.id {
          assert r.orders[k] == s.orders[k];
          forall j | 0 <= j < |rest| ensures rest[j].id != r.orders[k].id {
            assert rest[j] == s.inFlight[if j < i then j else j + 1];
          }
        }
      }
    }
  }

  /** With the lock, a delivered or cancelled order never changes again,
      whatever presses and replies follow. */
  lemma {:induction false} LockedStaysFinal(s: PanelState, events: seq<Event>, k: int)
    requires LockInvariant(s)
    requires 0 <= k < |s.orders| && IsTerminal(s.orders[k].status)
    ensures Run(s, events, true).orders[k] == s.orders[k]
    decreases |events|
  {
    if events != [] {
      var next := Step(s, events[0], true);
      StepIdleTerminal(s, events[0], true, k);
      match events[0] {
        case Press(row, action, confirmed) => LockedPressKeeps(s, row, action, confirmed);
        case Answer(i, outcome) => LockedAnswerKeeps(s, i, outcome);
      }
      LockedStaysFinal(next, events[1..], k);
    }
  }

  /** From the freshly loaded list, with no request in flight, the locked
      panel never changes a delivered or cancelled order. */
  lemma LockedTerminalIsFinal(orders: seq<Order>, events: seq<Event>, k: int)
    requires DistinctIds(orders)
    requires 0 <= k < |orders| && IsTerminal(orders[k].status)
    ensures Run(PanelState(orders, []), events, true).orders[k] == orders[k]
  {
    LockedStaysFinal(PanelState(orders, []), events, k);
  }

  /** The server answers ok exactly when its UPDATE did not throw, so the
      client patches its list exactly then. */
  lemma PatchedIffUpdated(id: string, status: string, thrown: Option<string>)
    ensures IsOk(Responded(Api.UpdateOrderStatus(id, status, thrown).status)) <==> thrown.None?
  {
  }

  /** The admin panel's state. */
  class Panel {
    var orders: seq<Order>
    var loading: bool

    constructor ()
      ensures orders == [] && loading
    {
      orders := [];
      loading := true;
    }

    /** The fetched list arrives: it replaces the orders and loading ends. */
    method Loaded(data: seq<Order>)
      modifies this
      ensures orders == data && !loading
    {
      orders := data;
      loading := false;
    }

    /** The reply to a status update arrives: the list as it is now is
        patched only on an ok response; on any other response or a thrown
        `fetch` it stays as it was. */
    method UpdateStatus(orderId: int, status: string, outcome: FetchOutcome)
      modifies this
      ensures orders == if IsOk(outcome) then PatchStatus(old(orders), orderId, status) else old(orders)
      ensures orders == Step(PanelState(old(orders), [Request(orderId, status)]), Answer(0, outcome), false).orders
      ensures |orders| == |old(orders)|
      ensures loading == old(loading)
    {
      if IsOk(outcome) {
        orders := PatchStatus(orders, orderId, status);
      }
    }
  }
}
