/** The order records of contracts/cw1-whitelist/src/order_type.rs, together
    with the coin and payment values that the order flow takes in and emits. */
module OrderTypes {
  import opened ResourceTypes

  /** The only denomination an order is paid in. */
  const DEFAULT_DENOM: string := "uttnt"

  datatype OrderStatus = Active | Expired | Exception | Terminated

  /** What an admin may do to an order. */
  datatype HandleAction = MarkAsNormal | MarkAsException | Terminate

  datatype Order = Order(
    id: string,
    resourceId: string,
    initiator: Addr,
    startHeight: nat,
    endHeight: nat,
    lockedFunds: nat,
    status: OrderStatus)

  /** A coin attached to a call or carried by a payment. */
  datatype Coin = Coin(denom: string, amount: nat)

  /** A `BankMsg::Send` the contract asks the host to perform. */
  datatype Payment = Payment(toAddress: Addr, amount: seq<Coin>)
}

/** create_order, end_order and handle_exception
    (contracts/cw1-whitelist/src/order.rs). Each entry point is first given
    as a function from the contract state to `Result` of the new state, and
    `OrderBook` then runs it step by step over the two maps. */
module Orders {
  import opened ContractErrors
  import opened ResourceTypes
  import opened ResourceLedger
  import opened OrderTypes

  type OrderMap = map<string, Order>

  // ------------------------------------------------------------ order ids

  function Digit(d: nat): (c: char)
    requires d < 10
    ensures '0' <= c <= '9' && c as int - '0' as int == d
  {
    (d + '0' as int) as char
  }

  /** The decimal rendering of a block height (`u64::to_string`). */
  function DecimalString(n: nat): (s: string)
    ensures |s| >= 1
    ensures forall i :: 0 <= i < |s| ==> '0' <= s[i] <= '9'
    ensures s[0] == '0' ==> n == 0 && s == "0"
    decreases n
  {
    if n < 10 then [Digit(n)] else DecimalString(n / 10) + [Digit(n % 10)]
  }

  /** Reads a string of decimal digits back as a number. */
  function ParseDecimal(s: string): nat
    requires forall i :: 0 <= i < |s| ==> '0' <= s[i] <= '9'
    decreases |s|
  {
    if s == [] then 0
    else ParseDecimal(s[..|s| - 1]) * 10 + (s[|s| - 1] as int - '0' as int)
  }

  /** Parsing undoes the rendering, so no information is lost in an order id. */
  lemma {:induction false} DecimalRoundTrip(n: nat)
    ensures ParseDecimal(DecimalString(n)) == n
    decreases n
  {
    if n >= 10 {
      var s := DecimalString(n);
      assert s[..|s| - 1] == DecimalString(n / 10);
      DecimalRoundTrip(n / 10);
    }
  }

  /** Orders created at different heights get different ids; orders created
      at the same height get the same id and the later one overwrites. */
  lemma DecimalStringInjective(a: nat, b: nat)
    ensures DecimalString(a) == DecimalString(b) <==> a == b
  {
    DecimalRoundTrip(a);
    DecimalRoundTrip(b);
  }

  // ---------------------------------------------------------------- funds

  /** The first attached coin of the given denomination, as `iter().find`. */
  function FirstCoinOf(funds: seq<Coin>, denom: string): (r: Option<Coin>)
    ensures r.None? <==> forall i :: 0 <= i < |funds| ==> funds[i].denom != denom
    ensures r.Some? ==>
      exists i :: 0 <= i < |funds| && funds[i] == r.value && r.value.denom == denom &&
        forall j :: 0 <= j < i ==> funds[j].denom != denom
    decreases |funds|
  {
    if funds == [] then None
    else if funds[0].denom == denom then Some(funds[0])
    else
      var r := FirstCoinOf(funds[1..], denom);
      assert r.Some? ==> exists i :: 0 <= i < |funds[1..]| && funds[1..][i] == r.value && forall j :: 0 <= j < i ==> funds[1..][j].denom != denom;
      assert r.Some? ==> exists i :: 1 <= i < |funds| && funds[i] == r.value && forall j :: 1 <= j < i ==> funds[j].denom != denom by {
        if r.Some? {
          var i :| 0 <= i < |funds[1..]| && funds[1..][i] == r.value && forall j :: 0 <= j < i ==> funds[1..][j].denom != denom;
          assert funds[i + 1] == r.value;
          forall j | 1 <= j < i + 1
            ensures funds[j].denom != denom
          {
            assert funds[j] == funds[1..][j - 1];
          }
        }
      }
      assert r.None? ==> forall i :: 1 <= i < |funds| ==> funds[i].denom != denom by {
        if r.None? {
          forall i | 1 <= i < |funds|
            ensures funds[i].denom != denom
          {
            assert funds[i] == funds[1..][i - 1];
          }
        }
      }
      r
  }

  /** Whether the attached funds cover a cost: only the first coin in
      DEFAULT_DENOM is looked at. */
  predicate Covers(funds: seq<Coin>, cost: nat)
    ensures Covers(funds, cost) <==>
      exists i :: 0 <= i < |funds| && funds[i].denom == DEFAULT_DENOM && funds[i].amount >= cost &&
        forall j :: 0 <= j < i ==> funds[j].denom != DEFAULT_DENOM
  {
    var c := FirstCoinOf(funds, DEFAULT_DENOM);
    c.Some? && c.value.amount >= cost
  }

  /** Coins in other denominations make no difference to what counts as paid. */
  lemma OtherDenominationsIgnored(c: Coin, funds: seq<Coin>, cost: nat)
    requires c.denom != DEFAULT_DENOM
    ensures FirstCoinOf([c] + funds, DEFAULT_DENOM) == FirstCoinOf(funds, DEFAULT_DENOM)
    ensures Covers([c] + funds, cost) == Covers(funds, cost)
  {
    assert ([c] + funds)[1..] == funds;
  }

  /** A first coin that is too small is not rescued by a later, larger one. */
  lemma OnlyFirstCoinCounts(small: Coin, funds: seq<Coin>, cost: nat)
    requires small.denom == DEFAULT_DENOM && small.amount < cost
    ensures !Covers([small] + funds, cost)
  {
  }

  // ------------------------------------------------------------- contract

  /** The two maps an order call reads and writes. */
  datatype State = State(orders: OrderMap, resources: Store)

  /** What a successful create_order leaves and reports. */
  datatype Created = Created(state: State, order: Order)

  /** What a successful end_order or handle_exception leaves and pays out. */
  datatype Step = Step(state: State, payment: Option<Payment>)

  /** Every stored order sits under its own id, which is the decimal
      rendering of its start height, and ends no earlier than it starts. */
  ghost predicate OrdersWellFormed(m: OrderMap)
  {
    forall k :: k in m ==>
      m[k].id == k && m[k].id == DecimalString(m[k].startHeight) && m[k].startHeight <= m[k].endHeight
  }

  ghost predicate Inv(s: State)
  {
    KeyedById(s.resources) && OrdersWellFormed(s.orders)
  }

  /** `Map::load`: a missing key is the storage layer's own error. */
  function Load<V>(m: map<string, V>, key: string): Result<V>
  {
    if key in m then Ok(m[key]) else Err(Std(KeyNotFound))
  }

  /** The availability guard of create_order. It rejects when the status
      check for Unused holds, so taken literally only a resource that is NOT
      Unused can be ordered. */
  predicate Orderable(r: Resource)
    ensures Orderable(r) <==> r.status != Unused
  {
    !CheckStatus(r, Unused)
  }

  /** One payment of `amount` in DEFAULT_DENOM to `to`. */
  function PayOut(to: Addr, amount: nat): Payment
  {
    Payment(to, [Coin(DEFAULT_DENOM, amount)])
  }

  /** create_order at block height `now`. */
  function Create(s: State, now: nat, sender: Addr, funds: seq<Coin>, resourceId: string, duration: nat): (res: Result<Created>)
    ensures res.Err? ==> res.error == Std(KeyNotFound) || res.error == OtherError || res.error == NotFound
    ensures res.Ok? ==> resourceId in s.resources && Orderable(s.resources[resourceId])
    ensures res.Ok? ==>
      var o := res.value.order;
      && Covers(funds, o.lockedFunds)
      && o.lockedFunds == Price(s.resources[resourceId]) * duration
      && o.id == DecimalString(now) && o.startHeight == now && o.endHeight == now + duration
      && o.initiator == sender && o.resourceId == resourceId && o.status == Active
    ensures res.Ok? ==> res.value.state.orders == s.orders[res.value.order.id := res.value.order]
    ensures res.Ok? ==> res.value.state.resources.Keys == s.resources.Keys
  {
    var r :- Load(s.resources, resourceId);
    if !Orderable(r) then Err(OtherError)
    else
      var totalCost := Price(r) * duration;
      match FirstCoinOf(funds, DEFAULT_DENOM)
      case None => Err(OtherError)
      case Some(c) =>
        if c.amount < totalCost then Err(OtherError)
        else
          var order := Order(DecimalString(now), resourceId, sender, now, now + duration, totalCost, Active);
          var resources :- SetStatusIn(s.resources, r.id, Suspended);
          Ok(Created(State(s.orders[order.id := order], resources), order))
  }

  /** end_order at block height `now`. Anyone may call it, and the order's
      own status is not consulted. */
  function Settle(s: State, now: nat, orderId: string): (res: Result<Step>)
    ensures res.Err? ==> res.error == Std(KeyNotFound) || res.error == OtherError || res.error == NotFound
    ensures res.Ok? ==> orderId in s.orders && now >= s.orders[orderId].endHeight
    ensures res.Ok? ==> res.value.state.orders == s.orders[orderId := s.orders[orderId].(status := Expired)]
    ensures res.Ok? ==> res.value.state.resources.Keys == s.resources.Keys
    ensures res.Ok? ==> res.value.payment.Some? && res.value.payment.value.amount == [Coin(DEFAULT_DENOM, s.orders[orderId].lockedFunds)]
  {
    var order :- Load(s.orders, orderId);
    if now < order.endHeight then Err(OtherError)
    else
      var r :- Load(s.resources, order.resourceId);
      var payment := PayOut(r.owner, order.lockedFunds);
      var orders := s.orders[orderId := order.(status := Expired)];
      var resources :- SetStatusIn(s.resources, r.id, Unused);
      Ok(Step(State(orders, resources), Some(payment)))
  }

  /** handle_exception. */
  function Handle(s: State, sender: Addr, admins: set<Addr>, orderId: string, action: HandleAction): (res: Result<Step>)
    ensures sender !in admins ==> res == Err(Unauthorized)
    ensures res.Ok? ==> orderId in s.orders && orderId in res.value.state.orders
    ensures res.Ok? ==> Transition(s.orders[orderId].status, action) == Some(res.value.state.orders[orderId].status)
    ensures res.Ok? ==> res.value.state.orders == s.orders[orderId := s.orders[orderId].(status := res.value.state.orders[orderId].status)]
    ensures res.Ok? ==> (res.value.payment.Some? <==> action == Terminate)
    ensures res.Ok? && action != Terminate ==> res.value.state.resources == s.resources
  {
    if sender !in admins then Err(Unauthorized)
    else
      var order :- Load(s.orders, orderId);
      match action
      case MarkAsNormal =>
        if order.status == OrderStatus.Exception then
          Ok(Step(s.(orders := s.orders[orderId := order.(status := Active)]), None))
        else Err(OtherError)
      case MarkAsException =>
        if order.status == Active then
          Ok(Step(s.(orders := s.orders[orderId := order.(status := OrderStatus.Exception)]), None))
        else Err(OtherError)
      case Terminate =>
        if order.status == OrderStatus.Exception then
          var orders := s.orders[orderId := order.(status := Terminated)];
          var resources :- SetStatusIn(s.resources, order.resourceId, Unused);
          Ok(Step(State(orders, resources), Some(PayOut(order.initiator, order.lockedFunds))))
        else Err(OtherError)
  }

  /** The admin state machine as a table: which status each action leads to,
      if it is allowed at all. */
  function Transition(from: OrderStatus, action: HandleAction): (to: Option<OrderStatus>)
    ensures to.Some? ==> to.value != from
    ensures to == Some(Terminated) <==> from == OrderStatus.Exception && action == Terminate
    ensures from == Terminated || from == Expired ==> to == None
  {
    match (from, action)
    case (Exception, MarkAsNormal) => Some(Active)
    case (Active, MarkAsException) => Some(OrderStatus.Exception)
    case (Exception, Terminate) => Some(Terminated)
    case _ => None
  }

  // ---------------------------------------------------- what the calls do

  /** create_order succeeds exactly when the resource exists, passes the
      guard and the first DEFAULT_DENOM coin covers price times duration;
      the new order then overwrites whatever sat under its id and the
      resource is marked in use. */
  lemma CreateSpec(s: State, now: nat, sender: Addr, funds: seq<Coin>, resourceId: string, duration: nat)
    requires KeyedById(s.resources)
    ensures resourceId !in s.resources ==> Create(s, now, sender, funds, resourceId, duration) == Err(Std(KeyNotFound))
    ensures resourceId in s.resources ==>
      var r := s.resources[resourceId];
      var res := Create(s, now, sender, funds, resourceId, duration);
      && (res.Ok? <==> Orderable(r) && Covers(funds, Price(r) * duration))
      && (res.Err? ==> res.error == OtherError)
      && (res.Ok? ==>
        var o := res.value.order;
        && o.id == DecimalString(now)
        && o.resourceId == resourceId && o.initiator == sender
        && o.startHeight == now && o.endHeight == now + duration
        && o.lockedFunds == Price(r) * duration
        && o.status == Active
        && res.value.state.orders == s.orders[o.id := o]
        && res.value.state.resources == s.resources[resourceId := r.(status := Suspended)])
  {
  }

  /** end_order fails before the end height; from then on it marks the order
      Expired, frees the resource and pays the locked funds to its owner. */
  lemma SettleSpec(s: State, now: nat, orderId: string)
    requires KeyedById(s.resources)
    ensures orderId !in s.orders ==> Settle(s, now, orderId) == Err(Std(KeyNotFound))
    ensures orderId in s.orders ==>
      var o := s.orders[orderId];
      var res := Settle(s, now, orderId);
      && (now < o.endHeight ==> res == Err(OtherError))
      && (now >= o.endHeight && o.resourceId !in s.resources ==> res == Err(Std(KeyNotFound)))
      && (res.Ok? <==> now >= o.endHeight && o.resourceId in s.resources)
      && (res.Ok? ==>
        var r := s.resources[o.resourceId];
        && res.value.payment == Some(PayOut(r.owner, o.lockedFunds))
        && res.value.state.orders == s.orders[orderId := o.(status := Expired)]
        && res.value.state.resources == s.resources[o.resourceId := r.(status := Unused)])
  {
  }

  /** handle_exception is admin only and follows the `Transition` table;
      only Terminate frees the resource and refunds the initiator. */
  lemma HandleSpec(s: State, sender: Addr, admins: set<Addr>, orderId: string, action: HandleAction)
    ensures sender !in admins ==> Handle(s, sender, admins, orderId, action) == Err(Unauthorized)
    ensures sender in admins && orderId !in s.orders ==> Handle(s, sender, admins, orderId, action) == Err(Std(KeyNotFound))
    ensures sender in admins && orderId in s.orders ==>
      var o := s.orders[orderId];
      var res := Handle(s, sender, admins, orderId, action);
      var to := Transition(o.status, action);
      && (to.None? ==> res == Err(OtherError))
      && (to.Some? && action == Terminate && o.resourceId !in s.resources ==> res == Err(NotFound))
      && (res.Ok? <==> to.Some? && (action == Terminate ==> o.resourceId in s.resources))
      && (res.Ok? ==>
        && res.value.state.orders == s.orders[orderId := o.(status := to.value)]
        && (action != Terminate ==> res.value.state.resources == s.resources && res.value.payment == None)
        && (action == Terminate ==>
          && res.value.state.resources == s.resources[o.resourceId := s.resources[o.resourceId].(status := Unused)]
          && res.value.payment == Some(PayOut(o.initiator, o.lockedFunds))))
  {
  }

  /** create_order keeps the state invariant. */
  lemma CreateKeepsInvariant(s: State, now: nat, sender: Addr, funds: seq<Coin>, resourceId: string, duration: nat)
    requires Inv(s)
    ensures Create(s, now, sender, funds, resourceId, duration).Ok? ==> Inv(Create(s, now, sender, funds, resourceId, duration).value.state)
  {
    CreateSpec(s, now, sender, funds, resourceId, duration);
  }

  /** end_order keeps the state invariant. */
  lemma SettleKeepsInvariant(s: State, now: nat, orderId: string)
    requires Inv(s)
    ensures Settle(s, now, orderId).Ok? ==> Inv(Settle(s, now, orderId).value.state)
  {
    SettleSpec(s, now, orderId);
  }

  /** handle_exception keeps the state invariant. */
  lemma HandleKeepsInvariant(s: State, sender: Addr, admins: set<Addr>, orderId: string, action: HandleAction)
    requires Inv(s)
    ensures Handle(s, sender, admins, orderId, action).Ok? ==> Inv(Handle(s, sender, admins, orderId, action).value.state)
  {
    HandleSpec(s, sender, admins, orderId, action);
  }

  /** With the guard taken literally, a resource already taken by an order
      can be ordered again at another height: both orders then stand, each
      with its own locked funds. */
  lemma SecondOrderOnSameResource(s: State, now: nat, later: nat, sender: Addr, other: Addr,
                                  funds: seq<Coin>, resourceId: string, duration: nat)
    requires KeyedById(s.resources) && later != now
    requires Create(s, now, sender, funds, resourceId, duration).Ok?
    ensures
      var first := Create(s, now, sender, funds, resourceId, duration).value;
      var second := Create(first.state, later, other, funds, resourceId, duration);
      && second.Ok?
      && second.value.order.lockedFunds == first.order.lockedFunds
      && second.value.state.orders[first.order.id] == first.order
      && second.value.state.orders[second.value.order.id] == second.value.order
  {
    CreateSpec(s, now, sender, funds, resourceId, duration);
    var first := Create(s, now, sender, funds, resourceId, duration).value;
    var r := s.resources[resourceId];
    assert first.state.resources[resourceId] == r.(status := Suspended);
    PriceIgnoresUsage(r.(status := Suspended), r);
    CreateSpec(first.state, later, other, funds, resourceId, duration);
    DecimalStringInjective(now, later);
  }

  /** A terminated order cannot be terminated again, nor acted on by an admin at all. */
  lemma TerminateOnce(s: State, sender: Addr, admins: set<Addr>, orderId: string, action: HandleAction)
    requires Handle(s, sender, admins, orderId, Terminate).Ok?
    ensures Handle(Handle(s, sender, admins, orderId, Terminate).value.state, sender, admins, orderId, action) == Err(OtherError)
  {
  }

  /** Since end_order does not look at the order's status, an order that has
      been settled can be settled again, paying the owner a second time. */
  lemma SettleRepeats(s: State, now: nat, later: nat, orderId: string)
    requires KeyedById(s.resources) && Settle(s, now, orderId).Ok? && later >= now
    ensures Settle(Settle(s, now, orderId).value.state, later, orderId).Ok?
    ensures Settle(Settle(s, now, orderId).value.state, later, orderId).value.payment == Settle(s, now, orderId).value.payment
  {
  }

  /** Likewise a terminated order, whose funds were already refunded, still
      pays its owner once its end height is reached. */
  lemma TerminatedStillSettles(s: State, sender: Addr, admins: set<Addr>, orderId: string, now: nat)
    requires KeyedById(s.resources) && Handle(s, sender, admins, orderId, Terminate).Ok?
    requires now >= s.orders[orderId].endHeight
    ensures
      var t := Handle(s, sender, admins, orderId, Terminate).value;
      var o := s.orders[orderId];
      && t.payment == Some(PayOut(o.initiator, o.lockedFunds))
      && Settle(t.state, now, orderId).Ok?
      && Settle(t.state, now, orderId).value.payment == Some(PayOut(s.resources[o.resourceId].owner, o.lockedFunds))
  {
  }

  // ------------------------------------------------------------- scenarios

  /** A resource priced at 20: no base price, 10 cpu at 2 each. */
  function SampleResource(): (r: Resource)
    ensures Price(r) == 20 && r.status == Unused && Idle(r)
  {
    Resource("r1", "provider", 0,
      ResourceAttr(NewDetails(10, 2), NewDetails(0, 0), NewDetails(0, 0), USA, NoNat), Unused)
  }

  /** The lease life cycle with the guard taken literally: ordering a fresh
      Unused resource fails; once the resource has been put in use, an order
      for 3 blocks with 60 attached locks 60; settling early fails; at the
      end height the owner is paid 60, and settling again pays 60 more. */
  lemma LeaseLifecycle(height: nat)
    ensures
      var r := SampleResource();
      var s0 := State(map[], map[r.id := r]);
      var funds := [Coin(DEFAULT_DENOM, 60)];
      && Create(s0, height, "tenant", funds, r.id, 3) == Err(OtherError)
      && UseEach(s0.resources, [r.id]).Ok?
      && var s1 := s0.(resources := UseEach(s0.resources, [r.id]).value);
      && Create(s1, height, "tenant", funds, r.id, 3).Ok?
      && var c := Create(s1, height, "tenant", funds, r.id, 3).value;
      && c.order.lockedFunds == 60
      && Settle(c.state, height + 2, c.order.id) == Err(OtherError)
      && Settle(c.state, height + 3, c.order.id).Ok?
      && var e := Settle(c.state, height + 3, c.order.id).value;
      && e.payment == Some(PayOut("provider", 60))
      && e.state.orders[c.order.id].status == Expired
      && e.state.resources[r.id].status == Unused
      && Settle(e.state, height + 3, c.order.id).value.payment == Some(PayOut("provider", 60))
  {
    var r := SampleResource();
    var s0 := State(map[], map[r.id := r]);
    UseEachSpec(s0.resources, [r.id]);
    var s1 := s0.(resources := UseEach(s0.resources, [r.id]).value);
    assert s1.resources == map[r.id := r.(status := Suspended)];
    CreateSpec(s1, height, "tenant", [Coin(DEFAULT_DENOM, 60)], r.id, 3);
    var c := Create(s1, height, "tenant", [Coin(DEFAULT_DENOM, 60)], r.id, 3).value;
    LeaseSettlement(c.state, c.order, height);
  }

  /** The settlement half of LeaseLifecycle, for the 60-unit order it creates. */
  lemma LeaseSettlement(s: State, o: Order, height: nat)
    requires s.resources == map["r1" := SampleResource().(status := Suspended)]
    requires o.id in s.orders && s.orders[o.id] == o
    requires o.resourceId == "r1" && o.endHeight == height + 3 && o.lockedFunds == 60
    ensures Settle(s, height + 2, o.id) == Err(OtherError)
    ensures Settle(s, height + 3, o.id).Ok?
    ensures
      var e := Settle(s, height + 3, o.id).value;
      && e.payment == Some(PayOut("provider", 60))
      && e.state.orders[o.id].status == Expired
      && e.state.resources["r1"].status == Unused
      && Settle(e.state, height + 3, o.id).value.payment == Some(PayOut("provider", 60))
  {
    SettleSpec(s, height + 3, o.id);
    SettleRepeats(s, height + 3, height + 3, o.id);
  }

  /** The exception path: an admin marks the order, then terminates it, which
      refunds 60 to the tenant and frees the resource; a second Terminate fails. */
  lemma ExceptionLifecycle(s: State, height: nat, admin: Addr)
    requires s.orders == map[DecimalString(height) := Order(DecimalString(height), "r1", "tenant", height, height + 3, 60, Active)]
    requires "r1" in s.resources && KeyedById(s.resources)
    requires admin != "stranger"
    ensures
      var admins := {admin};
      var id := DecimalString(height);
      var m := Handle(s, admin, admins, id, MarkAsException);
      && m.Ok?
      && var t := Handle(m.value.state, admin, admins, id, Terminate);
      && t.Ok?
      && t.value.payment == Some(PayOut("tenant", 60))
      && t.value.state.orders[id].status == Terminated
      && t.value.state.resources["r1"].status == Unused
      && Handle(t.value.state, admin, admins, id, Terminate) == Err(OtherError)
      && Handle(s, "stranger", admins, id, Terminate) == Err(Unauthorized)
  {
    var admins := {admin};
    var id := DecimalString(height);
    var m := Handle(s, admin, admins, id, MarkAsException);
    TerminateOnce(m.value.state, admin, admins, id, Terminate);
  }

  // ------------------------------------------------------------ the book

  /** ORDER_MAP next to the resource ledger it shares with resource.rs. */
  class OrderBook {
    var orders: OrderMap
    const ledger: ResourceStore

    ghost predicate Valid()
      reads this, ledger
    {
      ledger.Valid() && OrdersWellFormed(orders)
    }

    function Snapshot(): State
      reads this, ledger
    {
      State(orders, ledger.resources)
    }

    constructor (ledger: ResourceStore)
      requires ledger.Valid()
      ensures Valid() && orders == map[] && this.ledger == ledger
    {
      this.orders := map[];
      this.ledger := ledger;
    }

    /** create_order; on success it reports the order it stored. */
    method CreateOrder(now: nat, sender: Addr, funds: seq<Coin>, resourceId: string, duration: nat)
      returns (res: Result<Order>)
      requires Valid()
      modifies this, ledger
      ensures Valid()
      ensures var spec := Create(old(Snapshot()), now, sender, funds, resourceId, duration);
        && (res.Ok? <==> spec.Ok?)
        && (res.Ok? ==> res.value == spec.value.order && Snapshot() == spec.value.state)
        && (res.Err? ==> res.error == spec.error && Snapshot() == old(Snapshot()))
    {
      if resourceId !in ledger.resources {
        return Err(Std(KeyNotFound));
      }
      var resource := ledger.resources[resourceId];
      if CheckStatus(resource, Unused) {
        return Err(OtherError);
      }
      var totalCost := Price(resource) * duration;
      var sent := FirstCoinOf(funds, DEFAULT_DENOM);
      if sent.None? || sent.value.amount < totalCost {
        return Err(OtherError);
      }
      var order := Order(DecimalString(now), resourceId, sender, now, now + duration, totalCost, Active);
      orders := orders[order.id := order];
      // the entry was loaded above under its own id, so this cannot fail
      var u := ledger.UpdateStatus(resource.id, Suspended);
      assert u.Ok?;
      return Ok(order);
    }

    /** end_order; on success it returns the payment to the resource owner. */
    method EndOrder(now: nat, orderId: string) returns (res: Result<Payment>)
      requires Valid()
      modifies this, ledger
      ensures Valid()
      ensures var spec := Settle(old(Snapshot()), now, orderId);
        && (res.Ok? <==> spec.Ok?)
        && (res.Ok? ==> Some(res.value) == spec.value.payment && Snapshot() == spec.value.state)
        && (res.Err? ==> res.error == spec.error && Snapshot() == old(Snapshot()))
    {
      if orderId !in orders {
        return Err(Std(KeyNotFound));
      }
      var order := orders[orderId];
      if now < order.endHeight {
        return Err(OtherError);
      }
      if order.resourceId !in ledger.resources {
        return Err(Std(KeyNotFound));
      }
      var resource := ledger.resources[order.resourceId];
      var payment := PayOut(resource.owner, order.lockedFunds);
      order := order.(status := Expired);
      orders := orders[orderId := order];
      var u := ledger.UpdateStatus(resource.id, Unused);
      assert u.Ok?;
      return Ok(payment);
    }

    /** handle_exception; on success it returns the refund, if any. */
    method HandleException(sender: Addr, admins: set<Addr>, orderId: string, action: HandleAction)
      returns (res: Result<Option<Payment>>)
      requires Valid()
      modifies this, ledger
      ensures Valid()
      ensures var spec := Handle(old(Snapshot()), sender, admins, orderId, action);
        && (res.Ok? <==> spec.Ok?)
        && (res.Ok? ==> res.value == spec.value.payment && Snapshot() == spec.value.state)
        && (res.Err? ==> res.error == spec.error && Snapshot() == old(Snapshot()))
    {
      if sender !in admins {
        return Err(Unauthorized);
      }
      if orderId !in orders {
        return Err(Std(KeyNotFound));
      }
      var order := orders[orderId];
      match action
      case MarkAsNormal =>
        if order.status == OrderStatus.Exception {
          order := order.(status := Active);
          orders := orders[orderId := order];
          return Ok(None);
        }
        return Err(OtherError);
      case MarkAsException =>
        if order.status == Active {
          order := order.(status := OrderStatus.Exception);
          orders := orders[orderId := order];
          return Ok(None);
        }
        return Err(OtherError);
      case Terminate =>
        if order.status == OrderStatus.Exception {
          var saved := orders;  // what the host restores when the call fails
          order := order.(status := Terminated);
          orders := orders[orderId := order];
          var u := ledger.UpdateStatus(order.resourceId, Unused);
          if u.Err? {
            orders := saved;
            return Err(u.error);
          }
          return Ok(Some(PayOut(order.initiator, order.lockedFunds)));
        }
        return Err(OtherError);
    }
  }
}
