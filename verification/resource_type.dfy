/** Capacity records, the typed dispatch over them and the status-gated
    resource (contracts/cw1-whitelist/src/resource_type.rs).

    The Rust structs are plain values: they are cloned, serialised into
    storage and loaded back, so a `&mut self` method is modelled here as a
    function from the old value to `Result` of the new one. */
module ResourceTypes {
  import opened ContractErrors

  /** An account address; its validation is not modelled. */
  type Addr = string

  datatype Region = USA | Germany | Singapore | HongKong | Other(name: string) | Unknown

  datatype NAT = NoNat | FullCone | RestrictedCone | PortRestrictedCone | Symmetric | UnKnown

  /** One accounting dimension: capacity, recorded usage and price per unit. */
  datatype ResourceDetails = ResourceDetails(total: nat, used: nat, unitPrice: nat)

  /** The invariant the capacity check is meant to keep: usage never exceeds capacity. */
  predicate WithinCapacity(d: ResourceDetails)
  {
    d.used <= d.total
  }

  function NewDetails(total: nat, unitPrice: nat): (d: ResourceDetails)
    ensures d.total == total && d.used == 0 && d.unitPrice == unitPrice
    ensures WithinCapacity(d)
  {
    ResourceDetails(total, 0, unitPrice)
  }

  function DefaultDetails(): (d: ResourceDetails)
    ensures d == NewDetails(0, 0)
  {
    ResourceDetails(0, 0, 0)
  }

  function SetTotal(d: ResourceDetails, total: nat): (r: ResourceDetails)
    ensures r.total == total && r.used == d.used && r.unitPrice == d.unitPrice
  {
    d.(total := total)
  }

  function SetUnitPrice(d: ResourceDetails, price: nat): (r: ResourceDetails)
    ensures r.unitPrice == price && r.total == d.total && r.used == d.used
  {
    d.(unitPrice := price)
  }

  /** `add_used` as written: the guard checks capacity, but the update
      rewrites `total` to `used + amount` and leaves `used` alone. */
  function AddUsed(d: ResourceDetails, amount: nat): (r: Result<ResourceDetails>)
    ensures r.Err? <==> amount + d.used > d.total
    ensures r.Err? ==> r.error == ResourceOverflow
    ensures r.Ok? ==> r.value.total == d.used + amount && r.value.total <= d.total
    ensures r.Ok? ==> r.value.used == d.used && r.value.unitPrice == d.unitPrice
    ensures r.Ok? ==> WithinCapacity(r.value)
  {
    if amount + d.used > d.total then Err(ResourceOverflow)
    else Ok(d.(total := d.used + amount))
  }

  /** `release_used` as written: an over-release reports ResourceOverflow,
      not the declared OverRelease. */
  function ReleaseUsed(d: ResourceDetails, amount: nat): (r: Result<ResourceDetails>)
    ensures r.Err? <==> d.used < amount
    ensures r.Err? ==> r.error == ResourceOverflow
    ensures r.Ok? ==> r.value.used + amount == d.used
    ensures r.Ok? ==> r.value.total == d.total && r.value.unitPrice == d.unitPrice
    ensures r.Ok? && WithinCapacity(d) ==> WithinCapacity(r.value)
  {
    if d.used < amount then Err(ResourceOverflow)
    else Ok(d.(used := d.used - amount))
  }

  /** A tagged amount (cpu, memory, bandwidth) or classification (NAT, region). */
  datatype ResourceType =
    | Cpu(amount: nat)
    | Memory(amount: nat)
    | Bandwidth(amount: nat)
    | Nat(kind: NAT)
    | RegionTag(region: Region)

  /** The three accounting dimensions of a ResourceAttr. */
  datatype Dimension = CpuDim | MemoryDim | BandwidthDim

  /** True when `t` is the tag addressed to dimension `k`. */
  predicate Tags(t: ResourceType, k: Dimension)
  {
    match k
    case CpuDim => t.Cpu?
    case MemoryDim => t.Memory?
    case BandwidthDim => t.Bandwidth?
  }

  predicate IsDimension(t: ResourceType)
  {
    t.Cpu? || t.Memory? || t.Bandwidth?
  }

  datatype ResourceAttr = ResourceAttr(
    cpu: ResourceDetails,
    memory: ResourceDetails,
    bandwidth: ResourceDetails,
    region: Region,
    natType: NAT)

  function Detail(a: ResourceAttr, k: Dimension): ResourceDetails
  {
    match k
    case CpuDim => a.cpu
    case MemoryDim => a.memory
    case BandwidthDim => a.bandwidth
  }

  predicate AttrWithinCapacity(a: ResourceAttr)
  {
    forall k :: WithinCapacity(Detail(a, k))
  }

  /** `ResourceAttr::reset`: zero every usage counter. */
  function AttrReset(a: ResourceAttr): (b: ResourceAttr)
    ensures forall k :: Detail(b, k).used == 0
    ensures forall k :: Detail(b, k).total == Detail(a, k).total && Detail(b, k).unitPrice == Detail(a, k).unitPrice
    ensures b.region == a.region && b.natType == a.natType
    ensures AttrWithinCapacity(b)
  {
    a.(cpu := a.cpu.(used := 0), memory := a.memory.(used := 0), bandwidth := a.bandwidth.(used := 0))
  }

  /** `ResourceAttr::update_resource`: overwrite the tagged total or classification. */
  function AttrUpdate(a: ResourceAttr, t: ResourceType): (b: ResourceAttr)
    ensures forall k :: Tags(t, k) ==> Detail(b, k) == SetTotal(Detail(a, k), t.amount)
    ensures forall k :: !Tags(t, k) ==> Detail(b, k) == Detail(a, k)
    ensures b.natType == (if t.Nat? then t.kind else a.natType)
    ensures b.region == (if t.RegionTag? then t.region else a.region)
  {
    match t
    case Cpu(total) => a.(cpu := SetTotal(a.cpu, total))
    case Memory(total) => a.(memory := SetTotal(a.memory, total))
    case Bandwidth(total) => a.(bandwidth := SetTotal(a.bandwidth, total))
    case Nat(n) => a.(natType := n)
    case RegionTag(r) => a.(region := r)
  }

  /** `ResourceAttr::use_resource`: route the amount to the tagged counter's `add_used`. */
  function AttrUse(a: ResourceAttr, t: ResourceType): (r: Result<ResourceAttr>)
    ensures !IsDimension(t) ==> r == Err(OtherError)
    ensures forall k :: Tags(t, k) ==> (r.Ok? <==> t.amount + Detail(a, k).used <= Detail(a, k).total)
    ensures r.Err? && IsDimension(t) ==> r.error == ResourceOverflow
    ensures r.Ok? ==> forall k :: Tags(t, k) ==>
      Detail(r.value, k) == Detail(a, k).(total := Detail(a, k).used + t.amount)
    ensures r.Ok? ==> forall k :: !Tags(t, k) ==> Detail(r.value, k) == Detail(a, k)
    ensures r.Ok? ==> r.value.region == a.region && r.value.natType == a.natType
  {
    match t
    case Cpu(n) => var d :- AddUsed(a.cpu, n); Ok(a.(cpu := d))
    case Memory(n) => var d :- AddUsed(a.memory, n); Ok(a.(memory := d))
    case Bandwidth(n) => var d :- AddUsed(a.bandwidth, n); Ok(a.(bandwidth := d))
    case _ => Err(OtherError)
  }

  /** `ResourceAttr::release_resource`: route the amount to the tagged counter's `release_used`. */
  function AttrRelease(a: ResourceAttr, t: ResourceType): (r: Result<ResourceAttr>)
    ensures !IsDimension(t) ==> r == Err(OtherError)
    ensures forall k :: Tags(t, k) ==> (r.Ok? <==> t.amount <= Detail(a, k).used)
    ensures r.Err? && IsDimension(t) ==> r.error == ResourceOverflow
    ensures r.Ok? ==> forall k :: Tags(t, k) ==>
      Detail(r.value, k).used + t.amount == Detail(a, k).used &&
      Detail(r.value, k).total == Detail(a, k).total &&
      Detail(r.value, k).unitPrice == Detail(a, k).unitPrice
    ensures r.Ok? ==> forall k :: !Tags(t, k) ==> Detail(r.value, k) == Detail(a, k)
    ensures r.Ok? ==> r.value.region == a.region && r.value.natType == a.natType
  {
    match t
    case Cpu(n) => var d :- ReleaseUsed(a.cpu, n); Ok(a.(cpu := d))
    case Memory(n) => var d :- ReleaseUsed(a.memory, n); Ok(a.(memory := d))
    case Bandwidth(n) => var d :- ReleaseUsed(a.bandwidth, n); Ok(a.(bandwidth := d))
    case _ => Err(OtherError)
  }

  datatype Status = Unused | Suspended | Exception

  datatype Resource = Resource(id: string, owner: Addr, basePrice: nat, attr: ResourceAttr, status: Status)

  /** No dimension of `r` records any usage. */
  predicate Idle(r: Resource)
  {
    r.attr.cpu.used == 0 && r.attr.memory.used == 0 && r.attr.bandwidth.used == 0
  }

  /** What one dimension contributes to the price: unit price times capacity. */
  function Cost(d: ResourceDetails): nat
  {
    d.unitPrice * d.total
  }

  /** `get_resource_price`: base price plus every dimension's cost. */
  function Price(r: Resource): (p: nat)
    ensures p >= r.basePrice
    ensures forall k :: p >= Cost(Detail(r.attr, k))
  {
    r.basePrice + Cost(r.attr.cpu) + Cost(r.attr.memory) + Cost(r.attr.bandwidth)
  }

  function SetStatus(r: Resource, s: Status): (res: Resource)
    ensures res.status == s && res.(status := r.status) == r
  {
    r.(status := s)
  }

  /** `Resource::check_status`, used by create_order; its definition lives
      outside the modelled files, so it is read as a plain equality test. */
  predicate CheckStatus(r: Resource, s: Status)
  {
    r.status == s
  }

  function SetBasePrice(r: Resource, price: nat): (res: Result<Resource>)
    ensures res.Ok? <==> r.status == Unused
    ensures res.Err? ==> res.error == OtherError
    ensures res.Ok? ==> res.value.basePrice == price && res.value.(basePrice := r.basePrice) == r
  {
    if r.status != Unused then Err(OtherError)
    else Ok(r.(basePrice := price))
  }

  /** `Resource::set_price`: set the tagged dimension's unit price. */
  function SetPrice(r: Resource, t: ResourceType, price: nat): (res: Result<Resource>)
    ensures res.Ok? <==> r.status == Unused && IsDimension(t)
    ensures res.Err? ==> res.error == OtherError
    ensures res.Ok? ==> forall k :: Tags(t, k) ==> Detail(res.value.attr, k) == SetUnitPrice(Detail(r.attr, k), price)
    ensures res.Ok? ==> forall k :: !Tags(t, k) ==> Detail(res.value.attr, k) == Detail(r.attr, k)
    ensures res.Ok? ==> res.value.attr.region == r.attr.region && res.value.attr.natType == r.attr.natType
    ensures res.Ok? ==> res.value.(attr := r.attr) == r
  {
    if r.status != Unused then Err(OtherError)
    else match t
      case Cpu(_) => Ok(r.(attr := r.attr.(cpu := SetUnitPrice(r.attr.cpu, price))))
      case Memory(_) => Ok(r.(attr := r.attr.(memory := SetUnitPrice(r.attr.memory, price))))
      case Bandwidth(_) => Ok(r.(attr := r.attr.(bandwidth := SetUnitPrice(r.attr.bandwidth, price))))
      case _ => Err(OtherError)
  }

  /** `Resource::use_resource`: "allocate" each dimension's whole total, then
      suspend. Because `add_used` never raises `used`, the only lasting
      effect of a success is the status change. */
  function UseResource(r: Resource): (res: Result<Resource>)
    ensures res.Ok? <==> r.status == Unused && Idle(r)
    ensures res.Err? ==> res.error == (if r.status != Unused then OtherError else ResourceOverflow)
    ensures res.Ok? ==> res.value == r.(status := Suspended)
  {
    if r.status != Unused then Err(OtherError)
    else
      var cpu :- AddUsed(r.attr.cpu, r.attr.cpu.total);
      var a1 := r.attr.(cpu := cpu);
      var memory :- AddUsed(a1.memory, a1.memory.total);
      var a2 := a1.(memory := memory);
      var bandwidth :- AddUsed(a2.bandwidth, a2.bandwidth.total);
      Ok(r.(attr := a2.(bandwidth := bandwidth), status := Suspended))
  }

  /** `Resource::update_resource`: only an Unused resource may be reconfigured. */
  function UpdateResource(r: Resource, t: ResourceType): (res: Result<Resource>)
    ensures res.Ok? <==> r.status == Unused
    ensures res.Err? ==> res.error == OtherError
    ensures res.Ok? ==> res.value == r.(attr := AttrUpdate(r.attr, t))
  {
    if r.status != Unused then Err(OtherError)
    else Ok(r.(attr := AttrUpdate(r.attr, t)))
  }

  /** `Resource::release_resource`: release each dimension's whole usage, then
      mark the resource Unused. The result is `reset` plus the status change. */
  function ReleaseResource(r: Resource): (res: Result<Resource>)
    ensures res.Ok? <==> r.status == Suspended
    ensures res.Err? ==> res.error == OtherError
    ensures res.Ok? ==> res.value == r.(attr := AttrReset(r.attr), status := Unused)
  {
    if r.status != Suspended then Err(OtherError)
    else
      // Each `?` of the source is spelled out as a match: releasing a
      // counter's whole usage cannot fail, so the Err arms are never taken.
      match AttrRelease(r.attr, Cpu(r.attr.cpu.used))
      case Err(e) => Err(e)
      case Ok(a1) =>
        match AttrRelease(a1, Memory(a1.memory.used))
        case Err(e) => Err(e)
        case Ok(a2) =>
          match AttrRelease(a2, Bandwidth(a2.bandwidth.used))
          case Err(e) => Err(e)
          case Ok(a3) => Ok(SetStatus(r.(attr := a3), Unused))
  }

  /** Using a resource and releasing it again gives back the resource unchanged. */
  lemma UseReleaseRoundTrip(r: Resource)
    requires UseResource(r).Ok?
    ensures ReleaseResource(UseResource(r).value) == Ok(r)
  {
  }

  /** A released resource can always be used again. */
  lemma ReleaseEnablesUse(r: Resource)
    requires ReleaseResource(r).Ok?
    ensures UseResource(ReleaseResource(r).value) == Ok(ReleaseResource(r).value.(status := Suspended))
  {
  }

  /** No operation on a resource ever increases a usage counter; in
      particular an idle resource stays idle, and so within capacity. */
  lemma UsageNeverGrows(r: Resource, t: ResourceType, price: nat, s: Status, k: Dimension)
    ensures UseResource(r).Ok? ==> Detail(UseResource(r).value.attr, k).used <= Detail(r.attr, k).used
    ensures ReleaseResource(r).Ok? ==> Detail(ReleaseResource(r).value.attr, k).used <= Detail(r.attr, k).used
    ensures UpdateResource(r, t).Ok? ==> Detail(UpdateResource(r, t).value.attr, k).used == Detail(r.attr, k).used
    ensures SetPrice(r, t, price).Ok? ==> Detail(SetPrice(r, t, price).value.attr, k).used == Detail(r.attr, k).used
    ensures SetBasePrice(r, price).Ok? ==> SetBasePrice(r, price).value.attr == r.attr
    ensures SetStatus(r, s).attr == r.attr
  {
  }

  /** `update_resource` does not check the new total against usage, so a
      resource holding usage can be pushed out of capacity. */
  lemma UpdateCanBreakCapacity()
    ensures var r := Resource("r", "o", 0, ResourceAttr(ResourceDetails(10, 5, 1), DefaultDetails(), DefaultDetails(), Unknown, UnKnown), Unused);
      AttrWithinCapacity(r.attr) && UpdateResource(r, Cpu(3)).Ok? &&
      !AttrWithinCapacity(UpdateResource(r, Cpu(3)).value.attr)
  {
    var r := Resource("r", "o", 0, ResourceAttr(ResourceDetails(10, 5, 1), DefaultDetails(), DefaultDetails(), Unknown, UnKnown), Unused);
    assert !WithinCapacity(Detail(UpdateResource(r, Cpu(3)).value.attr, CpuDim));
  }

  /** The price depends on capacities and unit prices only, never on usage. */
  lemma PriceIgnoresUsage(r: Resource, s: Resource)
    requires r.basePrice == s.basePrice
    requires forall k :: Detail(r.attr, k).total == Detail(s.attr, k).total
    requires forall k :: Detail(r.attr, k).unitPrice == Detail(s.attr, k).unitPrice
    ensures Price(r) == Price(s)
  {
    assert Cost(r.attr.cpu) == Cost(s.attr.cpu) by {
      assert Detail(r.attr, CpuDim).total == Detail(s.attr, CpuDim).total;
      assert Detail(r.attr, CpuDim).unitPrice == Detail(s.attr, CpuDim).unitPrice;
    }
    assert Cost(r.attr.memory) == Cost(s.attr.memory) by {
      assert Detail(r.attr, MemoryDim).total == Detail(s.attr, MemoryDim).total;
      assert Detail(r.attr, MemoryDim).unitPrice == Detail(s.attr, MemoryDim).unitPrice;
    }
    assert Cost(r.attr.bandwidth) == Cost(s.attr.bandwidth) by {
      assert Detail(r.attr, BandwidthDim).total == Detail(s.attr, BandwidthDim).total;
      assert Detail(r.attr, BandwidthDim).unitPrice == Detail(s.attr, BandwidthDim).unitPrice;
    }
  }

  /** Using or releasing a resource leaves its price unchanged. */
  lemma PriceStableUnderUseAndRelease(r: Resource)
    ensures UseResource(r).Ok? ==> Price(UseResource(r).value) == Price(r)
    ensures ReleaseResource(r).Ok? ==> Price(ReleaseResource(r).value) == Price(r)
  {
    if ReleaseResource(r).Ok? {
      PriceIgnoresUsage(ReleaseResource(r).value, r);
    }
  }

  /** Updating a dimension's total swaps that dimension's cost for the new one. */
  lemma PriceAfterUpdate(r: Resource, t: ResourceType, k: Dimension)
    requires Tags(t, k) && UpdateResource(r, t).Ok?
    ensures Price(UpdateResource(r, t).value) + Cost(Detail(r.attr, k)) == Price(r) + Detail(r.attr, k).unitPrice * t.amount
  {
  }
}
