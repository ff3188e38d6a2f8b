/** Model of the estate listing records: a property, the offers made on it,
    the transitions between their states and the fields computed from them. */
module EstateProperty {

  /** The exceptions the records raise: the framework's UserError, Python's
      ValueError, the AttributeError of asking an unset date for its day, and
      the OverflowError of turning a huge integer into a float. */
  datatype Error =
    | UserError(message: string)
    | ValueError(message: string)
    | AttributeError
    | OverflowError(message: string)

  /** An operation that returns a value or raises. */
  datatype Result<T> = Ok(value: T) | Err(error: Error)

  /** An operation that returns nothing or raises. */
  datatype Outcome = Pass | Fail(error: Error)

  /** A value that may be unset (the framework's False). */
  datatype Option<T> = None | Some(value: T)

  const CancelledCannotBeSold := "Cancelled Properties cannot be sold"
  const SoldCannotBeCancelled := "Sold Properties cannot be cancelled"
  const RefusedCannotBeAccepted := "Refused Offers cannot be accepted"
  const AcceptedCannotBeRefused := "Accepted Offers cannot be refused"
  const OnlyComparisons := "Only comparison operations are allowed"
  const OnlyNumbers := "Only integers and floats are allowed in the search"
  const IntTooLarge := "int too large to convert to float"

  /** 2 to the power n. */
  function Pow2(n: nat): nat {
    if n == 0 then 1 else 2 * Pow2(n - 1)
  }

  /** The least magnitude of an integer that Python's float() cannot convert:
      halfway between the largest double, 2^1024 - 2^971, and 2^1024. */
  const FloatOverflowBound: int := Pow2(1024) - Pow2(970)

  datatype PropertyState = New | OfferReceived | OfferAccepted | Sold | Cancelled

  /** The offer's selection field has no default: Unset is its initial value. */
  datatype OfferStatus = Unset | InReview | Accepted | Refused

  /** NoOrientation is the empty selection the garden toggle writes back. */
  datatype Orientation = NoOrientation | North | South | East | West

  /** A partner record, by identity. */
  type PartnerId = nat

  /** Dates are day numbers. */
  type Day = int

  const DefaultValidity := 7
  const DefaultGardenArea := 10
  const DefaultOrientation := North

  predicate Distinct<T(==)>(s: seq<T>) {
    forall i, j :: 0 <= i < j < |s| ==> s[i] != s[j]
  }

  // ---------------------------------------------------------------------------
  // Property lifecycle

  /** Marking one property sold: refused for a cancelled property. */
  function SellState(s: PropertyState): (r: Result<PropertyState>)
    ensures r.Ok? <==> s != Cancelled
    ensures r.Ok? ==> r.value == Sold
    ensures r.Err? ==> r.error == UserError(CancelledCannotBeSold)
  {
    if s == Cancelled then Err(UserError(CancelledCannotBeSold)) else Ok(Sold)
  }

  /** Marking one property cancelled: refused for a sold property. */
  function CancelState(s: PropertyState): (r: Result<PropertyState>)
    ensures r.Ok? <==> s != Sold
    ensures r.Ok? ==> r.value == Cancelled
    ensures r.Err? ==> r.error == UserError(SoldCannotBeCancelled)
  {
    if s == Sold then Err(UserError(SoldCannotBeCancelled)) else Ok(Cancelled)
  }

  datatype PropertyAction = Sell | Cancel

  function StepState(s: PropertyState, a: PropertyAction): Result<PropertyState> {
    match a
    case Sell => SellState(s)
    case Cancel => CancelState(s)
  }

  /** The state after an attempted action: a refused action leaves it as it was. */
  function AfterAction(s: PropertyState, a: PropertyAction): PropertyState {
    match StepState(s, a)
    case Ok(t) => t
    case Err(_) => s
  }

  /** The state after a series of attempted actions. */
  function AfterActions(s: PropertyState, actions: seq<PropertyAction>): PropertyState
    decreases |actions|
  {
    if actions == [] then s else AfterActions(AfterAction(s, actions[0]), actions[1..])
  }

  /** Once sold, no series of sell and cancel attempts makes a property anything but sold. */
  lemma {:induction false} SoldIsFinal(actions: seq<PropertyAction>)
    ensures AfterActions(Sold, actions) == Sold
    decreases |actions|
  {
    if actions != [] {
      SoldIsFinal(actions[1..]);
    }
  }

  /** Once cancelled, no series of sell and cancel attempts makes a property anything but cancelled. */
  lemma {:induction false} CancelledIsFinal(actions: seq<PropertyAction>)
    ensures AfterActions(Cancelled, actions) == Cancelled
    decreases |actions|
  {
    if actions != [] {
      CancelledIsFinal(actions[1..]);
    }
  }

  // ---------------------------------------------------------------------------
  // Offer status transitions

  /** Accepting one offer: refused for a refused offer. */
  function AcceptStatus(s: OfferStatus): (r: Result<OfferStatus>)
    ensures r.Ok? <==> s != Refused
    ensures r.Ok? ==> r.value == Accepted
    ensures r.Err? ==> r.error == UserError(RefusedCannotBeAccepted)
  {
    if s == Refused then Err(UserError(RefusedCannotBeAccepted)) else Ok(Accepted)
  }

  /** Refusing one offer: refused for an accepted offer. */
  function RefuseStatus(s: OfferStatus): (r: Result<OfferStatus>)
    ensures r.Ok? <==> s != Accepted
    ensures r.Ok? ==> r.value == Refused
    ensures r.Err? ==> r.error == UserError(AcceptedCannotBeRefused)
  {
    if s == Accepted then Err(UserError(AcceptedCannotBeRefused)) else Ok(Refused)
  }

  datatype OfferAction = Accept | Refuse

  function AfterOfferAction(s: OfferStatus, a: OfferAction): OfferStatus {
    match (if a == Accept then AcceptStatus(s) else RefuseStatus(s))
    case Ok(t) => t
    case Err(_) => s
  }

  function AfterOfferActions(s: OfferStatus, actions: seq<OfferAction>): OfferStatus
    decreases |actions|
  {
    if actions == [] then s else AfterOfferActions(AfterOfferAction(s, actions[0]), actions[1..])
  }

  /** An accepted offer stays accepted whatever is attempted on it afterwards. */
  lemma {:induction false} AcceptedIsFinal(actions: seq<OfferAction>)
    ensures AfterOfferActions(Accepted, actions) == Accepted
    decreases |actions|
  {
    if actions != [] {
      AcceptedIsFinal(actions[1..]);
    }
  }

  /** A refused offer stays refused whatever is attempted on it afterwards. */
  lemma {:induction false} RefusedIsFinal(actions: seq<OfferAction>)
    ensures AfterOfferActions(Refused, actions) == Refused
    decreases |actions|
  {
    if actions != [] {
      RefusedIsFinal(actions[1..]);
    }
  }

  // ---------------------------------------------------------------------------
  // The refusal sweep that follows an acceptance

  /** The statuses after a sweep, and whether the sweep raised. */
  datatype Sweep = Sweep(statuses: seq<OfferStatus>, outcome: Outcome)

  /** The statuses with every position in [lo, hi) except keep set to refused. */
  function RefuseRange(ss: seq<OfferStatus>, keep: int, lo: int, hi: int): seq<OfferStatus> {
    seq(|ss|, j requires 0 <= j < |ss| => if lo <= j < hi && j != keep then Refused else ss[j])
  }

  /** k is the first position at or after i, other than keep, whose offer is accepted. */
  predicate FirstAcceptedSibling(ss: seq<OfferStatus>, keep: int, i: int, k: int) {
    0 <= i <= k < |ss| && k != keep && ss[k] == Accepted &&
    forall j :: i <= j < k && j != keep ==> ss[j] != Accepted
  }

  /** The refusal sweep over a property's offers from position i on, skipping
      position keep and refusing every other offer in turn, as written: the
      first offer that cannot be refused raises, and the offers refused before
      it stay refused. */
  function SweepFrom(ss: seq<OfferStatus>, keep: int, i: nat): (r: Sweep)
    requires i <= |ss|
    ensures |r.statuses| == |ss|
    decreases |ss| - i
  {
    if i == |ss| then Sweep(ss, Pass)
    else if i == keep then SweepFrom(ss, keep, i + 1)
    else match RefuseStatus(ss[i])
      case Err(e) => Sweep(ss, Fail(e))
      case Ok(s) => SweepFrom(ss[i := s], keep, i + 1)
  }

  /** The sweep passes exactly when no offer it reaches is already accepted; it
      then refuses all of them. Otherwise it raises at the first accepted one,
      having refused those before it and left the rest alone. */
  lemma {:induction false} SweepFromMeaning(ss: seq<OfferStatus>, keep: int, i: nat)
    requires i <= |ss|
    ensures var r := SweepFrom(ss, keep, i);
      (r.outcome.Pass? <==> forall j :: i <= j < |ss| && j != keep ==> ss[j] != Accepted) &&
      (r.outcome.Pass? ==> r.statuses == RefuseRange(ss, keep, i, |ss|)) &&
      (r.outcome.Fail? ==>
        r.outcome.error == UserError(AcceptedCannotBeRefused) &&
        (exists k :: FirstAcceptedSibling(ss, keep, i, k) && r.statuses == RefuseRange(ss, keep, i, k)))
    decreases |ss| - i
  {
    var r := SweepFrom(ss, keep, i);
    if i == |ss| {
      assert r.statuses == RefuseRange(ss, keep, i, |ss|);
    } else if i == keep {
      SweepFromMeaning(ss, keep, i + 1);
      assert forall hi :: RefuseRange(ss, keep, i + 1, hi) == RefuseRange(ss, keep, i, hi);
      if r.outcome.Fail? {
        var k :| FirstAcceptedSibling(ss, keep, i + 1, k) && r.statuses == RefuseRange(ss, keep, i + 1, k);
        assert FirstAcceptedSibling(ss, keep, i, k);
      }
    } else if ss[i] == Accepted {
      assert FirstAcceptedSibling(ss, keep, i, i);
      assert r.statuses == RefuseRange(ss, keep, i, i);
    } else {
      var ss' := ss[i := Refused];
      SweepFromMeaning(ss', keep, i + 1);
      assert forall j :: 0 <= j < |ss| && j != i ==> ss'[j] == ss[j];
      assert forall hi :: i < hi ==> RefuseRange(ss', keep, i + 1, hi) == RefuseRange(ss, keep, i, hi);
      if r.outcome.Fail? {
        var k :| FirstAcceptedSibling(ss', keep, i + 1, k) && r.statuses == RefuseRange(ss', keep, i + 1, k);
        assert FirstAcceptedSibling(ss, keep, i, k);
      }
    }
  }

  /** The sweep that follows accepting the offer at position k: it passes
      exactly when no other offer of the property is already accepted, and then
      the accepted offer is the only accepted one and every other is refused. */
  lemma AcceptanceSweep(ss: seq<OfferStatus>, k: nat)
    requires k < |ss|
    ensures var r := SweepFrom(ss[k := Accepted], k, 0);
      (r.outcome.Pass? <==> forall j :: 0 <= j < |ss| && j != k ==> ss[j] != Accepted) &&
      (r.outcome.Pass? ==> forall j :: 0 <= j < |ss| ==> r.statuses[j] == if j == k then Accepted else Refused) &&
      (r.outcome.Fail? ==> r.statuses[k] == Accepted)
  {
    SweepFromMeaning(ss[k := Accepted], k, 0);
    assert forall j :: 0 <= j < |ss| && j != k ==> ss[k := Accepted][j] == ss[j];
  }

  /** The acceptance sweep read back on a list of offers, before holding their
      statuses on entry and after those the sweep left: the accepted offer
      stays accepted, the sweep passes exactly when no other offer was accepted
      on entry, and then every other offer is refused. */
  lemma SweptOffers<T>(offers: seq<T>, before: seq<OfferStatus>, after: seq<OfferStatus>, k: nat, outcome: Outcome)
    requires |before| == |offers| && k < |offers| && Distinct(offers)
    requires Sweep(after, outcome) == SweepFrom(before[k := Accepted], k, 0)
    ensures |after| == |offers| && after[k] == Accepted
    ensures outcome.Pass? <==> forall j :: 0 <= j < |offers| && offers[j] != offers[k] ==> before[j] != Accepted
    ensures outcome.Pass? ==> forall j :: 0 <= j < |offers| && offers[j] != offers[k] ==> after[j] == Refused
  {
    AcceptanceSweep(before, k);
    assert forall j :: 0 <= j < |offers| ==> (offers[j] != offers[k] <==> j != k);
  }

  // ---------------------------------------------------------------------------
  // Computed fields and on-change rules

  /** The best offer price: the largest price, or 0 when there is no offer. */
  function BestOf(prices: seq<real>): (r: real)
    ensures prices == [] ==> r == 0.0
    ensures prices != [] ==> r in prices
    ensures forall i :: 0 <= i < |prices| ==> prices[i] <= r
  {
    if prices == [] then 0.0
    else if |prices| == 1 then prices[0]
    else
      var rest := BestOf(prices[1..]);
      if prices[0] >= rest then prices[0] else rest
  }

  /** The garden fields the toggle reads and writes. */
  datatype Garden = Garden(area: int, orientation: Orientation)

  const DefaultGarden := Garden(DefaultGardenArea, DefaultOrientation)
  const NoGarden := Garden(0, NoOrientation)

  /** The garden fields after the garden flag changed to garden. */
  function GardenAfterToggle(garden: bool, g: Garden): (r: Garden)
    ensures garden ==> r == DefaultGarden
    ensures !garden ==> (r != g <==> g == DefaultGarden)
    ensures !garden && r != g ==> r == NoGarden
  {
    if garden then DefaultGarden
    else if g.area == DefaultGardenArea && g.orientation == DefaultOrientation then NoGarden
    else g
  }

  /** Turning the garden on and off again, without editing in between,
      always leaves no garden area and no orientation. */
  lemma GardenOnThenOff(g: Garden)
    ensures GardenAfterToggle(false, GardenAfterToggle(true, g)) == NoGarden
  {
  }

  function DeadlineFor(created: Day, validity: int): Day {
    created + validity
  }

  function ValidityFor(created: Day, deadline: Day): int {
    deadline - created
  }

  /** Setting a deadline and computing it back from the validity this gives
      returns the deadline that was set, and conversely. */
  lemma DeadlineValidityRoundTrip(created: Day, deadline: Day, validity: int)
    ensures DeadlineFor(created, ValidityFor(created, deadline)) == deadline
    ensures ValidityFor(created, DeadlineFor(created, validity)) == validity
  {
  }

  const ComparisonOperators: set<string> := {"=", "!=", ">", "<", ">=", "<="}

  /** A search value as the caller passes it. Python's bool is a kind of int. */
  datatype SearchValue =
    | IntValue(i: int)
    | FloatValue(f: real)
    | BoolValue(b: bool)
    | OtherValue

  /** The search term handed on to the offer-price search. */
  datatype DomainTerm = DomainTerm(field: string, operator: string, value: real)

  predicate FloatOverflows(i: int) {
    i >= FloatOverflowBound || -i >= FloatOverflowBound
  }

  /** The argument checks of the best-price search: the operator must be a
      comparison and the value a number, and an integer is turned into a float,
      which fails for an integer beyond the range of a double. */
  function SearchBestPriceTerm(operator: string, value: SearchValue): (r: Result<DomainTerm>)
    ensures r.Ok? <==>
      operator in ComparisonOperators && !value.OtherValue? && !(value.IntValue? && FloatOverflows(value.i))
    ensures operator !in ComparisonOperators ==> r == Err(ValueError(OnlyComparisons))
    ensures operator in ComparisonOperators && value.OtherValue? ==> r == Err(ValueError(OnlyNumbers))
    ensures operator in ComparisonOperators && value.IntValue? && FloatOverflows(value.i) ==>
      r == Err(OverflowError(IntTooLarge))
    ensures r.Ok? ==> r.value.field == "offer_ids.price" && r.value.operator == operator
    ensures r.Ok? && value.IntValue? ==> r.value.value == value.i as real
    ensures r.Ok? && value.FloatValue? ==> r.value.value == value.f
    ensures r.Ok? && value.BoolValue? ==> r.value.value == if value.b then 1.0 else 0.0
  {
    if operator !in ComparisonOperators then Err(ValueError(OnlyComparisons))
    else match value
      case OtherValue => Err(ValueError(OnlyNumbers))
      case IntValue(i) =>
        if FloatOverflows(i) then Err(OverflowError(IntTooLarge))
        else Ok(DomainTerm("offer_ids.price", operator, i as real))
      case BoolValue(b) => Ok(DomainTerm("offer_ids.price", operator, if b then 1.0 else 0.0))
      case FloatValue(f) => Ok(DomainTerm("offer_ids.price", operator, f))
  }

  // ---------------------------------------------------------------------------
  // The records

  function PricesOf(os: seq<Offer>): seq<real> {
    seq(|os|, i requires 0 <= i < |os| => os[i].price)
  }

  function StatusesOf(os: seq<Offer>): seq<OfferStatus>
    reads os
  {
    seq(|os|, i requires 0 <= i < |os| reads os => os[i].status)
  }

  /** The position of o among os, or -1 when it is not there. */
  ghost function PositionOf(os: seq<Offer>, o: Offer): (k: int)
    ensures -1 <= k < |os|
    ensures k == -1 <==> o !in os
    ensures k >= 0 ==> os[k] == o
  {
    if os == [] then -1
    else if os[|os| - 1] == o then |os| - 1
    else PositionOf(os[..|os| - 1], o)
  }

  class Property {
    var state: PropertyState
    var sellingPrice: real
    var buyer: Option<PartnerId>
    var livingArea: real
    var garden: bool
    var gardenArea: int
    var gardenOrientation: Orientation
    var totalArea: real
    var bestPrice: real
    var offers: seq<Offer>

    /** Every offer listed belongs to this property, and none is listed twice. */
    ghost predicate Valid()
      reads this
    {
      (forall i :: 0 <= i < |offers| ==> offers[i].property == this) &&
      Distinct(offers)
    }

    /** Every field but the state is as it was. */
    twostate predicate SameListing()
      reads this
    {
      sellingPrice == old(sellingPrice) && buyer == old(buyer) &&
      livingArea == old(livingArea) && garden == old(garden) &&
      gardenArea == old(gardenArea) && gardenOrientation == old(gardenOrientation) &&
      totalArea == old(totalArea) && bestPrice == old(bestPrice) && offers == old(offers)
    }

    constructor ()
      ensures Valid()
      ensures state == New && sellingPrice == 0.0 && buyer == None
      ensures livingArea == 0.0 && !garden && gardenArea == 0 && gardenOrientation == NoOrientation
      ensures offers == [] && totalArea == 0.0 && bestPrice == 0.0
    {
      state := New;
      sellingPrice := 0.0;
      buyer := None;
      livingArea := 0.0;
      garden := false;
      gardenArea := 0;
      gardenOrientation := NoOrientation;
      totalArea := 0.0;
      bestPrice := 0.0;
      offers := [];
    }

    method MarkSold() returns (r: Result<bool>)
      modifies this`state
      ensures match SellState(old(state))
        case Ok(s) => r == Ok(true) && state == s
        case Err(e) => r == Err(e) && state == old(state)
    {
      if state == Cancelled {
        return Err(UserError(CancelledCannotBeSold));
      }
      state := Sold;
      return Ok(true);
    }

    method MarkCancelled() returns (r: Result<bool>)
      modifies this`state
      ensures match CancelState(old(state))
        case Ok(s) => r == Ok(true) && state == s
        case Err(e) => r == Err(e) && state == old(state)
    {
      if state == Sold {
        return Err(UserError(SoldCannotBeCancelled));
      }
      state := Cancelled;
      return Ok(true);
    }

    method SetBuyerDetails(partner: PartnerId, price: real)
      modifies this`sellingPrice, this`buyer
      ensures sellingPrice == price && buyer == Some(partner)
    {
      sellingPrice := price;
      buyer := Some(partner);
    }

    /** Refuses every offer of this property but the accepted one, in order,
        stopping with the error of the first that cannot be refused. */
    method RejectOffersOnAcceptance(accepted: Offer) returns (r: Outcome)
      requires Valid()
      modifies offers
      ensures Sweep(StatusesOf(offers), r) == SweepFrom(old(StatusesOf(offers)), PositionOf(offers, accepted), 0)
      ensures forall o :: o in offers ==> o.validity == old(o.validity) && o.deadlineDate == old(o.deadlineDate)
    {
      ghost var keep := PositionOf(offers, accepted);
      ghost var before := StatusesOf(offers);
      var i := 0;
      while i < |offers|
        invariant 0 <= i <= |offers|
        invariant SweepFrom(StatusesOf(offers), keep, i) == SweepFrom(before, keep, 0)
        invariant forall o :: o in offers ==> o.validity == old(o.validity) && o.deadlineDate == old(o.deadlineDate)
      {
        if offers[i] != accepted {
          ghost var current := StatusesOf(offers);
          var refused := offers[i].MarkRefused();
          if refused.Err? {
            assert StatusesOf(offers) == current;
            return Fail(refused.error);
          }
          assert StatusesOf(offers) == current[i := Refused];
        }
        i := i + 1;
      }
      r := Pass;
    }

    method ComputeTotalArea()
      modifies this`totalArea
      ensures totalArea == gardenArea as real + livingArea
    {
      totalArea := gardenArea as real + livingArea;
    }

    method ComputeBestPrice()
      modifies this`bestPrice
      ensures bestPrice == BestOf(PricesOf(offers))
    {
      bestPrice := BestOf(PricesOf(offers));
    }

    method HandleGardenToggle()
      modifies this`gardenArea, this`gardenOrientation
      ensures Garden(gardenArea, gardenOrientation) ==
              GardenAfterToggle(garden, Garden(old(gardenArea), old(gardenOrientation)))
    {
      if garden {
        gardenOrientation := North;
        gardenArea := 10;
      } else {
        if gardenArea == 10 && gardenOrientation == North {
          gardenArea := 0;
          gardenOrientation := NoOrientation;
        }
      }
    }
  }

  /** Each property, in order, either becomes what action a makes of it, or
      stops the whole call with the error of the first it is refused for. */
  twostate predicate AllMarked(props: seq<Property>, a: PropertyAction, new r: Result<bool>)
    reads props
  {
    (r.Ok? <==> forall i :: 0 <= i < |props| ==> StepState(old(props[i].state), a).Ok?) &&
    (r.Ok? ==> r.value && forall i :: 0 <= i < |props| ==> StepState(old(props[i].state), a) == Ok(props[i].state)) &&
    (r.Err? ==>
      exists k :: (0 <= k < |props| && StepState(old(props[k].state), a) == Err(r.error) &&
        (forall j :: 0 <= j < k ==> StepState(old(props[j].state), a) == Ok(props[j].state)) &&
        (forall j :: k <= j < |props| ==> props[j].state == old(props[j].state))))
  }

  method MarkPropertiesSold(props: seq<Property>) returns (r: Result<bool>)
    requires Distinct(props)
    modifies props
    ensures AllMarked(props, Sell, r)
    ensures forall i :: 0 <= i < |props| ==> props[i].SameListing()
  {
    var i := 0;
    while i < |props|
      invariant 0 <= i <= |props|
      invariant forall j :: 0 <= j < i ==> StepState(old(props[j].state), Sell) == Ok(props[j].state)
      invariant forall j :: i <= j < |props| ==> props[j].state == old(props[j].state)
      invariant forall j :: 0 <= j < |props| ==> props[j].SameListing()
    {
      var marked := props[i].MarkSold();
      if marked.Err? {
        return Err(marked.error);
      }
      i := i + 1;
    }
    return Ok(true);
  }

  method MarkPropertiesCancelled(props: seq<Property>) returns (r: Result<bool>)
    requires Distinct(props)
    modifies props
    ensures AllMarked(props, Cancel, r)
    ensures forall i :: 0 <= i < |props| ==> props[i].SameListing()
  {
    var i := 0;
    while i < |props|
      invariant 0 <= i <= |props|
      invariant forall j :: 0 <= j < i ==> StepState(old(props[j].state), Cancel) == Ok(props[j].state)
      invariant forall j :: i <= j < |props| ==> props[j].state == old(props[j].state)
      invariant forall j :: 0 <= j < |props| ==> props[j].SameListing()
    {
      var marked := props[i].MarkCancelled();
      if marked.Err? {
        return Err(marked.error);
      }
      i := i + 1;
    }
    return Ok(true);
  }

  class Offer {
    const property: Property
    const partner: PartnerId
    const price: real
    const createDate: Option<Day>
    var status: OfferStatus
    var validity: int
    var deadlineDate: Option<Day>

    /** A new offer, listed on its property. */
    constructor (property: Property, partner: PartnerId, price: real, createDate: Option<Day>)
      requires property.Valid()
      modifies property`offers
      ensures this.property == property && this.partner == partner && this.price == price
      ensures this.createDate == createDate
      ensures status == Unset && validity == DefaultValidity
      ensures createDate.Some? ==> deadlineDate == Some(DeadlineFor(createDate.value, DefaultValidity))
      ensures createDate.None? ==> deadlineDate == None
      ensures property.offers == old(property.offers) + [this] && property.Valid()
    {
      this.property := property;
      this.partner := partner;
      this.price := price;
      this.createDate := createDate;
      status := Unset;
      validity := DefaultValidity;
      deadlineDate := if createDate.Some? then Some(createDate.value + DefaultValidity) else None;
      new;
      property.offers := property.offers + [this];
    }

    method MarkRefused() returns (r: Result<bool>)
      modifies this`status
      ensures match RefuseStatus(old(status))
        case Ok(s) => r == Ok(true) && status == s
        case Err(e) => r == Err(e) && status == old(status)
    {
      if status == Accepted {
        return Err(UserError(AcceptedCannotBeRefused));
      }
      status := Refused;
      return Ok(true);
    }

    /** Accepts this offer, stamps its partner and price on the property and
        refuses the property's other offers; the property's state stays. */
    method MarkAccepted() returns (r: Result<bool>)
      requires property.Valid() && this in property.offers
      modifies this`status, property`sellingPrice, property`buyer, property.offers
      ensures property.state == old(property.state) && property.offers == old(property.offers)
      ensures AcceptStatus(old(status)).Err? ==>
        r == Err(AcceptStatus(old(status)).error) &&
        property.sellingPrice == old(property.sellingPrice) && property.buyer == old(property.buyer) &&
        StatusesOf(property.offers) == old(StatusesOf(property.offers))
      ensures AcceptStatus(old(status)).Ok? ==>
        property.sellingPrice == price && property.buyer == Some(partner) &&
        var k := PositionOf(property.offers, this);
        var sweep := SweepFrom(old(StatusesOf(property.offers))[k := Accepted], k, 0);
        StatusesOf(property.offers) == sweep.statuses &&
        r == (if sweep.outcome.Pass? then Ok(true) else Err(sweep.outcome.error))
      ensures AcceptStatus(old(status)).Ok? ==> status == Accepted
      ensures AcceptStatus(old(status)).Ok? ==>
        (r.Ok? <==> forall o :: o in property.offers && o != this ==> old(o.status) != Accepted)
      ensures r.Ok? ==> forall o :: o in property.offers && o != this ==> o.status == Refused
      ensures forall o :: o in property.offers ==> o.validity == old(o.validity) && o.deadlineDate == old(o.deadlineDate)
    {
      if status == Refused {
        return Err(UserError(RefusedCannotBeAccepted));
      }
      ghost var k := PositionOf(property.offers, this);
      ghost var before := StatusesOf(property.offers);
      status := Accepted;
      assert StatusesOf(property.offers) == before[k := Accepted];
      property.SetBuyerDetails(partner, price);
      assert StatusesOf(property.offers) == before[k := Accepted];
      var swept := property.RejectOffersOnAcceptance(this);
      assert Sweep(StatusesOf(property.offers), swept) == SweepFrom(before[k := Accepted], k, 0);
      ghost var offers := property.offers;
      ghost var after := StatusesOf(offers);
      assert offers[k] == this;
      SweptOffers(offers, before, after, k, swept);
      assert status == after[k];
      forall o | o in offers && o != this
        ensures (swept.Pass? ==> old(o.status) != Accepted && o.status == Refused)
      {
        var j :| 0 <= j < |offers| && offers[j] == o;
        assert before[j] == old(o.status) && after[j] == o.status;
      }
      if swept.Fail? {
        ghost var j :| 0 <= j < |offers| && offers[j] != this && before[j] == Accepted;
        assert old(offers[j].status) == Accepted;
        return Err(swept.error);
      }
      return Ok(true);
    }

    method ComputeDeadlineDate()
      modifies this`deadlineDate
      ensures createDate.Some? ==> deadlineDate == Some(DeadlineFor(createDate.value, validity))
      ensures createDate.None? ==> deadlineDate == old(deadlineDate)
    {
      if createDate.Some? {
        deadlineDate := Some(createDate.value + validity);
      }
    }

    method ComputeValidityFromDeadline() returns (r: Outcome)
      modifies this`validity
      ensures deadlineDate.None? ==> r == Pass && validity == old(validity)
      ensures deadlineDate.Some? && createDate.None? ==> r == Fail(AttributeError) && validity == old(validity)
      ensures deadlineDate.Some? && createDate.Some? ==>
        r == Pass && validity == ValidityFor(createDate.value, deadlineDate.value)
    {
      if deadlineDate.Some? {
        if createDate.None? {
          return Fail(AttributeError);
        }
        validity := deadlineDate.value - createDate.value;
      }
      r := Pass;
    }
  }
}
