/**
 The immutable domain objects of the matching engine: limit orders with their lifecycle,
 and trades.  A frozen order is a value here; "changing" one yields another value.
 */
module Orders {
  import opened Common

  datatype Side = Buy | Sell {
    function Opposite(): Side {
      if Buy? then Sell else Buy
    }
  }

  datatype Status = Open | PartiallyFilled | Filled | Cancelled {
    predicate IsActive() {
      Open? || PartiallyFilled?
    }
  }

  datatype EngineError =
    | InvalidOrder
    | DuplicateOrder
    | DuplicateSequence
    | OutOfSequence
    | UnknownOrder
    | OrderNotCancellable
    | BookInvariant

  datatype LimitOrder = LimitOrder(
    id: string,
    side: Side,
    price: int,
    quantity: int,
    sequence: int,
    remaining: int,
    status: Status
  ) {
    predicate IsActive() {
      status.IsActive()
    }

    /** Exactly the states that the order's constructor lets exist. */
    predicate Valid() {
      && id != ""
      && price > 0
      && quantity > 0
      && sequence > 0
      && 0 <= remaining <= quantity
      && StateAllowed(quantity, remaining, status)
    }

    /** The next lifecycle state after one execution; the constructor validates it again. */
    function ApplyFill(fill: int): (r: Result<LimitOrder, EngineError>)
      requires Valid()
      ensures r.Ok? <==> IsActive() && 0 < fill <= remaining
      ensures r.Ok? ==> r.value.Valid() && r.value == Filled(fill)
    {
      if fill <= 0 then Err(InvalidOrder)
      else if !IsActive() then Err(InvalidOrder)
      else if fill > remaining then Err(InvalidOrder)
      else
        NewOrder(id, side, price, quantity, sequence, Some(remaining - fill),
                 Some(if remaining - fill == 0 then Status.Filled else PartiallyFilled))
    }

    function Cancel(): (r: Result<LimitOrder, EngineError>)
      requires Valid()
      ensures r.Ok? <==> IsActive()
      ensures r.Ok? ==> r.value.Valid() && r.value == this.(status := Cancelled)
    {
      if !IsActive() then Err(InvalidOrder)
      else NewOrder(id, side, price, quantity, sequence, Some(remaining), Some(Cancelled))
    }

    /** What a successful execution of `fill` units leaves. */
    function Filled(fill: int): LimitOrder {
      this.(remaining := remaining - fill,
            status := if remaining - fill == 0 then Status.Filled else PartiallyFilled)
    }
  }

  predicate StateAllowed(quantity: int, remaining: int, status: Status) {
    match status
    case Open => remaining == quantity
    case PartiallyFilled => 0 < remaining < quantity
    case Filled => remaining == 0
    case Cancelled => remaining > 0
  }

  /** The constructor: absent optional fields are inferred, everything is validated. */
  function NewOrder(id: string, side: Side, price: int, quantity: int, sequence: int,
                    remaining: Option<int>, status: Option<Status>)
    : (r: Result<LimitOrder, EngineError>)
    ensures r.Ok? ==> r.value.Valid()
    ensures r.Ok? ==>
              && r.value.id == id && r.value.side == side && r.value.price == price
              && r.value.quantity == quantity && r.value.sequence == sequence
              && r.value.remaining == (if remaining.Some? then remaining.value else quantity)
              && (status.Some? ==> r.value.status == status.value)
    ensures r.Err? ==> r.error == InvalidOrder
  {
    if id == "" then Err(InvalidOrder)
    else if price <= 0 || quantity <= 0 || sequence <= 0 then Err(InvalidOrder)
    else
      var left := if remaining.None? then quantity else remaining.value;
      if left < 0 || left > quantity then Err(InvalidOrder)
      else
        var state :=
          if status.Some? then status.value
          else if left == 0 then Status.Filled
          else if left == quantity then Open
          else PartiallyFilled;
        if !StateAllowed(quantity, left, state) then Err(InvalidOrder)
        else Ok(LimitOrder(id, side, price, quantity, sequence, left, state))
  }

  /** A fresh order as the processor builds it from a submit command. */
  function FreshOrder(id: string, side: Side, price: int, quantity: int, sequence: int)
    : (r: Result<LimitOrder, EngineError>)
    ensures r == if id != "" && price > 0 && quantity > 0 && sequence > 0
                 then Ok(LimitOrder(id, side, price, quantity, sequence, quantity, Open))
                 else Err(InvalidOrder)
  {
    NewOrder(id, side, price, quantity, sequence, None, None)
  }

  /** Persisting an order's fields and constructing it again loses nothing, and nothing else
      can be constructed from them: the constructor accepts exactly the valid states. */
  lemma RehydrationRoundTrip(o: LimitOrder)
    ensures NewOrder(o.id, o.side, o.price, o.quantity, o.sequence, Some(o.remaining), Some(o.status))
         == if o.Valid() then Ok(o) else Err(InvalidOrder)
    ensures o.Valid() <==>
              && o.id != "" && o.price > 0 && o.quantity > 0 && o.sequence > 0
              && ( || (o.status == Open && o.remaining == o.quantity)
                   || (o.status == PartiallyFilled && 0 < o.remaining < o.quantity)
                   || (o.status == Filled && o.remaining == 0)
                   || (o.status == Cancelled && 0 < o.remaining <= o.quantity))
  {
    if o.Valid() {
      assert StateAllowed(o.quantity, o.remaining, o.status);
    }
  }

  datatype Trade = Trade(
    sequence: int,
    maker: string,
    taker: string,
    price: int,
    quantity: int,
    makerSide: Side
  )
}
