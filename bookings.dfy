/** Booking creation (POST /api/bookings of the API server) over an in-memory RENTALS
    table. The cost comes from the database function
    `pkg_rental_utils.fn_calculate_rental_cost`, whose body is not part of this model:
    it is a parameter of the operation. */
module Bookings {
  import opened Options

  datatype RentalStatus = Booked | Ongoing | Completed | Cancelled

  /** A row of the RENTALS table. Dates are day numbers; money is in cents. A NULL
      TOTAL_COST is `None`. */
  datatype RentalRow = RentalRow(rentalId: nat, userId: Option<int>, carId: int,
                                 startDay: int, endDay: int, totalCost: Option<int>,
                                 status: RentalStatus)

  /** The body of a booking request. `totalCost` is what the storefront computed; the
      customer fields are sent by the storefront and not used by the handler. */
  datatype BookingRequest = BookingRequest(userId: Option<int>, carId: int,
                                           startDay: int, endDay: int,
                                           totalCost: Option<int>,
                                           customerName: Option<string>,
                                           customerEmail: Option<string>,
                                           customerPhone: Option<string>)

  /** What `SELECT fn_calculate_rental_cost(...) FROM DUAL` gives: the function raises,
      or it returns a value that may be NULL. */
  datatype QuoteResult = QuoteRaised | QuoteValue(cost: Option<int>)

  /** The database-side pricing function, from car id, start day and end day. */
  type Quote = (int, int, int) -> QuoteResult

  /** The answer of the handler: 200 with the new id and the cost, or 500. */
  datatype BookingResponse =
    | BookingCreated(rentalId: nat, totalCost: Option<int>)
    | BookingFailed(error: string)

  const MsgBookingFailed := "Failed to create booking"

  /** `user_id || null`: a missing, null or zero user id is stored as NULL. */
  function StoredUserId(userId: Option<int>): (r: Option<int>)
    ensures r.None? <==> userId.None? || userId.value == 0
    ensures r.Some? ==> r == userId && r.value != 0
  {
    if userId.Some? && userId.value != 0 then userId else None
  }

  /** The row inserted for a booking whose cost the database function computed. */
  function NewRental(req: BookingRequest, id: nat, cost: Option<int>): (row: RentalRow)
    ensures row.status == Booked && row.rentalId == id
    ensures row.totalCost == cost
    ensures row.userId == StoredUserId(req.userId)
    ensures row.carId == req.carId && row.startDay == req.startDay && row.endDay == req.endDay
  {
    RentalRow(id, StoredUserId(req.userId), req.carId, req.startDay, req.endDay, cost, Booked)
  }

  /** The cost the client claims, and the customer fields, do not reach the table. */
  lemma ClientFieldsIgnored(req: BookingRequest, id: nat, cost: Option<int>,
                            claimed: Option<int>, name: Option<string>,
                            email: Option<string>, phone: Option<string>)
    ensures NewRental(req.(totalCost := claimed, customerName := name,
                           customerEmail := email, customerPhone := phone), id, cost) ==
            NewRental(req, id, cost)
  {
  }

  /** The RENTALS table and the identity sequence that numbers its rows. */
  class RentalTable {
    var rentals: seq<RentalRow>
    var nextRentalId: nat

    ghost predicate Valid()
      reads this
    {
      (forall i, j | 0 <= i < j < |rentals| :: rentals[i].rentalId < rentals[j].rentalId) &&
      (forall i | 0 <= i < |rentals| :: rentals[i].rentalId < nextRentalId)
    }

    constructor ()
      ensures Valid() && rentals == [] && nextRentalId == 1
    {
      rentals := [];
      nextRentalId := 1;
    }

    /** POST /api/bookings: price the booking with the database function, then insert
        one `booked` rental with that cost. When the function raises, nothing is
        inserted and the answer is 500. */
    method CreateBooking(req: BookingRequest, quote: Quote) returns (r: BookingResponse)
      requires Valid()
      modifies this
      ensures Valid()
      ensures quote(req.carId, req.startDay, req.endDay).QuoteRaised? ==>
                r == BookingFailed(MsgBookingFailed) &&
                rentals == old(rentals) && nextRentalId == old(nextRentalId)
      ensures quote(req.carId, req.startDay, req.endDay).QuoteValue? ==>
                var cost := quote(req.carId, req.startDay, req.endDay).cost;
                rentals == old(rentals) + [NewRental(req, old(nextRentalId), cost)] &&
                nextRentalId == old(nextRentalId) + 1 &&
                r == BookingCreated(old(nextRentalId), cost)
      ensures r.BookingCreated? ==>
                |rentals| == |old(rentals)| + 1 &&
                rentals[|rentals| - 1].rentalId == r.rentalId &&
                rentals[|rentals| - 1].totalCost == r.totalCost &&
                rentals[|rentals| - 1].status == Booked
    {
      var quoted := quote(req.carId, req.startDay, req.endDay);
      if quoted.QuoteRaised? {
        return BookingFailed(MsgBookingFailed);
      }
      var row := NewRental(req, nextRentalId, quoted.cost);
      rentals := rentals + [row];
      nextRentalId := nextRentalId + 1;
      r := BookingCreated(row.rentalId, row.totalCost);
    }
  }
}
