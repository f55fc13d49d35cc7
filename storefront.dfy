/** The storefront script: the car list it loads from GET /api/cars, the filter over
    it, the Book button of each car card, the booking modal's selected car and the
    quote it shows. The page's DOM is not modelled; its inputs are parameters and the
    texts the script computes are fields. */
module Storefront {
  import opened Options
  import opened JsText

  /** A JavaScript value as it appears in a row of GET /api/cars. Numbers are
      integers; a daily rate is read in cents. */
  datatype Value = Undefined | Null | Num(n: int) | Str(s: string)

  predicate Truthy(v: Value) {
    match v
    case Undefined => false
    case Null => false
    case Num(n) => n != 0
    case Str(s) => s != ""
  }

  /** `a || b`: the first operand when it is truthy, otherwise the second. */
  function Or(a: Value, b: Value): (r: Value)
    ensures Truthy(r) <==> Truthy(a) || Truthy(b)
    ensures Truthy(a) ==> r == a
    ensures !Truthy(a) ==> r == b
  {
    if Truthy(a) then a else b
  }

  /** `${v}` in a template literal. */
  function Text(v: Value): string {
    match v
    case Undefined => "undefined"
    case Null => "null"
    case Num(n) => IntText(n)
    case Str(s) => s
  }

  /** A row of the JSON answer, by column name. */
  type Row = map<string, Value>

  /** `row.name`: `undefined` when the row has no such key. */
  function Column(row: Row, name: string): Value {
    if name in row then row[name] else Undefined
  }

  /** `row.UPPER || row.lower`. */
  function Pick(row: Row, upper: string, lower: string): Value {
    Or(Column(row, upper), Column(row, lower))
  }

  /** A car as the storefront keeps it, with the field names it expects. */
  datatype Car = Car(carId: Value, typeId: Value, typeName: Value, brand: Value, model: Value,
                     year: Value, licensePlate: Value, dailyRate: Value, status: Value,
                     mileage: Value, imageUrl: Value)

  const PlaceholderPrefix := "https://via.placeholder.com/400x250?text="

  /** The image shown when a car has none: a placeholder naming its brand and model. */
  function PlaceholderImage(row: Row): (url: string)
    ensures StartsWith(url, PlaceholderPrefix) && |url| > |PlaceholderPrefix|
  {
    PlaceholderPrefix + Text(Pick(row, "BRAND", "brand")) + "+" + Text(Pick(row, "MODEL", "model"))
  }

  /** The column-name normalisation applied to each row: the uppercase column (Oracle's
      spelling) when it is truthy, otherwise the lowercase one; the image falls back to
      the placeholder. */
  function Normalize(row: Row): (car: Car)
    ensures Truthy(car.imageUrl)
    ensures !Truthy(Pick(row, "IMAGE_URL", "image_url")) ==>
              car.imageUrl == Str(PlaceholderImage(row))
  {
    Car(Pick(row, "CAR_ID", "car_id"), Pick(row, "TYPE_ID", "type_id"),
        Pick(row, "TYPE_NAME", "type_name"), Pick(row, "BRAND", "brand"),
        Pick(row, "MODEL", "model"), Pick(row, "YEAR", "year"),
        Pick(row, "LICENSE_PLATE", "license_plate"), Pick(row, "DAILY_RATE", "daily_rate"),
        Pick(row, "STATUS", "status"), Pick(row, "MILEAGE", "mileage"),
        Or(Pick(row, "IMAGE_URL", "image_url"), Str(PlaceholderImage(row))))
  }

  /** The value a truthy-or-fallback pick keeps from a column whose alternative is absent. */
  function KeepTruthy(v: Value): (r: Value)
    ensures Truthy(v) ==> r == v
    ensures !Truthy(v) ==> r == Undefined
  {
    if Truthy(v) then v else Undefined
  }

  const LowercaseColumns := {"car_id", "type_id", "type_name", "brand", "model", "year",
                             "license_plate", "daily_rate", "status", "mileage", "image_url"}

  const UppercaseColumns := {"CAR_ID", "TYPE_ID", "TYPE_NAME", "BRAND", "MODEL", "YEAR",
                             "LICENSE_PLATE", "DAILY_RATE", "STATUS", "MILEAGE", "IMAGE_URL"}

  /** A row with Oracle's uppercase keys only keeps every truthy value and turns every
      falsy one (a mileage of 0, an empty plate) into `undefined`. */
  lemma UppercaseRowKeepsTruthyValues(row: Row)
    requires forall k | k in LowercaseColumns :: k !in row
    ensures var car := Normalize(row);
      car.carId == KeepTruthy(Column(row, "CAR_ID")) &&
      car.typeId == KeepTruthy(Column(row, "TYPE_ID")) &&
      car.typeName == KeepTruthy(Column(row, "TYPE_NAME")) &&
      car.brand == KeepTruthy(Column(row, "BRAND")) &&
      car.model == KeepTruthy(Column(row, "MODEL")) &&
      car.year == KeepTruthy(Column(row, "YEAR")) &&
      car.licensePlate == KeepTruthy(Column(row, "LICENSE_PLATE")) &&
      car.dailyRate == KeepTruthy(Column(row, "DAILY_RATE")) &&
      car.status == KeepTruthy(Column(row, "STATUS")) &&
      car.mileage == KeepTruthy(Column(row, "MILEAGE"))
  {
  }

  /** A row with lowercase keys only is taken over value for value. */
  lemma LowercaseRowKeepsValues(row: Row)
    requires forall k | k in UppercaseColumns :: k !in row
    ensures var car := Normalize(row);
      car.carId == Column(row, "car_id") && car.typeId == Column(row, "type_id") &&
      car.typeName == Column(row, "type_name") && car.brand == Column(row, "brand") &&
      car.model == Column(row, "model") && car.year == Column(row, "year") &&
      car.licensePlate == Column(row, "license_plate") &&
      car.dailyRate == Column(row, "daily_rate") && car.status == Column(row, "status") &&
      car.mileage == Column(row, "mileage")
  {
  }

  /** `data.data.map(...)`: one car per row, in the rows' order. */
  function NormalizeAll(rows: seq<Row>): (cars: seq<Car>)
    ensures |cars| == |rows|
    ensures forall i | 0 <= i < |rows| :: cars[i] == Normalize(rows[i])
  {
    seq(|rows|, i requires 0 <= i < |rows| => Normalize(rows[i]))
  }

  // ---------------------------------------------------------------------------
  // The filter

  /** The type half of the filter: no type chosen, or exactly this type name. */
  predicate TypeMatches(car: Car, carType: string)
    ensures carType == "" ==> TypeMatches(car, carType)
    ensures carType != "" ==> (TypeMatches(car, carType) <==> car.typeName == Str(carType))
  {
    carType == "" || car.typeName == Str(carType)
  }

  /** The search half of the filter, for a term already lowercased. `None` when it
      throws: `toLowerCase` called on a model or brand that is not a string. */
  function SearchMatches(car: Car, term: string): (r: Option<bool>)
    ensures r.None? <==>
              term != "" &&
              (!car.model.Str? || (!Includes(Lower(car.model.s), term) && !car.brand.Str?))
    ensures r.Some? ==>
              (r.value <==>
                 term == "" || (car.model.Str? && Includes(Lower(car.model.s), term)) ||
                 (car.brand.Str? && Includes(Lower(car.brand.s), term)))
  {
    if term == "" then Some(true)
    else if !car.model.Str? then None
    else if Includes(Lower(car.model.s), term) then Some(true)
    else if !car.brand.Str? then None
    else Some(Includes(Lower(car.brand.s), term))
  }

  /** The filter callback: whether the car stays, or `None` when the callback throws. */
  function Keep(car: Car, carType: string, term: string): (r: Option<bool>)
    ensures r.None? <==>
              term != "" &&
              (!car.model.Str? || (!Includes(Lower(car.model.s), term) && !car.brand.Str?))
    ensures r.Some? ==>
              (r.value <==>
                 TypeMatches(car, carType) &&
                 (term == "" || (car.model.Str? && Includes(Lower(car.model.s), term)) ||
                  (car.brand.Str? && Includes(Lower(car.brand.s), term))))
  {
    match SearchMatches(car, term)
    case None => None
    case Some(hit) => Some(TypeMatches(car, carType) && hit)
  }

  /** `a` is `b` with some elements left out, the rest in their order. */
  ghost predicate IsSubsequence(a: seq<Car>, b: seq<Car>)
    decreases |b|
  {
    if a == [] then true
    else if b == [] then false
    else (a[0] == b[0] && IsSubsequence(a[1..], b[1..])) || IsSubsequence(a, b[1..])
  }

  /** `cars.filter(...)`: `None` when the callback throws on some car. Otherwise the
      cars the callback keeps, each as often as in `cars`, in their original order. */
  function Filter(cars: seq<Car>, carType: string, term: string): (r: Option<seq<Car>>)
    ensures r.None? <==> exists i | 0 <= i < |cars| :: Keep(cars[i], carType, term).None?
    ensures r.Some? ==> IsSubsequence(r.value, cars)
    ensures r.Some? ==>
              forall c :: multiset(r.value)[c] ==
                          if Keep(c, carType, term) == Some(true) then multiset(cars)[c] else 0
    decreases |cars|
  {
    if cars == [] then Some([])
    else
      var head, tail := cars[0], cars[1..];
      assert cars == [head] + tail;
      match Keep(head, carType, term)
      case None => None
      case Some(kept) =>
        match Filter(tail, carType, term)
        case None => None
        case Some(rest) => Some(if kept then [head] + rest else rest)
  }

  /** A list is a sub-list of itself. */
  lemma {:induction false} SubsequenceOfItself(cars: seq<Car>)
    ensures IsSubsequence(cars, cars)
    decreases |cars|
  {
    if cars != [] {
      SubsequenceOfItself(cars[1..]);
    }
  }

  /** No type and no search term keep every car. */
  lemma {:induction false} FilterWithoutCriteria(cars: seq<Car>)
    ensures Filter(cars, "", "") == Some(cars)
    decreases |cars|
  {
    if cars != [] {
      FilterWithoutCriteria(cars[1..]);
      assert Keep(cars[0], "", "") == Some(true);
      assert [cars[0]] + cars[1..] == cars;
    }
  }

  // ---------------------------------------------------------------------------
  // Car cards, the booking modal and the quote

  /** The button at the foot of a car card. An enabled button carries the text that
      `${car.car_id}` writes into its `onclick="openBookingModal(...)"` code. */
  datatype BookButton = BookNow(argument: string) | Unavailable

  /** `createCarCard`: the card's button, or `None` when building the card throws:
      `car.mileage.toLocaleString()` on an undefined or null mileage, or
      `car.daily_rate.toFixed(2)` on a rate that is not a number. */
  function CarCard(car: Car): (card: Option<BookButton>)
    ensures card.None? <==> car.mileage.Undefined? || car.mileage.Null? || !car.dailyRate.Num?
    ensures card.Some? ==> (card.value.BookNow? <==> car.status == Str("available"))
    ensures card.Some? && card.value.BookNow? ==> card.value.argument == Text(car.carId)
  {
    if car.mileage.Undefined? || car.mileage.Null? || !car.dailyRate.Num? then None
    else if car.status == Str("available") then Some(BookNow(Text(car.carId)))
    else Some(Unavailable)
  }

  /** `filteredCars.map(car => createCarCard(car))`: every card in order, or `None`
      when building some card throws (the grid then is not replaced). */
  function Cards(cars: seq<Car>): (r: Option<seq<BookButton>>)
    ensures r.None? <==> exists i | 0 <= i < |cars| :: CarCard(cars[i]).None?
    ensures r.Some? ==> |r.value| == |cars| &&
                        forall i | 0 <= i < |cars| :: Some(r.value[i]) == CarCard(cars[i])
    decreases |cars|
  {
    if cars == [] then Some([])
    else
      match CarCard(cars[0])
      case None => None
      case Some(card) =>
        match Cards(cars[1..])
        case None => None
        case Some(rest) => Some([card] + rest)
  }

  /** A row with Oracle's uppercase keys only and a MILEAGE of 0 loads as a car whose
      card throws, so no card of the list is shown. */
  lemma {:induction false} ZeroMileageBlanksGrid(rows: seq<Row>, i: nat)
    requires i < |rows|
    requires forall k | k in LowercaseColumns :: k !in rows[i]
    requires Column(rows[i], "MILEAGE") == Num(0)
    ensures Cards(NormalizeAll(rows)).None?
  {
    UppercaseRowKeepsTruthyValues(rows[i]);
    assert CarCard(NormalizeAll(rows)[i]).None?;
  }

  /** The value `openBookingModal(<argument>)` receives when the browser evaluates the
      argument text: `undefined`, `null` and decimal integer literals. `None` for any
      other text: an identifier such as `C1` throws a ReferenceError before the call. */
  function ClickArgument(argument: string): (v: Option<Value>)
    ensures v.Some? ==> !v.value.Str?
  {
    if argument == "undefined" then Some(Undefined)
    else if argument == "null" then Some(Null)
    else if Numeral(argument) then Some(Num(NatValue(argument)))
    else if |argument| >= 2 && argument[0] == '-' && Numeral(argument[1..]) then
      var magnitude: int := NatValue(argument[1..]);
      Some(Num(-magnitude))
    else None
  }

  /** An id that is not a string survives being written into the button's code. */
  lemma ClickArgumentOfText(id: Value)
    requires !id.Str?
    ensures ClickArgument(Text(id)) == Some(id)
  {
    if id.Num? {
      var n := id.n;
      if n < 0 {
        NatTextRoundTrip(-n);
        assert Text(id) == "-" + NatText(-n);
        assert Text(id)[1..] == NatText(-n);
      } else {
        NatTextRoundTrip(n);
        assert IsDigit(Text(id)[0]);
      }
    }
  }

  /** `cars.find(car => car.car_id === carId)`. */
  function FindCar(cars: seq<Car>, carId: Value): (r: Option<Car>)
    ensures r.None? <==> forall c | c in cars :: c.carId != carId
    ensures r.Some? ==>
              exists i | 0 <= i < |cars| ::
                cars[i] == r.value && r.value.carId == carId &&
                forall j | 0 <= j < i :: cars[j].carId != carId
    decreases |cars|
  {
    if cars == [] then None
    else if cars[0].carId == carId then Some(cars[0])
    else
      assert forall c | c in cars :: c == cars[0] || c in cars[1..];
      var r := FindCar(cars[1..], carId);
      if r.Some? then
        var i :| 0 <= i < |cars[1..]| && cars[1..][i] == r.value && r.value.carId == carId &&
                 forall j | 0 <= j < i :: cars[1..][j].carId != carId;
        assert cars[i + 1] == r.value;
        r
      else r
  }

  /** The Book button of a listed car whose id is not a string selects a car with
      that id. */
  lemma BookNowFindsACar(cars: seq<Car>, car: Car)
    requires car in cars && !car.carId.Str?
    requires CarCard(car).Some? && CarCard(car).value.BookNow?
    ensures var v := ClickArgument(CarCard(car).value.argument);
      v == Some(car.carId) && FindCar(cars, v.value).Some? &&
      FindCar(cars, v.value).value.carId == car.carId
  {
    ClickArgumentOfText(car.carId);
  }

  /** The Book button of a car whose id is a string never selects that car: the click
      throws, or passes a value that is not a string, which no string id is strictly
      equal to. */
  lemma StringIdNeverSelected(cars: seq<Car>, car: Car)
    requires car.carId.Str?
    requires CarCard(car).Some? && CarCard(car).value.BookNow?
    ensures var v := ClickArgument(CarCard(car).value.argument);
      v.None? || FindCar(cars, v.value) != Some(car)
  {
  }

  /** One day in milliseconds. */
  const MsPerDay: int := 1000 * 60 * 60 * 24

  /** `Math.ceil((end - start) / MsPerDay)` for instants in milliseconds: the number of
      days the span covers, a part day counting as a whole one. */
  function DaysBetween(start: int, end: int): (days: int)
    requires start < end
    ensures days >= 1
    ensures (days - 1) * MsPerDay < end - start <= days * MsPerDay
  {
    var span := end - start;
    var q := (span + MsPerDay - 1) / MsPerDay;
    assert q * MsPerDay + (span + MsPerDay - 1) % MsPerDay == span + MsPerDay - 1;
    q
  }

  /** Between two midnights the count is the difference of the day numbers. */
  lemma WholeDays(day1: int, day2: int)
    requires day1 < day2
    ensures DaysBetween(day1 * MsPerDay, day2 * MsPerDay) == day2 - day1
  {
  }

  /** The day count as the summary shows it: "day" for one, "days" otherwise. */
  function DayLabel(days: int): (shown: string)
    requires days >= 1
    ensures days == 1 ==> shown == "1 day"
    ensures days > 1 ==> shown == IntText(days) + " days"
  {
    IntText(days) + " day" + (if days > 1 then "s" else "")
  }

  /** A money amount in cents, or NaN. */
  datatype Amount = Cents(cents: int) | NotANumber

  /** `days * daily_rate`: a numeric rate in cents, a null rate as 0, anything else NaN. */
  function Total(days: int, rate: Value): (t: Amount)
    ensures rate.Num? ==> t == Cents(days * rate.n)
  {
    match rate
    case Num(n) => Cents(days * n)
    case Null => Cents(0)
    case _ => NotANumber
  }

  /** The quote for a rental between two midnights is the rate times the day count. */
  lemma QuoteForWholeDays(day1: int, day2: int, cents: int)
    requires day1 < day2
    ensures Total(DaysBetween(day1 * MsPerDay, day2 * MsPerDay), Num(cents)) ==
            Cents((day2 - day1) * cents)
  {
  }

  /** What GET /api/cars gave: rows, an answer with `success` false, or no usable
      answer (the request or its JSON failed). */
  datatype CarsResponse = CarsLoaded(rows: seq<Row>) | CarsRefused | CarsUnreachable

  /** What the cars grid shows. */
  datatype Grid = Initial | NoResults | CardsShown(cards: seq<BookButton>) | LoadError(message: string)

  const MsgLoadFailed := "Failed to load cars from database"
  const MsgUnreachable := "Unable to connect to the server. Please ensure the backend is running."

  /** `loadCars`: the no-results text for an empty list, otherwise every card; `None`
      when building a card throws, before the grid is replaced. */
  function Display(cars: seq<Car>): (g: Option<Grid>)
    ensures cars == [] ==> g == Some(NoResults)
    ensures cars != [] ==> (g.None? <==> exists i | 0 <= i < |cars| :: CarCard(cars[i]).None?)
    ensures g.Some? && cars != [] ==>
              g.value.CardsShown? && |g.value.cards| == |cars| &&
              forall i | 0 <= i < |cars| :: CarCard(cars[i]) == Some(g.value.cards[i])
  {
    if cars == [] then Some(NoResults)
    else
      match Cards(cars)
      case None => None
      case Some(cards) => Some(CardsShown(cards))
  }

  /** The storefront's state: the loaded cars, the filtered list on show, the car of
      the booking modal, whether the modal is shown, and the quote texts. `None` in a
      summary means the page still shows its initial text. */
  class Page {
    var allCars: seq<Car>
    var filteredCars: seq<Car>
    var selectedCar: Option<Car>
    var modalOpen: bool
    var summaryDays: Option<string>
    var summaryTotal: Option<Amount>
    var grid: Grid

    /** The list on show is always drawn from the loaded cars, in their order. */
    ghost predicate Valid()
      reads this
    {
      IsSubsequence(filteredCars, allCars)
    }

    constructor ()
      ensures Valid()
      ensures allCars == [] && filteredCars == [] && selectedCar == None && !modalOpen
      ensures summaryDays == None && summaryTotal == None && grid == Initial
    {
      allCars, filteredCars, selectedCar, modalOpen := [], [], None, false;
      summaryDays, summaryTotal, grid := None, None, Initial;
    }

    /** `fetchCarsFromDatabase`: on success both lists become the normalised rows and
        the grid shows them. A card that throws is caught with the connection failures,
        and the grid shows the connection message instead. */
    method ReceiveCars(response: CarsResponse)
      requires Valid()
      modifies this
      ensures Valid()
      ensures response.CarsLoaded? ==>
                allCars == NormalizeAll(response.rows) && filteredCars == allCars &&
                grid == (var shown := Display(allCars);
                         if shown.Some? then shown.value else LoadError(MsgUnreachable))
      ensures !response.CarsLoaded? ==>
                allCars == old(allCars) && filteredCars == old(filteredCars)
      ensures response.CarsRefused? ==> grid == LoadError(MsgLoadFailed)
      ensures response.CarsUnreachable? ==> grid == LoadError(MsgUnreachable)
      ensures selectedCar == old(selectedCar) && modalOpen == old(modalOpen)
      ensures summaryDays == old(summaryDays) && summaryTotal == old(summaryTotal)
    {
      match response
      case CarsLoaded(rows) =>
        allCars := NormalizeAll(rows);
        filteredCars := allCars;
        SubsequenceOfItself(allCars);
        var shown := Display(allCars);
        grid := if shown.Some? then shown.value else LoadError(MsgUnreachable);
      case CarsRefused =>
        grid := LoadError(MsgLoadFailed);
      case CarsUnreachable =>
        grid := LoadError(MsgUnreachable);
    }

    /** `filterCars`: filter the loaded cars by the chosen type and the lowercased
        search text, then redraw the grid. When the callback throws, the list on show
        stays as it was; when a card throws, the grid does. */
    method FilterCars(carType: string, search: string)
      requires Valid()
      modifies this
      ensures Valid()
      ensures var result := Filter(old(allCars), carType, Lower(search));
        filteredCars == if result.Some? then result.value else old(filteredCars)
      ensures var result := Filter(old(allCars), carType, Lower(search));
        grid == if result.Some? && Display(result.value).Some? then Display(result.value).value
                else old(grid)
      ensures allCars == old(allCars) && selectedCar == old(selectedCar)
      ensures modalOpen == old(modalOpen)
      ensures summaryDays == old(summaryDays) && summaryTotal == old(summaryTotal)
    {
      var result := Filter(allCars, carType, Lower(search));
      if result.Some? {
        filteredCars := result.value;
        var shown := Display(filteredCars);
        if shown.Some? {
          grid := shown.value;
        }
      }
    }

    /** `openBookingModal`: select the first car with this id (or none), and show the
        modal when there is one whose rate is a number (`toFixed` throws otherwise). */
    method OpenBookingModal(carId: Value)
      requires Valid()
      modifies this
      ensures Valid()
      ensures selectedCar == FindCar(allCars, carId) && grid == old(grid)
      ensures modalOpen == (old(modalOpen) || (selectedCar.Some? && selectedCar.value.dailyRate.Num?))
      ensures allCars == old(allCars) && filteredCars == old(filteredCars)
      ensures summaryDays == old(summaryDays) && summaryTotal == old(summaryTotal)
    {
      selectedCar := FindCar(allCars, carId);
      if selectedCar.None? {
        return;
      }
      if selectedCar.value.dailyRate.Num? {
        modalOpen := true;
      }
    }

    /** `closeBookingModal`: hide the modal and forget the selected car. */
    method CloseBookingModal()
      requires Valid()
      modifies this
      ensures Valid()
      ensures !modalOpen && selectedCar == None && grid == old(grid)
      ensures allCars == old(allCars) && filteredCars == old(filteredCars)
      ensures summaryDays == old(summaryDays) && summaryTotal == old(summaryTotal)
    {
      modalOpen := false;
      selectedCar := None;
    }

    /** `calculateTotal`, for the instants (milliseconds) the two date inputs hold, `None`
        for an empty or invalid input. The summary changes only when a car is selected
        and the end comes after the start. */
    method CalculateTotal(start: Option<int>, end: Option<int>)
      requires Valid()
      modifies this
      ensures Valid()
      ensures if selectedCar.Some? && start.Some? && end.Some? && start.value < end.value then
                var days := DaysBetween(start.value, end.value);
                summaryDays == Some(DayLabel(days)) &&
                summaryTotal == Some(Total(days, selectedCar.value.dailyRate))
              else
                summaryDays == old(summaryDays) && summaryTotal == old(summaryTotal)
      ensures allCars == old(allCars) && filteredCars == old(filteredCars)
      ensures selectedCar == old(selectedCar) && modalOpen == old(modalOpen) && grid == old(grid)
    {
      if selectedCar.None? {
        return;
      }
      if start.Some? && end.Some? && start.value < end.value {
        var days := DaysBetween(start.value, end.value);
        summaryDays := Some(DayLabel(days));
        summaryTotal := Some(Total(days, selectedCar.value.dailyRate));
      }
    }
  }
}
