/** Offers: the status patch and the three listings (filtered list, active
    offers, offers of one merchant). */
module Offers {
  import opened Python
  import opened Http
  import Permissions
  import StatusGuard

  /** An `Offer` row. `merchant` is the nullable merchant key, the decimal
      price is in integer cents, dates are day numbers; the photo and the
      timestamps are not modelled. */
  datatype Offer = Offer(merchant: Option<int>, title: string, description: string,
                         priceCents: Option<int>, availableQuantity: nat,
                         startDate: int, endDate: int, status: string)

  const OfferChoices: StatusGuard.Choices :=
    [("available", "Available"), ("reserved", "Reserved"), ("collected", "Collected")]

  const Available := "available"

  predicate IsStatus(s: string)
  {
    s in StatusGuard.ChoiceValues(OfferChoices)
  }

  class OfferTable {
    var offers: map<int, Offer>

    ghost predicate Valid()
      reads this
    {
      forall id :: id in offers ==> IsStatus(offers[id].status)
    }

    constructor(rows: map<int, Offer>)
      requires forall id :: id in rows ==> IsStatus(rows[id].status)
      ensures Valid() && offers == rows
    {
      offers := rows;
    }

    /** `OfferStatusUpdateView.patch`: the status becomes the payload's
        value when it is one of the three; nothing else changes, and a
        failure changes nothing. */
    method PatchStatus(caller: Option<Permissions.User>, id: int, data: map<string, Value>)
      returns (r: Outcome<Offer>)
      requires Valid()
      modifies this
      ensures Valid()
      ensures var d := StatusGuard.PatchDecision(caller, "Offer", id in old(offers), OfferChoices, data);
        && (r.Ok? <==> d.Ok?)
        && (d.Err? ==> r == Err(d.error) && offers == old(offers))
        && (d.Ok? ==> offers == old(offers)[id := old(offers)[id].(status := d.value)]
                      && r.value == offers[id])
    {
      var d := StatusGuard.PatchDecision(caller, "Offer", id in offers, OfferChoices, data);
      if d.Err? {
        return Err(d.error);
      }
      offers := offers[id := offers[id].(status := d.value)];
      r := Ok(offers[id]);
    }
  }

  // ---------------------------------------------------------------------
  // Filters

  /** A truthy `merchant` parameter filters on `merchant_id`; the ORM
      converts it with `int()`, and a value it refuses ends in the 500. */
  function MerchantFilter(param: Option<string>): (r: Outcome<Option<int>>)
    ensures !StatusGuard.Given(param) ==> r == Ok(None)
    ensures StatusGuard.Given(param) ==> (r.Ok? <==> ToInt(Str(param.value)).Ok?)
    ensures StatusGuard.Given(param) && r.Ok? ==> r.value == Some(ToInt(Str(param.value)).value)
    ensures r.Err? ==> r == Crash()
  {
    if !StatusGuard.Given(param) then Ok(None)
    else match ToInt(Str(param.value))
      case Err(_) => Crash()
      case Ok(k) => Ok(Some(k))
  }

  /** `price__gte`: an offer without a price never passes a bound. */
  predicate AtLeast(o: Offer, min: Option<int>)
  {
    min.None? || (o.priceCents.Some? && o.priceCents.value >= min.value)
  }

  /** `price__lte`. */
  predicate AtMost(o: Offer, max: Option<int>)
  {
    max.None? || (o.priceCents.Some? && o.priceCents.value <= max.value)
  }

  /** Running on `today` and still available. */
  predicate ActiveOn(o: Offer, today: int)
  {
    o.startDate <= today <= o.endDate && o.status == Available
  }

  /** `available_now and available_now.lower() == 'true'`. */
  predicate WantsAvailableNow(param: Option<string>)
  {
    StatusGuard.Given(param) && Lower(param.value) == "true"
  }

  /** The query parameters of the offer list. Price bounds are the decimal
      parameters in cents; None stands for a missing or empty parameter. */
  datatype OfferQuery = OfferQuery(merchant: Option<string>, status: Option<string>,
                                   minPriceCents: Option<int>, maxPriceCents: Option<int>,
                                   availableNow: Option<string>)

  /** The conjunction of all the requested conditions, for the merchant
      key the parameter converted to. */
  predicate ListMatches(o: Offer, merchant: Option<int>, q: OfferQuery, today: int)
  {
    && (merchant.None? || o.merchant == merchant)
    && (!StatusGuard.Given(q.status) || o.status == q.status.value)
    && AtLeast(o, q.minPriceCents)
    && AtMost(o, q.maxPriceCents)
    && (!WantsAvailableNow(q.availableNow) || ActiveOn(o, today))
  }

  /** The optional merchant and status filters of the offer list. */
  function MerchantAndStatus(table: map<int, Offer>, m: Option<int>, status: Option<string>): (r: map<int, Offer>)
    ensures forall id :: id in r <==>
      id in table && (m.None? || table[id].merchant == m) && (!StatusGuard.Given(status) || table[id].status == status.value)
    ensures forall id :: id in r ==> r[id] == table[id]
  {
    var byMerchant := StatusGuard.Narrow(table, m.Some?, (o: Offer) => o.merchant == m);
    StatusGuard.Narrow(byMerchant, StatusGuard.Given(status), (o: Offer) => status.Some? && o.status == status.value)
  }

  /** The optional `min_price` and `max_price` filters. */
  function PriceWindow(table: map<int, Offer>, min: Option<int>, max: Option<int>): (r: map<int, Offer>)
    ensures forall id :: id in r <==> id in table && AtLeast(table[id], min) && AtMost(table[id], max)
    ensures forall id :: id in r ==> r[id] == table[id]
  {
    var byMin := StatusGuard.Narrow(table, min.Some?, (o: Offer) => AtLeast(o, min));
    StatusGuard.Narrow(byMin, max.Some?, (o: Offer) => AtMost(o, max))
  }

  /** `OfferListCreateView.get`: each given parameter adds one `filter()`. */
  function OfferList(table: map<int, Offer>, q: OfferQuery, today: int): (r: Outcome<map<int, Offer>>)
    ensures r.Ok? <==> MerchantFilter(q.merchant).Ok?
    ensures r.Err? ==> r == Crash()
    ensures r.Ok? ==> forall id :: id in r.value <==>
      id in table && ListMatches(table[id], MerchantFilter(q.merchant).value, q, today)
    ensures r.Ok? ==> forall id :: id in r.value ==> r.value[id] == table[id]
  {
    match MerchantFilter(q.merchant)
    case Err(e) => Err(e)
    case Ok(m) =>
      var byPrice := PriceWindow(MerchantAndStatus(table, m, q.status), q.minPriceCents, q.maxPriceCents);
      Ok(StatusGuard.Narrow(byPrice, WantsAvailableNow(q.availableNow), (o: Offer) => ActiveOn(o, today)))
  }

  /** `ActiveOffersView.get`: active offers, then the optional merchant and
      price filters. */
  function ActiveOffers(table: map<int, Offer>, today: int, merchant: Option<string>,
                        minPriceCents: Option<int>, maxPriceCents: Option<int>): (r: Outcome<map<int, Offer>>)
    ensures r.Ok? <==> MerchantFilter(merchant).Ok?
    ensures r.Err? ==> r == Crash()
    ensures r.Ok? ==> forall id :: id in r.value <==>
      && id in table
      && ActiveOn(table[id], today)
      && (MerchantFilter(merchant).value.None? || table[id].merchant == MerchantFilter(merchant).value)
      && AtLeast(table[id], minPriceCents)
      && AtMost(table[id], maxPriceCents)
    ensures r.Ok? ==> forall id :: id in r.value ==> r.value[id] == table[id]
  {
    var active := StatusGuard.Where(table, (o: Offer) => ActiveOn(o, today));
    match MerchantFilter(merchant)
    case Err(e) => Err(e)
    case Ok(m) =>
      var byMerchant := StatusGuard.Narrow(active, m.Some?, (o: Offer) => o.merchant == m);
      Ok(PriceWindow(byMerchant, minPriceCents, maxPriceCents))
  }

  /** The active-offers view is the offer list asked for `available_now`:
      the two selections agree on every table and every date. */
  lemma ActiveIsAvailableNow(table: map<int, Offer>, today: int, merchant: Option<string>,
                             minPriceCents: Option<int>, maxPriceCents: Option<int>)
    ensures ActiveOffers(table, today, merchant, minPriceCents, maxPriceCents) ==
      OfferList(table, OfferQuery(merchant, None, minPriceCents, maxPriceCents, Some("true")), today)
  {
    assert WantsAvailableNow(Some("true"));
    var a := ActiveOffers(table, today, merchant, minPriceCents, maxPriceCents);
    var l := OfferList(table, OfferQuery(merchant, None, minPriceCents, maxPriceCents, Some("true")), today);
    if a.Ok? {
      assert a.value.Keys == l.value.Keys;
    }
  }

  /** A price window with the lower bound above the upper one selects
      nothing. */
  lemma EmptyPriceWindow(table: map<int, Offer>, q: OfferQuery, today: int)
    requires q.minPriceCents.Some? && q.maxPriceCents.Some? && q.minPriceCents.value > q.maxPriceCents.value
    requires OfferList(table, q, today).Ok?
    ensures OfferList(table, q, today).value == map[]
  {
    var r := OfferList(table, q, today).value;
    assert forall id :: id !in r;
    assert r.Keys == {};
  }

  /** `MerchantOffersView.get`: the offers of merchant `merchantId`,
      narrowed by a truthy `status` parameter; an offer with no merchant
      belongs to none. */
  function MerchantOffers(table: map<int, Offer>, merchantId: int, status: Option<string>): (r: map<int, Offer>)
    ensures forall id :: id in r <==>
      id in table && table[id].merchant == Some(merchantId) &&
      (!StatusGuard.Given(status) || table[id].status == status.value)
    ensures forall id :: id in r ==> r[id] == table[id]
  {
    var theirs := StatusGuard.Where(table, (o: Offer) => o.merchant == Some(merchantId));
    if StatusGuard.Given(status) then StatusGuard.Where(theirs, (o: Offer) => o.status == status.value)
    else theirs
  }
}
