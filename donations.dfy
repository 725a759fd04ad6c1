/** Donations: the table, the `save` hook that rewards the donor, the
    reservation and status handlers, and the scoping of the list views. */
module Donations {
  import opened Python
  import opened Http
  import Permissions
  import Points
  import StatusGuard

  /** A `Donation` row. The photo and the timestamps are not modelled. */
  datatype Donation = Donation(donor: int, recipient: Option<int>, title: string,
                               description: string, status: string)

  const DonationChoices: StatusGuard.Choices :=
    [("available", "Available"), ("reserved", "Reserved"), ("collected", "Collected")]

  const Available := "available"
  const Reserved := "reserved"

  /** The points the hook gives for each save of an available donation. */
  const DonationReward: nat := 10

  const DonationNotFound: map<string, string> := map["detail" := "Donation not found"]
  const NotForYourself := "You can only reserve donations for yourself"
  const NotAvailable := "This donation is not available for reservation"

  predicate IsStatus(s: string)
  {
    s in StatusGuard.ChoiceValues(DonationChoices)
  }

  lemma StatusValues()
    ensures StatusGuard.ChoiceValues(DonationChoices) == ["available", "reserved", "collected"]
  {
  }

  /** The status a new donation gets: `available` by default; a submitted
      status must be one of the choices, as the model form's choice field
      requires. */
  function CreateStatus(status: Option<string>): (r: Outcome<string>)
    ensures status.None? ==> r == Ok(Available)
    ensures status.Some? ==> (r.Ok? <==> IsStatus(status.value))
    ensures r.Ok? ==> IsStatus(r.value)
    ensures status.Some? && r.Ok? ==> r.value == status.value
    ensures r.Err? ==> r == Fail(BadRequest, map["status" := "\"" + status.value + "\" is not a valid choice."])
  {
    StatusValues();
    match status
    case None => Ok(Available)
    case Some(s) =>
      if IsStatus(s) then Ok(s)
      else Fail(BadRequest, map["status" := "\"" + s + "\" is not a valid choice."])
  }

  /** `ReserveDonationView.patch` up to the mutation; `donation` is what
      `get_object()` finds. The checks run in the source's order: the
      permission check, 404, the recipient match (403, comparing the
      payload value with `str(request.user.id)`), availability (400), and
      only then the presence of `recipient` (400). The result is the
      recipient to store. */
  function ReserveCheck(caller: Option<Permissions.User>, donation: Option<Donation>,
                        data: map<string, Value>): (r: Outcome<int>)
    ensures r.Ok? <==>
      && Permissions.Authenticated(caller)
      && donation.Some?
      && "recipient" in data && data["recipient"] == Str(IntToString(caller.value.id))
      && donation.value.status == Available
    ensures r.Ok? ==> r.value == caller.value.id
    ensures !Permissions.Authenticated(caller) ==> r.Err? && r.error.kind == NotAuthenticated
    ensures Permissions.Authenticated(caller) && donation.None? ==> r == Fail(NotFound, DonationNotFound)
  {
    var auth := Permissions.CustomIsAuthenticated(caller);
    if auth.Deny? then Err(Denied(auth))
    else if donation.None? then Fail(NotFound, DonationNotFound)
    else if "recipient" in data && data["recipient"] != Str(IntToString(caller.value.id)) then
      Fail(Forbidden, map["recipient" := NotForYourself])
    else if donation.value.status != Available then Fail(BadRequest, map["status" := NotAvailable])
    else if "recipient" !in data then Fail(BadRequest, map["recipient" := FieldRequired])
    else Ok(caller.value.id)
  }

  /** The order of the refusals: a foreign recipient is refused with 403
      whatever the donation's status; an unavailable donation is refused
      with 400 before a missing recipient is noticed. */
  lemma ReserveRefusalOrder(u: Permissions.User, d: Donation, data: map<string, Value>)
    requires u.isAuthenticated
    ensures "recipient" in data && data["recipient"] != Str(IntToString(u.id)) ==>
      ReserveCheck(Some(u), Some(d), data) == Fail(Forbidden, map["recipient" := NotForYourself])
    ensures d.status != Available && ("recipient" !in data || data["recipient"] == Str(IntToString(u.id))) ==>
      ReserveCheck(Some(u), Some(d), data) == Fail(BadRequest, map["status" := NotAvailable])
    ensures d.status == Available && "recipient" !in data ==>
      ReserveCheck(Some(u), Some(d), data) == Fail(BadRequest, map["recipient" := FieldRequired])
  {
  }

  /** A recipient sent as a JSON number never equals the string
      `str(request.user.id)`, so such a request is refused with 403. */
  lemma NumericRecipientRefused(u: Permissions.User, d: Donation, data: map<string, Value>)
    requires u.isAuthenticated
    requires "recipient" in data && data["recipient"].Int?
    ensures ReserveCheck(Some(u), Some(d), data) == Fail(Forbidden, map["recipient" := NotForYourself])
  {
  }

  /** What an accepted reservation stores: the payload's recipient, which
      the ORM converts back to an integer key, is the caller's id. */
  lemma ReserveStoresCaller(caller: Option<Permissions.User>, donation: Option<Donation>, data: map<string, Value>)
    requires ReserveCheck(caller, donation, data).Ok?
    ensures KeyLookup(data["recipient"]) == Ok(Some(ReserveCheck(caller, donation, data).value))
  {
    IntRoundTrip(caller.value.id);
  }

  /** The donation as the reservation leaves it. */
  function ReservedFor(d: Donation, recipient: int): (d': Donation)
    ensures d'.status == Reserved && d'.recipient == Some(recipient)
    ensures d'.donor == d.donor && d'.title == d.title && d'.description == d.description
  {
    d.(recipient := Some(recipient), status := Reserved)
  }

  /** Once reserved, a donation cannot be reserved again, by anyone: of two
      reservations in sequence at most one succeeds. */
  lemma ReserveAtMostOnce(d: Donation, recipient: int, caller: Option<Permissions.User>, data: map<string, Value>)
    ensures ReserveCheck(caller, Some(ReservedFor(d, recipient)), data).Err?
  {
  }

  /** `DonationStatusUpdateView.patch` up to the save. The object
      permission runs inside `get_object()`, after the 404, and its
      PermissionDenied is caught by the handler's catch-all: a caller who is
      not involved gets the 500. A truthy payload `recipient` is stored
      through the key's `int()`; any other is ignored. */
  function StatusPatchCheck(caller: Option<Permissions.User>, donation: Option<Donation>,
                            data: map<string, Value>): (r: Outcome<Donation>)
    ensures !Permissions.Authenticated(caller) ==> r.Err? && r.error.kind == NotAuthenticated
    ensures Permissions.Authenticated(caller) && donation.None? ==> r == Fail(NotFound, DonationNotFound)
    ensures (Permissions.Authenticated(caller) && donation.Some? &&
             Permissions.IsDonationOwnerOrAdmin(caller, donation.value.donor, donation.value.recipient).Deny?) ==>
      r == Crash()
    ensures (Permissions.Authenticated(caller) && donation.Some? &&
             Permissions.IsDonationOwnerOrAdmin(caller, donation.value.donor, donation.value.recipient) == Permissions.Allow &&
             StatusGuard.CheckStatus(DonationChoices, data).Err?) ==>
      r == Err(StatusGuard.CheckStatus(DonationChoices, data).error)
    ensures (Permissions.Authenticated(caller) && donation.Some? &&
             Permissions.IsDonationOwnerOrAdmin(caller, donation.value.donor, donation.value.recipient) == Permissions.Allow &&
             StatusGuard.CheckStatus(DonationChoices, data).Ok?) ==>
      (r.Ok? <==> !("recipient" in data && Truthy(data["recipient"])) || ToInt(data["recipient"]).Ok?)
    ensures (Permissions.Authenticated(caller) && donation.Some? &&
             Permissions.IsDonationOwnerOrAdmin(caller, donation.value.donor, donation.value.recipient) == Permissions.Allow &&
             StatusGuard.CheckStatus(DonationChoices, data).Ok? &&
             "recipient" in data && Truthy(data["recipient"]) && ToInt(data["recipient"]).Err?) ==>
      r == Crash()
    ensures r.Ok? ==>
      && donation.Some?
      && Permissions.IsDonationOwnerOrAdmin(caller, donation.value.donor, donation.value.recipient) == Permissions.Allow
      && StatusGuard.CheckStatus(DonationChoices, data) == Ok(r.value.status)
      && r.value.donor == donation.value.donor
      && r.value.title == donation.value.title
      && r.value.description == donation.value.description
      && ("recipient" in data && Truthy(data["recipient"]) ==>
            ToInt(data["recipient"]).Ok? && r.value.recipient == Some(ToInt(data["recipient"]).value))
      && (!("recipient" in data && Truthy(data["recipient"])) ==> r.value.recipient == donation.value.recipient)
  {
    var auth := Permissions.CustomIsAuthenticated(caller);
    if auth.Deny? then Err(Denied(auth))
    else if donation.None? then Fail(NotFound, DonationNotFound)
    else
      var d := donation.value;
      if Permissions.IsDonationOwnerOrAdmin(caller, d.donor, d.recipient).Deny? then Crash()
      else match StatusGuard.CheckStatus(DonationChoices, data)
        case Err(e) => Err(e)
        case Ok(s) =>
          if "recipient" in data && Truthy(data["recipient"]) then
            match ToInt(data["recipient"])
            case Err(_) => Crash()
            case Ok(n) => Ok(d.(status := s, recipient := Some(n)))
          else Ok(d.(status := s))
  }

  /** The status patch accepts any transition: the outcome does not depend
      on the current status, and an involved caller with a valid status and
      no recipient in the payload gets exactly that status. */
  lemma StatusPatchAnyTransition(caller: Option<Permissions.User>, d: Donation, from: string,
                                 data: map<string, Value>)
    ensures StatusPatchCheck(caller, Some(d.(status := from)), data) == StatusPatchCheck(caller, Some(d), data)
    ensures (Permissions.Authenticated(caller) &&
             Permissions.IsDonationOwnerOrAdmin(caller, d.donor, d.recipient) == Permissions.Allow &&
             StatusGuard.CheckStatus(DonationChoices, data).Ok? && "recipient" !in data) ==>
      StatusPatchCheck(caller, Some(d), data) == Ok(d.(status := StatusGuard.CheckStatus(DonationChoices, data).value))
  {
  }

  // ---------------------------------------------------------------------
  // The table

  class DonationStore {
    var donations: map<int, Donation>
    /** The next primary key the database hands out. */
    var nextId: int
    /** The points table the `save` hook writes to. */
    const ledger: Points.PointLedger

    ghost predicate Valid()
      reads this, ledger
    {
      && ledger.Valid()
      && (forall id :: id in donations ==> id < nextId)
      && (forall id :: id in donations ==> IsStatus(donations[id].status))
    }

    constructor(ledger: Points.PointLedger)
      requires ledger.Valid()
      ensures Valid()
      ensures donations == map[] && this.ledger == ledger
    {
      donations := map[];
      nextId := 1;
      this.ledger := ledger;
    }

    /** `Donation.save()` as written: the row is written first, then for an
        available donation `Point.objects.create(user=donor, points=10)`
        raises TypeError, because `Point` has no `points` field. The
        exception reaches the caller after the write; no points are given. */
    method SaveAsWritten(id: int, d: Donation) returns (raised: bool)
      modifies this
      ensures donations == old(donations)[id := d] && nextId == old(nextId)
      ensures raised <==> d.status == Available
    {
      donations := donations[id := d];
      raised := d.status == Available;
    }

    /** `Donation.save()` with the evidently intended reward: the row is
        written, then an available donation credits its donor 10 points,
        on every such save and not only the first. */
    method Save(id: int, d: Donation, now: int)
      requires ledger.Valid()
      modifies this, ledger
      ensures donations == old(donations)[id := d] && nextId == old(nextId)
      ensures ledger.Valid()
      ensures d.status == Available ==>
        ledger.points == Points.Rewarded(old(ledger.points), d.donor, DonationReward, now)
      ensures d.status != Available ==> ledger.points == old(ledger.points)
      ensures Points.Total(ledger.points) ==
        Points.Total(old(ledger.points)) + (if d.status == Available then DonationReward else 0)
    {
      donations := donations[id := d];
      if d.status == Available {
        ledger.Reward(d.donor, DonationReward, now);
      }
    }

    /** `DonationListCreateView.post`: the caller becomes the donor, the
        status defaults to `available`, and the save credits the donor. */
    method Create(caller: Option<Permissions.User>, title: string, description: string,
                  status: Option<string>, now: int)
      returns (r: Outcome<(int, Donation)>)
      requires Valid()
      modifies this, ledger
      ensures Valid()
      ensures !Permissions.Authenticated(caller) ==> r.Err? && r.error.kind == NotAuthenticated
      ensures Permissions.Authenticated(caller) && CreateStatus(status).Err? ==> r == Err(CreateStatus(status).error)
      ensures Permissions.Authenticated(caller) && CreateStatus(status).Ok? ==> r.Ok?
      ensures r.Err? ==> donations == old(donations) && nextId == old(nextId) && ledger.points == old(ledger.points)
      ensures r.Ok? ==>
        && Permissions.Authenticated(caller)
        && CreateStatus(status).Ok?
        && var (id, d) := r.value;
        && id !in old(donations)
        && d == Donation(caller.value.id, None, title, description, CreateStatus(status).value)
        && donations == old(donations)[id := d]
        && (d.status == Available ==>
             ledger.points == Points.Rewarded(old(ledger.points), caller.value.id, DonationReward, now))
        && (d.status != Available ==> ledger.points == old(ledger.points))
    {
      var auth := Permissions.CustomIsAuthenticated(caller);
      if auth.Deny? {
        return Err(Denied(auth));
      }
      var st := CreateStatus(status);
      if st.Err? {
        return Err(st.error);
      }
      var id := nextId;
      var d := Donation(caller.value.id, None, title, description, st.value);
      nextId := nextId + 1;
      Save(id, d, now);
      r := Ok((id, d));
    }

    /** `DonationListCreateView.post` as written: `serializer.save()` runs
        the hook of `SaveAsWritten`, so an available donation is stored and
        the handler's catch-all then answers 500, without any points. */
    method CreateAsWritten(caller: Option<Permissions.User>, title: string, description: string,
                           status: Option<string>)
      returns (r: Outcome<(int, Donation)>)
      requires Valid()
      modifies this
      ensures Valid()
      ensures !Permissions.Authenticated(caller) ==>
        r.Err? && r.error.kind == NotAuthenticated && donations == old(donations) && nextId == old(nextId)
      ensures Permissions.Authenticated(caller) && CreateStatus(status).Err? ==>
        r == Err(CreateStatus(status).error) && donations == old(donations) && nextId == old(nextId)
      ensures Permissions.Authenticated(caller) && CreateStatus(status).Ok? ==>
        var d := Donation(caller.value.id, None, title, description, CreateStatus(status).value);
        && old(nextId) !in old(donations)
        && donations == old(donations)[old(nextId) := d]
        && nextId == old(nextId) + 1
        && (d.status == Available ==> r == Crash())
        && (d.status != Available ==> r == Ok((old(nextId), d)))
    {
      var auth := Permissions.CustomIsAuthenticated(caller);
      if auth.Deny? {
        return Err(Denied(auth));
      }
      var st := CreateStatus(status);
      if st.Err? {
        return Err(st.error);
      }
      var id := nextId;
      var d := Donation(caller.value.id, None, title, description, st.value);
      nextId := nextId + 1;
      var raised := SaveAsWritten(id, d);
      if raised {
        return Crash();
      }
      r := Ok((id, d));
    }

    /** `ReserveDonationView.patch`: on success the donation is reserved for
        the caller and nothing else changes; on any failure nothing
        changes. */
    method Reserve(caller: Option<Permissions.User>, id: int, data: map<string, Value>, now: int)
      returns (r: Outcome<Donation>)
      requires Valid()
      modifies this, ledger
      ensures Valid()
      ensures var c := ReserveCheck(caller, if id in old(donations) then Some(old(donations)[id]) else None, data);
        && (r.Ok? <==> c.Ok?)
        && (c.Err? ==> r == Err(c.error) && donations == old(donations))
        && (c.Ok? ==> donations == old(donations)[id := ReservedFor(old(donations)[id], c.value)]
                      && r.value == donations[id])
      ensures nextId == old(nextId) && ledger.points == old(ledger.points)
    {
      var c := ReserveCheck(caller, if id in donations then Some(donations[id]) else None, data);
      if c.Err? {
        return Err(c.error);
      }
      var d := ReservedFor(donations[id], c.value);
      Save(id, d, now);
      r := Ok(d);
    }

    /** `DonationStatusUpdateView.patch`: on success the row is the
        checked update and the save hook runs (crediting the donor again
        when the new status is `available`); on any failure nothing
        changes. */
    method PatchStatus(caller: Option<Permissions.User>, id: int, data: map<string, Value>, now: int)
      returns (r: Outcome<Donation>)
      requires Valid()
      modifies this, ledger
      ensures Valid()
      ensures var c := StatusPatchCheck(caller, if id in old(donations) then Some(old(donations)[id]) else None, data);
        && (r.Ok? <==> c.Ok?)
        && (c.Err? ==> r == Err(c.error) && donations == old(donations) && ledger.points == old(ledger.points))
        && (c.Ok? ==>
             && donations == old(donations)[id := c.value]
             && r.value == c.value
             && (c.value.status == Available ==>
                  ledger.points == Points.Rewarded(old(ledger.points), c.value.donor, DonationReward, now))
             && (c.value.status != Available ==> ledger.points == old(ledger.points)))
      ensures nextId == old(nextId)
    {
      var c := StatusPatchCheck(caller, if id in donations then Some(donations[id]) else None, data);
      if c.Err? {
        return Err(c.error);
      }
      StatusValues();
      Save(id, c.value, now);
      r := Ok(c.value);
    }

    /** `DonationStatusUpdateView.patch` as written: `donation.save()` runs
        the hook of `SaveAsWritten`, so a patch to `available` is stored and
        then answered with the catch-all's 500, without any points. */
    method PatchStatusAsWritten(caller: Option<Permissions.User>, id: int, data: map<string, Value>)
      returns (r: Outcome<Donation>)
      requires Valid()
      modifies this
      ensures Valid()
      ensures var c := StatusPatchCheck(caller, if id in old(donations) then Some(old(donations)[id]) else None, data);
        && (c.Err? ==> r == Err(c.error) && donations == old(donations))
        && (c.Ok? ==>
             && donations == old(donations)[id := c.value]
             && (c.value.status == Available ==> r == Crash())
             && (c.value.status != Available ==> r == Ok(c.value)))
      ensures nextId == old(nextId)
    {
      var c := StatusPatchCheck(caller, if id in donations then Some(donations[id]) else None, data);
      if c.Err? {
        return Err(c.error);
      }
      StatusValues();
      var raised := SaveAsWritten(id, c.value);
      if raised {
        return Crash();
      }
      r := Ok(c.value);
    }
  }

  // ---------------------------------------------------------------------
  // List scoping

  predicate IsAdminOrStaff(u: Permissions.User)
  {
    u.role == Permissions.Administrator || u.isStaff
  }

  /** `DonationListCreateView.get_queryset`: administrators and staff see
      every donation; everyone else those they gave or received. */
  function VisibleTo(table: map<int, Donation>, u: Permissions.User): (r: map<int, Donation>)
    ensures IsAdminOrStaff(u) ==> r == table
    ensures !IsAdminOrStaff(u) ==> forall id :: id in r <==>
      id in table && (table[id].donor == u.id || table[id].recipient == Some(u.id))
    ensures forall id :: id in r ==> r[id] == table[id]
  {
    if IsAdminOrStaff(u) then table
    else StatusGuard.Where(table, (d: Donation) => d.donor == u.id || d.recipient == Some(u.id))
  }

  /** What a caller lists is exactly what the object permission lets them
      open. */
  lemma VisibleMeansAccessible(table: map<int, Donation>, u: Permissions.User, id: int)
    requires u.isAuthenticated && id in table
    ensures id in VisibleTo(table, u) <==>
      Permissions.IsDonationOwnerOrAdmin(Some(u), table[id].donor, table[id].recipient) == Permissions.Allow
  {
  }

  /** `AvailableDonationsView.get_queryset`. */
  function AvailableOnly(table: map<int, Donation>): (r: map<int, Donation>)
    ensures forall id :: id in r <==> id in table && table[id].status == Available
    ensures forall id :: id in r ==> r[id] == table[id]
  {
    StatusGuard.Where(table, (d: Donation) => d.status == Available)
  }

  /** Everything the available listing shows can be reserved, by any
      authenticated caller naming themself. */
  lemma AvailableIsReservable(table: map<int, Donation>, id: int, u: Permissions.User)
    requires id in AvailableOnly(table) && u.isAuthenticated
    ensures ReserveCheck(Some(u), Some(table[id]), map["recipient" := Str(IntToString(u.id))]) == Ok(u.id)
  {
  }

  /** The donations of one donor, optionally filtered by a truthy `status`
      query parameter. */
  function MadeBy(table: map<int, Donation>, donorId: int, status: Option<string>): (r: map<int, Donation>)
    ensures forall id :: id in r <==>
      id in table && table[id].donor == donorId && (!StatusGuard.Given(status) || table[id].status == status.value)
    ensures forall id :: id in r ==> r[id] == table[id]
  {
    var mine := StatusGuard.Where(table, (d: Donation) => d.donor == donorId);
    if StatusGuard.Given(status) then StatusGuard.Where(mine, (d: Donation) => d.status == status.value)
    else mine
  }

  /** `UserDonationsMadeView.get` as written: the URL's `donor_id` is an
      integer, and `str(request.user.id) != donor_id` compares a string with
      it, which always differs. Every caller who is not an administrator or
      staff is refused, and the PermissionDenied is caught by the handler's
      catch-all (500). */
  function MadeByAsWritten(caller: Option<Permissions.User>, table: map<int, Donation>, donorId: int,
                           status: Option<string>): (r: Outcome<map<int, Donation>>)
    ensures !Permissions.Authenticated(caller) ==> r.Err? && r.error.kind == NotAuthenticated
    ensures Permissions.Authenticated(caller) ==>
      (r.Ok? <==> IsAdminOrStaff(caller.value))
    ensures r.Ok? ==> r.value == MadeBy(table, donorId, status)
    ensures Permissions.Authenticated(caller) && r.Err? ==> r == Crash()
  {
    var auth := Permissions.CustomIsAuthenticated(caller);
    if auth.Deny? then Err(Denied(auth))
    else if !IsAdminOrStaff(caller.value) && Str(IntToString(caller.value.id)) != Int(donorId) then Crash()
    else Ok(MadeBy(table, donorId, status))
  }

  /** The listing with the identity compared as integers: a caller who is
      not an administrator or staff lists their own donations and is
      refused (through the same catch-all) for anyone else's. */
  function MadeByOwn(caller: Option<Permissions.User>, table: map<int, Donation>, donorId: int,
                     status: Option<string>): (r: Outcome<map<int, Donation>>)
    ensures !Permissions.Authenticated(caller) ==> r.Err? && r.error.kind == NotAuthenticated
    ensures Permissions.Authenticated(caller) ==>
      (r.Ok? <==> IsAdminOrStaff(caller.value) || caller.value.id == donorId)
    ensures r.Ok? ==> r.value == MadeBy(table, donorId, status)
    ensures Permissions.Authenticated(caller) && r.Err? ==> r == Crash()
  {
    var auth := Permissions.CustomIsAuthenticated(caller);
    if auth.Deny? then Err(Denied(auth))
    else if !IsAdminOrStaff(caller.value) && caller.value.id != donorId then Crash()
    else Ok(MadeBy(table, donorId, status))
  }

  /** Finding: a donor asking for their own donations is refused by the
      as-written view and served by the corrected one. */
  lemma OwnDonationsRefused(u: Permissions.User, table: map<int, Donation>, status: Option<string>)
    requires u.isAuthenticated && !IsAdminOrStaff(u)
    ensures MadeByAsWritten(Some(u), table, u.id, status) == Crash()
    ensures MadeByOwn(Some(u), table, u.id, status) == Ok(MadeBy(table, u.id, status))
  {
  }
}
