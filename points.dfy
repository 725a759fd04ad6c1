/** The points ledger: one `Point` row per user, and the three handlers that
    change or read it (add points, transfer, leaderboard). */
module Points {
  import opened Python
  import opened Http
  import Permissions

  /** A `Point` row. `balance` is a PositiveIntegerField (never negative,
      default 0); `lastUpdated` is the auto_now timestamp, refreshed on
      every save. */
  datatype Point = Point(user: int, balance: nat, lastUpdated: int)

  /** A fresh row for `user`. */
  function NewPoint(user: int, now: int): (p: Point)
    ensures p.user == user && p.balance == 0
  {
    Point(user, 0, now)
  }

  /** `add_points(amount)`: the balance grows by `amount`, the save refreshes
      `last_updated`, and the owner does not change. */
  function Credited(p: Point, amount: nat, now: int): (q: Point)
    ensures q.user == p.user
    ensures q.balance == p.balance + amount
    ensures q.lastUpdated == now
  {
    p.(balance := p.balance + amount, lastUpdated := now)
  }

  lemma HasKey(m: map<int, Point>)
    requires |m| > 0
    ensures exists k :: k in m
  {
    if forall k :: k !in m {
      assert false;
    }
  }

  /** The sum of all balances. */
  ghost function Total(m: map<int, Point>): int
    decreases |m|
  {
    if |m| == 0 then 0
    else
      HasKey(m);
      var k :| k in m;
      m[k].balance + Total(m - {k})
  }

  lemma {:induction false} TotalRemove(m: map<int, Point>, k: int)
    requires k in m
    ensures Total(m) == m[k].balance + Total(m - {k})
    decreases |m|
  {
    var j :| j in m && Total(m) == m[j].balance + Total(m - {j});
    if j != k {
      TotalRemove(m - {j}, k);
      TotalRemove(m - {k}, j);
      assert (m - {j}) - {k} == (m - {k}) - {j};
    }
  }

  /** Replacing one row changes the total by the difference of its balances. */
  lemma TotalUpdate(m: map<int, Point>, k: int, p: Point)
    requires k in m
    ensures Total(m[k := p]) == Total(m) - m[k].balance + p.balance
  {
    TotalRemove(m, k);
    TotalRemove(m[k := p], k);
    assert m[k := p] - {k} == m - {k};
  }

  /** Adding a row adds its balance to the total. */
  lemma TotalInsert(m: map<int, Point>, k: int, p: Point)
    requires k !in m
    ensures Total(m[k := p]) == Total(m) + p.balance
  {
    TotalRemove(m[k := p], k);
    assert m[k := p] - {k} == m;
  }

  // ---------------------------------------------------------------------
  // Validation shared by the handlers

  const PositiveIntegerError := "Must be a positive integer"

  /** `amount = int(v)` followed by `if amount <= 0: raise ValueError`, with
      the ValueError turned into a 400. A TypeError (None, a list, a dict)
      is not a ValueError and reaches the catch-all 500. */
  function PositiveAmount(v: Value): (r: Outcome<nat>)
    ensures r.Ok? <==> ToInt(v).Ok? && ToInt(v).value > 0
    ensures r.Ok? ==> r.value == ToInt(v).value
    ensures ToInt(v) == Err(TypeError) ==> r == Crash()
    ensures ToInt(v) != Err(TypeError) && r.Err? ==>
      r == Fail(BadRequest, map["amount" := PositiveIntegerError])
  {
    match ToInt(v)
    case Err(e) =>
      if e == TypeError then Crash() else Fail(BadRequest, map["amount" := PositiveIntegerError])
    case Ok(n) =>
      if n <= 0 then Fail(BadRequest, map["amount" := PositiveIntegerError]) else Ok(n)
  }

  /** A positive amount is accepted whether it comes as a JSON number or as
      its decimal string; zero and negative amounts are refused either way. */
  lemma AmountForms(n: int)
    ensures n > 0 ==> PositiveAmount(Int(n)) == Ok(n) && PositiveAmount(Str(IntToString(n))) == Ok(n)
    ensures n <= 0 ==> PositiveAmount(Int(n)).Err? && PositiveAmount(Str(IntToString(n))).Err?
    ensures PositiveAmount(Str(IntToString(n))) == PositiveAmount(Int(n))
  {
    IntRoundTrip(n);
  }

  const NotFoundDetail: map<string, string> := map["detail" := "Point record not found"]

  /** `AddPointsView.patch` up to the mutation: the permission check, then
      `get_object()` (404), then the `amount` checks. */
  function AddPointsCheck(caller: Option<Permissions.User>, found: bool, data: map<string, Value>): (r: Outcome<nat>)
    ensures !Permissions.Authenticated(caller) ==> r.Err? && r.error.kind == NotAuthenticated
    ensures Permissions.Authenticated(caller) && !found ==> r == Fail(NotFound, NotFoundDetail)
    ensures Permissions.Authenticated(caller) && found && "amount" !in data ==>
      r == Fail(BadRequest, map["amount" := FieldRequired])
    ensures Permissions.Authenticated(caller) && found && "amount" in data ==>
      r == PositiveAmount(data["amount"])
  {
    var auth := Permissions.CustomIsAuthenticated(caller);
    if auth.Deny? then Err(Denied(auth))
    else if !found then Fail(NotFound, NotFoundDetail)
    else if "amount" !in data then Fail(BadRequest, map["amount" := FieldRequired])
    else PositiveAmount(data["amount"])
  }

  const TransferFields: seq<string> := ["from_user_id", "to_user_id", "amount"]

  /** All three fields of a transfer are present. */
  predicate HasTransferFields(data: map<string, Value>)
  {
    "from_user_id" in data && "to_user_id" in data && "amount" in data
  }

  /** `{field: 'This field is required' for field in missing}`. */
  function MissingErrors(data: map<string, Value>): (errors: map<string, string>)
    ensures forall f :: f in errors <==> f in TransferFields && f !in data
    ensures forall f :: f in errors ==> errors[f] == FieldRequired
    ensures errors == map[] <==> HasTransferFields(data)
  {
    map f | f in TransferFields && f !in data :: FieldRequired
  }

  /** What a valid transfer request resolved to. */
  datatype TransferPlan = TransferPlan(from: int, to: int, amount: nat)

  const LookupFailed: map<string, string> := map["detail" := "One or both users not found"]
  const Insufficient: map<string, string> := map["balance" := "Insufficient points"]

  /** Resolve `v` as a user id and fetch its row: None or an absent id is a
      404, an id `int()` refuses is a 500. */
  function FindRow(points: map<int, Point>, v: Value): (r: Outcome<int>)
    ensures r.Ok? ==> KeyLookup(v) == Ok(Some(r.value)) && r.value in points
    ensures KeyLookup(v).Err? ==> r == Crash()
    ensures KeyLookup(v).Ok? && KeyLookup(v).value.Some? && KeyLookup(v).value.value in points ==>
      r == Ok(KeyLookup(v).value.value)
    ensures KeyLookup(v).Ok? && (KeyLookup(v).value.None? || KeyLookup(v).value.value !in points) ==>
      r == Fail(NotFound, LookupFailed)
  {
    match KeyLookup(v)
    case Err(e) => Err(e)
    case Ok(key) =>
      if key.None? || key.value !in points then Fail(NotFound, LookupFailed) else Ok(key.value)
  }

  /** `UserPointsTransferView.post` up to the mutation. The source row is
      looked up before the target; the balance check comes last. */
  function TransferCheck(caller: Option<Permissions.User>, points: map<int, Point>,
                         data: map<string, Value>): (r: Outcome<TransferPlan>)
    ensures !Permissions.Authenticated(caller) ==> r.Err? && r.error.kind == NotAuthenticated
    ensures Permissions.Authenticated(caller) && !HasTransferFields(data) ==>
      r == Fail(BadRequest, MissingErrors(data))
    ensures Permissions.Authenticated(caller) && HasTransferFields(data) &&
            PositiveAmount(data["amount"]).Err? ==>
      r == Err(PositiveAmount(data["amount"]).error)
    ensures Permissions.Authenticated(caller) && HasTransferFields(data) &&
            PositiveAmount(data["amount"]).Ok? && FindRow(points, data["from_user_id"]).Err? ==>
      r == Err(FindRow(points, data["from_user_id"]).error)
    ensures Permissions.Authenticated(caller) && HasTransferFields(data) &&
            PositiveAmount(data["amount"]).Ok? && FindRow(points, data["from_user_id"]).Ok? &&
            FindRow(points, data["to_user_id"]).Err? ==>
      r == Err(FindRow(points, data["to_user_id"]).error)
    ensures r.Ok? ==>
      && Permissions.Authenticated(caller)
      && MissingErrors(data) == map[]
      && PositiveAmount(data["amount"]) == Ok(r.value.amount)
      && FindRow(points, data["from_user_id"]) == Ok(r.value.from)
      && FindRow(points, data["to_user_id"]) == Ok(r.value.to)
      && r.value.amount > 0
      && points[r.value.from].balance >= r.value.amount
  {
    var auth := Permissions.CustomIsAuthenticated(caller);
    if auth.Deny? then Err(Denied(auth))
    else if MissingErrors(data) != map[] then Fail(BadRequest, MissingErrors(data))
    else
      match PositiveAmount(data["amount"])
      case Err(e) => Err(e)
      case Ok(amount) =>
        match FindRow(points, data["from_user_id"])
        case Err(e) => Err(e)
        case Ok(from) =>
          match FindRow(points, data["to_user_id"])
          case Err(e) => Err(e)
          case Ok(to) =>
            if points[from].balance < amount then Fail(BadRequest, Insufficient)
            else Ok(TransferPlan(from, to, amount))
  }

  /** The converse: a request whose fields all resolve, from a source with
      enough points, is accepted with exactly those values. */
  lemma TransferCheckAccepts(caller: Option<Permissions.User>, points: map<int, Point>,
                             data: map<string, Value>, from: int, to: int, amount: nat)
    requires Permissions.Authenticated(caller)
    requires HasTransferFields(data)
    requires PositiveAmount(data["amount"]) == Ok(amount)
    requires FindRow(points, data["from_user_id"]) == Ok(from)
    requires FindRow(points, data["to_user_id"]) == Ok(to)
    requires points[from].balance >= amount
    ensures TransferCheck(caller, points, data) == Ok(TransferPlan(from, to, amount))
  {
  }

  /** With everything resolved but too few points, the answer is the 400
      "Insufficient points". */
  lemma TransferCheckInsufficient(caller: Option<Permissions.User>, points: map<int, Point>,
                                  data: map<string, Value>, from: int, to: int, amount: nat)
    requires Permissions.Authenticated(caller)
    requires HasTransferFields(data)
    requires PositiveAmount(data["amount"]) == Ok(amount)
    requires FindRow(points, data["from_user_id"]) == Ok(from)
    requires FindRow(points, data["to_user_id"]) == Ok(to)
    requires points[from].balance < amount
    ensures TransferCheck(caller, points, data) == Fail(BadRequest, Insufficient)
  {
  }

  /** The table after `user` is credited `amount`, the row being created
      with a zero balance first when the user has none. */
  function Rewarded(m: map<int, Point>, user: int, amount: nat, now: int): (m': map<int, Point>)
    ensures m'.Keys == m.Keys + {user}
    ensures m'[user].balance == (if user in m then m[user].balance else 0) + amount
    ensures forall u :: u in m && u != user ==> m'[u] == m[u]
  {
    m[user := Credited(if user in m then m[user] else NewPoint(user, now), amount, now)]
  }

  /** Rewards accumulate: every credit adds its amount again. */
  lemma RewardsAccumulate(m: map<int, Point>, user: int, a: nat, b: nat, t1: int, t2: int)
    ensures Rewarded(Rewarded(m, user, a, t1), user, b, t2)[user].balance ==
      (if user in m then m[user].balance else 0) + a + b
  {
  }

  // ---------------------------------------------------------------------
  // The ledger

  class PointLedger {
    /** The `Point` table, keyed by the owner's user id: the one-to-one
        field makes the user id a key. */
    var points: map<int, Point>

    ghost predicate Valid()
      reads this
    {
      forall u :: u in points ==> points[u].user == u
    }

    constructor(rows: map<int, Point>)
      requires forall u :: u in rows ==> rows[u].user == u
      ensures Valid() && points == rows
    {
      points := rows;
    }

    /** `point.add_points(amount)` on the row of `userId`. */
    method AddPointsTo(userId: int, amount: nat, now: int)
      requires Valid() && userId in points
      modifies this
      ensures Valid()
      ensures points == old(points)[userId := Credited(old(points)[userId], amount, now)]
      ensures Total(points) == Total(old(points)) + amount
    {
      TotalUpdate(points, userId, Credited(points[userId], amount, now));
      points := points[userId := Credited(points[userId], amount, now)];
    }

    /** Credit `amount` to `userId`, creating the row when it has none: the
        reward the donation hook is evidently meant to give. */
    method Reward(userId: int, amount: nat, now: int)
      requires Valid()
      modifies this
      ensures Valid()
      ensures points == Rewarded(old(points), userId, amount, now)
      ensures Total(points) == Total(old(points)) + amount
    {
      if userId in points {
        AddPointsTo(userId, amount, now);
      } else {
        TotalInsert(points, userId, Credited(NewPoint(userId, now), amount, now));
        points := points[userId := Credited(NewPoint(userId, now), amount, now)];
      }
    }

    /** `AddPointsView.patch` for the row of `userId`: on success the row has
        the amount added and is returned; on any failure nothing changes. */
    method AddPoints(caller: Option<Permissions.User>, userId: int, data: map<string, Value>, now: int)
      returns (r: Outcome<Point>)
      requires Valid()
      modifies this
      ensures Valid()
      ensures var d := AddPointsCheck(caller, userId in old(points), data);
        && (r.Ok? <==> d.Ok?)
        && (d.Ok? ==> points == old(points)[userId := Credited(old(points)[userId], d.value, now)]
                      && r.value == points[userId])
        && (d.Err? ==> r == Err(d.error) && points == old(points))
    {
      var d := AddPointsCheck(caller, userId in points, data);
      if d.Err? {
        return Err(d.error);
      }
      AddPointsTo(userId, d.value, now);
      r := Ok(points[userId]);
    }

    /** The mutation of the as-written transfer: both rows are loaded as
        separate copies, changed, and saved source first, so when source and
        target are the same row the target's save wins. */
    method SaveCopies(p: TransferPlan, now: int) returns (balances: (nat, nat))
      requires Valid()
      requires p.from in points && p.to in points && points[p.from].balance >= p.amount
      modifies this
      ensures Valid()
      ensures points == SavedCopies(old(points), p, now)
      ensures balances == (old(points)[p.from].balance - p.amount, old(points)[p.to].balance + p.amount)
    {
      var fromPoint := points[p.from];
      var toPoint := points[p.to];
      fromPoint := fromPoint.(balance := fromPoint.balance - p.amount);
      toPoint := toPoint.(balance := toPoint.balance + p.amount);
      points := points[p.from := fromPoint.(lastUpdated := now)];
      points := points[p.to := toPoint.(lastUpdated := now)];
      balances := (fromPoint.balance, toPoint.balance);
    }

    /** The mutation with the target re-read after the source is saved. */
    method SaveInTurn(p: TransferPlan, now: int) returns (balances: (nat, nat))
      requires Valid()
      requires p.from in points && p.to in points && points[p.from].balance >= p.amount
      modifies this
      ensures Valid()
      ensures points == Moved(old(points), p, now)
      ensures balances == (points[p.from].balance, points[p.to].balance)
      ensures Total(points) == Total(old(points))
    {
      MovedConserves(points, p, now);
      var fromPoint := points[p.from];
      fromPoint := fromPoint.(balance := fromPoint.balance - p.amount, lastUpdated := now);
      points := points[p.from := fromPoint];
      var toPoint := points[p.to];
      toPoint := toPoint.(balance := toPoint.balance + p.amount, lastUpdated := now);
      points := points[p.to := toPoint];
      balances := (points[p.from].balance, points[p.to].balance);
    }

    /** `UserPointsTransferView.post` as written. The response carries the
        balances of the two saved copies. */
    method Transfer(caller: Option<Permissions.User>, data: map<string, Value>, now: int)
      returns (r: Outcome<(nat, nat)>)
      requires Valid()
      modifies this
      ensures Valid()
      ensures var d := TransferCheck(caller, old(points), data);
        && (r.Ok? <==> d.Ok?)
        && (d.Err? ==> r == Err(d.error) && points == old(points))
        && (d.Ok? ==>
             && points == SavedCopies(old(points), d.value, now)
             && r.value == (old(points)[d.value.from].balance - d.value.amount,
                            old(points)[d.value.to].balance + d.value.amount))
    {
      var d := TransferCheck(caller, points, data);
      if d.Err? {
        return Err(d.error);
      }
      var balances := SaveCopies(d.value, now);
      r := Ok(balances);
    }

    /** The transfer with the target re-read after the source is saved, so
        that a transfer to oneself leaves the balance as it was. */
    method TransferConserving(caller: Option<Permissions.User>, data: map<string, Value>, now: int)
      returns (r: Outcome<(nat, nat)>)
      requires Valid()
      modifies this
      ensures Valid()
      ensures var d := TransferCheck(caller, old(points), data);
        && (r.Ok? <==> d.Ok?)
        && (d.Err? ==> r == Err(d.error) && points == old(points))
        && (d.Ok? ==>
             && points == Moved(old(points), d.value, now)
             && r.value == (points[d.value.from].balance, points[d.value.to].balance))
      ensures Total(points) == Total(old(points))
    {
      var d := TransferCheck(caller, points, data);
      if d.Err? {
        return Err(d.error);
      }
      var balances := SaveInTurn(d.value, now);
      r := Ok(balances);
    }
  }

  /** The table after the as-written transfer: both copies are taken from
      `m`, the source copy is saved and then the target copy. */
  function SavedCopies(m: map<int, Point>, p: TransferPlan, now: int): (m': map<int, Point>)
    requires p.from in m && p.to in m && m[p.from].balance >= p.amount
    ensures m'.Keys == m.Keys
    ensures m'[p.to].balance == m[p.to].balance + p.amount
    ensures p.from != p.to ==> m'[p.from].balance + p.amount == m[p.from].balance
    ensures forall u :: u in m && u != p.from && u != p.to ==> m'[u] == m[u]
  {
    var src := m[p.from];
    var dst := m[p.to];
    m[p.from := src.(balance := src.balance - p.amount, lastUpdated := now)]
     [p.to := dst.(balance := dst.balance + p.amount, lastUpdated := now)]
  }

  /** The table after `p` is carried out one save at a time. */
  function Moved(m: map<int, Point>, p: TransferPlan, now: int): (m': map<int, Point>)
    requires p.from in m && p.to in m && m[p.from].balance >= p.amount
    ensures m'.Keys == m.Keys
  {
    var src := m[p.from];
    var m1 := m[p.from := src.(balance := src.balance - p.amount, lastUpdated := now)];
    var dst := m1[p.to];
    m1[p.to := dst.(balance := dst.balance + p.amount, lastUpdated := now)]
  }

  /** Carried out one save at a time, a transfer conserves the total, to
      oneself included. */
  lemma MovedConserves(m: map<int, Point>, p: TransferPlan, now: int)
    requires p.from in m && p.to in m && m[p.from].balance >= p.amount
    ensures Total(Moved(m, p, now)) == Total(m)
  {
    var src := m[p.from];
    var src' := src.(balance := src.balance - p.amount, lastUpdated := now);
    var m1 := m[p.from := src'];
    var dst := m1[p.to];
    var dst' := dst.(balance := dst.balance + p.amount, lastUpdated := now);
    assert Moved(m, p, now) == m1[p.to := dst'];
    TotalUpdate(m, p.from, src');
    TotalUpdate(m1, p.to, dst');
  }

  /** Between two different users the transfer moves exactly `amount`:
      the source loses it, the target gains it, the other rows stay, and the
      total is conserved. */
  lemma MovedBetweenTwo(m: map<int, Point>, p: TransferPlan, now: int)
    requires p.from in m && p.to in m && m[p.from].balance >= p.amount
    requires p.from != p.to
    ensures var m' := Moved(m, p, now);
      && m'[p.from].balance + p.amount == m[p.from].balance
      && m'[p.to].balance == m[p.to].balance + p.amount
      && (forall u :: u in m && u != p.from && u != p.to ==> m'[u] == m[u])
      && Total(m') == Total(m)
  {
    var src := m[p.from];
    var m1 := m[p.from := src.(balance := src.balance - p.amount, lastUpdated := now)];
    TotalUpdate(m, p.from, m1[p.from]);
    TotalUpdate(m1, p.to, m1[p.to].(balance := m1[p.to].balance + p.amount, lastUpdated := now));
  }

  /** Between two different users the as-written transfer and the one
      carried out in turn leave the same table. */
  lemma SavedCopiesApart(m: map<int, Point>, p: TransferPlan, now: int)
    requires p.from in m && p.to in m && m[p.from].balance >= p.amount
    requires p.from != p.to
    ensures SavedCopies(m, p, now) == Moved(m, p, now)
  {
    assert SavedCopies(m, p, now).Keys == Moved(m, p, now).Keys;
  }

  /** A transfer to oneself leaves the balance untouched. */
  lemma MovedToSelf(m: map<int, Point>, p: TransferPlan, now: int)
    requires p.from in m && m[p.from].balance >= p.amount
    requires p.from == p.to
    ensures Moved(m, p, now)[p.from].balance == m[p.from].balance
  {
  }

  /** Finding: the as-written transfer to oneself keeps only the target
      copy's save, so the balance grows by `amount` and points are minted. */
  lemma SelfTransferMints(m: map<int, Point>, p: TransferPlan, now: int)
    requires p.from in m && m[p.from].balance >= p.amount
    requires p.from == p.to
    ensures SavedCopies(m, p, now)[p.from].balance == m[p.from].balance + p.amount
    ensures Total(SavedCopies(m, p, now)) == Total(m) + p.amount
  {
    var src := m[p.from];
    var m' := SavedCopies(m, p, now);
    assert m' == m[p.from := src.(balance := src.balance + p.amount, lastUpdated := now)];
    TotalUpdate(m, p.from, m'[p.from]);
  }

  // ---------------------------------------------------------------------
  // Leaderboard

  const DefaultLimit: nat := 10

  /** `int(request.query_params.get('limit', 10))`, with a non-positive
      limit replaced by 10. A string `int()` refuses ends in the 500. */
  function LeaderboardLimit(param: Option<string>): (r: Outcome<nat>)
    ensures param.None? ==> r == Ok(DefaultLimit)
    ensures param.Some? ==> (r.Ok? <==> ToInt(Str(param.value)).Ok?)
    ensures param.Some? && r.Err? ==> r == Crash()
    ensures param.Some? && r.Ok? ==>
      var n := ToInt(Str(param.value)).value;
      r.value == if n <= 0 then DefaultLimit else n
    ensures r.Ok? ==> r.value > 0
  {
    if param.None? then Ok(DefaultLimit)
    else match ToInt(Str(param.value))
      case Err(_) => Crash()
      case Ok(n) => Ok(if n <= 0 then DefaultLimit else n)
  }

  /** Balances never increase along `s`. */
  predicate Descending(s: seq<Point>)
  {
    forall i, j :: 0 <= i < j < |s| ==> s[i].balance >= s[j].balance
  }

  /** A row no richer than the head of a descending sequence can go in front. */
  lemma DescendingCons(h: Point, t: seq<Point>)
    requires Descending(t)
    requires forall x :: x in t ==> x.balance <= h.balance
    ensures Descending([h] + t)
  {
    var s := [h] + t;
    forall i, j | 0 <= i < j < |s| ensures s[i].balance >= s[j].balance {
      if i > 0 {
        assert s[i] == t[i - 1] && s[j] == t[j - 1];
      } else {
        assert s[j] in t;
      }
    }
  }

  function Insert(p: Point, s: seq<Point>): (r: seq<Point>)
    requires Descending(s)
    ensures Descending(r)
    ensures multiset(r) == multiset(s) + multiset{p}
    ensures |r| == |s| + 1
  {
    if |s| == 0 then [p]
    else if p.balance >= s[0].balance then
      assert forall x :: x in s ==> x.balance <= p.balance by {
        forall x | x in s ensures x.balance <= p.balance {
          var i :| 0 <= i < |s| && s[i] == x;
          assert s[0].balance >= s[i].balance;
        }
      }
      DescendingCons(p, s);
      [p] + s
    else
      var rest := Insert(p, s[1..]);
      assert s == [s[0]] + s[1..];
      assert forall x :: x in rest ==> x.balance <= s[0].balance by {
        forall x | x in rest ensures x.balance <= s[0].balance {
          assert x in multiset(rest);
          if x != p {
            assert x in multiset(s[1..]);
            var i :| 0 <= i < |s[1..]| && s[1..][i] == x;
            assert s[0].balance >= s[i + 1].balance;
          }
        }
      }
      DescendingCons(s[0], rest);
      [s[0]] + rest
  }

  /** `order_by('-balance')`. Rows of equal balance keep their order. */
  function ByBalance(rows: seq<Point>): (r: seq<Point>)
    ensures Descending(r)
    ensures multiset(r) == multiset(rows)
  {
    if |rows| == 0 then []
    else
      assert rows == [rows[0]] + rows[1..];
      Insert(rows[0], ByBalance(rows[1..]))
  }

  /** `PointLeaderboardView.get`: the rows ordered by balance, highest first,
      cut at the limit. */
  function Leaderboard(rows: seq<Point>, limitParam: Option<string>): (r: Outcome<seq<Point>>)
    ensures r.Ok? <==> LeaderboardLimit(limitParam).Ok?
    ensures r.Err? ==> r == Crash()
  {
    match LeaderboardLimit(limitParam)
    case Err(e) => Err(e)
    case Ok(limit) =>
      var sorted := ByBalance(rows);
      Ok(sorted[..if limit < |sorted| then limit else |sorted|])
  }

  lemma PrefixSplit(s: seq<Point>, k: int)
    requires 0 <= k <= |s|
    ensures multiset(s) == multiset(s[..k]) + multiset(s[k..])
  {
    assert s == s[..k] + s[k..];
  }

  /** In a descending sequence, nothing after position `k` outranks
      anything before it. */
  lemma DescendingSplit(s: seq<Point>, k: int)
    requires Descending(s) && 0 <= k <= |s|
    ensures forall x, y :: x in s[k..] && y in s[..k] ==> x.balance <= y.balance
  {
    forall x, y | x in s[k..] && y in s[..k] ensures x.balance <= y.balance {
      var i :| 0 <= i < |s[k..]| && s[k..][i] == x;
      var j :| 0 <= j < |s[..k]| && s[..k][j] == y;
      assert s[k + i] == x && s[j] == y;
    }
  }

  lemma DescendingPrefix(s: seq<Point>, k: int)
    requires Descending(s) && 0 <= k <= |s|
    ensures Descending(s[..k])
  {
    forall i, j | 0 <= i < j < k ensures s[..k][i].balance >= s[..k][j].balance {
      assert s[..k][i] == s[i] && s[..k][j] == s[j];
    }
  }

  /** The first `k` rows of a descending permutation of `rows` are its top
      `k`. */
  lemma TopOfSorted(rows: seq<Point>, sorted: seq<Point>, k: int)
    requires Descending(sorted) && multiset(sorted) == multiset(rows)
    requires 0 <= k <= |sorted|
    ensures Descending(sorted[..k])
    ensures multiset(sorted[..k]) <= multiset(rows)
    ensures forall x, y :: x in multiset(rows) - multiset(sorted[..k]) && y in sorted[..k] ==> x.balance <= y.balance
  {
    DescendingPrefix(sorted, k);
    PrefixSplit(sorted, k);
    var board := sorted[..k];
    var rest := sorted[k..];
    assert multiset(rows) - multiset(board) == multiset(rest);
    DescendingSplit(sorted, k);
    forall x, y | x in multiset(rows) - multiset(board) && y in board
      ensures x.balance <= y.balance
    {
      assert x in rest;
    }
  }

  /** The leaderboard is the top N: as many rows as the limit allows, highest
      balance first, drawn from the table, and no row left out has more
      points than a row shown. */
  lemma LeaderboardIsTop(rows: seq<Point>, limitParam: Option<string>)
    requires LeaderboardLimit(limitParam).Ok?
    ensures var limit := LeaderboardLimit(limitParam).value;
      var board := Leaderboard(rows, limitParam).value;
      && |board| == (if limit < |rows| then limit else |rows|)
      && Descending(board)
      && multiset(board) <= multiset(rows)
      && (forall x, y :: x in multiset(rows) - multiset(board) && y in board ==> x.balance <= y.balance)
  {
    var limit := LeaderboardLimit(limitParam).value;
    var sorted := ByBalance(rows);
    assert |sorted| == |rows| by {
      assert |multiset(sorted)| == |multiset(rows)|;
    }
    var k := if limit < |sorted| then limit else |sorted|;
    assert Leaderboard(rows, limitParam).value == sorted[..k];
    TopOfSorted(rows, sorted, k);
  }

  /** Without a `limit` parameter, or with a non-positive one, ten rows are
      shown. */
  lemma LeaderboardDefaultsToTen(rows: seq<Point>, s: string)
    requires ToInt(Str(s)).Ok? && ToInt(Str(s)).value <= 0
    ensures LeaderboardLimit(None) == Ok(10)
    ensures LeaderboardLimit(Some(s)) == Ok(10)
    ensures Leaderboard(rows, Some(s)) == Leaderboard(rows, None)
  {
  }
}
