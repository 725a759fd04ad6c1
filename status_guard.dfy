/** The pieces the status-patch and list views of orders, offers,
    notifications, transactions and donations share: the `status` guard,
    parameterised by the entity's STATUS_CHOICES, and `queryset.filter`. */
module StatusGuard {
  import opened Python
  import opened Http
  import Permissions

  /** A Django `choices` list: (value, display) pairs in declaration order. */
  type Choices = seq<(string, string)>

  /** `[status[0] for status in STATUS_CHOICES]`. */
  function ChoiceValues(choices: Choices): (vs: seq<string>)
    ensures |vs| == |choices|
    ensures forall i :: 0 <= i < |choices| ==> vs[i] == choices[i].0
  {
    if |choices| == 0 then [] else [choices[0].0] + ChoiceValues(choices[1..])
  }

  /** The 400 message of an unknown status: every valid value, in order. */
  function InvalidStatusMessage(choices: Choices): string
  {
    "Must be one of: " + Join(ChoiceValues(choices), ", ")
  }

  /** The guard every status patch runs: `status` must be in the payload and
      equal to one of the entity's values; the accepted value is returned. */
  function CheckStatus(choices: Choices, data: map<string, Value>): (r: Outcome<string>)
    ensures r.Ok? <==> "status" in data && data["status"].Str? && data["status"].s in ChoiceValues(choices)
    ensures r.Ok? ==> data["status"] == Str(r.value)
    ensures "status" !in data ==> r == Fail(BadRequest, map["status" := FieldRequired])
    ensures "status" in data && r.Err? ==> r == Fail(BadRequest, map["status" := InvalidStatusMessage(choices)])
  {
    if "status" !in data then Fail(BadRequest, map["status" := FieldRequired])
    else
      var v := data["status"];
      if v.Str? && v.s in ChoiceValues(choices) then Ok(v.s)
      else Fail(BadRequest, map["status" := InvalidStatusMessage(choices)])
  }

  /** `s` occurs in `t` starting at `at`. */
  predicate OccursAt(s: string, t: string, at: int)
  {
    0 <= at && at + |s| <= |t| && t[at..at + |s|] == s
  }

  lemma {:induction false} JoinContainsParts(parts: seq<string>, sep: string, i: int)
    requires 0 <= i < |parts|
    ensures exists at :: OccursAt(parts[i], Join(parts, sep), at)
  {
    var j := Join(parts, sep);
    if |parts| == 1 {
      assert OccursAt(parts[0], j, 0);
    } else if i == 0 {
      assert j == parts[0] + sep + Join(parts[1..], sep);
      assert j[0..|parts[0]|] == parts[0];
      assert OccursAt(parts[0], j, 0);
    } else {
      var rest := Join(parts[1..], sep);
      JoinContainsParts(parts[1..], sep, i - 1);
      var at :| OccursAt(parts[1..][i - 1], rest, at);
      var prefix := parts[0] + sep;
      assert j == prefix + rest;
      var k := |prefix| + at;
      assert j[k..k + |parts[i]|] == rest[at..at + |parts[i]|];
      assert OccursAt(parts[i], j, k);
    }
  }

  /** The 400 for an unknown status names every valid value. */
  lemma InvalidStatusListsChoices(choices: Choices, i: int)
    requires 0 <= i < |choices|
    ensures exists at :: OccursAt(choices[i].0, InvalidStatusMessage(choices), at)
  {
    var vs := ChoiceValues(choices);
    var joined := Join(vs, ", ");
    JoinContainsParts(vs, ", ", i);
    var at :| OccursAt(vs[i], joined, at);
    var prefix := "Must be one of: ";
    var k := |prefix| + at;
    assert InvalidStatusMessage(choices) == prefix + joined;
    assert (prefix + joined)[k..k + |vs[i]|] == joined[at..at + |vs[i]|];
    assert OccursAt(choices[i].0, InvalidStatusMessage(choices), k);
  }

  /** The 404 of a status patch whose row does not exist. */
  function NotFoundErrors(entity: string): map<string, string>
  {
    map["detail" := entity + " not found"]
  }

  /** The steps before the assignment in every status patch that is
      protected only by authentication: the permission check, then
      `get_object()` (404), then the guard. */
  function PatchDecision(caller: Option<Permissions.User>, entity: string, found: bool, choices: Choices,
                         data: map<string, Value>): (r: Outcome<string>)
    ensures !Permissions.Authenticated(caller) ==> r.Err? && r.error.kind == NotAuthenticated
    ensures Permissions.Authenticated(caller) && !found ==> r == Fail(NotFound, NotFoundErrors(entity))
    ensures Permissions.Authenticated(caller) && found ==> r == CheckStatus(choices, data)
    ensures r.Ok? ==> found && r.value in ChoiceValues(choices)
  {
    var auth := Permissions.CustomIsAuthenticated(caller);
    if auth.Deny? then Err(Denied(auth))
    else if !found then Fail(NotFound, NotFoundErrors(entity))
    else CheckStatus(choices, data)
  }

  /** `[{'value': c[0], 'display': c[1]} for c in STATUS_CHOICES]`. */
  function ChoicesListing(choices: Choices): (r: seq<map<string, string>>)
    ensures |r| == |choices|
    ensures forall i :: 0 <= i < |r| ==> r[i] == map["value" := choices[i].0, "display" := choices[i].1]
  {
    if |choices| == 0 then []
    else [map["value" := choices[0].0, "display" := choices[0].1]] + ChoicesListing(choices[1..])
  }

  /** The listed values are exactly the statuses the patch accepts. */
  lemma ListingMatchesGuard(choices: Choices, s: string)
    ensures (exists i :: 0 <= i < |choices| && ChoicesListing(choices)[i]["value"] == s) <==>
      CheckStatus(choices, map["status" := Str(s)]).Ok?
  {
    var listing := ChoicesListing(choices);
    var vs := ChoiceValues(choices);
    if s in vs {
      var i :| 0 <= i < |vs| && vs[i] == s;
      assert listing[i]["value"] == s;
    }
  }

  // ---------------------------------------------------------------------
  // queryset.filter(...)

  /** `queryset.filter(p)` over a table keyed by primary key. */
  function Where<R>(table: map<int, R>, p: R -> bool): (r: map<int, R>)
    ensures forall id :: id in r <==> id in table && p(table[id])
    ensures forall id :: id in r ==> r[id] == table[id]
  {
    map id | id in table && p(table[id]) :: table[id]
  }

  /** `if param: queryset = queryset.filter(p)`: the filter applies only
      when `apply` holds. */
  function Narrow<R>(table: map<int, R>, apply: bool, p: R -> bool): (r: map<int, R>)
    ensures forall id :: id in r <==> id in table && (!apply || p(table[id]))
    ensures forall id :: id in r ==> r[id] == table[id]
  {
    if apply then Where(table, p) else table
  }

  /** Chained `.filter()` calls select the rows meeting all conditions. */
  lemma WhereWhere<R>(table: map<int, R>, p: R -> bool, q: R -> bool)
    ensures Where(Where(table, p), q) == Where(table, x => p(x) && q(x))
  {
  }

  /** A query-string filter is applied only when the parameter is truthy
      (given and non-empty). */
  predicate Given(param: Option<string>)
  {
    param.Some? && |param.value| > 0
  }
}
