/** `sanitize_get` and `sanitize_post` of db_stuffs.py: the ordered checks a request
    passes before it may reach storage. The first failed check decides the error. */
module Validation {
  import opened Base
  import opened Numbers
  import opened Registry
  import opened Faults
  import opened Forms

  /** What a valid GET asks for: a registered group and an optional window in seconds. */
  datatype GetQuery = GetQuery(group: string, window: Option<nat>)

  /** What a valid POST carries: one reading for a registered sensor of a registered group. */
  datatype PostData = PostData(group: string, sensor: string, distance: Decimal)

  // The GET rules, in the order `sanitize_get` checks them

  const GetRuleCount: nat := 5

  /** Rule `i` of `sanitize_get`, read on the assumption that every earlier rule held. */
  predicate GetRule(req: Request, i: nat) {
    if i == 0 then "group_id" in req.args
    else if i == 1 then "group_id" in req.values
    else if i == 2 then "group_id" in req.values ==> req.values["group_id"] in Groups
    else if i == 3 then "window" in req.args ==> "window" in req.values
    else if i == 4 then
      "window" in req.args && "window" in req.values ==>
        IsNonnegativeNumber(req.values["window"], IntConstructor)
    else true
  }

  /** The error raised when rule `i` of `sanitize_get` is the first to fail. */
  function GetRuleFault(i: nat): Fault
    requires i < GetRuleCount
  {
    [GetMissingGroup, MissingKey("group_id"), GetUnknownGroup, MissingKey("window"), InvalidWindow][i]
  }

  /** Rule `i` is the first of the GET rules that fails. */
  predicate GetFailsFirstAt(req: Request, i: nat) {
    !GetRule(req, i) && forall j :: 0 <= j < i ==> GetRule(req, j)
  }

  /** `sanitize_get(request)`. */
  function SanitizeGet(req: Request): (r: Result<GetQuery, Fault>)
    ensures r.Ok? ==> "group_id" in req.values && r.value.group == req.values["group_id"]
    ensures r.Ok? ==> r.value.group in Groups
    ensures r.Ok? ==> (r.value.window.None? <==> "window" !in req.args)
    ensures r.Ok? && r.value.window.Some? ==>
              "window" in req.values && ParseInt(req.values["window"]) == Some(r.value.window.value as int)
  {
    if "group_id" !in req.args then Err(GetMissingGroup)
    else if "group_id" !in req.values then Err(MissingKey("group_id"))
    else if req.values["group_id"] !in Groups then Err(GetUnknownGroup)
    else
      var group := req.values["group_id"];
      if "window" in req.args then
        if "window" !in req.values then Err(MissingKey("window"))
        else if IsNonnegativeNumber(req.values["window"], IntConstructor) then
          var n := ParseInt(req.values["window"]).value;
          Ok(GetQuery(group, Some(n as nat)))
        else Err(InvalidWindow)
      else Ok(GetQuery(group, None))
  }

  // The POST rules, in the order `sanitize_post` checks them

  const PostRuleCount: nat := 7

  /** Rule `i` of `sanitize_post`, read on the assumption that every earlier rule held. */
  predicate PostRule(req: Request, i: nat) {
    var form: Dict := if req.form.Some? then req.form.value else map[];
    if i == 0 then req.form.Some?
    else if i == 1 then "group_id" in form
    else if i == 2 then "group_id" in form ==> form["group_id"] in Groups
    else if i == 3 then "sensor_id" in form
    else if i == 4 then
      "group_id" in form && form["group_id"] in Groups && "sensor_id" in form ==>
        form["sensor_id"] in Groups[form["group_id"]]
    else if i == 5 then "distance" in form
    else if i == 6 then "distance" in form ==> IsNonnegativeNumber(form["distance"], FloatConstructor)
    else true
  }

  /** The error raised when rule `i` of `sanitize_post` is the first to fail. */
  function PostRuleFault(i: nat): Fault
    requires i < PostRuleCount
  {
    [MissingForm, PostMissingGroup, PostUnknownGroup, MissingSensor,
     UnauthorizedSensor, MissingDistance, InvalidDistance][i]
  }

  /** Rule `i` is the first of the POST rules that fails. */
  predicate PostFailsFirstAt(req: Request, i: nat) {
    !PostRule(req, i) && forall j :: 0 <= j < i ==> PostRule(req, j)
  }

  /** `sanitize_post(request)`. */
  function SanitizePost(req: Request): (r: Result<PostData, Fault>)
    ensures r.Ok? ==> req.form.Some? && "group_id" in req.form.value && "sensor_id" in req.form.value
                      && "distance" in req.form.value
    ensures r.Ok? ==> r.value.group == req.form.value["group_id"] && r.value.sensor == req.form.value["sensor_id"]
                      && ParseFloat(req.form.value["distance"]) == Some(r.value.distance)
    ensures r.Ok? ==> r.value.group in Groups && r.value.sensor in Groups[r.value.group]
                      && r.value.distance.NonNegative()
  {
    if req.form.None? then Err(MissingForm)
    else
      var form := req.form.value;
      if "group_id" !in form then Err(PostMissingGroup)
      else if form["group_id"] !in Groups then Err(PostUnknownGroup)
      else
        var group := form["group_id"];
        if "sensor_id" !in form then Err(MissingSensor)
        else if form["sensor_id"] !in Groups[group] then Err(UnauthorizedSensor)
        else
          var sensor := form["sensor_id"];
          if "distance" !in form then Err(MissingDistance)
          else if !IsNonnegativeNumber(form["distance"], FloatConstructor) then Err(InvalidDistance)
          else Ok(PostData(group, sensor, ParseFloat(form["distance"]).value))
  }

  /** A GET passes validation exactly when every rule holds. */
  lemma GetAcceptedIffAllRules(req: Request)
    ensures SanitizeGet(req).Ok? <==> forall i :: 0 <= i < GetRuleCount ==> GetRule(req, i)
  {
    if forall i :: 0 <= i < GetRuleCount ==> GetRule(req, i) {
      assert GetRule(req, 0) && GetRule(req, 1) && GetRule(req, 2) && GetRule(req, 3) && GetRule(req, 4);
    }
  }

  /** The error of a failed GET is the one of the first rule that fails, and only of that one. */
  lemma GetFirstFailureWins(req: Request)
    ensures forall i :: 0 <= i < GetRuleCount ==>
              (SanitizeGet(req) == Err(GetRuleFault(i)) <==> GetFailsFirstAt(req, i))
  {
    forall i | 0 <= i < GetRuleCount
      ensures SanitizeGet(req) == Err(GetRuleFault(i)) <==> GetFailsFirstAt(req, i)
    {
      var faults := [GetMissingGroup, MissingKey("group_id"), GetUnknownGroup, MissingKey("window"), InvalidWindow];
      assert GetRuleFault(i) == faults[i];
      assert "group_id" != "window";
      if GetFailsFirstAt(req, i) {
        if i > 0 { assert GetRule(req, 0); }
        if i > 1 { assert GetRule(req, 1); }
        if i > 2 { assert GetRule(req, 2); }
        if i > 3 { assert GetRule(req, 3); }
      }
      if SanitizeGet(req) == Err(GetRuleFault(i)) {
        forall j | 0 <= j < i ensures GetRule(req, j) { }
      }
    }
  }

  /** A POST passes validation exactly when every rule holds. */
  lemma PostAcceptedIffAllRules(req: Request)
    ensures SanitizePost(req).Ok? <==> forall i :: 0 <= i < PostRuleCount ==> PostRule(req, i)
  {
    if forall i :: 0 <= i < PostRuleCount ==> PostRule(req, i) {
      assert PostRule(req, 0) && PostRule(req, 1) && PostRule(req, 2) && PostRule(req, 3);
      assert PostRule(req, 4) && PostRule(req, 5) && PostRule(req, 6);
    }
  }

  /** The error of a failed POST is the one of the first rule that fails, and only of that one. */
  lemma PostFirstFailureWins(req: Request)
    ensures forall i :: 0 <= i < PostRuleCount ==>
              (SanitizePost(req) == Err(PostRuleFault(i)) <==> PostFailsFirstAt(req, i))
  {
    forall i | 0 <= i < PostRuleCount
      ensures SanitizePost(req) == Err(PostRuleFault(i)) <==> PostFailsFirstAt(req, i)
    {
      var faults := [MissingForm, PostMissingGroup, PostUnknownGroup, MissingSensor,
                     UnauthorizedSensor, MissingDistance, InvalidDistance];
      assert PostRuleFault(i) == faults[i];
      if PostFailsFirstAt(req, i) {
        if i > 0 { assert PostRule(req, 0); }
        if i > 1 { assert PostRule(req, 1); }
        if i > 2 { assert PostRule(req, 2); }
        if i > 3 { assert PostRule(req, 3); }
        if i > 4 { assert PostRule(req, 4); }
        if i > 5 { assert PostRule(req, 5); }
      }
      if SanitizePost(req) == Err(PostRuleFault(i)) {
        forall j | 0 <= j < i ensures PostRule(req, j) { }
      }
    }
  }

  /** A form naming a registered sensor of a registered group and a non-negative distance
      passes validation with exactly those three values. */
  lemma ValidPostAccepted(req: Request, distance: Decimal)
    requires req.form.Some?
    requires "group_id" in req.form.value && "sensor_id" in req.form.value && "distance" in req.form.value
    requires req.form.value["group_id"] in Groups
    requires req.form.value["sensor_id"] in Groups[req.form.value["group_id"]]
    requires ParseFloat(req.form.value["distance"]) == Some(distance) && distance.NonNegative()
    ensures SanitizePost(req) == Ok(PostData(req.form.value["group_id"], req.form.value["sensor_id"], distance))
  {
  }

  /** The group `SKRT` owns no sensors, so every POST for it fails at the sensor
      checks: at the presence check when `sensor_id` is missing, else at membership. */
  lemma EmptyGroupRejectsEveryPost(req: Request)
    requires req.form.Some? && "group_id" in req.form.value && req.form.value["group_id"] == "SKRT"
    ensures "sensor_id" !in req.form.value ==> SanitizePost(req) == Err(MissingSensor)
    ensures "sensor_id" in req.form.value ==> SanitizePost(req) == Err(UnauthorizedSensor)
  {
    assert Groups["SKRT"] == {};
  }

  /** A POST naming a sensor outside the group's registered set always fails there
      (unless an earlier rule already failed). */
  lemma UnregisteredSensorRejected(req: Request)
    requires req.form.Some? && "group_id" in req.form.value && req.form.value["group_id"] in Groups
    requires "sensor_id" in req.form.value
    requires req.form.value["sensor_id"] !in Groups[req.form.value["group_id"]]
    ensures SanitizePost(req) == Err(UnauthorizedSensor)
  {
  }
}
