/**
 * The domain operations: each is one `get` or `post` with a fixed action tag and its arguments
 * packaged as named parameters. Optional dates default to null.
 */
module Calls {
  import opened Wrappers
  import opened JsValues
  import opened Gateway

  datatype Operation =
    | GetExercises
    | AddExercise(exercise: Value)
    | AddWorkout(workout: Value)
    | AddWorkouts(workouts: Value)
    | GetWorkouts(startDate: Value, endDate: Value)
    | DeleteWorkout(id: Value)
    | GetStats(exerciseId: Value)
    | GetBodyMetrics(startDate: Value, endDate: Value)
    | AddBodyMetric(metric: Value)
    | DeleteBodyMetric(id: Value)

  /** The `get` or `post` call an operation makes. */
  datatype Call = GetCall(action: string, params: seq<(string, Value)>) | PostCall(action: string, payload: map<string, Value>)

  /**
   * The call behind each operation. No operation packages a parameter named `action` or `token`,
   * so the fixed fields always reach the backend intact.
   */
  function CallFor(op: Operation): (c: Call)
    ensures c.GetCall? ==> forall i :: 0 <= i < |c.params| ==> c.params[i].0 != "action" && c.params[i].0 != "token"
    ensures c.PostCall? ==> "action" !in c.payload && "token" !in c.payload
  {
    match op
    case GetExercises => GetCall("getExercises", [])
    case AddExercise(exercise) => PostCall("addExercise", map["exercise" := exercise])
    case AddWorkout(workout) => PostCall("addWorkout", map["workout" := workout])
    case AddWorkouts(workouts) => PostCall("addWorkouts", map["workouts" := workouts])
    case GetWorkouts(startDate, endDate) => GetCall("getWorkouts", [("startDate", startDate), ("endDate", endDate)])
    case DeleteWorkout(id) => PostCall("deleteWorkout", map["id" := id])
    case GetStats(exerciseId) => GetCall("getStats", [("exerciseId", exerciseId)])
    case GetBodyMetrics(startDate, endDate) => GetCall("getBodyMetrics", [("startDate", startDate), ("endDate", endDate)])
    case AddBodyMetric(metric) => PostCall("addBodyMetric", map["metric" := metric])
    case DeleteBodyMetric(id) => PostCall("deleteBodyMetric", map["id" := id])
  }

  /** A parameter that never reaches either fixed key. */
  lemma {:induction false} LastPresentOfOtherKeys(params: seq<(string, Value)>, key: string)
    requires forall i :: 0 <= i < |params| ==> params[i].0 != key
    ensures LastPresent(params, key) == None
    decreases |params|
  {
    if params != [] {
      LastPresentOfOtherKeys(params[..|params| - 1], key);
    }
  }

  /** Every `get` operation sends its own action tag and the session token. */
  lemma GetCallsKeepFixedFields(op: Operation, token: string)
    requires CallFor(op).GetCall?
    ensures var c := CallFor(op);
      Find(QueryFor(c.action, token, c.params), "action") == Some(c.action) &&
      Find(QueryFor(c.action, token, c.params), "token") == Some(token)
  {
    var c := CallFor(op);
    LastPresentOfOtherKeys(c.params, "action");
    LastPresentOfOtherKeys(c.params, "token");
    QueryForFind(c.action, token, c.params, "action");
    QueryForFind(c.action, token, c.params, "token");
  }

  /** Every `post` operation sends its own action tag and the session token. */
  lemma PostCallsKeepFixedFields(op: Operation, token: string)
    requires CallFor(op).PostCall?
    ensures var c := CallFor(op);
      PostBody(c.action, token, c.payload)["action"] == Str(c.action) &&
      PostBody(c.action, token, c.payload)["token"] == Str(token)
  {
  }

  /** A start date with a null end date: the query reads the start date and has no `endDate` key. */
  lemma DatesQuery(action: string, token: string, startDate: string)
    ensures var ps := [("startDate", Str(startDate)), ("endDate", Null)];
      Find(QueryFor(action, token, ps), "startDate") == Some(startDate) &&
      Find(QueryFor(action, token, ps), "endDate") == None
  {
    var ps := [("startDate", Str(startDate)), ("endDate", Null)];
    assert ps[..1] == [("startDate", Str(startDate))];
    assert LastPresent(ps, "startDate") == Some(startDate);
    assert LastPresent(ps[..1][..0], "endDate") == None;
    assert LastPresent(ps, "endDate") == None;
    QueryForFind(action, token, ps, "startDate");
    QueryForFind(action, token, ps, "endDate");
  }

  /**
   * `getWorkouts(startDate)` with the end date omitted (null) sends `startDate` and no `endDate`
   * at all; the same holds for `getBodyMetrics`.
   */
  lemma HistoryOmitsMissingEndDate(token: string, startDate: string)
    ensures var c := CallFor(GetWorkouts(Str(startDate), Null));
      Find(QueryFor(c.action, token, c.params), "startDate") == Some(startDate) &&
      Find(QueryFor(c.action, token, c.params), "endDate") == None
    ensures var c := CallFor(GetBodyMetrics(Str(startDate), Null));
      Find(QueryFor(c.action, token, c.params), "startDate") == Some(startDate) &&
      Find(QueryFor(c.action, token, c.params), "endDate") == None
  {
    DatesQuery("getWorkouts", token, startDate);
    DatesQuery("getBodyMetrics", token, startDate);
  }
}
