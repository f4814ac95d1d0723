/** NewEngineWithSeed of journey/engine.go: every journey is planned eagerly, and a plan error panics. */
module Engine {
  import opened Wrappers
  import opened Topology
  import opened Validate
  import opened Plan
  import opened PlanProofs

  /** Err is the panic; Ok is the engine's plan cache. */
  method NewEngine(s: Schema) returns (r: Result<map<string, Node>, PlanErrorKind>)
    ensures r.Ok? <==> forall name | name in s.journeys :: BuildPlan(s, name).Ok?
    ensures r.Ok? ==> r.value.Keys == s.journeys.Keys
    ensures r.Ok? ==> forall name | name in s.journeys ::
              s.journeys[name].Some? && UnfoldsJourney(s, r.value[name], s.journeys[name].value)
    ensures Valid(s) ==> r.Ok?
  {
    hide Valid, BuildPlan, UnfoldsJourney;
    if Valid(s) {
      forall name | name in s.journeys { ValidatedSchemaPlans(s, name); }
    }
    var plans: map<string, Node> := map[];
    var names := s.journeys.Keys;
    while names != {}
      invariant names <= s.journeys.Keys
      invariant plans.Keys == s.journeys.Keys - names
      invariant forall name | name in plans :: BuildPlan(s, name) == Ok(plans[name])
    {
      var name :| name in names;
      names := names - {name};
      var plan := BuildJourneyPlan(s, name);
      if plan.Err? {
        return Err(plan.error);
      }
      plans := plans[name := plan.value];
    }
    forall name | name in s.journeys
      ensures s.journeys[name].Some? && UnfoldsJourney(s, plans[name], s.journeys[name].value)
    {
      BuiltUnfolds(s, name, plans[name]);
    }
    r := Ok(plans);
  }

  lemma BuiltUnfolds(s: Schema, name: string, plan: Node)
    requires name in s.journeys && BuildPlan(s, name) == Ok(plan)
    ensures s.journeys[name].Some? && UnfoldsJourney(s, plan, s.journeys[name].value)
  {
    hide UnfoldsJourney;
    PlanIffUnfolds(s, name, plan);
  }
}
