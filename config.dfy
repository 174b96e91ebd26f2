/**
 * The configuration records of `src/utils/config.py`.  Optional Python fields
 * become `Option` values; defaults are the constructors' default arguments.
 */
module Config {
  import opened Wrappers

  datatype LocationConfig = LocationConfig(zip: string, radiusMiles: int)

  /** One make/model with optional inclusive year bounds. */
  datatype VehicleCriteria = VehicleCriteria(
    make: string,
    model: string,
    yearMin: Option<int> := None,
    yearMax: Option<int> := None)

  /** A search profile. `location` and `featuresAll` are declared but never read by the matcher. */
  datatype AgentParameters = AgentParameters(
    vehicles: seq<VehicleCriteria> := [],
    makes: seq<string> := [],
    models: seq<string> := [],
    yearMin: Option<int> := None,
    yearMax: Option<int> := None,
    priceMax: Option<real> := None,
    mileageMax: Option<int> := None,
    location: Option<LocationConfig> := None,
    featuresAny: seq<string> := [],
    featuresAll: seq<string> := [],
    excludeKeywords: seq<string> := [])

  const DefaultSchedule: string := "0 */2 * * *"

  /** An agent: `enabled` and `schedule` are optional, the rest required. */
  datatype AgentConfig = AgentConfig(
    id: string,
    name: string,
    parameters: AgentParameters,
    sources: seq<string>,
    notifications: map<string, seq<string>>,
    enabled: bool := true,
    schedule: string := DefaultSchedule)

  /** A vehicle criterion names a make and a model; its year bounds are unset unless given. */
  lemma CriteriaDefaults(make: string, model: string)
    ensures VehicleCriteria(make, model).yearMin.None? && VehicleCriteria(make, model).yearMax.None?
    ensures VehicleCriteria(make, model).make == make && VehicleCriteria(make, model).model == model
  {
  }

  /** The defaults a profile gets when the configuration leaves fields out. */
  lemma ParameterDefaults(p: AgentParameters)
    requires p == AgentParameters()
    ensures p.vehicles == [] && p.makes == [] && p.models == []
    ensures p.featuresAny == [] && p.featuresAll == [] && p.excludeKeywords == []
    ensures p.yearMin.None? && p.yearMax.None? && p.priceMax.None? && p.mileageMax.None?
    ensures p.location.None?
  {
  }

  /** An agent is enabled and runs every two hours unless configured otherwise. */
  lemma AgentDefaults(id: string, name: string, p: AgentParameters, sources: seq<string>, n: map<string, seq<string>>)
    ensures AgentConfig(id, name, p, sources, n).enabled
    ensures AgentConfig(id, name, p, sources, n).schedule == "0 */2 * * *"
  {
  }
}
