/** Carbon readings as the schedulers receive them: current data keyed by
    datacenter id, forecasts keyed by (datacenter id, hour index). Every
    producer in the repository sets both the intensity and the renewable
    share of an entry. */
module Readings {

  /** gCO2/kWh and renewable share in percent. */
  datatype Reading = Reading(intensity: real, renewable: real)

  type CarbonData = map<string, Reading>
  type Forecast = map<(string, int), Reading>

  /** What the schedulers charge for a datacenter or slot without an entry. */
  const DefaultIntensity: real := 200.0
  const DefaultRenewable: real := 30.0

  /** `carbon_data.get(id, {'intensity': 200, 'renewable': 30})`. */
  function ReadingOr(carbon: CarbonData, id: string): (r: Reading)
    ensures id in carbon ==> r == carbon[id]
    ensures id !in carbon ==> r.intensity == 200.0 && r.renewable == 30.0
  {
    if id in carbon then carbon[id] else Reading(DefaultIntensity, DefaultRenewable)
  }

  /** `carbon_forecast.get((id, t), {'intensity': 200, 'renewable': 30})`. */
  function ForecastOr(forecast: Forecast, id: string, t: int): (r: Reading)
    ensures (id, t) in forecast ==> r == forecast[(id, t)]
    ensures (id, t) !in forecast ==> r.intensity == 200.0 && r.renewable == 30.0
  {
    if (id, t) in forecast then forecast[(id, t)] else Reading(DefaultIntensity, DefaultRenewable)
  }
}
