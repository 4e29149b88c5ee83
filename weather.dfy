/** The weather conditions and the external weather lookup. */
module Weather {

  /** The conditions that make an outdoor activity unsuitable. */
  const BadConditions: set<string> := {"Rain", "Snow", "Drizzle"}

  /**
   * The test applied to every looked-up condition. The comparison is exact:
   * a condition is bad weather exactly when it is one of `BadConditions`.
   */
  predicate IsBad(condition: string)
    ensures IsBad(condition) <==> condition in BadConditions
  {
    condition == "Rain" || condition == "Snow" || condition == "Drizzle"
  }

  /** For example: the test is case-sensitive, and common good-weather conditions pass it. */
  lemma OnlyThreeLabelsAreBad()
    ensures IsBad("Rain") && IsBad("Snow") && IsBad("Drizzle")
    ensures !IsBad("Clear") && !IsBad("Clouds") && !IsBad("Thunderstorm")
    ensures !IsBad("rain") && !IsBad("")
  {
  }

  /**
   * The weather provider behind `Activities.GetWeather`: one request per call,
   * answered by a fixed classification of postcodes. `requests` records
   * every postcode that was asked for.
   */
  class WeatherApi {
    const classify: string -> string
    var requests: seq<string>

    constructor (classify: string -> string)
      ensures this.classify == classify && requests == []
    {
      this.classify := classify;
      requests := [];
    }

    method GetWeather(postcode: string) returns (condition: string)
      modifies this
      ensures condition == classify(postcode)
      ensures requests == old(requests) + [postcode]
    {
      condition := classify(postcode);
      requests := requests + [postcode];
    }
  }
}
