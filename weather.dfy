/**
 * The pure parts of the weather query (`obtener_clima`) and of the temperature rule
 * that the main loop applies to its answer.
 *
 * The HTTP request itself is not modelled: the service's answer is an input (`Reply`),
 * already decoded from JSON into the fields the program reads.
 */
module Weather {
  import opened Common
  import opened Text

  /** `UMBRAL_TEMPERATURA`, in degrees Celsius. */
  const Threshold: real := 25.0

  /** The fan rule for a known temperature: fan on and alarm when hot, fan off otherwise. */
  function FanRule(temp: real): (codes: seq<char>)
    ensures codes == ['V', 'H'] || codes == ['v']
    ensures 'V' in codes <==> temp >= Threshold
  {
    if temp >= Threshold then ['V', 'H'] else ['v']
  }

  // ---- city aliases ----

  const CityAliases: map<string, string> := map[
    "cdmx" := "Mexico City,MX",
    "ciudad de mexico" := "Mexico City,MX",
    "méxico" := "Mexico City,MX",
    "mexico" := "Mexico City,MX",
    "tokio" := "Tokyo,JP"]

  /**
   * The `q` parameter sent to the service: a known alias (compared after strip and
   * lower-case) is replaced by its canonical city, any other city is sent as given.
   */
  function ResolveCity(city: string): (query: string)
    ensures StripLower(city) in {"cdmx", "ciudad de mexico", "méxico", "mexico"} ==> query == "Mexico City,MX"
    ensures StripLower(city) == "tokio" ==> query == "Tokyo,JP"
    ensures StripLower(city) !in CityAliases ==> query == city
  {
    var key := StripLower(city);
    if key in CityAliases then CityAliases[key] else city
  }

  /** The alias table has exactly these five keys. */
  lemma AliasKeys()
    ensures CityAliases.Keys == {"cdmx", "ciudad de mexico", "méxico", "mexico", "tokio"}
  {
  }

  /** Spellings that agree after strip and lower-case resolve alike when they are aliases. */
  lemma ResolveCityIgnoresCase(a: string, b: string)
    requires StripLower(a) == StripLower(b) && StripLower(a) in CityAliases
    ensures ResolveCity(a) == ResolveCity(b)
  {
  }

  /** "CDMX", in any case and with any surrounding space, resolves to Mexico City. */
  lemma ResolveCdmxAnyCase(city: string)
    requires StripLower(city) == "cdmx"
    ensures ResolveCity(city) == "Mexico City,MX"
  {
  }

  lemma ResolveCdmx(city: string)
    requires city == "CDMX"
    ensures ResolveCity(city) == "Mexico City,MX"
  {
    assert StripLower(city) == "cdmx" by {
      StripKeepsTrimmed(city);
      assert LowerChar('C') == 'c' && LowerChar('D') == 'd' && LowerChar('M') == 'm' && LowerChar('X') == 'x';
    }
  }

  /** The accented spelling in capitals is lower-cased to the alias, accent included. */
  lemma ResolveMexicoWithAccent(city: string)
    requires city == "MÉXICO"
    ensures ResolveCity(city) == "Mexico City,MX"
  {
    assert StripLower(city) == "méxico" by {
      StripKeepsTrimmed(city);
      assert LowerChar('M') == 'm' && LowerChar('\U{C9}') == '\U{E9}' && LowerChar('X') == 'x';
      assert LowerChar('I') == 'i' && LowerChar('C') == 'c' && LowerChar('O') == 'o';
    }
  }

  lemma ResolveTokio(city: string)
    requires city == "Tokio"
    ensures ResolveCity(city) == "Tokyo,JP"
  {
    assert StripLower(city) == "tokio" by {
      StripKeepsTrimmed(city);
      assert LowerChar('T') == 't';
    }
  }

  // ---- the service's answer ----

  /** The `main` object of the decoded body; either field may be missing. */
  datatype Readings = Readings(temp: Option<real>, feelsLike: Option<real>)

  /** One element of the body's `weather` list. */
  datatype Condition = Condition(description: Option<string>)

  /** The decoded body: `None` where the key is absent. */
  datatype Body = Body(main: Option<Readings>, weather: Option<seq<Condition>>, name: Option<string>)

  /** What `requests.get` gives back: an exception, or a status code and a body. */
  datatype Reply = NetworkError | Response(status: int, body: Body)

  /** The dictionary `obtener_clima` returns. */
  datatype WeatherInfo = WeatherInfo(temp: Option<real>, feelsLike: Option<real>, description: Option<string>, city: string)

  /** Each way `obtener_clima` returns `None`, with what it reports. */
  datatype WeatherError =
    | Unreachable                              // requests.RequestException
    | BadApiKey                                // status 401
    | CityNotFound(city: string, query: string) // status 404
    | ServiceError(status: int)                // any other status but 200
    | UnexpectedBody                           // no `main` or no `weather` key

  const NoDescription: string := "Sin descripción"

  /**
   * The checks of `obtener_clima` on the reply, in their order: 401, 404, any other
   * non-200, then the presence of `main` and `weather`. A result comes back exactly when
   * the status is 200 and both keys are there; it carries the readings as given, the first
   * condition's description (or the fixed text when the list is empty), and the name the
   * service reports, or failing that the query that was sent.
   */
  function Classify(reply: Reply, city: string, query: string): (r: Result<WeatherInfo, WeatherError>)
    ensures r.Success? <==>
      reply.Response? && reply.status == 200 && reply.body.main.Some? && reply.body.weather.Some?
    ensures r.Success? ==>
      r.value.temp == reply.body.main.value.temp
      && r.value.feelsLike == reply.body.main.value.feelsLike
      && r.value.city == reply.body.name.GetOr(query)
  {
    match reply
    case NetworkError => Failure(Unreachable)
    case Response(status, body) =>
      if status == 401 then Failure(BadApiKey)
      else if status == 404 then Failure(CityNotFound(city, query))
      else if status != 200 then Failure(ServiceError(status))
      else if body.main.None? || body.weather.None? then Failure(UnexpectedBody)
      else
        var conditions := body.weather.value;
        var description := if conditions == [] then Some(NoDescription) else conditions[0].description;
        Success(WeatherInfo(body.main.value.temp, body.main.value.feelsLike, description, body.name.GetOr(query)))
  }

  /** Every failure status and a body without its keys each give their own error. */
  lemma ClassifyFailures(city: string, query: string, body: Body)
    ensures Classify(NetworkError, city, query) == Failure(Unreachable)
    ensures Classify(Response(401, body), city, query) == Failure(BadApiKey)
    ensures Classify(Response(404, body), city, query) == Failure(CityNotFound(city, query))
    ensures forall status | status != 200 && status != 401 && status != 404 ::
      Classify(Response(status, body), city, query) == Failure(ServiceError(status))
    ensures body.main.None? || body.weather.None? ==>
      Classify(Response(200, body), city, query) == Failure(UnexpectedBody)
  {
  }

  /** An empty `weather` list yields the fixed description text. */
  lemma ClassifyWithoutConditions(readings: Readings, name: Option<string>, city: string, query: string)
    ensures Classify(Response(200, Body(Some(readings), Some([]), name)), city, query).value.description
      == Some(NoDescription)
  {
  }

  // ---- what the main loop does with a result (lines 370-391) ----

  /**
   * The program as written: lines 376-377 format the temperature and the feeling
   * temperature with `:.1f`, which raises `TypeError` for `None` and ends the program
   * (`None` here) before the `temp is not None` guard at line 381 is reached.
   */
  function ActAsWritten(info: WeatherInfo): (r: Option<seq<char>>)
    ensures r.Some? <==> info.temp.Some? && info.feelsLike.Some?
  {
    if info.temp.None? || info.feelsLike.None? then None
    else Some(FanRule(info.temp.value))
  }

  /**
   * The rule the guard at line 381 intends: a missing temperature writes nothing and the
   * session goes on; a known one decides between fan-and-alarm and fan-off.
   */
  function ClimateCodes(info: WeatherInfo): (codes: seq<char>)
    ensures codes == [] <==> info.temp.None?
    ensures 'H' in codes <==> info.temp.Some? && info.temp.value >= Threshold
    ensures 'v' in codes <==> info.temp.Some? && info.temp.value < Threshold
  {
    match info.temp
    case None => []
    case Some(t) => FanRule(t)
  }

  /** As written, the `None` branch of the guard can never be taken. */
  lemma AsWrittenGuardIsDead(info: WeatherInfo)
    ensures ActAsWritten(info).Some? ==> info.temp.Some?
  {
  }

  /**
   * A reply with no temperature: as written it aborts the program, while the intended
   * rule writes nothing and carries on.
   */
  lemma MissingTemperatureCounterexample()
    ensures var info := WeatherInfo(None, Some(20.0), Some("nubes"), "Tokyo");
      ActAsWritten(info) == None && ClimateCodes(info) == []
  {
  }

  /**
   * A reply with a temperature but no feeling temperature: as written it aborts at the
   * second format, before any write, while the intended rule still drives the fan.
   */
  lemma MissingFeelingCounterexample()
    ensures var info := WeatherInfo(Some(30.0), None, Some("nubes"), "Tokyo");
      ActAsWritten(info) == None && ClimateCodes(info) == ['V', 'H']
  {
  }

  /** Where the program does not abort, the intended rule writes the same bytes. */
  lemma ClimateCodesAgreeWhenDefined(info: WeatherInfo)
    requires ActAsWritten(info).Some?
    ensures ActAsWritten(info).value == ClimateCodes(info)
  {
  }

  /** The threshold is inclusive: exactly 25.0 degrees switches the fan and the alarm on. */
  lemma ThresholdIsInclusive()
    ensures FanRule(25.0) == ['V', 'H']
    ensures FanRule(30.0) == ['V', 'H']
    ensures FanRule(20.0) == ['v']
  {
  }
}
