/**
 * The main loop of the program: one iteration turns one line of input into device
 * events, a weather query, a change of input mode, or the end of the session.
 *
 * `Step` is the iteration as a function of the current mode, the raw input and what the
 * outside world answers during it; `Controller` runs the same iteration on a `Link`
 * and loops over a finite sequence of input cycles.
 */
module Session {
  import opened Common
  import opened Text
  import opened Catalog
  import opened Weather
  import opened Device

  /** `modo_entrada`: "voz" or "texto". */
  datatype Mode = Voice | Typed

  datatype State = Running(mode: Mode) | Stopped

  /** What an iteration reports on the console. */
  datatype Outcome =
    | Ignored                        // empty input, silently skipped
    | Closing                        // salir / exit / quit
    | MenuShown                      // ayuda / menu / help
    | ModeChanged(mode: Mode)
    | MissingCity                    // "No escribiste ciudad."
    | WeatherFailed(error: WeatherError)
    | WeatherShown(info: WeatherInfo)
    | LightLevel(value: string)      // "Valor LDR: ..."
    | AllSwitchedOn
    | AllSwitchedOff
    | Sent(code: char)
    | Unrecognized(raw: string)      // "Comando no reconocido: ..."

  /**
   * What the outside world supplies during one iteration, when asked: the line typed
   * at the "Ciudad:" prompt, the weather service's reply, and the line the
   * microcontroller sends back after the light query.
   */
  datatype Env = Env(city: string, reply: Reply, answer: string)

  datatype StepResult = StepResult(next: State, events: seq<Event>, query: Option<string>, outcome: Outcome)

  const QuitWords: set<string> := {"salir", "exit", "quit"}
  const HelpWords: set<string> := {"ayuda", "menu", "help"}
  const VoiceWords: set<string> := {"modo voz", "cambiar a voz"}
  const TypedWords: set<string> := {"modo texto", "cambiar a texto"}

  /** Program-control words, matched before normalization. */
  predicate IsControl(text: string) {
    text in QuitWords || text in HelpWords || text in VoiceWords || text in TypedWords
  }

  /** The `clima` branch (lines 360-391), once the command is known to be `clima`. */
  function WeatherStep(mode: Mode, env: Env): (r: StepResult)
    ensures r.next == Running(mode)
    ensures r.query.Some? <==> Strip(env.city) != ""
    ensures r.query.Some? ==> r.query.value == ResolveCity(Strip(env.city))
  {
    var city := Strip(env.city);
    if city == "" then StepResult(Running(mode), [], None, MissingCity)
    else
      var query := ResolveCity(city);
      match Classify(env.reply, city, query)
      case Failure(e) => StepResult(Running(mode), [], Some(query), WeatherFailed(e))
      case Success(info) => StepResult(Running(mode), Writes(ClimateCodes(info)), Some(query), WeatherShown(info))
  }

  /**
   * One iteration of `main` on the raw input: empty input is skipped; the control words
   * are matched on the stripped, lower-cased text; then the normalized command goes
   * through `clima`, `leer luz`, the two composite phrases and the catalog, in that order.
   * Only a quit word stops the session, and only the `clima` branch talks to the
   * weather service.
   */
  function Step(mode: Mode, raw: string, env: Env): (r: StepResult)
    ensures r.next == Stopped <==> raw != "" && StripLower(raw) in QuitWords
    ensures r.query.Some? ==> raw != "" && !IsControl(StripLower(raw)) && Normalize(StripLower(raw)) == WeatherPhrase
  {
    if raw == "" then StepResult(Running(mode), [], None, Ignored)
    else
      var text := StripLower(raw);
      if text in QuitWords then StepResult(Stopped, [], None, Closing)
      else if text in HelpWords then StepResult(Running(mode), [], None, MenuShown)
      else if text in VoiceWords then StepResult(Running(Voice), [], None, ModeChanged(Voice))
      else if text in TypedWords then StepResult(Running(Typed), [], None, ModeChanged(Typed))
      else Dispatch(mode, Normalize(text), raw, env)
  }

  /**
   * The command branches of lines 360-415 for a normalized command that is not a
   * control word; none of them changes the mode or stops the session.
   */
  function Dispatch(mode: Mode, command: string, raw: string, env: Env): (r: StepResult)
    ensures r.next == Running(mode)
    ensures r.query.Some? ==> command == WeatherPhrase
  {
    if command == WeatherPhrase then WeatherStep(mode, env)
    else if command == ReadLightPhrase then
      StepResult(Running(mode), [Write('L'), ReadLine], None, LightLevel(Strip(env.answer)))
    else if command == AllOnPhrase then StepResult(Running(mode), Writes(AllOnCodes), None, AllSwitchedOn)
    else if command == AllOffPhrase then StepResult(Running(mode), Writes(AllOffCodes), None, AllSwitchedOff)
    else match CommandCode(command)
      case Some(code) => StepResult(Running(mode), [Write(code)], None, Sent(code))
      case None => StepResult(Running(mode), [], None, Unrecognized(raw))
  }

  /**
   * `pedir_entrada_cruda`: in voice mode the transcript, lower-cased (`""` when nothing
   * was understood or the microphone failed); in typed mode the typed line, stripped and
   * lower-cased.
   */
  function RawInput(mode: Mode, heard: Option<string>, typed: string): string {
    match mode
    case Voice => (match heard case Some(t) => Lower(t) case None => "")
    case Typed => StripLower(typed)
  }

  /** One turn of the loop: what is heard or typed, and what the world answers. */
  datatype Cycle = Cycle(heard: Option<string>, typed: string, env: Env)

  datatype Trace = Trace(final: State, events: seq<Event>, queries: seq<string>, outcomes: seq<Outcome>)

  function QueryList(q: Option<string>): seq<string> {
    match q
    case Some(s) => [s]
    case None => []
  }

  /** Joins what was done so far with the trace of the rest of the session. */
  function Prepend(events: seq<Event>, queries: seq<string>, outcomes: seq<Outcome>, t: Trace): Trace {
    Trace(t.final, events + t.events, queries + t.queries, outcomes + t.outcomes)
  }

  /** One turn of the loop: read the input the current mode asks for, then step. */
  function Advance(mode: Mode, c: Cycle): StepResult {
    Step(mode, RawInput(mode, c.heard, c.typed), c.env)
  }

  /** The `while True` loop, for an iteration `step`, over a finite sequence of cycles; it ends when `step` stops. */
  function Loop(step: (Mode, Cycle) -> StepResult, mode: Mode, cycles: seq<Cycle>): Trace
    decreases |cycles|
  {
    if cycles == [] then Trace(Running(mode), [], [], [])
    else
      var s := step(mode, cycles[0]);
      match s.next
      case Stopped => Trace(Stopped, s.events, QueryList(s.query), [s.outcome])
      case Running(m) => Prepend(s.events, QueryList(s.query), [s.outcome], Loop(step, m, cycles[1..]))
  }

  /** The session: the loop of `main` over the cycles, from the initial input mode. */
  function Run(mode: Mode, cycles: seq<Cycle>): Trace {
    Loop(Advance, mode, cycles)
  }
}
