/** The program as it runs: the main loop acting on the serial link, step by step. */
module Program {
  import opened Common
  import opened Text
  import opened Catalog
  import opened Weather
  import opened Device
  import opened Session
  import opened SessionProperties

  /**
   * The running program: the input mode of `main`, whether the loop is still going,
   * and the serial port every command is written to.
   */
  class Controller {
    var mode: Mode
    var running: bool
    const link: Link

    /** `main` after `elegir_modo_entrada_inicial` chose `initial`. */
    constructor (initial: Mode, link: Link)
      ensures mode == initial && running && this.link == link
    {
      mode := initial;
      running := true;
      this.link := link;
    }

    /** The `clima` branch: ask for the city, query the service, drive the fan. */
    method ReportWeather(env: Env) returns (outcome: Outcome, query: Option<string>)
      modifies link
      ensures var r := WeatherStep(mode, env);
        link.log == old(link.log) + r.events && outcome == r.outcome && query == r.query
    {
      var city := Strip(env.city);
      if city == "" {
        return MissingCity, None;
      }
      var q := ResolveCity(city);
      query := Some(q);
      var reply := Classify(env.reply, city, q);
      if reply.Failure? {
        return WeatherFailed(reply.error), query;
      }
      outcome := WeatherShown(reply.value);
      DriveFan(reply.value);
    }

    /** The temperature rule after a reading: fan and alarm on when hot, fan off when cool. */
    method DriveFan(info: WeatherInfo)
      modifies link
      ensures link.log == old(link.log) + Writes(ClimateCodes(info))
    {
      FanWrites(info);
      if info.temp.Some? {
        if info.temp.value >= Threshold {
          link.Write('V');
          link.Write('H');
        } else {
          link.Write('v');
        }
      }
    }

    /** The branches after `normalizar_comando`, for the normalized `command`. */
    method Perform(command: string, raw: string, env: Env) returns (outcome: Outcome, query: Option<string>)
      modifies link
      ensures var r := Dispatch(mode, command, raw, env);
        link.log == old(link.log) + r.events && outcome == r.outcome && query == r.query
    {
      query := None;
      if command == WeatherPhrase {
        outcome, query := ReportWeather(env);
      } else if command == ReadLightPhrase {
        link.Write('L');
        link.ReadLine();
        outcome := LightLevel(Strip(env.answer));
      } else if command == AllOnPhrase {
        TurnAllOn(link);
        outcome := AllSwitchedOn;
      } else if command == AllOffPhrase {
        TurnAllOff(link);
        outcome := AllSwitchedOff;
      } else {
        match CommandCode(command)
        case Some(code) =>
          link.Write(code);
          outcome := Sent(code);
        case None =>
          outcome := Unrecognized(raw);
      }
    }

    /** One pass through the body of the `while True` loop on the raw input. */
    method Handle(raw: string, env: Env) returns (outcome: Outcome, query: Option<string>)
      requires running
      modifies this, link
      ensures var r := Step(old(mode), raw, env);
        link.log == old(link.log) + r.events && outcome == r.outcome && query == r.query
      ensures var r := Step(old(mode), raw, env);
        (r.next == Stopped <==> !running) && (running ==> r.next == Running(mode))
    {
      query := None;
      if raw == "" {
        return Ignored, None;
      }
      var text := StripLower(raw);
      if text in QuitWords {
        running := false;
        return Closing, None;
      }
      if text in HelpWords {
        return MenuShown, None;
      }
      if text in VoiceWords {
        mode := Voice;
        return ModeChanged(Voice), None;
      }
      if text in TypedWords {
        mode := Typed;
        return ModeChanged(Typed), None;
      }
      var command := Normalize(text);
      StepDispatches(mode, raw, env);
      CommandOfRaw(raw);
      outcome, query := Perform(command, raw, env);
    }

    /** `main`'s loop over the cycles, until a quit word or the last cycle. */
    method RunSession(cycles: seq<Cycle>) returns (outcomes: seq<Outcome>, queries: seq<string>)
      requires running
      modifies this, link
      ensures var t := Run(old(mode), cycles);
        link.log == old(link.log) + t.events && outcomes == t.outcomes && queries == t.queries
      ensures var t := Run(old(mode), cycles);
        (t.final == Stopped <==> !running) && (running ==> t.final == Running(mode))
    {
      outcomes, queries := [], [];
      ghost var events: seq<Event> := [];
      ghost var total := Run(mode, cycles);
      var i := 0;
      while i < |cycles| && running
        invariant 0 <= i <= |cycles|
        invariant total == Run(old(mode), cycles)
        invariant link.log == old(link.log) + events
        invariant running ==> total == Prepend(events, queries, outcomes, Run(mode, cycles[i..]))
        invariant !running ==> total == Trace(Stopped, events, queries, outcomes)
        decreases |cycles| - i
      {
        var c := cycles[i];
        ghost var m := mode;
        ghost var before := link.log;
        ghost var stepped := Advance(m, c);
        var outcome, query := Handle(RawInput(mode, c.heard, c.typed), c.env);
        assert link.log == before + stepped.events;
        LoopStepsOnce(Advance, total, events, queries, outcomes, m, cycles, i);
        AppendAssociates(old(link.log), events, stepped.events);
        events := events + stepped.events;
        queries := queries + QueryList(query);
        outcomes := outcomes + [outcome];
        i := i + 1;
      }
      if running {
        assert cycles[i..] == [];
      }
    }
  }
}
