/**
 * What one iteration of the main loop and a whole session guarantee: which input
 * reaches the microcontroller or the weather service, in which order, and what the
 * loop does with the cycles after a quit.
 */
module SessionProperties {
  import opened Common
  import opened Text
  import opened Catalog
  import opened Weather
  import opened Device
  import opened Session

  // ---- one iteration ----

  /** The command the loop dispatches on is what `normalizar_comando` makes of the raw input. */
  lemma CommandOfRaw(raw: string)
    ensures Normalize(StripLower(raw)) == Normalize(raw)
  {
    StripLowerIdempotent(raw);
    NormalizeIgnoresCaseAndSpace(StripLower(raw), raw);
  }

  /** Past the control words, the iteration is decided by the normalized command alone. */
  lemma StepDispatches(mode: Mode, raw: string, env: Env)
    requires raw != "" && !IsControl(StripLower(raw))
    ensures Step(mode, raw, env) == Dispatch(mode, Normalize(raw), raw, env)
  {
    CommandOfRaw(raw);
  }

  /** The phrases the loop handles itself pass through normalization unchanged. */
  lemma SpecialPhraseReachesLoop(raw: string)
    requires StripLower(raw) in {WeatherPhrase, ReadLightPhrase, AllOnPhrase, AllOffPhrase}
    ensures Normalize(raw) == StripLower(raw)
    ensures !IsControl(StripLower(raw))
  {
    var t := StripLower(raw);
    assert !InCatalog(t) && !IsSynonym(t) by {
      SpecialPhrasesOutsideTables();
    }
    SpecialPhrasesNotControl();
  }

  lemma SpecialPhrasesNotControl()
    ensures !IsControl(WeatherPhrase) && !IsControl(ReadLightPhrase)
    ensures !IsControl(AllOnPhrase) && !IsControl(AllOffPhrase)
  {
  }

  /** Empty input is skipped without a trace. */
  lemma EmptyInputIgnored(mode: Mode, env: Env)
    ensures Step(mode, "", env) == StepResult(Running(mode), [], None, Ignored)
  {
  }

  /** A quit word, in any case and with any surrounding space, ends the session and does nothing else. */
  lemma QuitWordStops(mode: Mode, raw: string, env: Env)
    requires raw != "" && StripLower(raw) in QuitWords
    ensures Step(mode, raw, env) == StepResult(Stopped, [], None, Closing)
  {
  }

  /** The switch words select the input mode for the following iterations and do nothing else. */
  lemma SwitchWordsSelectMode(mode: Mode, raw: string, env: Env)
    requires raw != ""
    ensures StripLower(raw) in VoiceWords ==> Step(mode, raw, env) == StepResult(Running(Voice), [], None, ModeChanged(Voice))
    ensures StripLower(raw) in TypedWords ==> Step(mode, raw, env) == StepResult(Running(Typed), [], None, ModeChanged(Typed))
  {
    assert forall w | w in VoiceWords :: w !in QuitWords && w !in HelpWords;
    assert forall w | w in TypedWords :: w !in QuitWords && w !in HelpWords && w !in VoiceWords;
  }

  /** The input mode changes only on a switch word, and only to the mode that word names. */
  lemma ModeChangesOnlyOnSwitch(mode: Mode, raw: string, env: Env)
    ensures var r := Step(mode, raw, env);
      r.next.Running? && r.next.mode != mode ==>
        raw != "" &&
        ((StripLower(raw) in VoiceWords && r.next.mode == Voice) || (StripLower(raw) in TypedWords && r.next.mode == Typed))
  {
  }

  /** Program-control words never reach the microcontroller or the weather service. */
  lemma ControlWordsStayLocal(mode: Mode, raw: string, env: Env)
    requires raw != "" && IsControl(StripLower(raw))
    ensures Step(mode, raw, env).events == [] && Step(mode, raw, env).query == None
  {
  }

  /** A catalog command, reached directly or through normalization, writes its one byte and nothing else. */
  lemma CatalogCommandSendsItsCode(mode: Mode, raw: string, env: Env)
    requires raw != "" && !IsControl(StripLower(raw))
    requires InCatalog(Normalize(raw))
    ensures Step(mode, raw, env) ==
      StepResult(Running(mode), [Write(CommandCode(Normalize(raw)).value)], None, Sent(CommandCode(Normalize(raw)).value))
  {
    StepDispatches(mode, raw, env);
    assert Normalize(raw) !in {WeatherPhrase, ReadLightPhrase, AllOnPhrase, AllOffPhrase} by {
      SpecialPhrasesNotCommands();
    }
  }

  /** A synonym of a catalog phrase writes the byte of the phrase it stands for. */
  lemma SynonymSendsTargetCode(mode: Mode, raw: string, env: Env)
    requires raw != "" && !IsControl(StripLower(raw))
    requires IsSynonym(StripLower(raw)) && InCatalog(SynonymTarget(StripLower(raw)).value)
    ensures Step(mode, raw, env).events == [Write(CommandCode(SynonymTarget(StripLower(raw)).value).value)]
  {
    assert Normalize(raw) == SynonymTarget(StripLower(raw)).value by {
      NormalizeResolvesSynonyms(raw);
    }
    CatalogCommandSendsItsCode(mode, raw, env);
  }

  /** `leer luz` writes `L`, reads one line back and reports it stripped. */
  lemma ReadLightQueriesDevice(mode: Mode, raw: string, env: Env)
    requires raw != "" && StripLower(raw) == ReadLightPhrase
    ensures Step(mode, raw, env) == StepResult(Running(mode), [Write('L'), ReadLine], None, LightLevel(Strip(env.answer)))
  {
    SpecialPhraseReachesLoop(raw);
    StepDispatches(mode, raw, env);
  }

  /** `encender todo` and its synonyms switch everything on, in the order of `encender_todo`. */
  lemma AllOnSwitchesEverything(mode: Mode, raw: string, env: Env)
    requires raw != "" && !IsControl(StripLower(raw))
    requires Normalize(raw) == AllOnPhrase
    ensures Step(mode, raw, env).events == [Write('A'), Write('B'), Write('C'), Write('D'), Write('V'), Write('P')]
    ensures Step(mode, raw, env).outcome == AllSwitchedOn
  {
    StepDispatches(mode, raw, env);
    AllOnWrites();
  }

  /** `apagar todo` and its synonym switch everything off, in the order of `apagar_todo`. */
  lemma AllOffSwitchesEverything(mode: Mode, raw: string, env: Env)
    requires raw != "" && !IsControl(StripLower(raw))
    requires Normalize(raw) == AllOffPhrase
    ensures Step(mode, raw, env).events == [Write('a'), Write('b'), Write('c'), Write('d'), Write('v'), Write('p')]
    ensures Step(mode, raw, env).outcome == AllSwitchedOff
  {
    StepDispatches(mode, raw, env);
    AllOffWrites();
  }

  /** Text the loop does not know is reported, untouched, and nothing is sent anywhere. */
  lemma UnknownTextWritesNothing(mode: Mode, raw: string, env: Env)
    requires raw != "" && !IsControl(StripLower(raw))
    requires !InCatalog(StripLower(raw)) && !IsSynonym(StripLower(raw))
    requires StripLower(raw) !in {WeatherPhrase, ReadLightPhrase, AllOnPhrase, AllOffPhrase}
    ensures Step(mode, raw, env) == StepResult(Running(mode), [], None, Unrecognized(raw))
  {
    NormalizeKeepsUnknownText(raw);
    StepDispatches(mode, raw, env);
  }

  // ---- the weather command ----

  /** `clima`, in any case and with any surrounding space, runs the weather branch. */
  lemma WeatherDispatch(mode: Mode, raw: string, env: Env)
    requires raw != "" && StripLower(raw) == WeatherPhrase
    ensures Step(mode, raw, env) == WeatherStep(mode, env)
  {
    SpecialPhraseReachesLoop(raw);
    StepDispatches(mode, raw, env);
  }

  /** Without a city nothing is asked of the service and nothing is written. */
  lemma WeatherNeedsCity(mode: Mode, raw: string, env: Env)
    requires raw != "" && StripLower(raw) == WeatherPhrase
    requires Strip(env.city) == ""
    ensures Step(mode, raw, env) == StepResult(Running(mode), [], None, MissingCity)
  {
    WeatherDispatch(mode, raw, env);
  }

  /** With a city, the service is asked for the alias-resolved city, and a failed reply writes nothing. */
  lemma WeatherQueriesResolvedCity(mode: Mode, raw: string, env: Env)
    requires raw != "" && StripLower(raw) == WeatherPhrase
    requires Strip(env.city) != ""
    ensures var city := Strip(env.city);
      Step(mode, raw, env).query == Some(ResolveCity(city)) &&
      (Classify(env.reply, city, ResolveCity(city)).Failure? ==>
        Step(mode, raw, env).events == [] &&
        Step(mode, raw, env).outcome == WeatherFailed(Classify(env.reply, city, ResolveCity(city)).error))
  {
    WeatherDispatch(mode, raw, env);
  }

  /**
   * A usable reply drives the fan: at or above the threshold `V` then `H`, below it `v`,
   * and nothing when the reply carries no temperature.
   */
  lemma WeatherDrivesFan(mode: Mode, raw: string, env: Env, info: WeatherInfo)
    requires raw != "" && StripLower(raw) == WeatherPhrase
    requires Strip(env.city) != ""
    requires Classify(env.reply, Strip(env.city), ResolveCity(Strip(env.city))) == Success(info)
    ensures Step(mode, raw, env).outcome == WeatherShown(info)
    ensures info.temp.None? ==> Step(mode, raw, env).events == []
    ensures info.temp.Some? && info.temp.value >= Threshold ==> Step(mode, raw, env).events == [Write('V'), Write('H')]
    ensures info.temp.Some? && info.temp.value < Threshold ==> Step(mode, raw, env).events == [Write('v')]
  {
    WeatherDispatch(mode, raw, env);
    WeatherShowsReading(mode, env, info);
    FanWrites(info);
  }

  lemma WeatherShowsReading(mode: Mode, env: Env, info: WeatherInfo)
    requires Strip(env.city) != ""
    requires Classify(env.reply, Strip(env.city), ResolveCity(Strip(env.city))) == Success(info)
    ensures WeatherStep(mode, env).outcome == WeatherShown(info)
    ensures WeatherStep(mode, env).events == Writes(ClimateCodes(info))
  {
  }

  /** The writes of the fan rule, spelled out. */
  lemma FanWrites(info: WeatherInfo)
    ensures info.temp.None? ==> Writes(ClimateCodes(info)) == []
    ensures info.temp.Some? && info.temp.value >= Threshold ==> Writes(ClimateCodes(info)) == [Write('V'), Write('H')]
    ensures info.temp.Some? && info.temp.value < Threshold ==> Writes(ClimateCodes(info)) == [Write('v')]
  {
  }

  /** Asking for the weather of `cdmx`, in any case, queries Mexico City. */
  lemma WeatherForCdmx(mode: Mode, raw: string, env: Env)
    requires raw != "" && StripLower(raw) == WeatherPhrase
    requires StripLower(env.city) == "cdmx"
    ensures Step(mode, raw, env).query == Some("Mexico City,MX")
  {
    WeatherDispatch(mode, raw, env);
    StripIdempotent(env.city);
    ResolveCdmxAnyCase(Strip(env.city));
  }

  /** The branches past the control words write to the device exactly in these cases. */
  lemma DispatchWritesIff(mode: Mode, command: string, raw: string, env: Env)
    ensures Dispatch(mode, command, raw, env).events != [] <==>
      (InCatalog(command) || command in {ReadLightPhrase, AllOnPhrase, AllOffPhrase} ||
       (command == WeatherPhrase && Strip(env.city) != "" &&
        var outcome := Classify(env.reply, Strip(env.city), ResolveCity(Strip(env.city)));
        outcome.Success? && outcome.value.temp.Some?))
  {
    SpecialPhrasesNotCommands();
    AllOnWrites();
    AllOffWrites();
  }

  /**
   * The device is written to exactly when the command is a catalog phrase, `leer luz`,
   * a composite phrase, or `clima` with a city and a reply that carries a temperature.
   */
  lemma WritesIff(mode: Mode, raw: string, env: Env)
    ensures Step(mode, raw, env).events != [] <==>
      raw != "" && !IsControl(StripLower(raw)) &&
      var command := Normalize(raw);
      (InCatalog(command) || command in {ReadLightPhrase, AllOnPhrase, AllOffPhrase} ||
       (command == WeatherPhrase && Strip(env.city) != "" &&
        var outcome := Classify(env.reply, Strip(env.city), ResolveCity(Strip(env.city)));
        outcome.Success? && outcome.value.temp.Some?))
  {
    if raw != "" && !IsControl(StripLower(raw)) {
      StepDispatches(mode, raw, env);
      DispatchWritesIff(mode, Normalize(raw), raw, env);
    }
  }

  // ---- the bytes on the wire ----


  lemma CatalogCodesInProtocol()
    ensures forall k | InCatalog(k) :: CommandCode(k).value in Protocol
  {
    assert forall k | k in RoomLightCodes :: RoomLightCodes[k] in Protocol;
    assert forall k | k in ActuatorCodes :: ActuatorCodes[k] in Protocol;
    assert forall k | k in AutoLightCodes :: AutoLightCodes[k] in Protocol;
    assert forall k | k in ManualLightCodes :: ManualLightCodes[k] in Protocol;
  }

  lemma FixedCodesInProtocol()
    ensures forall c | c in AllOnCodes :: c in Protocol
    ensures forall c | c in AllOffCodes :: c in Protocol
    ensures forall t: real :: forall c | c in FanRule(t) :: c in Protocol
  {
  }

  lemma WritesInProtocol(codes: seq<char>)
    requires forall c | c in codes :: c in Protocol
    ensures forall e | e in Writes(codes) :: e.Write? ==> e.code in Protocol
  {
    forall e | e in Writes(codes) && e.Write? ensures e.code in Protocol {
      var i :| 0 <= i < |codes| && Writes(codes)[i] == e;
      assert codes[i] in codes;
    }
  }

  lemma WeatherStepWritesOnlyProtocol(mode: Mode, env: Env)
    ensures forall e | e in WeatherStep(mode, env).events :: e.Write? ==> e.code in Protocol
  {
    var city := Strip(env.city);
    if city != "" {
      match Classify(env.reply, city, ResolveCity(city))
      case Failure(_) =>
      case Success(info) =>
        FixedCodesInProtocol();
        WritesInProtocol(ClimateCodes(info));
    }
  }

  lemma DispatchWritesOnlyProtocol(mode: Mode, command: string, raw: string, env: Env)
    ensures forall e | e in Dispatch(mode, command, raw, env).events :: e.Write? ==> e.code in Protocol
  {
    FixedCodesInProtocol();
    if command == WeatherPhrase {
      WeatherStepWritesOnlyProtocol(mode, env);
    } else if command == AllOnPhrase {
      WritesInProtocol(AllOnCodes);
    } else if command == AllOffPhrase {
      WritesInProtocol(AllOffCodes);
    } else if command != ReadLightPhrase {
      CatalogCodesInProtocol();
    }
  }

  /** Whatever is typed or said, only the bytes of the protocol reach the serial line. */
  lemma StepWritesOnlyProtocol(mode: Mode, raw: string, env: Env)
    ensures forall e | e in Step(mode, raw, env).events :: e.Write? ==> e.code in Protocol
  {
    if raw != "" && !IsControl(StripLower(raw)) {
      StepDispatches(mode, raw, env);
      DispatchWritesOnlyProtocol(mode, Normalize(raw), raw, env);
    }
  }

  // ---- scenarios ----

  lemma EnciendeSalaLowered()
    ensures StripLower("Enciende Sala") == "enciende sala"
  {
    StripKeepsTrimmed("Enciende Sala");
    assert LowerChar('E') == 'e' && LowerChar('S') == 's';
  }

  lemma EnciendeSalaFacts()
    ensures IsSynonym("enciende sala") && SynonymTarget("enciende sala") == Some("encender sala")
  {
    EnciendeSalaNotInLaterBlocks();
    EnciendeSalaNotInRoomBlocks();
  }

  lemma EncenderSalaCode()
    ensures CommandCode("encender sala") == Some('A')
  {
  }

  lemma EnciendeSalaNotInLaterBlocks()
    ensures "enciende sala" !in ManualLightSynonyms && "enciende sala" !in AutoLightSynonyms
    ensures "enciende sala" !in EverythingSynonyms && "enciende sala" !in DoorSynonyms
  {
  }

  lemma EnciendeSalaNotInRoomBlocks()
    ensures "enciende sala" !in FanSynonyms && "enciende sala" !in GarageSynonyms
    ensures "enciende sala" !in RoomTwoSynonyms && "enciende sala" !in RoomOneSynonyms
  {
  }

  lemma EnciendeSalaNotControl()
    ensures !IsControl("enciende sala")
  {
  }

  /** "enciende sala", in any case and with any surrounding space, switches on the living-room light: one `A`. */
  lemma EnciendeSalaTurnsOnLight(mode: Mode, raw: string, env: Env)
    requires StripLower(raw) == "enciende sala"
    ensures Step(mode, raw, env).events == [Write('A')]
  {
    EnciendeSalaFacts();
    EncenderSalaCode();
    EnciendeSalaNotControl();
    SynonymSendsTargetCode(mode, raw, env);
  }

  lemma AtlantisIsNoAlias()
    ensures "atlantis" !in CityAliases
  {
  }

  /** An unknown city is sent as typed; the service's 404 is reported and nothing is written. */
  lemma UnknownCityNotFound(mode: Mode, raw: string, env: Env, body: Body)
    requires raw != "" && StripLower(raw) == WeatherPhrase
    requires env.city == "Atlantis" && env.reply == Response(404, body)
    ensures Step(mode, raw, env) ==
      StepResult(Running(mode), [], Some("Atlantis"), WeatherFailed(CityNotFound("Atlantis", "Atlantis")))
  {
    WeatherDispatch(mode, raw, env);
    AtlantisNotFound(mode, env, body);
  }

  lemma AtlantisNotFound(mode: Mode, env: Env, body: Body)
    requires env.city == "Atlantis" && env.reply == Response(404, body)
    ensures WeatherStep(mode, env) ==
      StepResult(Running(mode), [], Some("Atlantis"), WeatherFailed(CityNotFound("Atlantis", "Atlantis")))
  {
    AtlantisSentAsTyped();
    ClassifyFailures("Atlantis", "Atlantis", body);
    WeatherStepFails(mode, env);
  }

  lemma WeatherPhraseLowered()
    ensures StripLower("clima") == WeatherPhrase
  {
    assert IsNormalForm(WeatherPhrase);
    NormalFormIsFixedPoint(WeatherPhrase);
  }

  lemma AtlantisSentAsTyped()
    ensures Strip("Atlantis") == "Atlantis" && ResolveCity("Atlantis") == "Atlantis"
  {
    StripKeepsTrimmed("Atlantis");
    assert StripLower("Atlantis") == "atlantis" by {
      StripKeepsTrimmed("Atlantis");
      assert LowerChar('A') == 'a';
    }
    AtlantisIsNoAlias();
  }

  lemma WeatherStepFails(mode: Mode, env: Env)
    requires Strip(env.city) != ""
    requires Classify(env.reply, Strip(env.city), ResolveCity(Strip(env.city))).Failure?
    ensures WeatherStep(mode, env) == StepResult(Running(mode), [], Some(ResolveCity(Strip(env.city))),
      WeatherFailed(Classify(env.reply, Strip(env.city), ResolveCity(Strip(env.city))).error))
  {
  }

  // ---- the loop ----

  lemma AppendAssociates<T>(a: seq<T>, b: seq<T>, c: seq<T>)
    ensures (a + b) + c == a + (b + c)
  {
  }

  lemma PrependTwice(e1: seq<Event>, q1: seq<string>, o1: seq<Outcome>, e2: seq<Event>, q2: seq<string>, o2: seq<Outcome>, t: Trace)
    ensures Prepend(e1, q1, o1, Prepend(e2, q2, o2, t)) == Prepend(e1 + e2, q1 + q2, o1 + o2, t)
  {
    assert e1 + (e2 + t.events) == (e1 + e2) + t.events;
    assert q1 + (q2 + t.queries) == (q1 + q2) + t.queries;
    assert o1 + (o2 + t.outcomes) == (o1 + o2) + t.outcomes;
  }

  /** The loop handles the cycles one after the other; once stopped, it ignores the rest. */
  lemma {:induction false} LoopAppend(step: (Mode, Cycle) -> StepResult, mode: Mode, a: seq<Cycle>, b: seq<Cycle>)
    ensures Loop(step, mode, a).final == Stopped ==> Loop(step, mode, a + b) == Loop(step, mode, a)
    ensures Loop(step, mode, a).final.Running? ==>
      var ra := Loop(step, mode, a);
      Loop(step, mode, a + b) == Prepend(ra.events, ra.queries, ra.outcomes, Loop(step, ra.final.mode, b))
    decreases |a|
  {
    if a == [] {
      assert a + b == b;
    } else {
      assert (a + b)[0] == a[0];
      assert (a + b)[1..] == a[1..] + b;
      var s := step(mode, a[0]);
      if s.next.Running? {
        var rest := Loop(step, s.next.mode, a[1..]);
        LoopAppend(step, s.next.mode, a[1..], b);
        if rest.final.Running? {
          PrependTwice(s.events, QueryList(s.query), [s.outcome], rest.events, rest.queries, rest.outcomes,
                       Loop(step, rest.final.mode, b));
        }
      }
    }
  }

  /** One outcome per cycle handled; when each stop reports `Closing`, a stopped loop ends on it. */
  lemma {:induction false} LoopOutcomes(step: (Mode, Cycle) -> StepResult, mode: Mode, cycles: seq<Cycle>)
    requires forall m, c :: step(m, c).next == Stopped ==> step(m, c).outcome == Closing
    ensures |Loop(step, mode, cycles).outcomes| <= |cycles|
    ensures Loop(step, mode, cycles).final.Running? ==> |Loop(step, mode, cycles).outcomes| == |cycles|
    ensures Loop(step, mode, cycles).final == Stopped ==>
      |Loop(step, mode, cycles).outcomes| > 0 &&
      Loop(step, mode, cycles).outcomes[|Loop(step, mode, cycles).outcomes| - 1] == Closing
    decreases |cycles|
  {
    if cycles != [] {
      var s := step(mode, cycles[0]);
      if s.next.Running? {
        LoopOutcomes(step, s.next.mode, cycles[1..]);
      }
    }
  }

  /** When no single iteration writes a byte outside the protocol, the whole loop writes none. */
  lemma {:induction false} LoopWritesOnlyProtocol(step: (Mode, Cycle) -> StepResult, mode: Mode, cycles: seq<Cycle>)
    requires forall m, c, e | e in step(m, c).events :: e.Write? ==> e.code in Protocol
    ensures forall e | e in Loop(step, mode, cycles).events :: e.Write? ==> e.code in Protocol
    decreases |cycles|
  {
    if cycles != [] {
      var s := step(mode, cycles[0]);
      if s.next.Running? {
        LoopWritesOnlyProtocol(step, s.next.mode, cycles[1..]);
      }
    }
  }

  /** Sessions compose: the cycles after a quit are never read. */
  lemma RunAppend(mode: Mode, a: seq<Cycle>, b: seq<Cycle>)
    ensures Run(mode, a).final == Stopped ==> Run(mode, a + b) == Run(mode, a)
    ensures Run(mode, a).final.Running? ==>
      Run(mode, a + b) == Prepend(Run(mode, a).events, Run(mode, a).queries, Run(mode, a).outcomes, Run(Run(mode, a).final.mode, b))
  {
    LoopAppend(Advance, mode, a, b);
  }

  lemma AdvanceStopsWithClosing()
    ensures forall m, c :: Advance(m, c).next == Stopped ==> Advance(m, c).outcome == Closing
  {
    forall m, c | Advance(m, c).next == Stopped ensures Advance(m, c).outcome == Closing {
      QuitWordStops(m, RawInput(m, c.heard, c.typed), c.env);
    }
  }

  /** A session yields one outcome per cycle it read, and one that stopped ends on `Closing`. */
  lemma RunOutcomes(mode: Mode, cycles: seq<Cycle>)
    ensures |Run(mode, cycles).outcomes| <= |cycles|
    ensures Run(mode, cycles).final.Running? ==> |Run(mode, cycles).outcomes| == |cycles|
    ensures Run(mode, cycles).final == Stopped ==>
      |Run(mode, cycles).outcomes| > 0 && Run(mode, cycles).outcomes[|Run(mode, cycles).outcomes| - 1] == Closing
  {
    AdvanceStopsWithClosing();
    LoopOutcomes(Advance, mode, cycles);
  }

  /** Over a whole session, only the protocol's bytes reach the serial line. */
  lemma RunWritesOnlyProtocol(mode: Mode, cycles: seq<Cycle>)
    ensures forall e | e in Run(mode, cycles).events :: e.Write? ==> e.code in Protocol
  {
    forall m, c ensures forall e | e in Advance(m, c).events :: e.Write? ==> e.code in Protocol {
      StepWritesOnlyProtocol(m, RawInput(m, c.heard, c.typed), c.env);
    }
    LoopWritesOnlyProtocol(Advance, mode, cycles);
  }

  /** A loop whose first iteration keeps running goes on with the rest of the cycles in the new mode. */
  lemma LoopContinues(step: (Mode, Cycle) -> StepResult, mode: Mode, cycles: seq<Cycle>)
    requires cycles != [] && step(mode, cycles[0]).next.Running?
    ensures var s := step(mode, cycles[0]);
      Loop(step, mode, cycles) == Prepend(s.events, QueryList(s.query), [s.outcome], Loop(step, s.next.mode, cycles[1..]))
  {
  }

  lemma TypedSwitchToVoice(c: Cycle)
    requires StripLower(c.typed) in VoiceWords
    ensures Advance(Typed, c) == StepResult(Running(Voice), [], None, ModeChanged(Voice))
  {
    TypedInputIsNormal(c.heard, c.typed);
    SwitchWordsSelectMode(Typed, RawInput(Typed, c.heard, c.typed), c.env);
  }

  /**
   * In typed mode the loop receives the line stripped and lower-cased, whatever the
   * microphone heard, so the second `strip().lower()` of the loop leaves it as it is.
   */
  lemma TypedInputIsNormal(heard: Option<string>, typed: string)
    ensures RawInput(Typed, heard, typed) == StripLower(typed)
    ensures IsNormalForm(RawInput(Typed, heard, typed))
    ensures StripLower(RawInput(Typed, heard, typed)) == RawInput(Typed, heard, typed)
  {
    StripLowerIsNormal(typed);
    StripLowerIdempotent(typed);
  }

  /** After a typed switch to voice the next cycle is read from the microphone; its typed line is ignored. */
  lemma SwitchToVoiceThenListen(c0: Cycle, c1: Cycle)
    requires StripLower(c0.typed) in VoiceWords
    ensures Run(Typed, [c0, c1]) == Prepend([], [], [ModeChanged(Voice)], Run(Voice, [c1]))
  {
    TypedSwitchToVoice(c0);
    assert [c0, c1][1..] == [c1];
    LoopContinues(Advance, Typed, [c0, c1]);
  }

  /** One iteration of a loop that reached `total` so far: the trace ahead shrinks by one cycle. */
  lemma LoopStepsOnce(step: (Mode, Cycle) -> StepResult, total: Trace, events: seq<Event>, queries: seq<string>,
                      outcomes: seq<Outcome>, mode: Mode, cycles: seq<Cycle>, i: nat)
    requires i < |cycles|
    requires total == Prepend(events, queries, outcomes, Loop(step, mode, cycles[i..]))
    ensures var s := step(mode, cycles[i]);
      var events', queries', outcomes' := events + s.events, queries + QueryList(s.query), outcomes + [s.outcome];
      (s.next == Stopped ==> total == Trace(Stopped, events', queries', outcomes')) &&
      (s.next.Running? ==> total == Prepend(events', queries', outcomes', Loop(step, s.next.mode, cycles[i + 1..])))
  {
    var s := step(mode, cycles[i]);
    assert cycles[i..][0] == cycles[i];
    assert cycles[i..][1..] == cycles[i + 1..];
    if s.next.Running? {
      PrependTwice(events, queries, outcomes, s.events, QueryList(s.query), [s.outcome], Loop(step, s.next.mode, cycles[i + 1..]));
    }
  }
}
