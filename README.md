# casa_domotica — command interpretation and actuation, modelled in Dafny

`casa_domotica.py` is a home-automation console. It reads either a voice transcript or a typed line. It normalizes the line through a catalog of canonical Spanish phrases (`comandos`) and a table of alternative phrases (`sinonimos`). Then it writes one-byte commands to the microcontroller over a serial port.

A few phrases are handled by the program itself:

- `clima` asks for a city, queries a weather service, and drives the fan and the temperature alarm from the answer.
- `leer luz` writes `L` and reads back the light sensor's value.
- `encender todo` and `apagar todo` write six bytes each, in a fixed order.
- Program-control words quit, show the menu, or switch between voice and typed input.

This project models that core and proves what it does.

| file | module | contents |
|---|---|---|
| `common.dfy` | `Common` | `Option` and `Result` |
| `text.dfy` | `Text` | `str.strip()` / `str.lower()` and their laws (shape, idempotence, fixed points) |
| `catalog.dfy` | `Catalog` | the two tables, kept in the blocks the source groups them in; `normalizar_comando` (`Normalize`); the table invariants |
| `weather.dfy` | `Weather` | the temperature rule, city aliases, and classification of the service's reply; the as-written and corrected reaction to a reply |
| `device.dfy` | `Device` | device events; the serial port as a class `Link` with an event log; the loops of `encender_todo` / `apagar_todo` |
| `session.dfy` | `Session` | one iteration of `main` as the function `Step`, and a whole session as `Run` over a finite sequence of input cycles |
| `session_properties.dfy` | `SessionProperties` | what an iteration and a session guarantee |
| `program.dfy` | `Program` | the class `Controller`: the loop run imperatively on a `Link`, each method proved equal to `Step` / `Run` |

How the outside world enters the model:

- Everything the outside world supplies during an iteration is an input, bundled in `Session.Env`:
  - the line typed at the `Ciudad:` prompt
  - the weather service's reply, already decoded into `Weather.Reply`
  - the line the microcontroller sends back after `L`
- A `Session.Cycle` adds what the microphone heard (`None` when recognition failed) and the typed line.
- The input mode decides which of these two is read.

## Model

| member | source | states |
|---|---|---|
| Text.Lower | casa_domotica.py:276 | `str.lower()` character by character; its contract is `LowerChar` for each character, with `LowerKeepsLowered`, `StripLowerIsNormal` and `NormalFormIsFixedPoint` |
| Text.TrimLeft | casa_domotica.py:276 | `lstrip()`; no contract of its own, its properties are `TrimLeftShape` |
| Text.TrimRight | casa_domotica.py:276 | `rstrip()`; no contract of its own, its properties are `TrimRightShape` |
| Text.Strip | casa_domotica.py:276 | `strip()`; no contract of its own, its properties are `StripShape`, `StripKeepsTrimmed`, `StripIdempotent` and `StripEmptyIffAllSpace` |
| Text.StripLower | casa_domotica.py:276 | `strip().lower()`; its properties are `StripLowerIsNormal`, `StripLowerIdempotent` and `NormalFormIsFixedPoint` |
| Text.LowerChar | casa_domotica.py:276 | the lowered character is never upper-case, only upper-case letters change, and whitespace is preserved |
| Text.TrimLeftShape | casa_domotica.py:276 | `lstrip` leaves a suffix that starts with a non-space; everything it drops is whitespace |
| Text.TrimRightShape | casa_domotica.py:276 | `rstrip` leaves a prefix that ends with a non-space; everything it drops is whitespace |
| Text.StripShape | casa_domotica.py:276 | `strip()` returns the contiguous slice between an all-space prefix and an all-space suffix, and that slice neither starts nor ends with a space |
| Text.StripKeepsTrimmed | casa_domotica.py:276 | a string with no space at either end is left unchanged by `strip()` |
| Text.StripIdempotent | casa_domotica.py:361 | stripping twice equals stripping once |
| Text.LowerKeepsLowered | casa_domotica.py:276 | a string with no upper-case letter is left unchanged by `lower()` |
| Text.NormalFormIsFixedPoint | casa_domotica.py:276 | `strip().lower()` leaves a string unchanged exactly when it has no upper-case letter and no space at either end (both directions) |
| Text.StripLowerIsNormal | casa_domotica.py:276 | `strip().lower()` always yields that normal form |
| Text.StripLowerIdempotent | casa_domotica.py:335 | applying `strip().lower()` again (typed input is lowered at line 303 and again at line 335) changes nothing |
| Text.StripEmptyIffAllSpace | casa_domotica.py:361-362 | the city is empty after `strip()` exactly when it is all whitespace (both directions) |
| Catalog.CommandCode | casa_domotica.py:43-72 | the `comandos` lookup; its properties are `CommandKeysNormal`, `SpecialPhrasesNotCommands` and `SessionProperties.CatalogCodesInProtocol` |
| Catalog.SynonymTarget | casa_domotica.py:75-134 | the `sinonimos` lookup; its properties are `SynonymKeysNormal`, `SynonymsAvoidCatalog` and `SynonymTargetsExist` |
| Catalog.Normalize | casa_domotica.py:275-281 | `normalizar_comando`; its contract is the lemmas `NormalizeResult`, `NormalizeKeepsCommands`, `NormalizeFixesCatalogKeys`, `NormalizeResolvesSynonyms`, `NormalizeResolvesSynonymKeys`, `NormalizeKeepsUnknownText`, `NormalizeIdempotent` and `NormalizeIgnoresCaseAndSpace` |
| Catalog.CommandKeysNormal | casa_domotica.py:43-72 | every `comandos` key is in normal form, so typed input can reach it |
| Catalog.SynonymKeysNormal | casa_domotica.py:75-134 | every `sinonimos` key is in normal form |
| Catalog.SynonymsAvoidCatalog | casa_domotica.py:43-134 | no phrase is both a synonym key and a catalog key |
| Catalog.SynonymTargetsExist | casa_domotica.py:75-134 | every synonym target is a catalog key or one of `encender todo` / `apagar todo` |
| Catalog.SpecialPhrasesOutsideTables | casa_domotica.py:360-406 | `clima`, `leer luz`, `encender todo`, `apagar todo` are in neither table |
| Catalog.SpecialPhrasesNotCommands | casa_domotica.py:43-72 | the four special phrases are not `comandos` keys |
| Catalog.TargetsNormal | casa_domotica.py:43-134 | every catalog key and composite phrase is in normal form |
| Catalog.NormalizeResult | casa_domotica.py:275-281 | the result is in normal form, and it is either a valid target, or the stripped, lower-cased input when that input is in neither table |
| Catalog.NormalizeKeepsCommands | casa_domotica.py:277-278 | a catalog phrase, in any case and with any surrounding space, normalizes to itself stripped and lower-cased |
| Catalog.NormalizeFixesCatalogKeys | casa_domotica.py:275-278 | every `comandos` key normalizes to itself |
| Catalog.NormalizeResolvesSynonyms | casa_domotica.py:279-280 | a synonym, after strip and lower, normalizes to `sinonimos[s]`, which is a valid target |
| Catalog.NormalizeResolvesSynonymKeys | casa_domotica.py:279-280 | every `sinonimos` key normalizes to its target |
| Catalog.NormalizeKeepsUnknownText | casa_domotica.py:281 | text in neither table normalizes to its stripped, lower-cased form |
| Catalog.NormalizeIdempotent | casa_domotica.py:275-281 | normalizing a normalized command changes nothing |
| Catalog.NormalizeIgnoresCaseAndSpace | casa_domotica.py:276 | inputs that agree after strip and lower normalize alike |
| Weather.FanRule | casa_domotica.py:380-389 | a known temperature writes `[V, H]` or `[v]`, with `V` exactly when temp >= 25.0 |
| Weather.ThresholdIsInclusive | casa_domotica.py:30 | 25.0 itself switches the fan and the alarm on; 20.0 switches the fan off |
| Weather.ResolveCity | casa_domotica.py:218-227 | after strip and lower, `cdmx`, `ciudad de mexico`, `méxico` and `mexico` resolve to `Mexico City,MX` and `tokio` to `Tokyo,JP`; any other city is sent unchanged |
| Weather.AliasKeys | casa_domotica.py:218-224 | the alias table has exactly those five keys, so the three cases of `ResolveCity` cover every city |
| Weather.ResolveCityIgnoresCase | casa_domotica.py:226-227 | alias spellings that agree after strip and lower resolve alike |
| Weather.ResolveCdmxAnyCase | casa_domotica.py:219 | `cdmx` in any case and spacing resolves to `Mexico City,MX` |
| Weather.ResolveCdmx | casa_domotica.py:219 | `CDMX` resolves to `Mexico City,MX` |
| Weather.ResolveMexicoWithAccent | casa_domotica.py:221 | `MÉXICO` lowers to the accented alias and resolves to `Mexico City,MX` |
| Weather.ResolveTokio | casa_domotica.py:223 | `Tokio` resolves to `Tokyo,JP` |
| Weather.Classify | casa_domotica.py:242-269 | a result exactly when the status is 200 and the body has `main` and `weather`; the result carries the readings and the reported name, or the query when no name came back |
| Weather.ClassifyFailures | casa_domotica.py:236-257 | network error, 401, 404, any other non-200 status, and a missing key each give their own failure |
| Weather.ClassifyWithoutConditions | casa_domotica.py:261-262 | an empty `weather` list gives the description `Sin descripción` |
| Weather.ActAsWritten | casa_domotica.py:376-389 | as written, the program survives the reply exactly when both temperatures are present |
| Weather.ClimateCodes | casa_domotica.py:380-389 | intended rule: nothing is written exactly when the temperature is missing; the alarm `H` is written exactly for a temperature at or above 25.0, and the fan-off `v` exactly for one below it |
| Weather.AsWrittenGuardIsDead | casa_domotica.py:381 | as written, the `temp is None` branch of the guard is unreachable |
| Weather.MissingFeelingCounterexample | casa_domotica.py:376-377 | a reply with `temp` but no `feels_like` aborts the program as written before any write, while the intended rule writes `V`, `H` for 30.0 |
| Weather.MissingTemperatureCounterexample | casa_domotica.py:376-381 | a reply without `temp` aborts the program as written, while the intended rule writes nothing |
| Weather.ClimateCodesAgreeWhenDefined | casa_domotica.py:380-389 | wherever the as-written program survives, it writes the same bytes as the intended rule |
| Device.Writes | casa_domotica.py:311-312 | event i is the write of byte i, and there is one event per byte |
| Device.AllOnWrites | casa_domotica.py:311 | `encender_todo` writes A, B, C, D, V, P in that order |
| Device.AllOffWrites | casa_domotica.py:317 | `apagar_todo` writes a, b, c, d, v, p in that order |
| Device.Link.constructor | casa_domotica.py:36 | a freshly opened port has an empty log |
| Device.Link.Write | casa_domotica.py:312 | `ser.write` appends one write event to the log |
| Device.Link.ReadLine | casa_domotica.py:396 | `ser.readline` appends one read event to the log |
| Device.WriteAll | casa_domotica.py:311-313 | the loop appends exactly `Writes(codes)` to the log, in order |
| Device.TurnAllOn | casa_domotica.py:309-314 | appends exactly the six writes of `encender_todo` |
| Device.TurnAllOff | casa_domotica.py:316-320 | appends exactly the six writes of `apagar_todo` |
| Session.WeatherStep | casa_domotica.py:360-391 | the mode is kept; the service is queried exactly when the stripped city is non-empty, and then with the alias-resolved city |
| Session.Step | casa_domotica.py:329-412 | the session stops exactly on a quit word; the service is queried only for input that normalizes to `clima` and is not a control word |
| Session.Dispatch | casa_domotica.py:359-412 | the command branches never stop the session or change the mode, and only `clima` queries the service |
| Session.RawInput | casa_domotica.py:296-303 | `pedir_entrada_cruda`; its typed-mode property is `SessionProperties.TypedInputIsNormal`, and `SessionProperties.SwitchToVoiceThenListen` shows the mode selecting the source of the next line |
| Session.Advance | casa_domotica.py:330-412 | one pass of the loop: read the input the mode asks for, then `Step`; its stop property is `SessionProperties.AdvanceStopsWithClosing` |
| Session.Loop | casa_domotica.py:329-412 | the `while True` loop over finite cycles, ending at `break`; its properties are `SessionProperties.LoopAppend`, `LoopOutcomes`, `LoopWritesOnlyProtocol`, `LoopContinues` and `LoopStepsOnce` |
| Session.Run | casa_domotica.py:326-412 | `main` from a chosen initial mode; its properties are `SessionProperties.RunAppend`, `RunOutcomes`, `RunWritesOnlyProtocol` and `SwitchToVoiceThenListen`, and `Program.Controller.RunSession` is proved equal to it |
| SessionProperties.CommandOfRaw | casa_domotica.py:335-357 | lowering at line 335 before `normalizar_comando` does not change the normalized command |
| SessionProperties.StepDispatches | casa_domotica.py:335-357 | past the control words, the iteration depends on the normalized command alone |
| SessionProperties.SpecialPhraseReachesLoop | casa_domotica.py:357-406 | the four special phrases pass normalization unchanged and are not control words |
| SessionProperties.SpecialPhrasesNotControl | casa_domotica.py:338-354 | no special phrase is a control word |
| SessionProperties.EmptyInputIgnored | casa_domotica.py:332-333 | empty input writes nothing, queries nothing and keeps the mode |
| SessionProperties.QuitWordStops | casa_domotica.py:338-340 | `salir` / `exit` / `quit`, in any case and spacing, stop the session with no other effect |
| SessionProperties.SwitchWordsSelectMode | casa_domotica.py:346-354 | the switch words set the mode they name and have no other effect |
| SessionProperties.ModeChangesOnlyOnSwitch | casa_domotica.py:346-354 | the mode changes only on a switch word, and only to the mode that word names |
| SessionProperties.ControlWordsStayLocal | casa_domotica.py:337-354 | control words never write to the device or query the service |
| SessionProperties.CatalogCommandSendsItsCode | casa_domotica.py:409-410 | a command found in `comandos` writes exactly its one byte; line 410 prints nothing, and the outcome `Sent(code)` is the model's own record of that iteration |
| SessionProperties.SynonymSendsTargetCode | casa_domotica.py:279-280 | a synonym of a catalog phrase writes exactly the target's byte |
| SessionProperties.ReadLightQueriesDevice | casa_domotica.py:393-398 | `leer luz` writes `L`, reads one line, and reports it stripped |
| SessionProperties.AllOnSwitchesEverything | casa_domotica.py:400-402 | anything that normalizes to `encender todo` (including `prende todo` / `enciende todo`) writes A B C D V P |
| SessionProperties.AllOffSwitchesEverything | casa_domotica.py:404-406 | anything that normalizes to `apagar todo` (including `apaga todo`) writes a b c d v p |
| SessionProperties.UnknownTextWritesNothing | casa_domotica.py:411-412 | unknown text writes nothing and is reported as the raw input |
| SessionProperties.WeatherDispatch | casa_domotica.py:360 | `clima` in any case runs the weather branch |
| SessionProperties.WeatherNeedsCity | casa_domotica.py:361-364 | an empty city makes no query and writes nothing |
| SessionProperties.WeatherQueriesResolvedCity | casa_domotica.py:361-368 | the query is the alias-resolved city, and a failed reply writes nothing and reports its error |
| SessionProperties.WeatherDrivesFan | casa_domotica.py:380-389 | a usable reply writes `[V, H]` at or above 25.0, `[v]` below it, and nothing without a temperature |
| SessionProperties.WeatherShowsReading | casa_domotica.py:370-389 | a usable reply is reported and drives the intended fan rule |
| SessionProperties.FanWrites | casa_domotica.py:381-389 | the fan rule's device events, spelled out for the three cases |
| SessionProperties.WeatherForCdmx | casa_domotica.py:219-227 | the weather for `cdmx`, in any case, queries Mexico City |
| SessionProperties.WeatherStepFails | casa_domotica.py:366-368 | a failed reply ends the weather branch with no writes |
| SessionProperties.DispatchWritesIff | casa_domotica.py:359-412 | a command branch writes exactly when the command is in the catalog, is `leer luz` or a composite phrase, or is `clima` with a city and a reply that has a temperature |
| SessionProperties.WritesIff | casa_domotica.py:329-412 | an iteration writes to the device exactly in those cases, and never for empty input or control words (both directions) |
| SessionProperties.CatalogCodesInProtocol | casa_domotica.py:43-72 | every catalog byte belongs to the device protocol |
| SessionProperties.FixedCodesInProtocol | casa_domotica.py:309-320 | the bulk and fan bytes belong to the protocol |
| SessionProperties.WritesInProtocol | casa_domotica.py:311-312 | writing protocol bytes only produces protocol writes |
| SessionProperties.WeatherStepWritesOnlyProtocol | casa_domotica.py:380-389 | the weather branch writes only protocol bytes |
| SessionProperties.DispatchWritesOnlyProtocol | casa_domotica.py:359-412 | the command branches write only protocol bytes |
| SessionProperties.StepWritesOnlyProtocol | casa_domotica.py:329-412 | whatever is typed or said, an iteration writes only protocol bytes |
| SessionProperties.EnciendeSalaLowered | casa_domotica.py:303 | `Enciende Sala` lowers to `enciende sala` |
| SessionProperties.EnciendeSalaFacts | casa_domotica.py:77 | `enciende sala` is a synonym of `encender sala` |
| SessionProperties.EncenderSalaCode | casa_domotica.py:44 | `encender sala` has the code `A` |
| SessionProperties.EnciendeSalaNotControl | casa_domotica.py:338-354 | `enciende sala` is not a control word |
| SessionProperties.EnciendeSalaTurnsOnLight | casa_domotica.py:77 | `enciende sala`, in any case and spacing, writes exactly one `A` |
| SessionProperties.AtlantisIsNoAlias | casa_domotica.py:218-224 | `atlantis` is not an alias |
| SessionProperties.AtlantisSentAsTyped | casa_domotica.py:226-227 | the city `Atlantis` is sent exactly as typed |
| SessionProperties.AtlantisNotFound | casa_domotica.py:245-247 | a 404 for `Atlantis` reports the city and the query, with no writes |
| SessionProperties.UnknownCityNotFound | casa_domotica.py:360-368 | `clima` followed by an unknown city answered with 404 queries the city as typed, writes nothing and keeps running |
| SessionProperties.WeatherPhraseLowered | casa_domotica.py:360 | `clima` is already in normal form |
| SessionProperties.LoopAppend | casa_domotica.py:329-412 | the loop handles the cycles in order; after a stop, no further cycle is read |
| SessionProperties.LoopOutcomes | casa_domotica.py:329-340 | one outcome per cycle read; a stopped loop ends on its closing report |
| SessionProperties.LoopWritesOnlyProtocol | casa_domotica.py:329-412 | if each iteration writes only protocol bytes, so does the loop |
| SessionProperties.RunAppend | casa_domotica.py:329-412 | sessions compose; the cycles after a quit are never read |
| SessionProperties.AdvanceStopsWithClosing | casa_domotica.py:338-340 | the only way an iteration stops is the closing report |
| SessionProperties.RunOutcomes | casa_domotica.py:329-340 | a session reports once per cycle it reads, and a stopped one ends on `Closing` |
| SessionProperties.RunWritesOnlyProtocol | casa_domotica.py:329-412 | a whole session writes only protocol bytes |
| SessionProperties.LoopContinues | casa_domotica.py:329-330 | an iteration that keeps running hands the rest of the cycles to the next iteration, in the new mode |
| SessionProperties.TypedSwitchToVoice | casa_domotica.py:346-349 | in typed mode, a typed voice switch selects voice mode |
| SessionProperties.TypedInputIsNormal | casa_domotica.py:303 | in typed mode every line reaches the loop stripped and lower-cased, in normal form, so the second `strip().lower()` at line 335 leaves it unchanged |
| SessionProperties.SwitchToVoiceThenListen | casa_domotica.py:296-303 | after a typed switch to voice, the next cycle is read from the microphone |
| SessionProperties.LoopStepsOnce | casa_domotica.py:329-330 | one more iteration moves one cycle from the remaining trace into the trace so far |
| Program.Controller.constructor | casa_domotica.py:326-327 | the loop starts running in the chosen initial mode |
| Program.Controller.ReportWeather | casa_domotica.py:360-391 | appends to the port log, and reports and queries, exactly what `WeatherStep` describes |
| Program.Controller.DriveFan | casa_domotica.py:380-389 | appends exactly the writes of the intended fan rule |
| Program.Controller.Perform | casa_domotica.py:359-412 | appends, reports and queries exactly what `Dispatch` describes |
| Program.Controller.Handle | casa_domotica.py:330-412 | one loop pass does exactly what `Step` describes, to the log and to the mode, and stops exactly on a quit word |
| Program.Controller.RunSession | casa_domotica.py:329-412 | the loop over the cycles leaves the log, outcomes and queries that `Run` describes, and ends stopped exactly when `Run` does |

## Left out

- Serial port setup and baud rate (lines 36-37) are left out: the port is the event log of `Device.Link`.
- The `time.sleep` delays are left out. The model keeps only the order of events.
- Speech recognition is left out (`escuchar_comando`, lines 184-211). Audio capture and the recognition service are foreign I/O. The transcript is an input; `None` stands for a microphone or recognition failure, which the program turns into `""`.
- The HTTP request and JSON decoding are left out (line 237 and line 253). The decoded body is an input, `Weather.Reply`. These cases are not modelled:
  - `resp.json()` failing on a body that is not JSON
  - a `main` value that is not an object
  - a `weather` list whose first element is not an object
- The `.env` loading and the exit on a missing API key (lines 14-22) are left out as process bootstrap.
- The banner, the menu and every console message are left out. Each iteration's report is the `Session.Outcome` value instead.
- Interactive input is left out:
  - `elegir_modo_entrada_inicial` (lines 287-294) does not appear; the initial mode is the parameter of `Session.Run` and of `Program.Controller.constructor`.
  - The typed line, the city line and the serial answer are inputs.
- `Session.Run`: the `while True` loop runs over a finite sequence of cycles. The model's session also ends when the cycles run out, which the program itself never does.
- `Text.Lower` lowers only ASCII and Latin-1 capitals; Python's full Unicode lowercasing is not modelled. Other scripts, characters whose lower case is longer, and characters that Python lowers into ASCII are left as they are. For example, Python lowers KELVIN SIGN U+212A to `k`, so the program sends `To\u212Aio` as `Tokyo,JP`, while the model sends it unchanged. `Text.Strip` uses Python's exact whitespace set.
- Temperatures are `real` values. Float rounding and the `:.1f` formatting are left out; only the comparison at line 382 matters.
- Exceptions from `ser.write`, and `ser.readline().decode()` failing on bytes that are not UTF-8, are left out. The program does not handle either, so it would abort.
- The program has no distance-reading command. None is modelled.
- `Session.WeatherStep` describes the corrected reaction to a reply (`Weather.ClimateCodes`), not the program's crash. As written, the program aborts when the reply lacks `temp` or lacks `feels_like` (the `:.1f` formats at lines 376-377). In the second case the model writes the fan bytes, which the program never writes. Both crashes are modelled on their own by `Weather.ActAsWritten`; see Findings. `Session.Step`, `Session.Run`, `Program.Controller.Handle` and `Program.Controller.RunSession` inherit this correction.

## Findings

| source | as written | input that shows it | evidently intended | confidence | as-written member | corrected member |
|---|---|---|---|---|---|---|
| casa_domotica.py:376-381 | The temperature and the feeling temperature are formatted with `:.1f` before the `temp is not None` guard. A `None` value raises `TypeError` and ends the program, so the guard's `None` branch is dead. | A 200 response whose `main` has no `temp` (or no `feels_like`), e.g. `WeatherInfo(None, Some(20.0), Some("nubes"), "Tokyo")`; or one whose `main` has `temp` 30.0 and no `feels_like` | A missing temperature writes nothing to the device and the session goes on, as the guard at line 381 intends. A missing feeling temperature is only display: the fan rule still applies to the temperature, which gives `V`, `H` at 30.0 | not executed | Weather.ActAsWritten, Weather.MissingTemperatureCounterexample, Weather.MissingFeelingCounterexample | Weather.ClimateCodes |
