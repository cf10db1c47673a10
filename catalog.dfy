/**
 * The command catalog (`comandos`), the synonym table (`sinonimos`) and the
 * normalizer (`normalizar_comando`).
 *
 * Each table is kept as the blocks the source separates with comments, one `map`
 * per block, and a lookup searches the blocks from the last to the first, so that a
 * later entry would win as it does in a Python dict literal.
 */
module Catalog {
  import opened Common
  import opened Text

  // ---- comandos: canonical phrase -> the one byte sent to the microcontroller ----

  const RoomLightCodes: map<string, char> := map[
    "encender sala" := 'A', "apagar sala" := 'a',
    "encender cuarto1" := 'B', "apagar cuarto1" := 'b',
    "encender cuarto2" := 'C', "apagar cuarto2" := 'c']

  const ActuatorCodes: map<string, char> := map[
    "encender garaje" := 'D', "apagar garaje" := 'd',
    "encender ventilador" := 'V', "apagar ventilador" := 'v',
    "abrir puerta" := 'P', "cerrar puerta" := 'p']

  const AutoLightCodes: map<string, char> := map[
    "activar modo automatico luz" := 'M',
    "modo automatico luz" := 'M',
    "modo automatico" := 'M']

  const ManualLightCodes: map<string, char> := map[
    "desactivar modo automatico luz" := 'm',
    "modo manual luz" := 'm',
    "modo manual" := 'm']

  // ---- sinonimos: alternate phrase -> canonical phrase ----

  const SalaSynonyms: map<string, string> := map[
    "enciende sala" := "encender sala",
    "prende sala" := "encender sala",
    "apaga sala" := "apagar sala"]

  const RoomOneSynonyms: map<string, string> := map[
    "encender cuarto uno" := "encender cuarto1",
    "enciende cuarto uno" := "encender cuarto1",
    "prende cuarto uno" := "encender cuarto1",
    "apaga cuarto uno" := "apagar cuarto1",
    "encender cuarto 1" := "encender cuarto1",
    "enciende cuarto 1" := "encender cuarto1",
    "prende cuarto 1" := "encender cuarto1",
    "apaga cuarto 1" := "apagar cuarto1"]

  const RoomTwoSynonyms: map<string, string> := map[
    "encender cuarto dos" := "encender cuarto2",
    "enciende cuarto dos" := "encender cuarto2",
    "prende cuarto dos" := "encender cuarto2",
    "apaga cuarto dos" := "apagar cuarto2",
    "encender cuarto 2" := "encender cuarto2",
    "enciende cuarto 2" := "encender cuarto2",
    "prende cuarto 2" := "encender cuarto2",
    "apaga cuarto 2" := "apagar cuarto2"]

  const GarageSynonyms: map<string, string> := map[
    "enciende cochera" := "encender garaje",
    "prende cochera" := "encender garaje",
    "apaga cochera" := "apagar garaje",
    "enciende garaje" := "encender garaje",
    "prende garaje" := "encender garaje",
    "apaga garaje" := "apagar garaje"]

  const FanSynonyms: map<string, string> := map[
    "enciende ventilador" := "encender ventilador",
    "prende ventilador" := "encender ventilador",
    "apaga ventilador" := "apagar ventilador"]

  const DoorSynonyms: map<string, string> := map[
    "abre puerta" := "abrir puerta",
    "abre la puerta" := "abrir puerta",
    "cierra puerta" := "cerrar puerta",
    "cierra la puerta" := "cerrar puerta"]

  const EverythingSynonyms: map<string, string> := map[
    "prende todo" := "encender todo",
    "enciende todo" := "encender todo",
    "apaga todo" := "apagar todo"]

  const AutoLightSynonyms: map<string, string> := map[
    "activa modo automatico luz" := "activar modo automatico luz",
    "activar modo automatico de luz" := "activar modo automatico luz",
    "activa modo automatico de luz" := "activar modo automatico luz",
    "activar modo luz automatico" := "activar modo automatico luz"]

  const ManualLightSynonyms: map<string, string> := map[
    "desactiva modo automatico luz" := "desactivar modo automatico luz",
    "desactivar modo automatico de luz" := "desactivar modo automatico luz",
    "modo luz manual" := "modo manual luz"]

  /** `comandos.get(s)`: the byte for a catalog phrase, `None` for anything else. */
  function CommandCode(s: string): Option<char> {
    if s in ManualLightCodes then Some(ManualLightCodes[s])
    else if s in AutoLightCodes then Some(AutoLightCodes[s])
    else if s in ActuatorCodes then Some(ActuatorCodes[s])
    else if s in RoomLightCodes then Some(RoomLightCodes[s])
    else None
  }

  /** `sinonimos.get(s)`: the canonical phrase a synonym stands for. */
  function SynonymTarget(s: string): Option<string> {
    if s in ManualLightSynonyms then Some(ManualLightSynonyms[s])
    else if s in AutoLightSynonyms then Some(AutoLightSynonyms[s])
    else if s in EverythingSynonyms then Some(EverythingSynonyms[s])
    else if s in DoorSynonyms then Some(DoorSynonyms[s])
    else if s in FanSynonyms then Some(FanSynonyms[s])
    else if s in GarageSynonyms then Some(GarageSynonyms[s])
    else if s in RoomTwoSynonyms then Some(RoomTwoSynonyms[s])
    else if s in RoomOneSynonyms then Some(RoomOneSynonyms[s])
    else if s in SalaSynonyms then Some(SalaSynonyms[s])
    else None
  }

  /** `s in comandos` */
  predicate InCatalog(s: string) {
    CommandCode(s).Some?
  }

  /** `s in sinonimos` */
  predicate IsSynonym(s: string) {
    SynonymTarget(s).Some?
  }

  /** The two composite phrases; they are synonym targets but not catalog keys. */
  const AllOnPhrase: string := "encender todo"
  const AllOffPhrase: string := "apagar todo"

  /** The phrases the main loop special-cases before the catalog lookup. */
  const WeatherPhrase: string := "clima"
  const ReadLightPhrase: string := "leer luz"

  /** What a synonym may point at: a catalog key or a composite phrase. */
  predicate IsTarget(s: string) {
    InCatalog(s) || s == AllOnPhrase || s == AllOffPhrase
  }

  // ---- table invariants ----

  /**
   * A cheap summary of a phrase (its length, last and sixth characters).
   * Phrases with different fingerprints differ; the proofs below use it instead of
   * comparing whole strings. No synonym key shares a fingerprint with a catalog key.
   */
  function Fingerprint(s: string): (int, char, char) {
    if |s| > 5 then (|s|, s[|s| - 1], s[5]) else (|s|, ' ', ' ')
  }

  const CatalogFingerprints: set<(int, char, char)> := {
    (13, 'a', 'd'), (11, 'a', 'r'), (16, '1', 'd'), (14, '1', 'r'), (16, '2', 'd'), (14, '2', 'r'),
    (15, 'e', 'd'), (13, 'e', 'r'), (19, 'r', 'd'), (17, 'r', 'r'), (12, 'a', ' '), (13, 'a', 'r'),
    (27, 'z', 'a'), (19, 'z', 'a'), (15, 'o', 'a'), (30, 'z', 't'), (15, 'z', 'm'), (11, 'l', 'm')}

  // Each block is checked by its own small lemmas, one fact each: the verifier
  // establishes these facts on the literal phrases character by character.

  lemma RoomLightCodesNoUpper() ensures forall k | k in RoomLightCodes :: NoUpper(k) {}
  lemma RoomLightCodesTrimmed() ensures forall k | k in RoomLightCodes :: EndsNotSpace(k) {}
  lemma RoomLightCodesFingerprinted() ensures forall k | k in RoomLightCodes :: Fingerprint(k) in CatalogFingerprints {}

  lemma ActuatorCodesNoUpper() ensures forall k | k in ActuatorCodes :: NoUpper(k) {}
  lemma ActuatorCodesTrimmed() ensures forall k | k in ActuatorCodes :: EndsNotSpace(k) {}
  lemma ActuatorCodesFingerprinted() ensures forall k | k in ActuatorCodes :: Fingerprint(k) in CatalogFingerprints {}

  lemma AutoLightCodesNoUpper() ensures forall k | k in AutoLightCodes :: NoUpper(k) {}
  lemma AutoLightCodesTrimmed() ensures forall k | k in AutoLightCodes :: EndsNotSpace(k) {}
  lemma AutoLightCodesFingerprinted() ensures forall k | k in AutoLightCodes :: Fingerprint(k) in CatalogFingerprints {}

  lemma ManualLightCodesNoUpper() ensures forall k | k in ManualLightCodes :: NoUpper(k) {}
  lemma ManualLightCodesTrimmed() ensures forall k | k in ManualLightCodes :: EndsNotSpace(k) {}
  lemma ManualLightCodesFingerprinted() ensures forall k | k in ManualLightCodes :: Fingerprint(k) in CatalogFingerprints {}

  lemma SalaSynonymsNoUpper() ensures forall k | k in SalaSynonyms :: NoUpper(k) {}
  lemma SalaSynonymsTrimmed() ensures forall k | k in SalaSynonyms :: EndsNotSpace(k) {}
  lemma SalaSynonymsFingerprinted() ensures forall k | k in SalaSynonyms :: Fingerprint(k) !in CatalogFingerprints {}
  lemma SalaSynonymsTargets() ensures forall k | k in SalaSynonyms :: IsTarget(SalaSynonyms[k]) {}

  lemma RoomOneSynonymsNoUpper() ensures forall k | k in RoomOneSynonyms :: NoUpper(k) {}
  lemma RoomOneSynonymsTrimmed() ensures forall k | k in RoomOneSynonyms :: EndsNotSpace(k) {}
  lemma RoomOneSynonymsFingerprinted() ensures forall k | k in RoomOneSynonyms :: Fingerprint(k) !in CatalogFingerprints {}
  lemma RoomOneSynonymsTargets() ensures forall k | k in RoomOneSynonyms :: IsTarget(RoomOneSynonyms[k]) {}

  lemma RoomTwoSynonymsNoUpper() ensures forall k | k in RoomTwoSynonyms :: NoUpper(k) {}
  lemma RoomTwoSynonymsTrimmed() ensures forall k | k in RoomTwoSynonyms :: EndsNotSpace(k) {}
  lemma RoomTwoSynonymsFingerprinted() ensures forall k | k in RoomTwoSynonyms :: Fingerprint(k) !in CatalogFingerprints {}
  lemma RoomTwoSynonymsTargets() ensures forall k | k in RoomTwoSynonyms :: IsTarget(RoomTwoSynonyms[k]) {}

  lemma GarageSynonymsNoUpper() ensures forall k | k in GarageSynonyms :: NoUpper(k) {}
  lemma GarageSynonymsTrimmed() ensures forall k | k in GarageSynonyms :: EndsNotSpace(k) {}
  lemma GarageSynonymsFingerprinted() ensures forall k | k in GarageSynonyms :: Fingerprint(k) !in CatalogFingerprints {}
  lemma GarageSynonymsTargets() ensures forall k | k in GarageSynonyms :: IsTarget(GarageSynonyms[k]) {}

  lemma FanSynonymsNoUpper() ensures forall k | k in FanSynonyms :: NoUpper(k) {}
  lemma FanSynonymsTrimmed() ensures forall k | k in FanSynonyms :: EndsNotSpace(k) {}
  lemma FanSynonymsFingerprinted() ensures forall k | k in FanSynonyms :: Fingerprint(k) !in CatalogFingerprints {}
  lemma FanSynonymsTargets() ensures forall k | k in FanSynonyms :: IsTarget(FanSynonyms[k]) {}

  lemma DoorSynonymsNoUpper() ensures forall k | k in DoorSynonyms :: NoUpper(k) {}
  lemma DoorSynonymsTrimmed() ensures forall k | k in DoorSynonyms :: EndsNotSpace(k) {}
  lemma DoorSynonymsFingerprinted() ensures forall k | k in DoorSynonyms :: Fingerprint(k) !in CatalogFingerprints {}
  lemma DoorSynonymsTargets() ensures forall k | k in DoorSynonyms :: IsTarget(DoorSynonyms[k]) {}

  lemma EverythingSynonymsNoUpper() ensures forall k | k in EverythingSynonyms :: NoUpper(k) {}
  lemma EverythingSynonymsTrimmed() ensures forall k | k in EverythingSynonyms :: EndsNotSpace(k) {}
  lemma EverythingSynonymsFingerprinted() ensures forall k | k in EverythingSynonyms :: Fingerprint(k) !in CatalogFingerprints {}
  lemma EverythingSynonymsTargets() ensures forall k | k in EverythingSynonyms :: IsTarget(EverythingSynonyms[k]) {}

  lemma AutoLightSynonymsNoUpper() ensures forall k | k in AutoLightSynonyms :: NoUpper(k) {}
  lemma AutoLightSynonymsTrimmed() ensures forall k | k in AutoLightSynonyms :: EndsNotSpace(k) {}
  lemma AutoLightSynonymsFingerprinted() ensures forall k | k in AutoLightSynonyms :: Fingerprint(k) !in CatalogFingerprints {}
  lemma AutoLightSynonymsTargets() ensures forall k | k in AutoLightSynonyms :: IsTarget(AutoLightSynonyms[k]) {}

  lemma ManualLightSynonymsNoUpper() ensures forall k | k in ManualLightSynonyms :: NoUpper(k) {}
  lemma ManualLightSynonymsTrimmed() ensures forall k | k in ManualLightSynonyms :: EndsNotSpace(k) {}
  lemma ManualLightSynonymsFingerprinted() ensures forall k | k in ManualLightSynonyms :: Fingerprint(k) !in CatalogFingerprints {}
  lemma ManualLightSynonymsTargets() ensures forall k | k in ManualLightSynonyms :: IsTarget(ManualLightSynonyms[k]) {}

  /** Every catalog phrase is reachable: `strip().lower()` leaves it unchanged. */
  lemma CommandKeysNormal()
    ensures forall k | InCatalog(k) :: IsNormalForm(k)
  {
    RoomLightCodesNoUpper(); RoomLightCodesTrimmed();
    ActuatorCodesNoUpper(); ActuatorCodesTrimmed();
    AutoLightCodesNoUpper(); AutoLightCodesTrimmed();
    ManualLightCodesNoUpper(); ManualLightCodesTrimmed();
  }

  /** Every synonym phrase is in normal form too. */
  lemma SynonymKeysNormal()
    ensures forall k | IsSynonym(k) :: IsNormalForm(k)
  {
    SalaSynonymsNoUpper(); SalaSynonymsTrimmed();
    RoomOneSynonymsNoUpper(); RoomOneSynonymsTrimmed();
    RoomTwoSynonymsNoUpper(); RoomTwoSynonymsTrimmed();
    GarageSynonymsNoUpper(); GarageSynonymsTrimmed();
    FanSynonymsNoUpper(); FanSynonymsTrimmed();
    DoorSynonymsNoUpper(); DoorSynonymsTrimmed();
    EverythingSynonymsNoUpper(); EverythingSynonymsTrimmed();
    AutoLightSynonymsNoUpper(); AutoLightSynonymsTrimmed();
    ManualLightSynonymsNoUpper(); ManualLightSynonymsTrimmed();
  }

  lemma CatalogFingerprinted()
    ensures forall k | InCatalog(k) :: Fingerprint(k) in CatalogFingerprints
  {
    RoomLightCodesFingerprinted();
    ActuatorCodesFingerprinted();
    AutoLightCodesFingerprinted();
    ManualLightCodesFingerprinted();
  }

  /** No phrase is both a synonym and a catalog key. */
  lemma SynonymsAvoidCatalog()
    ensures forall k | IsSynonym(k) :: !InCatalog(k)
  {
    CatalogFingerprinted();
    SalaSynonymsFingerprinted();
    RoomOneSynonymsFingerprinted();
    RoomTwoSynonymsFingerprinted();
    GarageSynonymsFingerprinted();
    FanSynonymsFingerprinted();
    DoorSynonymsFingerprinted();
    EverythingSynonymsFingerprinted();
    AutoLightSynonymsFingerprinted();
    ManualLightSynonymsFingerprinted();
  }

  /** Every synonym leads to a catalog key or to one of the two composite phrases. */
  lemma SynonymTargetsExist()
    ensures forall k | IsSynonym(k) :: IsTarget(SynonymTarget(k).value)
  {
    SalaSynonymsTargets();
    RoomOneSynonymsTargets();
    RoomTwoSynonymsTargets();
    GarageSynonymsTargets();
    FanSynonymsTargets();
    DoorSynonymsTargets();
    EverythingSynonymsTargets();
    AutoLightSynonymsTargets();
    ManualLightSynonymsTargets();
  }

  /** The phrases the main loop handles itself lie outside both tables. */
  lemma SpecialPhrasesOutsideTables()
    ensures !InCatalog(WeatherPhrase) && !IsSynonym(WeatherPhrase)
    ensures !InCatalog(ReadLightPhrase) && !IsSynonym(ReadLightPhrase)
    ensures !InCatalog(AllOnPhrase) && !IsSynonym(AllOnPhrase)
    ensures !InCatalog(AllOffPhrase) && !IsSynonym(AllOffPhrase)
  {
    SpecialPhrasesNotCommands();
    WeatherPhraseNotSynonym();
    ReadLightPhraseNotSynonym();
    AllOnPhraseNotSynonym();
    AllOffPhraseNotSynonym();
  }

  lemma SpecialPhrasesNotCommands()
    ensures !InCatalog(WeatherPhrase) && !InCatalog(ReadLightPhrase)
    ensures !InCatalog(AllOnPhrase) && !InCatalog(AllOffPhrase)
  {
    CatalogFingerprinted();
    assert Fingerprint(WeatherPhrase) !in CatalogFingerprints;
    assert Fingerprint(ReadLightPhrase) !in CatalogFingerprints;
    assert Fingerprint(AllOnPhrase) !in CatalogFingerprints;
    assert Fingerprint(AllOffPhrase) !in CatalogFingerprints;
  }

  lemma WeatherPhraseNotSynonym() ensures !IsSynonym(WeatherPhrase) {}
  lemma ReadLightPhraseNotSynonym() ensures !IsSynonym(ReadLightPhrase) {}
  lemma AllOnPhraseNotSynonym() ensures !IsSynonym(AllOnPhrase) {}
  lemma AllOffPhraseNotSynonym() ensures !IsSynonym(AllOffPhrase) {}

  /** Catalog keys and the composite phrases are all in normal form. */
  lemma TargetsNormal()
    ensures forall s | IsTarget(s) :: IsNormalForm(s)
  {
    CommandKeysNormal();
    assert IsNormalForm(AllOnPhrase) && IsNormalForm(AllOffPhrase);
  }

  // ---- normalizar_comando ----

  /**
   * `normalizar_comando`: strip and lower-case, then keep a catalog phrase, replace a
   * synonym by its target, and leave anything else as it is.
   */
  function Normalize(text: string): string {
    var t := StripLower(text);
    if InCatalog(t) then t
    else if IsSynonym(t) then SynonymTarget(t).value
    else t
  }

  /**
   * Whatever comes out of `Normalize` is in normal form, and it is a catalog phrase, a
   * composite phrase, or the stripped, lower-cased input itself when that is in neither table.
   */
  lemma NormalizeResult(text: string)
    ensures IsNormalForm(Normalize(text))
    ensures IsTarget(Normalize(text)) ||
      (Normalize(text) == StripLower(text) && !InCatalog(Normalize(text)) && !IsSynonym(Normalize(text)))
  {
    StripLowerIsNormal(text);
    SynonymTargetsExist();
    TargetsNormal();
  }

  /** Every catalog phrase, in any mix of case and surrounding space, is kept. */
  lemma NormalizeKeepsCommands(text: string)
    requires InCatalog(StripLower(text))
    ensures Normalize(text) == StripLower(text)
  {
  }

  /** Every catalog phrase typed exactly normalizes to itself. */
  lemma NormalizeFixesCatalogKeys()
    ensures forall k | InCatalog(k) :: Normalize(k) == k
  {
    CommandKeysNormal();
    forall k | InCatalog(k) ensures Normalize(k) == k {
      NormalFormIsFixedPoint(k);
    }
  }

  /** A synonym, after strip and lower-case, is replaced by its target. */
  lemma NormalizeResolvesSynonyms(text: string)
    requires IsSynonym(StripLower(text))
    ensures Normalize(text) == SynonymTarget(StripLower(text)).value
    ensures IsTarget(Normalize(text))
  {
    SynonymsAvoidCatalog();
    SynonymTargetsExist();
  }

  /** Every synonym phrase typed exactly normalizes to its target. */
  lemma NormalizeResolvesSynonymKeys()
    ensures forall k | IsSynonym(k) :: Normalize(k) == SynonymTarget(k).value
  {
    SynonymKeysNormal();
    SynonymsAvoidCatalog();
    forall k | IsSynonym(k) ensures Normalize(k) == SynonymTarget(k).value {
      NormalFormIsFixedPoint(k);
    }
  }

  /** Text found in neither table comes back stripped and lower-cased, nothing more. */
  lemma NormalizeKeepsUnknownText(text: string)
    requires !InCatalog(StripLower(text)) && !IsSynonym(StripLower(text))
    ensures Normalize(text) == StripLower(text)
  {
  }

  /** Normalizing a normalized phrase changes nothing. */
  lemma NormalizeIdempotent(text: string)
    ensures Normalize(Normalize(text)) == Normalize(text)
  {
    var r := Normalize(text);
    NormalizeResult(text);
    NormalFormIsFixedPoint(r);
    if IsTarget(r) && !InCatalog(r) {
      SpecialPhrasesOutsideTables();
    }
  }

  /** Two inputs that agree after strip and lower-case normalize alike. */
  lemma NormalizeIgnoresCaseAndSpace(a: string, b: string)
    requires StripLower(a) == StripLower(b)
    ensures Normalize(a) == Normalize(b)
  {
  }
}
