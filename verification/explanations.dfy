/**
 * The explanations attached to a match (ai-recrutement-backend/app/ai/
 * agent_explication.py): one for the recruiter and one for the candidate.
 * Each is asked of a language model; when the call raises, a fixed fallback
 * built from the score takes its place.
 *
 * The language model is a parameter: a function from the prompt variables to
 * the parsed JSON answer, `None` standing for any exception on the way
 * (network, parsing, configuration).
 */
module Explanations {
  import opened Wrappers
  import opened Strings
  import opened Json
  import opened Scoring

  // ---------------------------------------------------------------------------
  // Scores as text
  // ---------------------------------------------------------------------------

  function Magnitude(n: int): nat {
    if n < 0 then -n else n
  }

  /** The decimals of a two-decimal float as Python prints them: one digit
      when the second is zero ("0.5", "0.0"), two otherwise ("0.25"). */
  function FracText(frac: nat): (r: string)
    requires frac < 100
    ensures 1 <= |r| <= 2 && AllDigits(r)
  {
    if frac % 10 == 0 then [DigitChar(frac / 10)] else [DigitChar(frac / 10), DigitChar(frac % 10)]
  }

  function FormatUnsigned(m: nat): (r: string)
    ensures |r| >= 3 && IsDigit(r[0])
    ensures forall i :: 0 <= i < |r| ==> IsDigit(r[i]) || r[i] == '.'
  {
    NatToString(m / 100) + "." + FracText(m % 100)
  }

  /** An f-string's rendering of a score rounded to two decimals, which is
      Python's `repr` of the float `n / 100`: "72.5", "100.0", "-3.25". */
  function FormatScore(n: Hundredths): (r: string)
    ensures |r| >= 3
    ensures (r[0] == '-') <==> n < 0
    ensures forall i :: 0 <= i < |r| ==> IsDigit(r[i]) || r[i] == '-' || r[i] == '.'
  {
    var u := FormatUnsigned(Magnitude(n));
    if n < 0 then "-" + u else u
  }

  /** Reads an unsigned score written with one or two decimals. */
  function ReadUnsigned(s: string): Option<nat> {
    var i := IndexOf(s, '.');
    if i == 0 || i + 1 >= |s| || |s| - (i + 1) > 2 then None
    else
      var w := s[..i];
      var f := s[i + 1..];
      if !AllDigits(w) || !AllDigits(f) then None
      else Some(DigitsValue(w) * 100 + (if |f| == 1 then 10 * DigitsValue(f) else DigitsValue(f)))
  }

  /** Reads a score written as `FormatScore` writes it, with an optional
      minus sign; `None` for any other text. */
  function ReadScore(s: string): Option<Hundredths> {
    if |s| > 0 && s[0] == '-' then
      match ReadUnsigned(s[1..])
      case Some(m) => Some(-(m as int))
      case None => None
    else
      match ReadUnsigned(s)
      case Some(m) => Some(m as int)
      case None => None
  }

  lemma FracTextValue(frac: nat)
    requires frac < 100
    ensures var f := FracText(frac);
      (if |f| == 1 then 10 * DigitsValue(f) else DigitsValue(f)) == frac
  {
    var f := FracText(frac);
    assert DigitsValue(f[..0]) == 0;
    if |f| == 1 {
      assert DigitsValue(f) == DigitsValue(f[..0]) * 10 + DigitValue(f[0]);
    } else {
      assert DigitsValue(f[..1]) == DigitsValue(f[..1][..0]) * 10 + DigitValue(f[0]);
      assert DigitsValue(f) == DigitsValue(f[..1]) * 10 + DigitValue(f[1]);
    }
  }

  lemma ReadUnsignedRoundTrip(m: nat)
    ensures ReadUnsigned(FormatUnsigned(m)) == Some(m)
  {
    var w := NatToString(m / 100);
    var f := FracText(m % 100);
    var r := w + "." + f;
    assert r[|w|] == '.' && r[..|w|] == w && r[|w| + 1..] == f;
    IndexOfIs(r, '.', |w|);
    NatToStringRoundTrip(m / 100);
    FracTextValue(m % 100);
  }

  /** Reading a formatted score gives the score back: distinct scores are
      always printed differently. */
  lemma FormatScoreRoundTrip(n: Hundredths)
    ensures ReadScore(FormatScore(n)) == Some(n)
  {
    var u := FormatUnsigned(Magnitude(n));
    ReadUnsignedRoundTrip(Magnitude(n));
    if n < 0 {
      assert ("-" + u)[1..] == u;
    }
  }

  /** The number after `prefix` and before `mark` in `s`, when `s` starts
      with `prefix`. */
  function ReadBetween(s: string, prefix: string, mark: char): Option<Hundredths> {
    if prefix <= s then
      var t := s[|prefix|..];
      ReadScore(t[..IndexOf(t, mark)])
    else None
  }

  /** A score written between `prefix` and text starting with `%` reads
      back. */
  lemma ReadBetweenScore(prefix: string, n: Hundredths, rest: string)
    requires |rest| > 0 && rest[0] == '%'
    ensures ReadBetween(prefix + FormatScore(n) + rest, prefix, '%') == Some(n)
  {
    var f := FormatScore(n);
    var s := prefix + f + rest;
    var t := s[|prefix|..];
    assert t == f + rest;
    assert t[..|f|] == f;
    assert t[|f|] == '%';
    IndexOfIs(t, '%', |f|);
    FormatScoreRoundTrip(n);
  }

  // ---------------------------------------------------------------------------
  // Fallbacks
  // ---------------------------------------------------------------------------

  const SynthesePrefix := "Score de matching : "
  const MessagePrefix := "Votre profil obtient un score de "
  const DefaultAxe := "Continuez à développer vos compétences"
  const Conseils := [
    "Mettez à jour régulièrement votre CV",
    "Valorisez vos expériences pertinentes",
    "Développez les compétences demandées"]

  /** The recruiter's explanation. */
  datatype RecruiterExplanation = RecruiterExplanation(
    recommandation: string,
    pointsForts: seq<string>,
    pointsFaibles: seq<string>,
    synthese: string)
  {
    /** The dict the fallback returns: the schema's four fields, as given. */
    function ToJson(): (r: Json)
      ensures r.JObj? && Get(r.fields, "synthese") == JStr(synthese)
      ensures Get(r.fields, "recommandation") == JStr(recommandation)
      ensures Lookup(r.fields, "points_forts") == Some(StrList(pointsForts))
      ensures Lookup(r.fields, "points_faibles") == Some(StrList(pointsFaibles))
      ensures RecruiterShaped(r)
    {
      var fs := [("recommandation", JStr(recommandation)), ("points_forts", StrList(pointsForts)),
                 ("points_faibles", StrList(pointsFaibles)), ("synthese", JStr(synthese))];
      LookupAt(fs, 0);
      LookupAt(fs, 1);
      LookupAt(fs, 2);
      LookupAt(fs, 3);
      JObj(fs)
    }
  }

  /** The candidate's explanation. */
  datatype CandidateExplanation = CandidateExplanation(
    messagePrincipal: string,
    competencesValorisees: seq<string>,
    axesAmelioration: seq<string>,
    conseils: seq<string>)
  {
    /** The dict the fallback returns: the schema's four fields, as given. */
    function ToJson(): (r: Json)
      ensures r.JObj? && Get(r.fields, "message_principal") == JStr(messagePrincipal)
      ensures Lookup(r.fields, "competences_valorisees") == Some(StrList(competencesValorisees))
      ensures Lookup(r.fields, "axes_amelioration") == Some(StrList(axesAmelioration))
      ensures Lookup(r.fields, "conseils") == Some(StrList(conseils))
      ensures CandidateShaped(r)
    {
      var fs := [("message_principal", JStr(messagePrincipal)),
                 ("competences_valorisees", StrList(competencesValorisees)),
                 ("axes_amelioration", StrList(axesAmelioration)), ("conseils", StrList(conseils))];
      LookupAt(fs, 0);
      LookupAt(fs, 1);
      LookupAt(fs, 2);
      LookupAt(fs, 3);
      JObj(fs)
    }
  }

  /** explication_recruteur_fallback: an interview is advised exactly from 50 %
      on, with one fixed strength and one fixed weakness. */
  function RecruiterFallback(score: Hundredths, recommandation: string): (r: RecruiterExplanation)
    ensures r.recommandation == "ENTRETIEN" || r.recommandation == "REJETER"
    ensures r.recommandation == "ENTRETIEN" <==> score >= 5000
    ensures |r.pointsForts| == 1 && |r.pointsFaibles| == 1
    ensures SynthesePrefix <= r.synthese
  {
    RecruiterExplanation(
      if score >= 5000 then "ENTRETIEN" else "REJETER",
      ["Profil analysé automatiquement"],
      ["Analyse détaillée indisponible"],
      SynthesePrefix + FormatScore(score) + ("%. Recommandation : " + recommandation + "."))
  }

  /** The recruiter fallback's synthesis states the score it was built from. */
  lemma RecruiterFallbackStatesScore(score: Hundredths, recommandation: string)
    ensures ReadBetween(RecruiterFallback(score, recommandation).synthese, SynthesePrefix, '%') == Some(score)
  {
    ReadBetweenScore(SynthesePrefix, score, "%. Recommandation : " + recommandation + ".");
  }

  /** explication_candidat_fallback: the first three skills found are shown
      as assets, the first three missing ones as areas to improve (or a fixed
      encouragement when none is missing), with three fixed tips. */
  function CandidateFallback(score: Hundredths, details: Details): (r: CandidateExplanation)
    ensures MessagePrefix <= r.messagePrincipal
    ensures r.competencesValorisees <= details.competences.trouvees
    ensures |r.competencesValorisees| == if |details.competences.trouvees| < 3 then |details.competences.trouvees| else 3
    ensures details.competences.manquantes == [] ==> r.axesAmelioration == [DefaultAxe]
    ensures details.competences.manquantes != [] ==>
      && r.axesAmelioration <= details.competences.manquantes
      && |r.axesAmelioration| == if |details.competences.manquantes| < 3 then |details.competences.manquantes| else 3
    ensures r.conseils == Conseils
  {
    var manquantes := details.competences.manquantes;
    CandidateExplanation(
      MessagePrefix + FormatScore(score) + "% pour ce poste.",
      PyPrefix(details.competences.trouvees, 3),
      if manquantes != [] then PyPrefix(manquantes, 3) else [DefaultAxe],
      Conseils)
  }

  /** The candidate fallback's message states the score it was built from. */
  lemma CandidateFallbackStatesScore(score: Hundredths, details: Details)
    ensures ReadBetween(CandidateFallback(score, details).messagePrincipal, MessagePrefix, '%') == Some(score)
  {
    ReadBetweenScore(MessagePrefix, score, "% pour ce poste.");
  }

  // ---------------------------------------------------------------------------
  // Prompts and the language model
  // ---------------------------------------------------------------------------

  /** `", ".join(xs) or dflt`. */
  function ListOr(xs: seq<string>, dflt: string): (r: string)
    ensures xs == [] ==> r == dflt
    ensures r == dflt || r == Join(xs, ", ")
  {
    var j := Join(xs, ", ");
    if j == "" then dflt else j
  }

  /** A non-empty list whose first entry is not empty is shown as is. */
  lemma ListOrShowsList(xs: seq<string>, dflt: string)
    requires |xs| > 0 && xs[0] != ""
    ensures ListOr(xs, dflt) == Join(xs, ", ")
  {
    JoinStartsWith(xs, ", ");
  }

  /** The variables the recruiter prompt is filled with. */
  datatype RecruiterPrompt = RecruiterPrompt(
    scoreFinal: Hundredths, recommandation: string, similarite: Hundredths,
    compScore: Hundredths, compTrouvees: string, compManquantes: string,
    expScore: Hundredths, expCandidat: nat, expRequis: int, formScore: Hundredths,
    langScore: Hundredths, langTrouvees: string, langManquantes: string, titrePoste: string)

  /** The variables the candidate prompt is filled with. */
  datatype CandidatePrompt = CandidatePrompt(
    scoreFinal: Hundredths, recommandation: string,
    compTrouvees: string, compManquantes: string, expCandidat: nat, expRequis: int,
    langTrouvees: string, langManquantes: string, titrePoste: string)

  function RecruiterPromptOf(score: Hundredths, d: Details, recommandation: string, titre: string): (p: RecruiterPrompt)
    ensures p.scoreFinal == score && p.titrePoste == titre && p.recommandation == recommandation
    ensures p.compScore == d.competences.score && p.langScore == d.langues.score
    ensures d.competences.manquantes == [] ==> p.compManquantes == "Aucune"
  {
    RecruiterPrompt(
      score, recommandation, d.similariteSemantique,
      d.competences.score, ListOr(d.competences.trouvees, "Aucune"), ListOr(d.competences.manquantes, "Aucune"),
      d.experience.score, d.experience.anneesCandidat, d.experience.anneesRequises, d.formation.score,
      d.langues.score, ListOr(d.langues.trouvees, "Aucune"), ListOr(d.langues.manquantes, "Aucune"), titre)
  }

  function CandidatePromptOf(score: Hundredths, d: Details, recommandation: string, titre: string): (p: CandidatePrompt)
    ensures p.scoreFinal == score && p.titrePoste == titre && p.recommandation == recommandation
    ensures d.competences.trouvees == [] ==> p.compTrouvees == "Aucune compétence technique identifiée"
    ensures d.langues.trouvees == [] ==> p.langTrouvees == "Non précisé"
  {
    CandidatePrompt(
      score, recommandation,
      ListOr(d.competences.trouvees, "Aucune compétence technique identifiée"),
      ListOr(d.competences.manquantes, "Aucune"),
      d.experience.anneesCandidat, d.experience.anneesRequises,
      ListOr(d.langues.trouvees, "Non précisé"), ListOr(d.langues.manquantes, "Aucune"), titre)
  }

  /** The language model: the parsed answer to each prompt, `None` when the
      call raises. */
  datatype Llm = Llm(recruteur: RecruiterPrompt -> Option<Json>, candidat: CandidatePrompt -> Option<Json>)

  /** The dict generer_explications_completes returns. */
  datatype Explications = Explications(pourRecruteur: Json, pourCandidat: Json) {
    /** The Explications schema accepts the dict: each side fits its own. */
    predicate Conforms() {
      RecruiterShaped(pourRecruteur) && CandidateShaped(pourCandidat)
    }

    /** The dict as a JSON object, keyed as the response schema names it. */
    function ToJson(): (r: Json)
      ensures r.JObj? && |r.fields| == 2
      ensures Get(r.fields, "pour_recruteur") == pourRecruteur
      ensures Get(r.fields, "pour_candidat") == pourCandidat
    {
      var fs := [("pour_recruteur", pourRecruteur), ("pour_candidat", pourCandidat)];
      LookupAt(fs, 0);
      LookupAt(fs, 1);
      JObj(fs)
    }
  }

  // ---------------------------------------------------------------------------
  // Response validation
  // ---------------------------------------------------------------------------

  /** A `str` field of a response model: present and a string. */
  predicate HasStr(fields: seq<(string, Json)>, key: string) {
    Lookup(fields, key).Some? && Lookup(fields, key).value.JStr?
  }

  /** A `List[str]` field of a response model: present and a list of strings. */
  predicate HasStrs(fields: seq<(string, Json)>, key: string) {
    Lookup(fields, key).Some? && Lookup(fields, key).value.JList? && AllStr(Lookup(fields, key).value.items)
  }

  /** The ExplicationRecruteur schema: an object with a text recommendation
      and synthesis and two lists of texts; other keys are ignored. */
  predicate RecruiterShaped(j: Json) {
    && j.JObj?
    && HasStr(j.fields, "recommandation") && HasStrs(j.fields, "points_forts")
    && HasStrs(j.fields, "points_faibles") && HasStr(j.fields, "synthese")
  }

  /** The ExplicationCandidat schema: an object with a text message and
      three lists of texts; other keys are ignored. */
  predicate CandidateShaped(j: Json) {
    && j.JObj?
    && HasStr(j.fields, "message_principal") && HasStrs(j.fields, "competences_valorisees")
    && HasStrs(j.fields, "axes_amelioration") && HasStrs(j.fields, "conseils")
  }

  /** The model's answers to the two prompts of one match, when it gives
      them, fit their schemas. */
  predicate AnswersFit(score: Hundredths, d: Details, recommandation: string, titre: string, llm: Llm) {
    var a := llm.recruteur(RecruiterPromptOf(score, d, recommandation, titre));
    var b := llm.candidat(CandidatePromptOf(score, d, recommandation, titre));
    (a.None? || RecruiterShaped(a.value)) && (b.None? || CandidateShaped(b.value))
  }

  /** Every answer the model gives fits its schema. */
  ghost predicate WellBehaved(llm: Llm) {
    && (forall p :: llm.recruteur(p).None? || RecruiterShaped(llm.recruteur(p).value))
    && (forall p :: llm.candidat(p).None? || CandidateShaped(llm.candidat(p).value))
  }

  /** The complete explanations pass validation exactly when each answer the
      model gave fits its schema: the fallbacks always do. */
  lemma GenererConforms(score: Hundredths, d: Details, recommandation: string, titre: string, llm: Llm)
    ensures GenererExplicationsCompletes(score, d, recommandation, titre, llm).Conforms()
        <==> AnswersFit(score, d, recommandation, titre, llm)
    ensures WellBehaved(llm) ==> GenererExplicationsCompletes(score, d, recommandation, titre, llm).Conforms()
  {
    var fr := RecruiterFallback(score, recommandation).ToJson();
    var fc := CandidateFallback(score, d).ToJson();
    assert RecruiterShaped(fr) && CandidateShaped(fc);
  }

  /** generer_explications_completes: each side is the model's answer when the
      call succeeds and the matching fallback when it raises. */
  function GenererExplicationsCompletes(score: Hundredths, d: Details, recommandation: string, titre: string, llm: Llm)
    : (r: Explications)
    ensures llm.recruteur(RecruiterPromptOf(score, d, recommandation, titre)).Some? ==>
      r.pourRecruteur == llm.recruteur(RecruiterPromptOf(score, d, recommandation, titre)).value
    ensures llm.recruteur(RecruiterPromptOf(score, d, recommandation, titre)).None? ==>
      r.pourRecruteur == RecruiterFallback(score, recommandation).ToJson()
    ensures llm.candidat(CandidatePromptOf(score, d, recommandation, titre)).Some? ==>
      r.pourCandidat == llm.candidat(CandidatePromptOf(score, d, recommandation, titre)).value
    ensures llm.candidat(CandidatePromptOf(score, d, recommandation, titre)).None? ==>
      r.pourCandidat == CandidateFallback(score, d).ToJson()
  {
    var rec := llm.recruteur(RecruiterPromptOf(score, d, recommandation, titre));
    var cand := llm.candidat(CandidatePromptOf(score, d, recommandation, titre));
    Explications(
      rec.GetOr(RecruiterFallback(score, recommandation).ToJson()),
      cand.GetOr(CandidateFallback(score, d).ToJson()))
  }

  /** When the recruiter call fails, the recruiter side advises an interview
      exactly from 50 % on and its synthesis states the score. */
  lemma RecruiterSideOnFailure(score: Hundredths, d: Details, recommandation: string, titre: string, llm: Llm)
    requires llm.recruteur(RecruiterPromptOf(score, d, recommandation, titre)).None?
    ensures var r := GenererExplicationsCompletes(score, d, recommandation, titre, llm).pourRecruteur;
      && r.JObj?
      && (Get(r.fields, "recommandation") == JStr("ENTRETIEN") <==> score >= 5000)
      && Get(r.fields, "synthese").JStr?
      && ReadBetween(Get(r.fields, "synthese").s, SynthesePrefix, '%') == Some(score)
  {
    RecruiterFallbackStatesScore(score, recommandation);
  }

  /** When the candidate call fails, the candidate side's message states the
      score. */
  lemma CandidateSideOnFailure(score: Hundredths, d: Details, recommandation: string, titre: string, llm: Llm)
    requires llm.candidat(CandidatePromptOf(score, d, recommandation, titre)).None?
    ensures var r := GenererExplicationsCompletes(score, d, recommandation, titre, llm).pourCandidat;
      && r.JObj?
      && Get(r.fields, "message_principal").JStr?
      && ReadBetween(Get(r.fields, "message_principal").s, MessagePrefix, '%') == Some(score)
  {
    CandidateFallbackStatesScore(score, d);
  }
}
