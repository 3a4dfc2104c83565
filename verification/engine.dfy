/**
 * The matching engine (ai-recrutement-backend/app/ai/moteur_matching.py):
 * the texts embedded for a CV and an offer, and one complete match of a CV
 * against an offer (similarity, score, band, explanations).
 *
 * The embedding model and the cosine similarity of two float vectors are
 * parameters: floating point is not part of this model.
 */
module Engine {
  import opened Wrappers
  import opened Strings
  import opened Json
  import opened Scoring
  import opened Explanations

  predicate NoEmptyPart(parts: seq<string>) {
    forall i :: 0 <= i < |parts| ==> parts[i] != ""
  }

  // ---------------------------------------------------------------------------
  // Texts to embed
  // ---------------------------------------------------------------------------

  /** The parts each experience adds: its title when non-empty, then its
      description when non-empty. */
  function ExperienceParts(exps: seq<Experience>): (r: seq<string>)
    ensures NoEmptyPart(r)
    ensures |r| <= 2 * |exps|
    ensures forall i :: 0 <= i < |exps| && exps[i].poste != "" ==> "Expérience : " + exps[i].poste in r
    ensures forall i :: 0 <= i < |exps| && exps[i].description != "" ==> exps[i].description in r
  {
    if exps == [] then []
    else
      var e := exps[0];
      (if e.poste != "" then ["Expérience : " + e.poste] else [])
      + (if e.description != "" then [e.description] else [])
      + ExperienceParts(exps[1..])
  }

  /** An experience adds nothing exactly when its title and description are
      both empty. */
  predicate Silent(e: Experience) {
    e.poste == "" && e.description == ""
  }

  /** Experiences contribute in their order. */
  lemma {:induction false} ExperiencePartsAppend(a: seq<Experience>, b: seq<Experience>)
    ensures ExperienceParts(a + b) == ExperienceParts(a) + ExperienceParts(b)
    decreases |a|
  {
    if a == [] {
      assert a + b == b;
    } else {
      assert (a + b)[0] == a[0];
      assert (a + b)[1..] == a[1..] + b;
      ExperiencePartsAppend(a[1..], b);
    }
  }

  lemma {:induction false} ExperiencePartsEmptyIff(exps: seq<Experience>)
    ensures ExperienceParts(exps) == [] <==> forall i :: 0 <= i < |exps| ==> Silent(exps[i])
    decreases |exps|
  {
    if exps != [] {
      ExperiencePartsEmptyIff(exps[1..]);
      assert forall i :: 1 <= i < |exps| ==> exps[i] == exps[1..][i - 1];
    }
  }

  /** A degree adds a part when it is a non-empty string. */
  predicate Shown(f: Formation) {
    f.diplome.Some? && f.diplome.value != ""
  }

  function FormationParts(fs: seq<Formation>): (r: seq<string>)
    ensures NoEmptyPart(r)
    ensures |r| <= |fs|
    ensures forall i :: 0 <= i < |fs| && Shown(fs[i]) ==> "Formation : " + fs[i].diplome.value in r
  {
    if fs == [] then []
    else (if Shown(fs[0]) then ["Formation : " + fs[0].diplome.value] else []) + FormationParts(fs[1..])
  }

  lemma {:induction false} FormationPartsEmptyIff(fs: seq<Formation>)
    ensures FormationParts(fs) == [] <==> forall i :: 0 <= i < |fs| ==> !Shown(fs[i])
    decreases |fs|
  {
    if fs != [] {
      FormationPartsEmptyIff(fs[1..]);
      assert forall i :: 1 <= i < |fs| ==> fs[i] == fs[1..][i - 1];
    }
  }

  /** A labelled list, present when the list is non-empty. */
  function ListPart(heading: string, xs: seq<string>): (r: seq<string>)
    requires heading != ""
    ensures NoEmptyPart(r)
    ensures r == [] <==> xs == []
  {
    if xs != [] then [heading + Join(xs, ", ")] else []
  }

  function CvParts(cv: CvJson): (r: seq<string>)
    ensures NoEmptyPart(r)
  {
    ListPart("Compétences : ", cv.competences) + ExperienceParts(cv.experiences)
    + FormationParts(cv.formations) + ListPart("Langues : ", cv.langues)
  }

  /** preparer_texte_cv: the non-empty parts joined by " | ", skills first. */
  function PreparerTexteCv(cv: CvJson): (r: string)
    ensures r == Join(CvParts(cv), " | ")
    ensures r == "" <==> CvParts(cv) == []
    ensures cv.competences != [] ==> "Compétences : " <= r
  {
    var parts := CvParts(cv);
    JoinEmptyIff(parts, " | ");
    assert cv.competences != [] ==> "Compétences : " <= Join(parts, " | ") by {
      if cv.competences != [] {
        JoinStartsWith(parts, " | ");
      }
    }
    Join(parts, " | ")
  }

  /** The CV's parts, section by section: the skills line first, then the
      experiences' parts, then the shown degrees, the languages line last. */
  lemma CvPartsSections(cv: CvJson)
    ensures var r := CvParts(cv);
      var c := if cv.competences != [] then 1 else 0;
      var e := ExperienceParts(cv.experiences);
      var f := FormationParts(cv.formations);
      && |r| == c + |e| + |f| + (if cv.langues != [] then 1 else 0)
      && (cv.competences != [] ==> r[0] == "Compétences : " + Join(cv.competences, ", "))
      && r[c..c + |e|] == e
      && r[c + |e|..c + |e| + |f|] == f
      && (cv.langues != [] ==> r[|r| - 1] == "Langues : " + Join(cv.langues, ", "))
  {
    var s := ListPart("Compétences : ", cv.competences);
    var e := ExperienceParts(cv.experiences);
    var f := FormationParts(cv.formations);
    var r := CvParts(cv);
    assert r == s + e + f + ListPart("Langues : ", cv.langues);
    assert r[|s|..|s| + |e|] == e;
    assert r[|s| + |e|..|s| + |e| + |f|] == f;
  }

  /** Every titled experience, every described experience and every shown
      degree has its line among the CV's parts. */
  lemma CvPartsMention(cv: CvJson)
    ensures var r := CvParts(cv);
      && (forall i :: 0 <= i < |cv.experiences| && cv.experiences[i].poste != "" ==>
            "Expérience : " + cv.experiences[i].poste in r)
      && (forall i :: 0 <= i < |cv.experiences| && cv.experiences[i].description != "" ==>
            cv.experiences[i].description in r)
      && (forall i :: 0 <= i < |cv.formations| && Shown(cv.formations[i]) ==>
            "Formation : " + cv.formations[i].diplome.value in r)
  {
    var s := ListPart("Compétences : ", cv.competences);
    var e := ExperienceParts(cv.experiences);
    var f := FormationParts(cv.formations);
    assert CvParts(cv) == s + e + f + ListPart("Langues : ", cv.langues);
    InConcat(s, e, f, ListPart("Langues : ", cv.langues));
  }

  /** The middle two of four concatenated sequences are part of it. */
  lemma InConcat<T>(a: seq<T>, b: seq<T>, c: seq<T>, d: seq<T>)
    ensures forall x :: x in b ==> x in a + b + c + d
    ensures forall x :: x in c ==> x in a + b + c + d
  {
    forall x | x in b
      ensures x in a + b + c + d
    {
      var k :| 0 <= k < |b| && b[k] == x;
      assert (a + b + c + d)[|a| + k] == x;
    }
    forall x | x in c
      ensures x in a + b + c + d
    {
      var k :| 0 <= k < |c| && c[k] == x;
      assert (a + b + c + d)[|a| + |b| + k] == x;
    }
  }

  /** The CV text is empty exactly when the CV has nothing to say: no skill,
      no language, no experience with a title or description, no degree. */
  lemma CvTextEmptyIff(cv: CvJson)
    ensures PreparerTexteCv(cv) == "" <==>
      && cv.competences == [] && cv.langues == []
      && (forall i :: 0 <= i < |cv.experiences| ==> Silent(cv.experiences[i]))
      && (forall i :: 0 <= i < |cv.formations| ==> !Shown(cv.formations[i]))
  {
    ExperiencePartsEmptyIff(cv.experiences);
    FormationPartsEmptyIff(cv.formations);
  }

  function OffreParts(o: OffreJson): (r: seq<string>)
    ensures NoEmptyPart(r)
  {
    (if o.titre.Some? && o.titre.value != "" then ["Poste : " + o.titre.value] else [])
    + (if o.description != "" then [o.description] else [])
    + ListPart("Compétences requises : ", o.competencesRequises)
    + (if o.missions != "" then ["Missions : " + o.missions] else [])
    + ListPart("Langues : ", o.languesRequises)
  }

  /** preparer_texte_offre: the non-empty parts joined by " | ", the title
      first. */
  function PreparerTexteOffre(o: OffreJson): (r: string)
    ensures r == Join(OffreParts(o), " | ")
    ensures r == "" <==> OffreParts(o) == []
    ensures o.titre.Some? && o.titre.value != "" ==> "Poste : " <= r
  {
    var parts := OffreParts(o);
    JoinEmptyIff(parts, " | ");
    assert o.titre.Some? && o.titre.value != "" ==> "Poste : " <= Join(parts, " | ") by {
      if o.titre.Some? && o.titre.value != "" {
        JoinStartsWith(parts, " | ");
      }
    }
    Join(parts, " | ")
  }

  /** The offer's parts, section by section and each at its place: the
      title, the description, the required skills, the missions and the
      languages, each present exactly when non-empty. */
  lemma OffrePartsSections(o: OffreJson)
    ensures var r := OffreParts(o);
      var t := if o.titre.Some? && o.titre.value != "" then 1 else 0;
      var d := if o.description != "" then 1 else 0;
      var c := if o.competencesRequises != [] then 1 else 0;
      var m := if o.missions != "" then 1 else 0;
      && |r| == t + d + c + m + (if o.languesRequises != [] then 1 else 0)
      && (t == 1 ==> r[0] == "Poste : " + o.titre.value)
      && (d == 1 ==> r[t] == o.description)
      && (c == 1 ==> r[t + d] == "Compétences requises : " + Join(o.competencesRequises, ", "))
      && (m == 1 ==> r[t + d + c] == "Missions : " + o.missions)
      && (o.languesRequises != [] ==> r[t + d + c + m] == "Langues : " + Join(o.languesRequises, ", "))
  {
  }

  /** The offer text is empty exactly when title, description, skills,
      missions and languages are all empty; the required years, the
      required level and the other keys never reach it. */
  lemma OffreTextEmptyIff(o: OffreJson)
    ensures PreparerTexteOffre(o) == "" <==>
      && (o.titre.None? || o.titre.value == "") && o.description == ""
      && o.competencesRequises == [] && o.missions == "" && o.languesRequises == []
  {
  }

  // ---------------------------------------------------------------------------
  // One match
  // ---------------------------------------------------------------------------

  type Vector = seq<real>

  /** The embedding model, the cosine similarity and the language model. */
  datatype Services = Services(embed: string -> Vector, similarity: (Vector, Vector) -> real, llm: Llm)

  /** The dict executer_matching returns. */
  datatype MatchingResult = MatchingResult(
    scoreFinal: Hundredths,
    recommandation: Recommendation,
    details: Details,
    explications: Option<Explications>)

  /** The title shown to the language model; "Poste sans titre" when the
      offer has none. */
  function TitrePoste(o: OffreJson): string {
    o.titre.GetOr("Poste sans titre")
  }

  /** The semantic similarity: a missing embedding is computed from the
      prepared text, a given one is used as is. */
  function Similarity(cv: CvJson, offre: OffreJson, cvEmb: Option<Vector>, offreEmb: Option<Vector>, env: Services)
    : (r: real)
    ensures cvEmb.Some? && offreEmb.Some? ==> r == env.similarity(cvEmb.value, offreEmb.value)
    ensures cvEmb.None? && offreEmb.None? ==>
      r == env.similarity(env.embed(PreparerTexteCv(cv)), env.embed(PreparerTexteOffre(offre)))
  {
    var u := cvEmb.GetOr(env.embed(PreparerTexteCv(cv)));
    var v := offreEmb.GetOr(env.embed(PreparerTexteOffre(offre)));
    env.similarity(u, v)
  }

  /** The result's band is the one its final score falls in: the score
      reaches the band's floor and no higher band's. */
  predicate Banded(r: MatchingResult) {
    && (r.recommandation == Faible || r.scoreFinal >= BandFloor(r.recommandation))
    && forall b: Recommendation :: b.Rank() > r.recommandation.Rank() ==> r.scoreFinal < BandFloor(b)
  }

  /** The result carries explanations exactly when asked, and then the
      complete explanations of its own score, details and band. */
  predicate Explained(r: MatchingResult, generer: bool, titre: string, llm: Llm) {
    && (r.explications.Some? <==> generer)
    && (generer ==> (r.explications.Some? &&
          r.explications.value == GenererExplicationsCompletes(r.scoreFinal, r.details, r.recommandation.Label(), titre, llm)))
  }

  /** executer_matching: the score and details of calculer_score_final on the
      similarity, the band of the final score, and the explanations only
      when asked for. */
  function ExecuterMatching(
    cv: CvJson, offre: OffreJson, cvEmb: Option<Vector>, offreEmb: Option<Vector>, generer: bool, env: Services)
    : (r: MatchingResult)
    requires Scorable(cv, offre)
    ensures var s := ScoreFinal(Similarity(cv, offre, cvEmb, offreEmb, env), cv, offre);
      r.scoreFinal == s.scoreFinal && r.details == s.details
    ensures InUnit(Similarity(cv, offre, cvEmb, offreEmb, env)) ==> 0 <= r.scoreFinal <= 10000
    ensures Banded(r)
    ensures Explained(r, generer, TitrePoste(offre), env.llm)
  {
    Assemble(ScoreFinal(Similarity(cv, offre, cvEmb, offreEmb, env), cv, offre), TitrePoste(offre), generer, env.llm)
  }

  /** MatchingResponse accepts the result: its explanations, when present,
      fit the Explications schema. The score, band and details always fit
      theirs. */
  predicate Conforming(r: MatchingResult) {
    r.explications.None? || r.explications.value.Conforms()
  }

  /** executer_matching on the CV and the offer runs without raising, and
      MatchingResponse accepts what it returns: the routes answer 200. */
  predicate Accepted(cv: CvJson, offre: OffreJson, generer: bool, env: Services) {
    Scorable(cv, offre) && Conforming(ExecuterMatching(cv, offre, None, None, generer, env))
  }

  /** A match passes validation exactly when no explanations were asked for
      or the model's answers to the prompts for its own score, details and
      band fit their schemas; a model whose every answer fits never fails it. */
  lemma ConformingMatch(
    cv: CvJson, offre: OffreJson, cvEmb: Option<Vector>, offreEmb: Option<Vector>, generer: bool, env: Services)
    requires Scorable(cv, offre)
    ensures var r := ExecuterMatching(cv, offre, cvEmb, offreEmb, generer, env);
      Conforming(r) <==> !generer || AnswersFit(r.scoreFinal, r.details, r.recommandation.Label(), TitrePoste(offre), env.llm)
    ensures WellBehaved(env.llm) ==> Conforming(ExecuterMatching(cv, offre, cvEmb, offreEmb, generer, env))
  {
    var r := ExecuterMatching(cv, offre, cvEmb, offreEmb, generer, env);
    if generer {
      GenererConforms(r.scoreFinal, r.details, r.recommandation.Label(), TitrePoste(offre), env.llm);
    }
  }

  /** The result of one match from its score: the band of the final score,
      and the explanations only when asked for. */
  function Assemble(s: ScoreResult, titre: string, generer: bool, llm: Llm): (r: MatchingResult)
    ensures r.scoreFinal == s.scoreFinal && r.details == s.details
    ensures Banded(r)
    ensures Explained(r, generer, titre, llm)
  {
    var band := DeterminerRecommandation(s.scoreFinal);
    var explications :=
      if generer then Some(GenererExplicationsCompletes(s.scoreFinal, s.details, band.Label(), titre, llm))
      else None;
    MatchingResult(s.scoreFinal, band, s.details, explications)
  }

  /** When the recruiter explanation falls back, it advises an interview
      exactly when the band is above FAIBLE: the two thresholds agree. */
  lemma FallbackAgreesWithBand(
    cv: CvJson, offre: OffreJson, cvEmb: Option<Vector>, offreEmb: Option<Vector>, env: Services, r: MatchingResult)
    requires Scorable(cv, offre) && r == ExecuterMatching(cv, offre, cvEmb, offreEmb, true, env)
    requires env.llm.recruteur(RecruiterPromptOf(r.scoreFinal, r.details, r.recommandation.Label(), TitrePoste(offre))).None?
    ensures r.explications.Some? && r.explications.value.pourRecruteur.JObj?
    ensures Get(r.explications.value.pourRecruteur.fields, "recommandation") == JStr("ENTRETIEN")
        <==> r.recommandation != Faible
  {
    AssembledFallbackAgrees(ScoreFinal(Similarity(cv, offre, cvEmb, offreEmb, env), cv, offre), TitrePoste(offre), env.llm, r);
  }

  /** The same agreement for any assembled result. */
  lemma AssembledFallbackAgrees(s: ScoreResult, titre: string, llm: Llm, r: MatchingResult)
    requires r == Assemble(s, titre, true, llm)
    requires llm.recruteur(RecruiterPromptOf(r.scoreFinal, r.details, r.recommandation.Label(), titre)).None?
    ensures r.explications.Some? && r.explications.value.pourRecruteur.JObj?
    ensures Get(r.explications.value.pourRecruteur.fields, "recommandation") == JStr("ENTRETIEN")
        <==> r.recommandation != Faible
  {
    var band := r.recommandation.Label();
    var e := GenererExplicationsCompletes(r.scoreFinal, r.details, band, titre, llm);
    assert r.explications == Some(e);
    FallbackRecommendation(r.scoreFinal, r.details, band, titre, llm);
    AboveFaible(r.scoreFinal, r.recommandation);
  }

  /** The recruiter fallback's advice, read from its JSON. */
  lemma FallbackRecommendation(score: Hundredths, d: Details, band: string, titre: string, llm: Llm)
    requires llm.recruteur(RecruiterPromptOf(score, d, band, titre)).None?
    ensures var e := GenererExplicationsCompletes(score, d, band, titre, llm);
      && e.pourRecruteur.JObj?
      && (Get(e.pourRecruteur.fields, "recommandation") == JStr("ENTRETIEN") <==> score >= 5000)
  {
    var fb := RecruiterFallback(score, band);
    assert Get(fb.ToJson().fields, "recommandation") == JStr(fb.recommandation);
  }

  /** A band that the score satisfies is above FAIBLE exactly from 50 % on. */
  lemma AboveFaible(score: Hundredths, b: Recommendation)
    requires b == Faible || score >= BandFloor(b)
    requires forall c: Recommendation :: c.Rank() > b.Rank() ==> score < BandFloor(c)
    ensures b != Faible <==> score >= 5000
  {
    assert Moyen.Rank() > Faible.Rank();
  }

  /** The offer keys the engine never reads leave the match alone. */
  lemma UnreadKeysIgnored(
    cv: CvJson, offre: OffreJson, other: seq<(string, Json)>, cvEmb: Option<Vector>, offreEmb: Option<Vector>,
    generer: bool, env: Services)
    requires Scorable(cv, offre)
    ensures ExecuterMatching(cv, offre, cvEmb, offreEmb, generer, env)
         == ExecuterMatching(cv, offre.(other := other), cvEmb, offreEmb, generer, env)
  {
    var o2 := offre.(other := other);
    assert OffreParts(offre) == OffreParts(o2);
    var sim := Similarity(cv, offre, cvEmb, offreEmb, env);
    assert sim == Similarity(cv, o2, cvEmb, offreEmb, env);
    assert ScoreFinal(sim, cv, offre) == ScoreFinal(sim, cv, o2);
  }

  /** Given both embeddings, the embedding model is never consulted. */
  lemma GivenEmbeddingsUsed(
    cv: CvJson, offre: OffreJson, u: Vector, v: Vector, generer: bool, env: Services, embed: string -> Vector)
    requires Scorable(cv, offre)
    ensures ExecuterMatching(cv, offre, Some(u), Some(v), generer, env)
         == ExecuterMatching(cv, offre, Some(u), Some(v), generer, env.(embed := embed))
  {
  }
}
