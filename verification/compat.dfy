/**
 * POST /matching/match (ai-recrutement-backend/app/api/matching.py:226-261):
 * the front end's `candidate` and `job` dicts turned into the CV and offer
 * structures the engine reads.
 *
 * The route stores the job's experience and education under the keys
 * "experience_requise" and "niveau_etude", while the scorer reads
 * "experience_requise_ans" and "niveau_etudes_requis". Both versions are
 * here: `MatchCompat` as written, where those two job fields never count,
 * and `MatchCompatIntended`, which stores them under the keys the scorer
 * reads.
 */
module Compat {
  import opened Wrappers
  import opened Strings
  import opened Json
  import opened Scoring
  import opened Explanations
  import opened Engine
  import opened Store

  type Fields = seq<(string, Json)>

  // ---------------------------------------------------------------------------
  // Reading an offer dict the way the scorer and the text preparation do
  // ---------------------------------------------------------------------------

  /** The keys of an offer dict that the engine reads. */
  const OffreKeys: seq<string> := [
    "titre", "description", "competences_requises", "missions",
    "experience_requise_ans", "niveau_etudes_requis", "langues_requises"]

  function Strs(items: seq<Json>): (r: seq<string>)
    requires AllStr(items)
    ensures StrList(r) == JList(items)
  {
    var r := seq(|items|, i requires 0 <= i < |items| => items[i].s);
    assert StrList(r).items == items;
    r
  }

  /** `d.get(key, dflt)` for a text field; `None` for a value of another
      type. */
  function StrField(fields: Fields, key: string, dflt: string): (r: Option<string>)
    ensures Lookup(fields, key).None? ==> r == Some(dflt)
    ensures Lookup(fields, key) == Some(JStr(dflt)) ==> r == Some(dflt)
    ensures r.Some? && Lookup(fields, key).Some? ==> Lookup(fields, key) == Some(JStr(r.value))
  {
    match Lookup(fields, key)
    case None => Some(dflt)
    case Some(JStr(s)) => Some(s)
    case Some(_) => None
  }

  /** `d.get(key, [])` for a list of strings; `None` for any other value
      (joining or normalising a non-string raises). */
  function StrListField(fields: Fields, key: string): (r: Option<seq<string>>)
    ensures Lookup(fields, key).None? ==> r == Some([])
    ensures r.Some? && Lookup(fields, key).Some? ==> Lookup(fields, key) == Some(StrList(r.value))
  {
    match Lookup(fields, key)
    case None => Some([])
    case Some(JList(items)) => if AllStr(items) then Some(Strs(items)) else None
    case Some(_) => None
  }

  /** `d.get(key, 0)` for a number compared with integers: a boolean counts
      as 0 or 1; any other non-integer makes the comparison raise. */
  function IntField(fields: Fields, key: string): (r: Option<int>)
    ensures Lookup(fields, key).None? ==> r == Some(0)
    ensures Lookup(fields, key) == Some(JInt(0)) ==> r == Some(0)
    ensures forall n :: Lookup(fields, key) == Some(JInt(n)) ==> r == Some(n)
  {
    match Lookup(fields, key)
    case None => Some(0)
    case Some(JInt(n)) => Some(n)
    case Some(JBool(b)) => Some(if b then 1 else 0)
    case Some(_) => None
  }

  /** The entries whose key the engine never reads. */
  function Unread(fields: Fields): (r: Fields)
    ensures forall i :: 0 <= i < |r| ==> r[i] in fields && r[i].0 !in OffreKeys
  {
    if |fields| == 0 then []
    else (if fields[0].0 in OffreKeys then [] else [fields[0]]) + Unread(fields[1..])
  }

  /** The offer dict as the engine sees it: each key read with its default.
      `None` when a value has a type the engine cannot use (a non-string
      title is also refused here: this model holds titles as text). */
  function ReadOffre(fields: Fields): (r: Option<OffreJson>)
    ensures r.Some? ==> IntField(fields, "experience_requise_ans") == Some(r.value.experienceRequiseAns)
    ensures r.Some? ==> IntField(fields, "niveau_etudes_requis") == Some(r.value.niveauEtudesRequis)
    ensures r.Some? ==> StrListField(fields, "langues_requises") == Some(r.value.languesRequises)
    ensures r.Some? ==> StrListField(fields, "competences_requises") == Some(r.value.competencesRequises)
  {
    var titre: Option<Option<string>> :=
      match Lookup(fields, "titre")
      case None => Some(None)
      case Some(JStr(s)) => Some(Some(s))
      case Some(_) => None;
    var description := StrField(fields, "description", "");
    var competences := StrListField(fields, "competences_requises");
    var missions := StrField(fields, "missions", "");
    var annees := IntField(fields, "experience_requise_ans");
    var niveau := IntField(fields, "niveau_etudes_requis");
    var langues := StrListField(fields, "langues_requises");
    if titre.None? || description.None? || competences.None? || missions.None?
      || annees.None? || niveau.None? || langues.None? then None
    else
      Some(OffreJson(titre.value, description.value, competences.value, missions.value,
        annees.value, niveau.value, langues.value, Unread(fields)))
  }

  // ---------------------------------------------------------------------------
  // The request mapping
  // ---------------------------------------------------------------------------

  /** `d.get("skills") or []` as a skill list: a list is kept as it is, a
      string is split on "," without trimming, anything else is no skill.
      `None` when a listed skill is not a string (joining it raises). */
  function SkillsOf(d: Fields): (r: Option<seq<string>>)
    ensures !Truthy(Get(d, "skills")) ==> r == Some([])
    ensures forall s :: Get(d, "skills") == JStr(s) && s != "" ==> r == Some(Split(s, ','))
    ensures forall items :: Get(d, "skills") == JList(items) ==>
      (r.Some? <==> AllStr(items)) && (r.Some? ==> StrList(r.value) == JList(items))
  {
    var v := Get(d, "skills");
    if !Truthy(v) then Some([])
    else match v
      case JList(items) => if AllStr(items) then Some(Strs(items)) else None
      case JStr(s) => Some(Split(s, ','))
      case _ => Some([])
  }

  /** The candidate's education as a diploma: absent is "", a string is
      itself, anything else cannot be lower-cased. */
  function DiplomeOf(c: Fields): (r: Option<string>)
    ensures Lookup(c, "education").None? ==> r == Some("")
    ensures forall s :: Lookup(c, "education") == Some(JStr(s)) ==> r == Some(s)
    ensures r.Some? && Lookup(c, "education").Some? ==> Lookup(c, "education") == Some(JStr(r.value))
  {
    match Lookup(c, "education")
    case None => Some("")
    case Some(JStr(s)) => Some(s)
    case Some(_) => None
  }

  /** The period string `f"{experience} ans"`, 0 when absent. */
  function PeriodeOf(c: Fields): string {
    PyStr(Lookup(c, "experience").GetOr(JInt(0))) + " ans"
  }

  /** The CV built from `candidate`: its skills, one experience holding the
      period, one formation holding the education, no language. */
  function CompatCv(c: Fields): (r: Option<CvJson>)
    ensures r.Some? <==> SkillsOf(c).Some?
    ensures r.Some? ==> r.value == CvJson(SkillsOf(c).value, [Experience("", "", PeriodeOf(c))],
      [Formation(DiplomeOf(c))], [])
  {
    match SkillsOf(c)
    case None => None
    case Some(skills) => Some(CvJson(skills, [Experience("", "", PeriodeOf(c))], [Formation(DiplomeOf(c))], []))
  }

  /** The offer dict built from `job`, as written: the job's experience and
      education go under "experience_requise" and "niveau_etude". */
  function CompatOffreFields(j: Fields, skills: seq<string>): Fields {
    [("titre", JStr("Poste")), ("description", JStr("")), ("competences_requises", StrList(skills)),
     ("experience_requise", Lookup(j, "experience").GetOr(JInt(0))),
     ("niveau_etude", Lookup(j, "education").GetOr(JStr("")))]
  }

  /** The match of the built CV and offer, explanations always generated;
      any exception is a 500 error. */
  function MatchWith(cvO: Option<CvJson>, offreO: Option<OffreJson>, env: Services)
    : (r: Result<MatchingResult, HttpError>)
    ensures r.Success? <==> cvO.Some? && offreO.Some? && Accepted(cvO.value, offreO.value, true, env)
    ensures r.Failure? ==> r.error.status == 500
    ensures r.Success? ==> r.value == ExecuterMatching(cvO.value, offreO.value, None, None, true, env)
  {
    if cvO.None? || offreO.None? || !Scorable(cvO.value, offreO.value) then
      Failure(HttpError(500, "Erreur matching"))
    else
      var m := ExecuterMatching(cvO.value, offreO.value, None, None, true, env);
      if !Conforming(m) then Failure(HttpError(500, "Erreur matching")) else Success(m)
  }

  /** A list of strings reads back as itself. */
  lemma StrListRead(fields: Fields, key: string, xs: seq<string>)
    requires Lookup(fields, key) == Some(StrList(xs))
    ensures StrListField(fields, key) == Some(xs)
  {
    var items := StrList(xs).items;
    assert AllStr(items);
    assert Strs(items) == xs;
  }

  /** What each key of the route's offer dict reads back as. */
  lemma CompatOffreLookups(j: Fields, skills: seq<string>)
    ensures var f := CompatOffreFields(j, skills);
      && Lookup(f, "titre") == Some(JStr("Poste"))
      && Lookup(f, "description") == Some(JStr(""))
      && Lookup(f, "competences_requises") == Some(StrList(skills))
      && Lookup(f, "missions").None?
      && Lookup(f, "experience_requise_ans").None?
      && Lookup(f, "niveau_etudes_requis").None?
      && Lookup(f, "langues_requises").None?
  {
    CompatOffreHead(j, skills);
    CompatOffreAbsent(j, skills);
  }

  /** The route's offer dict's title, description and skills. */
  lemma CompatOffreHead(j: Fields, skills: seq<string>)
    ensures var f := CompatOffreFields(j, skills);
      && Lookup(f, "titre") == Some(JStr("Poste"))
      && Lookup(f, "description") == Some(JStr(""))
      && Lookup(f, "competences_requises") == Some(StrList(skills))
  {
    var f := CompatOffreFields(j, skills);
    assert |f[0].0| == 5 && |f[1].0| == 11 && |f[2].0| == 20 && |f[3].0| == 18 && |f[4].0| == 12;
    LookupAt(f, 0);
    LookupAt(f, 1);
    LookupAt(f, 2);
  }

  /** The route's offer dict has none of the engine's other keys. */
  lemma CompatOffreAbsent(j: Fields, skills: seq<string>)
    ensures var f := CompatOffreFields(j, skills);
      && Lookup(f, "missions").None?
      && Lookup(f, "experience_requise_ans").None?
      && Lookup(f, "niveau_etudes_requis").None?
      && Lookup(f, "langues_requises").None?
  {
    var f := CompatOffreFields(j, skills);
    assert |f[0].0| == 5 && |f[1].0| == 11 && |f[2].0| == 20 && |f[3].0| == 18 && |f[4].0| == 12;
    AbsentKey(f, "missions");
    AbsentKey(f, "experience_requise_ans");
    AbsentKey(f, "niveau_etudes_requis");
    AbsentKey(f, "langues_requises");
  }

  /** A key that differs from every entry's in length or first letter is
      absent. */
  lemma AbsentKey(f: Fields, key: string)
    requires key != []
    requires forall i :: 0 <= i < |f| ==> |f[i].0| != |key| || f[i].0[0] != key[0]
    ensures Lookup(f, key).None?
  {
  }

  /** The two job fields the route stores are keys the engine never reads. */
  lemma CompatOffreUnread(j: Fields, skills: seq<string>)
    ensures Unread(CompatOffreFields(j, skills)) == CompatOffreFields(j, skills)[3..]
  {
    var f := CompatOffreFields(j, skills);
    assert f[3].0 !in OffreKeys && f[4].0 !in OffreKeys;
    assert f[0].0 in OffreKeys && f[1].0 in OffreKeys && f[2].0 in OffreKeys;
    assert Unread(f[4..]) == [f[4]];
    assert Unread(f[3..]) == [f[3]] + Unread(f[4..]);
    assert Unread(f[2..]) == Unread(f[3..]);
    assert Unread(f[1..]) == Unread(f[2..]);
  }

  /** An offer dict with a text title and description, a list of skills
      and none of the other keys the engine reads requires nothing. */
  lemma ReadTitledOffre(f: Fields, titre: string, description: string, skills: seq<string>)
    requires Lookup(f, "titre") == Some(JStr(titre))
    requires Lookup(f, "description") == Some(JStr(description))
    requires Lookup(f, "competences_requises") == Some(StrList(skills))
    requires Lookup(f, "missions").None? && Lookup(f, "experience_requise_ans").None?
    requires Lookup(f, "niveau_etudes_requis").None? && Lookup(f, "langues_requises").None?
    ensures ReadOffre(f) == Some(OffreJson(Some(titre), description, skills, "", 0, 0, [], Unread(f)))
  {
    StrListRead(f, "competences_requises", skills);
  }

  /** The offer the route builds reads back as the title "Poste", the job's
      skills, and no requirement at all. */
  lemma CompatOffreRead(j: Fields, skills: seq<string>)
    ensures ReadOffre(CompatOffreFields(j, skills)) ==
      Some(OffreJson(Some("Poste"), "", skills, "", 0, 0, [], CompatOffreFields(j, skills)[3..]))
  {
    CompatOffreLookups(j, skills);
    CompatOffreUnread(j, skills);
    ReadTitledOffre(CompatOffreFields(j, skills), "Poste", "", skills);
  }

  /** The offer the route builds from `job`, as written: the title
      "Poste", the job's skills, no requirement at all, and the two job
      fields among the unread keys. `None` when a listed skill is not a
      string. */
  function CompatOffre(j: Fields): (r: Option<OffreJson>)
    ensures r.Some? <==> SkillsOf(j).Some?
    ensures r.Some? ==> (r.value ==
      OffreJson(Some("Poste"), "", SkillsOf(j).value, "", 0, 0, [], CompatOffreFields(j, SkillsOf(j).value)[3..]))
  {
    if SkillsOf(j).None? then None
    else
      CompatOffreRead(j, SkillsOf(j).value);
      ReadOffre(CompatOffreFields(j, SkillsOf(j).value))
  }

  /** match_candidate_to_offer, as written. It fails (500) exactly when a
      listed skill is not a string, the education is not text, or the
      response fails validation. */
  function MatchCompat(c: Fields, j: Fields, env: Services): (r: Result<MatchingResult, HttpError>)
    ensures r.Failure? ==> r.error.status == 500
    ensures r.Success? <==>
      && SkillsOf(c).Some? && SkillsOf(j).Some? && DiplomeOf(c).Some?
      && Accepted(CompatCv(c).value, CompatOffre(j).value, true, env)
  {
    MatchWith(CompatCv(c), CompatOffre(j), env)
  }

  /** With a model whose answers always fit their schemas, the route fails
      exactly when a listed skill is not a string or the education is not
      text. */
  lemma MatchCompatWellBehaved(c: Fields, j: Fields, env: Services)
    requires WellBehaved(env.llm)
    ensures MatchCompat(c, j, env).Success? <==> SkillsOf(c).Some? && SkillsOf(j).Some? && DiplomeOf(c).Some?
  {
    MatchWithWellBehaved(CompatCv(c), CompatOffre(j), env);
  }

  /** The offer dict the route evidently means to build: the job's years
      under "experience_requise_ans", and its education, as the level its
      title names, under "niveau_etudes_requis". */
  function CompatOffreFieldsIntended(j: Fields, skills: seq<string>): Fields {
    var education := Lookup(j, "education").GetOr(JStr(""));
    [("titre", JStr("Poste")), ("description", JStr("")), ("competences_requises", StrList(skills)),
     ("experience_requise_ans", Lookup(j, "experience").GetOr(JInt(0))),
     ("niveau_etudes_requis", if education.JStr? then JInt(DegreeLevel(education.s)) else education)]
  }

  /** match_candidate_to_offer with the job's requirements where the scorer
      reads them. */
  function MatchCompatIntended(c: Fields, j: Fields, env: Services): (r: Result<MatchingResult, HttpError>)
    ensures r.Failure? ==> r.error.status == 500
  {
    MatchWith(CompatCv(c), CompatOffreIntended(j), env)
  }

  /** The offer the corrected route builds from `job`; `None` when a listed
      skill is not a string or a requirement has a type the engine cannot
      compare. */
  function CompatOffreIntended(j: Fields): (r: Option<OffreJson>)
    ensures r.Some? ==> SkillsOf(j).Some?
  {
    if SkillsOf(j).None? then None else ReadOffre(CompatOffreFieldsIntended(j, SkillsOf(j).value))
  }

  // ---------------------------------------------------------------------------
  // What the route does with the candidate's experience
  // ---------------------------------------------------------------------------

  /** The candidate's years: a non-zero integer N reads as |N| years ("N
      ans"), while 0, or no experience at all, falls back to two years. */
  lemma CompatExperienceYears(c: Fields, n: int)
    requires Lookup(c, "experience") == Some(JInt(n)) || (Lookup(c, "experience").None? && n == 0)
    requires CompatCv(c).Some?
    ensures ExtraireAnneesExperience(CompatCv(c).value.experiences) == if n == 0 then 2 else if n < 0 then -n else n
  {
    var e := Experience("", "", PeriodeOf(c));
    assert PeriodeOf(c) == IntToString(n) + " ans";
    Periods.IntAnsPeriod(n);
    TotalSingle(e);
  }

  // ---------------------------------------------------------------------------
  // The job's requirements, as written and as intended
  // ---------------------------------------------------------------------------

  /** As written, a successful match always reports the job as requiring no
      years and no level, and scores experience, education and languages at
      100 %. */
  lemma CompatIgnoresJobRequirements(c: Fields, j: Fields, env: Services, r: Result<MatchingResult, HttpError>)
    requires r == MatchCompat(c, j, env) && r.Success?
    ensures r.value.details.experience.anneesRequises == 0 && r.value.details.formation.niveauRequis == 0
    ensures r.value.details.experience.score == 10000
    ensures r.value.details.formation.score == 10000
    ensures r.value.details.langues.score == 10000
  {
    var cv := CompatCv(c).value;
    var offre := CompatOffre(j).value;
    NoRequirementDetails(Similarity(cv, offre, None, None, env), cv, offre);
  }

  /** As written, the job's experience and education change nothing: any
      values in their place give the same response. */
  lemma JobRequirementsIgnored(c: Fields, j: Fields, v: Json, w: Json, env: Services)
    ensures MatchCompat(c, j + [("experience", v), ("education", w)], env) == MatchCompat(c, j, env)
  {
    var j2 := j + [("experience", v), ("education", w)];
    CompatOffreOtherOnly(j, v, w);
    if CompatOffre(j).Some? {
      MatchWithUnreadKeys(CompatCv(c), CompatOffre(j).value, CompatOffre(j2).value.other, env);
    }
  }

  /** The offer keys the engine never reads leave the route's answer alone. */
  lemma MatchWithUnreadKeys(cvO: Option<CvJson>, offre: OffreJson, other: seq<(string, Json)>, env: Services)
    ensures MatchWith(cvO, Some(offre.(other := other)), env) == MatchWith(cvO, Some(offre), env)
  {
    if cvO.Some? && Scorable(cvO.value, offre) {
      UnreadKeysIgnored(cvO.value, offre, other, None, None, true, env);
    }
  }

  /** Adding the job's experience and education changes only the unread
      keys of the offer the route builds. */
  lemma CompatOffreOtherOnly(j: Fields, v: Json, w: Json)
    ensures var j2 := j + [("experience", v), ("education", w)];
      && (CompatOffre(j2).Some? <==> CompatOffre(j).Some?)
      && (CompatOffre(j).Some? ==> CompatOffre(j2).value == CompatOffre(j).value.(other := CompatOffre(j2).value.other))
  {
    var j2 := j + [("experience", v), ("education", w)];
    assert j2 == (j + [("experience", v)]) + [("education", w)];
    GetOtherKey(j, "experience", v, "skills");
    GetOtherKey(j + [("experience", v)], "education", w, "skills");
    assert SkillsOf(j2) == SkillsOf(j);
  }

  /** What each key of the corrected offer dict reads back as. */
  lemma CompatOffreIntendedLookups(j: Fields, skills: seq<string>, n: int, edu: string)
    requires Lookup(j, "experience") == Some(JInt(n)) || (Lookup(j, "experience").None? && n == 0)
    requires Lookup(j, "education") == Some(JStr(edu)) || (Lookup(j, "education").None? && edu == "")
    ensures var f := CompatOffreFieldsIntended(j, skills);
      && Lookup(f, "titre") == Some(JStr("Poste"))
      && Lookup(f, "description") == Some(JStr(""))
      && Lookup(f, "competences_requises") == Some(StrList(skills))
      && Lookup(f, "experience_requise_ans") == Some(JInt(n))
      && Lookup(f, "niveau_etudes_requis") == Some(JInt(DegreeLevel(edu)))
      && Lookup(f, "missions").None? && Lookup(f, "langues_requises").None?
  {
    CompatOffreIntendedHead(j, skills);
    CompatOffreIntendedRequirements(j, skills);
    CompatOffreIntendedAbsent(j, skills);
  }

  /** The corrected offer dict's title, description and skills. */
  lemma CompatOffreIntendedHead(j: Fields, skills: seq<string>)
    ensures var f := CompatOffreFieldsIntended(j, skills);
      && Lookup(f, "titre") == Some(JStr("Poste"))
      && Lookup(f, "description") == Some(JStr(""))
      && Lookup(f, "competences_requises") == Some(StrList(skills))
  {
    var f := CompatOffreFieldsIntended(j, skills);
    assert |f[0].0| == 5 && |f[1].0| == 11 && |f[2].0| == 20 && |f[3].0| == 22 && f[4].0[0] == 'n';
    LookupAt(f, 0);
    LookupAt(f, 1);
    LookupAt(f, 2);
  }

  /** The corrected offer dict's years and level are the job's. */
  lemma CompatOffreIntendedRequirements(j: Fields, skills: seq<string>)
    ensures var f := CompatOffreFieldsIntended(j, skills);
      var education := Lookup(j, "education").GetOr(JStr(""));
      && Lookup(f, "experience_requise_ans") == Some(Lookup(j, "experience").GetOr(JInt(0)))
      && Lookup(f, "niveau_etudes_requis") == Some(if education.JStr? then JInt(DegreeLevel(education.s)) else education)
  {
    var f := CompatOffreFieldsIntended(j, skills);
    assert |f[3].0| == 22 && |f[4].0| == 20;
    LookupAt(f, 3);
    LookupAt(f, 4);
  }

  lemma CompatOffreIntendedAbsent(j: Fields, skills: seq<string>)
    ensures var f := CompatOffreFieldsIntended(j, skills);
      Lookup(f, "missions").None? && Lookup(f, "langues_requises").None?
  {
    var f := CompatOffreFieldsIntended(j, skills);
    assert |f[0].0| == 5 && |f[1].0| == 11 && |f[2].0| == 20 && |f[3].0| == 22 && |f[4].0| == 20;
    AbsentKey(f, "missions");
    AbsentKey(f, "langues_requises");
  }

  /** The corrected offer dict holds only keys the engine reads. */
  lemma CompatOffreIntendedUnread(j: Fields, skills: seq<string>)
    ensures Unread(CompatOffreFieldsIntended(j, skills)) == []
  {
    var f := CompatOffreFieldsIntended(j, skills);
    assert f[0].0 == OffreKeys[0] && f[1].0 == OffreKeys[1] && f[2].0 == OffreKeys[2];
    assert f[3].0 == OffreKeys[4] && f[4].0 == OffreKeys[5];
    UnreadAllRead(f);
  }

  /** An offer dict with a text title and description, a list of skills,
      integer years and level, and no missions or languages. */
  lemma ReadRequiringOffre(f: Fields, titre: string, description: string, skills: seq<string>, n: int, level: int)
    requires Lookup(f, "titre") == Some(JStr(titre))
    requires Lookup(f, "description") == Some(JStr(description))
    requires Lookup(f, "competences_requises") == Some(StrList(skills))
    requires Lookup(f, "experience_requise_ans") == Some(JInt(n))
    requires Lookup(f, "niveau_etudes_requis") == Some(JInt(level))
    requires Lookup(f, "missions").None? && Lookup(f, "langues_requises").None?
    ensures ReadOffre(f) == Some(OffreJson(Some(titre), description, skills, "", n, level, [], Unread(f)))
  {
    StrListRead(f, "competences_requises", skills);
  }

  /** The corrected offer reads back with the job's years and the level its
      education names. */
  lemma CompatOffreIntendedRead(j: Fields, skills: seq<string>, n: int, edu: string)
    requires Lookup(j, "experience") == Some(JInt(n)) || (Lookup(j, "experience").None? && n == 0)
    requires Lookup(j, "education") == Some(JStr(edu)) || (Lookup(j, "education").None? && edu == "")
    ensures ReadOffre(CompatOffreFieldsIntended(j, skills)) ==
      Some(OffreJson(Some("Poste"), "", skills, "", n, DegreeLevel(edu), [], []))
  {
    CompatOffreIntendedLookups(j, skills, n, edu);
    CompatOffreIntendedUnread(j, skills);
    ReadRequiringOffre(CompatOffreFieldsIntended(j, skills), "Poste", "", skills, n, DegreeLevel(edu));
  }

  /** A dict whose every key is read leaves nothing unread. */
  lemma {:induction false} UnreadAllRead(f: Fields)
    requires forall k :: 0 <= k < |f| ==> f[k].0 in OffreKeys
    ensures Unread(f) == []
    decreases |f|
  {
    if |f| > 0 {
      assert f[1..][0..0] == [];
      assert forall k :: 0 <= k < |f| - 1 ==> f[1..][k] == f[k + 1];
      UnreadAllRead(f[1..]);
    }
  }

  /** Corrected, the match reports the job's years and level and scores the
      candidate against them. */
  lemma CompatIntendedHonoursRequirements(
    c: Fields, j: Fields, env: Services, n: int, edu: string, r: Result<MatchingResult, HttpError>)
    requires Lookup(j, "experience") == Some(JInt(n)) || (Lookup(j, "experience").None? && n == 0)
    requires Lookup(j, "education") == Some(JStr(edu)) || (Lookup(j, "education").None? && edu == "")
    requires r == MatchCompatIntended(c, j, env)
    ensures r.Success? ==> SkillsOf(c).Some? && SkillsOf(j).Some? && DiplomeOf(c).Some?
    ensures r.Success? ==> r.value.details.experience.anneesRequises == n
    ensures r.Success? ==> r.value.details.formation.niveauRequis == DegreeLevel(edu)
    ensures r.Success? ==>
      r.value.details.experience.score == Percent(ExperienceScore(ExtraireAnneesExperience(CompatCv(c).value.experiences), n))
  {
    if SkillsOf(j).Some? {
      CompatOffreIntendedRead(j, SkillsOf(j).value, n, edu);
      var offre := OffreJson(Some("Poste"), "", SkillsOf(j).value, "", n, DegreeLevel(edu), [], []);
      assert CompatOffreIntended(j) == Some(offre);
      if r.Success? {
        MatchWithRequirements(CompatCv(c), offre, env, r);
      }
    }
  }

  /** Corrected, with a model whose answers always fit their schemas, the
      route fails exactly when a listed skill is not a string or the
      education is not text. */
  lemma MatchCompatIntendedWellBehaved(c: Fields, j: Fields, env: Services, n: int, edu: string)
    requires WellBehaved(env.llm)
    requires Lookup(j, "experience") == Some(JInt(n)) || (Lookup(j, "experience").None? && n == 0)
    requires Lookup(j, "education") == Some(JStr(edu)) || (Lookup(j, "education").None? && edu == "")
    ensures MatchCompatIntended(c, j, env).Success? <==> SkillsOf(c).Some? && SkillsOf(j).Some? && DiplomeOf(c).Some?
  {
    if SkillsOf(j).Some? {
      CompatOffreIntendedRead(j, SkillsOf(j).value, n, edu);
      var offre := OffreJson(Some("Poste"), "", SkillsOf(j).value, "", n, DegreeLevel(edu), [], []);
      assert CompatOffreIntended(j) == Some(offre);
    }
    MatchWithWellBehaved(CompatCv(c), CompatOffreIntended(j), env);
  }

  /** With a model whose answers always fit their schemas, the match fails
      exactly when the CV or the offer cannot be built or the scorer raises. */
  lemma MatchWithWellBehaved(cvO: Option<CvJson>, offreO: Option<OffreJson>, env: Services)
    requires WellBehaved(env.llm)
    ensures MatchWith(cvO, offreO, env).Success? <==> cvO.Some? && offreO.Some? && Scorable(cvO.value, offreO.value)
  {
    if cvO.Some? && offreO.Some? && Scorable(cvO.value, offreO.value) {
      ConformingMatch(cvO.value, offreO.value, None, None, true, env);
    }
  }

  /** A successful match reports the offer's years and level and scores the
      CV's years against the offer's. */
  lemma MatchWithRequirements(cvO: Option<CvJson>, offre: OffreJson, env: Services, r: Result<MatchingResult, HttpError>)
    requires r == MatchWith(cvO, Some(offre), env) && r.Success?
    ensures cvO.Some?
    ensures r.value.details.experience.anneesRequises == offre.experienceRequiseAns
    ensures r.value.details.formation.niveauRequis == offre.niveauEtudesRequis
    ensures r.value.details.experience.score
      == Percent(ExperienceScore(ExtraireAnneesExperience(cvO.value.experiences), offre.experienceRequiseAns))
  {
    var cv := cvO.value;
    ScoreFinalDetails(Similarity(cv, offre, None, None, env), cv, offre);
  }

  /** A candidate with one year of experience against a job asking for ten:
      as written the experience criterion scores 100 %, corrected it scores
      the 20 % floor. The language model's answers fit their schemas, so
      neither response fails validation. */
  lemma CompatRequirementWitness(env: Services)
    requires WellBehaved(env.llm)
    ensures var c := [("experience", JInt(1))];
      var j := [("experience", JInt(10))];
      && MatchCompat(c, j, env).Success?
      && MatchCompat(c, j, env).value.details.experience.score == 10000
      && MatchCompatIntended(c, j, env).Success?
      && MatchCompatIntended(c, j, env).value.details.experience.score == 2000
  {
    WitnessAsWritten(env);
    WitnessIntended(env);
  }

  /** The witness as written: the ten required years are not read. */
  lemma WitnessAsWritten(env: Services)
    requires WellBehaved(env.llm)
    ensures var c := [("experience", JInt(1))];
      var j := [("experience", JInt(10))];
      && MatchCompat(c, j, env).Success?
      && MatchCompat(c, j, env).value.details.experience.score == 10000
  {
    var c := [("experience", JInt(1))];
    var j := [("experience", JInt(10))];
    assert Lookup(c, "education").None?;
    assert Get(c, "skills") == JNull && Get(j, "skills") == JNull;
    MatchCompatWellBehaved(c, j, env);
    CompatIgnoresJobRequirements(c, j, env, MatchCompat(c, j, env));
  }

  /** The witness corrected: one year against ten scores the floor. */
  lemma WitnessIntended(env: Services)
    requires WellBehaved(env.llm)
    ensures var c := [("experience", JInt(1))];
      var j := [("experience", JInt(10))];
      && MatchCompatIntended(c, j, env).Success?
      && MatchCompatIntended(c, j, env).value.details.experience.score == 2000
  {
    var c := [("experience", JInt(1))];
    var j := [("experience", JInt(10))];
    assert Lookup(c, "education").None? && Lookup(j, "education").None?;
    assert Get(c, "skills") == JNull && Get(j, "skills") == JNull;
    CompatExperienceYears(c, 1);
    MatchCompatIntendedWellBehaved(c, j, env, 10, "");
    CompatIntendedHonoursRequirements(c, j, env, 10, "", MatchCompatIntended(c, j, env));
    assert ExperienceScore(1, 10) == 0.2;
  }
}
