/**
 * The matching routes (ai-recrutement-backend/app/api/matching.py): one CV
 * against one offer (`/score`), one CV against every open offer
 * (`/search-offres`) and one offer against every CV (`/search-candidats`).
 *
 * An exception inside the engine becomes a 500 error; the stored records
 * never carry an embedding, so the engine always computes both.
 */
module MatchingApi {
  import opened Wrappers
  import opened Strings
  import opened Scoring
  import opened Engine
  import opened Store
  import opened Ranking

  /** MatchingListResponse: the kept matches and how many were scored. */
  datatype MatchingList = MatchingList(matches: seq<MatchingResult>, totalResults: nat)

  function ScoreKey(m: MatchingResult): int {
    m.scoreFinal
  }

  /** How many elements `[:k]` keeps of a list of `n`. */
  function SliceLength(n: nat, k: int): nat {
    if k >= 0 then (if k < n then k else n)
    else if n + k > 0 then n + k else 0
  }

  /** Sorting by `score_final`, best first, then keeping `[:top_k]`; the total
      counts every scored item. The kept matches are a sub-multiset of the
      results, in order, and none left out beats one kept. The sort is
      stable, so among results of equal score those kept are the earliest
      in input order. */
  function Ranked(results: seq<MatchingResult>, topK: int): (r: MatchingList)
    ensures r.totalResults == |results|
    ensures |r.matches| == SliceLength(|results|, topK)
    ensures SortedDesc(r.matches, ScoreKey)
    ensures multiset(r.matches) <= multiset(results)
    ensures forall i, x :: 0 <= i < |r.matches| && x in multiset(results) - multiset(r.matches) ==>
      x.scoreFinal <= r.matches[i].scoreFinal
    ensures forall k :: WithKey(r.matches, ScoreKey, k) <= WithKey(results, ScoreKey, k)
  {
    var sorted := SortDesc(results, ScoreKey);
    var kept := PyPrefix(sorted, topK);
    LeftOutBelow(sorted, kept);
    assert kept == sorted[..|kept|];
    assert forall k :: WithKey(kept, ScoreKey, k) <= WithKey(results, ScoreKey, k) by {
      forall k
        ensures WithKey(kept, ScoreKey, k) <= WithKey(results, ScoreKey, k)
      {
        SortedPrefixStable(results, ScoreKey, |kept|, k);
      }
    }
    MatchingList(kept, |results|)
  }

  /** When every result has the same score, `[:top_k]` keeps them in the
      order they were scored: three open offers all at 70 with top_k 2 give
      the first two in table order. */
  lemma EqualScoresKeepOrder(results: seq<MatchingResult>, topK: int)
    requires forall i :: 0 <= i < |results| ==> results[i].scoreFinal == results[0].scoreFinal
    ensures Ranked(results, topK).matches == PyPrefix(results, topK)
  {
    var m := Ranked(results, topK).matches;
    var p := PyPrefix(results, topK);
    assert |m| == |p|;
    if results != [] {
      var k := results[0].scoreFinal;
      assert forall i :: 0 <= i < |results| ==> ScoreKey(results[i]) == k;
      SameKeyPrefix(results, m, ScoreKey, k);
      SamePrefix(m, p, results);
    }
  }

  /** A prefix of a ranking beats the rest of it. */
  lemma LeftOutBelow(sorted: seq<MatchingResult>, kept: seq<MatchingResult>)
    requires SortedDesc(sorted, ScoreKey) && kept <= sorted
    ensures SortedDesc(kept, ScoreKey)
    ensures multiset(kept) <= multiset(sorted)
    ensures forall i, x :: 0 <= i < |kept| && x in multiset(sorted) - multiset(kept) ==>
      x.scoreFinal <= kept[i].scoreFinal
  {
    var n := |kept|;
    assert kept == sorted[..n];
    PrefixBeatsRest(sorted, n, ScoreKey);
    PrefixMultiset(sorted, n);
  }

  /** executer_matching of one CV against each offer, in order, each result
      validated as a MatchingResponse; `None` when one of them raises. */
  function MatchOffres(cv: CvJson, offres: seq<OffreJson>, generer: bool, env: Services)
    : (r: Option<seq<MatchingResult>>)
    ensures r.Some? <==> forall i :: 0 <= i < |offres| ==> Accepted(cv, offres[i], generer, env)
    ensures r.Some? ==> |r.value| == |offres|
    ensures r.Some? ==> forall i :: 0 <= i < |offres| ==>
      r.value[i] == ExecuterMatching(cv, offres[i], None, None, generer, env)
  {
    if forall i :: 0 <= i < |offres| ==> Accepted(cv, offres[i], generer, env) then
      Some(seq(|offres|, i requires 0 <= i < |offres| && Scorable(cv, offres[i]) =>
        ExecuterMatching(cv, offres[i], None, None, generer, env)))
    else None
  }

  /** executer_matching of each CV against one offer, in order, each result
      validated as a MatchingResponse; `None` when one of them raises. */
  function MatchCvs(cvs: seq<CvJson>, offre: OffreJson, generer: bool, env: Services)
    : (r: Option<seq<MatchingResult>>)
    ensures r.Some? <==> forall i :: 0 <= i < |cvs| ==> Accepted(cvs[i], offre, generer, env)
    ensures r.Some? ==> |r.value| == |cvs|
    ensures r.Some? ==> forall i :: 0 <= i < |cvs| ==>
      r.value[i] == ExecuterMatching(cvs[i], offre, None, None, generer, env)
  {
    if forall i :: 0 <= i < |cvs| ==> Accepted(cvs[i], offre, generer, env) then
      Some(seq(|cvs|, i requires 0 <= i < |cvs| && Scorable(cvs[i], offre) =>
        ExecuterMatching(cvs[i], offre, None, None, generer, env)))
    else None
  }

  /** The offers open to candidates, in table order. */
  function OpenOffres(db: Db): (r: seq<Offre>)
    ensures forall i :: 0 <= i < |r| ==> r[i].statut == "ouverte" && r[i] in db.offres
    ensures forall o :: o in db.offres && o.statut == "ouverte" ==> o in r
  {
    Filter(db.offres, (o: Offre) => o.statut == "ouverte")
  }

  function OffreJsons(offres: seq<Offre>): (r: seq<OffreJson>)
    ensures |r| == |offres| && forall i :: 0 <= i < |offres| ==> r[i] == OffreJsonOf(offres[i])
  {
    seq(|offres|, i requires 0 <= i < |offres| => OffreJsonOf(offres[i]))
  }

  function CvJsons(cvs: seq<Cv>): (r: seq<CvJson>)
    ensures |r| == |cvs| && forall i :: 0 <= i < |cvs| ==> r[i] == CvJsonOf(cvs[i])
  {
    seq(|cvs|, i requires 0 <= i < |cvs| => CvJsonOf(cvs[i]))
  }

  /** POST /matching/score. */
  function ScoreRoute(db: Db, cvId: Id, offreId: Id, generer: bool, env: Services)
    : (r: Result<MatchingResult, HttpError>)
    ensures CvById(db, cvId).None? ==> r == Failure(HttpError(404, "CV " + cvId + " introuvable"))
    ensures CvById(db, cvId).Some? && OffreById(db, offreId).None? ==>
      r == Failure(HttpError(404, "Offre " + offreId + " introuvable"))
    ensures CvById(db, cvId).Some? && OffreById(db, offreId).Some? ==>
      var cv := CvJsonOf(CvById(db, cvId).value);
      var offre := OffreJsonOf(OffreById(db, offreId).value);
      && (r.Success? <==> Accepted(cv, offre, generer, env))
      && (r.Failure? ==> r.error.status == 500)
      && (r.Success? ==> r.value == ExecuterMatching(cv, offre, None, None, generer, env))
  {
    match CvById(db, cvId)
    case None => Failure(HttpError(404, "CV " + cvId + " introuvable"))
    case Some(cv) =>
      match OffreById(db, offreId)
      case None => Failure(HttpError(404, "Offre " + offreId + " introuvable"))
      case Some(o) =>
        var cvJ := CvJsonOf(cv);
        var offreJ := OffreJsonOf(o);
        if !Scorable(cvJ, offreJ) then Failure(HttpError(500, "Erreur lors du matching"))
        else
          var m := ExecuterMatching(cvJ, offreJ, None, None, generer, env);
          if !Conforming(m) then Failure(HttpError(500, "Erreur lors du matching")) else Success(m)
  }

  /** SearchMatchingRequest accepts `top_k` from 1 to 20; anything else is
      refused before the route runs. */
  predicate ValidTopK(topK: int) {
    1 <= topK <= 20
  }

  /** POST /matching/search-offres. */
  function SearchOffres(db: Db, cvId: Id, topK: int, generer: bool, env: Services)
    : (r: Result<MatchingList, HttpError>)
    ensures !ValidTopK(topK) ==> r.Failure? && r.error.status == 422
    ensures ValidTopK(topK) && CvById(db, cvId).None? ==>
      r == Failure(HttpError(404, "CV " + cvId + " introuvable"))
    ensures ValidTopK(topK) && CvById(db, cvId).Some? ==>
      var cv := CvJsonOf(CvById(db, cvId).value);
      var offres := OffreJsons(OpenOffres(db));
      && (r.Success? <==> forall i :: 0 <= i < |offres| ==> Accepted(cv, offres[i], generer, env))
      && (r.Failure? ==> r.error.status == 500)
      && (r.Success? ==> r.value == Ranked(MatchOffres(cv, offres, generer, env).value, topK))
    ensures r.Success? ==> r.value.totalResults == |OpenOffres(db)|
    ensures r.Success? ==> |r.value.matches| == SliceLength(|OpenOffres(db)|, topK) <= 20
  {
    if !ValidTopK(topK) then Failure(HttpError(422, "top_k"))
    else match CvById(db, cvId)
      case None => Failure(HttpError(404, "CV " + cvId + " introuvable"))
      case Some(cv) =>
        var open := OpenOffres(db);
        if |open| == 0 then Success(MatchingList([], 0))
        else
          var cvJ := CvJsonOf(cv);
          var results := MatchOffres(cvJ, OffreJsons(open), generer, env);
          if results.None? then Failure(HttpError(500, "Erreur lors de la recherche"))
          else Success(Ranked(results.value, topK))
  }

  /** POST /matching/search-candidats/{offre_id}. Its `top_k` is a plain
      query integer: a negative one drops that many results from the end. */
  function SearchCandidats(db: Db, offreId: Id, topK: int, generer: bool, env: Services)
    : (r: Result<MatchingList, HttpError>)
    ensures OffreById(db, offreId).None? ==> r == Failure(HttpError(404, "Offre " + offreId + " introuvable"))
    ensures OffreById(db, offreId).Some? ==>
      var offre := OffreJsonOf(OffreById(db, offreId).value);
      var cvs := CvJsons(db.cvs);
      && (r.Success? <==> forall i :: 0 <= i < |cvs| ==> Accepted(cvs[i], offre, generer, env))
      && (r.Failure? ==> r.error.status == 500)
      && (r.Success? ==> r.value == Ranked(MatchCvs(cvs, offre, generer, env).value, topK))
    ensures r.Success? ==> r.value.totalResults == |db.cvs|
    ensures r.Success? ==> |r.value.matches| == SliceLength(|db.cvs|, topK)
  {
    match OffreById(db, offreId)
    case None => Failure(HttpError(404, "Offre " + offreId + " introuvable"))
    case Some(o) =>
      if |db.cvs| == 0 then Success(MatchingList([], 0))
      else
        var results := MatchCvs(CvJsons(db.cvs), OffreJsonOf(o), generer, env);
        if results.None? then Failure(HttpError(500, "Erreur lors de la recherche"))
        else Success(Ranked(results.value, topK))
  }

  /** The early return on an empty table agrees with ranking nothing. */
  lemma EmptyRankedIsEmpty(topK: int)
    ensures Ranked([], topK) == MatchingList([], 0)
  {
  }

  /** `m` is what executer_matching returns for the CV and the offer. */
  predicate MatchOf(cv: CvJson, o: Offre, generer: bool, env: Services, m: MatchingResult) {
    Scorable(cv, OffreJsonOf(o)) && m == ExecuterMatching(cv, OffreJsonOf(o), None, None, generer, env)
  }

  /** Every match `/search-offres` returns is the match of the CV against
      one of the open offers. */
  lemma SearchOffresFromOpenOffres(db: Db, cvId: Id, topK: int, generer: bool, env: Services, i: nat)
    requires SearchOffres(db, cvId, topK, generer, env).Success?
    requires i < |SearchOffres(db, cvId, topK, generer, env).value.matches|
    ensures var cv := CvJsonOf(CvById(db, cvId).value);
      var m := SearchOffres(db, cvId, topK, generer, env).value.matches[i];
      exists j :: 0 <= j < |OpenOffres(db)| && MatchOf(cv, OpenOffres(db)[j], generer, env, m)
  {
    var r := SearchOffres(db, cvId, topK, generer, env);
    assert ValidTopK(topK) && CvById(db, cvId).Some?;
    var cv := CvJsonOf(CvById(db, cvId).value);
    var offres := OffreJsons(OpenOffres(db));
    var mo := MatchOffres(cv, offres, generer, env);
    assert mo.Some? && r.value == Ranked(mo.value, topK);
    KeptFromResults(mo.value, topK, i);
    ResultFromOffre(cv, OpenOffres(db), generer, env, r.value.matches[i]);
  }

  /** Each of the CV's matches against a list of offers is its match
      against one of them. */
  lemma ResultFromOffre(cv: CvJson, offres: seq<Offre>, generer: bool, env: Services, m: MatchingResult)
    requires MatchOffres(cv, OffreJsons(offres), generer, env).Some?
    requires m in MatchOffres(cv, OffreJsons(offres), generer, env).value
    ensures exists j :: 0 <= j < |offres| && MatchOf(cv, offres[j], generer, env, m)
  {
    var js := OffreJsons(offres);
    var results := MatchOffres(cv, js, generer, env).value;
    var j :| 0 <= j < |results| && results[j] == m;
    assert js[j] == OffreJsonOf(offres[j]);
    assert Accepted(cv, js[j], generer, env);
    assert MatchOf(cv, offres[j], generer, env, m);
  }

  /** Every kept match is one of the ranked results. */
  lemma KeptFromResults(results: seq<MatchingResult>, topK: int, i: nat)
    requires i < |Ranked(results, topK).matches|
    ensures Ranked(results, topK).matches[i] in results
  {
    var kept := Ranked(results, topK).matches;
    assert kept[i] in multiset(kept);
  }
}
