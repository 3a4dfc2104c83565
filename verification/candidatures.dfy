/**
 * Applications (ai-recrutement-backend/app/api/candidatures.py): a candidate
 * applies to an open offer with one of their CVs, which is scored on the
 * spot; the offer's recruiter moves it between statuses; both sides list
 * and read them.
 *
 * The caller is the active user the authentication layer resolved; the new
 * row's id and timestamp are parameters.
 */
module Candidatures {
  import opened Wrappers
  import opened Strings
  import opened Json
  import opened Scoring
  import opened Engine
  import opened Explanations
  import opened Store
  import opened Ranking

  /** At most one application per (candidate, offer). */
  predicate UniquePairs(cs: seq<Candidature>) {
    forall a, b :: 0 <= a < b < |cs| ==> cs[a].candidatId != cs[b].candidatId || cs[a].offreId != cs[b].offreId
  }

  /** No two applications share an id. */
  predicate UniqueIds(cs: seq<Candidature>) {
    forall a, b :: 0 <= a < b < |cs| ==> cs[a].id != cs[b].id
  }

  const Forbidden := HttpError(403, "Forbidden (role)")

  /** The dict every route returns for an application. The score is the
      stored two-decimal number (in hundredths) and the date the stored
      timestamp; their rendering as a float and an ISO string is not
      modelled. */
  datatype CandidatureResponse = CandidatureResponse(
    id: Id, candidatId: Id, offreId: Id, statut: string,
    scoreMatching: Option<Hundredths>, explication: Option<string>, dateCandidature: int)

  /** _candidature_to_response: every stored field, under its response key. */
  function ToResponse(c: Candidature): (r: CandidatureResponse)
    ensures r.id == c.id && r.candidatId == c.candidatId && r.offreId == c.offreId
    ensures r.statut == c.statut && r.scoreMatching == c.scoreMatching
    ensures r.explication == c.explication && r.dateCandidature == c.date
  {
    CandidatureResponse(c.id, c.candidatId, c.offreId, c.statut, c.scoreMatching, c.explication, c.date)
  }

  /** Reading a response back gives the row it was made from. */
  function FromResponse(r: CandidatureResponse): (c: Candidature)
    ensures ToResponse(c) == r
  {
    Candidature(r.id, r.candidatId, r.offreId, r.statut, r.scoreMatching, r.explication, r.dateCandidature)
  }

  /** The response loses nothing: distinct applications give distinct
      responses. */
  lemma ResponseRoundTrip(c: Candidature)
    ensures FromResponse(ToResponse(c)) == c
  {
  }

  // ---------------------------------------------------------------------------
  // Creation
  // ---------------------------------------------------------------------------

  datatype CreateRequest = CreateRequest(offreId: Id, cvId: Id)

  /** The explanation stored with an application: the recruiter synthesis
      and the candidate message, or nothing when there are no explanations.
      Reading a key of a side that is not a dict raises. */
  function ExplanationText(ex: Option<Explications>): (r: Result<Option<string>, HttpError>)
    ensures ex.None? ==> r == Success(None)
    ensures r.Success? && ex.Some? ==>
      && ex.value.pourRecruteur.JObj? && ex.value.pourCandidat.JObj?
      && r.value == Some("Recruteur: " + PyStr(Lookup(ex.value.pourRecruteur.fields, "synthese").GetOr(JStr("")))
           + " | Candidat: " + PyStr(Lookup(ex.value.pourCandidat.fields, "message_principal").GetOr(JStr(""))))
    ensures r.Failure? ==> r.error.status == 500
  {
    match ex
    case None => Success(None)
    case Some(e) =>
      if !e.pourRecruteur.JObj? || !e.pourCandidat.JObj? then Failure(HttpError(500, "Internal Server Error"))
      else
        var synthese := PyStr(Lookup(e.pourRecruteur.fields, "synthese").GetOr(JStr("")));
        var message := PyStr(Lookup(e.pourCandidat.fields, "message_principal").GetOr(JStr("")));
        Success(Some("Recruteur: " + synthese + " | Candidat: " + message))
  }

  /** With the recruiter fallback on the recruiter side, the stored text
      states the score right after the synthesis prefix. */
  lemma FallbackTextStatesScore(e: Explications, score: Hundredths, band: string)
    requires e.pourRecruteur == RecruiterFallback(score, band).ToJson() && e.pourCandidat.JObj?
    ensures var t := ExplanationText(Some(e));
      t.Success? && t.value.Some? && ReadBetween(t.value.value, "Recruteur: " + SynthesePrefix, '%') == Some(score)
  {
    var fb := RecruiterFallback(score, band);
    assert Lookup(e.pourRecruteur.fields, "synthese") == Some(JStr(fb.synthese));
    FallbackSyntheseText(score, band, PyStr(Lookup(e.pourCandidat.fields, "message_principal").GetOr(JStr(""))));
  }

  /** The recruiter fallback's synthesis, framed as the stored text frames
      it, still states the score. */
  lemma FallbackSyntheseText(score: Hundredths, band: string, m: string)
    ensures ReadBetween("Recruteur: " + RecruiterFallback(score, band).synthese + " | Candidat: " + m,
      "Recruteur: " + SynthesePrefix, '%') == Some(score)
  {
    var rest := "%. Recommandation : " + band + ".";
    assert RecruiterFallback(score, band).synthese == SynthesePrefix + FormatScore(score) + rest;
    Regroup("Recruteur: ", SynthesePrefix, FormatScore(score), rest, " | Candidat: ", m);
    assert (rest + " | Candidat: " + m)[0] == rest[0] == '%';
    ReadBetweenScore("Recruteur: " + SynthesePrefix, score, rest + " | Candidat: " + m);
  }

  /** Moving the frame's prefix onto the synthesis prefix. */
  lemma Regroup(a: string, p: string, f: string, r: string, c: string, m: string)
    ensures a + (p + f + r) + c + m == (a + p) + f + (r + c + m)
  {
  }

  /** When both explanation calls fail, the stored text states the score. */
  lemma StoredExplanationStatesScore(score: Hundredths, d: Details, band: string, titre: string, llm: Llm)
    requires llm.recruteur(RecruiterPromptOf(score, d, band, titre)).None?
    requires llm.candidat(CandidatePromptOf(score, d, band, titre)).None?
    ensures var t := ExplanationText(Some(GenererExplicationsCompletes(score, d, band, titre, llm)));
      t.Success? && t.value.Some? && ReadBetween(t.value.value, "Recruteur: " + SynthesePrefix, '%') == Some(score)
  {
    CandidateSideOnFailure(score, d, band, titre, llm);
    FallbackTextStatesScore(GenererExplicationsCompletes(score, d, band, titre, llm), score, band);
  }

  /** The checks create_candidature makes, in order; each includes the ones
      before it. */
  predicate IsCandidat(caller: User) {
    caller.role == CandidatRole
  }

  predicate HasProfile(db: Db, caller: User) {
    IsCandidat(caller) && CandidatOfUser(db, caller.id).Some?
  }

  predicate CvFound(db: Db, caller: User, body: CreateRequest) {
    HasProfile(db, caller) && CvById(db, body.cvId).Some?
  }

  predicate CvOwned(db: Db, caller: User, body: CreateRequest) {
    CvFound(db, caller, body) && CvById(db, body.cvId).value.candidatId == CandidatOfUser(db, caller.id).value.id
  }

  predicate OffreFound(db: Db, caller: User, body: CreateRequest) {
    CvOwned(db, caller, body) && OffreById(db, body.offreId).Some?
  }

  predicate OffreOpen(db: Db, caller: User, body: CreateRequest) {
    OffreFound(db, caller, body) && OffreById(db, body.offreId).value.statut == "ouverte"
  }

  /** The candidate has not applied to this offer yet. */
  predicate FirstApplication(db: Db, caller: User, body: CreateRequest) {
    && OffreOpen(db, caller, body)
    && forall k :: 0 <= k < |db.candidatures| ==>
         db.candidatures[k].candidatId != CandidatOfUser(db, caller.id).value.id
         || db.candidatures[k].offreId != body.offreId
  }

  /** The match computed for an application that passed every check. */
  function ApplicationMatch(db: Db, caller: User, body: CreateRequest, env: Services): MatchingResult
    requires FirstApplication(db, caller, body)
    requires Scorable(CvJsonOf(CvById(db, body.cvId).value), OffreJsonOf(OffreById(db, body.offreId).value))
  {
    ExecuterMatching(CvJsonOf(CvById(db, body.cvId).value), OffreJsonOf(OffreById(db, body.offreId).value),
      None, None, true, env)
  }

  /** POST /candidatures: the store with the new application appended, and
      that application. */
  function CreateCandidature(db: Db, caller: User, body: CreateRequest, newId: Id, now: int, env: Services)
    : (r: Result<(Db, Candidature), HttpError>)
    ensures !IsCandidat(caller) ==> r == Failure(Forbidden)
    ensures IsCandidat(caller) && !HasProfile(db, caller) ==>
      r == Failure(HttpError(403, "Profil candidat introuvable"))
    ensures HasProfile(db, caller) && !CvFound(db, caller, body) ==> r == Failure(HttpError(404, "CV introuvable"))
    ensures CvFound(db, caller, body) && !CvOwned(db, caller, body) ==> r == Failure(HttpError(403, "CV non autorisé"))
    ensures CvOwned(db, caller, body) && !OffreFound(db, caller, body) ==>
      r == Failure(HttpError(404, "Offre introuvable"))
    ensures OffreFound(db, caller, body) && !OffreOpen(db, caller, body) ==>
      r == Failure(HttpError(400, "Offre non ouverte aux candidatures"))
    ensures OffreOpen(db, caller, body) && !FirstApplication(db, caller, body) ==>
      r == Failure(HttpError(400, "Candidature déjà déposée pour cette offre"))
    ensures r.Failure? && !FirstApplication(db, caller, body) ==> r.error.status in {400, 403, 404}
    ensures r.Failure? && FirstApplication(db, caller, body) ==> r.error.status == 500
    ensures r.Success? ==>
      && FirstApplication(db, caller, body)
      && r.value.0 == db.(candidatures := db.candidatures + [r.value.1])
      && r.value.1.id == newId && r.value.1.date == now
      && r.value.1.candidatId == CandidatOfUser(db, caller.id).value.id
      && r.value.1.offreId == body.offreId
      && r.value.1.statut == "pending"
      && Scorable(CvJsonOf(CvById(db, body.cvId).value), OffreJsonOf(OffreById(db, body.offreId).value))
      && r.value.1.scoreMatching == Some(ApplicationMatch(db, caller, body, env).scoreFinal)
      && ExplanationText(ApplicationMatch(db, caller, body, env).explications) == Success(r.value.1.explication)
  {
    if !IsCandidat(caller) then Failure(Forbidden)
    else if !HasProfile(db, caller) then Failure(HttpError(403, "Profil candidat introuvable"))
    else if !CvFound(db, caller, body) then Failure(HttpError(404, "CV introuvable"))
    else if !CvOwned(db, caller, body) then Failure(HttpError(403, "CV non autorisé"))
    else if !OffreFound(db, caller, body) then Failure(HttpError(404, "Offre introuvable"))
    else if !OffreOpen(db, caller, body) then Failure(HttpError(400, "Offre non ouverte aux candidatures"))
    else if !FirstApplication(db, caller, body) then Failure(HttpError(400, "Candidature déjà déposée pour cette offre"))
    else
      Admit(db, CandidatOfUser(db, caller.id).value.id, body.offreId,
        CvJsonOf(CvById(db, body.cvId).value), OffreJsonOf(OffreById(db, body.offreId).value), newId, now, env)
  }

  /** What create_candidature does once every check passed: score the CV
      against the offer, build the explanation text and insert the row. Any
      exception on the way is a 500. */
  function Admit(
    db: Db, candidatId: Id, offreId: Id, cvJ: CvJson, offreJ: OffreJson, newId: Id, now: int, env: Services)
    : (r: Result<(Db, Candidature), HttpError>)
    ensures r.Failure? ==> r.error.status == 500
    ensures r.Success? ==>
      && Scorable(cvJ, offreJ)
      && CandidatureById(db, newId).None?
      && r.value.0 == db.(candidatures := db.candidatures + [r.value.1])
      && r.value.1.id == newId && r.value.1.date == now
      && r.value.1.candidatId == candidatId && r.value.1.offreId == offreId
      && r.value.1.statut == "pending"
      && r.value.1.scoreMatching == Some(ExecuterMatching(cvJ, offreJ, None, None, true, env).scoreFinal)
      && ExplanationText(ExecuterMatching(cvJ, offreJ, None, None, true, env).explications) == Success(r.value.1.explication)
  {
    if !Scorable(cvJ, offreJ) then Failure(HttpError(500, "Erreur matching"))
    else
      var m := ExecuterMatching(cvJ, offreJ, None, None, true, env);
      var text := ExplanationText(m.explications);
      if text.Failure? then Failure(text.error)
      else if CandidatureById(db, newId).Some? then Failure(HttpError(500, "Internal Server Error"))
      else
        var row := Candidature(newId, candidatId, offreId, "pending", Some(m.scoreFinal), text.value, now);
        Success((db.(candidatures := db.candidatures + [row]), row))
  }

  /** A successful application keeps one application per (candidate, offer)
      and unique ids. */
  lemma CreatePreservesInvariants(db: Db, caller: User, body: CreateRequest, newId: Id, now: int, env: Services)
    requires UniquePairs(db.candidatures) && UniqueIds(db.candidatures)
    requires CreateCandidature(db, caller, body, newId, now, env).Success?
    ensures var db2 := CreateCandidature(db, caller, body, newId, now, env).value.0;
      UniquePairs(db2.candidatures) && UniqueIds(db2.candidatures)
  {
    var row := CreateCandidature(db, caller, body, newId, now, env).value.1;
    assert CandidatureById(db, newId).None?;
    var cs := db.candidatures + [row];
    forall a, b | 0 <= a < b < |cs|
      ensures cs[a].candidatId != cs[b].candidatId || cs[a].offreId != cs[b].offreId
      ensures cs[a].id != cs[b].id
    {
      if b == |cs| - 1 {
        assert cs[a] == db.candidatures[a];
      }
    }
  }

  /** Applying twice to the same offer fails the second time. */
  lemma NoSecondApplication(
    db: Db, caller: User, body: CreateRequest, id1: Id, id2: Id, t1: int, t2: int, env: Services)
    requires CreateCandidature(db, caller, body, id1, t1, env).Success?
    ensures var db2 := CreateCandidature(db, caller, body, id1, t1, env).value.0;
      CreateCandidature(db2, caller, body, id2, t2, env) == Failure(HttpError(400, "Candidature déjà déposée pour cette offre"))
  {
    var r := CreateCandidature(db, caller, body, id1, t1, env).value;
    AppendedPairBlocks(db, r.0, caller, body, r.1);
  }

  /** Once a row for the caller and the offer is appended, the checks up to
      the open offer still pass and the application is no longer the first. */
  lemma AppendedPairBlocks(db: Db, db2: Db, caller: User, body: CreateRequest, row: Candidature)
    requires OffreOpen(db, caller, body)
    requires db2 == db.(candidatures := db.candidatures + [row])
    requires row.candidatId == CandidatOfUser(db, caller.id).value.id && row.offreId == body.offreId
    ensures OffreOpen(db2, caller, body) && !FirstApplication(db2, caller, body)
  {
    assert db2.candidatures[|db.candidatures|] == row;
  }

  // ---------------------------------------------------------------------------
  // Status update
  // ---------------------------------------------------------------------------

  /** The statuses a recruiter may set; any may follow any other. */
  const ValidStatuts: seq<string> := ["pending", "interview", "accepted", "rejected"]

  /** The offer of the application belongs to the calling recruiter. */
  predicate OwnsOffreOf(db: Db, caller: User, c: Candidature) {
    && RecruteurOfUser(db, caller.id).Some?
    && OffreById(db, c.offreId).Some?
    && OffreById(db, c.offreId).value.recruteurId == RecruteurOfUser(db, caller.id).value.id
  }

  /** PATCH /candidatures/{id}/statut: the store with the status replaced,
      and the updated application. */
  function UpdateStatut(db: Db, caller: User, candidatureId: Id, statut: string)
    : (r: Result<(Db, Candidature), HttpError>)
    ensures caller.role != RecruteurRole ==> r == Failure(Forbidden)
    ensures caller.role == RecruteurRole && statut !in ValidStatuts ==>
      r == Failure(HttpError(400, "Statut invalide. Valeurs autorisées: " + Join(ValidStatuts, ", ")))
    ensures caller.role == RecruteurRole && statut in ValidStatuts && CandidatureById(db, candidatureId).None? ==>
      r == Failure(HttpError(404, "Candidature introuvable"))
    ensures (caller.role == RecruteurRole && statut in ValidStatuts && CandidatureById(db, candidatureId).Some?
             && !OwnsOffreOf(db, caller, CandidatureById(db, candidatureId).value)) ==>
      r == Failure(HttpError(403, "Vous n'êtes pas autorisé à modifier cette candidature"))
    ensures r.Success? ==>
      var i := CandidatureIndex(db, candidatureId);
      && statut in ValidStatuts
      && CandidatureById(db, candidatureId) == Some(db.candidatures[i])
      && OwnsOffreOf(db, caller, db.candidatures[i])
      && r.value.1 == db.candidatures[i].(statut := statut)
      && r.value.0 == db.(candidatures := db.candidatures[i := r.value.1])
  {
    if caller.role != RecruteurRole then Failure(Forbidden)
    else if statut !in ValidStatuts then
      Failure(HttpError(400, "Statut invalide. Valeurs autorisées: " + Join(ValidStatuts, ", ")))
    else
      var i := CandidatureIndex(db, candidatureId);
      if i == |db.candidatures| then Failure(HttpError(404, "Candidature introuvable"))
      else
        var c := db.candidatures[i];
        if !OwnsOffreOf(db, caller, c) then
          Failure(HttpError(403, "Vous n'êtes pas autorisé à modifier cette candidature"))
        else
          var updated := c.(statut := statut);
          Success((db.(candidatures := db.candidatures[i := updated]), updated))
  }

  /** A status update changes only that application's status: the pairs,
      ids, scores, explanations and dates of every application stay. */
  lemma UpdateKeepsAllButStatut(db: Db, caller: User, candidatureId: Id, statut: string, k: nat)
    requires UpdateStatut(db, caller, candidatureId, statut).Success?
    requires k < |db.candidatures|
    ensures var c2 := UpdateStatut(db, caller, candidatureId, statut).value.0.candidatures[k];
      && c2 == db.candidatures[k].(statut := c2.statut)
      && (db.candidatures[k].id != candidatureId ==> c2 == db.candidatures[k])
  {
  }

  /** Setting the same status twice leaves the store as the first time. */
  lemma UpdateIdempotent(db: Db, caller: User, candidatureId: Id, statut: string)
    requires UpdateStatut(db, caller, candidatureId, statut).Success?
    ensures var db2 := UpdateStatut(db, caller, candidatureId, statut).value.0;
      UpdateStatut(db2, caller, candidatureId, statut).Success?
      && UpdateStatut(db2, caller, candidatureId, statut).value.0 == db2
  {
    var db2 := UpdateStatut(db, caller, candidatureId, statut).value.0;
    var i := CandidatureIndex(db, candidatureId);
    assert CandidatureIndex(db2, candidatureId) == i by {
      var j := CandidatureIndex(db2, candidatureId);
      assert j <= i by {
        assert db2.candidatures[i].id == candidatureId;
      }
    }
    assert db2.offres == db.offres && db2.recruteurs == db.recruteurs;
    assert db2.candidatures[i].offreId == db.candidatures[i].offreId;
  }

  /** A status update keeps one application per (candidate, offer) and
      unique ids. */
  lemma UpdatePreservesInvariants(db: Db, caller: User, candidatureId: Id, statut: string)
    requires UniquePairs(db.candidatures) && UniqueIds(db.candidatures)
    requires UpdateStatut(db, caller, candidatureId, statut).Success?
    ensures var db2 := UpdateStatut(db, caller, candidatureId, statut).value.0;
      UniquePairs(db2.candidatures) && UniqueIds(db2.candidatures)
  {
    var cs := db.candidatures;
    var cs2 := UpdateStatut(db, caller, candidatureId, statut).value.0.candidatures;
    forall k | 0 <= k < |cs|
      ensures cs2[k].id == cs[k].id && cs2[k].candidatId == cs[k].candidatId && cs2[k].offreId == cs[k].offreId
    {
      UpdateKeepsAllButStatut(db, caller, candidatureId, statut, k);
    }
  }

  // ---------------------------------------------------------------------------
  // Listing and reading
  // ---------------------------------------------------------------------------

  function DateKey(c: Candidature): int {
    c.date
  }

  /** `order_by(date_candidature.desc())`: newest first. */
  function NewestFirst(cs: seq<Candidature>): (r: seq<Candidature>)
    ensures SortedDesc(r, DateKey)
    ensures multiset(r) == multiset(cs)
  {
    SortDesc(cs, DateKey)
  }

  /** GET /candidatures: a candidate's own applications, or those to one of
      the calling recruiter's offers, newest first. */
  function ListCandidatures(db: Db, caller: User, offreId: Option<Id>): (r: Result<seq<Candidature>, HttpError>)
    ensures caller.role == CandidatRole && CandidatOfUser(db, caller.id).None? ==>
      r == Failure(HttpError(403, "Profil candidat introuvable"))
    ensures caller.role == CandidatRole && CandidatOfUser(db, caller.id).Some? ==>
      r == Success(NewestFirst(Filter(db.candidatures,
        (c: Candidature) => c.candidatId == CandidatOfUser(db, caller.id).value.id)))
    ensures caller.role != CandidatRole && RecruteurOfUser(db, caller.id).None? ==>
      r == Failure(HttpError(403, "Profil recruteur introuvable"))
    ensures caller.role != CandidatRole && RecruteurOfUser(db, caller.id).Some? && (offreId.None? || offreId.value == "") ==>
      r == Failure(HttpError(400, "offre_id requis pour le recruteur"))
    ensures caller.role != CandidatRole && r.Success? ==>
      && RecruteurOfUser(db, caller.id).Some? && offreId.Some?
      && (exists k :: 0 <= k < |db.offres| && db.offres[k].id == offreId.value
                   && db.offres[k].recruteurId == RecruteurOfUser(db, caller.id).value.id)
      && r.value == NewestFirst(Filter(db.candidatures, (c: Candidature) => c.offreId == offreId.value))
    ensures (caller.role != CandidatRole && RecruteurOfUser(db, caller.id).Some? && offreId.Some? && offreId.value != ""
             && forall k :: 0 <= k < |db.offres| ==>
                  db.offres[k].id != offreId.value || db.offres[k].recruteurId != RecruteurOfUser(db, caller.id).value.id) ==>
      r == Failure(HttpError(403, "Offre non autorisée"))
  {
    if caller.role == CandidatRole then
      match CandidatOfUser(db, caller.id)
      case None => Failure(HttpError(403, "Profil candidat introuvable"))
      case Some(cand) => Success(NewestFirst(Filter(db.candidatures, (c: Candidature) => c.candidatId == cand.id)))
    else
      match RecruteurOfUser(db, caller.id)
      case None => Failure(HttpError(403, "Profil recruteur introuvable"))
      case Some(rec) =>
        if offreId.None? || offreId.value == "" then Failure(HttpError(400, "offre_id requis pour le recruteur"))
        else
          var own := Filter(db.offres, (o: Offre) => o.recruteurId == rec.id);
          if !(exists k :: 0 <= k < |own| && own[k].id == offreId.value) then
            Failure(HttpError(403, "Offre non autorisée"))
          else
            Success(NewestFirst(Filter(db.candidatures, (c: Candidature) => c.offreId == offreId.value)))
  }

  /** A candidate's listing holds exactly their applications. */
  lemma CandidatListsOwn(db: Db, caller: User, x: Candidature)
    requires caller.role == CandidatRole && CandidatOfUser(db, caller.id).Some?
    ensures var r := ListCandidatures(db, caller, None);
      r.Success? && (x in r.value <==> x in db.candidatures && x.candidatId == CandidatOfUser(db, caller.id).value.id)
  {
    var cs := Filter(db.candidatures, (c: Candidature) => c.candidatId == CandidatOfUser(db, caller.id).value.id);
    var r := NewestFirst(cs);
    assert x in r <==> x in multiset(r);
    assert x in cs <==> x in multiset(cs);
  }

  /** GET /candidatures/{id}: found first, then the caller must be its
      candidate or the recruiter of its offer. */
  function GetCandidature(db: Db, caller: User, id: Id): (r: Result<Candidature, HttpError>)
    ensures CandidatureById(db, id).None? ==> r == Failure(HttpError(404, "Candidature introuvable"))
    ensures r.Success? ==> CandidatureById(db, id) == Some(r.value)
    ensures r.Success? && caller.role == CandidatRole ==>
      CandidatOfUser(db, caller.id).Some? && r.value.candidatId == CandidatOfUser(db, caller.id).value.id
    ensures r.Success? && caller.role != CandidatRole ==> OwnsOffreOf(db, caller, r.value)
    ensures CandidatureById(db, id).Some? && r.Failure? ==> r.error == HttpError(403, "Accès non autorisé")
    ensures CandidatureById(db, id).Some? && caller.role == CandidatRole && CandidatOfUser(db, caller.id).Some?
      && CandidatureById(db, id).value.candidatId == CandidatOfUser(db, caller.id).value.id
      ==> r == Success(CandidatureById(db, id).value)
    ensures CandidatureById(db, id).Some? && caller.role != CandidatRole && OwnsOffreOf(db, caller, CandidatureById(db, id).value)
      ==> r == Success(CandidatureById(db, id).value)
  {
    match CandidatureById(db, id)
    case None => Failure(HttpError(404, "Candidature introuvable"))
    case Some(c) =>
      if caller.role == CandidatRole then
        var cand := CandidatOfUser(db, caller.id);
        if cand.None? || c.candidatId != cand.value.id then Failure(HttpError(403, "Accès non autorisé"))
        else Success(c)
      else if !OwnsOffreOf(db, caller, c) then Failure(HttpError(403, "Accès non autorisé"))
      else Success(c)
  }
}
