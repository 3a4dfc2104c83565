/**
 * The persistent store the HTTP routes work on (the ORM models under
 * ai-recrutement-backend/app/models/), as immutable tables.
 *
 * Each table is a sequence in insertion order. A query's `.first()` is the
 * first matching row in that order; a table's `uuid4` ids are parameters of
 * the operations that insert rows.
 */
module Store {
  import opened Wrappers
  import opened Scoring

  type Id = string

  datatype Role = CandidatRole | RecruteurRole {
    /** The stored enum value. */
    function Value(): string {
      match this
      case CandidatRole => "candidat"
      case RecruteurRole => "recruteur"
    }
  }

  /** A row of `utilisateurs`; `motDePasse` is the stored hash. */
  datatype User = User(id: Id, email: string, motDePasse: string, role: Role, isActive: bool)

  /** A row of `candidats`, linked to its user by `userId`. */
  datatype Candidat = Candidat(id: Id, userId: Id, nom: string)

  /** A row of `recruteurs`, linked to its user by `userId`. */
  datatype Recruteur = Recruteur(id: Id, userId: Id, entreprise: string)

  /** A row of `cvs`; `structure` is `None` when `json_structure` is null or
      an empty dict. */
  datatype Cv = Cv(id: Id, candidatId: Id, structure: Option<CvJson>)

  /** A row of `offres_emploi`; `statut` is "ouverte" or "fermee". */
  datatype Offre = Offre(
    id: Id, recruteurId: Id, titre: string, description: string, statut: string,
    structure: Option<OffreJson>)

  /** A row of `candidatures`. `date` is the insertion timestamp. */
  datatype Candidature = Candidature(
    id: Id, candidatId: Id, offreId: Id, statut: string,
    scoreMatching: Option<Hundredths>, explication: Option<string>, date: int)

  datatype Db = Db(
    users: seq<User>,
    candidats: seq<Candidat>,
    recruteurs: seq<Recruteur>,
    cvs: seq<Cv>,
    offres: seq<Offre>,
    candidatures: seq<Candidature>)

  /** An `HTTPException`: its status code and detail text. */
  datatype HttpError = HttpError(status: nat, detail: string)

  // ---------------------------------------------------------------------------
  // Queries
  // ---------------------------------------------------------------------------

  /** The position of the first row satisfying `p`, `|xs|` when none does. */
  function FirstIndex<T>(xs: seq<T>, p: T -> bool): (i: nat)
    ensures i <= |xs|
    ensures forall j :: 0 <= j < i ==> !p(xs[j])
    ensures i < |xs| ==> p(xs[i])
  {
    if |xs| == 0 then 0
    else if p(xs[0]) then 0
    else
      var i := FirstIndex(xs[1..], p);
      assert forall j :: 1 <= j < i + 1 ==> xs[j] == xs[1..][j - 1];
      i + 1
  }

  /** `query.filter(p).first()`. */
  function First<T>(xs: seq<T>, p: T -> bool): (r: Option<T>)
    ensures r.None? <==> forall j :: 0 <= j < |xs| ==> !p(xs[j])
    ensures r.Some? ==> exists j :: 0 <= j < |xs| && xs[j] == r.value && p(r.value)
  {
    var i := FirstIndex(xs, p);
    if i < |xs| then Some(xs[i]) else None
  }

  /** `query.filter(p).all()`, in table order. */
  function Filter<T>(xs: seq<T>, p: T -> bool): (r: seq<T>)
    ensures |r| <= |xs|
    ensures forall j :: 0 <= j < |r| ==> p(r[j])
    ensures forall j :: 0 <= j < |r| ==> r[j] in xs
    ensures forall x :: x in xs && p(x) ==> x in r
  {
    if |xs| == 0 then []
    else (if p(xs[0]) then [xs[0]] else []) + Filter(xs[1..], p)
  }

  /** get_user_by_id. */
  function UserById(db: Db, id: Id): (r: Option<User>)
    ensures r.None? <==> forall j :: 0 <= j < |db.users| ==> db.users[j].id != id
    ensures r.Some? ==> r.value in db.users && r.value.id == id
  {
    First(db.users, (u: User) => u.id == id)
  }

  /** get_user_by_email: the earliest user in table order holding the
      email, so a login reads the same row however many share it. */
  function UserByEmail(db: Db, email: string): (r: Option<User>)
    ensures r.None? <==> forall j :: 0 <= j < |db.users| ==> db.users[j].email != email
    ensures r.Some? ==> r.value in db.users && r.value.email == email
    ensures r.Some? ==>
      exists j :: (0 <= j < |db.users| && db.users[j] == r.value &&
                   forall i :: 0 <= i < j ==> db.users[i].email != email)
  {
    var p := (u: User) => u.email == email;
    var i := FirstIndex(db.users, p);
    if i < |db.users| then
      assert forall k :: 0 <= k < i ==> db.users[k].email != email by {
        forall k | 0 <= k < i
          ensures db.users[k].email != email
        {
          assert !p(db.users[k]);
        }
      }
      Some(db.users[i])
    else
      assert forall j :: 0 <= j < |db.users| ==> !p(db.users[j]);
      None
  }

  /** get_candidat_by_user_id. */
  function CandidatOfUser(db: Db, userId: Id): (r: Option<Candidat>)
    ensures r.None? <==> forall j :: 0 <= j < |db.candidats| ==> db.candidats[j].userId != userId
    ensures r.Some? ==> r.value in db.candidats && r.value.userId == userId
  {
    First(db.candidats, (c: Candidat) => c.userId == userId)
  }

  /** get_recruteur_by_user_id. */
  function RecruteurOfUser(db: Db, userId: Id): (r: Option<Recruteur>)
    ensures r.None? <==> forall j :: 0 <= j < |db.recruteurs| ==> db.recruteurs[j].userId != userId
    ensures r.Some? ==> r.value in db.recruteurs && r.value.userId == userId
  {
    First(db.recruteurs, (c: Recruteur) => c.userId == userId)
  }

  function CvById(db: Db, id: Id): (r: Option<Cv>)
    ensures r.None? <==> forall j :: 0 <= j < |db.cvs| ==> db.cvs[j].id != id
    ensures r.Some? ==> r.value in db.cvs && r.value.id == id
  {
    First(db.cvs, (c: Cv) => c.id == id)
  }

  function OffreById(db: Db, id: Id): (r: Option<Offre>)
    ensures r.None? <==> forall j :: 0 <= j < |db.offres| ==> db.offres[j].id != id
    ensures r.Some? ==> r.value in db.offres && r.value.id == id
  {
    First(db.offres, (o: Offre) => o.id == id)
  }

  /** The position of the first application with this id, `|candidatures|`
      when there is none. */
  function CandidatureIndex(db: Db, id: Id): (i: nat)
    ensures i <= |db.candidatures|
    ensures forall j :: 0 <= j < i ==> db.candidatures[j].id != id
    ensures i < |db.candidatures| ==> db.candidatures[i].id == id
  {
    FirstIndex(db.candidatures, (c: Candidature) => c.id == id)
  }

  function CandidatureById(db: Db, id: Id): (r: Option<Candidature>)
    ensures r.None? <==> forall j :: 0 <= j < |db.candidatures| ==> db.candidatures[j].id != id
    ensures r.Some? ==> r.value in db.candidatures && r.value.id == id
    ensures r.Some? ==> r.value == db.candidatures[CandidatureIndex(db, id)]
  {
    var i := CandidatureIndex(db, id);
    if i < |db.candidatures| then Some(db.candidatures[i]) else None
  }

  // ---------------------------------------------------------------------------
  // Stored JSON as the matching engine receives it
  // ---------------------------------------------------------------------------

  /** `cv.json_structure or {}`. */
  function CvJsonOf(cv: Cv): (r: CvJson)
    ensures cv.structure.None? ==> r == EmptyCv
  {
    cv.structure.GetOr(EmptyCv)
  }

  /** `offre.json_structure or {"titre": ..., "description": ...}`: without a
      structure the offer is its title and description, requiring nothing. */
  function OffreJsonOf(o: Offre): (r: OffreJson)
    ensures o.structure.Some? ==> r == o.structure.value
    ensures o.structure.None? ==>
      && r.titre == Some(o.titre) && r.description == o.description
      && r.competencesRequises == [] && r.missions == "" && r.languesRequises == []
      && r.experienceRequiseAns == 0 && r.niveauEtudesRequis == 0
  {
    o.structure.GetOr(OffreJson(Some(o.titre), o.description, [], "", 0, 0, [], []))
  }

  /** A CV without a structure never makes the scorer raise, whatever the
      offer. */
  lemma DefaultCvScorable(cv: Cv, o: Offre)
    requires cv.structure.None?
    ensures Scorable(CvJsonOf(cv), OffreJsonOf(o))
  {
  }
}
