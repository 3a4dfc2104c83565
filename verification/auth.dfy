/**
 * Registration and login (ai-recrutement-backend/app/services/auth_service.py):
 * a new user gets a role and exactly one profile of that role, and logging in
 * finds the user by email and checks the password.
 *
 * Password hashing and checking are parameters (`hash`, `verify`), and so
 * are the `uuid4` ids of the new rows.
 */
module Auth {
  import opened Wrappers
  import opened Strings
  import opened Store

  /** A `ValueError` the registration route turns into a 400 with its
      message, or a constraint the database refuses on commit. */
  datatype AuthError = ValueError(message: string) | IntegrityError

  /** No two users share an email. */
  predicate UniqueEmails(users: seq<User>) {
    forall a, b :: 0 <= a < b < |users| ==> users[a].email != users[b].email
  }

  /** Every profile belongs to an existing user (the `user_id` foreign
      keys), no two profiles of one table share a user (the `user_id`
      unique constraints), and no user has both a candidate and a recruiter
      profile (registration creates one profile per user). */
  predicate ProfilesLinked(db: Db) {
    && (forall k :: 0 <= k < |db.candidats| ==> UserById(db, db.candidats[k].userId).Some?)
    && (forall k :: 0 <= k < |db.recruteurs| ==> UserById(db, db.recruteurs[k].userId).Some?)
    && (forall a, b :: 0 <= a < b < |db.candidats| ==> db.candidats[a].userId != db.candidats[b].userId)
    && (forall a, b :: 0 <= a < b < |db.recruteurs| ==> db.recruteurs[a].userId != db.recruteurs[b].userId)
    && (forall a, b :: 0 <= a < |db.candidats| && 0 <= b < |db.recruteurs| ==>
          db.candidats[a].userId != db.recruteurs[b].userId)
  }

  /** `RoleEnum(role)`: the two stored role values, anything else refused. */
  function RoleOf(role: string): (r: Option<Role>)
    ensures r.Some? <==> role == "candidat" || role == "recruteur"
    ensures r.Some? ==> r.value.Value() == role
  {
    if role == "candidat" then Some(CandidatRole)
    else if role == "recruteur" then Some(RecruteurRole)
    else None
  }

  /** Every role reads back from its stored value. */
  lemma RoleRoundTrip(x: Role)
    ensures RoleOf(x.Value()) == Some(x)
  {
  }

  /** Python's `a or b` on an optional string: `a` unless it is `None` or
      empty. */
  function OrElse(a: Option<string>, b: string): (r: string)
    ensures a.Some? && a.value != "" ==> r == a.value
    ensures a.None? || a.value == "" ==> r == b
  {
    if a.Some? && a.value != "" then a.value else b
  }

  /** `email.split("@")[0]`: the text before the first `@`. */
  function LocalPart(email: string): (r: string)
    ensures r <= email && '@' !in r
    ensures |r| < |email| ==> email[|r|] == '@'
  {
    SplitHead(email, '@');
    Split(email, '@')[0]
  }

  /** The first piece of a split is the text before the first separator. */
  lemma {:induction false} SplitHead(s: string, sep: char)
    ensures var h := Split(s, sep)[0];
      h <= s && sep !in h && (|h| < |s| ==> s[|h|] == sep)
    decreases |s|
  {
    if |s| > 0 && s[0] != sep {
      SplitHead(s[1..], sep);
      var h := Split(s[1..], sep)[0];
      assert Split(s, sep)[0] == [s[0]] + h;
    }
  }

  /** Names are stored in columns of 255 characters. */
  const MaxNameLength := 255

  /** A candidate's name: the given name, else the email's local part,
      else "Candidat"; stripped, then cut to 255 characters. */
  function CandidatName(email: string, nom: Option<string>): (r: string)
    ensures |r| <= MaxNameLength
    ensures r == [] || !IsSpace(r[0])
    ensures r <= Strip(OrElse(nom, OrElse(Some(LocalPart(email)), "Candidat")))
    ensures var s := Strip(OrElse(nom, OrElse(Some(LocalPart(email)), "Candidat")));
      |r| == if |s| < MaxNameLength then |s| else MaxNameLength
  {
    PyPrefix(Strip(OrElse(nom, OrElse(Some(LocalPart(email)), "Candidat"))), MaxNameLength)
  }

  /** A recruiter's company: the given name, else "Mon entreprise";
      stripped, then cut to 255 characters. */
  function EntrepriseName(nom: Option<string>): (r: string)
    ensures |r| <= MaxNameLength
    ensures r == [] || !IsSpace(r[0])
    ensures r <= Strip(OrElse(nom, "Mon entreprise"))
    ensures var s := Strip(OrElse(nom, "Mon entreprise"));
      |r| == if |s| < MaxNameLength then |s| else MaxNameLength
  {
    PyPrefix(Strip(OrElse(nom, "Mon entreprise")), MaxNameLength)
  }

  /** Without a name, a candidate is named after a short, stripped local part
      of their email. */
  lemma NameFromEmail(local: string, domain: string)
    requires '@' !in local && local != [] && IsStripped(local) && |local| <= MaxNameLength
    ensures CandidatName(local + "@" + domain, None) == local
  {
    var email := local + "@" + domain;
    assert email[|local|] == '@';
    var l := LocalPart(email);
    assert email[..|local|] == local;
    assert forall i :: 0 <= i < |local| ==> email[i] == local[i];
    assert l == local;
    StripStripped(local);
  }

  /** Without a name and with nothing before the `@`, a candidate is named
      "Candidat". */
  lemma NameDefault(domain: string)
    ensures CandidatName("@" + domain, None) == "Candidat"
  {
    assert ("@" + domain)[0] == '@';
    assert LocalPart("@" + domain) == "";
    StripStripped("Candidat");
  }

  /** A name of only whitespace is kept as given and strips to nothing: the
      stored name is then empty. */
  lemma BlankNameGivesEmpty(email: string, nom: string)
    requires nom != [] && IsBlank(nom)
    ensures CandidatName(email, Some(nom)) == []
    ensures EntrepriseName(Some(nom)) == []
  {
  }

  /** create_user: the store with the new user and its profile, and the new
      user. */
  function CreateUser(
    db: Db, email: string, password: string, role: string, nom: Option<string>,
    userId: Id, profileId: Id, hash: string -> string)
    : (r: Result<(Db, User), AuthError>)
    ensures UserByEmail(db, email).Some? ==> r == Failure(ValueError("Email already registered"))
    ensures UserByEmail(db, email).None? && RoleOf(role).None? ==>
      r == Failure(ValueError("'" + role + "' is not a valid RoleEnum"))
    ensures r.Failure? && UserByEmail(db, email).None? && RoleOf(role).Some? ==> r.error == IntegrityError
    ensures r.Success? ==>
      && UserByEmail(db, email).None?
      && UserById(db, userId).None?
      && r.value.1 == User(userId, email, hash(password), RoleOf(role).value, true)
      && r.value.1.role.Value() == role
      && r.value.0.users == db.users + [r.value.1]
      && r.value.0.cvs == db.cvs && r.value.0.offres == db.offres && r.value.0.candidatures == db.candidatures
    ensures r.Success? && role == "candidat" ==>
      && r.value.0.candidats == db.candidats + [Candidat(profileId, userId, CandidatName(email, nom))]
      && r.value.0.recruteurs == db.recruteurs
    ensures r.Success? && role == "recruteur" ==>
      && r.value.0.recruteurs == db.recruteurs + [Recruteur(profileId, userId, EntrepriseName(nom))]
      && r.value.0.candidats == db.candidats
  {
    if UserByEmail(db, email).Some? then Failure(ValueError("Email already registered"))
    else if RoleOf(role).None? then Failure(ValueError("'" + role + "' is not a valid RoleEnum"))
    else if UserById(db, userId).Some? then Failure(IntegrityError)
    else
      var user := User(userId, email, hash(password), RoleOf(role).value, true);
      var db1 := db.(users := db.users + [user]);
      if role == "candidat" then
        if (exists k :: 0 <= k < |db.candidats| && (db.candidats[k].id == profileId || db.candidats[k].userId == userId)) then
          Failure(IntegrityError)
        else Success((db1.(candidats := db.candidats + [Candidat(profileId, userId, CandidatName(email, nom))]), user))
      else
        if (exists k :: 0 <= k < |db.recruteurs| && (db.recruteurs[k].id == profileId || db.recruteurs[k].userId == userId)) then
          Failure(IntegrityError)
        else Success((db1.(recruteurs := db.recruteurs + [Recruteur(profileId, userId, EntrepriseName(nom))]), user))
  }

  /** Registration keeps emails unique. */
  lemma CreateKeepsEmailsUnique(
    db: Db, email: string, password: string, role: string, nom: Option<string>,
    userId: Id, profileId: Id, hash: string -> string)
    requires UniqueEmails(db.users)
    requires CreateUser(db, email, password, role, nom, userId, profileId, hash).Success?
    ensures UniqueEmails(CreateUser(db, email, password, role, nom, userId, profileId, hash).value.0.users)
  {
    var users := CreateUser(db, email, password, role, nom, userId, profileId, hash).value.0.users;
    forall a, b | 0 <= a < b < |users|
      ensures users[a].email != users[b].email
    {
      if b == |db.users| {
        assert users[a] == db.users[a];
      }
    }
  }

  /** Registering the same email twice fails the second time. */
  lemma NoSecondRegistration(
    db: Db, email: string, p1: string, p2: string, role1: string, role2: string,
    nom1: Option<string>, nom2: Option<string>, u1: Id, u2: Id, q1: Id, q2: Id, hash: string -> string)
    requires CreateUser(db, email, p1, role1, nom1, u1, q1, hash).Success?
    ensures var db2 := CreateUser(db, email, p1, role1, nom1, u1, q1, hash).value.0;
      CreateUser(db2, email, p2, role2, nom2, u2, q2, hash) == Failure(ValueError("Email already registered"))
  {
    var r := CreateUser(db, email, p1, role1, nom1, u1, q1, hash).value;
    assert r.0.users[|db.users|] == r.1;
  }

  /** Under linked profiles, a user id no user has carries no profile. */
  lemma FreshUserHasNoProfile(db: Db, userId: Id)
    requires ProfilesLinked(db) && UserById(db, userId).None?
    ensures forall k :: 0 <= k < |db.candidats| ==> db.candidats[k].userId != userId
    ensures forall k :: 0 <= k < |db.recruteurs| ==> db.recruteurs[k].userId != userId
  {
    forall k | 0 <= k < |db.candidats|
      ensures db.candidats[k].userId != userId
    {
      assert UserById(db, db.candidats[k].userId).Some?;
    }
    forall k | 0 <= k < |db.recruteurs|
      ensures db.recruteurs[k].userId != userId
    {
      assert UserById(db, db.recruteurs[k].userId).Some?;
    }
  }

  /** Adding a user keeps every user id found. */
  lemma UserAddedKeepsIds(db: Db, db2: Db, u: User, id: Id)
    requires db2.users == db.users + [u]
    requires UserById(db, id).Some? || id == u.id
    ensures UserById(db2, id).Some?
  {
    if id == u.id {
      assert db2.users[|db.users|].id == id;
    } else {
      var j :| 0 <= j < |db.users| && db.users[j].id == id;
      assert db2.users[j].id == id;
    }
  }

  /** Registration links every profile, old and new, to a user. */
  lemma CreateKeepsProfilesLinked(
    db: Db, email: string, password: string, role: string, nom: Option<string>,
    userId: Id, profileId: Id, hash: string -> string)
    requires ProfilesLinked(db)
    requires CreateUser(db, email, password, role, nom, userId, profileId, hash).Success?
    ensures ProfilesLinked(CreateUser(db, email, password, role, nom, userId, profileId, hash).value.0)
  {
    var r := CreateUser(db, email, password, role, nom, userId, profileId, hash).value;
    if role == "candidat" {
      CandidatRegistered(db, r.0, r.1, Candidat(profileId, userId, CandidatName(email, nom)));
    } else {
      RecruteurRegistered(db, r.0, r.1, Recruteur(profileId, userId, EntrepriseName(nom)));
    }
  }

  /** A new candidate user with their one profile keeps the profiles linked. */
  lemma CandidatRegistered(db: Db, db2: Db, u: User, c: Candidat)
    requires ProfilesLinked(db) && UserById(db, u.id).None? && db2.users == db.users + [u]
    requires db2.candidats == db.candidats + [c] && c.userId == u.id && db2.recruteurs == db.recruteurs
    ensures ProfilesLinked(db2)
  {
    LinkedAfterRegistration(db, db2, u);
  }

  /** A new recruiter user with their one profile keeps the profiles linked. */
  lemma RecruteurRegistered(db: Db, db2: Db, u: User, p: Recruteur)
    requires ProfilesLinked(db) && UserById(db, u.id).None? && db2.users == db.users + [u]
    requires db2.recruteurs == db.recruteurs + [p] && p.userId == u.id && db2.candidats == db.candidats
    ensures ProfilesLinked(db2)
  {
    LinkedAfterRegistration(db, db2, u);
  }

  /** A new user with exactly one profile of their own keeps the profiles
      linked. */
  lemma LinkedAfterRegistration(db: Db, db2: Db, u: User)
    requires ProfilesLinked(db) && UserById(db, u.id).None? && db2.users == db.users + [u]
    requires db.candidats <= db2.candidats && db.recruteurs <= db2.recruteurs
    requires |db2.candidats| + |db2.recruteurs| == |db.candidats| + |db.recruteurs| + 1
    requires forall k :: |db.candidats| <= k < |db2.candidats| ==> db2.candidats[k].userId == u.id
    requires forall k :: |db.recruteurs| <= k < |db2.recruteurs| ==> db2.recruteurs[k].userId == u.id
    ensures ProfilesLinked(db2)
  {
    LinkedAfterAdd(db, db2, u);
    DistinctAfterAdd(db, db2, u);
  }

  /** Adding a new user and one profile of that user keeps the profiles'
      users distinct. */
  lemma DistinctAfterAdd(db: Db, db2: Db, u: User)
    requires ProfilesLinked(db) && UserById(db, u.id).None?
    requires db.candidats <= db2.candidats && db.recruteurs <= db2.recruteurs
    requires |db2.candidats| + |db2.recruteurs| == |db.candidats| + |db.recruteurs| + 1
    requires forall k :: |db.candidats| <= k < |db2.candidats| ==> db2.candidats[k].userId == u.id
    requires forall k :: |db.recruteurs| <= k < |db2.recruteurs| ==> db2.recruteurs[k].userId == u.id
    ensures forall a, b :: 0 <= a < b < |db2.candidats| ==> db2.candidats[a].userId != db2.candidats[b].userId
    ensures forall a, b :: 0 <= a < b < |db2.recruteurs| ==> db2.recruteurs[a].userId != db2.recruteurs[b].userId
    ensures forall a, b :: 0 <= a < |db2.candidats| && 0 <= b < |db2.recruteurs| ==>
      db2.candidats[a].userId != db2.recruteurs[b].userId
  {
    FreshUserHasNoProfile(db, u.id);
  }

  /** Adding a user, and profiles linked to that user only, keeps every
      profile linked to a user. */
  lemma LinkedAfterAdd(db: Db, db2: Db, u: User)
    requires ProfilesLinked(db) && db2.users == db.users + [u]
    requires db.candidats <= db2.candidats && db.recruteurs <= db2.recruteurs
    requires forall k :: |db.candidats| <= k < |db2.candidats| ==> db2.candidats[k].userId == u.id
    requires forall k :: |db.recruteurs| <= k < |db2.recruteurs| ==> db2.recruteurs[k].userId == u.id
    ensures forall k :: 0 <= k < |db2.candidats| ==> UserById(db2, db2.candidats[k].userId).Some?
    ensures forall k :: 0 <= k < |db2.recruteurs| ==> UserById(db2, db2.recruteurs[k].userId).Some?
  {
    forall k | 0 <= k < |db2.candidats|
      ensures UserById(db2, db2.candidats[k].userId).Some?
    {
      if k < |db.candidats| {
        assert db2.candidats[k] == db.candidats[k];
      }
      UserAddedKeepsIds(db, db2, u, db2.candidats[k].userId);
    }
    forall k | 0 <= k < |db2.recruteurs|
      ensures UserById(db2, db2.recruteurs[k].userId).Some?
    {
      if k < |db.recruteurs| {
        assert db2.recruteurs[k] == db.recruteurs[k];
      }
      UserAddedKeepsIds(db, db2, u, db2.recruteurs[k].userId);
    }
  }

  /** A new candidate has exactly one profile, a candidate one. */
  lemma CandidatGetsOneProfile(
    db: Db, email: string, password: string, nom: Option<string>,
    userId: Id, profileId: Id, hash: string -> string)
    requires ProfilesLinked(db)
    requires CreateUser(db, email, password, "candidat", nom, userId, profileId, hash).Success?
    ensures var db2 := CreateUser(db, email, password, "candidat", nom, userId, profileId, hash).value.0;
      && CandidatOfUser(db2, userId) == Some(Candidat(profileId, userId, CandidatName(email, nom)))
      && (forall k :: 0 <= k < |db2.candidats| && db2.candidats[k].userId == userId ==> k == |db.candidats|)
      && RecruteurOfUser(db2, userId).None?
  {
    var db2 := CreateUser(db, email, password, "candidat", nom, userId, profileId, hash).value.0;
    CandidatAppended(db, db2, Candidat(profileId, userId, CandidatName(email, nom)));
  }

  /** Appending a candidate row for a user id no user has: that row is the
      user's only profile. */
  lemma CandidatAppended(db: Db, db2: Db, c: Candidat)
    requires ProfilesLinked(db) && UserById(db, c.userId).None?
    requires db2.candidats == db.candidats + [c] && db2.recruteurs == db.recruteurs
    ensures CandidatOfUser(db2, c.userId) == Some(c)
    ensures forall k :: 0 <= k < |db2.candidats| && db2.candidats[k].userId == c.userId ==> k == |db.candidats|
    ensures RecruteurOfUser(db2, c.userId).None?
  {
    FreshUserHasNoProfile(db, c.userId);
    var cs := db2.candidats;
    assert cs[|db.candidats|] == c;
    assert forall k :: 0 <= k < |db.candidats| ==> cs[k] == db.candidats[k];
    OnlyLastLinked(cs, c.userId);
  }

  /** When only the last candidate row links to the user, the lookup finds
      that row. */
  lemma OnlyLastLinked(cs: seq<Candidat>, userId: Id)
    requires |cs| > 0 && cs[|cs| - 1].userId == userId
    requires forall k :: 0 <= k < |cs| - 1 ==> cs[k].userId != userId
    ensures First(cs, (c: Candidat) => c.userId == userId) == Some(cs[|cs| - 1])
  {
    var i := FirstIndex(cs, (c: Candidat) => c.userId == userId);
    assert i == |cs| - 1;
  }

  /** A new recruiter has exactly one profile, a recruiter one. */
  lemma RecruteurGetsOneProfile(
    db: Db, email: string, password: string, nom: Option<string>,
    userId: Id, profileId: Id, hash: string -> string)
    requires ProfilesLinked(db)
    requires CreateUser(db, email, password, "recruteur", nom, userId, profileId, hash).Success?
    ensures var db2 := CreateUser(db, email, password, "recruteur", nom, userId, profileId, hash).value.0;
      && RecruteurOfUser(db2, userId) == Some(Recruteur(profileId, userId, EntrepriseName(nom)))
      && (forall k :: 0 <= k < |db2.recruteurs| && db2.recruteurs[k].userId == userId ==> k == |db.recruteurs|)
      && CandidatOfUser(db2, userId).None?
  {
    var db2 := CreateUser(db, email, password, "recruteur", nom, userId, profileId, hash).value.0;
    RecruteurAppended(db, db2, Recruteur(profileId, userId, EntrepriseName(nom)));
  }

  /** Appending a recruiter row for a user id no user has: that row is the
      user's only profile. */
  lemma RecruteurAppended(db: Db, db2: Db, c: Recruteur)
    requires ProfilesLinked(db) && UserById(db, c.userId).None?
    requires db2.recruteurs == db.recruteurs + [c] && db2.candidats == db.candidats
    ensures RecruteurOfUser(db2, c.userId) == Some(c)
    ensures forall k :: 0 <= k < |db2.recruteurs| && db2.recruteurs[k].userId == c.userId ==> k == |db.recruteurs|
    ensures CandidatOfUser(db2, c.userId).None?
  {
    FreshUserHasNoProfile(db, c.userId);
    var rs := db2.recruteurs;
    assert rs[|db.recruteurs|] == c;
    assert forall k :: 0 <= k < |db.recruteurs| ==> rs[k] == db.recruteurs[k];
    OnlyLastLinkedRecruteur(rs, c.userId);
  }

  /** When only the last recruiter row links to the user, the lookup finds
      that row. */
  lemma OnlyLastLinkedRecruteur(rs: seq<Recruteur>, userId: Id)
    requires |rs| > 0 && rs[|rs| - 1].userId == userId
    requires forall k :: 0 <= k < |rs| - 1 ==> rs[k].userId != userId
    ensures First(rs, (c: Recruteur) => c.userId == userId) == Some(rs[|rs| - 1])
  {
    var i := FirstIndex(rs, (c: Recruteur) => c.userId == userId);
    assert i == |rs| - 1;
  }

  /** authenticate_user: the user with this email, when the password checks
      against their stored hash. */
  function AuthenticateUser(db: Db, email: string, password: string, verify: (string, string) -> bool)
    : (r: Option<User>)
    ensures r.None? <==> UserByEmail(db, email).None? || !verify(password, UserByEmail(db, email).value.motDePasse)
    ensures r.Some? ==> r.value in db.users && r.value.email == email && verify(password, r.value.motDePasse)
  {
    match UserByEmail(db, email)
    case None => None
    case Some(u) => if verify(password, u.motDePasse) then Some(u) else None
  }

  /** A user who just registered logs in with the same password, as long as
      the checker accepts a password against its own hash. */
  lemma RegisterThenLogin(
    db: Db, email: string, password: string, role: string, nom: Option<string>,
    userId: Id, profileId: Id, hash: string -> string, verify: (string, string) -> bool)
    requires CreateUser(db, email, password, role, nom, userId, profileId, hash).Success?
    requires verify(password, hash(password))
    ensures var r := CreateUser(db, email, password, role, nom, userId, profileId, hash).value;
      AuthenticateUser(r.0, email, password, verify) == Some(r.1)
  {
    var r := CreateUser(db, email, password, role, nom, userId, profileId, hash).value;
    LastUserFound(db.users, r.1);
  }

  /** A user appended under an email no earlier user has is the one the
      email lookup finds. */
  lemma LastUserFound(users: seq<User>, u: User)
    requires forall j :: 0 <= j < |users| ==> users[j].email != u.email
    ensures First(users + [u], (x: User) => x.email == u.email) == Some(u)
  {
    var all := users + [u];
    assert all[|users|] == u;
    assert forall j :: 0 <= j < |users| ==> all[j] == users[j];
    var i := FirstIndex(all, (x: User) => x.email == u.email);
    assert i == |users|;
  }
}
