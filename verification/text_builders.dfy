/**
 * The texts the vector store embeds (ai-recrutement-backend/app/vector_store/
 * text_builders.py). Unlike the scoring side, these builders read loosely
 * typed JSON: each field is looked up under several alternative keys, values
 * of the wrong type are skipped, and at most 8 experiences and 5 degrees
 * are read.
 */
module TextBuilders {
  import opened Wrappers
  import opened Strings
  import opened Json

  type Fields = seq<(string, Json)>

  /** `isinstance(v, str) and v.strip()`: the stripped text of a string that
      is not blank. */
  function TextOf(v: Json): (r: Option<string>)
    ensures r.Some? <==> v.JStr? && !IsBlank(v.s)
    ensures r.Some? ==> r.value != "" && IsStripped(r.value)
  {
    if v.JStr? && !IsBlank(v.s) then Some(Strip(v.s)) else None
  }

  function Optional(o: Option<string>): (r: seq<string>)
    ensures |r| <= 1
    ensures o.Some? ==> r == [o.value]
    ensures o.None? ==> r == []
  {
    match o
    case Some(t) => [t]
    case None => []
  }

  // ---------------------------------------------------------------------------
  // _join_list
  // ---------------------------------------------------------------------------

  /** The list items `_join_list` keeps: its non-blank strings, stripped, in
      order. */
  function KeptItems(values: seq<Json>): (r: seq<string>)
    ensures |r| <= |values|
  {
    if values == [] then []
    else Optional(TextOf(values[0])) + KeptItems(values[1..])
  }

  /** Every kept item is non-empty and stripped. */
  lemma {:induction false} KeptItemsClean(values: seq<Json>)
    ensures AllClean(KeptItems(values))
    decreases |values|
  {
    if values != [] {
      KeptItemsClean(values[1..]);
      AllCleanAppend(Optional(TextOf(values[0])), KeptItems(values[1..]));
    }
  }

  /** One step of the kept items, from the front. */
  lemma KeptItemsStep(a: seq<Json>, b: seq<Json>)
    requires a != []
    ensures KeptItems(a + b) == Optional(TextOf(a[0])) + KeptItems(a[1..] + b)
  {
    assert (a + b)[0] == a[0];
    assert (a + b)[1..] == a[1..] + b;
  }

  /** Items are kept in their order, whatever the split of the list. */
  lemma {:induction false} KeptItemsAppend(a: seq<Json>, b: seq<Json>)
    ensures KeptItems(a + b) == KeptItems(a) + KeptItems(b)
    decreases |a|
  {
    if a == [] {
      assert a + b == b;
    } else {
      KeptItemsStep(a, b);
      KeptItemsAppend(a[1..], b);
      var h := Optional(TextOf(a[0]));
      assert h + (KeptItems(a[1..]) + KeptItems(b)) == (h + KeptItems(a[1..])) + KeptItems(b);
    }
  }

  /** Nothing is kept exactly when no item is a non-blank string. */
  lemma {:induction false} KeptItemsEmptyIff(values: seq<Json>)
    ensures KeptItems(values) == [] <==> forall i :: 0 <= i < |values| ==> TextOf(values[i]).None?
    decreases |values|
  {
    if values != [] {
      KeptItemsEmptyIff(values[1..]);
      assert forall i :: 1 <= i < |values| ==> values[i] == values[1..][i - 1];
    }
  }

  /** _join_list: the kept items joined by ", "; empty exactly when no item
      is a non-blank string. */
  function JoinList(values: seq<Json>): (r: string)
    ensures r == "" <==> forall i :: 0 <= i < |values| ==> TextOf(values[i]).None?
  {
    KeptItemsEmptyIff(values);
    KeptItemsClean(values);
    JoinEmptyIff(KeptItems(values), ", ");
    Join(KeptItems(values), ", ")
  }

  // ---------------------------------------------------------------------------
  // Parts
  // ---------------------------------------------------------------------------

  /** Every part starts with a character that is not whitespace. */
  predicate Leading(parts: seq<string>) {
    forall i :: 0 <= i < |parts| ==> parts[i] != "" && !IsSpace(parts[i][0])
  }

  /** The stripped text of `v`, when it is a non-blank string. */
  function TextPart(v: Json): (r: seq<string>)
    ensures Leading(r) && |r| <= 1
    ensures r == [] <==> TextOf(v).None?
  {
    Optional(TextOf(v))
  }

  /** A heading that starts with a non-whitespace character starts its line. */
  lemma LeadingOne(heading: string, t: string)
    requires heading != "" && !IsSpace(heading[0])
    ensures Leading([heading + t])
  {
    assert (heading + t)[0] == heading[0];
  }

  /** `heading + text` when the text is present. */
  function Labelled(heading: string, o: Option<string>): (r: seq<string>)
    requires heading != "" && !IsSpace(heading[0])
    ensures Leading(r)
    ensures o.None? ==> r == []
    ensures o.Some? ==> r == [heading + o.value]
  {
    match o
    case Some(t) => LeadingOne(heading, t); [heading + t]
    case None => []
  }

  /** `heading + _join_list(v)` when `v` is a list with a kept item. */
  function ListText(heading: string, v: Json): (r: seq<string>)
    requires heading != "" && !IsSpace(heading[0])
    ensures Leading(r) && |r| <= 1
    ensures r == [] <==> !v.JList? || KeptItems(v.items) == []
    ensures r != [] ==> r == [heading + Join(KeptItems(v.items), ", ")]
  {
    if v.JList? then
      KeptItemsEmptyIff(v.items);
      var j := JoinList(v.items);
      if j != "" then LeadingOne(heading, j); [heading + j] else []
    else []
  }

  /** The pieces of one experience's line: its title and company when
      truthy (as `str(...).strip()`), its missions when a non-blank string,
      its technologies when a list with a kept item. */
  function LineOf(poste: Json, entreprise: Json, missions: Json, techs: Json): (r: seq<string>)
    ensures |r| <= 4
    ensures r == [] <==>
      !Truthy(poste) && !Truthy(entreprise) && TextOf(missions).None? && ListText("Tech: ", techs) == []
  {
    (if Truthy(poste) then [Strip(PyStr(poste))] else [])
    + (if Truthy(entreprise) then [Strip(PyStr(entreprise))] else [])
    + TextPart(missions)
    + ListText("Tech: ", techs)
  }

  /** The line of one experience dict, each field read under its keys in
      priority order. */
  function ExperienceLine(e: Fields): seq<string> {
    LineOf(
      FirstTruthy(e, ["poste", "title"], JStr("")),
      FirstTruthy(e, ["entreprise", "company"], JStr("")),
      FirstTruthy(e, ["missions", "description"], JStr("")),
      FirstTruthy(e, ["technos", "technologies", "skills"], JList([])))
  }

  lemma LeadingAppend(a: seq<string>, b: seq<string>)
    requires Leading(a) && Leading(b)
    ensures Leading(a + b)
  {
    assert forall i :: |a| <= i < |a + b| ==> (a + b)[i] == b[i - |a|];
  }

  /** "Expérience: " and the line's pieces joined by " | ", when there are
      pieces. */
  function LinePart(line: seq<string>): (r: seq<string>)
    ensures Leading(r) && |r| <= 1
    ensures r == [] <==> line == []
  {
    if line != [] then ["Expérience: " + Join(line, " | ")] else []
  }

  /** The part one experience entry adds. */
  function ExperienceEntry(x: Json): (r: seq<string>)
    ensures Leading(r) && |r| <= 1
    ensures !x.JObj? ==> r == []
  {
    if x.JObj? then LinePart(ExperienceLine(x.fields)) else []
  }

  /** One "Expérience: ..." part per dict entry whose line is not empty;
      entries that are not dicts are skipped. */
  function ExperienceEntries(xs: seq<Json>): (r: seq<string>)
    ensures Leading(r) && |r| <= |xs|
  {
    if xs == [] then []
    else
      var rest := ExperienceEntries(xs[1..]);
      LeadingAppend(ExperienceEntry(xs[0]), rest);
      ExperienceEntry(xs[0]) + rest
  }

  lemma {:induction false} ExperienceEntriesAppend(a: seq<Json>, b: seq<Json>)
    ensures ExperienceEntries(a + b) == ExperienceEntries(a) + ExperienceEntries(b)
    decreases |a|
  {
    if a == [] {
      assert a + b == b;
    } else {
      assert (a + b)[0] == a[0];
      assert (a + b)[1..] == a[1..] + b;
      ExperienceEntriesAppend(a[1..], b);
    }
  }

  /** An entry that is not a dict contributes nothing. */
  lemma NonDictExperienceIgnored(a: seq<Json>, v: Json, b: seq<Json>)
    requires !v.JObj?
    ensures ExperienceEntries(a + [v] + b) == ExperienceEntries(a + b)
  {
    ExperienceEntriesAppend(a + [v], b);
    ExperienceEntriesAppend(a, [v]);
    ExperienceEntriesAppend(a, b);
    assert [v][1..] == [];
    assert ExperienceEntries([v]) == ExperienceEntry(v) + ExperienceEntries([]);
    assert ExperienceEntries([v]) == [];
    assert ExperienceEntries(a + [v]) == ExperienceEntries(a);
  }

  /** The experiences part: the first 8 entries of a list. */
  function ExperiencesPart(v: Json): (r: seq<string>)
    ensures Leading(r) && |r| <= 8
  {
    if v.JList? then ExperienceEntries(PyPrefix(v.items, 8)) else []
  }

  /** Entries after the eighth never reach the text. */
  lemma ExperiencesCapped(a: seq<Json>, b: seq<Json>)
    requires |a| >= 8
    ensures ExperiencesPart(JList(a + b)) == ExperiencesPart(JList(a))
  {
    assert PyPrefix(a + b, 8) == PyPrefix(a, 8);
  }

  /** "Formation: {degree} {school}", stripped, when either is truthy. */
  function FormationOf(diplome: Json, ecole: Json): (r: Option<string>)
    ensures r.Some? <==> Truthy(diplome) || Truthy(ecole)
    ensures r.Some? ==> "Formation:" <= r.value && Leading([r.value])
  {
    if Truthy(diplome) || Truthy(ecole) then Some(FormationLine(Strip(PyStr(diplome)), Strip(PyStr(ecole))))
    else None
  }

  /** f"Formation: {d} {e}".strip(): "Formation:" followed by " {d} {e}",
      so the label survives the strip. */
  function FormationLine(d: string, e: string): (r: string)
    ensures "Formation:" <= r && Leading([r])
  {
    var rest := " " + d + " " + e;
    StripKeepsHead("Formation:", rest);
    var line := Strip("Formation:" + rest);
    assert line[0] == 'F';
    line
  }

  /** The formation line as a part, when there is one. */
  function FormationPart(diplome: Json, ecole: Json): (r: seq<string>)
    ensures Leading(r) && |r| <= 1
    ensures r == [] <==> !Truthy(diplome) && !Truthy(ecole)
  {
    Optional(FormationOf(diplome, ecole))
  }

  /** The part one education entry adds. */
  function FormationEntry(x: Json): (r: seq<string>)
    ensures Leading(r) && |r| <= 1
    ensures !x.JObj? ==> r == []
  {
    if x.JObj? then
      FormationPart(FirstTruthy(x.fields, ["diplome", "degree"], JStr("")),
                    FirstTruthy(x.fields, ["ecole", "school"], JStr("")))
    else []
  }

  function FormationEntries(xs: seq<Json>): (r: seq<string>)
    ensures Leading(r) && |r| <= |xs|
  {
    if xs == [] then []
    else
      var rest := FormationEntries(xs[1..]);
      LeadingAppend(FormationEntry(xs[0]), rest);
      FormationEntry(xs[0]) + rest
  }

  /** The education part: the first 5 entries of a list. */
  function EducationPart(v: Json): (r: seq<string>)
    ensures Leading(r) && |r| <= 5
  {
    if v.JList? then FormationEntries(PyPrefix(v.items, 5)) else []
  }

  /** Entries after the fifth never reach the text. */
  lemma EducationCapped(a: seq<Json>, b: seq<Json>)
    requires |a| >= 5
    ensures EducationPart(JList(a + b)) == EducationPart(JList(a))
  {
    assert PyPrefix(a + b, 5) == PyPrefix(a, 5);
  }

  // ---------------------------------------------------------------------------
  // The two texts
  // ---------------------------------------------------------------------------

  const ProfileKeys := ["profil", "resume", "summary"]
  const TitleKeys := ["titre", "poste", "headline"]
  const SkillKeys := ["competences", "skills"]
  const ExperienceKeys := ["experiences", "experience"]
  const EducationKeys := ["education", "formations"]

  /** The fields of a CV dict, each read under its keys in priority order. */
  function Profile(cv: Fields): Option<string> {
    TextOf(FirstTruthy(cv, ProfileKeys, JNull))
  }

  function CvTitle(cv: Fields): Option<string> {
    TextOf(FirstTruthy(cv, TitleKeys, JNull))
  }

  function CvSkills(cv: Fields): Json {
    FirstTruthy(cv, SkillKeys, JList([]))
  }

  function CvExperiences(cv: Fields): Json {
    FirstTruthy(cv, ExperienceKeys, JList([]))
  }

  function CvEducation(cv: Fields): Json {
    FirstTruthy(cv, EducationKeys, JList([]))
  }

  /** 1 when a part is present, 0 otherwise. */
  function Count<T>(o: Option<T>): nat {
    if o.Some? then 1 else 0
  }

  /** The joined kept items of a list value, when it has any. */
  function KeptList(v: Json): (r: Option<string>)
    ensures r.Some? <==> v.JList? && KeptItems(v.items) != []
  {
    if v.JList? && KeptItems(v.items) != [] then Some(Join(KeptItems(v.items), ", ")) else None
  }

  /** The profile, the title and the skills of a CV, as parts: each present
      exactly when its field is. */
  function CvHeadParts(cv: Fields): (r: seq<string>)
    ensures Leading(r)
    ensures Profile(cv).Some? ==> |r| > 0 && r[0] == "Profil: " + Profile(cv).value
  {
    var profil := Labelled("Profil: ", Profile(cv));
    var titre := Labelled("Titre: ", CvTitle(cv));
    var skills := ListText("Compétences: ", CvSkills(cv));
    LeadingAppend(titre, skills);
    LeadingAppend(profil, titre + skills);
    profil + (titre + skills)
  }

  function CvParts(cv: Fields): (r: seq<string>)
    ensures Leading(r)
    ensures Profile(cv).Some? ==> |r| > 0 && r[0] == "Profil: " + Profile(cv).value
  {
    var head := CvHeadParts(cv);
    var exps := ExperiencesPart(CvExperiences(cv));
    var edu := EducationPart(CvEducation(cv));
    LeadingAppend(head, exps);
    LeadingAppend(head + exps, edu);
    assert Profile(cv).Some? ==> (head + exps + edu)[0] == head[0];
    head + exps + edu
  }

  /** The head's parts, in order: the profile, the title and the skills,
      each present exactly when its field is, with its exact text. */
  lemma CvHeadSections(cv: Fields)
    ensures var r := CvHeadParts(cv);
      var np := Count(Profile(cv));
      var nt := Count(CvTitle(cv));
      && |r| == np + nt + Count(KeptList(CvSkills(cv)))
      && (Profile(cv).Some? ==> r[0] == "Profil: " + Profile(cv).value)
      && (CvTitle(cv).Some? ==> r[np] == "Titre: " + CvTitle(cv).value)
      && (KeptList(CvSkills(cv)).Some? ==> r[np + nt] == "Compétences: " + KeptList(CvSkills(cv)).value)
  {
    LabelledSections("Profil: ", Profile(cv), "Titre: ", CvTitle(cv), "Compétences: ", CvSkills(cv));
  }

  /** Two labelled texts and a labelled list, one after the other: each
      present exactly when its value is, at its place. */
  lemma LabelledSections(h1: string, o1: Option<string>, h2: string, o2: Option<string>, h3: string, v: Json)
    requires h1 != "" && !IsSpace(h1[0]) && h2 != "" && !IsSpace(h2[0]) && h3 != "" && !IsSpace(h3[0])
    ensures var r := Labelled(h1, o1) + (Labelled(h2, o2) + ListText(h3, v));
      && |r| == Count(o1) + Count(o2) + Count(KeptList(v))
      && (o1.Some? ==> r[0] == h1 + o1.value)
      && (o2.Some? ==> r[Count(o1)] == h2 + o2.value)
      && (KeptList(v).Some? ==> r[Count(o1) + Count(o2)] == h3 + KeptList(v).value)
  {
    var a := Labelled(h1, o1);
    var b := Labelled(h2, o2);
    var c := ListText(h3, v);
    assert |a| == Count(o1) && |b| == Count(o2) && |c| == Count(KeptList(v));
    SectionsAt(a, b, c);
  }

  /** The CV's parts, in order: the profile, the title and the skills, each
      present exactly when its field is, then the experiences' parts, then
      the education's parts. */
  lemma CvPartsSections(cv: Fields)
    ensures var r := CvParts(cv);
      var h := |CvHeadParts(cv)|;
      var ne := |ExperiencesPart(CvExperiences(cv))|;
      && r[..h] == CvHeadParts(cv)
      && r[h..h + ne] == ExperiencesPart(CvExperiences(cv))
      && r[h + ne..] == EducationPart(CvEducation(cv))
  {
    var h := CvHeadParts(cv);
    var e := ExperiencesPart(CvExperiences(cv));
    var f := EducationPart(CvEducation(cv));
    assert CvParts(cv) == h + e + f;
    RunsAt(h, e, f);
  }

  /** Where each of three runs of parts sits in their concatenation. */
  lemma RunsAt(a: seq<string>, b: seq<string>, c: seq<string>)
    ensures (a + b + c)[..|a|] == a
    ensures (a + b + c)[|a|..|a| + |b|] == b
    ensures (a + b + c)[|a| + |b|..] == c
  {
  }

  /** Where each of three runs of at most one part sits in their
      concatenation. */
  lemma SectionsAt(a: seq<string>, b: seq<string>, c: seq<string>)
    ensures var r := a + (b + c);
      && |r| == |a| + |b| + |c|
      && (|a| == 1 ==> r[0] == a[0])
      && (|b| == 1 ==> r[|a|] == b[0])
      && (|c| == 1 ==> r[|a| + |b|] == c[0])
  {
  }

  /** The joined parts keep the first part's first character once
      stripped. */
  lemma JoinedNotBlank(parts: seq<string>)
    requires Leading(parts) && parts != []
    ensures Strip(Join(parts, "\n")) != ""
  {
    var j := Join(parts, "\n");
    JoinStartsWith(parts, "\n");
    assert j == [parts[0][0]] + j[1..];
    StripKeepsHead([parts[0][0]], j[1..]);
  }

  /** A first part ending in a non-whitespace character survives the strip
      whole. */
  lemma JoinedKeepsFirst(parts: seq<string>)
    requires Leading(parts) && parts != [] && !IsSpace(parts[0][|parts[0]| - 1])
    ensures parts[0] <= Strip(Join(parts, "\n"))
  {
    var j := Join(parts, "\n");
    JoinStartsWith(parts, "\n");
    assert j == parts[0] + j[|parts[0]|..];
    StripKeepsHead(parts[0], j[|parts[0]|..]);
  }

  /** "\n".join(parts).strip() over parts that all start with a
      non-whitespace character: empty exactly when there is no part, and
      starting with the first part when it ends with a non-whitespace
      character. */
  function JoinLines(parts: seq<string>): (r: string)
    requires Leading(parts)
    ensures r == Strip(Join(parts, "\n"))
    ensures IsStripped(r)
    ensures r == "" <==> parts == []
    ensures parts != [] && !IsSpace(parts[0][|parts[0]| - 1]) ==> parts[0] <= r
  {
    if parts == [] then
      assert Join(parts, "\n") == "";
      Strip(Join(parts, "\n"))
    else
      JoinedNotBlank(parts);
      assert !IsSpace(parts[0][|parts[0]| - 1]) ==> parts[0] <= Strip(Join(parts, "\n")) by {
        if !IsSpace(parts[0][|parts[0]| - 1]) {
          JoinedKeepsFirst(parts);
        }
      }
      Strip(Join(parts, "\n"))
  }

  /** build_cv_text: the parts one per line, stripped; empty exactly when no
      part is present, and opening with the profile when there is one. */
  function BuildCvText(cv: Fields): (r: string)
    ensures r == Strip(Join(CvParts(cv), "\n"))
    ensures IsStripped(r)
    ensures r == "" <==> CvParts(cv) == []
    ensures Profile(cv).Some? ==> "Profil: " + Profile(cv).value <= r
  {
    JoinLines(CvParts(cv))
  }

  /** The profile keys are read in priority order: once "profil" holds a
      truthy value, whatever "resume" holds does not matter. */
  lemma ProfilePriority(cv: Fields, v: Json)
    requires Truthy(Get(cv, "profil"))
    ensures BuildCvText(cv + [("resume", v)]) == BuildCvText(cv)
  {
    var cv2 := cv + [("resume", v)];
    GetOtherKey(cv, "resume", v, "profil");
    FirstTruthyUnfold(cv2, ProfileKeys, JNull);
    FirstTruthyUnfold(cv, ProfileKeys, JNull);
    FirstTruthyOtherKey(cv, TitleKeys, "resume", v, JNull);
    FirstTruthyOtherKey(cv, SkillKeys, "resume", v, JList([]));
    FirstTruthyOtherKey(cv, ExperienceKeys, "resume", v, JList([]));
    FirstTruthyOtherKey(cv, EducationKeys, "resume", v, JList([]));
  }

  /** An offer is either free text or a dict. */
  datatype Offer = OfferText(text: string) | OfferDict(fields: Fields)

  /** The fields of an offer dict, each read under its keys in priority
      order. */
  function OfferTitle(fs: Fields): Option<string> {
    TextOf(FirstTruthy(fs, ["titre", "title"], JNull))
  }

  function OfferDesc(fs: Fields): Option<string> {
    TextOf(FirstTruthy(fs, ["description", "desc"], JNull))
  }

  function OfferSkills(fs: Fields): Json {
    FirstTruthy(fs, SkillKeys, JList([]))
  }

  function OfferParts(fs: Fields): (r: seq<string>)
    ensures Leading(r)
  {
    var titre := Labelled("Titre: ", OfferTitle(fs));
    var desc := TextPart(FirstTruthy(fs, ["description", "desc"], JNull));
    assert desc == Optional(OfferDesc(fs));
    var skills := ListText("Compétences requises: ", OfferSkills(fs));
    LeadingAppend(desc, skills);
    LeadingAppend(titre, desc + skills);
    titre + (desc + skills)
  }

  /** The offer's parts, in order: the title, the description and the
      skills, each present exactly when its field is, with its exact text. */
  lemma OfferPartsSections(fs: Fields)
    ensures var r := OfferParts(fs);
      var nt := Count(OfferTitle(fs));
      var nd := Count(OfferDesc(fs));
      && |r| == nt + nd + Count(KeptList(OfferSkills(fs)))
      && (OfferTitle(fs).Some? ==> r[0] == "Titre: " + OfferTitle(fs).value)
      && (OfferDesc(fs).Some? ==> r[nt] == OfferDesc(fs).value)
      && (KeptList(OfferSkills(fs)).Some? ==>
            r[nt + nd] == "Compétences requises: " + KeptList(OfferSkills(fs)).value)
  {
    assert OfferParts(fs) ==
      Labelled("Titre: ", OfferTitle(fs)) + (Optional(OfferDesc(fs)) + ListText("Compétences requises: ", OfferSkills(fs)));
    TextSections("Titre: ", OfferTitle(fs), OfferDesc(fs), "Compétences requises: ", OfferSkills(fs));
  }

  /** A labelled text, a bare text and a labelled list, one after the other:
      each present exactly when its value is, at its place. */
  lemma TextSections(h1: string, o1: Option<string>, o2: Option<string>, h3: string, v: Json)
    requires h1 != "" && !IsSpace(h1[0]) && h3 != "" && !IsSpace(h3[0])
    ensures var r := Labelled(h1, o1) + (Optional(o2) + ListText(h3, v));
      && |r| == Count(o1) + Count(o2) + Count(KeptList(v))
      && (o1.Some? ==> r[0] == h1 + o1.value)
      && (o2.Some? ==> r[Count(o1)] == o2.value)
      && (KeptList(v).Some? ==> r[Count(o1) + Count(o2)] == h3 + KeptList(v).value)
  {
    var a := Labelled(h1, o1);
    var b := Optional(o2);
    var c := ListText(h3, v);
    assert |a| == Count(o1) && |b| == Count(o2) && |c| == Count(KeptList(v));
    SectionsAt(a, b, c);
  }

  /** build_offer_text: free text is only stripped; a dict gives its title,
      description and skills, one per line. */
  function BuildOfferText(offer: Offer): (r: string)
    ensures IsStripped(r)
    ensures offer.OfferText? ==> (r == "" <==> IsBlank(offer.text))
    ensures offer.OfferText? ==> r == Strip(offer.text)
    ensures offer.OfferDict? ==> r == Strip(Join(OfferParts(offer.fields), "\n"))
    ensures offer.OfferDict? ==> (r == "" <==> OfferParts(offer.fields) == [])
  {
    match offer
    case OfferText(t) => Strip(t)
    case OfferDict(fs) => JoinLines(OfferParts(fs))
  }

  /** The offer text reads "competences" and "skills" but never
      "competences_requises", the key the scorer reads the required skills
      from. */
  lemma OfferTextIgnoresRequiredSkills(fs: Fields, v: Json)
    ensures BuildOfferText(OfferDict(fs + [("competences_requises", v)])) == BuildOfferText(OfferDict(fs))
  {
    FirstTruthyOtherKey(fs, ["titre", "title"], "competences_requises", v, JNull);
    FirstTruthyOtherKey(fs, ["description", "desc"], "competences_requises", v, JNull);
    FirstTruthyOtherKey(fs, SkillKeys, "competences_requises", v, JList([]));
  }
}
