/**
 * The CV-to-offer scoring engine (ai-recrutement-backend/app/utils/scoring.py):
 * four rule-based sub-scores (skills, experience, education, languages)
 * combined with an externally computed semantic similarity into a weighted
 * percentage and a four-band recommendation.
 *
 * Sub-scores are exact reals in [0, 1]. Every percentage the engine rounds to
 * two decimals is held as an integer count of hundredths (`Hundredths`), so
 * 72.5 % is 7250; rounding is to the nearest hundredth, halves upwards.
 */
module Scoring {
  import opened Wrappers
  import opened Strings
  import opened Json
  import Periods

  /** A percentage rounded to two decimals, counted in hundredths. */
  type Hundredths = int

  // ---------------------------------------------------------------------------
  // Records read by the scorer (absent keys hold their `.get` defaults)
  // ---------------------------------------------------------------------------

  /** One CV experience; an absent key is "". */
  datatype Experience = Experience(poste: string, description: string, periode: string)

  /** One CV education entry. `diplome` is `None` when the stored value is
      null (or is not a string), on which `.lower()` raises; an absent key is
      `Some("")`. */
  datatype Formation = Formation(diplome: Option<string>)

  /** The structured CV. */
  datatype CvJson = CvJson(
    competences: seq<string>,
    experiences: seq<Experience>,
    formations: seq<Formation>,
    langues: seq<string>)

  /** The structured offer. `titre` is `None` when the key is absent. `other`
      holds the keys the scorer never reads. */
  datatype OffreJson = OffreJson(
    titre: Option<string>,
    description: string,
    competencesRequises: seq<string>,
    missions: string,
    experienceRequiseAns: int,
    niveauEtudesRequis: int,
    languesRequises: seq<string>,
    other: seq<(string, Json)>)

  const EmptyCv := CvJson([], [], [], [])

  // ---------------------------------------------------------------------------
  // Weights
  // ---------------------------------------------------------------------------

  datatype Weights = Weights(semantique: real, competences: real, experience: real, formation: real, langues: real)

  /** PONDERATIONS: fixed, non-negative, summing to 1. */
  function Ponderations(): (w: Weights)
    ensures w.semantique + w.competences + w.experience + w.formation + w.langues == 1.0
    ensures w.semantique >= 0.0 && w.competences >= 0.0 && w.experience >= 0.0
    ensures w.formation >= 0.0 && w.langues >= 0.0
    ensures w.semantique > w.competences > w.experience > w.formation > w.langues
  {
    Weights(0.40, 0.25, 0.20, 0.10, 0.05)
  }

  // ---------------------------------------------------------------------------
  // Rounding
  // ---------------------------------------------------------------------------

  /** The nearest integer, halves rounded up. */
  function Round(x: real): (n: int)
    ensures x - 0.5 < n as real <= x + 0.5
  {
    (x + 0.5).Floor
  }

  lemma RoundMonotone(x: real, y: real)
    requires x <= y
    ensures Round(x) <= Round(y)
  {
  }

  /** `round(x * 100, 2)` for a fraction `x`: the percentage in hundredths. */
  function Percent(x: real): (h: Hundredths)
    ensures 0.0 <= x <= 1.0 ==> 0 <= h <= 10000
    ensures x == 1.0 ==> h == 10000
    ensures x == 0.0 ==> h == 0
  {
    Round(10000.0 * x)
  }

  // ---------------------------------------------------------------------------
  // Normalisation and insertion-ordered dicts
  // ---------------------------------------------------------------------------

  function RemoveChar(s: string, c: char): (r: string)
    ensures c !in r
    ensures forall x :: x in r ==> x in s
  {
    if |s| == 0 then ""
    else if s[0] == c then RemoveChar(s[1..], c)
    else [s[0]] + RemoveChar(s[1..], c)
  }

  /** normaliser_competence: lower-case, strip, then drop every '-' and '_'. */
  function Normalize(comp: string): (r: string)
    ensures '-' !in r && '_' !in r
  {
    RemoveChar(RemoveChar(Strip(Lower(comp)), '-'), '_')
  }

  /** The entries of a Python dict, in insertion order. */
  type Dict = seq<(string, string)>

  /** `k in d`. */
  predicate HasKey(d: Dict, k: string)
    decreases |d|
  {
    |d| > 0 && (d[0].0 == k || HasKey(d[1..], k))
  }

  lemma {:induction false} HasKeyIff(d: Dict, k: string)
    ensures HasKey(d, k) <==> exists i :: 0 <= i < |d| && d[i].0 == k
    decreases |d|
  {
    if |d| > 0 {
      HasKeyIff(d[1..], k);
      assert forall i :: 1 <= i < |d| ==> d[i] == d[1..][i - 1];
    }
  }

  /** A key stored at some position is in the dict. */
  lemma HasKeyAt(d: Dict, i: nat)
    requires i < |d|
    ensures HasKey(d, d[i].0)
  {
    HasKeyIff(d, d[i].0);
  }

  predicate DistinctKeys(d: Dict) {
    forall i, j :: 0 <= i < j < |d| ==> d[i].0 != d[j].0
  }

  /** The position of key `k` in `d`. */
  function KeyIndex(d: Dict, k: string): (i: nat)
    requires HasKey(d, k)
    ensures i < |d| && d[i].0 == k
    decreases |d|
  {
    if d[0].0 == k then 0 else 1 + KeyIndex(d[1..], k)
  }

  /** `d[k] = v`: a new key goes last, an existing key keeps its place and
      takes the new value. */
  function Put(d: Dict, k: string, v: string): (r: Dict)
    ensures HasKey(d, k) ==> |r| == |d|
    ensures !HasKey(d, k) ==> |r| == |d| + 1
    ensures HasKey(r, k)
    ensures forall key :: HasKey(d, key) ==> HasKey(r, key)
    ensures forall i :: 0 <= i < |r| ==> r[i] == (k, v) || r[i] in d
    ensures DistinctKeys(d) ==> DistinctKeys(r)
  {
    if HasKey(d, k) then
      var i := KeyIndex(d, k);
      var r := d[i := (k, v)];
      assert forall j :: 0 <= j < |d| ==> r[j].0 == d[j].0;
      HasKeyAt(r, i);
      forall key | HasKey(d, key) ensures HasKey(r, key) {
        HasKeyAt(r, KeyIndex(d, key));
      }
      r
    else
      var r := d + [(k, v)];
      assert forall j :: 0 <= j < |d| ==> r[j] == d[j];
      HasKeyAt(r, |d|);
      forall key | HasKey(d, key) ensures HasKey(r, key) {
        HasKeyAt(r, KeyIndex(d, key));
      }
      assert DistinctKeys(d) ==> DistinctKeys(r) by {
        if DistinctKeys(d) {
          forall j | 0 <= j < |d| ensures d[j].0 != k {
            HasKeyAt(d, j);
          }
        }
      }
      r
  }

  /** `{key(x): x for x in xs}` given the `(key(x), x)` pairs: keys in order of
      first appearance, each holding the last value written to it. */
  function BuildDict(pairs: Dict): (r: Dict)
    ensures DistinctKeys(r)
    ensures |r| <= |pairs|
    ensures forall i :: 0 <= i < |r| ==> r[i] in pairs
    ensures forall i :: 0 <= i < |pairs| ==> HasKey(r, pairs[i].0)
    decreases |pairs|
  {
    if |pairs| == 0 then []
    else
      var n := |pairs| - 1;
      var prefix := BuildDict(pairs[..n]);
      assert forall i :: 0 <= i < n ==> pairs[..n][i] == pairs[i];
      assert forall i :: 0 <= i < n ==> HasKey(prefix, pairs[i].0);
      Put(prefix, pairs[n].0, pairs[n].1)
  }

  /** Two inputs that share a key collapse into one entry, so the dict is
      strictly shorter than its input. */
  lemma {:induction false} BuildDictShrinks(pairs: Dict, i: nat, j: nat)
    requires i < j < |pairs| && pairs[i].0 == pairs[j].0
    ensures |BuildDict(pairs)| < |pairs|
    decreases |pairs|
  {
    var n := |pairs| - 1;
    var prefix := pairs[..n];
    assert BuildDict(pairs) == Put(BuildDict(prefix), pairs[n].0, pairs[n].1);
    assert prefix[i] == pairs[i];
    if j < n {
      assert prefix[j] == pairs[j];
      BuildDictShrinks(prefix, i, j);
    } else {
      assert HasKey(BuildDict(prefix), prefix[i].0);
    }
  }

  /** The `(normalised, original)` pairs of a skill list. */
  function SkillPairs(xs: seq<string>): (r: Dict)
    ensures |r| == |xs|
    ensures forall i :: 0 <= i < |xs| ==> r[i] == (Normalize(xs[i]), xs[i])
  {
    seq(|xs|, i requires 0 <= i < |xs| => (Normalize(xs[i]), xs[i]))
  }

  /** The key a language entry is compared on: its first word, normalised. */
  function LanguageKey(l: string): string
    requires !IsBlank(l)
  {
    Normalize(FirstWord(l))
  }

  predicate NoBlank(xs: seq<string>) {
    forall i :: 0 <= i < |xs| ==> !IsBlank(xs[i])
  }

  /** The `(key, original)` pairs of a language list. */
  function LanguagePairs(xs: seq<string>): (r: Dict)
    requires NoBlank(xs)
    ensures |r| == |xs|
    ensures forall i :: 0 <= i < |xs| ==> r[i] == (LanguageKey(xs[i]), xs[i])
  {
    seq(|xs|, i requires 0 <= i < |xs| && !IsBlank(xs[i]) => (LanguageKey(xs[i]), xs[i]))
  }

  // ---------------------------------------------------------------------------
  // Found / missing
  // ---------------------------------------------------------------------------

  /** The inner loop of the skill matcher: some CV key contains `k`, or is
      contained in it. */
  predicate AnySimilar(k: string, cv: Dict)
    decreases |cv|
  {
    |cv| > 0 && (Contains(cv[0].0, k) || Contains(k, cv[0].0) || AnySimilar(k, cv[1..]))
  }

  lemma {:induction false} AnySimilarIff(k: string, cv: Dict)
    ensures AnySimilar(k, cv) <==>
      exists i :: 0 <= i < |cv| && (Contains(cv[i].0, k) || Contains(k, cv[i].0))
    decreases |cv|
  {
    if |cv| > 0 {
      AnySimilarIff(k, cv[1..]);
      assert forall i :: 1 <= i < |cv| ==> cv[i] == cv[1..][i - 1];
    }
  }

  /** Whether required key `k` is matched: an exact key of the CV, or (for
      skills only) a two-way substring of one. */
  predicate Hit(k: string, cv: Dict, substrings: bool) {
    HasKey(cv, k) || (substrings && AnySimilar(k, cv))
  }

  /** The originals of the required entries that are hit, in dict order. */
  function Found(req: Dict, cv: Dict, substrings: bool): (r: seq<string>)
    ensures |r| <= |req|
    ensures forall x :: x in r <==> exists i :: 0 <= i < |req| && req[i].1 == x && Hit(req[i].0, cv, substrings)
  {
    if |req| == 0 then []
    else
      var rest := Found(req[1..], cv, substrings);
      assert forall i :: 1 <= i < |req| ==> req[i] == req[1..][i - 1];
      if Hit(req[0].0, cv, substrings) then [req[0].1] + rest else rest
  }

  /** The originals of the required entries that are not hit, in dict order. */
  function Missing(req: Dict, cv: Dict, substrings: bool): (r: seq<string>)
    ensures |r| <= |req|
    ensures forall x :: x in r <==> exists i :: 0 <= i < |req| && req[i].1 == x && !Hit(req[i].0, cv, substrings)
  {
    if |req| == 0 then []
    else
      var rest := Missing(req[1..], cv, substrings);
      assert forall i :: 1 <= i < |req| ==> req[i] == req[1..][i - 1];
      if Hit(req[0].0, cv, substrings) then rest else [req[0].1] + rest
  }

  /** Every required entry lands in exactly one of the two lists. */
  lemma {:induction false} FoundMissingCount(req: Dict, cv: Dict, substrings: bool)
    ensures |Found(req, cv, substrings)| + |Missing(req, cv, substrings)| == |req|
  {
    if |req| > 0 {
      FoundMissingCount(req[1..], cv, substrings);
    }
  }

  /** A skill or language comparison: the score and the two lists. */
  datatype Match = Match(score: real, trouvees: seq<string>, manquantes: seq<string>)

  /** The non-empty case shared by skills and languages: score = found /
      number of required entries (duplicates included). */
  function MatchEntries(cvD: Dict, reqD: Dict, nRequired: nat, substrings: bool): (r: Match)
    requires 0 < nRequired && |reqD| <= nRequired
    ensures 0.0 <= r.score <= 1.0
    ensures r.score == Fraction(|r.trouvees|, nRequired)
    ensures |r.trouvees| + |r.manquantes| == |reqD|
  {
    var found := Found(reqD, cvD, substrings);
    var missing := Missing(reqD, cvD, substrings);
    FoundMissingCount(reqD, cvD, substrings);
    Ratio(|found|, nRequired);
    Match(Fraction(|found|, nRequired), found, missing)
  }

  /** `a / n` as a real. */
  function Fraction(a: nat, n: nat): real
    requires n > 0
  {
    (a as real) / (n as real)
  }

  lemma Ratio(a: nat, n: nat)
    requires 0 < n && a <= n
    ensures 0.0 <= Fraction(a, n) <= 1.0
    ensures Fraction(a, n) * (n as real) == a as real
    ensures a < n ==> Fraction(a, n) < 1.0
  {
  }

  /** calculer_match_competences. */
  function MatchCompetences(cv: seq<string>, required: seq<string>): (r: Match)
    ensures 0.0 <= r.score <= 1.0
    ensures required == [] ==> r == Match(1.0, [], [])
    ensures required != [] && cv == [] ==> r == Match(0.0, [], required)
    ensures required != [] ==> r.score == Fraction(|r.trouvees|, |required|)
  {
    if |required| == 0 then Match(1.0, [], [])
    else if |cv| == 0 then Match(0.0, [], required)
    else
      var cvD := BuildDict(SkillPairs(cv));
      var reqD := BuildDict(SkillPairs(required));
      assert |reqD| <= |required|;
      MatchEntries(cvD, reqD, |required|, true)
  }

  /** Removing a character the text does not hold changes nothing. */
  lemma {:induction false} RemoveCharAbsent(s: string, c: char)
    requires c !in s
    ensures RemoveChar(s, c) == s
    decreases |s|
  {
    if |s| > 0 {
      assert s[1..] + [] == s[1..];
      RemoveCharAbsent(s[1..], c);
      assert [s[0]] + s[1..] == s;
    }
  }

  /** A skill whose lower-case form is made of ASCII letters only
      normalises to that form. */
  lemma NormalizeLowered(comp: string, t: string)
    requires Lower(comp) == t && t != [] && forall i :: 0 <= i < |t| ==> 'a' <= t[i] <= 'z'
    ensures Normalize(comp) == t
  {
    StripStripped(t);
    RemoveCharAbsent(t, '-');
    RemoveCharAbsent(t, '_');
  }

  /** Pairs with distinct keys build the dict that holds them as they are. */
  lemma {:induction false} BuildDictDistinct(pairs: Dict)
    requires DistinctKeys(pairs)
    ensures BuildDict(pairs) == pairs
    decreases |pairs|
  {
    if |pairs| > 0 {
      var n := |pairs| - 1;
      BuildDictDistinct(pairs[..n]);
      HasKeyIff(pairs[..n], pairs[n].0);
      assert pairs[..n] + [pairs[n]] == pairs;
    }
  }

  /** Every key of `req` is a key of `cv`: all are found, none is missing. */
  lemma {:induction false} AllKeysFound(req: Dict, cv: Dict, substrings: bool)
    requires forall i :: 0 <= i < |req| ==> HasKey(cv, req[i].0)
    ensures Found(req, cv, substrings) == Values(req)
    ensures Missing(req, cv, substrings) == []
    decreases |req|
  {
    if |req| > 0 {
      assert forall i :: 1 <= i < |req| ==> req[i] == req[1..][i - 1];
      AllKeysFound(req[1..], cv, substrings);
    }
  }

  /** The values of a dict, in order. */
  function Values(d: Dict): (r: seq<string>)
    ensures |r| == |d| && forall i :: 0 <= i < |d| ==> r[i] == d[i].1
  {
    if |d| == 0 then [] else [d[0].1] + Values(d[1..])
  }

  /** One word of ASCII letters normalises to its lower-case form. */
  lemma NormalizeWord(comp: string, t: string)
    requires |comp| == |t| && t != []
    requires forall i :: 0 <= i < |t| ==> 'a' <= t[i] <= 'z' && LowerChar(comp[i]) == t[i]
    ensures Normalize(comp) == t
  {
    NormalizeLowered(comp, t);
  }

  /** Some CV skill, normalised, contains `k` or is contained in it. */
  ghost predicate SkillMatched(k: string, cv: seq<string>) {
    exists j :: 0 <= j < |cv| && (Contains(Normalize(cv[j]), k) || Contains(k, Normalize(cv[j])))
  }

  /** Some element of `xs` normalises to `k`. */
  ghost predicate HasNormalized(xs: seq<string>, k: string) {
    exists j :: 0 <= j < |xs| && Normalize(xs[j]) == k
  }

  lemma ContainsSelf(s: string)
    ensures Contains(s, s)
  {
  }

  /** The input pair a key of the dict comes from. */
  ghost function KeyOrigin(pairs: Dict, k: string): (j: nat)
    requires HasKey(BuildDict(pairs), k)
    ensures j < |pairs| && pairs[j].0 == k
  {
    var d := BuildDict(pairs);
    var i := KeyIndex(d, k);
    assert d[i] in pairs;
    var j :| 0 <= j < |pairs| && pairs[j] == d[i];
    j
  }

  /** The input pair a key similar to `k` comes from. */
  ghost function SimilarOrigin(pairs: Dict, k: string): (j: nat)
    requires AnySimilar(k, BuildDict(pairs))
    ensures j < |pairs| && (Contains(pairs[j].0, k) || Contains(k, pairs[j].0))
  {
    var d := BuildDict(pairs);
    AnySimilarIff(k, d);
    var i :| 0 <= i < |d| && (Contains(d[i].0, k) || Contains(k, d[i].0));
    assert d[i] in pairs;
    var j :| 0 <= j < |pairs| && pairs[j] == d[i];
    j
  }

  /** An exact key of the CV dict is a CV skill's normalised form. */
  lemma SkillKeyOrigin(cv: seq<string>, k: string)
    requires HasKey(BuildDict(SkillPairs(cv)), k)
    ensures SkillMatched(k, cv)
  {
    var j := KeyOrigin(SkillPairs(cv), k);
    ContainsSelf(k);
    assert Contains(Normalize(cv[j]), k);
  }

  /** A CV key similar to `k` is a CV skill's normalised form. */
  lemma SkillSimilarOrigin(cv: seq<string>, k: string)
    requires AnySimilar(k, BuildDict(SkillPairs(cv)))
    ensures SkillMatched(k, cv)
  {
    var j := SimilarOrigin(SkillPairs(cv), k);
    assert SkillPairs(cv)[j].0 == Normalize(cv[j]);
  }

  /** Every CV skill's normalised form is a key of the CV dict. */
  lemma SkillMatchedHits(cv: seq<string>, k: string)
    requires SkillMatched(k, cv)
    ensures AnySimilar(k, BuildDict(SkillPairs(cv)))
  {
    var pairs := SkillPairs(cv);
    var d := BuildDict(pairs);
    var j :| 0 <= j < |cv| && (Contains(Normalize(cv[j]), k) || Contains(k, Normalize(cv[j])));
    assert HasKey(d, pairs[j].0);
    var i := KeyIndex(d, pairs[j].0);
    assert Contains(d[i].0, k) || Contains(k, d[i].0);
    AnySimilarIff(k, d);
  }

  /** The exact test and the substring loop together are the two-way
      substring test against every CV skill. */
  lemma SkillHitIff(k: string, cv: seq<string>)
    ensures Hit(k, BuildDict(SkillPairs(cv)), true) <==> SkillMatched(k, cv)
  {
    var d := BuildDict(SkillPairs(cv));
    if HasKey(d, k) {
      SkillKeyOrigin(cv, k);
    }
    if AnySimilar(k, d) {
      SkillSimilarOrigin(cv, k);
    }
    if SkillMatched(k, cv) {
      SkillMatchedHits(cv, k);
    }
  }

  /** Each value has a single key: true of any `(key(x), x)` pairs. */
  ghost predicate Functional(pairs: Dict) {
    forall a, b :: 0 <= a < |pairs| && 0 <= b < |pairs| && pairs[a].1 == pairs[b].1 ==> pairs[a].0 == pairs[b].0
  }

  lemma SkillPairsFunctional(xs: seq<string>)
    ensures Functional(SkillPairs(xs))
  {
  }

  lemma LanguagePairsFunctional(xs: seq<string>)
    requires NoBlank(xs)
    ensures Functional(LanguagePairs(xs))
  {
  }

  /** Some element of `xs` is the value of a pair keyed `k`. */
  ghost predicate KeyedBy(xs: seq<string>, pairs: Dict, k: string) {
    exists t, j :: 0 <= t < |xs| && 0 <= j < |pairs| && xs[t] == pairs[j].1 && pairs[j].0 == k
  }

  /** The value stored under `k`, and the input pair it comes from. */
  lemma StoredValue(pairs: Dict, i: nat) returns (m: nat, j: nat)
    requires i < |pairs|
    ensures m < |BuildDict(pairs)| && BuildDict(pairs)[m].0 == pairs[i].0
    ensures j < |pairs| && pairs[j] == BuildDict(pairs)[m]
  {
    var d := BuildDict(pairs);
    m := KeyIndex(d, pairs[i].0);
    assert d[m] in pairs;
    j :| 0 <= j < |pairs| && pairs[j] == d[m];
  }

  /** A required key is reported found exactly when it is hit. */
  lemma FoundIff(pairs: Dict, cvD: Dict, substrings: bool, i: nat)
    requires Functional(pairs) && i < |pairs|
    ensures KeyedBy(Found(BuildDict(pairs), cvD, substrings), pairs, pairs[i].0) <==> Hit(pairs[i].0, cvD, substrings)
  {
    var d := BuildDict(pairs);
    var found := Found(d, cvD, substrings);
    var k := pairs[i].0;
    var m, j0 := StoredValue(pairs, i);
    if Hit(k, cvD, substrings) {
      assert d[m].1 in found;
      var t :| 0 <= t < |found| && found[t] == d[m].1;
      assert found[t] == pairs[j0].1 && pairs[j0].0 == k;
    }
    if KeyedBy(found, pairs, k) {
      var t, j :| 0 <= t < |found| && 0 <= j < |pairs| && found[t] == pairs[j].1 && pairs[j].0 == k;
      assert found[t] in found;
      var q :| 0 <= q < |d| && d[q].1 == found[t] && Hit(d[q].0, cvD, substrings);
      assert d[q] in pairs;
      var j1 :| 0 <= j1 < |pairs| && pairs[j1] == d[q];
      assert pairs[j1].0 == pairs[j].0;
    }
  }

  /** A required key is reported missing exactly when it is not hit. */
  lemma MissingIff(pairs: Dict, cvD: Dict, substrings: bool, i: nat)
    requires Functional(pairs) && i < |pairs|
    ensures KeyedBy(Missing(BuildDict(pairs), cvD, substrings), pairs, pairs[i].0) <==> !Hit(pairs[i].0, cvD, substrings)
  {
    var d := BuildDict(pairs);
    var missing := Missing(d, cvD, substrings);
    var k := pairs[i].0;
    var m, j0 := StoredValue(pairs, i);
    if !Hit(k, cvD, substrings) {
      assert d[m].1 in missing;
      var t :| 0 <= t < |missing| && missing[t] == d[m].1;
      assert missing[t] == pairs[j0].1 && pairs[j0].0 == k;
    }
    if KeyedBy(missing, pairs, k) {
      var t, j :| 0 <= t < |missing| && 0 <= j < |pairs| && missing[t] == pairs[j].1 && pairs[j].0 == k;
      assert missing[t] in missing;
      var q :| 0 <= q < |d| && d[q].1 == missing[t] && !Hit(d[q].0, cvD, substrings);
      assert d[q] in pairs;
      var j1 :| 0 <= j1 < |pairs| && pairs[j1] == d[q];
      assert pairs[j1].0 == pairs[j].0;
    }
  }

  /** The values of `pairs` are `xs`, position by position. */
  predicate ValuesAre(pairs: Dict, xs: seq<string>) {
    |pairs| == |xs| && forall j :: 0 <= j < |pairs| ==> pairs[j].1 == xs[j]
  }

  /** Both lists hold input values only. */
  lemma ReportedFromInput(pairs: Dict, xs: seq<string>, cvD: Dict, substrings: bool)
    requires ValuesAre(pairs, xs)
    ensures forall x :: x in Found(BuildDict(pairs), cvD, substrings) ==> x in xs
    ensures forall x :: x in Missing(BuildDict(pairs), cvD, substrings) ==> x in xs
  {
    var d := BuildDict(pairs);
    forall x | x in Found(d, cvD, substrings) ensures x in xs {
      var q :| 0 <= q < |d| && d[q].1 == x && Hit(d[q].0, cvD, substrings);
      assert d[q] in pairs;
      var j :| 0 <= j < |pairs| && pairs[j] == d[q];
      assert xs[j] == x;
    }
    forall x | x in Missing(d, cvD, substrings) ensures x in xs {
      var q :| 0 <= q < |d| && d[q].1 == x && !Hit(d[q].0, cvD, substrings);
      assert d[q] in pairs;
      var j :| 0 <= j < |pairs| && pairs[j] == d[q];
      assert xs[j] == x;
    }
  }

  /** The lists of a comparison hold input values only. */
  lemma MatchFromInput(cvD: Dict, pairs: Dict, xs: seq<string>, n: nat, substrings: bool)
    requires ValuesAre(pairs, xs) && 0 < n && |BuildDict(pairs)| <= n
    ensures forall x :: x in MatchEntries(cvD, BuildDict(pairs), n, substrings).trouvees ==> x in xs
    ensures forall x :: x in MatchEntries(cvD, BuildDict(pairs), n, substrings).manquantes ==> x in xs
  {
    ReportedFromInput(pairs, xs, cvD, substrings);
  }

  /** For skills, "some reported skill is a required skill keyed `k`" is
      "some reported skill normalises to `k`". */
  lemma SkillKeyedBy(xs: seq<string>, required: seq<string>, k: string)
    requires forall x :: x in xs ==> x in required
    ensures KeyedBy(xs, SkillPairs(required), k) <==> HasNormalized(xs, k)
  {
    var pairs := SkillPairs(required);
    if HasNormalized(xs, k) {
      var t :| 0 <= t < |xs| && Normalize(xs[t]) == k;
      assert xs[t] in required;
      var j :| 0 <= j < |required| && required[j] == xs[t];
      assert xs[t] == pairs[j].1 && pairs[j].0 == k;
    }
  }

  /** Both lists hold required originals only, at most one per required entry. */
  lemma SkillsFromRequired(cv: seq<string>, required: seq<string>)
    requires cv != [] && required != []
    ensures forall x :: x in MatchCompetences(cv, required).trouvees ==> x in required
    ensures forall x :: x in MatchCompetences(cv, required).manquantes ==> x in required
  {
    var rp := SkillPairs(required);
    assert ValuesAre(rp, required);
    MatchFromInput(BuildDict(SkillPairs(cv)), rp, required, |required|, true);
  }

  /** One required entry lands in the found list exactly when it is matched,
      and in the missing list exactly when it is not. */
  lemma SkillLands(cv: seq<string>, required: seq<string>, i: nat)
    requires cv != [] && required != [] && i < |required|
    ensures HasNormalized(MatchCompetences(cv, required).trouvees, Normalize(required[i])) <==> SkillMatched(Normalize(required[i]), cv)
    ensures HasNormalized(MatchCompetences(cv, required).manquantes, Normalize(required[i])) <==> !SkillMatched(Normalize(required[i]), cv)
  {
    var r := MatchCompetences(cv, required);
    var rp := SkillPairs(required);
    var cvD := BuildDict(SkillPairs(cv));
    assert r.trouvees == Found(BuildDict(rp), cvD, true);
    assert r.manquantes == Missing(BuildDict(rp), cvD, true);
    SkillsFromRequired(cv, required);
    SkillPairsFunctional(required);
    assert rp[i].0 == Normalize(required[i]);
    FoundIff(rp, cvD, true, i);
    MissingIff(rp, cvD, true, i);
    SkillHitIff(rp[i].0, cv);
    SkillKeyedBy(r.trouvees, required, rp[i].0);
    SkillKeyedBy(r.manquantes, required, rp[i].0);
  }

  /** Skills partition: with required skills and a non-empty CV, every
      required skill's normalised form is found exactly when a CV skill equals
      it or one contains the other, and missing exactly otherwise (so never
      both); the lists hold required originals only, and fewer entries than
      the required list when two required skills normalise alike. */
  lemma SkillsPartition(cv: seq<string>, required: seq<string>)
    requires cv != [] && required != []
    ensures forall i :: 0 <= i < |required| ==>
      (HasNormalized(MatchCompetences(cv, required).trouvees, Normalize(required[i])) <==> SkillMatched(Normalize(required[i]), cv))
    ensures forall i :: 0 <= i < |required| ==>
      (HasNormalized(MatchCompetences(cv, required).manquantes, Normalize(required[i])) <==> !SkillMatched(Normalize(required[i]), cv))
    ensures forall x :: x in MatchCompetences(cv, required).trouvees ==> x in required
    ensures forall x :: x in MatchCompetences(cv, required).manquantes ==> x in required
    ensures |MatchCompetences(cv, required).trouvees| + |MatchCompetences(cv, required).manquantes| <= |required|
  {
    SkillsFromRequired(cv, required);
    forall i | 0 <= i < |required|
      ensures HasNormalized(MatchCompetences(cv, required).trouvees, Normalize(required[i])) <==> SkillMatched(Normalize(required[i]), cv)
      ensures HasNormalized(MatchCompetences(cv, required).manquantes, Normalize(required[i])) <==> !SkillMatched(Normalize(required[i]), cv)
    {
      SkillLands(cv, required, i);
    }
  }

  /** Two required skills that normalise alike count twice in the
      denominator but once in the lists, so the score stays below 1. */
  lemma DuplicateSkillsScoreBelowOne(cv: seq<string>, required: seq<string>, i: nat, j: nat)
    requires cv != []
    requires i < j < |required| && Normalize(required[i]) == Normalize(required[j])
    ensures MatchCompetences(cv, required).score < 1.0
  {
    var rp := SkillPairs(required);
    var reqD := BuildDict(rp);
    BuildDictShrinks(rp, i, j);
    var m := MatchEntries(BuildDict(SkillPairs(cv)), reqD, |required|, true);
    assert MatchCompetences(cv, required) == m;
    Ratio(|m.trouvees|, |required|);
  }

  /** calculer_match_langues. Splitting a blank entry raises, so when both
      lists are non-empty every entry of both must hold a word. */
  function MatchLangues(cv: seq<string>, required: seq<string>): (r: Match)
    requires required == [] || cv == [] || (NoBlank(cv) && NoBlank(required))
    ensures 0.0 <= r.score <= 1.0
    ensures required == [] ==> r == Match(1.0, [], [])
    ensures required != [] && cv == [] ==> r == Match(0.0, [], required)
    ensures required != [] ==> r.score == Fraction(|r.trouvees|, |required|)
  {
    if |required| == 0 then Match(1.0, [], [])
    else if |cv| == 0 then Match(0.0, [], required)
    else MatchEntries(BuildDict(LanguagePairs(cv)), BuildDict(LanguagePairs(required)), |required|, false)
  }

  /** Some CV language has key `k` (first word, normalised). */
  ghost predicate LanguageMatched(k: string, cv: seq<string>) {
    exists j :: 0 <= j < |cv| && !IsBlank(cv[j]) && LanguageKey(cv[j]) == k
  }

  /** Some element of `xs` has language key `k`. */
  ghost predicate HasLanguageKey(xs: seq<string>, k: string) {
    exists j :: 0 <= j < |xs| && !IsBlank(xs[j]) && LanguageKey(xs[j]) == k
  }

  lemma LanguageHitIff(k: string, cv: seq<string>)
    requires NoBlank(cv)
    ensures Hit(k, BuildDict(LanguagePairs(cv)), false) <==> LanguageMatched(k, cv)
  {
    if Hit(k, BuildDict(LanguagePairs(cv)), false) {
      LanguageHitOnlyIf(k, cv);
    }
    if LanguageMatched(k, cv) {
      LanguageHitIf(k, cv);
    }
  }

  lemma LanguageHitOnlyIf(k: string, cv: seq<string>)
    requires NoBlank(cv) && Hit(k, BuildDict(LanguagePairs(cv)), false)
    ensures LanguageMatched(k, cv)
  {
    var pairs := LanguagePairs(cv);
    var d := BuildDict(pairs);
    assert HasKey(d, k);
    var i := KeyIndex(d, k);
    var j := PairIndex(pairs, d[i]);
    assert pairs[j] == (LanguageKey(cv[j]), cv[j]);
    assert !IsBlank(cv[j]) && LanguageKey(cv[j]) == k;
  }

  /** Where an entry of a list of pairs sits. */
  lemma PairIndex(pairs: Dict, p: (string, string)) returns (j: nat)
    requires p in pairs
    ensures j < |pairs| && pairs[j] == p
  {
    j :| 0 <= j < |pairs| && pairs[j] == p;
  }

  lemma LanguageHitIf(k: string, cv: seq<string>)
    requires NoBlank(cv) && LanguageMatched(k, cv)
    ensures Hit(k, BuildDict(LanguagePairs(cv)), false)
  {
    var pairs := LanguagePairs(cv);
    var j :| 0 <= j < |cv| && !IsBlank(cv[j]) && LanguageKey(cv[j]) == k;
    assert HasKey(BuildDict(pairs), pairs[j].0);
  }

  /** For languages, "some reported language is a required language keyed
      `k`" is "some reported language has key `k`". */
  lemma LanguageKeyedBy(xs: seq<string>, required: seq<string>, k: string)
    requires NoBlank(required)
    requires forall x :: x in xs ==> x in required
    ensures KeyedBy(xs, LanguagePairs(required), k) <==> HasLanguageKey(xs, k)
  {
    var pairs := LanguagePairs(required);
    if HasLanguageKey(xs, k) {
      var t :| 0 <= t < |xs| && !IsBlank(xs[t]) && LanguageKey(xs[t]) == k;
      assert xs[t] in required;
      var j :| 0 <= j < |required| && required[j] == xs[t];
      assert xs[t] == pairs[j].1 && pairs[j].0 == k;
    }
    if KeyedBy(xs, pairs, k) {
      var t, j :| 0 <= t < |xs| && 0 <= j < |pairs| && xs[t] == pairs[j].1 && pairs[j].0 == k;
      assert !IsBlank(required[j]);
    }
  }

  /** Both lists hold required originals only, at most one per required entry. */
  lemma LanguagesFromRequired(cv: seq<string>, required: seq<string>)
    requires cv != [] && required != [] && NoBlank(cv) && NoBlank(required)
    ensures forall x :: x in MatchLangues(cv, required).trouvees ==> x in required
    ensures forall x :: x in MatchLangues(cv, required).manquantes ==> x in required
  {
    var rp := LanguagePairs(required);
    assert ValuesAre(rp, required);
    MatchFromInput(BuildDict(LanguagePairs(cv)), rp, required, |required|, false);
  }

  /** One required entry lands in the found list exactly when it is matched,
      and in the missing list exactly when it is not. */
  lemma LanguageLands(cv: seq<string>, required: seq<string>, i: nat)
    requires cv != [] && required != [] && NoBlank(cv) && NoBlank(required) && i < |required|
    ensures HasLanguageKey(MatchLangues(cv, required).trouvees, LanguageKey(required[i])) <==> LanguageMatched(LanguageKey(required[i]), cv)
    ensures HasLanguageKey(MatchLangues(cv, required).manquantes, LanguageKey(required[i])) <==> !LanguageMatched(LanguageKey(required[i]), cv)
  {
    var r := MatchLangues(cv, required);
    var rp := LanguagePairs(required);
    var cvD := BuildDict(LanguagePairs(cv));
    assert r.trouvees == Found(BuildDict(rp), cvD, false);
    assert r.manquantes == Missing(BuildDict(rp), cvD, false);
    LanguagesFromRequired(cv, required);
    LanguagePairsFunctional(required);
    assert rp[i].0 == LanguageKey(required[i]);
    FoundIff(rp, cvD, false, i);
    MissingIff(rp, cvD, false, i);
    LanguageHitIff(rp[i].0, cv);
    LanguageKeyedBy(r.trouvees, required, rp[i].0);
    LanguageKeyedBy(r.manquantes, required, rp[i].0);
  }

  /** Languages partition: keys are compared by equality only, so a required
      language is found exactly when some CV language has the same first
      word once normalised ("Anglais courant" matches "anglais (C1)", "Ang"
      matches nothing), and missing exactly otherwise; the lists hold
      required originals only. */
  lemma LanguagesPartition(cv: seq<string>, required: seq<string>)
    requires cv != [] && required != [] && NoBlank(cv) && NoBlank(required)
    ensures forall i :: 0 <= i < |required| ==>
      (HasLanguageKey(MatchLangues(cv, required).trouvees, LanguageKey(required[i])) <==> LanguageMatched(LanguageKey(required[i]), cv))
    ensures forall i :: 0 <= i < |required| ==>
      (HasLanguageKey(MatchLangues(cv, required).manquantes, LanguageKey(required[i])) <==> !LanguageMatched(LanguageKey(required[i]), cv))
    ensures forall x :: x in MatchLangues(cv, required).trouvees ==> x in required
    ensures forall x :: x in MatchLangues(cv, required).manquantes ==> x in required
    ensures |MatchLangues(cv, required).trouvees| + |MatchLangues(cv, required).manquantes| <= |required|
  {
    LanguagesFromRequired(cv, required);
    forall i | 0 <= i < |required|
      ensures HasLanguageKey(MatchLangues(cv, required).trouvees, LanguageKey(required[i])) <==> LanguageMatched(LanguageKey(required[i]), cv)
      ensures HasLanguageKey(MatchLangues(cv, required).manquantes, LanguageKey(required[i])) <==> !LanguageMatched(LanguageKey(required[i]), cv)
    {
      LanguageLands(cv, required, i);
    }
  }

  // ---------------------------------------------------------------------------
  // Experience
  // ---------------------------------------------------------------------------

  /** The years every `periode` contributes, added up. */
  function TotalPeriodYears(exps: seq<Experience>): nat
    decreases |exps|
  {
    if |exps| == 0 then 0
    else TotalPeriodYears(exps[..|exps| - 1]) + Periods.PeriodYears(exps[|exps| - 1].periode)
  }

  /** The total is additive over the experience list: no experience
      influences what another one contributes. */
  lemma {:induction false} TotalPeriodYearsAppend(a: seq<Experience>, b: seq<Experience>)
    ensures TotalPeriodYears(a + b) == TotalPeriodYears(a) + TotalPeriodYears(b)
    decreases |b|
  {
    if |b| == 0 {
      assert a + b == a;
    } else {
      var n := |b| - 1;
      assert (a + b)[..|a + b| - 1] == a + b[..n];
      TotalPeriodYearsAppend(a, b[..n]);
    }
  }

  /** extraire_annees_experience: the years read from the periods, or two
      years per experience when none could be read. */
  function ExtraireAnneesExperience(exps: seq<Experience>): (r: nat)
    ensures r == 0 <==> exps == []
    ensures TotalPeriodYears(exps) > 0 ==> r == TotalPeriodYears(exps)
    ensures exps != [] && TotalPeriodYears(exps) == 0 ==> r == 2 * |exps|
  {
    if |exps| == 0 then 0
    else
      var total := TotalPeriodYears(exps);
      if total == 0 then 2 * |exps| else total
  }

  lemma TotalSingle(e: Experience)
    ensures TotalPeriodYears([e]) == Periods.PeriodYears(e.periode)
  {
    assert [e][..0] == [];
  }

  /** A single experience "2019-2023" counts the span of the range; a range
      that runs backwards reads nothing and falls back to two years. */
  lemma SingleRangeExperience(poste: string, description: string, a: string, sep: string, b: string)
    requires Periods.IsYearRange(a, sep, b)
    ensures ExtraireAnneesExperience([Experience(poste, description, a + sep + b)]) ==
      if Periods.YearOf(b) > Periods.YearOf(a) then Periods.YearOf(b) - Periods.YearOf(a) else 2
  {
    TotalSingle(Experience(poste, description, a + sep + b));
    Periods.YearRange(a, sep, b);
  }

  /** experience_requise_ans compared with the candidate's years. The
      comparisons with 70 % and 50 % of the requirement are exact here. */
  function ExperienceScore(years: nat, required: int): (r: real)
    ensures 0.2 <= r <= 1.0
    ensures r == 1.0 <==> required == 0 || years >= required
    ensures required > 0 && years < required ==> r < 1.0
    ensures required > 0 && years < required && years as real >= (required as real) * 0.7 ==> r == 0.8
    ensures required > 0 && years as real < (required as real) * 0.7 && years as real >= (required as real) * 0.5
      ==> r == 0.5
    ensures required > 0 && years as real < (required as real) * 0.5 ==>
      r < 0.5 && r >= Fraction(years, required) && (r == 0.2 || r == Fraction(years, required))
  {
    if required == 0 then 1.0
    else if years >= required then 1.0
    else if years as real >= (required as real) * 0.7 then 0.8
    else if years as real >= (required as real) * 0.5 then 0.5
    else
      Ratio(years, required);
      var q := Fraction(years, required);
      FractionBelowHalf(years, required);
      if q > 0.2 then q else 0.2
  }

  lemma FractionBelowHalf(a: nat, n: nat)
    requires 0 < n && (a as real) < (n as real) * 0.5
    ensures Fraction(a, n) < 0.5
  {
    DivBelow(a as real, n as real, 0.5);
  }

  lemma DivBelow(x: real, n: real, b: real)
    requires 0.0 < n && x < n * b
    ensures x / n < b
  {
  }

  lemma FractionMonotone(a: nat, b: nat, n: nat)
    requires 0 < n && a <= b
    ensures Fraction(a, n) <= Fraction(b, n)
  {
    assert Fraction(b, n) - Fraction(a, n) == ((b - a) as real) / (n as real);
  }

  /** More years never lower the experience score. */
  lemma ExperienceScoreMonotone(y1: nat, y2: nat, required: int)
    requires y1 <= y2
    ensures ExperienceScore(y1, required) <= ExperienceScore(y2, required)
  {
    if required > 0 && y2 < required {
      FractionMonotone(y1, y2, required);
      if (y1 as real) < (required as real) * 0.5 {
        FractionBelowHalf(y1, required);
      }
    }
  }

  // ---------------------------------------------------------------------------
  // Education
  // ---------------------------------------------------------------------------

  /** The degree keywords of each level, 1 (bac) to 5 (doctorate). */
  const LevelWords: seq<seq<string>> := [
    [],
    ["bac", "baccalauréat"],
    ["dut", "bts", "deug", "bac+2"],
    ["licence", "bachelor", "l3"],
    ["master", "m2", "m1", "ingénieur"],
    ["doctorat", "phd", "thèse"]
  ]

  /** Some keyword of `words` occurs in `d`. */
  predicate Mentions(d: string, words: seq<string>) {
    exists i :: 0 <= i < |words| && Contains(d, words[i])
  }

  /** The level one degree title shows: the highest level one of whose
      keywords occurs in the lower-cased title, 0 when none does. */
  function DegreeLevel(diplome: string): (r: nat)
    ensures r <= 5
    ensures r == 0 || Mentions(Lower(diplome), LevelWords[r])
    ensures forall u :: r < u <= 5 ==> !Mentions(Lower(diplome), LevelWords[u])
  {
    var d := Lower(diplome);
    if Mentions(d, LevelWords[5]) then 5
    else if Mentions(d, LevelWords[4]) then 4
    else if Mentions(d, LevelWords[3]) then 3
    else if Mentions(d, LevelWords[2]) then 2
    else if Mentions(d, LevelWords[1]) then 1
    else 0
  }

  /** Every entry's `diplome` is a string (a null one makes `.lower()` raise). */
  predicate DegreesReadable(fs: seq<Formation>) {
    forall i :: 0 <= i < |fs| ==> fs[i].diplome.Some?
  }

  /** extraire_niveau_formation: the highest level among the CV's degrees. */
  function ExtraireNiveauFormation(fs: seq<Formation>): (r: nat)
    requires DegreesReadable(fs)
    ensures r <= 5
    ensures forall i :: 0 <= i < |fs| ==> DegreeLevel(fs[i].diplome.value) <= r
    ensures r == 0 || exists i :: 0 <= i < |fs| && DegreeLevel(fs[i].diplome.value) == r
    decreases |fs|
  {
    if |fs| == 0 then 0
    else
      var n := |fs| - 1;
      var rest := ExtraireNiveauFormation(fs[..n]);
      assert forall i :: 0 <= i < n ==> fs[..n][i] == fs[i];
      var here := DegreeLevel(fs[n].diplome.value);
      if here > rest then here else rest
  }

  /** calculer_score_formation. */
  function ScoreFormation(niveauCv: int, niveauRequis: int): (r: real)
    ensures r == 1.0 || r == 0.7 || r == 0.4 || r == 0.2
    ensures r == 1.0 <==> niveauRequis == 0 || niveauCv >= niveauRequis
    ensures r == 0.7 <==> niveauRequis != 0 && niveauCv == niveauRequis - 1
    ensures r == 0.4 <==> niveauRequis != 0 && niveauCv == niveauRequis - 2
  {
    if niveauRequis == 0 then 1.0
    else if niveauCv >= niveauRequis then 1.0
    else if niveauCv == niveauRequis - 1 then 0.7
    else if niveauCv == niveauRequis - 2 then 0.4
    else 0.2
  }

  /** A higher level never lowers the education score. */
  lemma ScoreFormationMonotone(c1: int, c2: int, niveauRequis: int)
    requires c1 <= c2
    ensures ScoreFormation(c1, niveauRequis) <= ScoreFormation(c2, niveauRequis)
  {
  }

  // ---------------------------------------------------------------------------
  // Final score
  // ---------------------------------------------------------------------------

  /** What the scorer may read without raising. */
  predicate Scorable(cv: CvJson, offre: OffreJson) {
    && DegreesReadable(cv.formations)
    && (offre.languesRequises == [] || cv.langues == [] || (NoBlank(cv.langues) && NoBlank(offre.languesRequises)))
  }

  /** The four rule-based sub-scores, each in [0, 1]. */
  datatype SubScores = SubScores(competences: real, experience: real, formation: real, langues: real)

  predicate InUnit(x: real) {
    0.0 <= x <= 1.0
  }

  /** The weighted sum of the similarity and the four sub-scores. */
  function Weighted(sim: real, s: SubScores): real {
    var p := Ponderations();
    p.semantique * sim + p.competences * s.competences + p.experience * s.experience
      + p.formation * s.formation + p.langues * s.langues
  }

  lemma ScaleUnit(a: real, x: real)
    requires 0.0 <= a && InUnit(x)
    ensures 0.0 <= a * x <= a
  {
  }

  /** With every input in [0, 1], so is the weighted sum: the weights are
      non-negative and add up to 1. */
  lemma WeightedInUnit(sim: real, s: SubScores)
    requires InUnit(sim) && InUnit(s.competences) && InUnit(s.experience) && InUnit(s.formation) && InUnit(s.langues)
    ensures InUnit(Weighted(sim, s))
  {
    var p := Ponderations();
    ScaleUnit(p.semantique, sim);
    ScaleUnit(p.competences, s.competences);
    ScaleUnit(p.experience, s.experience);
    ScaleUnit(p.formation, s.formation);
    ScaleUnit(p.langues, s.langues);
  }

  datatype ListDetail = ListDetail(score: Hundredths, trouvees: seq<string>, manquantes: seq<string>)
  datatype ExperienceDetail = ExperienceDetail(score: Hundredths, anneesCandidat: nat, anneesRequises: int)
  datatype FormationDetail = FormationDetail(score: Hundredths, niveauCandidat: nat, niveauRequis: int)
  datatype Details = Details(
    similariteSemantique: Hundredths,
    competences: ListDetail,
    experience: ExperienceDetail,
    formation: FormationDetail,
    langues: ListDetail)

  /** The dict calculer_score_final returns. */
  datatype ScoreResult = ScoreResult(scoreFinal: Hundredths, details: Details)

  /** The detail percentages, as the weights see them. */
  function DetailWeighted(d: Details): real {
    var p := Ponderations();
    p.semantique * (d.similariteSemantique as real) + p.competences * (d.competences.score as real)
      + p.experience * (d.experience.score as real) + p.formation * (d.formation.score as real)
      + p.langues * (d.langues.score as real)
  }

  /** The rounding error of the final score against its exact weighted sum,
      and against the weighted detail percentages. */
  lemma RoundingBounds(sim: real, s: SubScores, d: Details, f: Hundredths)
    requires f == Percent(Weighted(sim, s))
    requires d.similariteSemantique == Percent(sim) && d.competences.score == Percent(s.competences)
    requires d.experience.score == Percent(s.experience) && d.formation.score == Percent(s.formation)
    requires d.langues.score == Percent(s.langues)
    ensures 10000.0 * Weighted(sim, s) - 0.5 < f as real <= 10000.0 * Weighted(sim, s) + 0.5
    ensures DetailWeighted(d) - 1.0 < f as real <= DetailWeighted(d) + 1.0
  {
  }

  /** calculer_score_final. `sim` is the semantic similarity computed
      elsewhere (nominally in [0, 1]). */
  function ScoreFinal(sim: real, cv: CvJson, offre: OffreJson): (r: ScoreResult)
    requires Scorable(cv, offre)
    ensures InUnit(sim) ==> 0 <= r.scoreFinal <= 10000
    ensures 0 <= r.details.competences.score <= 10000 && 0 <= r.details.langues.score <= 10000
    ensures 2000 <= r.details.experience.score <= 10000 && 2000 <= r.details.formation.score <= 10000
    ensures DetailWeighted(r.details) - 1.0 < r.scoreFinal as real <= DetailWeighted(r.details) + 1.0
    ensures r.details.experience.anneesCandidat == ExtraireAnneesExperience(cv.experiences)
    ensures r.details.experience.anneesRequises == offre.experienceRequiseAns
    ensures r.details.formation.niveauCandidat == ExtraireNiveauFormation(cv.formations)
    ensures r.details.formation.niveauRequis == offre.niveauEtudesRequis
    ensures r.details.similariteSemantique == Percent(sim)
    ensures r.details.competences.trouvees == MatchCompetences(cv.competences, offre.competencesRequises).trouvees
    ensures r.details.competences.manquantes == MatchCompetences(cv.competences, offre.competencesRequises).manquantes
    ensures r.details.langues.trouvees == MatchLangues(cv.langues, offre.languesRequises).trouvees
    ensures r.details.langues.manquantes == MatchLangues(cv.langues, offre.languesRequises).manquantes
  {
    var comp := MatchCompetences(cv.competences, offre.competencesRequises);
    var annees := ExtraireAnneesExperience(cv.experiences);
    var exp := ExperienceScore(annees, offre.experienceRequiseAns);
    var niveau := ExtraireNiveauFormation(cv.formations);
    var form := ScoreFormation(niveau, offre.niveauEtudesRequis);
    var lang := MatchLangues(cv.langues, offre.languesRequises);
    var subs := SubScores(comp.score, exp, form, lang.score);
    var details := Details(
      Percent(sim),
      ListDetail(Percent(comp.score), comp.trouvees, comp.manquantes),
      ExperienceDetail(Percent(exp), annees, offre.experienceRequiseAns),
      FormationDetail(Percent(form), niveau, offre.niveauEtudesRequis),
      ListDetail(Percent(lang.score), lang.trouvees, lang.manquantes));
    var f := Percent(Weighted(sim, subs));
    RoundingBounds(sim, subs, details, f);
    assert InUnit(sim) ==> InUnit(Weighted(sim, subs)) by {
      if InUnit(sim) {
        WeightedInUnit(sim, subs);
      }
    }
    PercentMonotone(0.2, exp);
    PercentMonotone(0.2, form);
    ScoreResult(f, details)
  }

  /** The detail percentages are the four sub-scores, rounded. */
  lemma ScoreFinalDetails(sim: real, cv: CvJson, offre: OffreJson)
    requires Scorable(cv, offre)
    ensures var d := ScoreFinal(sim, cv, offre).details;
      && d.competences.score == Percent(MatchCompetences(cv.competences, offre.competencesRequises).score)
      && d.experience.score
         == Percent(ExperienceScore(ExtraireAnneesExperience(cv.experiences), offre.experienceRequiseAns))
      && d.formation.score
         == Percent(ScoreFormation(ExtraireNiveauFormation(cv.formations), offre.niveauEtudesRequis))
      && d.langues.score == Percent(MatchLangues(cv.langues, offre.languesRequises).score)
  {
  }

  /** An offer requiring no years, no level and no language scores those
      three criteria at 100 %, whatever the CV. */
  lemma NoRequirementDetails(sim: real, cv: CvJson, offre: OffreJson)
    requires Scorable(cv, offre)
    requires offre.experienceRequiseAns == 0 && offre.niveauEtudesRequis == 0 && offre.languesRequises == []
    ensures var d := ScoreFinal(sim, cv, offre).details;
      d.experience.score == 10000 && d.formation.score == 10000 && d.langues.score == 10000
  {
    ScoreFinalDetails(sim, cv, offre);
  }

  lemma PercentMonotone(x: real, y: real)
    requires x <= y
    ensures Percent(x) <= Percent(y)
  {
    RoundMonotone(10000.0 * x, 10000.0 * y);
  }

  /** A higher similarity never lowers the final score. */
  lemma ScoreFinalMonotone(s1: real, s2: real, cv: CvJson, offre: OffreJson)
    requires Scorable(cv, offre) && s1 <= s2
    ensures ScoreFinal(s1, cv, offre).scoreFinal <= ScoreFinal(s2, cv, offre).scoreFinal
  {
    var comp := MatchCompetences(cv.competences, offre.competencesRequises);
    var exp := ExperienceScore(ExtraireAnneesExperience(cv.experiences), offre.experienceRequiseAns);
    var form := ScoreFormation(ExtraireNiveauFormation(cv.formations), offre.niveauEtudesRequis);
    var lang := MatchLangues(cv.langues, offre.languesRequises);
    var subs := SubScores(comp.score, exp, form, lang.score);
    PercentMonotone(Weighted(s1, subs), Weighted(s2, subs));
  }

  /** An offer that requires nothing (no skills, years, level or languages)
      gives every sub-score 1, so the final score is at least 60 % for any
      non-negative similarity. */
  lemma NoRequirementsFloor(sim: real, cv: CvJson, offre: OffreJson)
    requires Scorable(cv, offre) && 0.0 <= sim
    requires offre.competencesRequises == [] && offre.experienceRequiseAns == 0
    requires offre.niveauEtudesRequis == 0 && offre.languesRequises == []
    ensures ScoreFinal(sim, cv, offre).scoreFinal >= 6000
  {
    ScoreFinalWeighted(sim, cv, offre);
    var comp := MatchCompetences(cv.competences, offre.competencesRequises).score;
    var exp := ExperienceScore(ExtraireAnneesExperience(cv.experiences), offre.experienceRequiseAns);
    var form := ScoreFormation(ExtraireNiveauFormation(cv.formations), offre.niveauEtudesRequis);
    var lang := MatchLangues(cv.langues, offre.languesRequises).score;
    FullSubScoresFloor(sim, SubScores(comp, exp, form, lang));
  }

  /** With every sub-score 1 and a non-negative similarity, the rounded
      weighted sum is at least 60 %. */
  lemma FullSubScoresFloor(sim: real, s: SubScores)
    requires 0.0 <= sim && s == SubScores(1.0, 1.0, 1.0, 1.0)
    ensures Percent(Weighted(sim, s)) >= 6000
  {
    PercentMonotone(0.6, Weighted(sim, s));
  }

  /** The final score is the rounded weighted sum of the similarity and the
      four sub-scores. */
  lemma ScoreFinalWeighted(sim: real, cv: CvJson, offre: OffreJson)
    requires Scorable(cv, offre)
    ensures ScoreFinal(sim, cv, offre).scoreFinal == Percent(Weighted(sim, SubScores(
      MatchCompetences(cv.competences, offre.competencesRequises).score,
      ExperienceScore(ExtraireAnneesExperience(cv.experiences), offre.experienceRequiseAns),
      ScoreFormation(ExtraireNiveauFormation(cv.formations), offre.niveauEtudesRequis),
      MatchLangues(cv.langues, offre.languesRequises).score)))
  {
  }

  // ---------------------------------------------------------------------------
  // Recommendation
  // ---------------------------------------------------------------------------

  datatype Recommendation = Excellent | Bon | Moyen | Faible {
    /** The label the API reports. */
    function Label(): string {
      match this
      case Excellent => "EXCELLENT"
      case Bon => "BON"
      case Moyen => "MOYEN"
      case Faible => "FAIBLE"
    }

    /** The bands in increasing order. */
    function Rank(): nat {
      match this
      case Faible => 0
      case Moyen => 1
      case Bon => 2
      case Excellent => 3
    }
  }

  /** The lowest score, in hundredths, of each band. */
  function BandFloor(r: Recommendation): Hundredths {
    match r
    case Excellent => 8000
    case Bon => 6500
    case Moyen => 5000
    case Faible => 0
  }

  /** determiner_recommandation: the highest band whose floor the score
      reaches (scores below 50 % are FAIBLE). */
  function DeterminerRecommandation(score: Hundredths): (r: Recommendation)
    ensures r == Faible || score >= BandFloor(r)
    ensures forall b: Recommendation :: b.Rank() > r.Rank() ==> score < BandFloor(b)
  {
    if score >= 8000 then Excellent
    else if score >= 6500 then Bon
    else if score >= 5000 then Moyen
    else Faible
  }

  /** A higher score never gets a lower band. */
  lemma RecommendationMonotone(s1: Hundredths, s2: Hundredths)
    requires s1 <= s2
    ensures DeterminerRecommandation(s1).Rank() <= DeterminerRecommandation(s2).Rank()
  {
  }

  /** Labels are distinct, so the band can be read back from its label. */
  lemma LabelsDistinct(a: Recommendation, b: Recommendation)
    requires a.Label() == b.Label()
    ensures a == b
  {
  }
}
