# Recruitment matching backend, modelled in Dafny

This project models the deterministic core of `ai-recrutement-backend`, a FastAPI service that helps with recruitment. It matches candidates' CVs against job offers and keeps track of applications. Each part of the core is written as pure functions over immutable records, with contracts and lemmas that state what the Python code promises:

- **The CV-to-offer scorer** (`Scoring`, `Periods`). It covers:
  - skill matching on normalised names, by exact key or two-way substring;
  - language matching on the first word of each entry;
  - years of experience read from free-text periods ("2019-2023", "3 ans");
  - degree keywords mapped to a level from 0 to 5;
  - the banded experience and education sub-scores;
  - the fixed-weight final score, and the four recommendation bands.
- **The matching engine** (`Engine`). It builds the text sent to the embedding model for a CV and an offer, and assembles one match: score, details, band, and explanations when they are asked for.
- **The explanations** (`Explanations`). The recruiter and candidate fallbacks are used when the language model fails. The score printed in those texts is shown to read back.
- **The embedding-text builders** (`TextBuilders`). These are the CV and offer texts indexed in the vector store.
- **The matching routes** (`MatchingApi`, `Compat`). They cover:
  - `/score`;
  - `/search-offres` and `/search-candidats`, which rank by score, keep `top_k` and count every result;
  - `/match`, which maps a loose candidate/job payload into the engine's CV and offer.
- **Applications** (`Candidatures`). This covers the guards of creation and status update, in their order, the listing and reading rules, and the invariant of one application per candidate and offer.
- **Registration and login** (`Auth`). This covers unique emails, default profile names, and one profile per new user.
- **The CORS origin list** (`Config`).

Supporting modules:

- `Wrappers`: `Option` and `Result`.
- `Strings`: Python's `strip`, `lower`, `split`, `join`, `str(int)` and slicing.
- `Json`: dictionaries with last-write-wins keys and Python truthiness.
- `Store`: the database tables as sequences in insertion order, with the `filter(...).first()` lookups.
- `Ranking`: a stable sort by decreasing key.

Percentages are whole numbers of hundredths (72.5 % is 7250), which is the granularity of `round(x, 2)`. Sub-scores are exact reals in [0, 1]. The following are parameters of the model:

- the embedding model and the cosine similarity;
- the language model;
- password hashing and checking;
- new ids and timestamps.

Where the code raises on the records the model can represent, the scorer has a precondition and the HTTP layer returns a 500 result. The record types are narrower than what the extraction may store; "## Left out" names the inputs they cannot hold.

Four facts about the code shape the model:

- **The scorer can raise.** It raises on a blank language entry (`l.split()[0]`, `utils/scoring.py:203-204`) and on a `null` diploma (`.lower()`, `utils/scoring.py:146`). `Scoring.Scorable` states both conditions. The routes turn the exception into a 500.
- **Languages are compared by equality only.** The normalised first word of each entry must be equal; unlike skills, there is no substring match (`utils/scoring.py:203-213`).
- **Embedding failures are not caught.** `executer_matching` does not catch them, so in the routes they become 500 errors.
- **The final score is not clamped.** It stays in [0, 100] only when the similarity is in [0, 1] (`utils/scoring.py:282-291`).

Every matching route validates each result as a `MatchingResponse` (`api/matching.py:75,132,202,256`). The scores and details always pass. The explanations pass only when each side has the fields its schema types (`schemas/matching.py:55-74`). The fallbacks always have them; an answer of the language model may not, and the route then answers 500. `Explanations.RecruiterShaped` and `Explanations.CandidateShaped` state the two schemas. The `ToJson` members of `RecruiterExplanation` and `CandidateExplanation` build the fallback dicts with every field in place, and `Explications.ToJson` builds the pair keyed "pour_recruteur" and "pour_candidat". `Explanations.GenererConforms` and `Engine.ConformingMatch` connect validation to the model's answers.

## Model

Source paths are relative to the repository root; all of them sit under `ai-recrutement-backend/app/`.

| member | source | states |
|---|---|---|
| Scoring.Ponderations | ai-recrutement-backend/app/utils/scoring.py:15-21 | The five weights are non-negative, add up to exactly 1, and rank semantic > skills > experience > education > languages |
| Scoring.Round | ai-recrutement-backend/app/utils/scoring.py:291 | The rounded value is within half a unit of the exact one |
| Scoring.RoundMonotone | ai-recrutement-backend/app/utils/scoring.py:291 | Rounding never reverses the order of two values |
| Scoring.Percent | ai-recrutement-backend/app/utils/scoring.py:291 | A fraction in [0, 1] becomes a percentage between 0 and 100.00; 1 gives exactly 100 % and 0 gives 0 % |
| Scoring.PercentMonotone | ai-recrutement-backend/app/utils/scoring.py:291 | A larger fraction never gives a smaller rounded percentage |
| Scoring.Normalize | ai-recrutement-backend/app/utils/scoring.py:75-77 | A normalised skill holds no '-' and no '_' |
| Scoring.RemoveCharAbsent | ai-recrutement-backend/app/utils/scoring.py:77 | Removing a character the text does not contain changes nothing |
| Scoring.NormalizeLowered | ai-recrutement-backend/app/utils/scoring.py:75-77 | A skill whose lower-case form is made only of ASCII letters normalises to that lower-case form |
| Scoring.NormalizeWord | ai-recrutement-backend/app/utils/scoring.py:75-77 | A single word of letters normalises to its lower-case spelling, so "Python" and "python" share a key |
| Scoring.HasKeyIff | ai-recrutement-backend/app/utils/scoring.py:110 | `k in d` holds exactly when some entry of the dict has key k |
| Scoring.Put | ai-recrutement-backend/app/utils/scoring.py:101-102 | Assigning a key adds it once, at the end, only if it is new. Every earlier key stays, every value comes from the dict or the assignment, and keys stay distinct |
| Scoring.BuildDict | ai-recrutement-backend/app/utils/scoring.py:101-102 | The dict comprehension has distinct keys and at most one entry per input. Every input key is in it, and every entry is one of the inputs |
| Scoring.BuildDictShrinks | ai-recrutement-backend/app/utils/scoring.py:101-102 | Two inputs that normalise to the same key leave the dict strictly shorter than the input list |
| Scoring.BuildDictDistinct | ai-recrutement-backend/app/utils/scoring.py:101-102 | Inputs whose keys are already distinct build a dict that holds them unchanged and in order |
| Scoring.SkillPairs | ai-recrutement-backend/app/utils/scoring.py:101-102 | Each skill is paired with its own normalised form, position by position |
| Scoring.LanguagePairs | ai-recrutement-backend/app/utils/scoring.py:203-204 | Each language is paired with its normalised first word, position by position |
| Scoring.AnySimilarIff | ai-recrutement-backend/app/utils/scoring.py:113-117 | The inner loop hits exactly when some CV key contains the required key or is contained in it |
| Scoring.Found | ai-recrutement-backend/app/utils/scoring.py:108-121 | A value is reported found exactly when it is the original of a required entry that is hit |
| Scoring.Missing | ai-recrutement-backend/app/utils/scoring.py:108-121 | A value is reported missing exactly when it is the original of a required entry that is not hit |
| Scoring.FoundMissingCount | ai-recrutement-backend/app/utils/scoring.py:108-121 | Every dict entry lands in exactly one of the two lists, so their lengths add up to the dict's size |
| Scoring.AllKeysFound | ai-recrutement-backend/app/utils/scoring.py:108-121 | When every required key is a CV key, all required originals are found, in order, and none is missing |
| Scoring.MatchEntries | ai-recrutement-backend/app/utils/scoring.py:124 | The score is the number found divided by the number of required entries, duplicates counted, so it lies in [0, 1] |
| Scoring.Ratio | ai-recrutement-backend/app/utils/scoring.py:124 | found / required lies in [0, 1], multiplies back to found, and is below 1 whenever something is missing |
| Scoring.MatchCompetences | ai-recrutement-backend/app/utils/scoring.py:80-126 | With no required skills the result is (1.0, [], []). With required skills and an empty CV it is (0.0, [], the required list). Otherwise the score is found / len(required), in [0, 1] |
| Scoring.SkillHitIff | ai-recrutement-backend/app/utils/scoring.py:108-117 | A required key is hit exactly when some CV skill, normalised, equals it, contains it, or is contained in it |
| Scoring.FoundIff | ai-recrutement-backend/app/utils/scoring.py:108-121 | A required key is reported in the found list exactly when it is hit |
| Scoring.MissingIff | ai-recrutement-backend/app/utils/scoring.py:108-121 | A required key is reported in the missing list exactly when it is not hit |
| Scoring.ReportedFromInput | ai-recrutement-backend/app/utils/scoring.py:108-121 | Both lists hold only values taken from the required list |
| Scoring.MatchFromInput | ai-recrutement-backend/app/utils/scoring.py:104-124 | Both lists of a comparison hold only values from the required list |
| Scoring.SkillsFromRequired | ai-recrutement-backend/app/utils/scoring.py:104-124 | Found and missing skills are original required skills, never CV skills |
| Scoring.SkillLands | ai-recrutement-backend/app/utils/scoring.py:101-124 | One required skill is found exactly when it matches a CV skill, and missing exactly when it does not |
| Scoring.SkillsPartition | ai-recrutement-backend/app/utils/scoring.py:101-124 | Every required skill's normalised form is found if and only if it matches a CV skill by equality or two-way containment, and missing otherwise. The lists hold required originals only, and together have at most len(required) entries |
| Scoring.DuplicateSkillsScoreBelowOne | ai-recrutement-backend/app/utils/scoring.py:101-124 | Two required skills that normalise alike count twice in the denominator but once in the lists, so the skill score stays below 1 |
| Scoring.MatchLangues | ai-recrutement-backend/app/utils/scoring.py:186-217 | The empty cases mirror the skills (1.0 with nothing required; 0.0 and everything missing when the CV lists none). Otherwise the score is found / len(required), in [0, 1]. It requires every entry to hold a word once both lists are non-empty |
| Scoring.LanguageHitIff | ai-recrutement-backend/app/utils/scoring.py:209-213 | A required language key is hit exactly when some CV language has the same normalised first word; there is no substring matching |
| Scoring.LanguagesFromRequired | ai-recrutement-backend/app/utils/scoring.py:206-215 | Found and missing languages are original required entries |
| Scoring.LanguageLands | ai-recrutement-backend/app/utils/scoring.py:203-215 | One required language is found exactly when some CV language shares its first word, and missing exactly otherwise |
| Scoring.LanguagesPartition | ai-recrutement-backend/app/utils/scoring.py:196-217 | Every required language is found if and only if some CV language has the same normalised first word, and missing otherwise. The lists hold required originals only |
| Scoring.TotalPeriodYearsAppend | ai-recrutement-backend/app/utils/scoring.py:43-62 | Experience years add up over the list: no experience changes what another one contributes |
| Scoring.ExtraireAnneesExperience | ai-recrutement-backend/app/utils/scoring.py:28-68 | The result is 0 exactly for an empty list. It is the sum of the periods' years when that sum is positive, and otherwise two years per experience |
| Scoring.SingleRangeExperience | ai-recrutement-backend/app/utils/scoring.py:43-66 | One experience "2019-2023" counts the span of its range. A range that runs backwards reads 0 and falls back to 2 years |
| Scoring.ExperienceScore | ai-recrutement-backend/app/utils/scoring.py:257-266 | The score is in [0.2, 1]. It is 1 exactly when nothing is required or the years meet the requirement, 0.8 from 70 % of the requirement, 0.5 from 50 %, and otherwise the larger of 0.2 and years / required, below 0.5 |
| Scoring.ExperienceScoreMonotone | ai-recrutement-backend/app/utils/scoring.py:257-266 | More years never lower the experience score |
| Scoring.DegreeLevel | ai-recrutement-backend/app/utils/scoring.py:146-157 | The level is at most 5. It is 0 or one of its tier's keywords occurs in the lower-cased title, and no keyword of a higher tier occurs |
| Scoring.ExtraireNiveauFormation | ai-recrutement-backend/app/utils/scoring.py:133-159 | The level is the maximum over the degrees: at most 5, at least each degree's level, and reached by one of them unless it is 0 (0 for an empty list) |
| Scoring.ScoreFormation | ai-recrutement-backend/app/utils/scoring.py:162-179 | The score is 1.0 exactly when nothing is required or the level is met, 0.7 exactly one level short, 0.4 exactly two levels short, and otherwise 0.2 |
| Scoring.ScoreFormationMonotone | ai-recrutement-backend/app/utils/scoring.py:162-179 | A higher candidate level never lowers the education score |
| Scoring.WeightedInUnit | ai-recrutement-backend/app/utils/scoring.py:282-288 | With the similarity and every sub-score in [0, 1], the weighted sum is in [0, 1] |
| Scoring.RoundingBounds | ai-recrutement-backend/app/utils/scoring.py:274-291 | The final score is within half a hundredth of 100 × the exact weighted sum, and within one hundredth of the weighted rounded detail percentages |
| Scoring.ScoreFinal | ai-recrutement-backend/app/utils/scoring.py:224-318 | For a similarity in [0, 1] the final score is in [0, 100]. The experience and education details are at least 20 %. The details report the similarity as a percentage, the extracted years and level next to the offer's requirements, and both the found and the missing lists of the skill and language comparisons |
| Scoring.ScoreFinalDetails | ai-recrutement-backend/app/utils/scoring.py:293-317 | Each detail percentage is its sub-score rounded to two decimals |
| Scoring.ScoreFinalWeighted | ai-recrutement-backend/app/utils/scoring.py:282-291 | The final score is the weighted sum of the similarity and the four sub-scores, rounded |
| Scoring.NoRequirementDetails | ai-recrutement-backend/app/utils/scoring.py:254-279 | An offer requiring no years, no level and no language scores those three criteria at 100 %, whatever the CV |
| Scoring.NoRequirementsFloor | ai-recrutement-backend/app/utils/scoring.py:245-291 | An offer that requires nothing gives a final score of at least 60 % for any non-negative similarity |
| Scoring.ScoreFinalMonotone | ai-recrutement-backend/app/utils/scoring.py:282-291 | A higher similarity never lowers the final score |
| Scoring.DeterminerRecommandation | ai-recrutement-backend/app/utils/scoring.py:325-339 | The band is the highest one whose floor (80, 65, 50) the score reaches; below 50 % it is FAIBLE |
| Scoring.RecommendationMonotone | ai-recrutement-backend/app/utils/scoring.py:332-339 | A higher score never gets a lower band |
| Scoring.LabelsDistinct | ai-recrutement-backend/app/utils/scoring.py:332-339 | The four labels differ, so the band can be read back from its label |
| Periods.YearValue | ai-recrutement-backend/app/utils/scoring.py:50 | Each year the pattern `\b(20\d{2})\b` matches is between 2000 and 2099 |
| Periods.YearsFrom | ai-recrutement-backend/app/utils/scoring.py:50 | The scan finds only 20xx years. It finds none where the pattern cannot match, and the first match opens the list |
| Periods.YearRangeYears | ai-recrutement-backend/app/utils/scoring.py:50 | In "YYYY-sep-YYYY" the year pattern finds exactly the two years |
| Periods.YearRangeNoCount | ai-recrutement-backend/app/utils/scoring.py:60-62 | A year range holds no digits followed by "an", so the "N an" rule adds nothing to it |
| Periods.YearRange | ai-recrutement-backend/app/utils/scoring.py:46-62 | A range contributes the span between its two years, and 0 when it runs backwards |
| Periods.AnCountAfter | ai-recrutement-backend/app/utils/scoring.py:60-62 | The leftmost "N an" is read as the integer of the first run of digits when "an" follows it |
| Periods.IntAnsPeriod | ai-recrutement-backend/app/utils/scoring.py:60-62 | The period "N ans" reads as abs(N) years: the regex skips a minus sign |
| Strings.Strip | ai-recrutement-backend/app/core/config.py:25 | Stripping leaves no whitespace at either end, and gives "" exactly for blank text |
| Strings.StripStripped | ai-recrutement-backend/app/core/config.py:25 | Stripping text that is already stripped changes nothing |
| Strings.SplitJoin | ai-recrutement-backend/app/core/config.py:25 | No piece of `s.split(",")` holds a comma, and joining the pieces with commas gives `s` back |
| Strings.FirstWord | ai-recrutement-backend/app/utils/scoring.py:204 | `l.split()[0]` of non-blank text is a non-empty word, free of whitespace, at the start of the left-stripped text |
| Strings.NatToStringRoundTrip | ai-recrutement-backend/app/api/matching.py:243 | `int(str(n)) == n` for every non-negative n |
| Strings.PyPrefix | ai-recrutement-backend/app/api/matching.py:209 | `xs[:k]` is a prefix of `xs` of length min(k, n), and of length max(n + k, 0) for a negative k |
| Json.Lookup | ai-recrutement-backend/app/api/matching.py:239-245 | A key is absent exactly when no entry has it; a present key's value is one of its entries |
| Json.LookupAt | ai-recrutement-backend/app/api/matching.py:247-253 | A key not written again later reads back the value stored for it |
| Json.GetLastWrite | ai-recrutement-backend/app/api/matching.py:247-253 | The last write of a key is the value read back |
| Json.GetOtherKey | ai-recrutement-backend/app/api/matching.py:247-253 | Writing one key leaves every other key's value unchanged |
| Json.FirstTruthyIndex | ai-recrutement-backend/app/vector_store/text_builders.py:19 | The chain `d.get(k1) or d.get(k2) or ...` stops at the first key whose value is truthy; every earlier value is falsy |
| Json.FirstTruthyOtherKey | ai-recrutement-backend/app/vector_store/text_builders.py:19 | Writing a key outside the chain leaves the chain's value unchanged |
| Store.First | ai-recrutement-backend/app/services/auth_service.py:12 | `first()` is None exactly when no row satisfies the filter; otherwise it returns a row that does |
| Store.Filter | ai-recrutement-backend/app/api/candidatures.py:120 | `all()` keeps exactly the rows that satisfy the filter, none added |
| Store.UserById | ai-recrutement-backend/app/services/auth_service.py:15-16 | The lookup fails exactly when no user has the id, and otherwise returns a stored user with that id |
| Store.UserByEmail | ai-recrutement-backend/app/services/auth_service.py:11-12 | The lookup fails exactly when no user has the email, and otherwise returns the stored user with that email that comes first in table order |
| Store.CandidatOfUser | ai-recrutement-backend/app/services/auth_service.py:19-20 | The lookup fails exactly when no candidate profile links to the user, and otherwise returns one that does |
| Store.RecruteurOfUser | ai-recrutement-backend/app/services/auth_service.py:23-24 | The lookup fails exactly when no recruiter profile links to the user, and otherwise returns one that does |
| Store.CvById | ai-recrutement-backend/app/api/matching.py:46 | The lookup fails exactly when no CV has the id, and otherwise returns a stored CV with that id |
| Store.OffreById | ai-recrutement-backend/app/api/matching.py:56 | The lookup fails exactly when no offer has the id, and otherwise returns a stored offer with that id |
| Store.CandidatureById | ai-recrutement-backend/app/api/candidatures.py:145 | The lookup fails exactly when no application has the id, and otherwise returns the first stored application with it |
| Store.CvJsonOf | ai-recrutement-backend/app/api/matching.py:68 | A CV without a structure is read as the empty CV |
| Store.OffreJsonOf | ai-recrutement-backend/app/api/matching.py:69 | An offer without a structure is read as its title and description, with no requirement |
| Store.DefaultCvScorable | ai-recrutement-backend/app/api/matching.py:68-69 | A CV without a structure never makes the scorer raise, whatever the offer |
| Engine.ExperienceParts | ai-recrutement-backend/app/ai/moteur_matching.py:75-82 | Each experience adds at most two non-empty parts; every non-empty title appears as "Expérience : " and the title, and every non-empty description appears as it is |
| Engine.ExperiencePartsAppend | ai-recrutement-backend/app/ai/moteur_matching.py:75-82 | Experiences contribute their parts in input order |
| Engine.ExperiencePartsEmptyIff | ai-recrutement-backend/app/ai/moteur_matching.py:75-82 | Experiences add nothing exactly when each has an empty title and an empty description |
| Engine.FormationParts | ai-recrutement-backend/app/ai/moteur_matching.py:85-89 | At most one non-empty part per degree, and every non-empty degree appears as "Formation : " and the degree |
| Engine.FormationPartsEmptyIff | ai-recrutement-backend/app/ai/moteur_matching.py:85-89 | Degrees add nothing exactly when none is a non-empty string |
| Engine.ListPart | ai-recrutement-backend/app/ai/moteur_matching.py:70-72 | A labelled list is present exactly when the list is non-empty |
| Engine.PreparerTexteCv | ai-recrutement-backend/app/ai/moteur_matching.py:57-96 | The CV text is its parts joined by " \| "; it is empty exactly when there are no parts, and opens with the skills when there are any |
| Engine.CvPartsSections | ai-recrutement-backend/app/ai/moteur_matching.py:69-94 | The CV's parts are, in order: the skills line when there are skills, the experiences' parts, the degrees' parts, and the languages line last when there are languages |
| Engine.CvPartsMention | ai-recrutement-backend/app/ai/moteur_matching.py:75-89 | Every titled experience, every described experience and every non-empty degree has its line among the CV's parts |
| Engine.CvTextEmptyIff | ai-recrutement-backend/app/ai/moteur_matching.py:57-96 | The CV text is empty exactly when the CV has no skill, no language, no experience with a title or description, and no degree |
| Engine.PreparerTexteOffre | ai-recrutement-backend/app/ai/moteur_matching.py:99-136 | The offer text is its parts joined by " \| "; it is empty exactly when there are no parts, and opens with "Poste : " when the offer has a title |
| Engine.OffrePartsSections | ai-recrutement-backend/app/ai/moteur_matching.py:109-134 | The offer's parts are, each present exactly when non-empty and each at its place: "Poste : " and the title, the description, the required skills line, "Missions : " and the missions, and the languages line |
| Engine.OffreTextEmptyIff | ai-recrutement-backend/app/ai/moteur_matching.py:99-136 | The offer text is empty exactly when the title, description, skills, missions and languages are all empty |
| Engine.Similarity | ai-recrutement-backend/app/ai/moteur_matching.py:168-180 | Given embeddings are used as they are; missing ones are computed from the prepared texts |
| Engine.ExecuterMatching | ai-recrutement-backend/app/ai/moteur_matching.py:143-223 | The score and details are exactly calculer_score_final's, and the score is in [0, 100] for a similarity in [0, 1]. The band is the one the score falls in. Explanations are present exactly when asked for, and are then the explanations of this score and band |
| Engine.ConformingMatch | ai-recrutement-backend/app/schemas/matching.py:55-89 | A match passes MatchingResponse validation exactly when no explanations were asked for or each answer the language model gave for this score and band has its schema's fields; a model whose every answer does never fails it |
| Engine.Assemble | ai-recrutement-backend/app/ai/moteur_matching.py:197-217 | The result carries the given score and details, the band of that score, and explanations only when asked for |
| Engine.FallbackAgreesWithBand | ai-recrutement-backend/app/ai/moteur_matching.py:197-209 | When the recruiter call fails, the fallback advises an interview exactly when the band is above FAIBLE |
| Engine.AssembledFallbackAgrees | ai-recrutement-backend/app/ai/moteur_matching.py:197-209 | The same agreement holds for any assembled result |
| Engine.FallbackRecommendation | ai-recrutement-backend/app/ai/agent_explication.py:247 | The recruiter fallback's advice, read from its JSON, is ENTRETIEN exactly from 50 % on |
| Engine.AboveFaible | ai-recrutement-backend/app/utils/scoring.py:332-339 | A score's band is above FAIBLE exactly from 50 % on |
| Engine.UnreadKeysIgnored | ai-recrutement-backend/app/ai/moteur_matching.py:143-223 | Offer keys the engine never reads leave the match unchanged |
| Engine.GivenEmbeddingsUsed | ai-recrutement-backend/app/ai/moteur_matching.py:168-176 | Given both embeddings, the embedding model is never consulted |
| Explanations.FormatScore | ai-recrutement-backend/app/ai/agent_explication.py:250 | The printed score is digits with one decimal point, and starts with '-' exactly for a negative score |
| Explanations.FormatScoreRoundTrip | ai-recrutement-backend/app/ai/agent_explication.py:250 | Reading a printed score back gives the score, so distinct scores always print differently |
| Explanations.RecruiterFallback | ai-recrutement-backend/app/ai/agent_explication.py:244-251 | The fallback advises ENTRETIEN exactly from 50 % on and REJETER otherwise, whatever band it is given. It has one strength and one weakness, and its synthesis opens with the score prefix |
| Explanations.RecruiterFallbackStatesScore | ai-recrutement-backend/app/ai/agent_explication.py:250 | The recruiter synthesis states the score it was built from |
| Explanations.CandidateFallback | ai-recrutement-backend/app/ai/agent_explication.py:254-267 | The assets are the first min(3, n) found skills, in order. The areas to improve are the first three missing skills, or the fixed encouragement when none is missing. The three tips are always the fixed ones |
| Explanations.CandidateFallbackStatesScore | ai-recrutement-backend/app/ai/agent_explication.py:259 | The candidate message states the score it was built from |
| Explanations.ListOr | ai-recrutement-backend/app/ai/agent_explication.py:151-154 | `", ".join(xs) or dflt` gives the default for an empty list, and otherwise either the default or the joined list |
| Explanations.ListOrShowsList | ai-recrutement-backend/app/ai/agent_explication.py:151-154 | A non-empty list whose first entry is not empty is shown as it is |
| Explanations.RecruiterPromptOf | ai-recrutement-backend/app/ai/agent_explication.py:151-178 | The recruiter prompt carries the score, title, band and the skill and language percentages, and says "Aucune" when no skill is missing |
| Explanations.CandidatePromptOf | ai-recrutement-backend/app/ai/agent_explication.py:206-230 | The candidate prompt carries the score, title and band, and uses the fixed texts when nothing was found |
| Explanations.GenererConforms | ai-recrutement-backend/app/schemas/matching.py:55-74 | The complete explanations pass the Explications schema exactly when each answer the model gave has its schema's fields, since the fallbacks always do |
| Explanations.GenererExplicationsCompletes | ai-recrutement-backend/app/ai/agent_explication.py:274-311 | Each side is the model's answer when its call succeeds, and that side's fallback when the call raises |
| Explanations.RecruiterSideOnFailure | ai-recrutement-backend/app/ai/agent_explication.py:183-185 | When the recruiter call fails, that side advises an interview exactly from 50 % on, and states the score |
| Explanations.CandidateSideOnFailure | ai-recrutement-backend/app/ai/agent_explication.py:235-237 | When the candidate call fails, that side's message states the score |
| Ranking.InsertDesc | ai-recrutement-backend/app/api/matching.py:134 | Insertion keeps the list sorted by decreasing score and adds exactly the new element |
| Ranking.InsertDescBound | ai-recrutement-backend/app/api/matching.py:134 | Inserting under a bound keeps every score under it |
| Ranking.SortDesc | ai-recrutement-backend/app/api/matching.py:134 | The sort is a permutation of its input, ordered by non-increasing score, and stable: for every score, the results with that score keep their input order |
| Ranking.InsertDescStable | ai-recrutement-backend/app/api/matching.py:134 | Insertion puts the new element behind every element of equal score and moves none of them |
| Ranking.InsertLastStable | ai-recrutement-backend/app/api/matching.py:134 | Inserting the last element into a stable sort of the others gives a stable sort of the whole |
| Ranking.WithKeyAppend | ai-recrutement-backend/app/api/matching.py:134 | The results with one score in two runs are those of the first run, then those of the second |
| Ranking.SortedPrefixStable | ai-recrutement-backend/app/api/matching.py:134-135 | A prefix of the sorted list keeps, for every score, the earliest results of that score in input order |
| Ranking.SameKeyPrefix | ai-recrutement-backend/app/api/matching.py:134-135 | Results of one score, kept earliest first, form a prefix of the input |
| Ranking.TopKBest | ai-recrutement-backend/app/api/matching.py:135 | No result left out by `[:top_k]` scores above one that is kept |
| Ranking.PrefixBeatsRest | ai-recrutement-backend/app/api/matching.py:134-135 | A prefix of a sorted list is sorted, and nothing after it beats anything in it |
| Ranking.PrefixMultiset | ai-recrutement-backend/app/api/matching.py:135 | What a prefix leaves of a list is exactly the rest of it |
| MatchingApi.Ranked | ai-recrutement-backend/app/api/matching.py:134-141 | The matches are sorted by decreasing score and are the first min(top_k, n) of the results. None left out beats one kept, among results of equal score those kept are the earliest in input order, and the total counts every scored item |
| MatchingApi.EqualScoresKeepOrder | ai-recrutement-backend/app/api/matching.py:134-135 | When every result has the same score, `[:top_k]` keeps the first top_k in the order they were scored |
| MatchingApi.LeftOutBelow | ai-recrutement-backend/app/api/matching.py:205-209 | The kept prefix of a ranking is sorted, and drawn from it, and beats the rest |
| MatchingApi.MatchOffres | ai-recrutement-backend/app/api/matching.py:123-132 | One match per open offer, in order, each exactly executer_matching's; the loop fails exactly when some offer makes the scorer raise or its result fails MatchingResponse validation |
| MatchingApi.MatchCvs | ai-recrutement-backend/app/api/matching.py:191-202 | One match per CV, in order, each exactly executer_matching's; the loop fails exactly when some CV makes the scorer raise or its result fails MatchingResponse validation |
| MatchingApi.OpenOffres | ai-recrutement-backend/app/api/matching.py:113 | The open offers are exactly the stored offers with status "ouverte" |
| MatchingApi.ScoreRoute | ai-recrutement-backend/app/api/matching.py:30-83 | An unknown CV gives 404 before the offer is looked up, and an unknown offer gives 404. Otherwise the route returns the engine's match, or 500 exactly when the scorer raises or the match fails MatchingResponse validation |
| MatchingApi.SearchOffres | ai-recrutement-backend/app/api/matching.py:90-149 | top_k outside 1..20 gives 422, and an unknown CV gives 404. Otherwise the route answers 500 exactly when some open offer's match raises or fails validation; on success the total counts every open offer and at most top_k ≤ 20 matches are returned |
| MatchingApi.SearchCandidats | ai-recrutement-backend/app/api/matching.py:156-219 | An unknown offer gives 404. Otherwise the route answers 500 exactly when some CV's match raises or fails validation; on success the total counts every CV and `[:top_k]` is kept, so a negative top_k drops results from the end |
| MatchingApi.EmptyRankedIsEmpty | ai-recrutement-backend/app/api/matching.py:115-120 | The early return on an empty table is what ranking nothing gives: no match and a total of 0 |
| MatchingApi.SearchOffresFromOpenOffres | ai-recrutement-backend/app/api/matching.py:113-135 | Every returned match is the CV's match against one of the open offers |
| MatchingApi.ResultFromOffre | ai-recrutement-backend/app/api/matching.py:123-132 | Each of the CV's matches against a list of offers is its match against one of them |
| MatchingApi.KeptFromResults | ai-recrutement-backend/app/api/matching.py:134-135 | Every kept match is one of the ranked results |
| Compat.StrField | ai-recrutement-backend/app/api/matching.py:242-244 | An absent text field reads as its default, and a present one reads back as the stored text |
| Compat.StrListField | ai-recrutement-backend/app/api/matching.py:239-242 | An absent list reads as [], and a present one reads back as the stored strings |
| Compat.IntField | ai-recrutement-backend/app/utils/scoring.py:255 | An absent number reads as 0, and an integer reads as itself |
| Compat.ReadOffre | ai-recrutement-backend/app/utils/scoring.py:245-270 | The offer the scorer sees holds, under each key, the value read with that key's default |
| Compat.SkillsOf | ai-recrutement-backend/app/api/matching.py:239-242 | A falsy value gives no skill. A string is split on "," without trimming, and a list of strings is used as it is |
| Compat.DiplomeOf | ai-recrutement-backend/app/api/matching.py:244 | An absent education is "", and a string is itself |
| Compat.CompatCv | ai-recrutement-backend/app/api/matching.py:239-245 | The CV holds the candidate's skills, one experience whose period is "N ans", one formation holding the education, and no language |
| Compat.MatchWith | ai-recrutement-backend/app/api/matching.py:254-261 | The route succeeds exactly when both records are readable and scorable and the match passes MatchingResponse validation, and returns the engine's match with explanations; any failure is a 500 |
| Compat.MatchWithWellBehaved | ai-recrutement-backend/app/api/matching.py:254-261 | With a language model whose answers always have their schema's fields, the match fails exactly when a record is unreadable or the scorer raises |
| Compat.MatchWithUnreadKeys | ai-recrutement-backend/app/api/matching.py:247-261 | Offer keys the engine never reads leave the route's answer unchanged |
| Compat.CompatOffreRead | ai-recrutement-backend/app/api/matching.py:247-253 | As written, the offer reads back as the title "Poste", the job's skills, and no requirement at all |
| Compat.CompatOffre | ai-recrutement-backend/app/api/matching.py:247-253 | As written, the offer exists exactly when the job's skills are readable, and the job's experience and education are among the keys the scorer never reads |
| Compat.MatchCompat | ai-recrutement-backend/app/api/matching.py:226-261 | The route fails, always with a 500, exactly when a listed skill is not a string, the education is not text, or the match fails MatchingResponse validation |
| Compat.MatchCompatWellBehaved | ai-recrutement-backend/app/api/matching.py:226-261 | With a language model whose answers always have their schema's fields, the route fails exactly when a listed skill is not a string or the education is not text |
| Compat.CompatExperienceYears | ai-recrutement-backend/app/api/matching.py:243 | Candidate experience N counts as abs(N) years, while 0 or an absent value falls back to 2 years |
| Compat.CompatIgnoresJobRequirements | ai-recrutement-backend/app/api/matching.py:251-252 | As written, a successful match reports no required years and no required level, and scores experience, education and languages at 100 % |
| Compat.JobRequirementsIgnored | ai-recrutement-backend/app/api/matching.py:251-252 | As written, any values of the job's experience and education give the same response |
| Compat.CompatOffreLookups | ai-recrutement-backend/app/api/matching.py:247-253 | The route's offer dict has the title "Poste", an empty description and the skills, and none of the scorer's requirement keys |
| Compat.CompatOffreIntendedRead | ai-recrutement-backend/app/api/matching.py:251-252 | Corrected, the offer reads back with the job's years and the level its education names |
| Compat.CompatIntendedHonoursRequirements | ai-recrutement-backend/app/api/matching.py:251-252 | Corrected, a success needs readable skills and education, reports the job's years and level, and scores the candidate's years against the job's |
| Compat.MatchCompatIntendedWellBehaved | ai-recrutement-backend/app/api/matching.py:251-252 | Corrected, with a language model whose answers always have their schema's fields, the route fails exactly when a listed skill is not a string or the education is not text |
| Compat.MatchWithRequirements | ai-recrutement-backend/app/api/matching.py:254-261 | A successful match reports the offer's years and level, and scores the CV's years against them |
| Compat.CompatRequirementWitness | ai-recrutement-backend/app/api/matching.py:251-252 | A candidate with 1 year against a job asking for 10 gets 100 % for experience as written, and the 20 % floor once corrected |
| Compat.WitnessAsWritten | ai-recrutement-backend/app/api/matching.py:251-252 | As written, 1 year against a job asking for 10 succeeds and scores 100 % for experience |
| Compat.WitnessIntended | ai-recrutement-backend/app/api/matching.py:251-252 | Corrected, 1 year against a job asking for 10 succeeds and scores the 20 % floor |
| TextBuilders.TextOf | ai-recrutement-backend/app/vector_store/text_builders.py:7-8 | A value is kept exactly when it is a non-blank string, and is then stripped and non-empty |
| TextBuilders.KeptItemsClean | ai-recrutement-backend/app/vector_store/text_builders.py:4-9 | Every kept item is non-empty and stripped |
| TextBuilders.KeptItemsAppend | ai-recrutement-backend/app/vector_store/text_builders.py:4-9 | Items are kept in input order, whatever the split of the list |
| TextBuilders.KeptItemsEmptyIff | ai-recrutement-backend/app/vector_store/text_builders.py:4-9 | Nothing is kept exactly when no item is a non-blank string |
| TextBuilders.JoinList | ai-recrutement-backend/app/vector_store/text_builders.py:4-9 | The joined list is empty exactly when no item is a non-blank string |
| TextBuilders.ListText | ai-recrutement-backend/app/vector_store/text_builders.py:29-33 | A labelled list is present exactly when the value is a list with a kept item, and is then the heading followed by the kept items joined by ", " |
| TextBuilders.LineOf | ai-recrutement-backend/app/vector_store/text_builders.py:46-54 | An experience line has at most four pieces, and is empty exactly when no field contributes |
| TextBuilders.LinePart | ai-recrutement-backend/app/vector_store/text_builders.py:56-57 | An experience part is present exactly when its line has a piece |
| TextBuilders.ExperienceEntry | ai-recrutement-backend/app/vector_store/text_builders.py:39-40 | An entry that is not a dict adds nothing |
| TextBuilders.ExperienceEntriesAppend | ai-recrutement-backend/app/vector_store/text_builders.py:38-57 | Experience parts keep the order of the entries |
| TextBuilders.NonDictExperienceIgnored | ai-recrutement-backend/app/vector_store/text_builders.py:39-40 | Removing an entry that is not a dict leaves the experience parts unchanged |
| TextBuilders.ExperiencesPart | ai-recrutement-backend/app/vector_store/text_builders.py:36-38 | At most 8 experience parts are produced |
| TextBuilders.ExperiencesCapped | ai-recrutement-backend/app/vector_store/text_builders.py:38 | Entries after the eighth never reach the text |
| TextBuilders.FormationOf | ai-recrutement-backend/app/vector_store/text_builders.py:65-68 | A formation line exists exactly when the degree or the school is truthy, and it starts with "Formation:" |
| TextBuilders.FormationPart | ai-recrutement-backend/app/vector_store/text_builders.py:67-68 | A formation part is absent exactly when both degree and school are falsy |
| TextBuilders.FormationEntry | ai-recrutement-backend/app/vector_store/text_builders.py:63-64 | An entry that is not a dict adds nothing |
| TextBuilders.EducationPart | ai-recrutement-backend/app/vector_store/text_builders.py:60-62 | At most 5 education parts are produced |
| TextBuilders.EducationCapped | ai-recrutement-backend/app/vector_store/text_builders.py:62 | Entries after the fifth never reach the text |
| TextBuilders.CvParts | ai-recrutement-backend/app/vector_store/text_builders.py:19-21 | A present profile is the first part |
| TextBuilders.CvHeadSections | ai-recrutement-backend/app/vector_store/text_builders.py:18-33 | "Profil: " and the profile, "Titre: " and the title, and "Compétences: " and the joined skills, in that order, each present exactly when its field is |
| TextBuilders.CvPartsSections | ai-recrutement-backend/app/vector_store/text_builders.py:18-68 | The CV's parts are the profile, title and skills lines, then the experiences' parts, then the education's parts |
| TextBuilders.LabelledSections | ai-recrutement-backend/app/vector_store/text_builders.py:18-33 | Two labelled texts and a labelled list in a row sit each at its place, each present exactly when its value is |
| TextBuilders.JoinLines | ai-recrutement-backend/app/vector_store/text_builders.py:70 | The text is the parts joined by newlines, then stripped; it is empty exactly when there is no part, and opens with the first part when that part ends in a non-space |
| TextBuilders.BuildCvText | ai-recrutement-backend/app/vector_store/text_builders.py:12-70 | The CV text is its parts one per line, stripped; it is empty exactly when no part is present, and opens with the profile when there is one |
| TextBuilders.ProfilePriority | ai-recrutement-backend/app/vector_store/text_builders.py:19 | Once "profil" holds a truthy value, "resume" no longer matters |
| TextBuilders.BuildOfferText | ai-recrutement-backend/app/vector_store/text_builders.py:73-94 | Free text is exactly its stripped self, and empty exactly when blank. A dict's text is its parts one per line, stripped, and empty exactly when it has no part |
| TextBuilders.OfferPartsSections | ai-recrutement-backend/app/vector_store/text_builders.py:80-92 | "Titre: " and the title, the description, and "Compétences requises: " and the joined skills, in that order, each present exactly when its field is |
| TextBuilders.TextSections | ai-recrutement-backend/app/vector_store/text_builders.py:85-92 | A labelled text, a bare text and a labelled list in a row sit each at its place, each present exactly when its value is |
| TextBuilders.OfferTextIgnoresRequiredSkills | ai-recrutement-backend/app/vector_store/text_builders.py:83 | The offer text never reads "competences_requises", the key the scorer takes required skills from |
| Config.Origins | ai-recrutement-backend/app/core/config.py:25 | The origins are non-empty and stripped, and there are no more of them than pieces |
| Config.CorsList | ai-recrutement-backend/app/core/config.py:24-25 | Every origin is non-empty, stripped, and free of commas |
| Config.OriginsAppend | ai-recrutement-backend/app/core/config.py:25 | The origins of two runs of pieces are those of each, in order |
| Config.CorsConcat | ai-recrutement-backend/app/core/config.py:24-25 | Joining two settings with a comma lists the first one's origins, then the second one's |
| Config.CorsSingle | ai-recrutement-backend/app/core/config.py:24-25 | A clean setting without a comma is one origin |
| Config.ThreeOrigins | ai-recrutement-backend/app/core/config.py:24-25 | Three clean origins joined by commas read back as those three, in order |
| Config.DefaultOrigins | ai-recrutement-backend/app/core/config.py:22-25 | The default setting allows exactly the three local front ends, in order |
| Candidatures.ToResponse | ai-recrutement-backend/app/api/candidatures.py:32-41 | Every stored field appears in the response under its response key |
| Candidatures.FromResponse | ai-recrutement-backend/app/api/candidatures.py:32-41 | Any response is the response of the row read back from it |
| Candidatures.ResponseRoundTrip | ai-recrutement-backend/app/api/candidatures.py:32-41 | The response loses nothing: reading it back gives the row |
| Candidatures.ExplanationText | ai-recrutement-backend/app/api/candidatures.py:83-89 | No explanations store no text. Two dict sides give the recruiter synthesis and the candidate message, each after its label, and a side that is not a dict is a 500 |
| Candidatures.FallbackTextStatesScore | ai-recrutement-backend/app/api/candidatures.py:83-89 | With the recruiter fallback, the stored text states the score |
| Candidatures.StoredExplanationStatesScore | ai-recrutement-backend/app/api/candidatures.py:78-89 | When both explanation calls fail, the stored text states the score |
| Candidatures.CreateCandidature | ai-recrutement-backend/app/api/candidatures.py:45-105 | The checks run in order: role (403), candidate profile (403), CV exists (404), CV owned (403), offer exists (404), offer open (400), first application (400); later failures are 500. A success appends one pending row carrying the request's ids and the match's score |
| Candidatures.Admit | ai-recrutement-backend/app/api/candidatures.py:75-103 | Once every check passed, the row holds the match's score and explanation text; any failure is a 500 |
| Candidatures.CreatePreservesInvariants | ai-recrutement-backend/app/api/candidatures.py:68-103 | A successful creation keeps one application per (candidate, offer) and unique ids |
| Candidatures.NoSecondApplication | ai-recrutement-backend/app/api/candidatures.py:68-73 | Applying twice to the same offer fails the second time with 400 |
| Candidatures.UpdateStatut | ai-recrutement-backend/app/api/candidatures.py:163-198 | A non-recruiter gets 403. A status outside the four allowed gives 400 before any lookup, an unknown application 404, and another recruiter's offer 403. Any allowed status may follow any other |
| Candidatures.UpdateKeepsAllButStatut | ai-recrutement-backend/app/api/candidatures.py:194 | A status update changes only that application's status; every other field of every application stays |
| Candidatures.UpdateIdempotent | ai-recrutement-backend/app/api/candidatures.py:194 | Setting the same status twice leaves the store as the first time |
| Candidatures.UpdatePreservesInvariants | ai-recrutement-backend/app/api/candidatures.py:163-198 | A status update keeps one application per (candidate, offer) and unique ids |
| Candidatures.NewestFirst | ai-recrutement-backend/app/api/candidatures.py:132 | The listing is a permutation of the rows, ordered by non-increasing date |
| Candidatures.ListCandidatures | ai-recrutement-backend/app/api/candidatures.py:109-134 | A candidate sees their own applications, newest first, or gets 403 without a profile. A recruiter gets 403 without a profile, 400 without offre_id, and 403 for an offer not their own |
| Candidatures.CandidatListsOwn | ai-recrutement-backend/app/api/candidatures.py:116-120 | A candidate's listing holds exactly their own applications |
| Candidatures.GetCandidature | ai-recrutement-backend/app/api/candidatures.py:138-159 | An unknown id gives 404. A found application is returned exactly to its candidate and to the recruiter of its offer, and anyone else gets 403 |
| Auth.RoleOf | ai-recrutement-backend/app/models/user.py:9-11 | Only "candidat" and "recruteur" are roles, each reading back as its stored value |
| Auth.RoleRoundTrip | ai-recrutement-backend/app/models/user.py:9-11 | Every role reads back from its stored value |
| Auth.OrElse | ai-recrutement-backend/app/services/auth_service.py:44 | `a or b` is a when it is a non-empty string, and b otherwise |
| Auth.LocalPart | ai-recrutement-backend/app/services/auth_service.py:44 | `email.split("@")[0]` is the text before the first '@' |
| Auth.CandidatName | ai-recrutement-backend/app/services/auth_service.py:44 | The name is the prefix of the stripped first truthy of name, local part and "Candidat" that is 255 characters long, or all of it when shorter; it starts with no whitespace |
| Auth.EntrepriseName | ai-recrutement-backend/app/services/auth_service.py:48 | The company is the prefix of the stripped name or "Mon entreprise" that is 255 characters long, or all of it when shorter; it starts with no whitespace |
| Auth.NameFromEmail | ai-recrutement-backend/app/services/auth_service.py:44 | Without a name, a candidate is named after a short, clean local part of the email |
| Auth.NameDefault | ai-recrutement-backend/app/services/auth_service.py:44 | With no name and nothing before the '@', the candidate is named "Candidat" |
| Auth.BlankNameGivesEmpty | ai-recrutement-backend/app/services/auth_service.py:44-48 | A whitespace-only name is kept as given and strips to an empty stored name |
| Auth.CreateUser | ai-recrutement-backend/app/services/auth_service.py:27-54 | A registered email fails first, then an unknown role. A colliding id is an integrity error. A success adds one active user with the role and the hashed password, plus exactly one profile of that role with the derived name |
| Auth.CreateKeepsEmailsUnique | ai-recrutement-backend/app/services/auth_service.py:28-30 | Registration keeps emails unique |
| Auth.NoSecondRegistration | ai-recrutement-backend/app/services/auth_service.py:28-30 | Registering the same email twice fails the second time |
| Auth.CreateKeepsProfilesLinked | ai-recrutement-backend/app/models/candidat.py:13 | Registration keeps every profile linked to an existing user, no two profiles of one table on the same user, and no user with both a candidate and a recruiter profile |
| Auth.LinkedAfterRegistration | ai-recrutement-backend/app/services/auth_service.py:33-53 | A new user with exactly one profile of their own keeps the profiles linked |
| Auth.CandidatRegistered | ai-recrutement-backend/app/services/auth_service.py:43-46 | A new user and one candidate profile of theirs keep the profiles linked |
| Auth.RecruteurRegistered | ai-recrutement-backend/app/services/auth_service.py:47-50 | A new user and one recruiter profile of theirs keep the profiles linked |
| Auth.LinkedAfterAdd | ai-recrutement-backend/app/models/candidat.py:13 | Appending a user and profiles of that user leaves every profile with an existing user |
| Auth.DistinctAfterAdd | ai-recrutement-backend/app/models/recruteur.py:12 | Adding a fresh user and one profile of that user keeps the profiles' users distinct, within and across the two tables |
| Auth.CandidatGetsOneProfile | ai-recrutement-backend/app/services/auth_service.py:43-46 | A new candidate has exactly one profile, a candidate one, found by the profile lookup |
| Auth.RecruteurGetsOneProfile | ai-recrutement-backend/app/services/auth_service.py:47-50 | A new recruiter has exactly one profile, a recruiter one, found by the profile lookup |
| Auth.AuthenticateUser | ai-recrutement-backend/app/services/auth_service.py:57-63 | Login fails exactly for an unknown email or a rejected password, and otherwise returns that email's user |
| Auth.RegisterThenLogin | ai-recrutement-backend/app/services/auth_service.py:27-63 | A user who just registered logs in with the same password, given a checker that accepts a password against its own hash |

## Left out

- Floating point: sub-scores are exact reals. `round(x, 2)` is round-half-up to hundredths, not Python's rounding of binary doubles, so values that Python's binary representation rounds the other way are not modelled.
- Scoring.ExperienceScore: compares the years with 0.7 and 0.5 of the requirement exactly. In Python, `10 * 0.7` is 7.000000000000001, so 7 years against 10 scores 0.5 there and 0.8 here.
- Regular expressions: `\b(20\d{2})\b` and `(\d+)\s*an` are hand-written scanners. Word characters cover ASCII and Latin-1 only, not all of Unicode. Digits are '0' to '9' only: Python's `\d` also matches other Unicode decimal digits, such as the full-width '３', and `int()` reads them, so "３ ans" counts 3 years there and nothing here. Whitespace is Python's full set.
- Embeddings and cosine similarity (`ai/embeddings.py`, `ai/moteur_matching.py:23-50`) are a parameter. Their failures are not modelled, and neither are numpy and sqrt.
- Language-model calls (`ai/agent_explication.py:45-237`) are a parameter that returns the model's answer or nothing (when it raises). The prompt wording, the chains and the Groq client are not modelled.
- The CV and offer extraction (`ai/analyse_cv.py`, `ai/analyse_offre.py`), PDF reading and file storage are external calls and input/output.
- The Chroma vector store (`vector_store/indexing.py`, `vector_store/chroma_client.py`) is a third-party client.
- JWT, bcrypt and `get_current_user` (`core/security.py`, `core/dependencies.py`) are left out. The caller is a parameter of each route, hashing and checking are parameters, and a missing or bad token (401) is not modelled.
- `uuid4()` ids and `now()` timestamps are parameters.
- The order of two applications with the same date is kept as inserted. SQL leaves it unspecified.
- The text of a 500 error is left out: only the status is modelled.
- The `hasattr` branch of the explanation text (`api/candidatures.py:90-91`) cannot be reached, because explanations are always a dict.
- `Numeric(5, 2)` overflow of the stored score, `float()` in the response, and the ISO date rendering are database and serialisation details.
- Concurrency: the duplicate-application check reads and then inserts without a constraint, which is a race. The model is sequential.
- The `/test` endpoint of `api/matching.py` is a diagnostic.
- Compat.ReadOffre: an offer whose title is not a string is refused here. Python would only stringify it inside the prompt.
- Json.FirstTruthy: returns the default where Python's `or` chain returns its last falsy value. Every caller tests only the result's truthiness or type.
- Json.Repr: strings are printed without escaping quotes and backslashes.
- Strings.LowerChar: `str.lower()` is modelled on ASCII and Latin-1 letters only. This governs Scoring.Normalize (skill and language keys), Scoring.DegreeLevel (degree keywords) and the "an" of the period scanner. Python folds every cased letter, so the skills "Łódź" and "łódź" share a key there and not here.
- Scoring.OffreJson: holds required languages as strings and missions as one text. The offer extraction allows a language to be a dict (`ai/analyse_offre.py:36`); a stored offer with one makes the text join (`ai/moteur_matching.py:134`) and `l.split()` (`utils/scoring.py:204`) raise, so every route answers 500 for it. It also allows missions as a list (`ai/analyse_offre.py:37`), which `ai/moteur_matching.py:129` prints as a Python list. Neither shape is modelled.
  The two requirements are held as integers, but the extraction parser does not enforce the schema's `int` types (`ai/analyse_offre.py:34-35,105`), so a stored offer may hold other values:
  - A null or text `experience_requise_ans` is not equal to 0 (`utils/scoring.py:257`), so the comparison at `utils/scoring.py:259` raises. Every route then answers 500 (`api/matching.py:79,145,215`).
  - A null or text `niveau_etudes_requis` raises the same way at `utils/scoring.py:170`.
  - A float requirement is compared as a float and can land in a different band than any integer gives. For example, `niveau_etudes_requis` 2.5 against a level-2 CV scores 0.2 (`utils/scoring.py:170-176`).
  Entries of `competences_requises`, or of the CV's skills and languages, are held as strings. A stored entry of another type makes `.lower()` (`utils/scoring.py:77`) or `.split()` (`utils/scoring.py:203-204`) raise, which is a 500 on every route.
- Compat.CompatExperienceYears: payload numbers are integers only; floats are not part of the Json model. A float experience such as 2.5 gives the period "2.5 ans", which the "N an" rule reads as 5 years.
- Explanations.RecruiterShaped: a text field must hold a JSON string, as in Pydantic 2. Pydantic 1 would also accept a number there and turn it into text.
- MatchingApi.SearchOffres: the 422 for `top_k` outside 1..20 comes from the request schema (`schemas/matching.py:117`), before the route runs. Its detail text is not modelled.
- Compat.MatchCompatIntended: its own contract states only that failures are 500. The full corrected behaviour is stated by Compat.CompatIntendedHonoursRequirements.
- Compat.CompatOffreIntended: its own contract states only that a readable offer needs readable skills. Its contents are stated by Compat.CompatOffreIntendedRead.
- CRUD routes for offers, CVs and candidates, the dashboard, notifications, logging, `main.py`, the broken `services/matching_service.py`, the test drivers and the frontend are outside the matching and application core.

## Findings

| source | as written | input that shows it | evidently intended | confidence | as-written member | corrected member |
|---|---|---|---|---|---|---|
| ai-recrutement-backend/app/api/matching.py:251-252 | `/match` stores the job's experience under "experience_requise" and its education under "niveau_etude". The scorer reads "experience_requise_ans" and "niveau_etudes_requis" (`utils/scoring.py:255,270`), so the job's requirements are ignored and those sub-scores are always 100 % | candidate `{"experience": 1}`, job `{"experience": 10}`: the experience criterion scores 100 % | the job's years and education level are scored, so 1 year against 10 scores the 20 % floor | high, not executed | Compat.CompatRequirementWitness | Compat.CompatIntendedHonoursRequirements |
