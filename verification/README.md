# MangaVega tracker — a verified model of its core

MangaVega tracker watches Amazon Japan for new volumes of the manga and light-novel series it follows. A run goes through the tracked series in priority order. For each series, `rechercher_manga` does three things:

- **Phase A** gathers candidate ASINs: the volumes already known, a reference ASIN, extra URLs, the related-volume ("bulk") sections of a product page, and the search-result pages.
- **Phase B** verifies each candidate against its product page, its cached verification or its search snippet. A volume dated after the threshold and not alerted yet is reported as a new release. The cache and snippet paths check the alert flag; the product-page path does not, and the model uses the corrected verdict there (see Findings).
- **Phase C** searches result pages 2 to 4 again for the tomes still missing.

All of this is recorded in a SQLite store. The list of tracked series, manual statuses, tome corrections and official publishers are reconciled with a Gist edited by a web viewer. At the end, the volumes found are exported with their manual status.

This project restates that behaviour in Dafny and proves what the code promises about it. It has one module per part of the program:

| module | file | models |
|---|---|---|
| `Wrappers` | wrappers.dfy | `Option`, for Python's `None` |
| `Text` | text.dfy | Python string semantics used throughout: digits (ASCII and full-width only, see Left out), `\s`, `in`, `strip`, `replace`, `lower`, `int`, `str`, leftmost `re.search` |
| `Normaliser` | normaliser.dfy | utils.py: type suffixes, paper formats, publisher normalisation/matching/romaji, ASINs, URLs, e-book detection |
| `Titre` | titre.dfy | utils.py `normaliser_titre` |
| `Tome` | tome.dfy | utils.py `extraire_numero_tome` (the 14-rule cascade) and `analyser_tomes_manquants` |
| `Scraper` | scraper.dfy | scraper.py: the fetch retry loop, related-volume selection and flattening, product-page verdicts, snippet dates |
| `Store` | store.dfy | database.py: `DatabaseManager` with one map per table |
| `Pipeline` | pipeline.dfy | pipeline.py: the decisions of `rechercher_manga` as functions, and the start of `rechercher_volumes_via_bulk_etendu` |
| `Suites` | suites.dfy | small sequence and set facts the proofs share |
| `Recherche` | recherche.dfy | pipeline.py `rechercher_manga` as a class whose fields are the run's working state (phases A, B and C) |
| `Sync` | sync.dfy | sync.py: `charger_series_config` (Gist part), `charger_corrections`, `charger_mangas_liste`, `sauvegarder_mangas_liste` |
| `App` | app.dfy | app.py: series priority and sort, first pass and retry of failed series, export tagging and counts |

The program works in two styles, and the model keeps both:

- **State-changing code stays imperative.** This covers the store, one run of `rechercher_manga`, the series-list reconciliation and the main loop. It becomes classes and methods with `modifies` clauses and loop invariants. Each method is proved against specification functions whose own properties are proved as lemmas.
- **String-level helpers stay pure.** They become functions with named results and lemmas.

Everything outside the program is an input. Network fetches, HTML selectors, the clock and date parsing are parameters or oracle functions:

- `Web` in `Recherche`;
- the response sequence of `Scraper.GetHtml`;
- `scan` in `App`.

## Model

| member | source | states |
|---|---|---|
| Text.Lower | utils.py:200 | lower-casing keeps the length, leaves no ASCII capital, turns each capital into its own small letter and keeps every other character |
| Text.LowerIdempotent | utils.py:200 | lower-casing a lower-cased name changes nothing |
| Text.Remove | utils.py:194-197 | no character of the dropped set survives the chain of `replace(c, '')` |
| Text.RemoveGarde | utils.py:194-197 | every character outside the dropped set is kept as many times as it occurs |
| Text.RemoveConcat | utils.py:194-197 | removing from two joined pieces is removing from each, so the kept characters stay in their order |
| Text.FindFirst | utils.py:362 | a regular-expression search reports the leftmost index where the pattern matches, and no match at all only when no index matches |
| Text.ParseIntOfIntToString | utils.py:619-620 | a tome number written out as digits reads back as the same number |
| Normaliser.StripTypeSuffix | utils.py:13-20 | a name ending with ` [LN]` loses exactly that suffix, otherwise one ending with ` [MANGA]` loses exactly that one, and any other name is kept; the display name is always a prefix of the name |
| Normaliser.EstFormatPapierWithin | utils.py:23-41 | a format string counts as paper as soon as any part of it names a paper format |
| Normaliser.NettoyerEditeurIdempotent | utils.py:193-200 | removing the separators and lower-casing a publisher name a second time changes nothing |
| Normaliser.ParentDeTrouve | utils.py:202-203 | the table lookup finds a value only for a key that some entry holds, and gives that entry's value; it finds nothing only when no entry holds the key |
| Normaliser.NormaliserEditeurAvecIdempotent | utils.py:193-206 | with a label table whose labels all resolve to parents, and whose parents are lower-case words that the table maps to themselves, normalising a normalised publisher changes nothing |
| Normaliser.LabelsFermee | utils.py:69-191 | the tracker's own label table is such a table: each of its 88 labels resolves to one of its 25 parents, and every parent is a lower-case ASCII word |
| Normaliser.ShonenMagazineKodansha | utils.py:71 | the table sends the label `shonenmagazine` to `kodansha` |
| Normaliser.NormaliserEditeurIdempotent | utils.py:53-206 | with the tracker's own label table, normalising a normalised publisher changes nothing |
| Normaliser.NormaliserEditeurMemeParent | utils.py:193-206 | two non-empty names whose cleaned forms the table resolves to the same parent both normalise to that parent, which is one of the table's parents |
| Normaliser.EditeurMatchSymmetric | utils.py:209-220 | publisher agreement does not depend on which side is the volume and which the publisher of record |
| Normaliser.EditeurMatchReflexive | utils.py:209-220 | a publisher always agrees with itself |
| Normaliser.EditeurMatchSameParent | utils.py:209-220 | two non-empty names whose cleaned forms the table resolves to the same parent always agree |
| Normaliser.EditeurMatchIgnoresSpelling | utils.py:209-220 | spaces, separators and ASCII case of a non-empty name never change the verdict |
| Normaliser.EntreeExacte | utils.py:303-304 | the exact lookup finds the first table entry whose Japanese name is the whole input, or reports that none is |
| Normaliser.PlusLongueCle | utils.py:307-309 | the partial lookup picks an entry contained in the name, no other contained entry is longer, and among equally long ones the first in table order wins (the sort is stable) |
| Normaliser.ConvertirEditeurRomaji | utils.py:223-316 | empty gives empty; an exact entry gives its romaji; a name containing no entry is returned as is; otherwise the result is the romaji of a contained entry with the longest key, the first such in table order |
| Normaliser.GroupsExacts | utils.py:329-333 | `re.findall` of a bracketed group: the groups found are, left to right, exactly the texts between an opening and the next closing bracket with no bracket in between and at least one character, and no such pair is missed |
| Normaliser.GroupsSains | utils.py:329-333 | every group found is non-empty, holds no bracket, and stands between brackets in the title |
| Normaliser.GroupsSuivi | utils.py:329-333 | a title followed by one more bracketed group yields its own groups, then that group |
| Normaliser.DernierTel | utils.py:340-355 | the backwards scan returns a group that passes the filter, and nothing only when no group passes it |
| Normaliser.ExtraireEditeur | utils.py:319-357 | an empty title gives nothing; the groups searched are the half-width ones, or the full-width ones when there is no half-width group; the result is nothing exactly when every group is a volume indicator, and otherwise the last group that is not |
| Normaliser.ExtraireEditeurDernierGroupe | utils.py:319-357 | a title followed by a bracketed publisher name gives back that name |
| Normaliser.ExtraireEditeurIgnoreIndicateur | utils.py:319-357 | appending a volume-indicator group to a title that has half-width groups does not change the publisher found |
| Normaliser.ExtraireAsin | utils.py:360-363 | the result is `?` exactly when no `/dp/` followed by ten letters or digits occurs, and otherwise the ten characters after the leftmost such `/dp/` |
| Normaliser.NormaliserUrl | utils.py:448-453 | a URL with no `/dp/` followed by ten upper-case letters or digits is kept; otherwise the result is the canonical product URL of the ASIN after the leftmost such `/dp/` |
| Normaliser.NormaliserUrlIdempotent | utils.py:448-453 | normalising a normalised URL changes nothing |
| Normaliser.NormaliserUrlCanonique | utils.py:448-453 | a canonical product URL is its own normal form |
| Normaliser.ExtraireAsinOfCanonicalUrl | utils.py:360-363 | the ASIN read from the canonical URL of an ASIN is that ASIN |
| Normaliser.AsinDp | utils.py:450 | the upper-case `/dp/` search finds nothing exactly when no index matches, and otherwise the ten upper-case letters or digits after the leftmost match |
| Normaliser.AsinDpOfCanonicalUrl | utils.py:450 | the ASIN of a canonical product URL is read back unchanged |
| Normaliser.EstAsinPapierByFirstChar | utils.py:366-383 | an ASIN is a paper book exactly when it is non-empty and starts with a digit (`?` never is) |
| Normaliser.EstEbookEntoure | utils.py:386-391 | an e-book result stays one whatever text surrounds its URL or its title: each test looks for a marker anywhere |
| Titre.FoldChar | utils.py:405-428 | each character is either kept or mapped to ASCII, and ASCII is never changed |
| Titre.FoldCharIdempotent | utils.py:405-428 | folding a folded character changes nothing |
| Titre.FoldCharExamples | utils.py:417-428 | full-width letters and digits, Greek capitals, wave dashes and full-width punctuation fold to ASCII, and the long-vowel mark ー is kept |
| Titre.Fold | utils.py:405-428 | the folded text has the same length, has nothing left to fold, keeps every ASCII character, and any character it changes becomes ASCII |
| Titre.FoldCharPleineChasse | utils.py:406 | every full-width ASCII form (U+FF01 to U+FF5E) folds to its ASCII character, 0xFEE0 below |
| Titre.Words | utils.py:443 | `split()` gives non-empty words without white space, made of characters of the text |
| Titre.WordsOfJoin | utils.py:443 | splitting words joined by single spaces gives back the same words |
| Titre.EquivalentsLeaveNone | utils.py:430-440 | after the hiragana-to-kanji replacements no listed hiragana word is left |
| Titre.NormaliserTitre | utils.py:398-445 | the normalised title has no leading or trailing white space and only single ASCII spaces between words |
| Titre.NormaliserTitreIsJoin | utils.py:398-445 | the normalised title is the folded, equivalence-replaced text split into words and joined by single spaces |
| Titre.NormaliserTitreFolded | utils.py:398-445 | the normalised title has nothing left to fold |
| Titre.NormaliserTitreIdempotent | utils.py:398-445 | with the model's partial NFKC, normalising a normalised title changes nothing |
| Tome.ShortRunValue | utils.py:543 | a greedy one- or two-digit run reads a number of at most 99 |
| Tome.Complete | utils.py:543-545 | the `N（完）` rule reads a tome of at most 99 |
| Tome.Dash | utils.py:575-577 | the dash rule reads a tome of at most 99 |
| Tome.JpGlue | utils.py:580-582 | the rule for a number glued to a Japanese character reads a tome of at most 99 |
| Tome.Trailing | utils.py:590-592 | the rule for a number ending the title reads a tome of at most 99 |
| Tome.FirstNumeral | utils.py:553-560 | the Roman and kanji numeral rules return the number of the first table entry found as a word in the title (no earlier entry is), and nothing only when no entry is |
| Tome.Special | utils.py:562-565 | the 上/下/前/後/完結 table: nothing exactly when no marker is present; the final volume exactly when 完結編 is present and no half marker is; a first-half marker alone gives 1, a second-half marker alone gives 2, either gives 1 or 2, and a bracketed 上 always gives 1 |
| Tome.JpSpaced | utils.py:585-587 | a number read between two Japanese characters is accepted only up to 50 |
| Tome.LastResortAsWritten | utils.py:596-599 | the last-resort rule as written: it fires only on titles longer than ten characters and returns at most 50 |
| Tome.LastResort | utils.py:596-599 | the last-resort rule with the search starting at index 10 of the title: same bounds |
| Tome.LastResortReadsWholeNumbers | utils.py:596-599 | the corrected last resort ignores large numbers: the digits it reads start at index 10 or later and lie in no run of ASCII digits that begins before index 10, nor in a run of three digits or more |
| Tome.LastResortSplitsCode | utils.py:596-599 | on `ABCDEFGH9004` the rule as written returns 4, read from inside 9004, while the corrected rule returns nothing |
| Tome.FirstSome | utils.py:491-602 | the cascade returns the verdict of the first rule that fires, after rules that all failed, and nothing when none fires |
| Tome.ExtraireNumeroTome | utils.py:491-602 | an empty title has no tome; the end-of-series marker is returned only for a title containing 完結編 |
| Tome.FormalFirst | utils.py:527-529 | whenever the formal `第N巻` rule yields N, the title reads as tome N, before every later rule |
| Tome.FormalMarkerWins | utils.py:527-529 | a title holding 第, digits and 巻 side by side, with no earlier 第, reads as the tome those digits give, whatever follows |
| Tome.MaxOf | utils.py:631 | the loop returns a member of the set that no member exceeds |
| Tome.AnalyserTomesManquants | utils.py:604-641 | the tomes found are the numeric tomes of the volumes (a positive integer, or a non-empty digit string, so the text "0" counts as tome 0); the maximum is 0 for none and otherwise the largest found; a tome is missing exactly when it lies in 1..max and was not found; the series is complete exactly when nothing in 1..max is missing |
| Scraper.GetHtml | scraper.py:35-83 | at most `max_retries` + 1 attempts; every attempt before the last was one to retry; a page returned is what the last attempt gave; the loop stops early without a page only on a 404 |
| Scraper.ResultatPage | scraper.py:63-74 | a page returned is the body of a 200 response over 500 characters that, if under 5000 characters, shows no bot check |
| Scraper.Resultat404 | scraper.py:78-80 | a 404 on the first attempt ends the fetch without a page |
| Scraper.MotifPageInvalide | scraper.py:557-567 | a page judged too short is under 5000 characters, one whose title is judged missing is not |
| Scraper.PageRendueCourte | scraper.py:557-567 | a fetched page under 5000 characters with no product title is always judged too short, never a captcha or a rate limit |
| Scraper.Lot | scraper.py:575-589 | a title is read as a set exactly when it announces one |
| Scraper.LotPlageLue | scraper.py:579-582 | a set titled `<prefix>N-M巻セット` with no digit in the prefix is read as the range N to M |
| Scraper.ExtraireInfosProduit | scraper.py:545-678 | an empty page gives nothing; the page is marked invalid exactly when its title is empty, with the motif its HTML shows; the set verdict is `Lot` of the title (a range N-M, a total 全N, or neither); the tome is the cascade's reading of a title that is not a set, and none for a set |
| Scraper.Nouveaux | scraper.py:536-541 | keeping the first occurrence of each URL gives a list without repeats |
| Scraper.NouveauxMembres | scraper.py:536-541 | the kept URLs are exactly those of the input not seen before |
| Scraper.VolumesFlat | scraper.py:527-543 | the flat list is the product URLs of the bulk, publisher and frequently-bought ASINs, in that order, each URL at its first occurrence |
| Scraper.VolumesFlatContents | scraper.py:527-543 | a URL is in the flat list exactly when it is the product URL of one of the ASINs |
| Scraper.VolumesFlatBulkFirst | scraper.py:533-534 | the bulk volumes lead the flat list, in their own order |
| Scraper.VolumesFlatSansPerte | scraper.py:536-541 | distinct ASINs lose nothing in the flattening |
| Scraper.PremierNonVide | scraper.py:399-404 | the fallback selectors of a section give ASINs not seen before, without repeats |
| Scraper.CollecterSection | scraper.py:367-437 | one section's ASINs are the new links of the first selector that yields any, and all of them are added to the ASINs already found |
| Scraper.SectionsDe | scraper.py:360-517 | the sections never hold the source ASIN nor any ASIN twice; a non-empty bulk section leaves the others empty; a section not asked for stays empty |
| Scraper.ExtraireVolumesDepuisPage | scraper.py:312-525 | the related volumes are read from the product page of the ASIN of the URL, and are empty when the URL has no ASIN or the fetch fails |
| Scraper.Pad2 | scraper.py:747-749 | zero-padding a number under 100 gives two ASCII digits that read back as it |
| Scraper.FormerDate | scraper.py:747-749 | the rewritten date is YYYY/MM/DD with the year kept and the month and day read back as the numbers given |
| Scraper.DateSnippet | scraper.py:725-727 | a snippet gives a date exactly when the date pattern matches somewhere in it, and the date is in padded form |
| Scraper.DateSnippetOfPadded | scraper.py:744-749 | a date already in padded form is read back as itself |
| Scraper.DateSnippetIdempotent | scraper.py:744-749 | rewriting a rewritten date changes nothing |
| Scraper.DateFeatured | scraper.py:721-742 | the date of the first text holding one, spans before rows, in padded form; there is none exactly when no span and no row holds one |
| Scraper.FormatTexte | scraper.py:727-729 | the paper format of a text is the leftmost of コミック, 文庫, 単行本, 新書, 大型本 and ムック in it, the earlier one in that list when two start at the same place; there is none exactly when none occurs |
| Scraper.FormatEnTete | scraper.py:727-729 | a text that starts with one of the formats has that format |
| Scraper.FormatFeatured | scraper.py:720-731 | the format of a search result is read from the first span holding a date and from nothing else; there is none when no span holds a date |
| Scraper.ExtraireInfosFeatured | scraper.py:702-751 | a search result keeps its title, reads its tome with the tome cascade, has a publisher exactly when one is found between brackets (in romaji), takes the date `DateFeatured` reads from its spans and rows, and the format `FormatFeatured` reads from its first dated span; a format comes only with a date |
| Store.AvecAlerte | database.py:162-166 | after an insert-or-ignore the pair is recorded, every other alert and any date already recorded for the pair are kept, and a new pair gets the given date |
| Store.VolumeSauvegarde | database.py:483-501 | a new row takes every value given; an existing row takes the new French title and publisher when they are non-empty and otherwise keeps its own, so a non-empty one is never lost; series, tome, URL, release date and title always take the new values |
| Store.AvecVolume | database.py:471-509 | saving a volume inserts or updates the ASIN's row with the new tome, URL and release date and touches no other row |
| Store.VolumeSauvegardeIdempotent | database.py:471-509 | saving the same volume twice leaves the row saving it once leaves |
| Store.IndexEtape | database.py:853 | the index of a workflow step is its position in the step list, and there is none (a `ValueError`) only for a name outside it |
| Store.Rang | database.py:759-767 | pending steps sort by their position in the step list, plus one, and unknown steps sort last with 99 |
| Store.Base | database.py:838-843 | series and tome of an ASIN are found exactly when its first step exists |
| Store.BaseOfAnyRow | database.py:838-843 | in a coherent table the series and tome found agree with those of every row of the ASIN, so `LIMIT 1` picks no particular row |
| Store.WorkflowCree | database.py:738-749 | the first step is present afterwards; an existing first step is left as it is, otherwise a pending one is added dated today with no reminders |
| Store.WorkflowCreeCoherent | database.py:738-749 | creating a workflow keeps the table coherent (rows of one ASIN agree on series and tome, and every ASIN with a row has its first step) |
| Store.MarqueFaite | database.py:829-846 | marking a step done only adds or changes that step's row |
| Store.Suivante | database.py:852-876 | creating the next step never changes an existing row |
| Store.MarqueFaiteCoherent | database.py:829-846 | marking a step done keeps the table coherent and the ASIN's series and tome |
| Store.SuivanteCoherent | database.py:852-876 | creating the next step keeps the table coherent |
| Store.EtapeFaiteCoherent | database.py:817-878 | marking a step done keeps the workflow table coherent |
| Store.EtapeFaiteAvance | database.py:817-878 | for an ASIN with a workflow, the step marked is done on that date afterwards, and when the step was new and is not the last one its successor exists |
| Store.FactureSansSuite | database.py:854 | marking `facture` done creates no row but its own |
| Store.EtapeFaiteKeepsOthers | database.py:817-878 | every other row of the table is left exactly as it was |
| Store.EtapeFaiteIdempotent | database.py:827-829 | marking the same step done again with the same date changes nothing |
| Store.PlusHautTome | database.py:1049-1054 | `ORDER BY tome DESC LIMIT 1`: nothing exactly when there is no candidate, otherwise a candidate whose tome sorts first, NULL last |
| Store.PremiereEtape | database.py:759-768 | the smallest-rank pending step: nothing exactly when no step is pending, otherwise a pending step of least rank |
| Store.AsinsDe | database.py:1166-1186 | an ASIN belongs to a series exactly when a volume of the series has it or it is a non-empty ASIN of the series' search history |
| Store.AsinsDeApresPurge | database.py:1188-1215 | after the purge of a series it has no ASIN left and every other series has the ASINs and the known volumes it had |
| Store.DatabaseManager.constructor | database.py:37-135 | a new store has every table empty |
| Store.DatabaseManager.GetAlertesExistantes | database.py:155-160 | the URLs returned are exactly those alerted for the series |
| Store.DatabaseManager.GetAlerteDate | database.py:168-174 | a date is returned exactly when the pair was alerted, and it is the recorded one |
| Store.DatabaseManager.MarquerCommeAlerte | database.py:162-166 | the alerts table becomes the insert-or-ignore of the pair |
| Store.DatabaseManager.UpdateAlerteDate | database.py:176-181 | the date of an alerted pair is replaced; updating a pair never alerted changes nothing |
| Store.DatabaseManager.SauvegarderFeatured | database.py:283-299 | the (series, ASIN) entry is inserted or replaced, and the history of every other series is kept |
| Store.DatabaseManager.GetFeaturedHistoryAsins | database.py:261-281 | the ASINs returned are exactly those recorded for the series, whatever the filter |
| Store.DatabaseManager.GetFeaturedProgression | database.py:315-330 | a series never explored is at page 0, not complete; otherwise its recorded progression |
| Store.DatabaseManager.SetFeaturedProgression | database.py:332-343 | the series' progression is set, and reading it back gives what was set |
| Store.DatabaseManager.EstVerifieAujourdhui | database.py:373-402 | a cached entry is returned exactly when the ASIN is cached with a tome other than `N/A` |
| Store.DatabaseManager.GetVerificationCache | database.py:404-426 | a cached entry is returned exactly when the ASIN is cached, `N/A` tome included |
| Store.DatabaseManager.CacheReadsAgree | database.py:373-426 | the two cache reads agree whenever the strict one answers, and differ only on an `N/A` tome |
| Store.DatabaseManager.SauvegarderVerification | database.py:428-438 | the ASIN's cache entry is inserted or replaced |
| Store.DatabaseManager.SauvegarderVolume | database.py:471-509 | the volumes table becomes the table with the ASIN's row saved |
| Store.DatabaseManager.GetVolumesConnus | database.py:245-255 | the known volumes are exactly the series' ASINs, each with its URL; there are none exactly when no volume row names the series |
| Store.DatabaseManager.UpdateTomeVolume | database.py:1089-1107 | the tome of an existing volume and of an existing cache entry is replaced (as text in the cache), nothing else changes, and a cached entry then reads back that tome and counts as verified |
| Store.DatabaseManager.SetStatutManuel | database.py:1007-1016 | the ASIN's manual status is inserted or replaced |
| Store.DatabaseManager.GetAsinsRejetes | database.py:1018-1024 | the rejected ASINs are exactly those whose status is `rejete` |
| Store.DatabaseManager.GetAsinsValides | database.py:1026-1032 | the validated ASINs are exactly those whose status is `valide` |
| Store.DatabaseManager.ValidesRejetesDisjoint | database.py:1007-1032 | one status per ASIN: no ASIN is both validated and rejected |
| Store.DatabaseManager.GetAsinReference | database.py:1034-1059 | nothing exactly when the series has no validated volume; otherwise a validated volume of the series with the highest tome (NULL last) |
| Store.DatabaseManager.GetEditeurOfficiel | database.py:603-609 | a publisher of record is returned exactly when one is stored for the series |
| Store.DatabaseManager.SetEditeurOfficiel | database.py:611-627 | the series' publisher of record is replaced by the normalised name with the count given |
| Store.PlusFrequent | database.py:644-661 | `GROUP BY editeur ORDER BY nb DESC LIMIT 1` over a non-empty group: the publisher returned is a candidate and no other candidate has more counted volumes |
| Store.DatabaseManager.GetEditeurMajoritaire | database.py:629-667 | nothing exactly when no counted volume has a publisher; otherwise the normalised name of a publisher no other counted publisher outnumbers |
| Store.DatabaseManager.DetecterEtSauvegarderEditeurOfficiel | database.py:669-720 | the validated majority, when there is one, is returned and stored if it differs from the stored value; otherwise a stored value is returned unchanged; otherwise the majority of all volumes is stored and returned, or nothing when there is none |
| Store.DatabaseManager.GetAsinsSerie | database.py:1166-1186 | the series' ASINs are those of its volumes and of its non-empty search-history entries |
| Store.DatabaseManager.PurgerSerie | database.py:1188-1215 | the six per-series tables lose exactly the rows of the series, the series has no ASIN and no alert left, its progression reads as unexplored, and every other series keeps its ASINs |
| Store.DatabaseManager.CreerWorkflowVolume | database.py:738-749 | the workflow table becomes the table with the first step created, and stays coherent |
| Store.DatabaseManager.MarquerEtapeFaite | database.py:817-878 | the workflow table becomes the table with the step marked done, and stays coherent |
| Store.DatabaseManager.GetEtapeCouranteWorkflow | database.py:751-792 | nothing exactly when no step of the ASIN is pending; otherwise a pending step of the ASIN that no other pending step precedes |
| Pipeline.RechercheExacte | pipeline.py:534-537 | the series key is searched as such exactly when it has at most ten characters and is not a generic title; otherwise it is searched between double quotes |
| Pipeline.TitreCle | pipeline.py:539 | the title key is the normalised first eight characters of the series key (all of it when shorter), and is already in normal form for the model's partial NFKC |
| Pipeline.PagesAScanner | pipeline.py:545-553 | page 1 is always scanned first and alone when the exploration is complete; otherwise at most three consecutive pages follow, all after the last page processed and never page 1 again |
| Pipeline.Classer | pipeline.py:623-712 | an item is a paper volume exactly when no test of the cascade rejects it, and it takes the class of the first test that rejects it (manual exclusion, title key, derived product, sponsored, e-book, set, non-paper ASIN) |
| Pipeline.ClasserPapier | pipeline.py:700-712 | only a paper volume is recorded as `papier`, and such an item has a paper ASIN, is not excluded, not an e-book, not a set, and its normalised title holds the key |
| Pipeline.FormatFeaturedPlusStrict | pipeline.py:970-977 | a format the product page rules out is ruled out from the search snippet too, and with the `both` filter or no format nothing is ruled out |
| Pipeline.AutreEditeurRespecteOfficiel | pipeline.py:1060-1063 | the publisher filter never rejects the publisher of record itself nor anything when the series has none, and its verdict does not depend on the side |
| Pipeline.VerdictPageAsWritten | pipeline.py:1101-1180 | the detail-page verdict as written: a volume is declared new only when its date parses and is after the threshold |
| Pipeline.VerdictPage | pipeline.py:1101-1180 | the corrected verdict: new only for a volume not yet alerted with a parsed date after the threshold; a forced re-check reports a changed date with the old one, or an unchanged date; no date exactly when the page has none |
| Pipeline.VerdictPageAccord | pipeline.py:1101-1180 | the two verdicts agree on every volume not yet alerted, and differ only where the code as written declares an alerted volume new again |
| Pipeline.VerdictPageRealerte | pipeline.py:1132-1180 | a volume already alerted, checked without forcing and dated after the threshold, is declared new again by the code as written and not by the corrected verdict |
| Pipeline.TomeEntier | pipeline.py:1069-1075 | the tome saved with a volume is a positive number, and every positive numbered tome is saved as such |
| Pipeline.TexteTomeRelu | pipeline.py:1189-1195 | the text of a numbered tome reads back as that number, and `N/A` or `FIN` read as no number |
| Pipeline.TomesTrouves | pipeline.py:1189-1195 | the tomes found are positive numbers |
| Pipeline.Manquants | pipeline.py:1197-1201 | a tome is missing exactly when it is not found and lies between 1 and some tome found (so between 1 and the highest found); a missing tome is at least 1 and lies below some tome found |
| Pipeline.TomeTrouveNonManquant | pipeline.py:1189-1201 | a retained volume with positive tome n makes n found and so not missing |
| Pipeline.TomesTrouvesAjout | pipeline.py:1189-1195 | retaining one more volume adds its tome, and only it, to the tomes found |
| Pipeline.Eligibles | pipeline.py:53-55 | the volumes kept for the extended search are exactly the known ones with an ASIN and a digit-only tome, in their order |
| Pipeline.InsererPar | pipeline.py:53-56 | inserting into a list keeps its elements and adds the new one |
| Pipeline.InsererParTrie | pipeline.py:53-56 | inserting into a list sorted by tome keeps it sorted |
| Pipeline.TrierPar | pipeline.py:53-56 | sorting by tome gives a sorted list with the same elements |
| Pipeline.Choix | pipeline.py:61-70 | at most three ASINs are picked; the first is that of the first (lowest) volume, the middle and last volumes' ASINs are among them, and each is the ASIN of a sorted volume |
| Pipeline.AsinsAExplorer | pipeline.py:48-73 | no volume is explored when fewer than two are known, and no ASIN is explored twice |
| Pipeline.AsinsAExplorerBornes | pipeline.py:48-73 | at most three volumes are explored, each an eligible known volume |
| Pipeline.AsinsAExplorerNonVide | pipeline.py:48-73 | with two known volumes or more, one of them eligible, some volume is explored |
| Pipeline.AsinsAExplorerPlusBas | pipeline.py:61-70 | the exploration starts from an eligible volume of lowest tome |
| Pipeline.AsinsAExplorerPlusHaut | pipeline.py:61-70 | with two known volumes or more, one of them eligible, an eligible volume of highest tome is among those explored |
| Recherche.SansHorsSujet | pipeline.py:398-402 | the known volumes kept as candidates are exactly those not rejected by hand, in order, still without duplicates |
| Recherche.Tronquer | pipeline.py:1054 | a `[:n]` slice is a prefix of at most `n` characters and leaves a shorter string whole |
| Recherche.ReferencePapier | pipeline.py:480-500 | a paper reference ASIN is kept; a replaced one is a paper ASIN read from the paper-edition link of the e-book's page |
| Recherche.Supplements | pipeline.py:507-516 | each extra URL taken up carries a "/dp/" ASIN not seen before, and no ASIN is taken up twice |
| Recherche.AvecUrlsDp | pipeline.py:467-470 | every ASIN added maps to its product URL and every other candidate keeps its URL |
| Recherche.SupplementsComplets | pipeline.py:507-516 | every "/dp/" ASIN of the extra URLs that was not seen before becomes a candidate |
| Recherche.SupplementsCroit | pipeline.py:507-516 | one more extra URL never removes a candidate the earlier ones brought |
| Recherche.Retenus | pipeline.py:458-462 | a bulk run takes up exactly the non-empty related ASINs not seen before, each once |
| Recherche.Papiers | pipeline.py:463-470 | of those, exactly the paper ASINs become candidates |
| Recherche.ClassementsBulk | pipeline.py:463-470 | each ASIN taken up is classified "papier" or "non_papier" from source "bulk"; every other history row is unchanged |
| Recherche.Decouverte | pipeline.py:658-713 | a new candidate brought by a result that is not a paper volume comes from an e-book's paper link and is a paper ASIN not seen before |
| Recherche.DecouverteNeuve | pipeline.py:611-713 | every candidate a newly seen result brings is a paper ASIN not seen before; it is the result itself only for a paper volume |
| Recherche.ProgressionPage | pipeline.py:599-737 | the progression recorded is this page, or the page before for an empty page; an incomplete one is a page beyond the furthest reached |
| Recherche.ArretSiComplete | pipeline.py:599-733 | the scan stops on a page exactly when that page marks the exploration complete, except for an empty first page |
| Recherche.PremierDuBonType | pipeline.py:743-752 | the index found is the first candidate whose snippet title shows the series' format (文庫 for light novels, コミック otherwise), and none is found only when no candidate shows it |
| Recherche.ChoixBulk | pipeline.py:740-754 | there is a choice exactly when there are candidates; it is the first of the right format when there is one, else the first candidate |
| Recherche.BulkSansSectionAjoute | pipeline.py:448-470 | a bulk run on a page without a bulk section still takes up the unseen paper volume of its publisher section, without setting the success flag |
| Recherche.SansBulkNiFrequemment | pipeline.py:438-447 | without the frequently-bought source, a page with no bulk section yields only its publisher section |
| Recherche.EditeurVolume | pipeline.py:1044-1048 | the page's publisher when not empty; otherwise the publisher named in the title (in romaji) when there is one |
| Recherche.TomeVerifie | pipeline.py:920-925 | the tome read from the title wins; otherwise the bulk section's label for that ASIN; otherwise none |
| Recherche.AsinsPapiers | pipeline.py:1013 | the set of reported ASINs holds exactly the ASIN of every reported volume |
| Recherche.RechercheSerie.constructor | pipeline.py:393-406 | the known volumes not rejected by hand are the first candidates; they and the series' whole classification history count as seen; progression, alerts and reports start afresh |
| Recherche.RechercheSerie.Ajouter | pipeline.py:512-514 | the candidate is appended with its URL and counts as seen |
| Recherche.RechercheSerie.AjouterReference | pipeline.py:480-503 | with no candidate and a reference ASIN, its paper edition (per `ReferencePapier`) becomes the only candidate; otherwise nothing changes |
| Recherche.RechercheSerie.AjouterUrlsSupplementaires | pipeline.py:507-516 | the candidates, their order and the seen ASINs grow by exactly the pairs `Supplements` gives |
| Recherche.RechercheSerie.ExecuterBulk | pipeline.py:424-477 | a no-op once a bulk run succeeded or this source was tried; otherwise the source is tried, success means a non-empty bulk or frequently-bought section, the tome labels are merged, and the related ASINs are classified per `Retenus`/`Papiers`/`ClassementsBulk`; candidates only grow |
| Recherche.RechercheSerie.ClasserBulk | pipeline.py:458-477 | after the loop: the ASINs taken up are seen, the paper ones are candidates with their product URL, each has its history row, and the result says whether one is not a known volume |
| Recherche.RechercheSerie.PrendreBulk | pipeline.py:462-470 | one unseen related ASIN is seen afterwards; a paper one is appended as a candidate with its product URL; its row is "papier" or "non_papier" |
| Recherche.RechercheSerie.ClasserItem | pipeline.py:611-717 | a result without a title or already seen changes nothing; otherwise it is seen, classified, recorded in the history, and brings the candidate `Decouverte` names; the "new found" flag is set exactly when a candidate was added |
| Recherche.RechercheSerie.PrendreItem | pipeline.py:629-717 | taking up a new result of a given class leaves its history row (with the e-book's paper ASIN), its snippet for a paper volume, its ASIN seen and its candidate added |
| Recherche.RechercheSerie.PrendrePapier | pipeline.py:704-715 | a new valid paper volume becomes a candidate and is seen, its history row says `papier`, its snippet is kept, and the new-volume flag is raised |
| Recherche.RechercheSerie.PrendreAutre | pipeline.py:625-702 | any other new result is seen and gets its history row with its class; an e-book whose paper version is new and unseen adds that paper ASIN as a candidate and raises the flag; nothing else becomes a candidate |
| Recherche.RechercheSerie.ScannerPage | pipeline.py:611-717 | every titled result of the page is seen afterwards; candidates only grow; the flag is set exactly when one was added |
| Recherche.RechercheSerie.PasPage | pipeline.py:566-737 | a failed fetch stops the scan, and abandons the run exactly when it is page 1 with no candidate; a fetched page records `ProgressionPage` and stops when the page closes the exploration |
| Recherche.RechercheSerie.ScannerFeatured | pipeline.py:545-737 | page 1 is always attempted; no later page is fetched after a new candidate was found; the run is abandoned exactly when page 1 fails with no candidate, and then nothing changed |
| Recherche.RechercheSerie.BulkApresFeatured | pipeline.py:740-761 | with no successful bulk run yet and some candidate, a run from `ChoixBulk`'s choice, then from the others; without success every earlier candidate has been tried |
| Recherche.RechercheSerie.RelancerBulk | pipeline.py:757-761 | the retry tries only the candidates present when it begins, and all of them unless a run succeeds |
| Recherche.RechercheSerie.RelancerBulkAsWritten | pipeline.py:757-761 | an error means no run succeeded and candidates were added during the walk; without error or success, nothing was added and every candidate was tried; when the first candidate is untried and its page has no bulk section but an unseen paper volume in its publisher section, the walk ends in the error |
| Recherche.RechercheSerie.Rapporter | pipeline.py:885-1180 | a reported volume is appended; a new release other than a changed date is alerted under the series name and its URL counts as alerted; nothing else is alerted |
| Recherche.RechercheSerie.DepuisCache | pipeline.py:844-896 | a cached volume of another publisher is skipped; otherwise it is reported, new exactly when not alerted and dated after the threshold |
| Recherche.RechercheSerie.Repli | pipeline.py:902-918 | after a failed fetch, the volume is reported from its cached verification when one exists, never as new, and nothing is alerted |
| Recherche.RechercheSerie.DepuisFeatured | pipeline.py:952-1010 | the snippet is cached; the volume is skipped exactly when the format read from the snippet (empty when none) or its publisher rules it out; otherwise it is saved and reported, new exactly when not alerted and dated after the threshold |
| Recherche.RechercheSerie.Secours | pipeline.py:938-1010 | the cached verification wins over the snippet; with neither nothing is reported; at most one row, for this ASIN and URL |
| Recherche.RechercheSerie.PageInvalide | pipeline.py:931-1022 | an invalid page adds one to the counter, reset at 3 while some candidate is still unreported, then the fallbacks apply |
| Recherche.RechercheSerie.PageValide | pipeline.py:1024-1180 | a valid page resets the counter; a rejected format ends there; otherwise the verification is cached and the volume is kept per `Retenir` |
| Recherche.RechercheSerie.Retenir | pipeline.py:1051-1099 | the verification is cached; a volume of another publisher stops there; otherwise it is saved and reported with its verdict |
| Recherche.RechercheSerie.Conclure | pipeline.py:1101-1180 | a changed date updates the alert and the cache and is reported as new with its former date; other verdicts report the volume, as new only for `Nouveau` |
| Recherche.RechercheSerie.VerifierCandidat | pipeline.py:820-1180 | a candidate rejected by hand is skipped; the path taken is the cache, a failed fetch, an invalid page or a valid page, as the fetched page decides; the counter resets only on a valid page |
| Recherche.RechercheSerie.Examiner | pipeline.py:901-1180 | the path is "no page" exactly when the fetch fails and "valid" exactly when the page came with a title; the counter follows the path |
| Recherche.RechercheSerie.Verifier | pipeline.py:816-1180 | every reported volume is a candidate not rejected by hand, under its normalised URL, reported once; every new release other than a changed date is alerted under the series name and was not alerted before |
| Recherche.RechercheSerie.RetenirEtendu | pipeline.py:1254-1294 | the verification is cached; a volume of another publisher is dropped; otherwise it is saved and reported, not as new; its tome joins the tomes found |
| Recherche.RechercheSerie.EnregistrerEtendu | pipeline.py:1266-1290 | the volume of the series' publisher is saved with its normalised URL and truncated title, appended to the volumes found, not as new, and its integer tome (if any) joins the tomes found |
| Recherche.RechercheSerie.ItemEtendu | pipeline.py:1232-1294 | a result worth looking at is seen afterwards; only a paper one can add a report; the tomes found grow by the tome it brings |
| Recherche.RechercheSerie.FicheEtendue | pipeline.py:1251-1294 | a detail page that did not come or is invalid adds nothing; otherwise `RetenirEtendu` applies |
| Recherche.RechercheSerie.PageEtendue | pipeline.py:1226-1294 | after the first 30 results, the tomes still missing are those of the start set not found |
| Recherche.RechercheSerie.PasRechercheEtendue | pipeline.py:1215-1294 | one page: `vide` exactly when it came without results; the missing tomes only shrink |
| Recherche.RechercheSerie.RechercheEtendue | pipeline.py:1189-1300 | with no tome missing nothing is fetched or changed; otherwise pages 2 to 4 in order, each fetched only while some tome is missing, the missing set only shrinking; stopping early with tomes missing means the last page came empty; phase C reports only paper ASINs it had not seen, none twice |
| Recherche.RechercheSerie.Amorcer | pipeline.py:480-526 | the candidates only grow, and the first candidate has been through a bulk run unless one had succeeded before |
| Recherche.RechercheSerie.PremierBulk | pipeline.py:523-526 | the first bulk run starts from the first candidate, which is tried afterwards unless a bulk run already succeeded |
| Recherche.RechercheSerie.Decouvrir | pipeline.py:545-761 | an abandoned run has no candidate; a run that had candidates keeps some |
| Recherche.RechercheSerie.VerifierEtCompleter | pipeline.py:816-1335 | every report has a seen ASIN and is unique; new releases are alerted once and were not alerted before; without reports the official publisher is untouched |
| Recherche.RechercheSerie.Completer | pipeline.py:1185-1335 | phase C keeps the reports unique and limited to paper ASINs it had not seen; without reports the official publisher is untouched |
| Recherche.RechercheSerie.Executer | pipeline.py:480-1335 | with no candidate nothing is reported; otherwise the `VerifierEtCompleter` guarantees hold |
| Recherche.RechercherManga | pipeline.py:335-1335 | every new release is reported; reports have seen ASINs, are unique, and exist only when there was a candidate; new releases other than changed dates are alerted under the series name, were not alerted before, once each; no report leaves the official publisher untouched |
| Sync.SansNoms | sync.py:343-345 | the entries kept are exactly those whose name is not removed, in order |
| Sync.SansNomsUniques | sync.py:343-345 | dropping entries keeps internal names unique |
| Sync.SansNomsRetire | sync.py:343-350 | dropping a name that is tracked makes the list strictly shorter, which is what marks the list as changed |
| Sync.SansDoublons | sync.py:327 | the merged URLs hold each URL of the two lists once, and nothing else |
| Sync.Fusion | sync.py:319-331 | an entry keeps its name and keys; it gains the merged URLs only when some were given for its name and the union is not empty |
| Sync.NomInterne | sync.py:405-410 | the internal name always ends in " [LN]" or " [MANGA]"; a suffixed name is kept; otherwise " [LN]" for type "ln" and " [MANGA]" for any other type |
| Sync.NomInterneAffiche | sync.py:405-410 | stripping the type suffix from the internal name gives the name the viewer sent, stripped the same way |
| Sync.NouvelleSerie | sync.py:441-494 | the new entry has the internal name; "ln" gives filter "ln_only" and type "ln", "manga" gives filter "manga_only" and no type, other types neither; a "/dp/" URL with an ASIN gives the reference ASIN and one extra URL; another URL becomes the search title; with no URL the search title is the given one, else the name |
| Sync.Persistee | sync.py:273-275 | a saved entry holds only the persisted keys, each with a non-empty value, and every persisted key of the entry that has one |
| Sync.AvecFiltre | sync.py:246-253 | name and URLs are kept; an entry without a filter and with type "ln" or "manga" gets "ln_only" or "manga_only"; every other entry is unchanged |
| Sync.AvecFiltreIdempotent | sync.py:246-253 | mapping the type to a filter twice is mapping it once |
| Sync.Importer | sync.py:155-162 | the ASINs of the list outside the existing set get the status; every other status is kept |
| Sync.ImportRejete | sync.py:155-162 | an ASIN the Gist only rejects ends rejected |
| Sync.ImportValide | sync.py:155-162 | an ASIN the Gist validates ends validated, except when the Gist also rejects it and the store had already validated it: the rejection then stays |
| Sync.Filtrer | sync.py:361-368 | the corrections lists keep exactly the ASINs outside the purged series, in order |
| Sync.FiltrerDeux | sync.py:354-368 | filtering twice is filtering once by both sets |
| Sync.FiltrerRien | sync.py:359 | filtering by no ASIN changes nothing |
| Sync.Retiree | sync.py:359-388 | a purged series' ASINs leave the valid and rejected lists and the tome corrections, its name leaves the publishers; everything else is kept |
| Sync.RetireeDeux | sync.py:354-388 | purging in two steps is purging once the union |
| Sync.RetireeRien | sync.py:359 | purging nothing leaves the record as it was |
| Sync.Union | sync.py:354-388 | the ASINs gathered are exactly those of the named series |
| Sync.EditeursImportes | sync.py:180-189 | the series given get the Gist's publisher (as the store normalises it); every other entry is kept |
| Sync.EditeursImportesRien | sync.py:180-189 | importing for no series changes nothing |
| Sync.EditeursImportesIdempotent | sync.py:180-189 | importing the same publishers again changes nothing more |
| Sync.TomesCorriges | sync.py:168-176 | the volumes keep their keys, series and URLs; each ASIN with a numeric correction gets that tome and the others are unchanged |
| Sync.CacheCorrige | sync.py:168-176 | the cached verifications keep their keys; only those with a numeric correction change |
| Sync.CacheCorrigeRelu | sync.py:168-176 | a corrected cached tome reads back as the Gist's number, and its date, title and publisher are unchanged |
| Sync.NonVides | sync.py:337 | the removed names kept are exactly those neither empty nor blank, in order |
| Sync.ImporterStatuts | sync.py:148-162 | the statuses are the rejections imported first, then the validations, each skipping the ASINs that had that status before |
| Sync.ImporterListe | sync.py:155-162 | one pass gives the status to every listed ASIN outside the existing set, per `Importer` |
| Sync.ImporterTomes | sync.py:168-176 | the volumes and the cached verifications are `TomesCorriges` and `CacheCorrige` for every correction |
| Sync.ImporterEditeurs | sync.py:180-189 | the publisher table is `EditeursImportes` for every series of the Gist |
| Sync.ImporterEditeur | sync.py:183-186 | one series is written only when the stored publisher differs from the Gist's |
| Sync.Synchro.constructor | sync.py:296-312 | the tracked list, the corrections record and the series configuration are those given; nothing is marked for writing back |
| Sync.Synchro.FusionnerUrls | sync.py:319-331 | every entry becomes its `Fusion`, names and order are kept, and the counter grows by the URLs given for tracked names |
| Sync.FusionnerListe | sync.py:321-331 | the merge loop on the list as a value: each entry becomes its `Fusion` in place, the names are unchanged, and the counter is the number of URLs given for the tracked names |
| Sync.Synchro.PurgerRetiree | sync.py:354-391 | the series' rows leave the volume and snippet tables, so it has no ASIN or known volume left, other series keep theirs, and the record drops its ASINs and publisher |
| Sync.Synchro.RetirerSeries | sync.py:333-395 | with no non-blank name nothing changes; otherwise the entries become `SansNoms`, the removal list is emptied and the Gist marked for writing; when an entry was dropped every removed name is purged from the store and the record; the counter is the number of entries dropped |
| Sync.Synchro.RetirerEtVider | sync.py:341-394 | for a non-empty removal list: the entries become `SansNoms`, the names are purged only when an entry was dropped, then the list is emptied and the Gist marked for writing |
| Sync.Synchro.RetirerNoms | sync.py:341-391 | entries named are dropped; only when one was tracked is every name purged; otherwise the store and the record are untouched |
| Sync.Synchro.ViderRetraits | sync.py:392-394 | the removal list becomes empty, the rest of the series configuration is kept, and the Gist is marked for writing back |
| Sync.Synchro.PurgerRetirees | sync.py:354-391 | every removed name has no ASIN left, and the record is `Retiree` for the union of their ASINs and their names |
| Sync.Synchro.AjouterSerie | sync.py:399-498 | an addition is made exactly when the name is not empty and its internal name is not tracked; it appends `NouvelleSerie`, keeps names unique, and leaves no known volume under that name; a stale cache is purged first, which drops exactly that series' rows from every table and, when it had ASINs, those ASINs and its publisher from the corrections record; otherwise the store and the record are untouched |
| Sync.Synchro.PurgerAjoutee | sync.py:416-437 | the store loses exactly the series' rows in every table, so it has no known volume left and no series gains ASINs; the record drops its ASINs and publisher only when it had ASINs |
| Sync.Synchro.AjouterSeries | sync.py:397-506 | the tracked names become the earlier ones plus every non-empty addition; the list grows exactly when some non-empty addition was not tracked; names stay unique, the addition list is emptied; the Gist is marked for writing exactly when it was already or the addition list was not empty; the counter is the number of entries added; the corrections record is present exactly when it was and only loses entries, and a series added over a stale cache keeps no ASIN or publisher in it when it had ASINs |
| Sync.Synchro.ChargerSeriesConfig | sync.py:296-530 | with no Gist configuration nothing changes; otherwise the tracked names become the earlier ones minus the non-blank removed names, plus the non-empty additions; the counter sums the URLs merged, the series dropped and the series added; names stay unique, the addition list is emptied, and once a series is dropped every removed name has no ASIN left; the list file is saved exactly when a series was dropped or added; the corrections record is `Nettoyage` of the one before, and the Gist is marked for writing exactly when it was already, a non-blank name was removed or an addition was listed |
| Sync.Synchro.AppliquerGist | sync.py:313-506 | steps 1a to 1c: the tracked names become the earlier ones minus the non-blank removed names, plus the non-empty additions; the flag says a series was dropped or added; the counter sums the URLs merged, the series dropped and the series added; names stay unique, and a removed-and-re-added series has no ASIN left; the corrections record is `Nettoyage` of the one before, and the Gist is marked for writing exactly when it was already, a non-blank name was removed or an addition was listed |
| Sync.Synchro.RetirerPuisAjouter | sync.py:333-506 | steps 1b then 1c: the same names, flag and counter, without the URLs; once a series is dropped every non-blank removed name has no ASIN left; the corrections record is `Nettoyage` of the one before, with the same Gist flag |
| Sync.Synchro.RetirerDe | sync.py:333-395 | step 1b: the list keeps the entries whose names were not removed; the flag says some tracked name was removed; the counter is the number dropped; once one is, every non-blank removed name has no ASIN left and the record becomes `Retiree` of the removed names' ASINs (`AsinsDesSeries`) and names, while with nothing dropped the store and the record are untouched; other series keep their ASINs and volumes; the Gist is marked for writing exactly when it was already or a non-blank name was removed |
| Sync.Synchro.EtapeUrls | sync.py:313-331 | with no URL in the Gist nothing changes; otherwise every entry becomes its `Fusion` and the counter is the number of URLs given for tracked names; names are kept |
| Sync.Synchro.AjouterEnOrdre | sync.py:398-497 | the addition loop: the earlier names plus the added ones, the flag and the counter as in `AjoutsFaits`; no series gains ASINs; the record only loses entries, and a series added over a stale cache keeps no ASIN or publisher in it |
| Sync.AsinsDesSeries | sync.py:354-360 | the ASINs gathered for the named series are exactly those belonging to one of them |
| Sync.UnionAsinsDes | sync.py:354-360 | the ASINs collected series by series before each purge are `AsinsDesSeries` of the store as it was before any purge |
| Sync.AjoutStore | sync.py:412-437 | one addition keeps `EtatStore`: untracked series keep their ASINs and volumes, the record only shrinks, and a newly tracked series that had a stale cache keeps no trace in the record |
| Sync.AjoutsNettoyes | sync.py:397-437 | after the addition loop every added series that was untracked and had a stale cache keeps no trace in the record |
| Sync.RetraitPuisAjout | sync.py:333-437 | a removal then the additions leave the record `Nettoyage` of the first one: it only shrinks, the removed series lose their ASINs and publishers when a series was dropped, and the re-added stale series keep no trace |
| Sync.RetraitListe | sync.py:343-347 | filtering the merged list drops the same entries as filtering the list before the merge, and it shrinks exactly when a removed name was tracked |
| Sync.EtapesListe | sync.py:333-497 | after the removal and the additions, the tracked names are the earlier ones minus the removed ones plus the added ones, and an addition happened exactly when one was untracked after the removal |
| Sync.Synchro.AjoutsFaits | sync.py:398-497 | the addition loop leaves the earlier names plus the added ones, and grows the list exactly when some non-empty addition was untracked |
| Sync.ApresRetrait | sync.py:336-345 | after the removal a name is tracked exactly when it was and is not a non-blank removed name |
| Sync.SuivieSansNoms | sync.py:344-345 | a name is tracked after dropping the names `noms` exactly when it was tracked and is not one of them |
| Sync.SansNomsRaccourcit | sync.py:344-346 | dropping the names `noms` shortens the list exactly when one of them is tracked |
| Sync.SansNomsNoms | sync.py:344-345 | two lists with the same names keep the same names after dropping the same ones |
| Sync.MangasPersistees | sync.py:271-273 | the entries written to the list file are `Persistee` of each tracked entry, in order |
| Sync.Synchro.ChargerMangasListe | sync.py:229-264 | a missing, unreadable or empty list leaves the tracked series as they were; otherwise they become the file's entries with `AvecFiltre` applied |
| Sync.Synchro.ChargerCorrections | sync.py:130-215 | without a Gist record the store is untouched; with one, the statuses, tomes, cached verifications and publishers become their import functions' results; the off-topic set is the store's rejected ASINs |
| App.Priorite | app.py:233-239 | priority 1 exactly when the series has stored volumes, 2 exactly when it has none but a reference ASIN, 3 otherwise |
| App.OrdreDesCles | app.py:233-247 | under tuple order, a series with stored volumes goes before any without, and the more volumes the earlier; without volumes, one with a reference ASIN goes first; two without volumes and alike in that respect tie |
| App.Explicite | app.py:217-219 | the explicit reference is present exactly when `asin_reference` is set and not empty, and is its value |
| App.AsinDesUrls | app.py:221-227 | the result is the ASIN of the first extra URL holding a "/dp/" product path, none when no URL holds one |
| App.Reference | app.py:214-231 | the reference ASIN is the explicit one, else the first "/dp/" ASIN of the extra URLs, else the store's reference volume |
| App.AvecReference | app.py:242 | the entry keeps its name, URLs and every other key; its recorded reference is the one found |
| App.Inserer | app.py:247 | insertion adds exactly the element: one more, same multiset |
| App.Trier | app.py:247 | the sorted list is a permutation of the decorated one |
| App.InsererTriee | app.py:247 | inserting into an ordered list keeps it ordered |
| App.TrierTriee | app.py:247 | the sorted list is ordered by key |
| App.DeCleConcat | app.py:247 | the elements with a given key in a concatenation are those of each part, in order |
| App.InsererDeCle | app.py:247 | insertion puts the element before every element with an equal key and leaves their order alone |
| App.TrierStable | app.py:247 | the sort is stable: entries sharing a key keep their relative order |
| App.Prioriser | app.py:200-247 | every entry is decorated once, in list order, with its reference recorded and its key; the scan order is the decorated list sorted |
| App.Decorer | app.py:200-245 | the key function runs on each entry in order and decorates it per `Decoree` |
| App.Echouees | app.py:342-372 | the series set aside are a sub-list of those scanned: some dropped, the rest kept in scan order |
| App.Recuperees | app.py:383-393 | at most every retried series is counted as recovered |
| App.EchoueesExactes | app.py:336-372 | a series is retried exactly when its first scan raised or found no paper volume |
| App.PapiersExacts | app.py:336-404 | the volumes collected are exactly those returned by the scans that did not raise, first pass and retry |
| App.RecupereesExactes | app.py:383-404 | none is recovered exactly when every retried series raised or still found nothing |
| App.Balayer | app.py:336-404 | the failed series, the volumes, the new releases and the recovered count are those the first pass and the retry of the failed series define |
| App.PremierePasse | app.py:336-372 | the first pass sets aside `Echouees` and collects the volumes and new releases of the scans that did not raise, in order |
| App.Rattrapage | app.py:376-404 | the retry collects the volumes and new releases of the failed series' second scans and counts those that now return volumes |
| App.Statut | app.py:461-467 | "rejete" exactly for a rejected ASIN, "valide" exactly for a validated one not rejected, "non_traite" exactly for the others |
| App.AsinsDu | app.py:471 | the run's ASINs are exactly those of its volumes |
| App.NonTraitesCompte | app.py:470-474 | with no ASIN both validated and rejected, the count computed is the number of the run's ASINs that are neither |
| App.Exporter | app.py:432-474 | one exported row per volume, in order, each tagged per `Etiquete`; the untreated count is the run's distinct ASINs neither validated nor rejected |
| App.Etiqueter | app.py:439-468 | each volume is exported with the override's series as both names and its original series kept, or else its own name and its French name; the detection date; its status |
| App.NonTraitesEtiquetes | app.py:461-474 | the ASINs counted as untreated are exactly those of the volumes exported as "non_traite" |

## Left out

- HTTP transport and pacing are not modelled. This covers sessions, warm-up, cookies, headers, random jitter, exponential backoff and every `asyncio.sleep` (scraper.py:29-183, the 30-second circuit-breaker pause at pipeline.py:1020, the pauses of app.py:346-365 and 381-399). Only the counters and the decisions they feed are kept.
- Scraper.GetHtml: only the curl_cffi branch of the attempt loop is modelled. The aiohttp fallback (scraper.py:84-98) returns any 200 body and gives up on statuses other than 503; it is not part of this model.
- HTML parsing (BeautifulSoup selectors, `extraire_item_amazon`, `extraire_version_papier`, the field look-ups of `extraire_infos_produit`) is not modelled. What the selectors yield is an input: the `Web` oracles of `Recherche` and the link lists and texts of `Scraper`.
- Clocks and date parsing are parameters. `datetime.now()` is the `maintenant`/`aujourdhui` parameter; `strptime` is the parse oracles `iso`/`anglais` over an ordered `Date`. Timestamps the store writes (`date_maj`, `date_vu`, ...) are dropped.
- Titre.NormaliserTitre: the NFKC step is covered only for the full-width ASCII block and the ideographic space (`Titre.Nfkc`). The rest of Unicode compatibility decomposition is not, because it needs the Unicode tables.
- Sync.Synchro.AppliquerGist: the corrections record is stated to lose the entries of the purged series and nothing it did not have (`Nettoyage`); the exact record after each step is stated by `Sync.Synchro.RetirerDe` and `Sync.Synchro.AjouterSerie`, not composed at the top. The Gist flag is also set by the translations step (sync.py:508-525), which is not part of this model.
- Titre.NormaliserTitreIdempotent holds for the model's partial NFKC only. With the full NFKC the source runs, normalising is not idempotent: "Α" (Greek capital alpha) followed by U+0308 folds to "A" followed by U+0308, which a second NFKC composes into "Ä". The "already in normal form" clause of Pipeline.TitreCle has the same limit.
- Normaliser.Consulter: the `LABEL_VERS_PARENT` dictionary is written as its 25 parents, each mapped to itself, and its 88 labels with their parents. The lookup tries the parents first, then the first label entry with the key. This equals the dictionary look-up because the dictionary's keys are distinct and no label is a parent. That fact is read off the source table, not proved.
- Text.IsDigit: only ASCII and full-width digits count. Python's `\d`, `str.isdigit` and `int` accept every Unicode decimal digit, so a title such as `第٣巻` (Arabic-Indic three) is tome 3 in the source and has no formal-rule tome here. The model keeps the two kinds Japanese titles are written with.
- Text.Lower: only ASCII letters are lower-cased. Python's `str.lower` also folds other scripts, which the publisher labels and bot-check markers it is used on do not rely on.
- Python's regular-expression engine is not modelled in general. Each pattern the code uses is written out as a predicate over positions, and `re.search` picks the leftmost match (`Text.FindFirst`).
- Translations are not modelled: `rechercher_traductions` and its calls (pipeline.py:357-386, 779-813), the French-title rename at pipeline.py:1317-1324, the Gist's `traductions` step (sync.py:508-525), and the translations saved for an added series (sync.py:453-467). The French series name is a parameter; the French-name table used by the export is a parameter.
- The consistency warning of pipeline.py:1308-1315 is not modelled; it only logs. The same holds for every log line, every `stats`/`page_stats` counter and `generer_resume_log`.
- Recherche.RechercherManga: `ordreConnus`, the known volumes of the series, may come in any order. The store lists them by tome with unknown tomes last (database.py:254), and the model does not impose that order, so the order of the first candidates is not the source's.
- Recherche.RechercheSerie.RechercheEtendue: the source runs phase C whenever some tome below the highest is missing (pipeline.py:1198-1203). It has no "highest tome at least 3" condition, and the model follows the code.
- `rechercher_volumes_via_bulk_etendu` is modelled only up to the ASINs it explores (pipeline.py:48-73). The fetches it then makes from them (pipeline.py:75-187) are not modelled.
- App.Balayer: one series' scan (`scanner_serie`, app.py:289-334) is the oracle `scan`. This leaves out its call of `rechercher_manga` with the entry's fields, its removal of the series' extra URLs from the Gist (app.py:306-312), and its extended related-volume search (app.py:315-330).
- The steps of the run after the retry are not part of this model: tome correction, summary, notifications, the Gist write-back and `git_push` (app.py:407-425, sync.py:599-640).
- Sync.Synchro.ChargerSeriesConfig models only the Gist part of `charger_series_config`. The local `series_config.json` step (sync.py:531-596) is not modelled.
- The Gist and file transfers are not modelled: `charger_gist_config`, `sauvegarder_gist_config` (sync.py:19-128), the file reads, and the `corrections.json` import and rename (sync.py:192-209). What they produce is the initial state of `Sync.Synchro`; the list file written is its `fichierListe` field.
- `sauvegarder_mangas_liste` (sync.py:264-290) is modelled by its entry loop, `Sync.MangasPersistees`; `Sync.Synchro.ChargerSeriesConfig` stores the result in `fichierListe`. The header with version, description and clock timestamp, and the failed-write path, are not modelled, because they are file I/O and the clock.
- Sync.Synchro.ChargerCorrections: the branch without a store (sync.py:210-226) is not modelled. Every caller passes one.
- Sync.Synchro.FusionnerUrls: `list(set(...))` gives the merged URLs in an unspecified order. The model keeps first occurrences in order and states only membership and distinctness.
- Exceptions are modelled only where the code's outcome depends on them:
  - the `RuntimeError` of the bulk retry (see Findings);
  - a scan that raises (`App.Scan.Leve`).

  The `try/except` around purges, tome imports and e-book look-ups is taken as never raising. `int(tome)` failures are the `None` of `Text.ParseInt`.
- App.Prioriser: `get_priorite_serie` writes `_asin_reference` into the shared entry dictionaries in place. The model returns the decorated entries instead, and `None` is an absent `_asin_reference` key. Aliasing between `config.MANGAS_A_SUIVRE` and the sorted list is not modelled.
- Store: the following are not modelled:
  - connection handling and schema migrations, including `migrer_ebooks` (database.py:25-35, 128-134, 345-371);
  - the translation tables;
  - the overrides table, whose content is a parameter of `App.Exporter`;
  - the workflow's reminders, pauses and overdue listings.

  The editorial workflow's creation, step completion and current step are modelled.
- Notifications, the API server and `config.py` loading are not part of this model. Their constants (paper formats, derivative keywords, generic titles, persisted keys, DATE_SEUIL) are carried over as constants.

## Findings

| source | as written | input that shows it | evidently intended | confidence | as-written member | corrected member |
|---|---|---|---|---|---|---|
| utils.py:596-599 | the last-resort tome rule searches the slice `titre[10:]`, so its "no digit before" look-behind cannot see `titre[9]` | "ABCDEFGH9004": the slice is "04", read as tome 4 | a run of digits that starts before index 10 is not a tome (none here) | not executed | Tome.LastResortAsWritten (Tome.LastResortSplitsCode) | Tome.LastResort (Tome.LastResortReadsWholeNumbers, Tome.LastResortSplitsCode), the last of Tome.RulesApres and so the rule Tome.ExtraireNumeroTome falls back on |
| pipeline.py:1136-1180 | a volume verified from its product page is declared new whenever its date is after DATE_SEUIL; unlike the cache and snippet paths (pipeline.py:885, 1004), the alert flag is not checked | a volume alerted on an earlier day, with an alert date already past (so no forced re-check), with no cache row or a cached "N/A" tome (so `est_verifie_aujourdhui` returns nothing and the page is fetched), and dated after DATE_SEUIL: it is reported as new again on every such run | an alerted volume is not new again unless its date changed | not executed | Pipeline.VerdictPageAsWritten (Pipeline.VerdictPageRealerte) | Pipeline.VerdictPage (Pipeline.VerdictPageRealerte, Pipeline.VerdictPageAccord), the verdict Recherche.RechercheSerie.PageValide applies |
| pipeline.py:757-761 | the bulk retry iterates the live `candidats` dictionary while `executer_bulk` may add to it, so Python raises RuntimeError ("dictionary changed size during iteration") and the series' scan is lost | candidates [A, B] where only B's snippet shows コミック: the first run starts from B, whose page has no bulk section; the retry starts from A, whose page has no bulk section but an unseen paper volume in its publisher section | the retry goes through the candidates present when it starts | not executed | Recherche.RechercheSerie.RelancerBulkAsWritten | Recherche.RechercheSerie.RelancerBulk (used by Recherche.RechercheSerie.BulkApresFeatured) |
