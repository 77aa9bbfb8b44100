# School grading: a Dafny model of the grade engine and the grade pages

This project models the core of a primary-school grading application. The core has three parts:

- **The backend** (`backend/server.py`) keeps four collections: classes, students, compositions (exam sessions) and notes (one student's four subject scores for one composition).
  - It computes each note's total, its average on the /10 scale and its A/B/C/D observation band.
  - After every note creation, update or deletion it re-ranks every note of the composition.
  - It answers the listing, statistics and tracking queries.
  - Its deletes cascade: a class takes its students, its compositions and their notes with it.
- **The grade-entry page** (`frontend/src/pages/SaisieNotes.js`) handles the map of typed scores per student, the upper-bound validation, the choice between updating and creating a note, the "save all" loop with its tally, and the loading of the maps from the stored notes.
- **The class tracking page** (`frontend/src/pages/SuiviClasse.js`) computes each student's yearly average over the compositions they sat and shows one cell per composition.

How the model is built:

- **Grading** holds the per-note arithmetic.
  - Scores are fixed-point integers in hundredths of a point.
  - The average is `round(total / 170 * 10, 2)` in hundredths, which is the integer nearest to total / 17. Python's `round` breaks ties to even; `RoundDiv` does the same.
- **StableSort** holds Python's stable `sorted`, as an insertion sort over store positions.
  - Equal keys keep their store order.
  - `reverse=True` on the total is a sort on the negated total. Python also keeps store order for equal keys under `reverse=True`.
- **Seqs** holds the in-memory counterparts of the store's queries. A collection is a sequence in store order:
  - `find` is `Filter`;
  - `find_one`, `update_one` and `delete_one` reach `FirstIndex`;
  - `delete_many` is a `Filter` on the negated condition.
- **Server** is a class `Store` with the four collections as fields.
  - Its methods are the routes that change state, and each request is one atomic step.
  - `Valid()` says the ids are unique and every note's derived fields agree with its scores.
  - `calculer_classement` is a loop that gives each note of the sorted list its place as its rank. It is proved equal to the function `Reranked`, and the ranking properties are lemmas about `Reranked`.
- **SaisieNotes** and **SuiviClasse** model the two pages as functions over their state (maps and rows), plus methods for the loops.

The code's behaviour, which the model follows:

- Ranking is not competition ranking. Equal totals get distinct consecutive ranks, in store order: this is `Server.RerankedOrder`.
- Nothing keeps a (composition, student) pair unique. The tracking queries take the first matching note (`find_one`), and the grade page keeps the last one.
- The statistics count the stored notes of the composition. `presents` is that same count and `absents` is always 0: enrolled students without a note are not counted.
- The backend accepts any score, negative or over the maximum (`Grading.ExampleOverMax`). Only the page checks the upper bounds, and it checks no lower bound (`SaisieNotes.BornesValidation`).

## Model

| member | source | states |
|---|---|---|
| Grading.RoundDiv | backend/server.py:264 | the result rounds n/d to the nearest integer (2(n - d.r) lies in [-d, d]), and a tie goes to the even integer, as Python's `round` does |
| Grading.Total | backend/server.py:263 | the total is the sum of the four scores; with non-negative scores it is at least each score |
| Grading.Moyenne | backend/server.py:264 | the average in hundredths is within half a unit of total / 17 (total/170*10 rounded to two decimals) |
| Grading.CalculerObservation | backend/server.py:116-125 | A iff the average is >= 8.50, B iff it is in [7.00, 8.50), C iff in [5.00, 7.00), D iff below 5.00 |
| Grading.ObservationMonotone | backend/server.py:116-125 | a higher average never gets a lower band |
| Grading.MoyenneMonotone | backend/server.py:263-264 | a higher total never gets a lower average |
| Grading.RoundDivBounds | backend/server.py:356 | 0 <= n <= m.d gives a rounded quotient in [0, m] |
| Grading.MoyenneInRange | backend/server.py:263-264 | scores within their maxima give a total in [0, 170] and an average in [0, 10] |
| Grading.AdmisIffNotD | backend/server.py:355 | passing (average >= 5.00) is exactly having a band other than D |
| Grading.ExampleB | backend/server.py:263-265 | 40.5 + 35 + 15.5 + 42 = 133, average 7.82, band B |
| Grading.ExampleA | backend/server.py:263-265 | 45 + 40 + 18 + 47 = 150, average 8.82, band A |
| Grading.ExampleOverMax | backend/server.py:263-265 | a score over its maximum is accepted and counted: 55 + 35 + 15 + 42 = 147, band A |
| StableSort.Sort | backend/server.py:107 | the result is a permutation of the given positions, ordered by key, with equal keys in store order |
| Server.NouvelleNote | backend/server.py:262-273 | the inserted note has the request's ids and scores, derived fields that agree with the scores, and rank 999 |
| Server.AvecScores | backend/server.py:308-319 | the update sets the new scores and derived fields that agree with them; id, composition, student and rank are kept |
| Server.Classement | backend/server.py:104-107 | the sorted list is a permutation of the positions of the composition's notes, in range, ordered by descending total with ties in store order |
| Server.InClassement | backend/server.py:104-107 | every note of the composition has a place in the sorted list |
| Server.NotInClassement | backend/server.py:104 | a note of another composition has no place in the sorted list |
| Server.ClassementSize | backend/server.py:104-110 | the sorted list has exactly as many places as the composition has notes |
| Server.ClassementPlaces | backend/server.py:107-110 | the places are distinct, each holds a note of the composition, and place k is the first occurrence of its note |
| Server.RerankedOnlyRang | backend/server.py:110-114 | re-ranking changes only the `rang` field, and only on the notes of the composition; the store's length is kept |
| Server.RerankedRange | backend/server.py:110-114 | every note of the composition gets a rank in 1..n, where n is its number of notes |
| Server.RerankedDistinct | backend/server.py:107-114 | two different notes of the composition never share a rank, even with equal totals |
| Server.RerankedPlaces | backend/server.py:110-114 | rank k + 1 goes to the note at place k of the sorted list; with the two lemmas above, the ranks are a permutation of 1..n |
| Server.RerankedOrder | backend/server.py:107-114 | a strictly larger total gets a strictly smaller rank, and of two equal totals the earlier note in the store gets the smaller rank |
| Server.RerankedCoherent | backend/server.py:110-114 | re-ranking keeps ids unique and derived fields coherent |
| Server.Partiel | backend/server.py:110-114 | the state during the loop differs from the notes read only in ranks |
| Server.PartielStep | backend/server.py:111-114 | one `update_one` moves the partial state on by exactly one place |
| Server.PartielDone | backend/server.py:110-114 | once every place is done the partial state is the re-ranked store |
| Server.RangSuivant | backend/server.py:111-113 | the `update_one` by id reaches the note at the current place, and writing its rank is the next partial state |
| Server.Store.CalculerClassement | backend/server.py:102-114 | the new notes are exactly `Reranked(old notes, c)`; the store stays valid and the other collections are unchanged |
| Server.Store.CreerNote | backend/server.py:260-283 | the new note is appended and its composition re-ranked; the returned note is the stored one, with the request's scores, coherent derived fields and a rank in 1..n |
| Server.Store.ModifierNote | backend/server.py:305-330 | an unknown id is "not found" and changes nothing; otherwise the first note with the id gets the new scores, its composition is re-ranked, and the returned note is the stored one with a rank in 1..n |
| Server.ModificationCoherente | backend/server.py:312-320 | updating a note's scores keeps the store coherent |
| Server.Store.SupprimerNote | backend/server.py:332-344 | an unknown id is "not found" and changes nothing; otherwise the note is removed, no note with the id is left, and the composition is re-ranked |
| Server.SuppressionCoherente | backend/server.py:339 | deleting a note by id keeps the store coherent and leaves no note with that id |
| Server.CompteAdmis | backend/server.py:355 | at most as many passing notes as notes |
| Server.AdmisAreNotD | backend/server.py:355 | on coherent notes, the count of averages >= 5.00 is the count of bands other than D |
| Server.ObtenirStatistiques | backend/server.py:348-364 | effectif = presents = the composition's note count, absents = 0, admis = the passing count <= effectif; the pass rate rounds 100.admis/effectif to two decimals, a tie going to the even hundredth, is 0 when there is no note, and lies in [0, 100] |
| Server.ListerCompositions | backend/server.py:223-229 | with a non-empty class filter, a permutation of that class's compositions; without one, a permutation of all compositions; in both cases sorted by ascending number |
| Server.TrieesParNumero | backend/server.py:223-229 | the listing is a permutation of the query result, sorted by ascending number |
| Server.ListerNotes | backend/server.py:285-296 | the listing is a permutation of the notes matching the optional composition and student filters, sorted by ascending rank |
| Server.Store.SupprimerClasse | backend/server.py:159-170 | an unknown class is "not found" and changes nothing; otherwise the class, its students, its compositions and every note of those compositions are deleted, and everything else is kept |
| Server.Store.SupprimerNotesDe | backend/server.py:166-168 | after the loop, exactly the notes of none of the given compositions are left, in store order, and the store stays valid |
| Server.SuppressionEtape | backend/server.py:167-168 | one iteration deletes the notes of one more composition and keeps the store coherent |
| Server.FilterCoherent | backend/server.py:168 | a `delete_many` on notes keeps the store coherent |
| Server.Store.SupprimerEleve | backend/server.py:205-212 | an unknown student is "not found" and changes nothing; otherwise the student and all the student's notes are deleted, and the other notes keep their ranks |
| Server.Store.SupprimerComposition | backend/server.py:249-256 | an unknown composition is "not found" and changes nothing; otherwise the composition and all its notes are deleted |
| Server.Store.ObtenirSuiviEleve | backend/server.py:368-385 | one entry per composition of the class in number order, each holding that composition and the student's first note for it, or nothing |
| Server.Store.ObtenirSuiviClasse | backend/server.py:387-412 | the compositions of the class by number, and one row per student of the class in store order, each row being `NotesEleve` of that student |
| Server.Store.NotesDeLEleve | backend/server.py:396-402 | the inner loop builds exactly `NotesEleve` |
| Server.NotesEleve | backend/server.py:396-402 | one slot per composition, in order, holding the student's first note for that composition, or nothing when there is none |
| SaisieNotes.ChangerNote | frontend/src/pages/SaisieNotes.js:59-67 | the edited student is added to the keys if absent, and the edited field holds the typed value, 0 for an empty field |
| SaisieNotes.ChangerNoteCadre | frontend/src/pages/SaisieNotes.js:60-66 | an edit keeps the presence and value of the student's other fields and the entries of the other students |
| SaisieNotes.ChangerNoteDerniere | frontend/src/pages/SaisieNotes.js:64 | the last value typed in a field wins |
| SaisieNotes.ChangerNoteIdempotent | frontend/src/pages/SaisieNotes.js:64 | typing the same value twice is typing it once |
| SaisieNotes.ChangerNoteCommute | frontend/src/pages/SaisieNotes.js:60-66 | edits of two different fields, of one student or of two, give the same map in either order |
| SaisieNotes.Invalide | frontend/src/pages/SaisieNotes.js:77-80 | an entry is rejected exactly when some present field exceeds its subject's maximum (50, 50, 20, 50); the same test is applied to each entry of "save all" (line 109) |
| SaisieNotes.BornesValidation | frontend/src/pages/SaisieNotes.js:77 | a negative score and an empty entry pass the validation; a score at its maximum passes and one hundredth more is rejected |
| SaisieNotes.RequeteDe | frontend/src/pages/SaisieNotes.js:83-95 | an update of the known note id exactly when the student has a non-empty known id, a creation for the composition and student otherwise; both carry the entry |
| SaisieNotes.Enregistrer | frontend/src/pages/SaisieNotes.js:69-101 | "nothing to save" iff the student has no entry, "invalid" iff the entry is rejected, otherwise the request for the entry is sent; the page reloads iff a request was sent and succeeded |
| SaisieNotes.EnregistrerValide | frontend/src/pages/SaisieNotes.js:76-93 | a sent request never carries an entry the validation rejects |
| SaisieNotes.Valides | frontend/src/pages/SaisieNotes.js:109-112 | there are at most as many valid entries as keys |
| SaisieNotes.EnregistrerTout | frontend/src/pages/SaisieNotes.js:103-139 | over the keys of the entries map, listed once each, every student with an entry is counted once (successes + errors = the number of entries), as a success or an error; the successes are the valid entries whose request succeeded; the requests sent are one per valid entry, in key order; the page reloads iff there is a success and reports errors iff there is an error |
| SaisieNotes.EnvoisValides | frontend/src/pages/SaisieNotes.js:107-126 | "save all" sends exactly one request per valid entry, none with a rejected entry, and has no more successes than requests |
| SaisieNotes.ToutReussi | frontend/src/pages/SaisieNotes.js:114-126 | when every request succeeds, the successes are exactly the valid entries |
| SaisieNotes.ClesComptees | frontend/src/pages/SaisieNotes.js:107 | keys that repeat nothing, lie in the map and cover it are exactly as many as the students with an entry |
| SaisieNotes.FicheDe | frontend/src/pages/SaisieNotes.js:43-48 | the loaded entry has exactly the four subjects, with the note's scores |
| SaisieNotes.ElevesDe | frontend/src/pages/SaisieNotes.js:42-50 | exactly the students that have a loaded note |
| SaisieNotes.CarteNotesCles | frontend/src/pages/SaisieNotes.js:42-48 | the entries map is keyed by exactly the students of the loaded notes |
| SaisieNotes.CarteIdsCles | frontend/src/pages/SaisieNotes.js:42-50 | the known-ids map is keyed by exactly the students of the loaded notes |
| SaisieNotes.CartesDerniere | frontend/src/pages/SaisieNotes.js:42-50 | a student's entry and known id come from the student's last loaded note |
| SaisieNotes.ChargerDonnees | frontend/src/pages/SaisieNotes.js:39-52 | the loop builds exactly the two folds over the notes, and both maps are keyed by exactly the students of the notes |
| SuiviClasse.Moyennes | frontend/src/pages/SuiviClasse.js:117 | exactly one average per non-empty slot (as many as `Presents` counts), so at most one per slot; none iff every slot is empty, one per slot iff none is |
| SuiviClasse.MoyenneGenerale | frontend/src/pages/SuiviClasse.js:116-120 | a dash iff every slot is empty; otherwise the divisor is the number of non-empty slots (`Presents`, positive) and the value times that number is the sum of their averages |
| SuiviClasse.MoyennesAbsence | frontend/src/pages/SuiviClasse.js:117 | an empty slot, wherever it sits, adds no average |
| SuiviClasse.AbsenceIgnoree | frontend/src/pages/SuiviClasse.js:117-119 | an empty slot changes neither the sum nor the divisor of the yearly average |
| SuiviClasse.MoyennesDesPresents | frontend/src/pages/SuiviClasse.js:117 | every averaged value is the average of the note in some non-empty slot |
| SuiviClasse.MoyennesBornees | frontend/src/pages/SuiviClasse.js:117 | when every present note's average lies in [lo, hi], so does every averaged value |
| SuiviClasse.MoyenneDeBornees | frontend/src/pages/SuiviClasse.js:118-119 | a shown value that is the mean of values in [lo, hi] (the value times their number is their sum) lies in [lo, hi] |
| SuiviClasse.MoyenneBornee | frontend/src/pages/SuiviClasse.js:118-119 | with every average within [lo, hi], the yearly average is within [lo, hi] |
| SuiviClasse.MoyenneSurDix | frontend/src/pages/SuiviClasse.js:118-119 | averages on the /10 scale give a yearly average on the /10 scale |
| SuiviClasse.ExempleAbsence | frontend/src/pages/SuiviClasse.js:117-119 | 7.82, absent, 8.82 gives 8.32: the divisor is 2, not 3 |
| SuiviClasse.Cellules | frontend/src/pages/SuiviClasse.js:127-138 | one cell per slot in order, a dash exactly for an empty slot, otherwise the note's average and rank |
| SuiviClasse.Rendre | frontend/src/pages/SuiviClasse.js:112-143 | a row is the student's, has one cell per slot, and shows a dash as yearly average exactly when no slot holds a note |
| SuiviClasse.CellulesSousEntetes | frontend/src/pages/SuiviClasse.js:127-138 | every row of the tracking matrix has exactly one cell per composition header, and cell k is a dash exactly when the student has no note for composition k |

## Left out

- Server: the HTTP layer, the MongoDB driver, response models and status codes are not modelled. `HTTPException` is never imported (lines 1-11), so each not-found branch of the routes (the `raise` at lines 145, 155, 163, 191, 201, 209, 235, 245, 253, 302, 323 and 336) raises a `NameError` and the client gets an HTTP 500, not a 404. The model answers `NonTrouve` there and, like the source, changes nothing. Ids are `uuid4` strings in the source; here the caller passes a fresh id.
- Server: the routes that create, read, update or list classes and students, and that create, read or update compositions, are outside this core (`creer_classe`, `obtenir_eleve`, `modifier_composition` and the like). The `Store` constructor stands for any store their calls could have built.
- Server: requests are not interleaved. Each route is one atomic step, while the source awaits the database between its steps; concurrent requests could interleave `calculer_classement` loops.
- Server.Store.CalculerClassement: `to_list(1000)` caps every query at 1000 documents, and the model has no cap. A composition with more than 1000 notes would be ranked only partly by the source.
- Grading.Moyenne: scores are floats in the source and exact hundredths here. Float sums such as 0.1 + 0.2 and the binary rounding of `round(x, 2)` are not modelled.
- Server.ObtenirStatistiques: the pass rate is in hundredths of a percent, rounded as Python's `round` rounds the exact quotient. Float error is not modelled.
- Server.TrieesParNumero: stability (equal numbers in store order) comes from the sort of positions and is not stated on the resulting values.
- Server.ListerNotes: the same holds for equal ranks.
- Server.ListerCompositions: it is a call of `TrieesParNumero`, so it too does not state that compositions with equal numbers stay in store order, although Python's stable `sorted` keeps them so and nothing makes `numero` unique.
- SaisieNotes.ChangerNote: `parseFloat` of text that is not a number gives NaN in the source. The model's typed value is the empty field or a number.
- SaisieNotes.Enregistrer: the success and error toasts are not modelled. The outcome of the network call is the parameter `reseauOk`, which covers a server rejection of a partial entry.
- SaisieNotes.ChargerDonnees: only the building of the two maps is modelled. The requests for the composition, the class and the students, and the error toast, are left out: they only fill display state.
- SuiviClasse.MoyenneGenerale: the result is the exact quotient. The float sum and its `toFixed(2)` display are not modelled.
- SuiviClasse.Cellules: a cell shows the average and rank. The `toFixed(2)` formatting is not modelled.
- The rest of both pages (layout, navigation, loading state) and the context pages (class management, report sheet, home) are not part of this model.
