/** The grading backend: four document collections (classes, students,
    compositions, notes), the re-ranking of a composition's notes, the
    statistics and tracking queries, and the cascade deletes.

    Each collection is a sequence in store order, the order in which `find`
    returns documents and `find_one`, `update_one` and `delete_one` reach the
    first match. Each request is one atomic step. */
module Server {
  import opened Seqs
  import opened Grading
  import StableSort

  type Id = string

  datatype Classe = Classe(id: Id, nom: string, niveau: string, anneeScolaire: string, enseignant: string)

  datatype Eleve = Eleve(id: Id, nom: string, prenom: string, classeId: Id, dateNaissance: Option<string>)

  datatype Composition = Composition(id: Id, classeId: Id, numero: int, date: string, titre: string, mois: string)

  /** A stored note: the four scores and the fields derived from them. */
  datatype Note = Note(id: Id, compositionId: Id, eleveId: Id, scores: Scores,
                       total: int, moyenne: int, rang: int, observation: Observation)

  /** The body of a note creation request. */
  datatype NoteCreate = NoteCreate(compositionId: Id, eleveId: Id, scores: Scores)

  datatype Statistiques = Statistiques(effectif: nat, presents: nat, absents: nat, admis: nat,
                                       pourcentageReussite: int)

  /** One row of the class tracking matrix: a student and one slot per composition. */
  datatype LigneSuivi = LigneSuivi(eleve: Eleve, notes: seq<Option<Note>>)

  /** One entry of a student's tracking list. */
  datatype EntreeSuivi = EntreeSuivi(composition: Composition, note: Option<Note>)

  /** A route's answer: a value, or the "not found" error. */
  datatype Reponse<T> = Ok(value: T) | NonTrouve

  /** The placeholder rank of a note before its composition is re-ranked. */
  const RangProvisoire: int := 999

  const ClasseId := (c: Classe) => c.id
  const EleveId := (e: Eleve) => e.id
  const CompositionId := (c: Composition) => c.id
  const NoteId := (n: Note) => n.id

  // ---------- query filters ----------

  function AvecIdClasse(id: Id): Classe -> bool { (c: Classe) => c.id == id }
  function AvecIdEleve(id: Id): Eleve -> bool { (e: Eleve) => e.id == id }
  function AvecIdComposition(id: Id): Composition -> bool { (c: Composition) => c.id == id }
  function AvecIdNote(id: Id): Note -> bool { (n: Note) => n.id == id }

  function ElevesDeClasse(classeId: Id): Eleve -> bool { (e: Eleve) => e.classeId == classeId }
  function HorsClasseEleve(classeId: Id): Eleve -> bool { (e: Eleve) => e.classeId != classeId }
  function CompositionsDeClasse(classeId: Id): Composition -> bool { (c: Composition) => c.classeId == classeId }
  function HorsClasseComposition(classeId: Id): Composition -> bool { (c: Composition) => c.classeId != classeId }
  function NotesDeComposition(compositionId: Id): Note -> bool { (n: Note) => n.compositionId == compositionId }
  function HorsComposition(compositionId: Id): Note -> bool { (n: Note) => n.compositionId != compositionId }
  function HorsCompositions(ids: set<Id>): Note -> bool { (n: Note) => n.compositionId !in ids }
  function HorsEleve(eleveId: Id): Note -> bool { (n: Note) => n.eleveId != eleveId }
  function NoteDe(compositionId: Id, eleveId: Id): Note -> bool {
    (n: Note) => n.compositionId == compositionId && n.eleveId == eleveId
  }
  function Toutes<T>(): T -> bool { (x: T) => true }

  /** An optional query parameter filters only when it is given and non-empty. */
  predicate Filtre(p: Option<Id>) { p.Some? && p.value != "" }

  /** The notes of one composition, in store order. */
  function NotesDe(notes: seq<Note>, compositionId: Id): seq<Note> {
    Filter(notes, NotesDeComposition(compositionId))
  }

  // ---------- per-record computation (creer_note, modifier_note) ----------

  /** The derived fields agree with the scores. */
  predicate Coherente(n: Note) {
    n.total == Total(n.scores) && n.moyenne == Moyenne(n.total)
    && n.observation == CalculerObservation(n.moyenne)
  }

  /** The document `creer_note` inserts: placeholder rank 999, derived fields
      computed from the scores, whatever their range. */
  function NouvelleNote(id: Id, input: NoteCreate): (n: Note)
    ensures Coherente(n) && n.rang == RangProvisoire
    ensures n.id == id && n.compositionId == input.compositionId
    ensures n.eleveId == input.eleveId && n.scores == input.scores
  {
    var total := Total(input.scores);
    var moyenne := Moyenne(total);
    Note(id, input.compositionId, input.eleveId, input.scores, total, moyenne,
         RangProvisoire, CalculerObservation(moyenne))
  }

  /** The `$set` of `modifier_note`: new scores and derived fields; the id,
      composition, student and rank are kept. */
  function AvecScores(n: Note, s: Scores): (r: Note)
    ensures Coherente(r) && r.scores == s
    ensures r.id == n.id && r.compositionId == n.compositionId
    ensures r.eleveId == n.eleveId && r.rang == n.rang
  {
    var total := Total(s);
    var moyenne := Moyenne(total);
    n.(scores := s, total := total, moyenne := moyenne, observation := CalculerObservation(moyenne))
  }

  // ---------- ranking (calculer_classement) ----------

  /** The sort key of `sorted(notes, key=total, reverse=True)`, per store position.
      Its ensures only hands the verifier the length and the element-wise values. */
  function TotalKeys(notes: seq<Note>): (keys: seq<int>)
    ensures |keys| == |notes| && forall i :: 0 <= i < |notes| ==> keys[i] == -notes[i].total
  {
    seq(|notes|, i requires 0 <= i < |notes| => -notes[i].total)
  }

  /** The store positions of the notes of composition `c`, in the order of
      the stable descending sort by total. */
  function Classement(notes: seq<Note>, c: Id): (order: seq<nat>)
    ensures multiset(order) == multiset(Positions(notes, NotesDeComposition(c)))
    ensures Below(TotalKeys(notes), order)
    ensures StableSort.Ordered(TotalKeys(notes), order)
  {
    StableSort.Sort(TotalKeys(notes), Positions(notes, NotesDeComposition(c)))
  }

  /** The notes after `calculer_classement(c)`: the note at the k-th place of
      the sorted list gets rank k (from 1), every other note is kept. */
  function Reranked(notes: seq<Note>, c: Id): seq<Note> {
    var order := Classement(notes, c);
    seq(|notes|, i requires 0 <= i < |notes| =>
      if notes[i].compositionId == c then notes[i].(rang := 1 + IndexOf(order, i)) else notes[i])
  }

  /** A note of composition `c` has a place in the sorted list. */
  lemma InClassement(notes: seq<Note>, c: Id, i: nat)
    requires i < |notes| && notes[i].compositionId == c
    ensures IndexOf(Classement(notes, c), i) < |Classement(notes, c)|
  {
    var ps := Positions(notes, NotesDeComposition(c));
    assert i in ps;
    assert i in multiset(ps);
    assert i in multiset(Classement(notes, c));
  }

  /** The sorted list holds as many positions as the composition has notes. */
  lemma ClassementSize(notes: seq<Note>, c: Id)
    ensures |Classement(notes, c)| == |NotesDe(notes, c)|
  {
    var ps := Positions(notes, NotesDeComposition(c));
    assert |multiset(Classement(notes, c))| == |multiset(ps)|;
    PositionsCount(notes, NotesDeComposition(c));
  }

  /** In the sorted list, every place holds a different note of composition `c`. */
  lemma ClassementPlaces(notes: seq<Note>, c: Id)
    ensures StableSort.Distinct(Classement(notes, c))
    ensures forall k :: 0 <= k < |Classement(notes, c)| ==>
              Classement(notes, c)[k] < |notes| && notes[Classement(notes, c)[k]].compositionId == c
              && IndexOf(Classement(notes, c), Classement(notes, c)[k]) == k
  {
    var order := Classement(notes, c);
    var ps := Positions(notes, NotesDeComposition(c));
    StableSort.OrderedDistinct(TotalKeys(notes), order);
    forall k | 0 <= k < |order|
      ensures order[k] < |notes| && notes[order[k]].compositionId == c
      ensures IndexOf(order, order[k]) == k
    {
      assert order[k] in multiset(order);
      assert order[k] in multiset(ps);
      var j :| 0 <= j < |ps| && ps[j] == order[k];
    }
  }

  /** Re-ranking changes only the `rang` field, and only on the notes of `c`. */
  lemma RerankedOnlyRang(notes: seq<Note>, c: Id)
    ensures |Reranked(notes, c)| == |notes|
    ensures forall i :: 0 <= i < |notes| ==>
              Reranked(notes, c)[i] == notes[i].(rang := Reranked(notes, c)[i].rang)
    ensures forall i :: 0 <= i < |notes| && notes[i].compositionId != c ==>
              Reranked(notes, c)[i] == notes[i]
  {
  }

  /** The ranks of the notes of `c` lie in 1..n, n being the number of those notes. */
  lemma RerankedRange(notes: seq<Note>, c: Id)
    ensures forall i :: 0 <= i < |notes| && notes[i].compositionId == c ==>
              1 <= Reranked(notes, c)[i].rang <= |NotesDe(notes, c)|
  {
    ClassementSize(notes, c);
    forall i | 0 <= i < |notes| && notes[i].compositionId == c
      ensures 1 <= Reranked(notes, c)[i].rang <= |Classement(notes, c)|
    {
      InClassement(notes, c, i);
    }
  }

  /** No two notes of `c` share a rank, even with equal totals. */
  lemma RerankedDistinct(notes: seq<Note>, c: Id)
    ensures forall i, j ::
              (0 <= i < |notes| && 0 <= j < |notes| && i != j &&
               notes[i].compositionId == c && notes[j].compositionId == c) ==>
              Reranked(notes, c)[i].rang != Reranked(notes, c)[j].rang
  {
    forall i, j | 0 <= i < |notes| && 0 <= j < |notes| && i != j &&
                  notes[i].compositionId == c && notes[j].compositionId == c
      ensures Reranked(notes, c)[i].rang != Reranked(notes, c)[j].rang
    {
      InClassement(notes, c, i);
      InClassement(notes, c, j);
    }
  }

  /** Every rank of 1..n is taken: rank k goes to the note at the k-th place
      of the sorted list, a note of `c`. Together with RerankedRange and
      RerankedDistinct, the ranks of `c` are a permutation of 1..n. */
  lemma RerankedPlaces(notes: seq<Note>, c: Id)
    ensures |Classement(notes, c)| == |NotesDe(notes, c)|
    ensures forall k :: 0 <= k < |Classement(notes, c)| ==>
              Classement(notes, c)[k] < |notes| && notes[Classement(notes, c)[k]].compositionId == c &&
              Reranked(notes, c)[Classement(notes, c)[k]].rang == k + 1
  {
    ClassementSize(notes, c);
    ClassementPlaces(notes, c);
  }

  /** A larger total never gets a larger rank, and equal totals are ranked in
      store order (the sort is stable), so ties get distinct ranks. */
  lemma RerankedOrder(notes: seq<Note>, c: Id, i: nat, j: nat)
    requires i < |notes| && j < |notes|
    requires notes[i].compositionId == c && notes[j].compositionId == c
    requires notes[i].total > notes[j].total || (notes[i].total == notes[j].total && i < j)
    ensures Reranked(notes, c)[i].rang < Reranked(notes, c)[j].rang
  {
    var keys, order := TotalKeys(notes), Classement(notes, c);
    InClassement(notes, c, i);
    InClassement(notes, c, j);
    var a, b := IndexOf(order, i), IndexOf(order, j);
    assert StableSort.Before(keys, order[a], order[b]);
    StableSort.OrderedIndex(keys, order, a, b);
  }

  // ---------- statistics (obtenir_statistiques) ----------

  /** The number of notes whose average is at least 5.00, counted one by one. */
  function CompteAdmis(notes: seq<Note>): (k: nat)
    ensures k <= |notes|
  {
    if |notes| == 0 then 0
    else CompteAdmis(notes[..|notes| - 1]) + (if notes[|notes| - 1].moyenne >= 500 then 1 else 0)
  }

  /** The number of notes whose band is not D. */
  function CompteNonD(notes: seq<Note>): nat {
    if |notes| == 0 then 0
    else CompteNonD(notes[..|notes| - 1]) + (if notes[|notes| - 1].observation != D then 1 else 0)
  }

  /** On coherent notes, counting averages of at least 5.00 is counting bands other than D. */
  lemma {:induction false} AdmisAreNotD(notes: seq<Note>)
    requires forall k :: 0 <= k < |notes| ==> Coherente(notes[k])
    ensures CompteAdmis(notes) == CompteNonD(notes)
  {
    if |notes| > 0 {
      AdmisAreNotD(notes[..|notes| - 1]);
      AdmisIffNotD(notes[|notes| - 1].moyenne);
    }
  }

  /** The statistics of composition `c`, counted over its notes (in hundredths
      of a percent for the pass rate). */
  function ObtenirStatistiques(notes: seq<Note>, c: Id): (s: Statistiques)
    ensures s.effectif == s.presents == |NotesDe(notes, c)|
    ensures s.absents == 0
    ensures s.admis == CompteAdmis(NotesDe(notes, c)) && s.admis <= s.effectif
    ensures s.effectif == 0 ==> s.pourcentageReussite == 0
    ensures s.effectif > 0 ==>
              -(s.effectif as int) <= 2 * (10000 * s.admis - s.effectif * s.pourcentageReussite) <= s.effectif
    ensures s.effectif > 0 ==>
              var e := 2 * (10000 * s.admis - s.effectif * s.pourcentageReussite);
              (e == s.effectif || e == -(s.effectif as int)) ==> s.pourcentageReussite % 2 == 0
    ensures 0 <= s.pourcentageReussite <= 10000
  {
    var ns := NotesDe(notes, c);
    var effectif := |ns|;
    var admis := CompteAdmis(ns);
    var pourcentage := if effectif > 0 then RoundDiv(10000 * admis, effectif) else 0;
    assert effectif > 0 ==> 0 <= pourcentage <= 10000 by {
      if effectif > 0 {
        assert 10000 * admis <= 10000 * effectif;
        RoundDivBounds(10000 * admis, effectif, 10000);
      }
    }
    Statistiques(effectif, effectif, 0, admis, pourcentage)
  }

  // ---------- ordered listings ----------

  /** The sort key of `sorted(..., key=numero)`, per store position.
      Its ensures only hands the verifier the length and the element-wise values. */
  function NumeroKeys(compositions: seq<Composition>): (keys: seq<int>)
    ensures |keys| == |compositions|
    ensures forall i :: 0 <= i < |compositions| ==> keys[i] == compositions[i].numero
  {
    seq(|compositions|, i requires 0 <= i < |compositions| => compositions[i].numero)
  }

  /** The sort key of `sorted(..., key=rang)`, per store position.
      Its ensures only hands the verifier the length and the element-wise values. */
  function RangKeys(notes: seq<Note>): (keys: seq<int>)
    ensures |keys| == |notes| && forall i :: 0 <= i < |notes| ==> keys[i] == notes[i].rang
  {
    seq(|notes|, i requires 0 <= i < |notes| => notes[i].rang)
  }

  /** `sorted(find(query), key=numero)`: the compositions that `keep` selects,
      a permutation of the query result, ascending by number (equal numbers
      stay in store order, by the stable sort of their positions). */
  function TrieesParNumero(compositions: seq<Composition>, keep: Composition -> bool): (r: seq<Composition>)
    ensures multiset(r) == multiset(Filter(compositions, keep))
    ensures forall a, b :: 0 <= a < b < |r| ==> r[a].numero <= r[b].numero
  {
    var keys, ps := NumeroKeys(compositions), Positions(compositions, keep);
    var order := StableSort.Sort(keys, ps);
    PickPositions(compositions, keep);
    PickPermutation(compositions, order, ps);
    var r := Pick(compositions, order);
    assert forall a, b :: 0 <= a < b < |r| ==> StableSort.Before(keys, order[a], order[b]);
    r
  }

  /** `lister_compositions`: all compositions, or those of one class when the
      class parameter is given and not empty, as a permutation sorted by number. */
  function ListerCompositions(compositions: seq<Composition>, classeId: Option<Id>): (r: seq<Composition>)
    ensures Filtre(classeId) ==>
              multiset(r) == multiset(Filter(compositions, CompositionsDeClasse(classeId.value)))
    ensures !Filtre(classeId) ==> multiset(r) == multiset(compositions)
    ensures forall a, b :: 0 <= a < b < |r| ==> r[a].numero <= r[b].numero
  {
    FilterAll(compositions, Toutes());
    TrieesParNumero(compositions, if Filtre(classeId) then CompositionsDeClasse(classeId.value) else Toutes())
  }

  /** The notes selected by the optional composition and student parameters. */
  function RequeteNotes(compositionId: Option<Id>, eleveId: Option<Id>): Note -> bool {
    (n: Note) => (Filtre(compositionId) ==> n.compositionId == compositionId.value)
         && (Filtre(eleveId) ==> n.eleveId == eleveId.value)
  }

  /** `lister_notes`: a permutation of the selected notes, sorted by
      ascending rank (equal ranks stay in store order). */
  function ListerNotes(notes: seq<Note>, compositionId: Option<Id>, eleveId: Option<Id>): (r: seq<Note>)
    ensures multiset(r) == multiset(Filter(notes, RequeteNotes(compositionId, eleveId)))
    ensures forall a, b :: 0 <= a < b < |r| ==> r[a].rang <= r[b].rang
  {
    var keep := RequeteNotes(compositionId, eleveId);
    var keys, ps := RangKeys(notes), Positions(notes, keep);
    var order := StableSort.Sort(keys, ps);
    PickPositions(notes, keep);
    PickPermutation(notes, order, ps);
    var r := Pick(notes, order);
    assert forall a, b :: 0 <= a < b < |r| ==> StableSort.Before(keys, order[a], order[b]);
    r
  }

  // ---------- the store ----------

  /** Ids are unique in every collection and every note is coherent. */
  ghost predicate Coherent(classes: seq<Classe>, eleves: seq<Eleve>,
                           compositions: seq<Composition>, notes: seq<Note>) {
    && UniqueBy(classes, ClasseId) && UniqueBy(eleves, EleveId)
    && UniqueBy(compositions, CompositionId) && UniqueBy(notes, NoteId)
    && forall k :: 0 <= k < |notes| ==> Coherente(notes[k])
  }

  /** The ids of a sequence of compositions. Its ensures only hands the
      verifier both directions of membership. */
  function IdsDe(cs: seq<Composition>): (ids: set<Id>)
    ensures forall k :: 0 <= k < |cs| ==> cs[k].id in ids
    ensures forall id :: id in ids ==> exists k :: 0 <= k < |cs| && cs[k].id == id
  {
    set k | 0 <= k < |cs| :: cs[k].id
  }

  class Store {
    var classes: seq<Classe>
    var eleves: seq<Eleve>
    var compositions: seq<Composition>
    var notes: seq<Note>

    ghost predicate Valid()
      reads this
    {
      Coherent(classes, eleves, compositions, notes)
    }

    /** A store holding a snapshot of the four collections. */
    constructor (classes: seq<Classe>, eleves: seq<Eleve>, compositions: seq<Composition>, notes: seq<Note>)
      requires Coherent(classes, eleves, compositions, notes)
      ensures Valid()
      ensures this.classes == classes && this.eleves == eleves
      ensures this.compositions == compositions && this.notes == notes
    {
      this.classes := classes;
      this.eleves := eleves;
      this.compositions := compositions;
      this.notes := notes;
    }

    /** `calculer_classement`: read the notes of `c`, sort them by total
        descending, and give the k-th one rank k. */
    method CalculerClassement(c: Id)
      requires Valid()
      modifies this`notes
      ensures Valid()
      ensures notes == Reranked(old(notes), c)
      ensures classes == old(classes) && eleves == old(eleves) && compositions == old(compositions)
    {
      var lues := notes;
      var triees := Classement(lues, c);
      ClassementPlaces(lues, c);
      var idx := 0;
      while idx < |triees|
        invariant 0 <= idx <= |triees|
        invariant notes == Partiel(lues, triees, idx)
      {
        var note := lues[triees[idx]];
        RangSuivant(lues, triees, idx);
        var j := FirstIndex(notes, AvecIdNote(note.id));
        notes := notes[j.value := notes[j.value].(rang := idx + 1)];
        idx := idx + 1;
      }
      PartielDone(lues, c);
      RerankedCoherent(classes, eleves, compositions, lues, c);
    }

    /** `creer_note`: insert the note with rank 999, re-rank its composition
        and return the stored note, whose rank is now in 1..n. */
    method CreerNote(input: NoteCreate, id: Id) returns (r: Note)
      requires Valid()
      requires forall k :: 0 <= k < |notes| ==> notes[k].id != id
      modifies this
      ensures Valid()
      ensures notes == Reranked(old(notes) + [NouvelleNote(id, input)], input.compositionId)
      ensures r == notes[|old(notes)|]
      ensures r.id == id && r.scores == input.scores && Coherente(r)
      ensures 1 <= r.rang <= |NotesDe(notes, input.compositionId)|
      ensures classes == old(classes) && eleves == old(eleves) && compositions == old(compositions)
    {
      var nouvelle := NouvelleNote(id, input);
      notes := notes + [nouvelle];
      CalculerClassement(input.compositionId);
      ghost var avant := old(notes) + [nouvelle];
      RerankedOnlyRang(avant, input.compositionId);
      RerankedRange(avant, input.compositionId);
      FirstIndexUnique(notes, NoteId, AvecIdNote(id), |avant| - 1);
      var j := FirstIndex(notes, AvecIdNote(id));
      r := notes[j.value];
      NotesDeRanks(avant, input.compositionId);
    }

    /** `modifier_note`: set the new scores and derived fields, then re-rank
        the note's composition; an unknown id is an error that changes nothing. */
    method ModifierNote(id: Id, update: Scores) returns (r: Reponse<Note>)
      requires Valid()
      modifies this
      ensures Valid()
      ensures classes == old(classes) && eleves == old(eleves) && compositions == old(compositions)
      ensures FirstIndex(old(notes), AvecIdNote(id)).None? ==> r == NonTrouve && notes == old(notes)
      ensures FirstIndex(old(notes), AvecIdNote(id)).Some? ==>
                var i := FirstIndex(old(notes), AvecIdNote(id)).value;
                && notes == Reranked(old(notes)[i := AvecScores(old(notes)[i], update)], old(notes)[i].compositionId)
                && r == Ok(notes[i])
                && 1 <= notes[i].rang <= |NotesDe(notes, old(notes)[i].compositionId)|
    {
      var j := FirstIndex(notes, AvecIdNote(id));
      if j.None? {
        return NonTrouve;
      }
      var i := j.value;
      ModificationCoherente(classes, eleves, compositions, notes, i, update);
      notes := notes[i := AvecScores(notes[i], update)];
      var c := notes[i].compositionId;
      ghost var avant := notes;
      CalculerClassement(c);
      RerankedOnlyRang(avant, c);
      RerankedRange(avant, c);
      NotesDeRanks(avant, c);
      r := Ok(notes[i]);
    }

    /** `supprimer_note`: delete the note and re-rank its composition; an
        unknown id is an error that changes nothing. */
    method SupprimerNote(id: Id) returns (r: Reponse<()>)
      requires Valid()
      modifies this
      ensures Valid()
      ensures classes == old(classes) && eleves == old(eleves) && compositions == old(compositions)
      ensures FirstIndex(old(notes), AvecIdNote(id)).None? ==> r == NonTrouve && notes == old(notes)
      ensures FirstIndex(old(notes), AvecIdNote(id)).Some? ==>
                var i := FirstIndex(old(notes), AvecIdNote(id)).value;
                && r == Ok(())
                && notes == Reranked(old(notes)[..i] + old(notes)[i + 1..], old(notes)[i].compositionId)
                && forall k :: 0 <= k < |notes| ==> notes[k].id != id
    {
      var j := FirstIndex(notes, AvecIdNote(id));
      if j.None? {
        return NonTrouve;
      }
      var c := notes[j.value].compositionId;
      SuppressionCoherente(classes, eleves, compositions, notes, id);
      notes := RemoveFirst(notes, AvecIdNote(id));
      ghost var avant := notes;
      CalculerClassement(c);
      RerankedOnlyRang(avant, c);
      r := Ok(());
    }

    /** `supprimer_classe`: delete the class, its students, and its
        compositions with all their notes; an unknown id changes nothing. */
    method SupprimerClasse(id: Id) returns (r: Reponse<()>)
      requires Valid()
      modifies this
      ensures Valid()
      ensures FirstIndex(old(classes), AvecIdClasse(id)).None? ==>
                r == NonTrouve && classes == old(classes) && eleves == old(eleves)
                && compositions == old(compositions) && notes == old(notes)
      ensures FirstIndex(old(classes), AvecIdClasse(id)).Some? ==>
                && r == Ok(())
                && classes == RemoveFirst(old(classes), AvecIdClasse(id))
                && eleves == Filter(old(eleves), HorsClasseEleve(id))
                && compositions == Filter(old(compositions), HorsClasseComposition(id))
                && notes == Filter(old(notes), HorsCompositions(IdsDe(Filter(old(compositions), CompositionsDeClasse(id)))))
    {
      if FirstIndex(classes, AvecIdClasse(id)).None? {
        return NonTrouve;
      }
      RemoveFirstUnique(classes, AvecIdClasse(id), ClasseId);
      classes := RemoveFirst(classes, AvecIdClasse(id));
      FilterUnique(eleves, HorsClasseEleve(id), EleveId);
      eleves := Filter(eleves, HorsClasseEleve(id));
      var comps := Filter(compositions, CompositionsDeClasse(id));
      SupprimerNotesDe(comps);
      FilterUnique(compositions, HorsClasseComposition(id), CompositionId);
      compositions := Filter(compositions, HorsClasseComposition(id));
      r := Ok(());
    }

    /** The loop of `supprimer_classe` that deletes, composition after
        composition, the notes of the compositions `comps`. */
    method SupprimerNotesDe(comps: seq<Composition>)
      requires Valid()
      modifies this`notes
      ensures Valid()
      ensures notes == Filter(old(notes), HorsCompositions(IdsDe(comps)))
    {
      RestantesDebut(notes, comps);
      var k := 0;
      while k < |comps|
        invariant 0 <= k <= |comps|
        invariant notes == Restantes(old(notes), comps, k)
        invariant Valid()
      {
        SuppressionEtape(classes, eleves, compositions, old(notes), notes, comps, k);
        notes := Filter(notes, HorsComposition(comps[k].id));
        k := k + 1;
      }
      RestantesFin(old(notes), comps);
    }

    /** `supprimer_eleve`: delete the student and the student's notes; the
        remaining notes keep their ranks (no re-ranking). */
    method SupprimerEleve(id: Id) returns (r: Reponse<()>)
      requires Valid()
      modifies this
      ensures Valid()
      ensures classes == old(classes) && compositions == old(compositions)
      ensures FirstIndex(old(eleves), AvecIdEleve(id)).None? ==>
                r == NonTrouve && eleves == old(eleves) && notes == old(notes)
      ensures FirstIndex(old(eleves), AvecIdEleve(id)).Some? ==>
                && r == Ok(())
                && eleves == RemoveFirst(old(eleves), AvecIdEleve(id))
                && notes == Filter(old(notes), HorsEleve(id))
    {
      if FirstIndex(eleves, AvecIdEleve(id)).None? {
        return NonTrouve;
      }
      RemoveFirstUnique(eleves, AvecIdEleve(id), EleveId);
      eleves := RemoveFirst(eleves, AvecIdEleve(id));
      FilterUnique(notes, HorsEleve(id), NoteId);
      notes := Filter(notes, HorsEleve(id));
      r := Ok(());
    }

    /** `supprimer_composition`: delete the composition and its notes. */
    method SupprimerComposition(id: Id) returns (r: Reponse<()>)
      requires Valid()
      modifies this
      ensures Valid()
      ensures classes == old(classes) && eleves == old(eleves)
      ensures FirstIndex(old(compositions), AvecIdComposition(id)).None? ==>
                r == NonTrouve && compositions == old(compositions) && notes == old(notes)
      ensures FirstIndex(old(compositions), AvecIdComposition(id)).Some? ==>
                && r == Ok(())
                && compositions == RemoveFirst(old(compositions), AvecIdComposition(id))
                && notes == Filter(old(notes), HorsComposition(id))
    {
      if FirstIndex(compositions, AvecIdComposition(id)).None? {
        return NonTrouve;
      }
      RemoveFirstUnique(compositions, AvecIdComposition(id), CompositionId);
      compositions := RemoveFirst(compositions, AvecIdComposition(id));
      FilterUnique(notes, HorsComposition(id), NoteId);
      notes := Filter(notes, HorsComposition(id));
      r := Ok(());
    }

    /** `obtenir_suivi_eleve`: for each composition of the class by number,
        the student's first note for it, or nothing. */
    method ObtenirSuiviEleve(classeId: Id, eleveId: Id) returns (suivi: seq<EntreeSuivi>)
      ensures var compos := TrieesParNumero(compositions, CompositionsDeClasse(classeId));
        && |suivi| == |compos|
        && forall k :: 0 <= k < |compos| ==>
             suivi[k] == EntreeSuivi(compos[k], FindFirst(notes, NoteDe(compos[k].id, eleveId)))
    {
      var compos := TrieesParNumero(compositions, CompositionsDeClasse(classeId));
      suivi := [];
      var k := 0;
      while k < |compos|
        invariant 0 <= k <= |compos|
        invariant |suivi| == k
        invariant forall a :: 0 <= a < k ==>
                    suivi[a] == EntreeSuivi(compos[a], FindFirst(notes, NoteDe(compos[a].id, eleveId)))
      {
        var note := FindFirst(notes, NoteDe(compos[k].id, eleveId));
        suivi := suivi + [EntreeSuivi(compos[k], note)];
        k := k + 1;
      }
    }

    /** `obtenir_suivi_classe`: the class's compositions by number, and one row
        per student of the class in store order, with one slot per composition
        holding the student's first note for it, or nothing. */
    method ObtenirSuiviClasse(classeId: Id) returns (compos: seq<Composition>, suivi: seq<LigneSuivi>)
      ensures compos == TrieesParNumero(compositions, CompositionsDeClasse(classeId))
      ensures |suivi| == |Filter(eleves, ElevesDeClasse(classeId))|
      ensures forall i :: 0 <= i < |suivi| ==>
                suivi[i] == LigneSuivi(Filter(eleves, ElevesDeClasse(classeId))[i],
                                       NotesEleve(notes, compos, Filter(eleves, ElevesDeClasse(classeId))[i].id))
    {
      var lesEleves := Filter(eleves, ElevesDeClasse(classeId));
      compos := TrieesParNumero(compositions, CompositionsDeClasse(classeId));
      suivi := [];
      var i := 0;
      while i < |lesEleves|
        invariant 0 <= i <= |lesEleves|
        invariant |suivi| == i
        invariant forall a :: 0 <= a < i ==> suivi[a] == LigneSuivi(lesEleves[a], NotesEleve(notes, compos, lesEleves[a].id))
      {
        var eleve := lesEleves[i];
        var notesEleve := NotesDeLEleve(compos, eleve.id);
        suivi := suivi + [LigneSuivi(eleve, notesEleve)];
        i := i + 1;
      }
    }

    /** The inner loop of `obtenir_suivi_classe`: for each composition in
        order, the student's first note for it, or nothing. */
    method NotesDeLEleve(compos: seq<Composition>, eleveId: Id) returns (notesEleve: seq<Option<Note>>)
      ensures notesEleve == NotesEleve(notes, compos, eleveId)
    {
      notesEleve := [];
      var k := 0;
      while k < |compos|
        invariant 0 <= k <= |compos|
        invariant |notesEleve| == k
        invariant forall b :: 0 <= b < k ==> notesEleve[b] == FindFirst(notes, NoteDe(compos[b].id, eleveId))
      {
        notesEleve := notesEleve + [FindFirst(notes, NoteDe(compos[k].id, eleveId))];
        k := k + 1;
      }
    }
  }

  /** One row of the tracking matrix: for each composition, the student's
      first note for it, or nothing. */
  function NotesEleve(notes: seq<Note>, compos: seq<Composition>, eleveId: Id): (r: seq<Option<Note>>)
    ensures |r| == |compos|
    ensures forall k :: 0 <= k < |compos| ==> r[k] == FindFirst(notes, NoteDe(compos[k].id, eleveId))
  {
    seq(|compos|, k requires 0 <= k < |compos| => FindFirst(notes, NoteDe(compos[k].id, eleveId)))
  }

  /** The notes while `calculer_classement` runs: the notes at the first
      `done` places of `order` already have their new rank. */
  function Partiel(lues: seq<Note>, order: seq<nat>, done: nat): (r: seq<Note>)
    ensures |r| == |lues|
    ensures forall i :: 0 <= i < |lues| ==> r[i] == lues[i].(rang := r[i].rang)
  {
    seq(|lues|, i requires 0 <= i < |lues| =>
      if IndexOf(order, i) < done then lues[i].(rang := 1 + IndexOf(order, i)) else lues[i])
  }

  /** One `update_one` moves the partial state one place further. */
  lemma PartielStep(lues: seq<Note>, order: seq<nat>, done: nat)
    requires done < |order| && order[done] < |lues| && IndexOf(order, order[done]) == done
    ensures Partiel(lues, order, done)[order[done] := Partiel(lues, order, done)[order[done]].(rang := done + 1)]
            == Partiel(lues, order, done + 1)
  {
    var p, q := Partiel(lues, order, done), Partiel(lues, order, done + 1);
    var u := p[order[done] := p[order[done]].(rang := done + 1)];
    forall i | 0 <= i < |lues| ensures u[i] == q[i] {
      if i != order[done] {
        assert IndexOf(order, i) != done;
      }
    }
  }

  /** A note of another composition has no place in the sorted list of `c`. */
  lemma NotInClassement(notes: seq<Note>, c: Id, i: nat)
    requires i < |notes| && notes[i].compositionId != c
    ensures IndexOf(Classement(notes, c), i) == |Classement(notes, c)|
  {
    var ps := Positions(notes, NotesDeComposition(c));
    assert i !in ps;
    assert i !in multiset(ps);
    assert i !in multiset(Classement(notes, c));
  }

  /** Once every place is done, the partial state is the re-ranked one. */
  lemma PartielDone(lues: seq<Note>, c: Id)
    ensures Partiel(lues, Classement(lues, c), |Classement(lues, c)|) == Reranked(lues, c)
  {
    var order := Classement(lues, c);
    forall i | 0 <= i < |lues|
      ensures Partiel(lues, order, |order|)[i] == Reranked(lues, c)[i]
    {
      if lues[i].compositionId == c {
        InClassement(lues, c, i);
      } else {
        NotInClassement(lues, c, i);
      }
    }
  }

  /** Changing only the ranks of the notes keeps the store coherent. */
  lemma RangsKept(classes: seq<Classe>, eleves: seq<Eleve>, compositions: seq<Composition>,
                  a: seq<Note>, b: seq<Note>)
    requires Coherent(classes, eleves, compositions, a) && |a| == |b|
    requires forall i :: 0 <= i < |a| ==> b[i] == a[i].(rang := b[i].rang)
    ensures Coherent(classes, eleves, compositions, b)
  {
    IdsKept(a, b);
    forall k | 0 <= k < |b| ensures Coherente(b[k]) {
      assert Coherente(a[k]);
    }
  }

  /** Notes that differ only in their ranks keep unique ids. */
  lemma IdsKept(a: seq<Note>, b: seq<Note>)
    requires UniqueBy(a, NoteId) && |a| == |b|
    requires forall i :: 0 <= i < |a| ==> b[i] == a[i].(rang := b[i].rang)
    ensures UniqueBy(b, NoteId)
  {
    forall i, j | 0 <= i < j < |b| ensures NoteId(b[i]) != NoteId(b[j]) {
      assert NoteId(a[i]) != NoteId(a[j]);
    }
  }

  /** One step of `calculer_classement`: the `update_one` by id reaches the
      note at the next place of the sorted list, and giving it its rank
      advances the partial state. */
  lemma RangSuivant(lues: seq<Note>, order: seq<nat>, done: nat)
    requires UniqueBy(lues, NoteId)
    requires done < |order| && order[done] < |lues| && IndexOf(order, order[done]) == done
    ensures FirstIndex(Partiel(lues, order, done), AvecIdNote(lues[order[done]].id)) == Some(order[done])
    ensures var p := Partiel(lues, order, done);
            p[order[done] := p[order[done]].(rang := done + 1)] == Partiel(lues, order, done + 1)
  {
    var p := Partiel(lues, order, done);
    IdsKept(lues, p);
    FirstIndexUnique(p, NoteId, AvecIdNote(lues[order[done]].id), order[done]);
    PartielStep(lues, order, done);
  }

  /** Re-ranking keeps the store coherent. */
  lemma RerankedCoherent(classes: seq<Classe>, eleves: seq<Eleve>, compositions: seq<Composition>,
                         notes: seq<Note>, c: Id)
    requires Coherent(classes, eleves, compositions, notes)
    ensures Coherent(classes, eleves, compositions, Reranked(notes, c))
  {
    RerankedOnlyRang(notes, c);
    RangsKept(classes, eleves, compositions, notes, Reranked(notes, c));
  }

  /** `delete_one` by id keeps the store coherent and leaves no note with that id. */
  lemma SuppressionCoherente(classes: seq<Classe>, eleves: seq<Eleve>, compositions: seq<Composition>,
                             notes: seq<Note>, id: Id)
    requires Coherent(classes, eleves, compositions, notes)
    ensures Coherent(classes, eleves, compositions, RemoveFirst(notes, AvecIdNote(id)))
    ensures forall k :: 0 <= k < |RemoveFirst(notes, AvecIdNote(id))| ==> RemoveFirst(notes, AvecIdNote(id))[k].id != id
  {
    RemoveFirstUnique(notes, AvecIdNote(id), NoteId);
    var r := RemoveFirst(notes, AvecIdNote(id));
    match FirstIndex(notes, AvecIdNote(id))
    case None =>
    case Some(i) =>
      forall k | 0 <= k < |r| ensures Coherente(r[k]) && r[k].id != id {
        if k < i {
          assert r[k] == notes[k];
        } else {
          assert r[k] == notes[k + 1];
          assert NoteId(notes[i]) != NoteId(notes[k + 1]);
        }
      }
  }

  /** The `$set` of new scores keeps the store coherent. */
  lemma ModificationCoherente(classes: seq<Classe>, eleves: seq<Eleve>, compositions: seq<Composition>,
                              notes: seq<Note>, i: nat, update: Scores)
    requires Coherent(classes, eleves, compositions, notes) && i < |notes|
    ensures Coherent(classes, eleves, compositions, notes[i := AvecScores(notes[i], update)])
  {
    var m := notes[i := AvecScores(notes[i], update)];
    forall a, b | 0 <= a < b < |m| ensures NoteId(m[a]) != NoteId(m[b]) {
      assert NoteId(notes[a]) != NoteId(notes[b]);
    }
  }

  /** Deleting the notes of one more composition: the notes outside the first
      k + 1 compositions are those outside the first k and outside the next one. */
  lemma HorsCompositionsStep(comps: seq<Composition>, k: nat)
    requires k < |comps|
    ensures forall n: Note :: HorsCompositions(IdsDe(comps[..k + 1]))(n) ==
              (HorsCompositions(IdsDe(comps[..k]))(n) && HorsComposition(comps[k].id)(n))
  {
    assert comps[..k + 1] == comps[..k] + [comps[k]];
    assert IdsDe(comps[..k + 1]) == IdsDe(comps[..k]) + {comps[k].id};
  }

  /** The notes left once the notes of the first k compositions are deleted. */
  function Restantes(avant: seq<Note>, comps: seq<Composition>, k: nat): seq<Note>
    requires k <= |comps|
  {
    Filter(avant, HorsCompositions(IdsDe(comps[..k])))
  }

  lemma RestantesDebut(avant: seq<Note>, comps: seq<Composition>)
    ensures Restantes(avant, comps, 0) == avant
  {
    assert IdsDe(comps[..0]) == {};
    FilterAll(avant, HorsCompositions({}));
  }

  lemma RestantesFin(avant: seq<Note>, comps: seq<Composition>)
    ensures Restantes(avant, comps, |comps|) == Filter(avant, HorsCompositions(IdsDe(comps)))
  {
    assert comps[..|comps|] == comps;
  }

  /** One more composition of the deleted class: its notes go, the store
      stays coherent, and the notes left are those of none of the first k + 1. */
  lemma SuppressionEtape(classes: seq<Classe>, eleves: seq<Eleve>, compositions: seq<Composition>,
                         avant: seq<Note>, notes: seq<Note>, comps: seq<Composition>, k: nat)
    requires k < |comps| && Coherent(classes, eleves, compositions, notes)
    requires notes == Restantes(avant, comps, k)
    ensures Coherent(classes, eleves, compositions, Filter(notes, HorsComposition(comps[k].id)))
    ensures Filter(notes, HorsComposition(comps[k].id)) == Restantes(avant, comps, k + 1)
  {
    HorsCompositionsStep(comps, k);
    FilterFilter(avant, HorsCompositions(IdsDe(comps[..k])), HorsComposition(comps[k].id),
                 HorsCompositions(IdsDe(comps[..k + 1])));
    FilterCoherent(classes, eleves, compositions, notes, HorsComposition(comps[k].id));
  }

  /** Deleting notes keeps the store coherent. */
  lemma FilterCoherent(classes: seq<Classe>, eleves: seq<Eleve>, compositions: seq<Composition>,
                       notes: seq<Note>, keep: Note -> bool)
    requires Coherent(classes, eleves, compositions, notes)
    ensures Coherent(classes, eleves, compositions, Filter(notes, keep))
  {
    FilterUnique(notes, keep, NoteId);
    var f := Filter(notes, keep);
    forall k | 0 <= k < |f| ensures Coherente(f[k]) {
      var j :| 0 <= j < |notes| && notes[j] == f[k];
    }
  }

  /** The ranks of the re-ranked notes are bounded by the number of notes of
      the composition, which re-ranking does not change. */
  lemma NotesDeRanks(notes: seq<Note>, c: Id)
    ensures |NotesDe(Reranked(notes, c), c)| == |NotesDe(notes, c)|
  {
    RerankedOnlyRang(notes, c);
    SameCompositions(notes, Reranked(notes, c), c);
  }

  /** Two note sequences that agree on every composition id have the same
      notes per composition, in number. */
  lemma {:induction false} SameCompositions(a: seq<Note>, b: seq<Note>, c: Id)
    requires |a| == |b| && forall i :: 0 <= i < |a| ==> a[i].compositionId == b[i].compositionId
    ensures |NotesDe(a, c)| == |NotesDe(b, c)|
  {
    if |a| > 0 {
      SameCompositions(a[..|a| - 1], b[..|b| - 1], c);
    }
  }
}
