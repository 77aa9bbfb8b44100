/** The grade-entry page of one composition: the map of typed scores per
    student, the upper-bound validation, the choice between updating an
    existing note and creating one, the "save all" loop with its success and
    error tally, and the building of the two maps when the page loads.

    Scores are in hundredths, as on the server side. A typed value is either
    the empty field or the number the browser parsed. The outcome of each
    network call is a parameter: `true` when the request succeeded. */
module SaisieNotes {
  import opened Grading
  import Server

  datatype Matiere = EtudeTexte | Aem | Dictee | Math

  /** The entry of one student: a partial record, since a field exists only
      once it has been typed or loaded. */
  type Fiche = map<Matiere, int>

  /** The content of an input field. */
  datatype Valeur = Vide | Nombre(x: int)

  /** The upper bound the page checks for each subject. */
  function Maximum(m: Matiere): int {
    match m
    case EtudeTexte => MaxEtudeTexte
    case Aem => MaxAem
    case Dictee => MaxDictee
    case Math => MaxMath
  }

  /** The stored value of a typed field: an empty field counts as 0. */
  function Lue(v: Valeur): int {
    if v.Vide? then 0 else v.x
  }

  // ---------- handleNoteChange ----------

  /** `handleNoteChange(e, m, v)`: the entry of `e` (created if absent) gets
      subject `m` set to the typed value. */
  function ChangerNote(notes: map<Server.Id, Fiche>, e: Server.Id, m: Matiere, v: Valeur): (r: map<Server.Id, Fiche>)
    ensures r.Keys == notes.Keys + {e}
    ensures m in r[e] && r[e][m] == Lue(v)
  {
    notes[e := Avant(notes, e)[m := Lue(v)]]
  }

  /** The entry of `e` before an edit: empty when `e` has none yet. */
  function Avant(notes: map<Server.Id, Fiche>, e: Server.Id): Fiche {
    if e in notes then notes[e] else map[]
  }

  /** An edit changes nothing but its own field: the other fields of the
      student keep their presence and value, and the other students keep
      their entries. */
  lemma ChangerNoteCadre(notes: map<Server.Id, Fiche>, e: Server.Id, m: Matiere, v: Valeur)
    ensures forall m' :: m' != m ==>
              (m' in ChangerNote(notes, e, m, v)[e] <==> e in notes && m' in notes[e])
    ensures forall m' :: m' != m && m' in ChangerNote(notes, e, m, v)[e] ==>
              ChangerNote(notes, e, m, v)[e][m'] == notes[e][m']
    ensures forall e' :: e' in notes && e' != e ==> ChangerNote(notes, e, m, v)[e'] == notes[e']
  {
  }

  /** The last value typed in a field wins. */
  lemma ChangerNoteDerniere(notes: map<Server.Id, Fiche>, e: Server.Id, m: Matiere, v: Valeur, w: Valeur)
    ensures ChangerNote(ChangerNote(notes, e, m, v), e, m, w) == ChangerNote(notes, e, m, w)
  {
    var a := ChangerNote(ChangerNote(notes, e, m, v), e, m, w);
    var b := ChangerNote(notes, e, m, w);
    assert a[e] == b[e];
  }

  /** Typing the same value twice is typing it once. */
  lemma ChangerNoteIdempotent(notes: map<Server.Id, Fiche>, e: Server.Id, m: Matiere, v: Valeur)
    ensures ChangerNote(ChangerNote(notes, e, m, v), e, m, v) == ChangerNote(notes, e, m, v)
  {
    ChangerNoteDerniere(notes, e, m, v, v);
  }

  /** Two fields of the same student can be typed in either order. */
  lemma CommuteMemeEleve(notes: map<Server.Id, Fiche>, e: Server.Id, m1: Matiere, v1: Valeur, m2: Matiere, v2: Valeur)
    requires m1 != m2
    ensures ChangerNote(ChangerNote(notes, e, m1, v1), e, m2, v2)
            == ChangerNote(ChangerNote(notes, e, m2, v2), e, m1, v1)
  {
    var f, x1, x2 := Avant(notes, e), Lue(v1), Lue(v2);
    var n1, n2 := ChangerNote(notes, e, m1, v1), ChangerNote(notes, e, m2, v2);
    assert Avant(n1, e) == f[m1 := x1];
    assert Avant(n2, e) == f[m2 := x2];
    MiseAJourCommute(f, m1, x1, m2, x2);
  }

  /** Updates of two different keys of a map commute. */
  lemma MiseAJourCommute<K, V>(f: map<K, V>, k1: K, x1: V, k2: K, x2: V)
    requires k1 != k2
    ensures f[k1 := x1][k2 := x2] == f[k2 := x2][k1 := x1]
  {
  }

  /** Fields of two students can be typed in either order. */
  lemma CommuteElevesDifferents(notes: map<Server.Id, Fiche>, e1: Server.Id, m1: Matiere, v1: Valeur,
                                e2: Server.Id, m2: Matiere, v2: Valeur)
    requires e1 != e2
    ensures ChangerNote(ChangerNote(notes, e1, m1, v1), e2, m2, v2)
            == ChangerNote(ChangerNote(notes, e2, m2, v2), e1, m1, v1)
  {
    var g1, g2 := Avant(notes, e1)[m1 := Lue(v1)], Avant(notes, e2)[m2 := Lue(v2)];
    assert Avant(ChangerNote(notes, e1, m1, v1), e2) == Avant(notes, e2);
    assert Avant(ChangerNote(notes, e2, m2, v2), e1) == Avant(notes, e1);
    MiseAJourCommute(notes, e1, g1, e2, g2);
  }

  /** Edits of two different fields do not interfere: their order does not matter. */
  lemma ChangerNoteCommute(notes: map<Server.Id, Fiche>, e1: Server.Id, m1: Matiere, v1: Valeur,
                           e2: Server.Id, m2: Matiere, v2: Valeur)
    requires e1 != e2 || m1 != m2
    ensures ChangerNote(ChangerNote(notes, e1, m1, v1), e2, m2, v2)
            == ChangerNote(ChangerNote(notes, e2, m2, v2), e1, m1, v1)
  {
    if e1 == e2 {
      CommuteMemeEleve(notes, e1, m1, v1, m2, v2);
    } else {
      CommuteElevesDifferents(notes, e1, m1, v1, e2, m2, v2);
    }
  }

  // ---------- validation ----------

  /** The test of `handleEnregistrer` and of every turn of `handleEnregistrerTout`:
      an entry is rejected exactly when some present field exceeds its
      subject's maximum. A missing field compares as false, and there is no
      lower bound. */
  predicate Invalide(f: Fiche): (rejetee: bool)
    ensures rejetee <==> exists m :: m in f && f[m] > Maximum(m)
  {
    (EtudeTexte in f && f[EtudeTexte] > MaxEtudeTexte) || (Aem in f && f[Aem] > MaxAem)
    || (Dictee in f && f[Dictee] > MaxDictee) || (Math in f && f[Math] > MaxMath)
  }

  /** A negative score and an empty entry both pass the validation, and a score
      at its maximum passes while one hundredth more is rejected. */
  lemma BornesValidation()
    ensures !Invalide(map[Math := -100])
    ensures !Invalide(map[])
    ensures !Invalide(map[Dictee := 2000]) && Invalide(map[Dictee := 2001])
  {
  }

  // ---------- handleEnregistrer ----------

  /** A request the page sends: an update of an existing note carrying only
      the entry, or a creation carrying the composition, the student and the entry. */
  datatype Requete =
    | Modifier(noteId: Server.Id, fiche: Fiche)
    | Creer(compositionId: Server.Id, eleveId: Server.Id, fiche: Fiche)

  /** The student has a known note: the id is present and not empty (a
      JavaScript truthiness test). */
  predicate Existante(existantes: map<Server.Id, Server.Id>, e: Server.Id) {
    e in existantes && existantes[e] != ""
  }

  /** The request for the entry `f` of student `e`: an update when the
      student has a known note, a creation otherwise. */
  function RequeteDe(existantes: map<Server.Id, Server.Id>, compositionId: Server.Id, e: Server.Id, f: Fiche): (r: Requete)
    ensures r.fiche == f
    ensures r.Modifier? <==> Existante(existantes, e)
    ensures r.Modifier? ==> r.noteId == existantes[e]
    ensures r.Creer? ==> r.compositionId == compositionId && r.eleveId == e
  {
    if Existante(existantes, e) then Modifier(existantes[e], f)
    else Creer(compositionId, e, f)
  }

  /** What saving one student does: report that there is nothing to save,
      report invalid scores, or send a request. */
  datatype Issue = AucuneNote | NotesInvalides | Envoi(requete: Requete)

  datatype Enregistrement = Enregistrement(issue: Issue, recharger: bool)

  /** `handleEnregistrer(e)`: `reseauOk` is the outcome of the request, when
      one is sent; the page reloads only after a request that succeeded. */
  function Enregistrer(notes: map<Server.Id, Fiche>, existantes: map<Server.Id, Server.Id>, compositionId: Server.Id,
                       e: Server.Id, reseauOk: bool): (r: Enregistrement)
    ensures r.issue == AucuneNote <==> e !in notes
    ensures r.issue == NotesInvalides <==> e in notes && Invalide(notes[e])
    ensures r.issue.Envoi? ==> r.issue.requete == RequeteDe(existantes, compositionId, e, notes[e])
    ensures r.recharger <==> r.issue.Envoi? && reseauOk
  {
    if e !in notes then Enregistrement(AucuneNote, false)
    else if Invalide(notes[e]) then Enregistrement(NotesInvalides, false)
    else Enregistrement(Envoi(RequeteDe(existantes, compositionId, e, notes[e])), reseauOk)
  }

  /** A sent request never carries an entry the page rejects. */
  lemma EnregistrerValide(notes: map<Server.Id, Fiche>, existantes: map<Server.Id, Server.Id>, compositionId: Server.Id,
                          e: Server.Id, reseauOk: bool)
    ensures Enregistrer(notes, existantes, compositionId, e, reseauOk).issue.Envoi? ==>
              e in notes && !Invalide(Enregistrer(notes, existantes, compositionId, e, reseauOk).issue.requete.fiche)
  {
  }

  // ---------- handleEnregistrerTout ----------

  /** The requests "save all" sends for the keys `cles`, in order: one per
      valid entry. */
  function Envois(notes: map<Server.Id, Fiche>, existantes: map<Server.Id, Server.Id>, compositionId: Server.Id, cles: seq<Server.Id>): seq<Requete>
    requires forall k :: 0 <= k < |cles| ==> cles[k] in notes
  {
    if |cles| == 0 then []
    else
      var e := cles[|cles| - 1];
      Envois(notes, existantes, compositionId, cles[..|cles| - 1])
      + (if Invalide(notes[e]) then [] else [RequeteDe(existantes, compositionId, e, notes[e])])
  }

  /** The number of valid entries among the keys `cles`. */
  function Valides(notes: map<Server.Id, Fiche>, cles: seq<Server.Id>): (n: nat)
    requires forall k :: 0 <= k < |cles| ==> cles[k] in notes
    ensures n <= |cles|
  {
    if |cles| == 0 then 0
    else Valides(notes, cles[..|cles| - 1]) + (if Invalide(notes[cles[|cles| - 1]]) then 0 else 1)
  }

  /** The number of valid entries whose request succeeded, `reseau[k]` being
      the outcome of the request for `cles[k]`. */
  function Reussites(notes: map<Server.Id, Fiche>, cles: seq<Server.Id>, reseau: seq<bool>): nat
    requires forall k :: 0 <= k < |cles| ==> cles[k] in notes
    requires |reseau| == |cles|
  {
    if |cles| == 0 then 0
    else
      var n := |cles| - 1;
      Reussites(notes, cles[..n], reseau[..n]) + (if !Invalide(notes[cles[n]]) && reseau[n] then 1 else 0)
  }

  /** `handleEnregistrerTout` over `Object.keys(notes)`, the keys `cles`
      listed once each: every student with an entry is counted once, as a
      success or as an error; an invalid entry is an error and sends nothing;
      a valid one sends its request and is a success when the request
      succeeds. The page reloads when there is at least one success and
      reports errors when there is at least one. */
  method EnregistrerTout(notes: map<Server.Id, Fiche>, existantes: map<Server.Id, Server.Id>, compositionId: Server.Id,
                         cles: seq<Server.Id>, reseau: seq<bool>)
    returns (succes: nat, erreurs: nat, envois: seq<Requete>, recharger: bool, signalerErreurs: bool)
    requires ClesDeObjet(notes, cles)
    requires |reseau| == |cles|
    ensures succes + erreurs == |cles| == |notes|
    ensures succes == Reussites(notes, cles, reseau)
    ensures envois == Envois(notes, existantes, compositionId, cles)
    ensures recharger <==> succes > 0
    ensures signalerErreurs <==> erreurs > 0
  {
    succes, erreurs, envois := Compter(notes, existantes, compositionId, cles, reseau);
    ClesComptees(notes, cles);
    recharger := succes > 0;
    signalerErreurs := erreurs > 0;
  }

  /** The loop of `handleEnregistrerTout`: one turn per key, in order. */
  method Compter(notes: map<Server.Id, Fiche>, existantes: map<Server.Id, Server.Id>, compositionId: Server.Id,
                 cles: seq<Server.Id>, reseau: seq<bool>)
    returns (succes: nat, erreurs: nat, envois: seq<Requete>)
    requires forall k :: 0 <= k < |cles| ==> cles[k] in notes
    requires |reseau| == |cles|
    ensures succes + erreurs == |cles|
    ensures succes == Reussites(notes, cles, reseau)
    ensures envois == Envois(notes, existantes, compositionId, cles)
  {
    succes, erreurs, envois := 0, 0, [];
    var k := 0;
    while k < |cles|
      invariant 0 <= k <= |cles|
      invariant succes + erreurs == k
      invariant succes == Reussites(notes, cles[..k], reseau[..k])
      invariant envois == Envois(notes, existantes, compositionId, cles[..k])
    {
      var e := cles[k];
      var fiche := notes[e];
      assert cles[..k + 1][..k] == cles[..k];
      assert reseau[..k + 1][..k] == reseau[..k];
      if Invalide(fiche) {
        erreurs := erreurs + 1;
      } else {
        envois := envois + [RequeteDe(existantes, compositionId, e, fiche)];
        if reseau[k] {
          succes := succes + 1;
        } else {
          erreurs := erreurs + 1;
        }
      }
      k := k + 1;
    }
    assert cles[..k] == cles && reseau[..k] == reseau;
  }

  /** "Save all" sends one request per valid entry, each carrying a valid
      entry, and succeeds at most once per request. */
  lemma {:induction false} EnvoisValides(notes: map<Server.Id, Fiche>, existantes: map<Server.Id, Server.Id>, compositionId: Server.Id,
                                         cles: seq<Server.Id>, reseau: seq<bool>)
    requires forall k :: 0 <= k < |cles| ==> cles[k] in notes
    requires |reseau| == |cles|
    ensures |Envois(notes, existantes, compositionId, cles)| == Valides(notes, cles)
    ensures forall k :: 0 <= k < |Envois(notes, existantes, compositionId, cles)| ==>
              !Invalide(Envois(notes, existantes, compositionId, cles)[k].fiche)
    ensures Reussites(notes, cles, reseau) <= Valides(notes, cles)
  {
    if |cles| > 0 {
      var n := |cles| - 1;
      EnvoisValides(notes, existantes, compositionId, cles[..n], reseau[..n]);
    }
  }

  /** When every request succeeds, the successes are the valid entries and
      the errors the invalid ones. */
  lemma {:induction false} ToutReussi(notes: map<Server.Id, Fiche>, cles: seq<Server.Id>, reseau: seq<bool>)
    requires forall k :: 0 <= k < |cles| ==> cles[k] in notes
    requires |reseau| == |cles| && forall k :: 0 <= k < |reseau| ==> reseau[k]
    ensures Reussites(notes, cles, reseau) == Valides(notes, cles)
  {
    if |cles| > 0 {
      var n := |cles| - 1;
      ToutReussi(notes, cles[..n], reseau[..n]);
    }
  }

  /** What `Object.keys` gives: each key of the map, listed once. */
  predicate ClesDeObjet(notes: map<Server.Id, Fiche>, cles: seq<Server.Id>) {
    && (forall a, b :: 0 <= a < b < |cles| ==> cles[a] != cles[b])
    && (forall k :: 0 <= k < |cles| ==> cles[k] in notes)
    && (forall e :: e in notes ==> e in cles)
  }

  /** Keys listed once each and covering the map are as many as the map's keys:
      "save all" counts every student with an entry exactly once. */
  lemma {:induction false} ClesComptees(notes: map<Server.Id, Fiche>, cles: seq<Server.Id>)
    requires ClesDeObjet(notes, cles)
    ensures |cles| == |notes|
  {
    DistinctCard(cles);
    assert (set k | 0 <= k < |cles| :: cles[k]) == notes.Keys;
  }

  /** A sequence without repetition has as many elements as its set. */
  lemma {:induction false} DistinctCard(cles: seq<Server.Id>)
    requires forall a, b :: 0 <= a < b < |cles| ==> cles[a] != cles[b]
    ensures |set k | 0 <= k < |cles| :: cles[k]| == |cles|
  {
    if |cles| > 0 {
      var n := |cles| - 1;
      DistinctCard(cles[..n]);
      var init := set k | 0 <= k < n :: cles[..n][k];
      assert (set k | 0 <= k < |cles| :: cles[k]) == init + {cles[n]};
      assert cles[n] !in init;
    }
  }

  // ---------- chargerDonnees ----------

  /** The entry loaded from a stored note: its four scores. */
  function FicheDe(n: Server.Note): (f: Fiche)
    ensures f.Keys == {EtudeTexte, Aem, Dictee, Math}
    ensures f[EtudeTexte] == n.scores.etudeTexte && f[Aem] == n.scores.aem
    ensures f[Dictee] == n.scores.dictee && f[Math] == n.scores.math
  {
    map[EtudeTexte := n.scores.etudeTexte, Aem := n.scores.aem,
        Dictee := n.scores.dictee, Math := n.scores.math]
  }

  /** The students of the notes `ns`. */
  function ElevesDe(ns: seq<Server.Note>): (r: set<Server.Id>)
    ensures forall i :: 0 <= i < |ns| ==> ns[i].eleveId in r
    ensures forall e :: e in r ==> exists i :: 0 <= i < |ns| && ns[i].eleveId == e
  {
    set i | 0 <= i < |ns| :: ns[i].eleveId
  }

  /** One more note adds its student. */
  lemma ElevesDeDernier(ns: seq<Server.Note>)
    requires |ns| > 0
    ensures ElevesDe(ns) == ElevesDe(ns[..|ns| - 1]) + {ns[|ns| - 1].eleveId}
  {
    var n := |ns| - 1;
    forall e | e in ElevesDe(ns) ensures e in ElevesDe(ns[..n]) + {ns[n].eleveId} {
      var i :| 0 <= i < |ns| && ns[i].eleveId == e;
      if i < n {
        assert ns[..n][i].eleveId == e;
      }
    }
  }

  /** No note after index `i` belongs to the same student. */
  predicate Derniere(ns: seq<Server.Note>, i: nat)
    requires i < |ns|
  {
    forall j :: i < j < |ns| ==> ns[j].eleveId != ns[i].eleveId
  }

  /** The entries map after loading the notes `ns` in order, each note
      overwriting the entry of its student. */
  function CarteNotes(ns: seq<Server.Note>): map<Server.Id, Fiche> {
    if |ns| == 0 then map[]
    else CarteNotes(ns[..|ns| - 1])[ns[|ns| - 1].eleveId := FicheDe(ns[|ns| - 1])]
  }

  /** The known-ids map after loading the notes `ns` in order. */
  function CarteIds(ns: seq<Server.Note>): map<Server.Id, Server.Id> {
    if |ns| == 0 then map[]
    else CarteIds(ns[..|ns| - 1])[ns[|ns| - 1].eleveId := ns[|ns| - 1].id]
  }

  /** The entries map is keyed by exactly the students of the loaded notes. */
  lemma {:induction false} CarteNotesCles(ns: seq<Server.Note>)
    ensures CarteNotes(ns).Keys == ElevesDe(ns)
  {
    if |ns| > 0 {
      CarteNotesCles(ns[..|ns| - 1]);
      ElevesDeDernier(ns);
    }
  }

  /** The known-ids map is keyed by exactly the students of the loaded notes. */
  lemma {:induction false} CarteIdsCles(ns: seq<Server.Note>)
    ensures CarteIds(ns).Keys == ElevesDe(ns)
  {
    if |ns| > 0 {
      CarteIdsCles(ns[..|ns| - 1]);
      ElevesDeDernier(ns);
    }
  }

  /** Each student's entry and id come from the student's last note. */
  lemma {:induction false} CartesDerniere(ns: seq<Server.Note>, i: nat)
    requires i < |ns| && Derniere(ns, i)
    ensures ns[i].eleveId in CarteNotes(ns) && CarteNotes(ns)[ns[i].eleveId] == FicheDe(ns[i])
    ensures ns[i].eleveId in CarteIds(ns) && CarteIds(ns)[ns[i].eleveId] == ns[i].id
  {
    var n := |ns| - 1;
    if i < n {
      assert ns[n].eleveId != ns[i].eleveId;
      assert Derniere(ns[..n], i) by {
        forall j | i < j < n ensures ns[..n][j].eleveId != ns[..n][i].eleveId {
          assert ns[j].eleveId != ns[i].eleveId;
        }
      }
      CartesDerniere(ns[..n], i);
    }
  }

  /** The loading part of `chargerDonnees`: `forEach` over the notes of the
      composition, overwriting the student's entry and known note id. */
  method ChargerDonnees(ns: seq<Server.Note>) returns (notesMap: map<Server.Id, Fiche>, existMap: map<Server.Id, Server.Id>)
    ensures notesMap == CarteNotes(ns) && existMap == CarteIds(ns)
    ensures notesMap.Keys == existMap.Keys == ElevesDe(ns)
  {
    notesMap, existMap := map[], map[];
    var k := 0;
    while k < |ns|
      invariant 0 <= k <= |ns|
      invariant notesMap == CarteNotes(ns[..k]) && existMap == CarteIds(ns[..k])
    {
      assert ns[..k + 1][..k] == ns[..k];
      notesMap := notesMap[ns[k].eleveId := FicheDe(ns[k])];
      existMap := existMap[ns[k].eleveId := ns[k].id];
      k := k + 1;
    }
    assert ns[..k] == ns;
    CarteNotesCles(ns);
    CarteIdsCles(ns);
  }
}
