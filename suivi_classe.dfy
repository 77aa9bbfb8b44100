/** The class tracking page: each student's row shows one cell per
    composition, in the order of the column headers, and the yearly average
    of the compositions the student sat, or a dash when there is none.

    Averages are in hundredths, as on the server side; the yearly average is
    the exact quotient, before its display with two decimals. */
module SuiviClasse {
  import opened Seqs
  import Server
  import Grading

  /** The number of slots that hold a note. */
  function Presents(notes: seq<Option<Server.Note>>): nat {
    if |notes| == 0 then 0
    else Presents(notes[..|notes| - 1]) + (if notes[|notes| - 1].Some? then 1 else 0)
  }

  /** The per-composition averages of the slots that hold a note, in slot
      order: one value per non-empty slot. */
  function Moyennes(notes: seq<Option<Server.Note>>): (r: seq<int>)
    ensures |r| == Presents(notes) && |r| <= |notes|
    ensures |r| == 0 <==> forall k :: 0 <= k < |notes| ==> notes[k].None?
    ensures |r| == |notes| <==> forall k :: 0 <= k < |notes| ==> notes[k].Some?
  {
    if |notes| == 0 then []
    else
      var n := |notes| - 1;
      var init := Moyennes(notes[..n]);
      assert forall k :: 0 <= k < n ==> notes[..n][k] == notes[k];
      init + (if notes[n].Some? then [notes[n].value.moyenne] else [])
  }

  function Somme(xs: seq<int>): int {
    if |xs| == 0 then 0 else Somme(xs[..|xs| - 1]) + xs[|xs| - 1]
  }

  /** What the last column shows: a dash, or the yearly average. */
  datatype Affichage = Tiret | Valeur(v: real)

  /** `moyenneGenerale`: the mean of the averages of the slots that hold a
      note, divided by their number; a dash when every slot is empty. */
  function MoyenneGenerale(notes: seq<Option<Server.Note>>): (r: Affichage)
    ensures r.Tiret? <==> forall k :: 0 <= k < |notes| ==> notes[k].None?
    ensures r.Valeur? ==> |Moyennes(notes)| == Presents(notes) > 0
    ensures r.Valeur? ==> r.v * (|Moyennes(notes)| as real) == Somme(Moyennes(notes)) as real
  {
    var ms := Moyennes(notes);
    if |ms| > 0 then
      DivMul(Somme(ms) as real, |ms| as real);
      Valeur(Somme(ms) as real / |ms| as real)
    else Tiret
  }

  /** Dividing, then multiplying back, by a non-zero number. */
  lemma DivMul(s: real, n: real)
    requires n != 0.0
    ensures (s / n) * n == s
  {
  }

  /** Slots of a concatenation give the concatenated averages. */
  lemma {:induction false} MoyennesAppend(a: seq<Option<Server.Note>>, b: seq<Option<Server.Note>>)
    ensures Moyennes(a + b) == Moyennes(a) + Moyennes(b)
  {
    if |b| == 0 {
      assert a + b == a;
    } else {
      var n := |b| - 1;
      assert (a + b)[..|a + b| - 1] == a + b[..n];
      assert (a + b)[|a + b| - 1] == b[n];
      MoyennesAppend(a, b[..n]);
    }
  }

  /** An empty slot adds no average, wherever it sits. */
  lemma MoyennesAbsence(u: seq<Option<Server.Note>>, v: seq<Option<Server.Note>>)
    ensures Moyennes(u + [None] + v) == Moyennes(u + v)
  {
    var absent: seq<Option<Server.Note>> := [None];
    assert absent[..0] == [];
    assert Moyennes(absent) == [];
    MoyennesAppend(u + absent, v);
    MoyennesAppend(u, absent);
    MoyennesAppend(u, v);
  }

  /** An empty slot contributes nothing: it changes neither the sum nor the
      divisor, wherever it sits. */
  lemma AbsenceIgnoree(u: seq<Option<Server.Note>>, v: seq<Option<Server.Note>>)
    ensures MoyenneGenerale(u + [None] + v) == MoyenneGenerale(u + v)
  {
    MoyennesAbsence(u, v);
  }

  /** Every averaged value is the average of a slot that holds a note. */
  lemma {:induction false} MoyennesDesPresents(notes: seq<Option<Server.Note>>)
    ensures forall k :: 0 <= k < |Moyennes(notes)| ==>
              exists j :: 0 <= j < |notes| && notes[j].Some? && Moyennes(notes)[k] == notes[j].value.moyenne
  {
    if |notes| > 0 {
      var n := |notes| - 1;
      MoyennesDesPresents(notes[..n]);
      assert Moyennes(notes) == Moyennes(notes[..n]) + (if notes[n].Some? then [notes[n].value.moyenne] else []);
      forall k | 0 <= k < |Moyennes(notes)|
        ensures exists j :: 0 <= j < |notes| && notes[j].Some? && Moyennes(notes)[k] == notes[j].value.moyenne
      {
        if k < |Moyennes(notes[..n])| {
          var j :| 0 <= j < n && notes[..n][j].Some? && Moyennes(notes[..n])[k] == notes[..n][j].value.moyenne;
          assert notes[j] == notes[..n][j];
        } else {
          assert notes[n].Some? && Moyennes(notes)[k] == notes[n].value.moyenne;
        }
      }
    } else {
      assert Moyennes(notes) == [];
    }
  }

  /** Bounds on the averages of the slots that hold a note carry over to
      every averaged value. */
  lemma {:induction false} MoyennesBornees(notes: seq<Option<Server.Note>>, lo: int, hi: int)
    requires forall k :: 0 <= k < |notes| && notes[k].Some? ==> lo <= notes[k].value.moyenne <= hi
    ensures forall k :: 0 <= k < |Moyennes(notes)| ==> lo <= Moyennes(notes)[k] <= hi
  {
    if |notes| > 0 {
      MoyennesBornees(notes[..|notes| - 1], lo, hi);
    }
  }

  /** A sum of n values within [lo, hi] lies within [n.lo, n.hi]. */
  lemma {:induction false} SommeBornes(xs: seq<int>, lo: int, hi: int)
    requires forall k :: 0 <= k < |xs| ==> lo <= xs[k] <= hi
    ensures |xs| * lo <= Somme(xs) <= |xs| * hi
  {
    if |xs| > 0 {
      var n := |xs| - 1;
      SommeBornes(xs[..n], lo, hi);
      assert |xs| * lo == n * lo + lo;
      assert |xs| * hi == n * hi + hi;
    }
  }

  /** The yearly average lies between the smallest and the largest averaged
      value: with every per-composition average within [lo, hi], so is the mean. */
  lemma MoyenneBornee(notes: seq<Option<Server.Note>>, lo: int, hi: int)
    requires forall k :: 0 <= k < |notes| && notes[k].Some? ==> lo <= notes[k].value.moyenne <= hi
    ensures MoyenneGenerale(notes).Valeur? ==> lo as real <= MoyenneGenerale(notes).v <= hi as real
  {
    if MoyenneGenerale(notes).Valeur? {
      MoyennesBornees(notes, lo, hi);
      MoyenneDeBornees(Moyennes(notes), MoyenneGenerale(notes), lo, hi);
    }
  }

  /** A shown value that is the mean of values within [lo, hi] lies within [lo, hi]. */
  lemma MoyenneDeBornees(ms: seq<int>, r: Affichage, lo: int, hi: int)
    requires r.Valeur? && |ms| > 0 && forall k :: 0 <= k < |ms| ==> lo <= ms[k] <= hi
    requires r.v * (|ms| as real) == Somme(ms) as real
    ensures lo as real <= r.v <= hi as real
  {
    SommeBornes(ms, lo, hi);
    MeanBounds(Somme(ms), |ms|, r.v, lo, hi);
  }

  /** A mean v = s / count of values within [lo, hi] lies within [lo, hi]. */
  lemma MeanBounds(s: int, count: nat, v: real, lo: int, hi: int)
    requires count > 0 && count * lo <= s <= count * hi
    requires v * (count as real) == s as real
    ensures lo as real <= v <= hi as real
  {
    IntToReal(count, lo, s, hi);
    RealDivBounds(v, count as real, lo as real, hi as real);
  }

  /** The bounds of a sum carry over to reals. */
  lemma IntToReal(n: int, lo: int, s: int, hi: int)
    requires n * lo <= s <= n * hi
    ensures (n as real) * (lo as real) <= s as real <= (n as real) * (hi as real)
  {
  }

  /** v.n within [n.lo, n.hi] for a positive n puts v within [lo, hi]. */
  lemma RealDivBounds(v: real, n: real, lo: real, hi: real)
    requires n > 0.0 && n * lo <= v * n <= n * hi
    ensures lo <= v <= hi
  {
  }

  /** Averages on the /10 scale give a yearly average on the /10 scale. */
  lemma MoyenneSurDix(notes: seq<Option<Server.Note>>)
    requires forall k :: 0 <= k < |notes| && notes[k].Some? ==> 0 <= notes[k].value.moyenne <= 1000
    ensures MoyenneGenerale(notes).Valeur? ==> 0.0 <= MoyenneGenerale(notes).v <= 1000.0
  {
    MoyenneBornee(notes, 0, 1000);
  }

  /** A note with only its average and rank set, for the examples below. */
  function NoteAvec(moyenne: int, rang: int): Server.Note {
    Server.Note("n", "c", "e", Grading.Scores(0, 0, 0, 0), 0, moyenne, rang, Grading.D)
  }

  /** 7.82 and 8.82 with one absence in between: the divisor is 2, not 3,
      and the yearly average is 8.32. */
  lemma ExempleAbsence()
    ensures MoyenneGenerale([Some(NoteAvec(782, 3)), None, Some(NoteAvec(882, 1))]) == Valeur(832.0)
  {
    var notes := [Some(NoteAvec(782, 3)), None, Some(NoteAvec(882, 1))];
    assert notes[..2] == [Some(NoteAvec(782, 3)), None];
    assert notes[..2][..1] == [Some(NoteAvec(782, 3))];
    assert Moyennes(notes) == [782, 882];
    assert Somme([782, 882]) == 1664 by {
      assert [782, 882][..1] == [782];
    }
  }

  /** One cell of a row: a dash, or the composition's average and rank. */
  datatype Cellule = Absente | Presente(moyenne: int, rang: int)

  /** The cells of one row, one per slot, in slot order. */
  function Cellules(notes: seq<Option<Server.Note>>): (r: seq<Cellule>)
    ensures |r| == |notes|
    ensures forall k :: 0 <= k < |notes| ==> (r[k].Absente? <==> notes[k].None?)
    ensures forall k :: 0 <= k < |notes| && notes[k].Some? ==>
              r[k] == Presente(notes[k].value.moyenne, notes[k].value.rang)
  {
    seq(|notes|, k requires 0 <= k < |notes| =>
      if notes[k].Some? then Presente(notes[k].value.moyenne, notes[k].value.rang) else Absente)
  }

  /** The rendered row of a student. */
  datatype Rangee = Rangee(eleve: Server.Eleve, cellules: seq<Cellule>, moyenneGenerale: Affichage)

  /** `suivi.map(...)`: the student, one cell per slot, and the yearly
      average, a dash exactly when the student sat no composition. */
  function Rendre(ligne: Server.LigneSuivi): (r: Rangee)
    ensures r.eleve == ligne.eleve && |r.cellules| == |ligne.notes|
    ensures r.moyenneGenerale.Tiret? <==> Presents(ligne.notes) == 0
  {
    Rangee(ligne.eleve, Cellules(ligne.notes), MoyenneGenerale(ligne.notes))
  }

  /** Every row of the tracking matrix renders exactly one cell under each
      composition header: cell k shows the student's note for composition k. */
  lemma CellulesSousEntetes(compos: seq<Server.Composition>, lignes: seq<Server.LigneSuivi>,
                           notes: seq<Server.Note>)
    requires forall i :: 0 <= i < |lignes| ==>
               lignes[i].notes == Server.NotesEleve(notes, compos, lignes[i].eleve.id)
    ensures forall i :: 0 <= i < |lignes| ==> |Rendre(lignes[i]).cellules| == |compos|
    ensures forall i, k :: 0 <= i < |lignes| && 0 <= k < |compos| ==>
              (Rendre(lignes[i]).cellules[k].Absente? <==>
               FindFirst(notes, Server.NoteDe(compos[k].id, lignes[i].eleve.id)).None?)
  {
  }
}
