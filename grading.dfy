/** The per-record arithmetic of the grading backend: the total of the four
    subject scores, the average on the /10 scale rounded to two decimals, and
    the A/B/C/D observation band taken from that rounded average.

    A score is a fixed-point number in hundredths of a point (the entry field
    of the grade sheet steps by 0.01), so 40.5 is 4050. An average is in
    hundredths too: 7.82 is 782. */
module Grading {

  /** The four subject scores of one student for one composition. */
  datatype Scores = Scores(etudeTexte: int, aem: int, dictee: int, math: int)

  datatype Observation = A | B | C | D

  /** Maxima of the grade sheet, in hundredths: 50, 50, 20 and 50 points. */
  const MaxEtudeTexte: int := 5000
  const MaxAem: int := 5000
  const MaxDictee: int := 2000
  const MaxMath: int := 5000

  /** Python's `round` applied to the exact quotient `n / d`: the nearest
      integer, and the even one of two equally near integers. */
  function RoundDiv(n: int, d: int): (r: int)
    requires d > 0
    ensures -d <= 2 * (n - d * r) <= d
    ensures 2 * (n - d * r) == d || 2 * (n - d * r) == -d ==> r % 2 == 0
  {
    var q, rem := n / d, n % d;
    assert n - d * q == rem;
    assert n - d * (q + 1) == rem - d;
    if 2 * rem > d then q + 1
    else if 2 * rem < d then q
    else if q % 2 == 0 then q
    else q + 1
  }

  /** A product of positive numbers is positive. */
  lemma {:induction false} MulPositive(d: int, k: int)
    requires d > 0 && k > 0
    ensures d * k > 0
  {
    if k > 1 {
      MulPositive(d, k - 1);
      assert d * k == d * (k - 1) + d;
    }
  }

  /** Multiplying by a positive number keeps a strict order, both ways. */
  lemma MulStrict(d: int, a: int, b: int)
    requires d > 0
    ensures d * a < d * b <==> a < b
  {
    if a < b {
      assert d * b == d * a + d * (b - a);
      MulPositive(d, b - a);
    } else if a > b {
      assert d * a == d * b + d * (a - b);
      MulPositive(d, a - b);
    }
  }

  /** A quotient of two bounded numbers rounds into the same bounds:
      0 <= n <= m * d gives 0 <= round(n / d) <= m. */
  lemma RoundDivBounds(n: int, d: int, m: nat)
    requires d > 0 && 0 <= n <= m * d
    ensures 0 <= RoundDiv(n, d) <= m
  {
    var r := RoundDiv(n, d);
    MulStrict(d, -1, r);
    MulStrict(d, r, m + 1);
  }

  /** The total: the plain sum of the four scores, whatever their range. */
  function Total(s: Scores): (t: int)
    ensures s.etudeTexte >= 0 && s.aem >= 0 && s.dictee >= 0 && s.math >= 0 ==>
              t >= s.etudeTexte && t >= s.aem && t >= s.dictee && t >= s.math
  {
    s.etudeTexte + s.aem + s.dictee + s.math
  }

  /** The average: the total over 170 points brought to the /10 scale and
      rounded to two decimals, which in hundredths is the integer nearest to
      total / 17. */
  function Moyenne(total: int): (m: int)
    ensures -17 <= 2 * (total - 17 * m) <= 17
  {
    RoundDiv(total, 17)
  }

  /** The band of a rounded average: A from 8.50, B from 7.00, C from 5.00, D below. */
  function CalculerObservation(moyenne: int): (o: Observation)
    ensures o == A <==> moyenne >= 850
    ensures o == B <==> 700 <= moyenne < 850
    ensures o == C <==> 500 <= moyenne < 700
    ensures o == D <==> moyenne < 500
  {
    if moyenne >= 850 then A
    else if moyenne >= 700 then B
    else if moyenne >= 500 then C
    else D
  }

  /** Bands ordered from D (0) to A (3). */
  function Niveau(o: Observation): nat {
    match o
    case D => 0
    case C => 1
    case B => 2
    case A => 3
  }

  /** A higher average never gets a lower band. */
  lemma ObservationMonotone(m1: int, m2: int)
    requires m1 <= m2
    ensures Niveau(CalculerObservation(m1)) <= Niveau(CalculerObservation(m2))
  {
  }

  /** A higher total never gets a lower average. */
  lemma MoyenneMonotone(t1: int, t2: int)
    requires t1 <= t2
    ensures Moyenne(t1) <= Moyenne(t2)
  {
    // 34.m1 <= 2.t1 + 17 <= 2.t2 + 17 <= 34.m2 + 34 leaves only m1 = m2 + 1,
    // which needs 2.t2 = 34.m2 + 17: impossible, 17 being odd
  }

  /** Scores within [0, max] give a total within [0, 170] and an average within [0, 10]. */
  lemma MoyenneInRange(s: Scores)
    requires 0 <= s.etudeTexte <= MaxEtudeTexte && 0 <= s.aem <= MaxAem
    requires 0 <= s.dictee <= MaxDictee && 0 <= s.math <= MaxMath
    ensures 0 <= Total(s) <= 17000
    ensures 0 <= Moyenne(Total(s)) <= 1000
  {
    RoundDivBounds(Total(s), 17, 1000);
  }

  /** Passing (an average of at least 5.00) is exactly a band other than D. */
  lemma AdmisIffNotD(moyenne: int)
    ensures moyenne >= 500 <==> CalculerObservation(moyenne) != D
  {
  }

  /** 40.5 + 35 + 15.5 + 42 = 133, average 7.82, band B. */
  lemma ExampleB()
    ensures Total(Scores(4050, 3500, 1550, 4200)) == 13300
    ensures Moyenne(13300) == 782
    ensures CalculerObservation(782) == B
  {
  }

  /** 45 + 40 + 18 + 47 = 150, average 8.82, band A. */
  lemma ExampleA()
    ensures Total(Scores(4500, 4000, 1800, 4700)) == 15000
    ensures Moyenne(15000) == 882
    ensures CalculerObservation(882) == A
  {
  }

  /** The backend accepts a score above its maximum: 55 + 35 + 15 + 42 = 147,
      average 8.65, band A. */
  lemma ExampleOverMax()
    ensures Total(Scores(5500, 3500, 1500, 4200)) == 14700
    ensures Moyenne(14700) == 865
    ensures CalculerObservation(865) == A
  {
  }
}
