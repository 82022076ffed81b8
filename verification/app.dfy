/*
  The orchestration of a scan run (`app.py`): the order the tracked
  series are scanned in, the bookkeeping of the series that failed and
  are retried once, and the export of the volumes found with the manual
  status of each.

  The network scan of one series is the oracle `scan`, the clock gives
  the detection date `aujourdhui`, and the volume-to-series overrides
  and the French translations are parameters.
*/
module App {
  import opened Wrappers
  import Store
  import Sync
  import Pipeline
  import Normaliser
  import Suites

  // ---- the priority of a series

  /** The sort key `(priorite, -nb_cache)`: the smaller key is scanned first. */
  datatype Cle = Cle(priorite: int, moinsCache: int)

  /** A tracked series decorated with its key, as `sorted` pairs them. */
  datatype Classee = Classee(manga: Sync.Manga, cle: Cle)

  /** Python's tuple order on keys. */
  predicate Precede(a: Cle, b: Cle) {
    a.priorite < b.priorite || (a.priorite == b.priorite && a.moinsCache <= b.moinsCache)
  }

  /**
    Priority 1 for a series with volumes in the store (it gets past the
    initial rate limit), 2 for one with a reference ASIN only, 3 for the
    others.
  */
  function Priorite(nbCache: nat, reference: Option<string>): (p: int)
    ensures p == 1 <==> nbCache > 0
    ensures p == 2 <==> nbCache == 0 && Store.Truthy(reference)
    ensures p == 3 <==> nbCache == 0 && !Store.Truthy(reference)
  {
    if nbCache > 0 then 1 else if Store.Truthy(reference) then 2 else 3
  }

  function CleDe(nbCache: nat, reference: Option<string>): Cle {
    Cle(Priorite(nbCache, reference), -(nbCache as int))
  }

  /**
    The order the keys give: a series with stored volumes goes before any
    without, the more volumes the earlier; without volumes, one with a
    reference ASIN goes before one without.
  */
  lemma OrdreDesCles(n1: nat, r1: Option<string>, n2: nat, r2: Option<string>)
    ensures n1 > 0 && n2 == 0 ==> Precede(CleDe(n1, r1), CleDe(n2, r2)) && !Precede(CleDe(n2, r2), CleDe(n1, r1))
    ensures n1 > 0 && n2 > 0 ==> (Precede(CleDe(n1, r1), CleDe(n2, r2)) <==> n1 >= n2)
    ensures n1 == 0 && n2 == 0 && Store.Truthy(r1) && !Store.Truthy(r2) ==>
              Precede(CleDe(n1, r1), CleDe(n2, r2)) && !Precede(CleDe(n2, r2), CleDe(n1, r1))
    ensures n1 == 0 && n2 == 0 && Store.Truthy(r1) == Store.Truthy(r2) ==> CleDe(n1, r1) == CleDe(n2, r2)
  {
  }

  // ---- the reference ASIN

  /** `r` is the group of the first `/dp/` match among `urls`, in order. */
  ghost predicate PremierAsin(urls: seq<string>, r: Option<string>) {
    && (r.None? <==> forall k | 0 <= k < |urls| :: Normaliser.AsinDp(urls[k]).None?)
    && (r.Some? ==> exists k | 0 <= k < |urls| :: Normaliser.AsinDp(urls[k]) == r
                                                  && forall j | 0 <= j < k :: Normaliser.AsinDp(urls[j]).None?)
  }

  /** The explicit `asin_reference` of the entry, when it is set and not empty. */
  function Explicite(m: Sync.Manga): (r: Option<string>)
    ensures r.Some? <==> "asin_reference" in m.champs && m.champs["asin_reference"] != []
    ensures r.Some? ==> r.value == m.champs["asin_reference"]
  {
    if "asin_reference" in m.champs && m.champs["asin_reference"] != [] then Some(m.champs["asin_reference"]) else None
  }

  /**
    `r` is the reference ASIN of `m`: its explicit one, else the first
    ASIN of a "/dp/" extra URL, else a validated volume of the series
    with the highest tome (none when the series has no validated volume).
  */
  ghost predicate ReferenceAttendue(m: Sync.Manga, db: Store.DatabaseManager, r: Option<string>)
    reads db
  {
    if Explicite(m).Some? then r == Explicite(m)
    else if exists u | u in m.urls :: Normaliser.AsinDp(u).Some? then PremierAsin(m.urls, r)
    else
      && (r.None? <==> forall a | a in db.volumes :: !(db.volumes[a].serieJp == m.nom && db.EstValide(a)))
      && (r.Some? ==> r.value in db.volumes && db.volumes[r.value].serieJp == m.nom && db.EstValide(r.value)
                      && forall a | a in db.volumes && db.volumes[a].serieJp == m.nom && db.EstValide(a) ::
                           Store.TomeAuMoins(db.volumes[r.value].tome, db.volumes[a].tome))
  }

  /** The ASIN of the first extra URL holding a "/dp/" product path. */
  method AsinDesUrls(urls: seq<string>) returns (r: Option<string>)
    ensures PremierAsin(urls, r)
  {
    r := None;
    var i := 0;
    while i < |urls|
      invariant 0 <= i <= |urls|
      invariant forall j | 0 <= j < i :: Normaliser.AsinDp(urls[j]).None?
    {
      var trouve := Normaliser.AsinDp(urls[i]);
      if trouve.Some? {
        r := trouve;
        return;
      }
      i := i + 1;
    }
  }

  /** The reference ASIN `get_priorite_serie` looks up, from its three sources in order. */
  method Reference(m: Sync.Manga, db: Store.DatabaseManager) returns (r: Option<string>)
    ensures ReferenceAttendue(m, db, r)
  {
    r := Explicite(m);
    if r.None? && m.urls != [] {
      r := AsinDesUrls(m.urls);
    }
    if r.None? {
      r := db.GetAsinReference(m.nom);
    }
  }

  /** The entry with `_asin_reference` recorded (absent standing for `None`). */
  function AvecReference(m: Sync.Manga, r: Option<string>): (m2: Sync.Manga)
    ensures m2.nom == m.nom && m2.urls == m.urls
    ensures forall k | k != "_asin_reference" :: (k in m2.champs <==> k in m.champs)
    ensures forall k | k in m.champs && k != "_asin_reference" :: m2.champs[k] == m.champs[k]
    ensures ReferenceNotee(m2) == r
  {
    if r.Some? then m.(champs := m.champs["_asin_reference" := r.value])
    else m.(champs := m.champs - {"_asin_reference"})
  }

  /** The `_asin_reference` an entry carries. */
  function ReferenceNotee(m: Sync.Manga): Option<string> {
    if "_asin_reference" in m.champs then Some(m.champs["_asin_reference"]) else None
  }

  // ---- the stable sort

  /** Every element's key precedes the keys of the ones after it. */
  predicate Triee(s: seq<Classee>) {
    forall i, j | 0 <= i < j < |s| :: Precede(s[i].cle, s[j].cle)
  }

  /** `x` inserted before the first element whose key it precedes. */
  function Inserer(x: Classee, s: seq<Classee>): (r: seq<Classee>)
    ensures |r| == |s| + 1
    ensures multiset(r) == multiset(s) + multiset{x}
  {
    if s == [] then [x]
    else if Precede(x.cle, s[0].cle) then [x] + s
    else
      assert s == [s[0]] + s[1..];
      [s[0]] + Inserer(x, s[1..])
  }

  /** `sorted(..., key=...)`: the decorated list ordered by key. */
  function Trier(s: seq<Classee>): (r: seq<Classee>)
    ensures |r| == |s|
    ensures multiset(r) == multiset(s)
  {
    if s == [] then []
    else
      assert s == [s[0]] + s[1..];
      Inserer(s[0], Trier(s[1..]))
  }

  /** The elements of `s` whose key is `k`, in order. */
  function DeCle(s: seq<Classee>, k: Cle): seq<Classee> {
    if s == [] then [] else (if s[0].cle == k then [s[0]] else []) + DeCle(s[1..], k)
  }

  lemma {:induction false} InsererTriee(x: Classee, s: seq<Classee>)
    requires Triee(s)
    ensures Triee(Inserer(x, s))
  {
    if s == [] {
    } else if Precede(x.cle, s[0].cle) {
      var r := [x] + s;
      forall i, j | 0 <= i < j < |r|
        ensures Precede(r[i].cle, r[j].cle)
      {
        if i == 0 && j > 1 {
          assert Precede(s[0].cle, s[j - 1].cle);
        }
      }
    } else {
      var t := Inserer(x, s[1..]);
      assert Triee(s[1..]) by {
        forall i, j | 0 <= i < j < |s[1..]|
          ensures Precede(s[1..][i].cle, s[1..][j].cle)
        {
          assert s[1..][i] == s[i + 1] && s[1..][j] == s[j + 1];
        }
      }
      InsererTriee(x, s[1..]);
      var r := [s[0]] + t;
      forall i, j | 0 <= i < j < |r|
        ensures Precede(r[i].cle, r[j].cle)
      {
        if i == 0 {
          var y := t[j - 1];
          assert y in multiset(t);
          if y != x {
            assert y in multiset(s[1..]);
            var k :| 0 <= k < |s[1..]| && s[1..][k] == y;
            assert s[k + 1] == y;
          }
        }
      }
    }
  }

  /** The sorted list is ordered by key. */
  lemma {:induction false} TrierTriee(s: seq<Classee>)
    ensures Triee(Trier(s))
  {
    if s != [] {
      TrierTriee(s[1..]);
      InsererTriee(s[0], Trier(s[1..]));
    }
  }

  lemma {:induction false} DeCleConcat(a: seq<Classee>, b: seq<Classee>, k: Cle)
    ensures DeCle(a + b, k) == DeCle(a, k) + DeCle(b, k)
  {
    if a == [] {
      assert a + b == b;
    } else {
      DeCleConcat(a[1..], b, k);
      assert a + b == [a[0]] + (a[1..] + b);
      assert a == [a[0]] + a[1..];
      DeCleCons(a[0], a[1..] + b, k);
      DeCleCons(a[0], a[1..], k);
      Suites.Associe(if a[0].cle == k then [a[0]] else [], DeCle(a[1..], k), DeCle(b, k));
    }
  }

  /** `DeCle` unfolded once on a sequence written as head and tail. */
  lemma DeCleCons(y: Classee, t: seq<Classee>, k: Cle)
    ensures DeCle([y] + t, k) == (if y.cle == k then [y] else []) + DeCle(t, k)
  {
    assert ([y] + t)[1..] == t;
  }

  lemma {:induction false} InsererDeCle(x: Classee, s: seq<Classee>, k: Cle)
    ensures DeCle(Inserer(x, s), k) == (if x.cle == k then [x] else []) + DeCle(s, k)
  {
    if s == [] {
      DeCleCons(x, s, k);
      assert [x] + s == [x];
    } else if Precede(x.cle, s[0].cle) {
      DeCleCons(x, s, k);
    } else {
      var t := Inserer(x, s[1..]);
      var b := if x.cle == k then [x] else [];
      var d0 := if s[0].cle == k then [s[0]] else [];
      assert Inserer(x, s) == [s[0]] + t;
      assert s == [s[0]] + s[1..];
      InsererDeCle(x, s[1..], k);
      DeCleCons(s[0], t, k);
      DeCleCons(s[0], s[1..], k);
      assert d0 == [] || b == [] by {
        assert x.cle != s[0].cle;
      }
      Echange(d0, b, DeCle(s[1..], k));
    }
  }

  /** Two prefixes of which one is empty can be put in either order. */
  lemma Echange(d: seq<Classee>, b: seq<Classee>, r: seq<Classee>)
    requires d == [] || b == []
    ensures d + (b + r) == b + (d + r)
  {
    if d == [] {
      assert d + (b + r) == b + r == b + (d + r);
    } else {
      assert d + (b + r) == d + r == b + (d + r);
    }
  }

  /** The sort is stable: the series sharing a key keep their relative order. */
  lemma {:induction false} TrierStable(s: seq<Classee>, k: Cle)
    ensures DeCle(Trier(s), k) == DeCle(s, k)
  {
    if s != [] {
      TrierStable(s[1..], k);
      InsererDeCle(s[0], Trier(s[1..]), k);
    }
  }

  /**
    `get_priorite_serie` over the tracked list, then the sort: each entry
    gets its reference ASIN recorded and its key computed (the key
    function runs once per entry, in list order); `tries` is the list in
    scan order.
  */
  method Prioriser(mangas: seq<Sync.Manga>, db: Store.DatabaseManager) returns (classees: seq<Classee>, tries: seq<Sync.Manga>)
    ensures |classees| == |mangas| && |tries| == |mangas|
    ensures forall i | 0 <= i < |mangas| :: Decoree(mangas[i], db, classees[i])
    ensures forall i | 0 <= i < |tries| :: tries[i] == Trier(classees)[i].manga
  {
    classees := Decorer(mangas, db);
    var ordre := Trier(classees);
    tries := seq(|ordre|, k requires 0 <= k < |ordre| => ordre[k].manga);
  }

  /**
    `c` is `m` decorated by `get_priorite_serie`: `m` with its reference
    ASIN recorded, and the key from its stored volume count and that ASIN.
  */
  ghost predicate Decoree(m: Sync.Manga, db: Store.DatabaseManager, c: Classee)
    reads db
  {
    var r := ReferenceNotee(c.manga);
    && ReferenceAttendue(m, db, r)
    && c == Classee(AvecReference(m, r), CleDe(|db.GetVolumesConnus(m.nom)|, r))
  }

  /** The key function applied to each entry, in list order. */
  method Decorer(mangas: seq<Sync.Manga>, db: Store.DatabaseManager) returns (classees: seq<Classee>)
    ensures |classees| == |mangas|
    ensures forall i | 0 <= i < |mangas| :: Decoree(mangas[i], db, classees[i])
  {
    classees := [];
    var i := 0;
    while i < |mangas|
      invariant 0 <= i <= |mangas| && |classees| == i
      invariant forall j | 0 <= j < i :: Decoree(mangas[j], db, classees[j])
    {
      var m := mangas[i];
      var nbCache := |db.GetVolumesConnus(m.nom)|;
      var r := Reference(m, db);
      var c := Classee(AvecReference(m, r), CleDe(nbCache, r));
      assert Decoree(m, db, c);
      classees := classees + [c];
      i := i + 1;
    }
  }

  // ---- the scan and its retry

  /** A volume found for a series: the series name, its French name ("" when unset) and the volume. */
  datatype Trouve = Trouve(nom: string, nomFr: string, papier: Pipeline.Papier)

  /** The outcome of scanning one series: an exception, or the new volumes and all paper volumes. */
  datatype Scan = Leve | Resultat(nouveautes: seq<Trouve>, papiers: seq<Trouve>)

  /** A series fails when its scan raised or found no paper volume. */
  predicate Echoue(s: Scan) {
    s.Leve? || s.papiers == []
  }

  /** `a` is `b` with some elements dropped and the others kept in order. */
  predicate SousListe<T(==)>(a: seq<T>, b: seq<T>)
    decreases |b|
  {
    if b == [] then a == []
    else SousListe(a, b[..|b| - 1])
         || (a != [] && a[|a| - 1] == b[|b| - 1] && SousListe(a[..|a| - 1], b[..|b| - 1]))
  }

  /** The series of `ms` whose first scan failed, in order. */
  function Echouees(ms: seq<Sync.Manga>, scan: (Sync.Manga, bool) -> Scan): (r: seq<Sync.Manga>)
    ensures SousListe(r, ms)
    ensures |r| <= |ms|
  {
    if ms == [] then []
    else
      var p := Echouees(ms[..|ms| - 1], scan);
      var m := ms[|ms| - 1];
      if Echoue(scan(m, false)) then (assert (p + [m])[..|p|] == p; p + [m]) else p
  }

  /** The paper volumes the scans of `ms` returned, in order (a raised scan adds none). */
  function Papiers(ms: seq<Sync.Manga>, scan: (Sync.Manga, bool) -> Scan, retry: bool): seq<Trouve> {
    if ms == [] then []
    else
      var p := Papiers(ms[..|ms| - 1], scan, retry);
      var s := scan(ms[|ms| - 1], retry);
      p + (if s.Resultat? then s.papiers else [])
  }

  /** The new volumes the scans of `ms` returned, in order. */
  function Nouveautes(ms: seq<Sync.Manga>, scan: (Sync.Manga, bool) -> Scan, retry: bool): seq<Trouve> {
    if ms == [] then []
    else
      var p := Nouveautes(ms[..|ms| - 1], scan, retry);
      var s := scan(ms[|ms| - 1], retry);
      p + (if s.Resultat? then s.nouveautes else [])
  }

  /** How many of the retried series now returned paper volumes. */
  function Recuperees(ms: seq<Sync.Manga>, scan: (Sync.Manga, bool) -> Scan): (n: nat)
    ensures n <= |ms|
  {
    if ms == [] then 0
    else
      var m := ms[|ms| - 1];
      Recuperees(ms[..|ms| - 1], scan) + (if Echoue(scan(m, true)) then 0 else 1)
  }

  /** One more series of the first pass: what its scan adds to each collection. */
  lemma PremierPas(ms: seq<Sync.Manga>, i: nat, scan: (Sync.Manga, bool) -> Scan)
    requires i < |ms|
    ensures var s := scan(ms[i], false);
            && Echouees(ms[..i + 1], scan) == Echouees(ms[..i], scan) + (if Echoue(s) then [ms[i]] else [])
            && Papiers(ms[..i + 1], scan, false) == Papiers(ms[..i], scan, false) + (if s.Resultat? then s.papiers else [])
            && Nouveautes(ms[..i + 1], scan, false) == Nouveautes(ms[..i], scan, false) + (if s.Resultat? then s.nouveautes else [])
  {
    assert ms[..i + 1][..i] == ms[..i];
  }

  /** One more series of the retry pass. */
  lemma RetryPas(ms: seq<Sync.Manga>, j: nat, scan: (Sync.Manga, bool) -> Scan)
    requires j < |ms|
    ensures var s := scan(ms[j], true);
            && Papiers(ms[..j + 1], scan, true) == Papiers(ms[..j], scan, true) + (if s.Resultat? then s.papiers else [])
            && Nouveautes(ms[..j + 1], scan, true) == Nouveautes(ms[..j], scan, true) + (if s.Resultat? then s.nouveautes else [])
            && Recuperees(ms[..j + 1], scan) == Recuperees(ms[..j], scan) + (if Echoue(s) then 0 else 1)
  {
    assert ms[..j + 1][..j] == ms[..j];
  }

  /**
    The series set aside for the retry are exactly those whose first
    scan raised or found nothing: a series that succeeded is not scanned
    again, and every failed one is.
  */
  lemma {:induction false} EchoueesExactes(ms: seq<Sync.Manga>, scan: (Sync.Manga, bool) -> Scan)
    ensures forall m :: m in Echouees(ms, scan) <==> m in ms && Echoue(scan(m, false))
  {
    if ms != [] {
      var q := ms[..|ms| - 1];
      EchoueesExactes(q, scan);
      assert forall x | x in ms :: x in q || x == ms[|ms| - 1];
    }
  }

  /** The volumes collected are exactly those of the scans that did not raise. */
  lemma {:induction false} PapiersExacts(ms: seq<Sync.Manga>, scan: (Sync.Manga, bool) -> Scan, retry: bool)
    ensures forall t :: t in Papiers(ms, scan, retry) <==>
                        exists m | m in ms :: scan(m, retry).Resultat? && t in scan(m, retry).papiers
  {
    if ms != [] {
      var q := ms[..|ms| - 1];
      PapiersExacts(q, scan, retry);
      assert forall x | x in ms :: x in q || x == ms[|ms| - 1];
      forall t | exists m | m in ms :: scan(m, retry).Resultat? && t in scan(m, retry).papiers
        ensures t in Papiers(ms, scan, retry)
      {
        var m :| m in ms && scan(m, retry).Resultat? && t in scan(m, retry).papiers;
        if m in q {
          assert t in Papiers(q, scan, retry);
        }
      }
    }
  }

  /** No series is counted as recovered unless its retry returned paper volumes, and each such one is. */
  lemma {:induction false} RecupereesExactes(ms: seq<Sync.Manga>, scan: (Sync.Manga, bool) -> Scan)
    ensures Recuperees(ms, scan) == 0 <==> forall m | m in ms :: Echoue(scan(m, true))
  {
    if ms != [] {
      var q := ms[..|ms| - 1];
      RecupereesExactes(q, scan);
      assert forall x | x in ms :: x in q || x == ms[|ms| - 1];
    }
  }

  /**
    The main loop then the retry pass: every series in scan order is
    scanned once; the failed ones are collected and, when there are
    any, scanned once more; the volumes of every scan that did not
    raise are collected in order.
  */
  method Balayer(tries: seq<Sync.Manga>, scan: (Sync.Manga, bool) -> Scan)
    returns (nouveautes: seq<Trouve>, papiers: seq<Trouve>, echouees: seq<Sync.Manga>, nbRecuperees: nat)
    ensures echouees == Echouees(tries, scan)
    ensures papiers == Papiers(tries, scan, false) + Papiers(echouees, scan, true)
    ensures nouveautes == Nouveautes(tries, scan, false) + Nouveautes(echouees, scan, true)
    ensures nbRecuperees == Recuperees(echouees, scan)
  {
    nouveautes, papiers, echouees := PremierePasse(tries, scan);
    nbRecuperees := 0;
    if echouees != [] {
      var n2, p2;
      n2, p2, nbRecuperees := Rattrapage(echouees, scan);
      nouveautes, papiers := nouveautes + n2, papiers + p2;
    }
  }

  /** The main loop: each series scanned once, in order; a failed one is set aside. */
  method PremierePasse(tries: seq<Sync.Manga>, scan: (Sync.Manga, bool) -> Scan)
    returns (nouveautes: seq<Trouve>, papiers: seq<Trouve>, echouees: seq<Sync.Manga>)
    ensures echouees == Echouees(tries, scan)
    ensures papiers == Papiers(tries, scan, false)
    ensures nouveautes == Nouveautes(tries, scan, false)
  {
    nouveautes, papiers, echouees := [], [], [];
    var i := 0;
    while i < |tries|
      invariant 0 <= i <= |tries|
      invariant echouees == Echouees(tries[..i], scan)
      invariant papiers == Papiers(tries[..i], scan, false)
      invariant nouveautes == Nouveautes(tries[..i], scan, false)
    {
      PremierPas(tries, i, scan);
      var s := scan(tries[i], false);
      if s.Resultat? {
        nouveautes := nouveautes + s.nouveautes;
        papiers := papiers + s.papiers;
      }
      if Echoue(s) {
        echouees := echouees + [tries[i]];
      }
      i := i + 1;
    }
    assert tries[..i] == tries;
  }

  /** The retry pass: each failed series scanned once more, counting those that now return volumes. */
  method Rattrapage(echouees: seq<Sync.Manga>, scan: (Sync.Manga, bool) -> Scan)
    returns (nouveautes: seq<Trouve>, papiers: seq<Trouve>, nbRecuperees: nat)
    ensures papiers == Papiers(echouees, scan, true)
    ensures nouveautes == Nouveautes(echouees, scan, true)
    ensures nbRecuperees == Recuperees(echouees, scan)
  {
    nouveautes, papiers, nbRecuperees := [], [], 0;
    var j := 0;
    while j < |echouees|
      invariant 0 <= j <= |echouees|
      invariant papiers == Papiers(echouees[..j], scan, true)
      invariant nouveautes == Nouveautes(echouees[..j], scan, true)
      invariant nbRecuperees == Recuperees(echouees[..j], scan)
    {
      RetryPas(echouees, j, scan);
      var s := scan(echouees[j], true);
      if s.Resultat? {
        nouveautes := nouveautes + s.nouveautes;
        papiers := papiers + s.papiers;
        if s.papiers != [] {
          nbRecuperees := nbRecuperees + 1;
        }
      }
      j := j + 1;
    }
    assert echouees[..j] == echouees;
  }

  // ---- the export

  /** A volume as exported for the viewer. */
  datatype Exporte = Exporte(nom: string, nomFr: string, serieOriginale: Option<string>,
                             dateDetection: string, statut: string, papier: Pipeline.Papier)

  /** The manual status shown for an ASIN: a rejection wins over a validation. */
  function Statut(asin: string, valides: set<string>, rejetes: set<string>): (s: string)
    ensures s == "rejete" <==> asin in rejetes
    ensures s == "valide" <==> asin in valides && asin !in rejetes
    ensures s == "non_traite" <==> asin !in valides && asin !in rejetes
  {
    if asin in rejetes then "rejete" else if asin in valides then "valide" else "non_traite"
  }

  /** The distinct ASINs of the run. */
  function AsinsDu(ps: seq<Trouve>): (r: set<string>)
    ensures forall a :: a in r <==> exists i | 0 <= i < |ps| :: ps[i].papier.asin == a
  {
    if ps == [] then {}
    else
      var p := AsinsDu(ps[..|ps| - 1]);
      assert forall i | 0 <= i < |ps| - 1 :: ps[..|ps| - 1][i] == ps[i];
      p + {ps[|ps| - 1].papier.asin}
  }

  /**
    The count of untreated ASINs: the run's ASINs minus the validated
    ones and the rejected ones among them is the number of the run's
    distinct ASINs that are neither, since no ASIN is both.
  */
  lemma NonTraitesCompte(asins: set<string>, valides: set<string>, rejetes: set<string>)
    requires valides !! rejetes
    ensures |asins| - |valides * asins| - |rejetes * asins| == |asins - valides - rejetes|
  {
    var v, r, n := valides * asins, rejetes * asins, asins - valides - rejetes;
    assert v !! r;
    assert asins == (v + r) + n;
    assert (v + r) !! n;
    assert |(v + r) + n| == |v + r| + |n|;
    assert |v + r| == |v| + |r|;
  }

  /**
    `v` is `t` as exported: the override's series name for both names,
    with the original series recorded, or else its own name and its
    French name (looked up in the translations when unset); the
    detection date; its manual status.
  */
  predicate Etiquete(t: Trouve, v: Exporte, valides: set<string>, rejetes: set<string>, overrides: map<string, string>,
                     traductions: map<string, string>, aujourdhui: string)
  {
    && v.papier == t.papier && v.dateDetection == aujourdhui
    && v.statut == Statut(t.papier.asin, valides, rejetes)
    && (t.papier.asin in overrides ==>
          v.nom == overrides[t.papier.asin] && v.nomFr == overrides[t.papier.asin] && v.serieOriginale == Some(t.nom))
    && (t.papier.asin !in overrides ==>
          v.nom == t.nom && v.serieOriginale.None?
          && v.nomFr == (if t.nomFr != [] then t.nomFr else if t.nom in traductions then traductions[t.nom] else []))
  }

  /**
    The export: every volume of the run tagged as `Etiquete` says, in
    order, then the untreated count over the run's distinct ASINs.
    Nothing is exported for an empty run.
  */
  method Exporter(trouves: seq<Trouve>, db: Store.DatabaseManager, overrides: map<string, string>,
                  traductions: map<string, string>, aujourdhui: string)
    returns (volumes: seq<Exporte>, nbNonTraites: int)
    ensures |volumes| == |trouves|
    ensures forall i | 0 <= i < |volumes| ::
              Etiquete(trouves[i], volumes[i], db.GetAsinsValides(), db.GetAsinsRejetes(), overrides, traductions, aujourdhui)
    ensures nbNonTraites == |AsinsDu(trouves) - db.GetAsinsValides() - db.GetAsinsRejetes()|
  {
    volumes, nbNonTraites := [], 0;
    if trouves == [] {
      return;
    }
    var rejetes := db.GetAsinsRejetes();
    var valides := db.GetAsinsValides();
    volumes := Etiqueter(trouves, valides, rejetes, overrides, traductions, aujourdhui);
    var asins := AsinsDu(trouves);
    nbNonTraites := |asins| - |valides * asins| - |rejetes * asins|;
    db.ValidesRejetesDisjoint();
    NonTraitesCompte(asins, valides, rejetes);
  }

  /** The export loop building `volumes_avec_statut`. */
  method Etiqueter(trouves: seq<Trouve>, valides: set<string>, rejetes: set<string>, overrides: map<string, string>,
                   traductions: map<string, string>, aujourdhui: string)
    returns (volumes: seq<Exporte>)
    ensures |volumes| == |trouves|
    ensures forall i | 0 <= i < |volumes| :: Etiquete(trouves[i], volumes[i], valides, rejetes, overrides, traductions, aujourdhui)
  {
    volumes := [];
    var i := 0;
    while i < |trouves|
      invariant 0 <= i <= |trouves| && |volumes| == i
      invariant forall k | 0 <= k < i :: Etiquete(trouves[k], volumes[k], valides, rejetes, overrides, traductions, aujourdhui)
    {
      var t := trouves[i];
      var asin := t.papier.asin;
      var v: Exporte;
      if asin in overrides {
        v := Exporte(overrides[asin], overrides[asin], Some(t.nom), aujourdhui, "", t.papier);
      } else {
        var nomFr := if t.nomFr != [] then t.nomFr else if t.nom in traductions then traductions[t.nom] else [];
        v := Exporte(t.nom, nomFr, None, aujourdhui, "", t.papier);
      }
      v := v.(statut := Statut(asin, valides, rejetes));
      volumes := volumes + [v];
      i := i + 1;
    }
  }

  /** The untreated ASINs of the run are exactly those of the volumes exported as "non_traite". */
  lemma NonTraitesEtiquetes(trouves: seq<Trouve>, volumes: seq<Exporte>, valides: set<string>, rejetes: set<string>,
                            overrides: map<string, string>, traductions: map<string, string>, aujourdhui: string, a: string)
    requires |volumes| == |trouves|
    requires forall i | 0 <= i < |volumes| :: Etiquete(trouves[i], volumes[i], valides, rejetes, overrides, traductions, aujourdhui)
    ensures a in AsinsDu(trouves) - valides - rejetes <==>
              exists i | 0 <= i < |volumes| :: volumes[i].papier.asin == a && volumes[i].statut == "non_traite"
  {
    if a in AsinsDu(trouves) - valides - rejetes {
      var i :| 0 <= i < |trouves| && trouves[i].papier.asin == a;
      assert Etiquete(trouves[i], volumes[i], valides, rejetes, overrides, traductions, aujourdhui);
    }
  }
}
