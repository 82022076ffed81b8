/**
  The series-list side of `sync.py`: the tracked-series list and the
  corrections record as loaded from the Gist, merged with the series the
  viewer added or removed, the import of the Gist's manual statuses,
  tome corrections and official publishers into the store, the type to
  filter mapping of the list file, and the keys that are written back.
  The Gist and file transfers themselves are left to the caller: what
  they produced is the object's initial state, what they would write is
  its final state.
*/
module Sync {
  import opened Wrappers
  import opened Text
  import opened Normaliser
  import opened Scraper
  import opened Store
  import opened Suites

  // ---- tracked series

  /**
    An entry of the tracked-series list: its internal name, its other
    text-valued keys (`url_suffix`, `filtre`, `type`, `serie_id`,
    `asin_reference`, ...) and its extra URLs.
  */
  datatype Manga = Manga(nom: string, champs: map<string, string>, urls: seq<string>)

  /** The names of a list, in order. */
  function Noms(ms: seq<Manga>): (r: seq<string>)
    ensures |r| == |ms| && forall i | 0 <= i < |ms| :: r[i] == ms[i].nom
  {
    if ms == [] then [] else Noms(ms[..|ms| - 1]) + [ms[|ms| - 1].nom]
  }

  /** No two entries share an internal name. */
  predicate NomsUniques(ms: seq<Manga>) {
    forall i, j | 0 <= i < j < |ms| :: ms[i].nom != ms[j].nom
  }

  /** Some entry has the internal name `nom`. */
  predicate Suivie(ms: seq<Manga>, nom: string) {
    exists i | 0 <= i < |ms| :: ms[i].nom == nom
  }

  /** The entries whose name is not in `noms`, in order. */
  function SansNoms(ms: seq<Manga>, noms: set<string>): (r: seq<Manga>)
    ensures |r| <= |ms|
    ensures forall m | m in r :: m in ms && m.nom !in noms
    ensures forall m | m in ms && m.nom !in noms :: m in r
  {
    if ms == [] then []
    else
      var p := SansNoms(ms[..|ms| - 1], noms);
      var m := ms[|ms| - 1];
      assert forall x | x in ms[..|ms| - 1] :: x in ms;
      assert forall x | x in ms :: x in ms[..|ms| - 1] || x == m;
      if m.nom in noms then p else p + [m]
  }

  /** Filtering keeps names unique. */
  lemma {:induction false} SansNomsUniques(ms: seq<Manga>, noms: set<string>)
    requires NomsUniques(ms)
    ensures NomsUniques(SansNoms(ms, noms))
  {
    if ms != [] {
      var q := ms[..|ms| - 1];
      var m := ms[|ms| - 1];
      assert NomsUniques(q);
      SansNomsUniques(q, noms);
      var p := SansNoms(q, noms);
      if m.nom !in noms {
        forall x | x in p
          ensures x.nom != m.nom
        {
          var k :| 0 <= k < |q| && q[k] == x;
          assert ms[k] == x;
        }
      }
    }
  }

  /** Two lists with the same names have the same unique names and tracked names. */
  lemma NomsUniquesNoms(a: seq<Manga>, b: seq<Manga>)
    requires Noms(a) == Noms(b)
    ensures NomsUniques(a) <==> NomsUniques(b)
    ensures forall n :: Suivie(a, n) <==> Suivie(b, n)
  {
    assert forall i | 0 <= i < |a| :: a[i].nom == Noms(a)[i] == b[i].nom;
  }

  /** Dropping the names `noms` from a list that tracks one of them shortens it. */
  lemma {:induction false} SansNomsRetire(ms: seq<Manga>, noms: set<string>, j: nat)
    requires j < |ms| && ms[j].nom in noms
    ensures |SansNoms(ms, noms)| < |ms|
  {
    var q := ms[..|ms| - 1];
    if j < |q| {
      assert q[j] == ms[j];
      SansNomsRetire(q, noms, j);
    }
  }

  /** A name is tracked after the filter exactly when it was tracked before and is not dropped. */
  lemma SuivieSansNoms(ms: seq<Manga>, noms: set<string>, n: string)
    ensures Suivie(SansNoms(ms, noms), n) <==> Suivie(ms, n) && n !in noms
  {
    var r := SansNoms(ms, noms);
    if Suivie(ms, n) && n !in noms {
      var i :| 0 <= i < |ms| && ms[i].nom == n;
      assert ms[i] in r;
    }
    if Suivie(r, n) {
      var i :| 0 <= i < |r| && r[i].nom == n;
      assert r[i] in ms;
    }
  }

  /** The filter shortens a list exactly when the list tracks one of the dropped names. */
  lemma {:induction false} SansNomsRaccourcit(ms: seq<Manga>, noms: set<string>)
    ensures |SansNoms(ms, noms)| < |ms| <==> exists n | n in noms :: Suivie(ms, n)
  {
    if exists n | n in noms :: Suivie(ms, n) {
      var n :| n in noms && Suivie(ms, n);
      var j :| 0 <= j < |ms| && ms[j].nom == n;
      SansNomsRetire(ms, noms, j);
    } else if ms != [] {
      var q := ms[..|ms| - 1];
      SansNomsRaccourcit(q, noms);
      assert forall i | 0 <= i < |q| :: q[i] == ms[i];
      assert ms[|ms| - 1].nom !in noms;
    }
  }

  /** Lists with the same names keep the same names once filtered. */
  lemma {:induction false} SansNomsNoms(a: seq<Manga>, b: seq<Manga>, noms: set<string>)
    requires Noms(a) == Noms(b)
    ensures Noms(SansNoms(a, noms)) == Noms(SansNoms(b, noms))
  {
    if a != [] {
      var qa, qb := a[..|a| - 1], b[..|b| - 1];
      assert Noms(qa) == Noms(qb) by {
        assert Noms(a)[..|a| - 1] == Noms(qa);
        assert Noms(b)[..|b| - 1] == Noms(qb);
      }
      SansNomsNoms(qa, qb, noms);
      assert a[|a| - 1].nom == Noms(a)[|a| - 1] == b[|b| - 1].nom;
    }
  }

  /**
    The list left by step 1b: the non-blank names of the removal list
    dropped, whether or not one of them was tracked.
  */
  function ApresRetrait(ms: seq<Manga>, supprimees: seq<string>): (r: seq<Manga>)
    ensures forall n :: Suivie(r, n) <==> Suivie(ms, n) && n !in NonVides(supprimees)
  {
    var r := SansNoms(ms, Ensemble(NonVides(supprimees)));
    assert forall n :: Suivie(r, n) <==> Suivie(ms, n) && n !in NonVides(supprimees) by {
      forall n ensures Suivie(r, n) <==> Suivie(ms, n) && n !in NonVides(supprimees) {
        SuivieSansNoms(ms, Ensemble(NonVides(supprimees)), n);
      }
    }
    r
  }

  /**
    Step 1b run on the merged list `fusionnees` (the names of `m0`) with
    the names `noms`: the list it leaves is as long as `m0` filtered, it
    tracks the names of `m0` that are not dropped, and it is shorter
    exactly when `m0` tracks a dropped name.
  */
  lemma RetraitListe(m0: seq<Manga>, fusionnees: seq<Manga>, noms: seq<string>, apres: seq<Manga>)
    requires Noms(fusionnees) == Noms(m0)
    requires noms == [] ==> apres == fusionnees
    requires noms != [] ==> apres == SansNoms(fusionnees, Ensemble(noms))
    ensures |apres| == |SansNoms(m0, Ensemble(noms))|
    ensures forall n :: Suivie(apres, n) <==> Suivie(m0, n) && n !in noms
    ensures |apres| < |fusionnees| <==> exists n | n in noms :: Suivie(m0, n)
  {
    var e := Ensemble(noms);
    NomsUniquesNoms(fusionnees, m0);
    SansNomsNoms(fusionnees, m0, e);
    SansNomsRaccourcit(m0, e);
    SansNomsRaccourcit(fusionnees, e);
    assert |Noms(SansNoms(fusionnees, e))| == |Noms(SansNoms(m0, e))|;
    forall n ensures Suivie(apres, n) <==> Suivie(m0, n) && n !in noms {
      SuivieSansNoms(fusionnees, e, n);
    }
  }

  /** Step 1b drops a series: a non-blank name of the removal list is tracked. */
  predicate UneRetiree(ms: seq<Manga>, supprimees: seq<string>) {
    exists n | n in NonVides(supprimees) :: Suivie(ms, n)
  }

  /** Step 1c appends a series: a non-empty addition's internal name is not tracked once step 1b is done. */
  predicate UneAjoutee(ms: seq<Manga>, supprimees: seq<string>, ajoutees: seq<Ajout>) {
    exists a | a in ajoutees && a.nom != [] :: !Suivie(ApresRetrait(ms, supprimees), NomInterne(a))
  }

  /** Some non-empty addition has the internal name `n`. */
  predicate Ajoutee(ajoutees: seq<Ajout>, n: string) {
    exists a | a in ajoutees && a.nom != [] :: NomInterne(a) == n
  }

  /**
    Step 1c after step 1b: from the list `apres` that tracks what
    `ApresRetrait` of `m0` tracks, step 1c leaves `ms` and reports
    `ajoute`. Then a series was appended exactly as `UneAjoutee` says,
    and the tracked names are the ones not removed and the ones added.
  */
  lemma EtapesListe(m0: seq<Manga>, c: SeriesConfig, apres: seq<Manga>, ms: seq<Manga>, ajoute: bool)
    requires forall n :: Suivie(apres, n) <==> Suivie(ApresRetrait(m0, c.supprimees), n)
    requires forall n :: Suivie(ms, n) <==> Suivie(apres, n) || Ajoutee(c.ajoutees, n)
    requires ajoute <==> exists a | a in c.ajoutees && a.nom != [] :: !Suivie(apres, NomInterne(a))
    ensures ajoute <==> UneAjoutee(m0, c.supprimees, c.ajoutees)
    ensures forall n :: Suivie(ms, n) <==> (Suivie(m0, n) && n !in NonVides(c.supprimees)) || Ajoutee(c.ajoutees, n)
  {
  }

  // ---- extra URLs

  /** The distinct elements of `s`, each at its first place. */
  function SansDoublons(s: seq<string>): (r: seq<string>)
    ensures Distinct(r)
    ensures forall x :: x in r <==> x in s
  {
    if s == [] then []
    else
      var p := SansDoublons(s[..|s| - 1]);
      var x := s[|s| - 1];
      assert forall y | y in s :: y in s[..|s| - 1] || y == x;
      if x in p then p else p + [x]
  }

  /**
    Adds to an entry the extra URLs given for its name, without
    duplicates, when there are any.
  */
  function Fusion(m: Manga, urls: map<string, seq<string>>): (r: Manga)
    ensures r.nom == m.nom && r.champs == m.champs
    ensures m.nom !in urls || m.urls + urls[m.nom] == [] ==> r == m
    ensures m.nom in urls && m.urls + urls[m.nom] != [] ==>
              Distinct(r.urls) && forall u :: u in r.urls <==> u in m.urls || u in urls[m.nom]
  {
    if m.nom in urls && m.urls + urls[m.nom] != [] then m.(urls := SansDoublons(m.urls + urls[m.nom])) else m
  }

  /** How many URLs were given for the entries of `ms` (what the merge adds to its counter). */
  function UrlsDonnees(ms: seq<Manga>, urls: map<string, seq<string>>): nat {
    if ms == [] then 0
    else UrlsDonnees(ms[..|ms| - 1], urls) + (var m := ms[|ms| - 1]; if m.nom in urls then |urls[m.nom]| else 0)
  }

  /** `UrlsDonnees` over one more entry. */
  lemma UrlsDonneesPas(ms: seq<Manga>, i: nat, urls: map<string, seq<string>>)
    requires i < |ms|
    ensures UrlsDonnees(ms[..i + 1], urls) ==
              UrlsDonnees(ms[..i], urls) + (if ms[i].nom in urls then |urls[ms[i].nom]| else 0)
  {
    assert ms[..i + 1][..i] == ms[..i];
  }

  /** The merge loop of `Synchro.FusionnerUrls`, entry by entry. */
  method FusionnerListe(mangas: seq<Manga>, urls: map<string, seq<string>>) returns (ms: seq<Manga>, modifs: nat)
    ensures |ms| == |mangas|
    ensures forall i | 0 <= i < |ms| :: ms[i] == Fusion(mangas[i], urls)
    ensures Noms(ms) == Noms(mangas)
    ensures modifs == UrlsDonnees(mangas, urls)
  {
    modifs := 0;
    ms := mangas;
    var i := 0;
    while i < |ms|
      invariant 0 <= i <= |ms| == |mangas|
      invariant forall k | 0 <= k < i :: ms[k] == Fusion(mangas[k], urls)
      invariant forall k | i <= k < |ms| :: ms[k] == mangas[k]
      invariant modifs == UrlsDonnees(mangas[..i], urls)
    {
      var m := ms[i];
      UrlsDonneesPas(mangas, i, urls);
      if m.nom in urls {
        var tout := SansDoublons(m.urls + urls[m.nom]);
        ghost var donnees := m.urls + urls[m.nom];
        assert donnees != [] ==> donnees[0] in tout;
        assert tout != [] ==> tout[0] in donnees;
        if tout != [] {
          ms := ms[i := m.(urls := tout)];
          modifs := modifs + |urls[m.nom]|;
        }
      }
      i := i + 1;
    }
    assert mangas[..i] == mangas;
    assert forall k | 0 <= k < |ms| :: Noms(ms)[k] == Noms(mangas)[k];
  }

  // ---- series the viewer adds

  /** A series the viewer added: its name, URL, type, and its search title when it gave one. */
  datatype Ajout = Ajout(nom: string, url: string, typeSerie: string, urlSuffix: Option<string>)

  /** `m` holds `v` under `k`. */
  predicate MapsTo(m: map<string, string>, k: string, v: string) {
    k in m && m[k] == v
  }

  /** The internal name of an added series: suffixed with its type unless it already is. */
  function NomInterne(a: Ajout): (r: string)
    ensures EndsWith(r, " [LN]") || EndsWith(r, " [MANGA]")
    ensures EndsWith(a.nom, " [LN]") || EndsWith(a.nom, " [MANGA]") ==> r == a.nom
    ensures !EndsWith(a.nom, " [LN]") && !EndsWith(a.nom, " [MANGA]") ==>
              r == a.nom + (if a.typeSerie == "ln" then " [LN]" else " [MANGA]")
  {
    if !EndsWith(a.nom, " [LN]") && !EndsWith(a.nom, " [MANGA]") then
      var suffixe := if a.typeSerie == "ln" then " [LN]" else " [MANGA]";
      assert (a.nom + suffixe)[|a.nom + suffixe| - |suffixe|..] == suffixe;
      a.nom + suffixe
    else a.nom
  }

  /** Removing the type suffix from the internal name gives back the name the viewer sent. */
  lemma NomInterneAffiche(a: Ajout)
    ensures StripTypeSuffix(NomInterne(a)) == StripTypeSuffix(a.nom)
  {
    var r := NomInterne(a);
    if !EndsWith(a.nom, " [LN]") && !EndsWith(a.nom, " [MANGA]") {
      if a.typeSerie == "ln" {
        assert r[..|r| - 5] == a.nom;
      } else {
        assert r[|r| - 5..][0] == 'A';
        assert r[..|r| - 8] == a.nom;
      }
    }
  }

  /**
    The entry made for an added series: its internal name, its search
    title, the filter its type calls for, and either the reference ASIN
    of a "/dp/" URL (which also becomes its one extra URL) or any other
    URL as its search title.
  */
  function NouvelleSerie(a: Ajout): (m: Manga)
    ensures m.nom == NomInterne(a)
    ensures a.typeSerie == "ln" ==> MapsTo(m.champs, "filtre", "ln_only") && MapsTo(m.champs, "type", "ln")
    ensures a.typeSerie == "manga" ==> MapsTo(m.champs, "filtre", "manga_only") && "type" !in m.champs
    ensures a.typeSerie != "ln" && a.typeSerie != "manga" ==> "filtre" !in m.champs && "type" !in m.champs
    ensures Contains(a.url, "/dp/") && AsinDp(a.url).Some? ==>
              MapsTo(m.champs, "asin_reference", AsinDp(a.url).value) && m.urls == [a.url]
              && MapsTo(m.champs, "url_suffix", if a.urlSuffix.Some? then a.urlSuffix.value else a.nom)
    ensures !(Contains(a.url, "/dp/") && AsinDp(a.url).Some?) ==> "asin_reference" !in m.champs && m.urls == []
    ensures a.url != [] && !Contains(a.url, "/dp/") ==> MapsTo(m.champs, "url_suffix", a.url)
    ensures a.url == [] ==> MapsTo(m.champs, "url_suffix", if a.urlSuffix.Some? then a.urlSuffix.value else a.nom)
  {
    var base := map["url_suffix" := if a.urlSuffix.Some? then a.urlSuffix.value else a.nom];
    var typee := if a.typeSerie == "ln" then base["filtre" := "ln_only"]["type" := "ln"]
                 else if a.typeSerie == "manga" then base["filtre" := "manga_only"]
                 else base;
    var asin := if a.url != [] && Contains(a.url, "/dp/") then AsinDp(a.url) else None;
    if asin.Some? then Manga(NomInterne(a), typee["asin_reference" := asin.value], [a.url])
    else if a.url != [] && !Contains(a.url, "/dp/") then Manga(NomInterne(a), typee["url_suffix" := a.url], [])
    else Manga(NomInterne(a), typee, [])
  }

  // ---- the list file

  /** The keys `sauvegarder_mangas_liste` writes. */
  const ClesPersistees: set<string> := {"nom", "url_suffix", "filtre", "type", "serie_id"}

  /** An entry as the list file stores it: the persisted keys with a non-empty value only. */
  function Persistee(m: Manga): (r: map<string, string>)
    ensures forall k | k in r :: k in ClesPersistees && r[k] != []
    ensures "nom" in r <==> m.nom != []
    ensures "nom" in r ==> r["nom"] == m.nom
    ensures forall k | k in ClesPersistees && k != "nom" ::
              (k in r <==> k in m.champs && m.champs[k] != []) && (k in r ==> r[k] == m.champs[k])
  {
    var autres := map k | k in m.champs && k in ClesPersistees && k != "nom" && m.champs[k] != [] :: m.champs[k];
    if m.nom != [] then autres["nom" := m.nom] else autres
  }

  /**
    `charger_mangas_liste`: an entry without a filter but with a type
    gets "ln_only" for type "ln" and "manga_only" for type "manga".
  */
  function AvecFiltre(m: Manga): (r: Manga)
    ensures r.nom == m.nom && r.urls == m.urls
    ensures var sansFiltre := "filtre" !in m.champs || m.champs["filtre"] == [];
            var t := if "type" in m.champs then m.champs["type"] else "";
            (sansFiltre && t == "ln" ==> r.champs == m.champs["filtre" := "ln_only"])
            && (sansFiltre && t == "manga" ==> r.champs == m.champs["filtre" := "manga_only"])
            && (!(sansFiltre && (t == "ln" || t == "manga")) ==> r == m)
  {
    if ("filtre" !in m.champs || m.champs["filtre"] == []) && "type" in m.champs && m.champs["type"] != [] then
      if m.champs["type"] == "ln" then m.(champs := m.champs["filtre" := "ln_only"])
      else if m.champs["type"] == "manga" then m.(champs := m.champs["filtre" := "manga_only"])
      else m
    else m
  }

  /** A mapped entry keeps a filter it had, and gets one exactly when its type is "ln" or "manga". */
  lemma AvecFiltreIdempotent(m: Manga)
    ensures AvecFiltre(AvecFiltre(m)) == AvecFiltre(m)
  {
  }

  // ---- manual statuses

  /**
    The statuses after importing `liste` with `statut`, skipping the
    ASINs in `existants` (the ones that had that status before the import).
  */
  function Importer(statuts: map<string, string>, liste: seq<string>, statut: string, existants: set<string>): (r: map<string, string>)
    ensures r.Keys == statuts.Keys + (set a | a in liste && a !in existants)
    ensures forall a | a in r :: r[a] == (if a in liste && a !in existants then statut else statuts[a])
  {
    if liste == [] then statuts
    else
      var p := Importer(statuts, liste[..|liste| - 1], statut, existants);
      var a := liste[|liste| - 1];
      assert forall x | x in liste :: x in liste[..|liste| - 1] || x == a;
      if a !in existants then p[a := statut] else p
  }

  /** Importing rejections then validations: an ASIN only the Gist rejects ends rejected. */
  lemma ImportRejete(statuts: map<string, string>, rejetes: seq<string>, valides: seq<string>, a: string)
    requires a in rejetes && a !in valides
    ensures var existantsR := set x | x in statuts && statuts[x] == "rejete";
            var existantsV := set x | x in statuts && statuts[x] == "valide";
            var r := Importer(Importer(statuts, rejetes, "rejete", existantsR), valides, "valide", existantsV);
            a in r && r[a] == "rejete"
  {
  }

  /**
    An ASIN the Gist validates ends validated, unless the Gist also
    rejects it while the store already had it validated: the second
    pass skips it, so the first pass's rejection stays.
  */
  lemma ImportValide(statuts: map<string, string>, rejetes: seq<string>, valides: seq<string>, a: string)
    requires a in valides
    ensures var existantsR := set x | x in statuts && statuts[x] == "rejete";
            var existantsV := set x | x in statuts && statuts[x] == "valide";
            var r := Importer(Importer(statuts, rejetes, "rejete", existantsR), valides, "valide", existantsV);
            a in r && (r[a] == "valide" <==> !(a in rejetes && a in existantsV))
  {
  }

  // ---- the corrections record

  /** The Gist's corrections record: validated and rejected ASINs, tome corrections, official publishers by series. */
  datatype Corrections = Corrections(valides: seq<string>, rejetes: seq<string>, tomes: map<string, string>, editeurs: map<string, string>)

  /** The elements of `s` outside `asins`, in order. */
  function Filtrer(s: seq<string>, asins: set<string>): (r: seq<string>)
    ensures |r| <= |s|
    ensures forall a :: a in r <==> a in s && a !in asins
  {
    if s == [] then []
    else
      var p := Filtrer(s[..|s| - 1], asins);
      var x := s[|s| - 1];
      assert forall y | y in s :: y in s[..|s| - 1] || y == x;
      if x in asins then p else p + [x]
  }

  /** Filtering twice is filtering once by both sets. */
  lemma {:induction false} FiltrerDeux(s: seq<string>, a: set<string>, b: set<string>)
    ensures Filtrer(Filtrer(s, a), b) == Filtrer(s, a + b)
  {
    if s != [] {
      var q := s[..|s| - 1];
      FiltrerDeux(q, a, b);
      var x := s[|s| - 1];
      if x !in a {
        assert Filtrer(s, a) == Filtrer(q, a) + [x];
        assert (Filtrer(q, a) + [x])[..|Filtrer(q, a) + [x]| - 1] == Filtrer(q, a);
      }
    }
  }

  /** Filtering by nothing keeps the whole sequence. */
  lemma {:induction false} FiltrerRien(s: seq<string>)
    ensures Filtrer(s, {}) == s
  {
    if s != [] {
      FiltrerRien(s[..|s| - 1]);
    }
  }

  /**
    The record once the ASINs `asins` of purged series are dropped from
    its lists and tome corrections, and the series `noms` from its
    publishers.
  */
  function Retiree(c: Corrections, asins: set<string>, noms: set<string>): (r: Corrections)
    ensures forall a | a in asins :: a !in r.valides && a !in r.rejetes && a !in r.tomes
    ensures forall a | a !in asins :: (a in r.valides <==> a in c.valides) && (a in r.rejetes <==> a in c.rejetes)
    ensures r.tomes.Keys == c.tomes.Keys - asins && forall a | a in r.tomes :: r.tomes[a] == c.tomes[a]
    ensures r.editeurs.Keys == c.editeurs.Keys - noms && forall n | n in r.editeurs :: r.editeurs[n] == c.editeurs[n]
  {
    Corrections(Filtrer(c.valides, asins), Filtrer(c.rejetes, asins), c.tomes - asins, c.editeurs - noms)
  }

  /** Dropping in two steps is dropping once the union. */
  lemma RetireeDeux(c: Corrections, a: set<string>, n: set<string>, b: set<string>, m: set<string>)
    ensures Retiree(Retiree(c, a, n), b, m) == Retiree(c, a + b, n + m)
  {
    FiltrerDeux(c.valides, a, b);
    FiltrerDeux(c.rejetes, a, b);
    MoinsDeux(c.tomes, a, b);
    MoinsDeux(c.editeurs, n, m);
  }

  /** Dropping nothing leaves the record as it was. */
  lemma RetireeRien(c: Corrections)
    ensures Retiree(c, {}, {}) == c
  {
    FiltrerRien(c.valides);
    FiltrerRien(c.rejetes);
  }

  /** `c` keeps only entries `c0` had, with their values. */
  predicate Sous(c: Corrections, c0: Corrections) {
    && (forall a | a in c.valides :: a in c0.valides)
    && (forall a | a in c.rejetes :: a in c0.rejetes)
    && (forall a | a in c.tomes :: a in c0.tomes && c.tomes[a] == c0.tomes[a])
    && (forall n | n in c.editeurs :: n in c0.editeurs && c.editeurs[n] == c0.editeurs[n])
  }

  /** The record went from `c0` to `c` by losing entries only: it is there exactly when it was. */
  predicate Retrecie(c0: Option<Corrections>, c: Option<Corrections>) {
    c.Some? == c0.Some? && (c.Some? ==> Sous(c.value, c0.value))
  }

  /** No ASIN of `asins` is left in the lists and tome corrections of `c`, no series of `noms` among its publishers. */
  predicate Nettoyee(c: Corrections, asins: set<string>, noms: set<string>) {
    && (forall a | a in asins :: a !in c.valides && a !in c.rejetes && a !in c.tomes)
    && (forall n | n in noms :: n !in c.editeurs)
  }

  /**
    What the purge of a stale cache leaves of series `nom`, which had the
    ASINs `asins`, in `c`: none of them, nor its publisher when it had any.
  */
  predicate SansTrace(c: Corrections, asins: set<string>, nom: string) {
    Nettoyee(c, asins, if asins == {} then {} else {nom})
  }

  /** Dropping entries is losing entries only, and leaves none of what was dropped. */
  lemma RetireeRetrecie(c: Corrections, asins: set<string>, noms: set<string>)
    ensures Sous(Retiree(c, asins, noms), c) && Nettoyee(Retiree(c, asins, noms), asins, noms)
  {
  }

  /** `c` is the record `c0` once the first `i` removed names have been purged. */
  ghost predicate RetireeJusque(c0: Corrections, asins0: map<string, set<string>>, noms: seq<string>, i: nat, c: Corrections)
    requires i <= |noms| && forall n | n in noms :: n in asins0
  {
    c == Retiree(c0, Union(asins0, noms[..i]), Ensemble(noms[..i]))
  }

  /** Purging the next name (whose ASINs are gone already if it came earlier) extends the purge by one. */
  lemma RetireeSuivante(c0: Corrections, asins0: map<string, set<string>>, noms: seq<string>, i: nat, c: Corrections)
    requires i < |noms| && forall n | n in noms :: n in asins0
    requires RetireeJusque(c0, asins0, noms, i, c)
    ensures RetireeJusque(c0, asins0, noms, i + 1, Retiree(c, if noms[i] in noms[..i] then {} else asins0[noms[i]], {noms[i]}))
  {
    var u := Union(asins0, noms[..i]);
    var b := if noms[i] in noms[..i] then {} else asins0[noms[i]];
    RetireeDeux(c0, u, Ensemble(noms[..i]), b, {noms[i]});
    assert noms[..i + 1] == noms[..i] + [noms[i]];
    assert noms[..i + 1][..i] == noms[..i];
    EnsemblePas(noms[..i], noms[i]);
    assert u + b == Union(asins0, noms[..i + 1]);
  }

  /**
    The store tables `volumes` and `featured` after the first `i` removed
    names of `noms`: every purged name has no ASIN left, every name still
    to come that was not purged has the ASINs it had before the loop.
  */
  ghost predicate Purgees(volumes: map<string, Volume>, featured: map<(string, string), Featured>, noms: seq<string>,
                          i: nat, faits: set<string>, asins0: map<string, set<string>>)
  {
    i <= |noms| && (forall n | n in noms :: n in asins0) && faits == Ensemble(noms[..i])
    && (forall k | 0 <= k < i :: AsinsDe(volumes, featured, noms[k]) == {})
    && (forall k | i <= k < |noms| && noms[k] !in faits :: AsinsDe(volumes, featured, noms[k]) == asins0[noms[k]])
  }

  /** Emptying the `i`-th name, and no other, extends the purge by that name. */
  lemma PurgeesSuivant(v0: map<string, Volume>, f0: map<(string, string), Featured>,
                       v1: map<string, Volume>, f1: map<(string, string), Featured>,
                       noms: seq<string>, i: nat, faits: set<string>, asins0: map<string, set<string>>)
    requires i < |noms| && Purgees(v0, f0, noms, i, faits, asins0)
    requires AsinsDe(v1, f1, noms[i]) == {}
    requires forall n | n != noms[i] :: AsinsDe(v1, f1, n) == AsinsDe(v0, f0, n)
    ensures Purgees(v1, f1, noms, i + 1, faits + {noms[i]}, asins0)
  {
    PrefixeSuivant(noms, i);
    EnsemblePas(noms[..i], noms[i]);
  }

  /** Every ASIN the store tables `v`, `f` hold for the series of `noms`. */
  function AsinsDesSeries(v: map<string, Volume>, f: map<(string, string), Featured>, noms: seq<string>): (r: set<string>)
    ensures forall n | n in noms :: AsinsDe(v, f, n) <= r
    ensures forall a | a in r :: exists n | n in noms :: a in AsinsDe(v, f, n)
  {
    Union(map n | n in noms :: AsinsDe(v, f, n), noms)
  }

  /** A map giving each name of `noms` its ASINs in `v`, `f` unites into the ASINs of those series. */
  lemma UnionAsinsDes(asins: map<string, set<string>>, v: map<string, Volume>, f: map<(string, string), Featured>, noms: seq<string>)
    requires forall n | n in noms :: n in asins && asins[n] == AsinsDe(v, f, n)
    ensures Union(asins, noms) == AsinsDesSeries(v, f, noms)
  {
    forall a | a in Union(asins, noms) ensures a in AsinsDesSeries(v, f, noms) {
      var n :| n in noms && a in asins[n];
    }
    forall a | a in AsinsDesSeries(v, f, noms) ensures a in Union(asins, noms) {
      var n :| n in noms && a in AsinsDe(v, f, n);
    }
  }

  /** Every series outside `noms` has in `v`, `f` the volumes and ASINs it had in `v0`, `f0`. */
  ghost predicate Intacts(v0: map<string, Volume>, f0: map<(string, string), Featured>,
                          v: map<string, Volume>, f: map<(string, string), Featured>, noms: seq<string>)
  {
    forall n | n !in noms :: AsinsDe(v, f, n) == AsinsDe(v0, f0, n) && VolumesDe(v, n) == VolumesDe(v0, n)
  }

  /**
    The store tables `v`, `f` and the record `c` while the addition loop,
    which started from the list `m0`, the tables `v0`, `f0` and the record
    `c0`, has made the list `ms`: a series not yet tracked keeps its rows,
    the record only lost entries, and every series added over a stale
    cache (it had volumes) has no trace left in the record.
  */
  ghost predicate EtatStore(m0: seq<Manga>, v0: map<string, Volume>, f0: map<(string, string), Featured>, c0: Option<Corrections>,
                            ms: seq<Manga>, v: map<string, Volume>, f: map<(string, string), Featured>, c: Option<Corrections>)
  {
    && (forall n | !Suivie(ms, n) :: AsinsDe(v, f, n) == AsinsDe(v0, f0, n) && VolumesDe(v, n) == VolumesDe(v0, n))
    && Retrecie(c0, c)
    && (forall n | Suivie(ms, n) && !Suivie(m0, n) && VolumesDe(v0, n) != {} && c.Some? :: SansTrace(c.value, AsinsDe(v0, f0, n), n))
  }

  /**
    The store and record side of one addition `a`, from the list `avant`,
    tables `v1`, `f1` and record `c1` to `apres`, `v2`, `f2`, `c2`: a
    stale cache is purged when the series is added and had volumes, and
    then its ASINs (and publisher) leave the record when it had ASINs.
  */
  lemma AjoutStore(m0: seq<Manga>, v0: map<string, Volume>, f0: map<(string, string), Featured>, c0: Option<Corrections>,
                   avant: seq<Manga>, apres: seq<Manga>, a: Ajout, ajoute: bool,
                   v1: map<string, Volume>, f1: map<(string, string), Featured>, c1: Option<Corrections>,
                   v2: map<string, Volume>, f2: map<(string, string), Featured>, c2: Option<Corrections>)
    requires EtatStore(m0, v0, f0, c0, avant, v1, f1, c1)
    requires ajoute <==> a.nom != [] && !Suivie(avant, NomInterne(a))
    requires apres == avant + (if ajoute then [NouvelleSerie(a)] else [])
    requires var purge := ajoute && VolumesDe(v1, NomInterne(a)) != {};
             var asins := AsinsDe(v1, f1, NomInterne(a));
             && (purge ==> v2 == SansVolumesDe(v1, NomInterne(a)) && f2 == SansSerie(f1, NomInterne(a)))
             && (!purge ==> v2 == v1 && f2 == f1)
             && c2 == if purge && asins != {} && c1.Some? then Some(Retiree(c1.value, asins, {NomInterne(a)})) else c1
    ensures EtatStore(m0, v0, f0, c0, apres, v2, f2, c2)
  {
    var nom := NomInterne(a);
    var purge := ajoute && VolumesDe(v1, nom) != {};
    forall n | Suivie(avant, n) ensures Suivie(apres, n) {
      var k :| 0 <= k < |avant| && avant[k].nom == n;
      assert apres[k] == avant[k];
    }
    forall n | Suivie(apres, n) ensures Suivie(avant, n) || (ajoute && n == nom) {
      var k :| 0 <= k < |apres| && apres[k].nom == n;
      if k < |avant| {
        assert apres[k] == avant[k];
      }
    }
    if ajoute {
      assert apres[|avant|].nom == nom;
    }
    if purge {
      AsinsDeApresPurge(v1, f1, nom);
    }
    forall n | !Suivie(apres, n)
      ensures AsinsDe(v2, f2, n) == AsinsDe(v0, f0, n) && VolumesDe(v2, n) == VolumesDe(v0, n)
    {
      assert !Suivie(avant, n) && (purge ==> n != nom);
    }
    if c1.Some? {
      RetireeRetrecie(c1.value, AsinsDe(v1, f1, nom), {nom});
      assert Sous(c2.value, c1.value);
    }
    forall n | Suivie(apres, n) && !Suivie(m0, n) && VolumesDe(v0, n) != {} && c2.Some?
      ensures SansTrace(c2.value, AsinsDe(v0, f0, n), n)
    {
      if Suivie(avant, n) {
        SousNettoyee(c2.value, c1.value, AsinsDe(v0, f0, n), if AsinsDe(v0, f0, n) == {} then {} else {n});
      } else {
        assert n == nom && purge && AsinsDe(v1, f1, n) == AsinsDe(v0, f0, n);
        if AsinsDe(v1, f1, nom) != {} {
          assert c2.value == Retiree(c1.value, AsinsDe(v1, f1, nom), {nom});
        }
      }
    }
  }

  /** Once every addition is tracked, each one made over a stale cache has no trace left in the record. */
  lemma AjoutsNettoyes(ajoutees: seq<Ajout>, m0: seq<Manga>, v0: map<string, Volume>, f0: map<(string, string), Featured>,
                       c0: Option<Corrections>, ms: seq<Manga>, v: map<string, Volume>, f: map<(string, string), Featured>,
                       c: Option<Corrections>)
    requires EtatStore(m0, v0, f0, c0, ms, v, f, c)
    requires forall n | Ajoutee(ajoutees, n) :: Suivie(ms, n)
    ensures forall n | Ajoutee(ajoutees, n) && !Suivie(m0, n) && VolumesDe(v0, n) != {} && c.Some? ::
              SansTrace(c.value, AsinsDe(v0, f0, n), n)
  {
  }

  /**
    The record `c` once the removal list `supprimees` and the addition
    list `ajoutees` were applied to the list `m0`, over the store tables
    `v0`, `f0` and the record `c0`: it only lost entries; once a tracked
    series was dropped, no removed series has an ASIN or a publisher left
    in it; and a series added over a stale cache (it had volumes and was
    not tracked after the removal) has no trace left in it.
  */
  ghost predicate Nettoyage(m0: seq<Manga>, supprimees: seq<string>, ajoutees: seq<Ajout>,
                            v0: map<string, Volume>, f0: map<(string, string), Featured>, c0: Option<Corrections>,
                            c: Option<Corrections>)
  {
    && Retrecie(c0, c)
    && (UneRetiree(m0, supprimees) && c.Some? ==>
          forall n | n in NonVides(supprimees) :: Nettoyee(c.value, AsinsDe(v0, f0, n), {n}))
    && (forall n | Ajoutee(ajoutees, n) && !Suivie(ApresRetrait(m0, supprimees), n) && VolumesDe(v0, n) != {} && c.Some? ::
          SansTrace(c.value, AsinsDe(v0, f0, n), n))
  }

  /**
    The record across a removal step (from `c0` and the tables `v0`, `f0`
    to `c1`, `v1`, `f1`, which dropped a series when `retire`) and an
    addition step (from `c1` to `c2`, the list after the removal being
    `ms1`) is as `Nettoyage` says.
  */
  lemma RetraitPuisAjout(m0: seq<Manga>, supprimees: seq<string>, ajoutees: seq<Ajout>, retire: bool, ms1: seq<Manga>,
                         v0: map<string, Volume>, f0: map<(string, string), Featured>, c0: Option<Corrections>,
                         v1: map<string, Volume>, f1: map<(string, string), Featured>, c1: Option<Corrections>,
                         c2: Option<Corrections>)
    requires retire <==> UneRetiree(m0, supprimees)
    requires forall n :: Suivie(ms1, n) <==> Suivie(ApresRetrait(m0, supprimees), n)
    requires retire && c0.Some? ==> c1 == Some(Retiree(c0.value, AsinsDesSeries(v0, f0, NonVides(supprimees)), Ensemble(NonVides(supprimees))))
    requires !retire || c0.None? ==> c1 == c0
    requires !retire ==> v1 == v0 && f1 == f0
    requires Intacts(v0, f0, v1, f1, NonVides(supprimees))
    requires Retrecie(c1, c2)
    requires forall n | Ajoutee(ajoutees, n) && !Suivie(ms1, n) && VolumesDe(v1, n) != {} && c2.Some? ::
               SansTrace(c2.value, AsinsDe(v1, f1, n), n)
    ensures Nettoyage(m0, supprimees, ajoutees, v0, f0, c0, c2)
  {
    var noms := NonVides(supprimees);
    if retire && c0.Some? {
      RetireeRetrecie(c0.value, AsinsDesSeries(v0, f0, noms), Ensemble(noms));
      forall n | n in noms
        ensures Nettoyee(c2.value, AsinsDe(v0, f0, n), {n})
      {
        SousNettoyee(c2.value, c1.value, AsinsDe(v0, f0, n), {n});
      }
    }
    forall n | Ajoutee(ajoutees, n) && !Suivie(ApresRetrait(m0, supprimees), n) && VolumesDe(v0, n) != {} && c2.Some?
      ensures SansTrace(c2.value, AsinsDe(v0, f0, n), n)
    {
      assert !Suivie(ms1, n);
      if retire && n in noms {
        SousNettoyee(c2.value, c1.value, AsinsDe(v0, f0, n), if AsinsDe(v0, f0, n) == {} then {} else {n});
      } else {
        assert AsinsDe(v1, f1, n) == AsinsDe(v0, f0, n) && VolumesDe(v1, n) == VolumesDe(v0, n);
      }
    }
  }

  /** What was cleaned from a record stays cleaned once it loses more entries. */
  lemma SousNettoyee(c: Corrections, c0: Corrections, asins: set<string>, noms: set<string>)
    requires Sous(c, c0) && Nettoyee(c0, asins, noms)
    ensures Nettoyee(c, asins, noms)
  {
  }

  /** The ASINs `asins` maps the names of `noms` to, together. */
  function Union(asins: map<string, set<string>>, noms: seq<string>): (r: set<string>)
    requires forall n | n in noms :: n in asins
    ensures forall n | n in noms :: asins[n] <= r
    ensures forall a | a in r :: exists n | n in noms :: a in asins[n]
  {
    if noms == [] then {}
    else
      var q := noms[..|noms| - 1];
      assert forall n | n in noms :: n in q || n == noms[|noms| - 1];
      Union(asins, q) + asins[noms[|noms| - 1]]
  }

  /**
    The publisher table after importing `gist` for the series in `faits`:
    a differing entry is rewritten, through `normaliser` (the store's
    publisher normalisation), with a count of 1.
  */
  function EditeursImportes(editeurs: map<string, EditeurOfficiel>, gist: map<string, string>, faits: set<string>,
                            normaliser: string -> string): (r: map<string, EditeurOfficiel>)
    ensures r.Keys == editeurs.Keys + (faits * gist.Keys)
    ensures forall s | s in faits && s in gist :: r[s].editeur == gist[s] || r[s].editeur == normaliser(gist[s])
    ensures forall s | s in r && !(s in faits && s in gist) :: r[s] == editeurs[s]
  {
    map s | s in editeurs.Keys + (faits * gist.Keys) ::
      if s in faits && s in gist && !(s in editeurs && editeurs[s].editeur == gist[s]) then EditeurOfficiel(normaliser(gist[s]), 1)
      else editeurs[s]
  }

  /** Importing for no series changes nothing. */
  lemma EditeursImportesRien(editeurs: map<string, EditeurOfficiel>, gist: map<string, string>, normaliser: string -> string)
    ensures EditeursImportes(editeurs, gist, {}, normaliser) == editeurs
  {
    assert forall s | s in EditeursImportes(editeurs, gist, {}, normaliser) :: EditeursImportes(editeurs, gist, {}, normaliser)[s] == editeurs[s];
  }

  /** A second import of the same publishers changes nothing more. */
  lemma EditeursImportesIdempotent(editeurs: map<string, EditeurOfficiel>, gist: map<string, string>, normaliser: string -> string)
    ensures var e1 := EditeursImportes(editeurs, gist, gist.Keys, normaliser);
            EditeursImportes(e1, gist, gist.Keys, normaliser) == e1
  {
    var e1 := EditeursImportes(editeurs, gist, gist.Keys, normaliser);
    var e2 := EditeursImportes(e1, gist, gist.Keys, normaliser);
    forall s | s in e2
      ensures e2[s] == e1[s]
    {
      if s in gist && e1[s].editeur != gist[s] {
        assert e1[s] == EditeurOfficiel(normaliser(gist[s]), 1);
      }
    }
  }

  /** The volumes after the tome corrections of the ASINs in `faits` that hold a number. */
  function TomesCorriges(volumes: map<string, Volume>, tomes: map<string, string>, faits: set<string>): (r: map<string, Volume>)
    ensures r.Keys == volumes.Keys
    ensures forall a | a in r :: r[a].serieJp == volumes[a].serieJp && r[a].url == volumes[a].url
    ensures forall a | a in r && a in faits && a in tomes && ParseInt(tomes[a]).Some? :: r[a].tome == ParseInt(tomes[a])
    ensures forall a | a in r && !(a in faits && a in tomes && ParseInt(tomes[a]).Some?) :: r[a] == volumes[a]
  {
    map a | a in volumes :: if a in faits && a in tomes && ParseInt(tomes[a]).Some? then volumes[a].(tome := ParseInt(tomes[a])) else volumes[a]
  }

  /** The cached verifications after the same corrections: the tome text becomes the number written out. */
  function CacheCorrige(cache: map<string, Verification>, tomes: map<string, string>, faits: set<string>): (r: map<string, Verification>)
    ensures r.Keys == cache.Keys
    ensures forall a | a in r && !(a in faits && a in tomes && ParseInt(tomes[a]).Some?) :: r[a] == cache[a]
  {
    map a | a in cache :: if a in faits && a in tomes && ParseInt(tomes[a]).Some? then cache[a].(tome := IntToString(ParseInt(tomes[a]).value)) else cache[a]
  }

  /** A corrected cached tome reads back as the number the Gist gave, and nothing else of the verification changes. */
  lemma CacheCorrigeRelu(cache: map<string, Verification>, tomes: map<string, string>, faits: set<string>, a: string)
    requires a in cache && a in faits && a in tomes && ParseInt(tomes[a]).Some?
    ensures var r := CacheCorrige(cache, tomes, faits);
            ParseInt(r[a].tome) == ParseInt(tomes[a])
            && r[a].dateSortie == cache[a].dateSortie && r[a].titre == cache[a].titre && r[a].editeur == cache[a].editeur
  {
    ParseIntOfIntToString(ParseInt(tomes[a]).value);
  }

  // ---- the Gist series configuration

  /** The Gist's series configuration: extra URLs by series, series added and removed in the viewer. */
  datatype SeriesConfig = SeriesConfig(urls: map<string, seq<string>>, ajoutees: seq<Ajout>, supprimees: seq<string>)

  /** The names that are neither empty nor blank, in order. */
  function NonVides(s: seq<string>): (r: seq<string>)
    ensures |r| <= |s|
    ensures forall x :: x in r <==> x in s && x != [] && Strip(x) != []
  {
    if s == [] then []
    else
      var p := NonVides(s[..|s| - 1]);
      var x := s[|s| - 1];
      assert forall y | y in s :: y in s[..|s| - 1] || y == x;
      if x != [] && Strip(x) != [] then p + [x] else p
  }

  /** A volume table corrected for one more ASIN is the table corrected for the set with that ASIN. */
  lemma TomesCorrigesPas(volumes: map<string, Volume>, tomes: map<string, string>, faits: set<string>, a: string)
    requires a in tomes && a !in faits
    ensures TomesCorriges(volumes, tomes, faits + {a}) ==
              if ParseInt(tomes[a]).Some? && a in volumes
              then TomesCorriges(volumes, tomes, faits)[a := volumes[a].(tome := ParseInt(tomes[a]))]
              else TomesCorriges(volumes, tomes, faits)
  {
    var avant := TomesCorriges(volumes, tomes, faits);
    var apres := TomesCorriges(volumes, tomes, faits + {a});
    var p := ParseInt(tomes[a]);
    if p.Some? && a in volumes {
      var cible := avant[a := volumes[a].(tome := p)];
      assert apres.Keys == cible.Keys;
      forall x | x in apres
        ensures apres[x] == cible[x]
      {
        if x != a {
          assert x in faits + {a} <==> x in faits;
        }
      }
    } else {
      assert apres.Keys == avant.Keys;
      forall x | x in apres
        ensures apres[x] == avant[x]
      {
        if x != a {
          assert x in faits + {a} <==> x in faits;
        }
      }
    }
  }

  /** The same for the cached verifications. */
  lemma CacheCorrigePas(cache: map<string, Verification>, tomes: map<string, string>, faits: set<string>, a: string)
    requires a in tomes && a !in faits
    ensures CacheCorrige(cache, tomes, faits + {a}) ==
              if ParseInt(tomes[a]).Some? && a in cache
              then CacheCorrige(cache, tomes, faits)[a := cache[a].(tome := IntToString(ParseInt(tomes[a]).value))]
              else CacheCorrige(cache, tomes, faits)
  {
    var avant := CacheCorrige(cache, tomes, faits);
    var apres := CacheCorrige(cache, tomes, faits + {a});
    var p := ParseInt(tomes[a]);
    if p.Some? && a in cache {
      var cible := avant[a := cache[a].(tome := IntToString(p.value))];
      assert apres.Keys == cible.Keys;
      forall x | x in apres
        ensures apres[x] == cible[x]
      {
        if x != a {
          assert x in faits + {a} <==> x in faits;
        }
      }
    } else {
      assert apres.Keys == avant.Keys;
      forall x | x in apres
        ensures apres[x] == avant[x]
      {
        if x != a {
          assert x in faits + {a} <==> x in faits;
        }
      }
    }
  }

  /** A publisher table imported for one more series is the table with that series' entry written when it differed. */
  lemma EditeursImportesPas(editeurs: map<string, EditeurOfficiel>, gist: map<string, string>, faits: set<string>,
                            normaliser: string -> string, s: string)
    requires s in gist && s !in faits
    ensures s in editeurs && editeurs[s].editeur == gist[s] ==>
              EditeursImportes(editeurs, gist, faits + {s}, normaliser) == EditeursImportes(editeurs, gist, faits, normaliser)
    ensures !(s in editeurs && editeurs[s].editeur == gist[s]) ==>
              EditeursImportes(editeurs, gist, faits + {s}, normaliser) == EditeursImportes(editeurs, gist, faits, normaliser)[s := EditeurOfficiel(normaliser(gist[s]), 1)]
  {
    var avant := EditeursImportes(editeurs, gist, faits, normaliser);
    var apres := EditeursImportes(editeurs, gist, faits + {s}, normaliser);
    if s in editeurs && editeurs[s].editeur == gist[s] {
      assert apres.Keys == avant.Keys;
      forall x | x in apres
        ensures apres[x] == avant[x]
      {
      }
    } else {
      var attendu := avant[s := EditeurOfficiel(normaliser(gist[s]), 1)];
      assert apres.Keys == attendu.Keys;
      forall x | x in apres
        ensures apres[x] == attendu[x]
      {
      }
    }
  }

  /**
    Imports the Gist's rejections, then its validations, each only for
    the ASINs that did not carry that status before the import.
  */
  method ImporterStatuts(rejetes: seq<string>, valides: seq<string>, db: DatabaseManager)
    modifies db`statuts
    ensures db.statuts == Importer(Importer(old(db.statuts), rejetes, "rejete", old(db.GetAsinsRejetes())),
                                   valides, "valide", old(db.GetAsinsValides()))
  {
    if rejetes == [] && valides == [] {
      return;
    }
    var existantsR := db.GetAsinsRejetes();
    var existantsV := db.GetAsinsValides();
    ImporterListe(rejetes, "rejete", existantsR, db);
    ImporterListe(valides, "valide", existantsV, db);
  }

  /** One pass of the import: gives `statut` to every ASIN of `liste` outside `existants`, in order. */
  method ImporterListe(liste: seq<string>, statut: string, existants: set<string>, db: DatabaseManager)
    modifies db`statuts
    ensures db.statuts == Importer(old(db.statuts), liste, statut, existants)
  {
    var i := 0;
    while i < |liste|
      invariant 0 <= i <= |liste|
      invariant db.statuts == Importer(old(db.statuts), liste[..i], statut, existants)
    {
      assert liste[..i + 1][..i] == liste[..i];
      if liste[i] !in existants {
        db.SetStatutManuel(liste[i], statut);
      }
      i := i + 1;
    }
    assert liste[..i] == liste;
  }

  /** Applies the Gist's tome corrections that hold a number, to the volumes and their cached verifications. */
  method ImporterTomes(tomes: map<string, string>, db: DatabaseManager)
    modifies db`volumes, db`cache
    ensures db.volumes == TomesCorriges(old(db.volumes), tomes, tomes.Keys)
    ensures db.cache == CacheCorrige(old(db.cache), tomes, tomes.Keys)
  {
    assert TomesCorriges(db.volumes, tomes, {}) == db.volumes;
    assert CacheCorrige(db.cache, tomes, {}) == db.cache;
    if tomes == map[] {
      return;
    }
    var restant := tomes.Keys;
    ghost var faits: set<string> := {};
    while restant != {}
      invariant restant + faits == tomes.Keys && restant !! faits
      invariant db.volumes == TomesCorriges(old(db.volumes), tomes, faits)
      invariant db.cache == CacheCorrige(old(db.cache), tomes, faits)
      decreases restant
    {
      var a :| a in restant;
      TomesCorrigesPas(old(db.volumes), tomes, faits, a);
      CacheCorrigePas(old(db.cache), tomes, faits, a);
      match ParseInt(tomes[a]) {
        case Some(t) => db.UpdateTomeVolume(a, t);
        case None =>
      }
      restant := restant - {a};
      faits := faits + {a};
    }
  }

  /** Writes each publisher of the Gist whose stored value differs, with a count of 1. */
  method ImporterEditeurs(gist: map<string, string>, db: DatabaseManager)
    modifies db`editeurs
    ensures db.editeurs == EditeursImportes(old(db.editeurs), gist, gist.Keys, NormaliserEditeur)
  {
    EditeursImportesRien(db.editeurs, gist, NormaliserEditeur);
    if gist == map[] {
      return;
    }
    var restant := gist.Keys;
    ghost var faits: set<string> := {};
    while restant != {}
      invariant restant + faits == gist.Keys && restant !! faits
      invariant db.editeurs == EditeursImportes(old(db.editeurs), gist, faits, NormaliserEditeur)
      decreases restant
    {
      var s :| s in restant;
      ImporterEditeur(s, gist, faits, old(db.editeurs), db);
      restant := restant - {s};
      faits := faits + {s};
    }
  }

  /** One series of the publisher import: written only when the stored publisher differs from the Gist's. */
  method ImporterEditeur(s: string, gist: map<string, string>, ghost faits: set<string>, ghost editeurs0: map<string, EditeurOfficiel>, db: DatabaseManager)
    requires s in gist && s !in faits && db.editeurs == EditeursImportes(editeurs0, gist, faits, NormaliserEditeur)
    modifies db`editeurs
    ensures db.editeurs == EditeursImportes(editeurs0, gist, faits + {s}, NormaliserEditeur)
  {
    EditeursImportesPas(editeurs0, gist, faits, NormaliserEditeur, s);
    if db.GetEditeurOfficiel(s) != Some(gist[s]) {
      db.SetEditeurOfficiel(s, gist[s], 1);
    }
  }

  /** `f` is the list file written for the entries `ms`. */
  predicate Sauvegardee(f: seq<map<string, string>>, ms: seq<Manga>) {
    |f| == |ms| && forall i | 0 <= i < |ms| :: f[i] == Persistee(ms[i])
  }

  /**
    The loop of `sauvegarder_mangas_liste`: the entries written to the list
    file, each reduced to its persisted keys.
  */
  method MangasPersistees(ms: seq<Manga>) returns (propres: seq<map<string, string>>)
    ensures Sauvegardee(propres, ms)
  {
    propres := [];
    var i := 0;
    while i < |ms|
      invariant 0 <= i <= |ms|
      invariant |propres| == i && forall k | 0 <= k < i :: propres[k] == Persistee(ms[k])
    {
      propres := propres + [Persistee(ms[i])];
      i := i + 1;
    }
  }

  /**
    The run-time configuration `sync.py` reads and rewrites: the tracked
    series, the Gist's corrections record and series configuration
    (`None` when the Gist held none), whether the Gist must be written
    back, the off-topic ASINs, and what the list file was last saved with.
  */
  class Synchro {
    var mangas: seq<Manga>
    var corrections: Option<Corrections>
    var seriesConfig: Option<SeriesConfig>
    var gistModifie: bool
    var asinsHorsSujet: set<string>
    var fichierListe: Option<seq<map<string, string>>>

    constructor (mangas: seq<Manga>, corrections: Option<Corrections>, seriesConfig: Option<SeriesConfig>)
      ensures this.mangas == mangas && this.corrections == corrections && this.seriesConfig == seriesConfig
      ensures !gistModifie && asinsHorsSujet == {} && fichierListe == None
    {
      this.mangas := mangas;
      this.corrections := corrections;
      this.seriesConfig := seriesConfig;
      gistModifie := false;
      asinsHorsSujet := {};
      fichierListe := None;
    }

    // -- step 1a: extra URLs

    /** Merges the Gist's extra URLs into the tracked series, counting the URLs given. */
    method FusionnerUrls(urls: map<string, seq<string>>) returns (modifs: nat)
      modifies this`mangas
      ensures |mangas| == |old(mangas)|
      ensures forall i | 0 <= i < |mangas| :: mangas[i] == Fusion(old(mangas)[i], urls)
      ensures Noms(mangas) == Noms(old(mangas))
      ensures modifs == UrlsDonnees(old(mangas), urls)
    {
      mangas, modifs := FusionnerListe(mangas, urls);
    }
 
    /** Step 1a: the extra URLs are merged only when the Gist has some. */
    method EtapeUrls(urls: map<string, seq<string>>) returns (modifs: nat)
      modifies this`mangas
      ensures urls == map[] ==> mangas == old(mangas) && modifs == 0
      ensures urls != map[] ==> |mangas| == |old(mangas)| && (forall i | 0 <= i < |mangas| :: mangas[i] == Fusion(old(mangas)[i], urls))
                                && modifs == UrlsDonnees(old(mangas), urls)
      ensures Noms(mangas) == Noms(old(mangas))
    {
      modifs := 0;
      if urls != map[] {
        modifs := FusionnerUrls(urls);
      }
    }

    // -- step 1b: series removed in the viewer

    /**
      Purges one removed series from the store, drops its ASINs from the
      corrections record when it has some, and its official publisher.
    */
    method PurgerRetiree(nom: string, ghost asins0: set<string>, db: DatabaseManager)
      requires asins0 == db.GetAsinsSerie(nom)
      modifies this`corrections, db
      ensures db.GetAsinsSerie(nom) == {} && db.GetVolumesConnus(nom) == map[]
      ensures forall n | n != nom :: db.GetAsinsSerie(n) == old(db.GetAsinsSerie(n))
      ensures db.volumes == SansVolumesDe(old(db.volumes), nom) && db.featured == SansSerie(old(db.featured), nom)
      ensures old(corrections).Some? ==> corrections == Some(Retiree(old(corrections).value, asins0, {nom}))
      ensures old(corrections).None? ==> corrections == None
    {
      ghost var c0 := corrections;
      var asins := db.GetAsinsSerie(nom);
      db.PurgerSerie(nom);
      if asins != {} && corrections.Some? {
        var c := corrections.value;
        corrections := Some(c.(valides := Filtrer(c.valides, asins), rejetes := Filtrer(c.rejetes, asins), tomes := c.tomes - asins));
      }
      if corrections.Some? && nom in corrections.value.editeurs {
        corrections := Some(corrections.value.(editeurs := corrections.value.editeurs - {nom}));
      }
      if c0.Some? {
        if asins == {} {
          RetireeRien(c0.value);
        }
        assert corrections.value.editeurs == c0.value.editeurs - {nom};
      }
    }

    /**
      Drops the tracked series the viewer removed (blank names ignored)
      and, when one was tracked, purges every removed name; then empties
      the removal list and marks the Gist for writing back.
    */
    method RetirerSeries(db: DatabaseManager) returns (listeModifiee: bool, modifs: nat, ghost noms: seq<string>, ghost asins0: map<string, set<string>>)
      requires seriesConfig.Some?
      modifies this`mangas, this`corrections, this`seriesConfig, this`gistModifie, db
      ensures noms == NonVides(old(seriesConfig.value.supprimees))
      ensures asins0 == map n | n in noms :: old(db.GetAsinsSerie(n))
      ensures noms == [] ==> mangas == old(mangas)
      ensures noms != [] ==> mangas == SansNoms(old(mangas), Ensemble(noms))
      ensures listeModifiee <==> |mangas| < |old(mangas)|
      ensures modifs == |old(mangas)| - |mangas|
      ensures noms == [] ==> seriesConfig == old(seriesConfig) && gistModifie == old(gistModifie)
      ensures noms != [] ==> seriesConfig == Some(old(seriesConfig.value).(supprimees := [])) && gistModifie
      ensures seriesConfig.Some? && seriesConfig.value.ajoutees == old(seriesConfig.value.ajoutees) && seriesConfig.value.urls == old(seriesConfig.value.urls)
      ensures listeModifiee ==> forall n | n in noms :: db.GetAsinsSerie(n) == {}
      ensures listeModifiee && old(corrections).Some? ==>
                corrections == Some(Retiree(old(corrections).value, Union(asins0, noms), Ensemble(noms)))
      ensures !listeModifiee || old(corrections).None? ==> corrections == old(corrections)
      ensures !listeModifiee ==> unchanged(db)
      ensures Intacts(old(db.volumes), old(db.featured), db.volumes, db.featured, noms)
    {
      var retirees := NonVides(seriesConfig.value.supprimees);
      noms := retirees;
      asins0 := map n | n in retirees :: db.GetAsinsSerie(n);
      if retirees == [] {
        return false, 0, noms, asins0;
      }
      listeModifiee, modifs := RetirerEtVider(retirees, asins0, db);
    }

    /** A non-empty removal list: its entries dropped and purged, then the list emptied. */
    method RetirerEtVider(noms: seq<string>, ghost asins0: map<string, set<string>>, db: DatabaseManager) returns (listeModifiee: bool, modifs: nat)
      requires seriesConfig.Some? && asins0 == map n | n in noms :: db.GetAsinsSerie(n)
      modifies this`mangas, this`corrections, this`seriesConfig, this`gistModifie, db
      ensures mangas == SansNoms(old(mangas), Ensemble(noms))
      ensures listeModifiee <==> |mangas| < |old(mangas)|
      ensures modifs == |old(mangas)| - |mangas|
      ensures seriesConfig == Some(old(seriesConfig.value).(supprimees := [])) && gistModifie
      ensures listeModifiee ==> forall n | n in noms :: db.GetAsinsSerie(n) == {}
      ensures listeModifiee && old(corrections).Some? ==>
                corrections == Some(Retiree(old(corrections).value, Union(asins0, noms), Ensemble(noms)))
      ensures !listeModifiee || old(corrections).None? ==> corrections == old(corrections)
      ensures !listeModifiee ==> unchanged(db)
      ensures Intacts(old(db.volumes), old(db.featured), db.volumes, db.featured, noms)
    {
      listeModifiee, modifs := RetirerNoms(noms, asins0, db);
      if listeModifiee {
        forall n | n in noms ensures db.GetAsinsSerie(n) == {} {
          var k :| 0 <= k < |noms| && noms[k] == n;
        }
      }
      ViderRetraits();
    }

    /** Empties the removal list and marks the Gist for writing back. */
    method ViderRetraits()
      requires seriesConfig.Some?
      modifies this`seriesConfig, this`gistModifie
      ensures seriesConfig == Some(old(seriesConfig.value).(supprimees := [])) && gistModifie
    {
      seriesConfig := Some(seriesConfig.value.(supprimees := []));
      gistModifie := true;
    }

    /** Drops the entries named in `noms` and, when there was one, purges every name of `noms`. */
    method RetirerNoms(noms: seq<string>, ghost asins0: map<string, set<string>>, db: DatabaseManager) returns (listeModifiee: bool, modifs: nat)
      requires asins0 == map n | n in noms :: db.GetAsinsSerie(n)
      modifies this`mangas, this`corrections, db
      ensures mangas == SansNoms(old(mangas), Ensemble(noms))
      ensures listeModifiee <==> |mangas| < |old(mangas)|
      ensures modifs == |old(mangas)| - |mangas|
      ensures listeModifiee ==> forall k | 0 <= k < |noms| :: db.GetAsinsSerie(noms[k]) == {}
      ensures listeModifiee && old(corrections).Some? ==>
                corrections == Some(Retiree(old(corrections).value, Union(asins0, noms), Ensemble(noms)))
      ensures !listeModifiee || old(corrections).None? ==> corrections == old(corrections)
      ensures !listeModifiee ==> unchanged(db)
      ensures Intacts(old(db.volumes), old(db.featured), db.volumes, db.featured, noms)
    {
      var avant := |mangas|;
      mangas := SansNoms(mangas, Ensemble(noms));
      modifs := avant - |mangas|;
      listeModifiee := false;
      if modifs > 0 {
        listeModifiee := true;
        PurgerRetirees(noms, asins0, db);
      }
    }

    /**
      After the first `i` removed names: every purged name has no ASIN
      left, every name still to come that was not purged has the ASINs
      it had before the loop.
    */
    ghost predicate EtatPurge(db: DatabaseManager, noms: seq<string>, i: nat, faits: set<string>, asins0: map<string, set<string>>)
      reads db
    {
      Purgees(db.volumes, db.featured, noms, i, faits, asins0)
    }

    /** The purge loop of `RetirerSeries`, over the removed names in order. */
    method PurgerRetirees(noms: seq<string>, ghost asins0: map<string, set<string>>, db: DatabaseManager)
      requires asins0 == map n | n in noms :: db.GetAsinsSerie(n)
      modifies this`corrections, db
      ensures forall k | 0 <= k < |noms| :: db.GetAsinsSerie(noms[k]) == {}
      ensures old(corrections).Some? ==> corrections == Some(Retiree(old(corrections).value, Union(asins0, noms), Ensemble(noms)))
      ensures old(corrections).None? ==> corrections == None
      ensures Intacts(old(db.volumes), old(db.featured), db.volumes, db.featured, noms)
    {
      if corrections.Some? {
        RetireeRien(corrections.value);
      }
      var i := 0;
      ghost var faits: set<string> := {};
      while i < |noms|
        invariant i <= |noms| && EtatPurge(db, noms, i, faits, asins0)
        invariant old(corrections).Some? ==> corrections.Some? && RetireeJusque(old(corrections).value, asins0, noms, i, corrections.value)
        invariant old(corrections).None? ==> corrections == None
        invariant Intacts(old(db.volumes), old(db.featured), db.volumes, db.featured, noms)
      {
        PurgerSuivante(noms, i, asins0, faits, old(corrections), old(db.volumes), old(db.featured), db);
        faits := faits + {noms[i]};
        i := i + 1;
      }
      assert noms[..i] == noms;
    }

    /** One turn of the purge loop: the `i`-th removed name, whose ASINs are gone already if it came earlier. */
    method PurgerSuivante(noms: seq<string>, i: nat, ghost asins0: map<string, set<string>>, ghost faits: set<string>,
                          ghost c0: Option<Corrections>, ghost v0: map<string, Volume>, ghost f0: map<(string, string), Featured>,
                          db: DatabaseManager)
      requires i < |noms| && EtatPurge(db, noms, i, faits, asins0)
      requires Intacts(v0, f0, db.volumes, db.featured, noms)
      requires c0.Some? ==> corrections.Some? && RetireeJusque(c0.value, asins0, noms, i, corrections.value)
      requires c0.None? ==> corrections == None
      modifies this`corrections, db
      ensures EtatPurge(db, noms, i + 1, faits + {noms[i]}, asins0)
      ensures c0.Some? ==> corrections.Some? && RetireeJusque(c0.value, asins0, noms, i + 1, corrections.value)
      ensures c0.None? ==> corrections == None
      ensures Intacts(v0, f0, db.volumes, db.featured, noms)
    {
      ghost var c := corrections;
      ghost var courants := if noms[i] in faits then {} else asins0[noms[i]];
      if noms[i] in faits {
        assert noms[i] in noms[..i];
        ghost var k :| 0 <= k < i && noms[k] == noms[i];
      }
      ghost var v1, f1 := db.volumes, db.featured;
      PurgerRetiree(noms[i], courants, db);
      forall n | n != noms[i] ensures AsinsDe(db.volumes, db.featured, n) == AsinsDe(v1, f1, n) {
        assert db.GetAsinsSerie(n) == old(db.GetAsinsSerie(n));
      }
      PurgeesSuivant(v1, f1, db.volumes, db.featured, noms, i, faits, asins0);
      AsinsDeApresPurge(v1, f1, noms[i]);
      if c0.Some? {
        RetireeSuivante(c0.value, asins0, noms, i, c.value);
      }
    }

    // -- step 1c: series added in the viewer

    /**
      Adds one series the viewer added, unless its name is empty or its
      internal name is already tracked. A stale cache under that name
      (a removal and re-addition, or a purge that failed earlier) is
      purged first, together with the series' ASINs and publisher in the
      corrections record.
    */
    method AjouterSerie(a: Ajout, db: DatabaseManager) returns (ajoute: bool)
      modifies this`mangas, this`corrections, db`featured, db`progression, db`volumes, db`editeurs, db`alertes, db`traductions
      ensures ajoute <==> a.nom != [] && !Suivie(old(mangas), NomInterne(a))
      ensures mangas == old(mangas) + (if ajoute then [NouvelleSerie(a)] else [])
      ensures NomsUniques(old(mangas)) ==> NomsUniques(mangas)
      ensures ajoute ==> db.GetVolumesConnus(NomInterne(a)) == map[]
      ensures forall n :: db.GetAsinsSerie(n) <= old(db.GetAsinsSerie(n))
      ensures var purge := ajoute && old(db.GetVolumesConnus(NomInterne(a))) != map[];
              var asins := old(db.GetAsinsSerie(NomInterne(a)));
              corrections == if purge && asins != {} && old(corrections).Some?
                             then Some(Retiree(old(corrections).value, asins, {NomInterne(a)}))
                             else old(corrections)
      ensures var nom := NomInterne(a);
              ajoute && old(db.GetVolumesConnus(nom)) != map[] ==>
                && db.featured == SansSerie(old(db.featured), nom) && db.alertes == SansSerie(old(db.alertes), nom)
                && db.volumes == SansVolumesDe(old(db.volumes), nom)
                && db.progression == old(db.progression) - {nom} && db.editeurs == old(db.editeurs) - {nom}
                && db.traductions == old(db.traductions) - {nom}
      ensures !ajoute || old(db.GetVolumesConnus(NomInterne(a))) == map[] ==> unchanged(db)
    {
      var nomInterne := NomInterne(a);
      ajoute := false;
      if a.nom != [] && !Suivie(mangas, nomInterne) {
        if db.GetVolumesConnus(nomInterne) != map[] {
          PurgerAjoutee(nomInterne, db);
        }
        ghost var avant := mangas;
        mangas := mangas + [NouvelleSerie(a)];
        assert NomsUniques(avant) ==> NomsUniques(mangas) by {
          if NomsUniques(avant) {
            forall i, j | 0 <= i < j < |mangas|
              ensures mangas[i].nom != mangas[j].nom
            {
              if j == |avant| {
                assert !Suivie(avant, nomInterne);
              }
            }
          }
        }
        ajoute := true;
      }
    }

    /** The purge of a stale cache before an addition: the series' ASINs and publisher leave the record only when it had ASINs. */
    method PurgerAjoutee(nom: string, db: DatabaseManager)
      modifies this`corrections, db`featured, db`progression, db`volumes, db`editeurs, db`alertes, db`traductions
      ensures db.featured == SansSerie(old(db.featured), nom) && db.alertes == SansSerie(old(db.alertes), nom)
      ensures db.volumes == SansVolumesDe(old(db.volumes), nom)
      ensures db.progression == old(db.progression) - {nom} && db.editeurs == old(db.editeurs) - {nom}
      ensures db.traductions == old(db.traductions) - {nom}
      ensures db.GetVolumesConnus(nom) == map[]
      ensures forall n :: db.GetAsinsSerie(n) <= old(db.GetAsinsSerie(n))
      ensures corrections == if old(db.GetAsinsSerie(nom)) != {} && old(corrections).Some?
                             then Some(Retiree(old(corrections).value, old(db.GetAsinsSerie(nom)), {nom}))
                             else old(corrections)
    {
      var asins := db.GetAsinsSerie(nom);
      db.PurgerSerie(nom);
      if asins != {} && corrections.Some? {
        corrections := Some(Retiree(corrections.value, asins, {nom}));
      }
    }

    /**
      Adds, in order, the series the viewer added, then empties the
      addition list and marks the Gist for writing back (even when every
      series was already tracked).
    */
    method AjouterSeries(db: DatabaseManager) returns (listeModifiee: bool, modifs: nat)
      requires seriesConfig.Some?
      modifies this`mangas, this`corrections, this`seriesConfig, this`gistModifie, db
      ensures var ajoutees := old(seriesConfig.value.ajoutees);
              && old(mangas) <= mangas
              && (forall k | |old(mangas)| <= k < |mangas| :: DeAjout(mangas[k], ajoutees))
              && (forall a | a in ajoutees && a.nom != [] :: Suivie(mangas, NomInterne(a)))
              && (ajoutees != [] ==> seriesConfig == Some(old(seriesConfig.value).(ajoutees := [])))
              && (ajoutees == [] ==> seriesConfig == old(seriesConfig))
      ensures gistModifie <==> old(gistModifie) || old(seriesConfig.value.ajoutees) != []
      ensures seriesConfig.Some? && seriesConfig.value.ajoutees == [] && seriesConfig.value.urls == old(seriesConfig.value.urls)
      ensures NomsUniques(old(mangas)) ==> NomsUniques(mangas)
      ensures forall n :: Suivie(mangas, n) <==> Suivie(old(mangas), n) || Ajoutee(old(seriesConfig.value.ajoutees), n)
      ensures listeModifiee <==> exists a | a in old(seriesConfig.value.ajoutees) && a.nom != [] :: !Suivie(old(mangas), NomInterne(a))
      ensures listeModifiee <==> |mangas| > |old(mangas)|
      ensures modifs == |mangas| - |old(mangas)|
      ensures forall n :: db.GetAsinsSerie(n) <= old(db.GetAsinsSerie(n))
      ensures forall n | old(db.GetAsinsSerie(n)) == {} :: db.GetAsinsSerie(n) == {}
      ensures Retrecie(old(corrections), corrections)
      ensures forall n | Ajoutee(old(seriesConfig.value.ajoutees), n) && !Suivie(old(mangas), n) && VolumesDe(old(db.volumes), n) != {}
                         && corrections.Some? :: SansTrace(corrections.value, AsinsDe(old(db.volumes), old(db.featured), n), n)
    {
      var ajoutees := seriesConfig.value.ajoutees;
      listeModifiee, modifs := AjouterEnOrdre(ajoutees, db);
      if ajoutees != [] {
        seriesConfig := Some(seriesConfig.value.(ajoutees := []));
        gistModifie := true;
      }
    }

    /** The addition loop of `AjouterSeries`, over the additions in order. */
    method AjouterEnOrdre(ajoutees: seq<Ajout>, db: DatabaseManager) returns (listeModifiee: bool, modifs: nat)
      modifies this`mangas, this`corrections, db
      ensures old(mangas) <= mangas
      ensures forall k | |old(mangas)| <= k < |mangas| :: DeAjout(mangas[k], ajoutees)
      ensures forall a | a in ajoutees && a.nom != [] :: Suivie(mangas, NomInterne(a))
      ensures NomsUniques(old(mangas)) ==> NomsUniques(mangas)
      ensures forall n :: Suivie(mangas, n) <==> Suivie(old(mangas), n) || Ajoutee(ajoutees, n)
      ensures listeModifiee <==> exists a | a in ajoutees && a.nom != [] :: !Suivie(old(mangas), NomInterne(a))
      ensures listeModifiee <==> |mangas| > |old(mangas)|
      ensures modifs == |mangas| - |old(mangas)|
      ensures forall n :: db.GetAsinsSerie(n) <= old(db.GetAsinsSerie(n))
      ensures forall n | old(db.GetAsinsSerie(n)) == {} :: db.GetAsinsSerie(n) == {}
      ensures Retrecie(old(corrections), corrections)
      ensures forall n | Ajoutee(ajoutees, n) && !Suivie(old(mangas), n) && VolumesDe(old(db.volumes), n) != {}
                         && corrections.Some? :: SansTrace(corrections.value, AsinsDe(old(db.volumes), old(db.featured), n), n)
    {
      listeModifiee, modifs := false, 0;
      var i := 0;
      while i < |ajoutees|
        invariant EtatAjout(ajoutees, i, old(mangas), old(db.volumes), old(db.featured), old(corrections), db)
        invariant listeModifiee <==> |mangas| > |old(mangas)|
        invariant modifs == |mangas| - |old(mangas)|
      {
        var ajoute := AjouterPas(ajoutees, i, old(mangas), old(db.volumes), old(db.featured), old(corrections), db);
        if ajoute {
          modifs := modifs + 1;
          listeModifiee := true;
        }
        i := i + 1;
      }
      assert forall a | a in ajoutees && a.nom != [] :: Suivie(mangas, NomInterne(a)) by {
        forall a | a in ajoutees && a.nom != []
          ensures Suivie(mangas, NomInterne(a))
        {
          var k :| 0 <= k < |ajoutees| && ajoutees[k] == a;
        }
      }
      AjoutsFaits(ajoutees, old(mangas), mangas);
      AjoutsNettoyes(ajoutees, old(mangas), old(db.volumes), old(db.featured), old(corrections), mangas, db.volumes, db.featured, corrections);
    }

    /** `m` is the entry made from one of the additions `ajoutees`. */
    static predicate DeAjout(m: Manga, ajoutees: seq<Ajout>)
    {
      exists a | a in ajoutees && a.nom != [] :: m == NouvelleSerie(a)
    }

    /**
      After the first `i` additions, from the list `m0`, the store holding
      `volumes0` and `featured0` and the record `c0`: the list grew by new
      entries made from additions, every non-empty one of the first `i`
      is tracked, names stayed unique, no series gained an ASIN, and the
      store and record are as `EtatStore` says.
    */
    ghost predicate EtatAjout(ajoutees: seq<Ajout>, i: nat, m0: seq<Manga>, volumes0: map<string, Volume>,
                              featured0: map<(string, string), Featured>, c0: Option<Corrections>, db: DatabaseManager)
      reads this, db
    {
      && i <= |ajoutees|
      && m0 <= mangas
      && (forall k | |m0| <= k < |mangas| :: DeAjout(mangas[k], ajoutees) && !Suivie(m0, mangas[k].nom))
      && (forall k | 0 <= k < i && ajoutees[k].nom != [] :: Suivie(mangas, NomInterne(ajoutees[k])))
      && (NomsUniques(m0) ==> NomsUniques(mangas))
      && (forall n :: db.GetAsinsSerie(n) <= AsinsDe(volumes0, featured0, n))
      && EtatStore(m0, volumes0, featured0, c0, mangas, db.volumes, db.featured, corrections)
    }

    /** One turn of the addition loop. */
    method AjouterPas(ajoutees: seq<Ajout>, i: nat, ghost m0: seq<Manga>, ghost volumes0: map<string, Volume>,
                      ghost featured0: map<(string, string), Featured>, ghost c0: Option<Corrections>, db: DatabaseManager)
      returns (ajoute: bool)
      requires i < |ajoutees| && EtatAjout(ajoutees, i, m0, volumes0, featured0, c0, db)
      modifies this`mangas, this`corrections, db
      ensures EtatAjout(ajoutees, i + 1, m0, volumes0, featured0, c0, db)
      ensures |mangas| == |old(mangas)| + (if ajoute then 1 else 0)
    {
      ghost var avant, v1, f1, c1 := mangas, db.volumes, db.featured, corrections;
      ajoute := AjouterSerie(ajoutees[i], db);
      AjoutListe(ajoutees, i, m0, avant, mangas, ajoute);
      AjoutStore(m0, volumes0, featured0, c0, avant, mangas, ajoutees[i], ajoute, v1, f1, c1, db.volumes, db.featured, corrections);
    }

    /**
      What the addition loop leaves: the tracked names are the earlier
      ones and the added ones, and the list grew exactly when some
      non-empty addition was not tracked at the start.
    */
    static lemma AjoutsFaits(ajoutees: seq<Ajout>, m0: seq<Manga>, ms: seq<Manga>)
      requires m0 <= ms
      requires forall k | |m0| <= k < |ms| :: DeAjout(ms[k], ajoutees) && !Suivie(m0, ms[k].nom)
      requires forall a | a in ajoutees && a.nom != [] :: Suivie(ms, NomInterne(a))
      ensures forall n :: Suivie(ms, n) <==> Suivie(m0, n) || Ajoutee(ajoutees, n)
      ensures |ms| > |m0| <==> exists a | a in ajoutees && a.nom != [] :: !Suivie(m0, NomInterne(a))
    {
      forall n | Suivie(ms, n)
        ensures Suivie(m0, n) || Ajoutee(ajoutees, n)
      {
        var k :| 0 <= k < |ms| && ms[k].nom == n;
        if k < |m0| {
          assert m0[k] == ms[k];
        } else {
          var a :| a in ajoutees && a.nom != [] && ms[k] == NouvelleSerie(a);
        }
      }
      forall n | Suivie(m0, n)
        ensures Suivie(ms, n)
      {
        var k :| 0 <= k < |m0| && m0[k].nom == n;
        assert ms[k] == m0[k];
      }
      if |ms| > |m0| {
        assert DeAjout(ms[|m0|], ajoutees) && !Suivie(m0, ms[|m0|].nom);
        var a :| a in ajoutees && a.nom != [] && ms[|m0|] == NouvelleSerie(a);
      }
      if exists a | a in ajoutees && a.nom != [] :: !Suivie(m0, NomInterne(a)) {
        var a :| a in ajoutees && a.nom != [] && !Suivie(m0, NomInterne(a));
        var k :| 0 <= k < |ms| && ms[k].nom == NomInterne(a);
      }
    }

    /** The list side of one turn of the addition loop. */
    static lemma AjoutListe(ajoutees: seq<Ajout>, i: nat, m0: seq<Manga>, avant: seq<Manga>, apres: seq<Manga>, ajoute: bool)
      requires i < |ajoutees| && m0 <= avant
      requires forall k | |m0| <= k < |avant| :: DeAjout(avant[k], ajoutees) && !Suivie(m0, avant[k].nom)
      requires forall k | 0 <= k < i && ajoutees[k].nom != [] :: Suivie(avant, NomInterne(ajoutees[k]))
      requires ajoute <==> ajoutees[i].nom != [] && !Suivie(avant, NomInterne(ajoutees[i]))
      requires apres == avant + (if ajoute then [NouvelleSerie(ajoutees[i])] else [])
      ensures m0 <= apres
      ensures forall k | |m0| <= k < |apres| :: DeAjout(apres[k], ajoutees) && !Suivie(m0, apres[k].nom)
      ensures forall k | 0 <= k < i + 1 && ajoutees[k].nom != [] :: Suivie(apres, NomInterne(ajoutees[k]))
    {
      forall k | 0 <= k <= i && ajoutees[k].nom != []
        ensures Suivie(apres, NomInterne(ajoutees[k]))
      {
        if k < i || Suivie(avant, NomInterne(ajoutees[k])) {
          var j :| 0 <= j < |avant| && avant[j].nom == NomInterne(ajoutees[k]);
          assert apres[j] == avant[j];
        } else {
          assert apres[|avant|].nom == NomInterne(ajoutees[k]);
        }
      }
      forall k | |m0| <= k < |apres|
        ensures DeAjout(apres[k], ajoutees) && !Suivie(m0, apres[k].nom)
      {
        if k < |avant| {
          assert apres[k] == avant[k];
        } else {
          assert apres[k] == NouvelleSerie(ajoutees[i]);
          assert ajoutees[i] in ajoutees;
        }
      }
    }

    // -- the whole configuration load

    /**
      `charger_series_config`, Gist part: merges the extra URLs, drops
      the removed series, then adds the added ones, and saves the list
      file when a series was dropped or added.
    */
    method ChargerSeriesConfig(db: DatabaseManager) returns (modifs: nat, ghost listeModifiee: bool)
      modifies this`mangas, this`corrections, this`seriesConfig, this`gistModifie, this`fichierListe, db
      ensures old(seriesConfig).None? ==>
                mangas == old(mangas) && corrections == old(corrections) && seriesConfig == old(seriesConfig)
                && gistModifie == old(gistModifie) && fichierListe == old(fichierListe) && unchanged(db)
      ensures NomsUniques(old(mangas)) ==> NomsUniques(mangas)
      ensures old(seriesConfig).Some? ==>
                seriesConfig.Some? && seriesConfig.value.ajoutees == [] && seriesConfig.value.urls == old(seriesConfig.value.urls)
      ensures old(seriesConfig).Some? ==> forall a | a in old(seriesConfig.value.ajoutees) && a.nom != [] :: Suivie(mangas, NomInterne(a))
      ensures old(seriesConfig).Some? ==>
                forall a | a in old(seriesConfig.value.ajoutees) && a.nom != [] && NomInterne(a) in NonVides(old(seriesConfig.value.supprimees))
                           && Suivie(old(mangas), NomInterne(a)) :: db.GetAsinsSerie(NomInterne(a)) == {}
      ensures listeModifiee <==>
                (old(seriesConfig).Some? &&
                 (UneRetiree(old(mangas), old(seriesConfig.value.supprimees))
                  || UneAjoutee(old(mangas), old(seriesConfig.value.supprimees), old(seriesConfig.value.ajoutees))))
      ensures old(seriesConfig).Some? ==>
                var c := old(seriesConfig.value);
                var r := ApresRetrait(old(mangas), c.supprimees);
                modifs == (if c.urls == map[] then 0 else UrlsDonnees(old(mangas), c.urls)) + (|old(mangas)| - |r|) + (|mangas| - |r|)
      ensures old(seriesConfig).Some? ==>
                var c := old(seriesConfig.value);
                forall n :: Suivie(mangas, n) <==> (Suivie(old(mangas), n) && n !in NonVides(c.supprimees)) || Ajoutee(c.ajoutees, n)
      ensures old(seriesConfig).Some? && UneRetiree(old(mangas), old(seriesConfig.value.supprimees)) ==>
                forall n | n in NonVides(old(seriesConfig.value.supprimees)) :: db.GetAsinsSerie(n) == {}
      ensures old(seriesConfig).Some? ==>
                var c := old(seriesConfig.value);
                Nettoyage(old(mangas), c.supprimees, c.ajoutees, old(db.volumes), old(db.featured), old(corrections), corrections)
      ensures old(seriesConfig).Some? ==>
                var c := old(seriesConfig.value);
                gistModifie <==> old(gistModifie) || NonVides(c.supprimees) != [] || c.ajoutees != []
      ensures listeModifiee ==> fichierListe.Some? && Sauvegardee(fichierListe.value, mangas)
      ensures !listeModifiee ==> fichierListe == old(fichierListe)
    {
      modifs, listeModifiee := 0, false;
      if seriesConfig.None? {
        return;
      }
      var liste;
      liste, modifs := AppliquerGist(db);
      listeModifiee := liste;
      // step 2: the list file is written only when the list changed
      var propres := MangasPersistees(mangas);
      fichierListe := if liste then Some(propres) else fichierListe;
    }

    /** Steps 1a to 1c: merge the extra URLs, drop the removed series, add the added ones. */
    method AppliquerGist(db: DatabaseManager) returns (listeModifiee: bool, modifs: nat)
      requires seriesConfig.Some?
      modifies this`mangas, this`corrections, this`seriesConfig, this`gistModifie, db
      ensures NomsUniques(old(mangas)) ==> NomsUniques(mangas)
      ensures seriesConfig.Some? && seriesConfig.value.ajoutees == [] && seriesConfig.value.urls == old(seriesConfig.value.urls)
      ensures forall a | a in old(seriesConfig.value.ajoutees) && a.nom != [] :: Suivie(mangas, NomInterne(a))
      ensures forall a | a in old(seriesConfig.value.ajoutees) && a.nom != [] && NomInterne(a) in NonVides(old(seriesConfig.value.supprimees))
                         && Suivie(old(mangas), NomInterne(a)) :: db.GetAsinsSerie(NomInterne(a)) == {}
      ensures var c := old(seriesConfig.value);
              listeModifiee <==> UneRetiree(old(mangas), c.supprimees) || UneAjoutee(old(mangas), c.supprimees, c.ajoutees)
      ensures var c := old(seriesConfig.value);
              var r := ApresRetrait(old(mangas), c.supprimees);
              modifs == (if c.urls == map[] then 0 else UrlsDonnees(old(mangas), c.urls)) + (|old(mangas)| - |r|) + (|mangas| - |r|)
      ensures var c := old(seriesConfig.value);
              forall n :: Suivie(mangas, n) <==> (Suivie(old(mangas), n) && n !in NonVides(c.supprimees)) || Ajoutee(c.ajoutees, n)
      ensures var c := old(seriesConfig.value);
              UneRetiree(old(mangas), c.supprimees) ==> forall n | n in NonVides(c.supprimees) :: db.GetAsinsSerie(n) == {}
      ensures var c := old(seriesConfig.value);
              Nettoyage(old(mangas), c.supprimees, c.ajoutees, old(db.volumes), old(db.featured), old(corrections), corrections)
      ensures var c := old(seriesConfig.value);
              gistModifie <==> old(gistModifie) || NonVides(c.supprimees) != [] || c.ajoutees != []
    {
      modifs := EtapeUrls(seriesConfig.value.urls);
      var m;
      listeModifiee, m := RetirerPuisAjouter(old(mangas), db);
      modifs := modifs + m;
      ghost var c := old(seriesConfig.value);
      forall a | a in c.ajoutees && a.nom != []
        ensures Suivie(mangas, NomInterne(a))
      {
        assert Ajoutee(c.ajoutees, NomInterne(a));
      }
      forall a | a in c.ajoutees && a.nom != [] && NomInterne(a) in NonVides(c.supprimees) && Suivie(old(mangas), NomInterne(a))
        ensures db.GetAsinsSerie(NomInterne(a)) == {}
      {
        assert UneRetiree(old(mangas), c.supprimees);
      }
    }

    /** Steps 1b and 1c, on the list `m0` once its extra URLs are merged (which keeps its names). */
    method RetirerPuisAjouter(ghost m0: seq<Manga>, db: DatabaseManager) returns (listeModifiee: bool, modifs: nat)
      requires seriesConfig.Some? && Noms(mangas) == Noms(m0)
      modifies this`mangas, this`corrections, this`seriesConfig, this`gistModifie, db
      ensures NomsUniques(m0) ==> NomsUniques(mangas)
      ensures seriesConfig.Some? && seriesConfig.value.ajoutees == [] && seriesConfig.value.urls == old(seriesConfig.value.urls)
      ensures var c := old(seriesConfig.value);
              listeModifiee <==> UneRetiree(m0, c.supprimees) || UneAjoutee(m0, c.supprimees, c.ajoutees)
      ensures var r := ApresRetrait(m0, old(seriesConfig.value.supprimees));
              modifs == (|m0| - |r|) + (|mangas| - |r|)
      ensures var c := old(seriesConfig.value);
              forall n :: Suivie(mangas, n) <==> (Suivie(m0, n) && n !in NonVides(c.supprimees)) || Ajoutee(c.ajoutees, n)
      ensures var c := old(seriesConfig.value);
              UneRetiree(m0, c.supprimees) ==> forall n | n in NonVides(c.supprimees) :: db.GetAsinsSerie(n) == {}
      ensures var c := old(seriesConfig.value);
              Nettoyage(m0, c.supprimees, c.ajoutees, old(db.volumes), old(db.featured), old(corrections), corrections)
      ensures var c := old(seriesConfig.value);
              gistModifie <==> old(gistModifie) || NonVides(c.supprimees) != [] || c.ajoutees != []
    {
      ghost var c := seriesConfig.value;
      ghost var v0, f0 := db.volumes, db.featured;
      var retire, m1 := RetirerDe(m0, db);
      ghost var apres, v1, f1, c1 := mangas, db.volumes, db.featured, corrections;
      var ajoute, m2 := AjouterSeries(db);
      EtapesListe(m0, c, apres, mangas, ajoute);
      RetraitPuisAjout(m0, c.supprimees, c.ajoutees, retire, apres, v0, f0, old(corrections), v1, f1, c1, corrections);
      modifs := m1 + m2;
      listeModifiee := retire || ajoute;
    }

    /**
      Step 1b on the list `m0` once its extra URLs are merged: the list
      becomes `ApresRetrait` of it, the flag says whether a series was
      dropped, and then every removed name is purged from the store.
    */
    method RetirerDe(ghost m0: seq<Manga>, db: DatabaseManager) returns (retire: bool, modifs: nat)
      requires seriesConfig.Some? && Noms(mangas) == Noms(m0)
      modifies this`mangas, this`corrections, this`seriesConfig, this`gistModifie, db
      ensures seriesConfig.Some? && seriesConfig.value.ajoutees == old(seriesConfig.value.ajoutees)
              && seriesConfig.value.urls == old(seriesConfig.value.urls)
      ensures var r := ApresRetrait(m0, old(seriesConfig.value.supprimees));
              |mangas| == |r| && modifs == |m0| - |r| && forall n :: Suivie(mangas, n) <==> Suivie(r, n)
      ensures retire <==> UneRetiree(m0, old(seriesConfig.value.supprimees))
      ensures NomsUniques(m0) ==> NomsUniques(mangas)
      ensures retire ==> forall n | n in NonVides(old(seriesConfig.value.supprimees)) :: db.GetAsinsSerie(n) == {}
      ensures var noms := NonVides(old(seriesConfig.value.supprimees));
              retire && old(corrections).Some? ==>
                corrections == Some(Retiree(old(corrections).value, AsinsDesSeries(old(db.volumes), old(db.featured), noms), Ensemble(noms)))
      ensures !retire || old(corrections).None? ==> corrections == old(corrections)
      ensures !retire ==> unchanged(db)
      ensures Intacts(old(db.volumes), old(db.featured), db.volumes, db.featured, NonVides(old(seriesConfig.value.supprimees)))
      ensures gistModifie <==> old(gistModifie) || NonVides(old(seriesConfig.value.supprimees)) != []
    {
      ghost var fusionnees := mangas;
      NomsUniquesNoms(m0, fusionnees);
      ghost var noms, asins0;
      retire, modifs, noms, asins0 := RetirerSeries(db);
      UnionAsinsDes(asins0, old(db.volumes), old(db.featured), noms);
      RetraitListe(m0, fusionnees, noms, mangas);
      if noms != [] && NomsUniques(fusionnees) {
        SansNomsUniques(fusionnees, Ensemble(noms));
      }
    }

    /**
      `charger_mangas_liste`: a list file that is missing, unreadable or
      empty (`None` or an empty list) leaves the tracked series as they
      were; otherwise its entries, with the filter their type calls for,
      become the tracked series.
    */
    method ChargerMangasListe(fichier: Option<seq<Manga>>) returns (r: seq<Manga>)
      modifies this`mangas
      ensures fichier.None? || fichier.value == [] ==> mangas == old(mangas)
      ensures fichier.Some? && fichier.value != [] ==>
                |mangas| == |fichier.value| && forall i | 0 <= i < |mangas| :: mangas[i] == AvecFiltre(fichier.value[i])
      ensures r == mangas
    {
      if fichier.Some? && fichier.value != [] {
        var lues := fichier.value;
        var i := 0;
        while i < |lues|
          invariant 0 <= i <= |lues| == |fichier.value|
          invariant forall k | 0 <= k < i :: lues[k] == AvecFiltre(fichier.value[k])
          invariant forall k | i <= k < |lues| :: lues[k] == fichier.value[k]
        {
          lues := lues[i := AvecFiltre(lues[i])];
          i := i + 1;
        }
        mangas := lues;
      }
      r := mangas;
    }

    /**
      `charger_corrections` with a store: imports the Gist's statuses
      (only new ones), tome corrections and official publishers, then
      takes the off-topic ASINs from the store's rejected set.
    */
    method ChargerCorrections(db: DatabaseManager)
      modifies this`asinsHorsSujet, db`statuts, db`volumes, db`cache, db`editeurs
      ensures corrections.None? ==>
                db.statuts == old(db.statuts) && db.volumes == old(db.volumes) && db.cache == old(db.cache) && db.editeurs == old(db.editeurs)
      ensures corrections.Some? ==>
                var c := corrections.value;
                && db.statuts == Importer(Importer(old(db.statuts), c.rejetes, "rejete", old(db.GetAsinsRejetes())),
                                          c.valides, "valide", old(db.GetAsinsValides()))
                && db.volumes == TomesCorriges(old(db.volumes), c.tomes, c.tomes.Keys)
                && db.cache == CacheCorrige(old(db.cache), c.tomes, c.tomes.Keys)
                && db.editeurs == EditeursImportes(old(db.editeurs), c.editeurs, c.editeurs.Keys, NormaliserEditeur)
      ensures asinsHorsSujet == db.GetAsinsRejetes()
    {
      if corrections.Some? {
        var c := corrections.value;
        ImporterStatuts(c.rejetes, c.valides, db);
        ImporterTomes(c.tomes, db);
        ImporterEditeurs(c.editeurs, db);
      }
      asinsHorsSujet := db.GetAsinsRejetes();
    }
  }
}
