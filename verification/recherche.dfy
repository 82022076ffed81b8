/**
  One run of `rechercher_manga` for a series, as an object whose fields
  are the run's working state: the candidate ASINs gathered in phase A
  (known volumes, reference ASIN, extra URLs, related volumes, search
  results), the volumes phase B verifies and reports, and the gap search
  of phase C. What the run fetches comes from the oracles of a `Web`
  value; the store is a `DatabaseManager` the run reads and writes.
*/
module Recherche {
  import opened Wrappers
  import opened Text
  import opened Normaliser
  import opened Titre
  import opened Tome
  import opened Scraper
  import opened Store
  import opened Pipeline
  import opened Suites

  /** A page of search results, and whether the pagination shows it is the last one. */
  datatype PageRecherche = PageRecherche(items: seq<Item>, derniereVraiePage: bool)

  /** A fetched detail page: its body, product title, and the date, publisher and format read from it ("" or None when absent). */
  datatype FicheProduit = FicheProduit(html: string, titre: string, date: string, editeur: Option<string>, format: string)

  /**
    What the run can fetch: search result pages by number (phase A, then
    phase C, which fetches them again), detail pages by URL (None when
    the fetch fails), related-volume sections by product URL, the tomes
    a bulk section labels by source ASIN, and the paper-edition link of
    an e-book page by URL and target format.
  */
  datatype Web = Web(recherche: int -> Option<PageRecherche>,
                     rechercheEtendue: int -> Option<PageRecherche>,
                     produit: string -> Option<FicheProduit>,
                     liens: string -> Option<PageLiens>,
                     tomesBulk: string -> map<string, nat>,
                     versionPapier: (string, string) -> Option<string>)

  /** `candidats` in insertion order: each key once. */
  ghost predicate OrdreDe(ordre: seq<string>, candidats: map<string, string>) {
    Distinct(ordre) && forall a :: a in candidats <==> a in ordre
  }

  /** The ASINs of a list that are not rejected by hand, in order. */
  function SansHorsSujet(s: seq<string>, horsSujet: set<string>): (r: seq<string>)
    ensures forall a :: a in r <==> a in s && a !in horsSujet
    ensures Distinct(s) ==> Distinct(r)
  {
    if s == [] then []
    else
      var p := SansHorsSujet(s[..|s| - 1], horsSujet);
      var x := s[|s| - 1];
      assert forall a | a in s :: a in s[..|s| - 1] || a == x;
      if x in horsSujet then p else p + [x]
  }

  /** The first `n` characters, as a slice `s[:n]` keeps them. */
  function Tronquer<T>(s: seq<T>, n: nat): (r: seq<T>)
    ensures |r| <= n && r <= s
    ensures |s| <= n ==> r == s
  {
    if |s| <= n then s else s[..n]
  }

  /** The reference ASIN, replaced by its paper edition when it is an e-book whose page links to one. */
  function ReferencePapier(ref: string, versionPapier: (string, string) -> Option<string>): (r: string)
    ensures EstAsinPapier(ref) ==> r == ref
    ensures r != ref ==> EstAsinPapier(r) && versionPapier(AmazonDp + ref, "").Some?
                         && r == ExtraireAsin(versionPapier(AmazonDp + ref, "").value)
  {
    if EstAsinPapier(ref) then ref
    else
      match versionPapier(AmazonDp + ref, "")
      case None => ref
      case Some(u) =>
        var a := ExtraireAsin(u);
        if a != [] && a != "?" && EstAsinPapier(a) then a else ref
  }

  /** The (ASIN, URL) pairs the extra URLs add: the first URL of each "/dp/" ASIN not seen before. */
  function Supplements(urls: seq<string>, vus: set<string>): (r: seq<(string, string)>)
    ensures forall k | 0 <= k < |r| :: r[k].1 in urls && AsinDp(r[k].1) == Some(r[k].0) && r[k].0 !in vus
    ensures forall i, j | 0 <= i < j < |r| :: r[i].0 != r[j].0
  {
    if urls == [] then []
    else
      var p := Supplements(urls[..|urls| - 1], vus);
      var u := urls[|urls| - 1];
      assert forall v | v in urls[..|urls| - 1] :: v in urls;
      match AsinDp(u)
      case None => p
      case Some(a) => if a in vus || a in Cles(p) then p else p + [(a, u)]
  }

  function Cles(ps: seq<(string, string)>): (r: seq<string>)
    ensures |r| == |ps| && forall k | 0 <= k < |ps| :: r[k] == ps[k].0
  {
    if ps == [] then [] else Cles(ps[..|ps| - 1]) + [ps[|ps| - 1].0]
  }

  /** The map `m` with each ASIN of `s` mapped to its product URL. */
  function AvecUrlsDp(m: map<string, string>, s: seq<string>): (r: map<string, string>)
    ensures forall a :: a in r <==> a in m || a in s
    ensures forall a | a in s :: r[a] == AmazonDp + a
    ensures forall a | a in m && a !in s :: r[a] == m[a]
  {
    if s == [] then m
    else
      assert forall x | x in s :: x in s[..|s| - 1] || x == s[|s| - 1];
      AvecUrlsDp(m, s[..|s| - 1])[s[|s| - 1] := AmazonDp + s[|s| - 1]]
  }

  /** Whether some ASIN of `s` is not in `connus`. */
  function UnInconnu(s: seq<string>, connus: set<string>): (b: bool)
    ensures b <==> exists a | a in s :: a !in connus
  {
    if s == [] then false
    else
      assert forall x | x in s :: x in s[..|s| - 1] || x == s[|s| - 1];
      UnInconnu(s[..|s| - 1], connus) || s[|s| - 1] !in connus
  }

  /** The map `m` with the pairs of `ps` written in order. */
  function Ecrire(m: map<string, string>, ps: seq<(string, string)>): map<string, string> {
    if ps == [] then m else Ecrire(m, ps[..|ps| - 1])[ps[|ps| - 1].0 := ps[|ps| - 1].1]
  }

  lemma ClesPas(s: seq<(string, string)>, a: string, u: string, m: map<string, string>)
    ensures Cles(s + [(a, u)]) == Cles(s) + [a]
    ensures Ensemble(Cles(s) + [a]) == Ensemble(Cles(s)) + {a}
    ensures Ecrire(m, s + [(a, u)]) == Ecrire(m, s)[a := u]
  {
    assert (s + [(a, u)])[..|s|] == s;
    assert (Cles(s) + [a])[..|Cles(s)|] == Cles(s);
  }

  /** Every "/dp/" ASIN of the extra URLs is a candidate afterwards, or was seen before. */
  lemma {:induction false} SupplementsComplets(urls: seq<string>, vus: set<string>, u: string)
    requires u in urls && AsinDp(u).Some? && AsinDp(u).value !in vus
    ensures AsinDp(u).value in Cles(Supplements(urls, vus))
    decreases |urls|
  {
    var q := urls[..|urls| - 1];
    var p := Supplements(q, vus);
    var a := AsinDp(u).value;
    if u in q {
      SupplementsComplets(q, vus, u);
      SupplementsCroit(urls, vus);
    } else if a in Cles(p) {
      SupplementsCroit(urls, vus);
    } else {
      assert u == urls[|urls| - 1];
      assert Supplements(urls, vus) == p + [(a, u)];
      ClesPas(p, a, u, map[]);
    }
  }

  /** The pairs only grow as URLs are added. */
  lemma SupplementsCroit(urls: seq<string>, vus: set<string>)
    requires urls != []
    ensures forall b | b in Cles(Supplements(urls[..|urls| - 1], vus)) :: b in Cles(Supplements(urls, vus))
  {
    var u := urls[|urls| - 1];
    var p := Supplements(urls[..|urls| - 1], vus);
    match AsinDp(u) {
      case None =>
      case Some(b) =>
        if !(b in vus || b in Cles(p)) {
          ClesPas(p, b, u, map[]);
        }
    }
  }

  /** The ASINs a bulk run takes up: not empty, not seen before, each once, in section order. */
  function Retenus(s: seq<string>, vus: set<string>): (r: seq<string>)
    ensures forall x :: x in r <==> x in s && x != [] && x !in vus
    ensures Distinct(r)
  {
    if s == [] then []
    else
      var p := Retenus(s[..|s| - 1], vus);
      var x := s[|s| - 1];
      assert forall a | a in s :: a in s[..|s| - 1] || a == x;
      if x != [] && x !in vus && x !in p then p + [x] else p
  }

  /** The paper ASINs of a list, in order. */
  function Papiers(s: seq<string>): (r: seq<string>)
    ensures forall x :: x in r <==> x in s && EstAsinPapier(x)
    ensures Distinct(s) ==> Distinct(r)
  {
    if s == [] then []
    else
      var p := Papiers(s[..|s| - 1]);
      var x := s[|s| - 1];
      assert forall a | a in s :: a in s[..|s| - 1] || a == x;
      if EstAsinPapier(x) then p + [x] else p
  }

  /** One more related ASIN: taken up when it is not empty and not seen, and every list built from the taken ones grows by it. */
  lemma RetenusPas(s: seq<string>, a: string, vus: set<string>)
    ensures Retenus(s + [a], vus) == if a != [] && a !in vus && a !in Retenus(s, vus) then Retenus(s, vus) + [a] else Retenus(s, vus)
  {
    assert (s + [a])[..|s|] == s;
  }

  lemma PapiersPas(n: seq<string>, a: string)
    ensures Papiers(n + [a]) == if EstAsinPapier(a) then Papiers(n) + [a] else Papiers(n)
  {
    assert (n + [a])[..|n|] == n;
  }

  lemma ClassementsPas(f: map<(string, string), Featured>, serie: string, n: seq<string>, a: string)
    ensures ClassementsBulk(f, serie, n + [a]) == ClassementsBulk(f, serie, n)[(serie, a) := Featured(if EstAsinPapier(a) then "papier" else "non_papier", Some("bulk"), None, None)]
  {
    assert (n + [a])[..|n|] == n;
  }

  lemma AvecUrlsPas(m: map<string, string>, n: seq<string>, a: string)
    ensures AvecUrlsDp(m, n + [a]) == AvecUrlsDp(m, n)[a := AmazonDp + a]
  {
    assert (n + [a])[..|n|] == n;
  }

  lemma UnInconnuPas(n: seq<string>, a: string, connus: set<string>)
    ensures UnInconnu(n + [a], connus) == (UnInconnu(n, connus) || a !in connus)
  {
    assert (n + [a])[..|n|] == n;
  }

  /** The classification rows a bulk run writes for the ASINs it takes up. */
  function ClassementsBulk(f: map<(string, string), Featured>, serie: string, s: seq<string>): (r: map<(string, string), Featured>)
    ensures forall a | a in s :: (serie, a) in r && r[(serie, a)] == Featured(if EstAsinPapier(a) then "papier" else "non_papier", Some("bulk"), None, None)
    ensures forall k | k in f && !(k.0 == serie && k.1 in s) :: k in r && r[k] == f[k]
    ensures forall k :: k in r <==> k in f || (k.0 == serie && k.1 in s)
  {
    if s == [] then f
    else
      var a := s[|s| - 1];
      assert forall b | b in s :: b in s[..|s| - 1] || b == a;
      ClassementsBulk(f, serie, s[..|s| - 1])[(serie, a) := Featured(if EstAsinPapier(a) then "papier" else "non_papier", Some("bulk"), None, None)]
  }

  /** The sections a bulk run consults. */
  function SourcesBulk(inclureFb: bool): set<string> {
    if inclureFb then {"bulk", "publisher", "frequently_bought"} else {"bulk", "publisher"}
  }

  /** The source label of a search result page. */
  function SourceFeatured(page: int): string {
    "featured_p" + IntToString(page)
  }

  /** The candidates and the seen ASINs only grow: new candidates come after the old ones, which keep their URL. */
  predicate Croit(o0: seq<string>, c0: map<string, string>, v0: set<string>, o1: seq<string>, c1: map<string, string>, v1: set<string>) {
    o0 <= o1 && v0 <= v1 && forall a | a in c0 :: a in c1 && c1[a] == c0[a]
  }

  /** The featured pages read so far, each with the count of candidates before it, grow by page `i`. */
  lemma LuesPas(lues: seq<(int, nat)>, pages: seq<int>, i: nat, n0: nat, n: nat)
    requires i < |pages| && |lues| == i && (pages[i] > 1 ==> n == n0)
    requires forall k | 0 <= k < i :: lues[k].0 == pages[k] && (lues[k].0 > 1 ==> lues[k].1 == n0)
    ensures var l := lues + [(pages[i], n)];
            forall k | 0 <= k < i + 1 :: l[k].0 == pages[k] && (l[k].0 > 1 ==> l[k].1 == n0)
  {
  }

  lemma CroitTrans(o0: seq<string>, c0: map<string, string>, v0: set<string>, o1: seq<string>, c1: map<string, string>, v1: set<string>,
                   o2: seq<string>, c2: map<string, string>, v2: set<string>)
    requires Croit(o0, c0, v0, o1, c1, v1) && Croit(o1, c1, v1, o2, c2, v2)
    ensures Croit(o0, c0, v0, o2, c2, v2)
  {
  }

  /** A search result the scan takes up: it has a title, and its ASIN, when it has one, was not seen yet. */
  predicate Nouvel(item: Item, vus: set<string>) {
    item.titre != [] && !(item.asin != [] && item.asin in vus)
  }

  /**
    The candidate, as (ASIN, URL), a newly seen result brings: the result
    itself when it is a paper volume; for an e-book, the paper edition its
    page links to (`lien`) when that is a paper ASIN seen neither before nor
    as the e-book itself; none otherwise.
  */
  function Decouverte(item: Item, c: Classe, vus: set<string>, lien: Option<string>): (r: Option<(string, string)>)
    ensures r.Some? && c != PapierValide ==> c == Ebook && EstAsinPapier(r.value.0) && r.value.0 !in vus + {item.asin}
  {
    if c == PapierValide then Some((item.asin, item.url))
    else if c == Ebook && lien.Some? then
      var a := ExtraireAsin(lien.value);
      if a != [] && EstAsinPapier(a) && a !in vus + {item.asin} then Some((a, lien.value)) else None
    else None
  }

  /** Every candidate a newly seen result brings is a paper ASIN not seen before; it is the result itself only for a paper volume. */
  lemma DecouverteNeuve(item: Item, cle: string, horsSujet: set<string>, vus: set<string>, lien: Option<string>)
    requires Nouvel(item, vus)
    ensures var c := Classer(item, cle, horsSujet);
            var r := Decouverte(item, c, vus, lien);
            r.Some? ==> EstAsinPapier(r.value.0) && r.value.0 !in vus && (r.value.0 == item.asin <==> c == PapierValide)
  {
    ClasserPapier(item, cle, horsSujet);
  }

  /** Whether the scan stops after a fetched result page: it is empty, the last one, or short past the first. */
  predicate ArretApres(page: int, pr: PageRecherche) {
    pr.items == [] || pr.derniereVraiePage || (page > 1 && |pr.items| < 8)
  }

  /**
    The progression a fetched result page records, if any: an empty page
    past the first closes the exploration at the page before; the last page,
    or a short page past the first, closes it at this page; otherwise a page
    beyond the furthest reached is recorded as reached, still open.
  */
  function ProgressionPage(page: int, pr: PageRecherche, pageMax: int): (r: Option<Progression>)
    ensures r.Some? ==> r.value.dernierePage == page || (r.value.dernierePage == page - 1 && pr.items == [])
    ensures r.Some? && !r.value.complete ==> r.value.dernierePage == page > pageMax
  {
    if pr.items == [] then (if page > 1 then Some(Progression(page - 1, true)) else None)
    else if pr.derniereVraiePage || (page > 1 && |pr.items| < 8) then Some(Progression(page, true))
    else if page > pageMax then Some(Progression(page, false))
    else None
  }

  /** The scan stops on a page exactly when that page closes the exploration, except an empty first page, which records nothing. */
  lemma ArretSiComplete(page: int, pr: PageRecherche, pageMax: int)
    ensures ArretApres(page, pr) <==> (ProgressionPage(page, pr, pageMax).Some? && ProgressionPage(page, pr, pageMax).value.complete)
                                      || (pr.items == [] && page <= 1)
  {
  }

  /** The first candidate whose search snippet shows the series' format in its title (文庫 for light novels, コミック otherwise). */
  function PremierDuBonType(o: seq<string>, meta: map<string, InfosFeatured>, filtre: string): (r: Option<nat>)
    ensures r.Some? ==> r.value < |o| && DuBonType(o[r.value], meta, filtre)
    ensures r.Some? ==> forall j | 0 <= j < r.value :: !DuBonType(o[j], meta, filtre)
    ensures r.None? ==> forall j | 0 <= j < |o| :: !DuBonType(o[j], meta, filtre)
  {
    if o == [] then None
    else if DuBonType(o[0], meta, filtre) then Some(0)
    else
      var r := PremierDuBonType(o[1..], meta, filtre);
      if r.Some? then Some(r.value + 1) else None
  }

  predicate DuBonType(a: string, meta: map<string, InfosFeatured>, filtre: string) {
    var titre := if a in meta then meta[a].titre else "";
    if filtre == "ln_only" then Contains(titre, "文庫") else Contains(titre, "コミック") || Contains(titre, "コミックス")
  }

  /** The candidate the bulk run after the search starts from: the first of the series' format, else the first. */
  function ChoixBulk(o: seq<string>, meta: map<string, InfosFeatured>, filtre: string): (r: Option<string>)
    ensures r.Some? <==> o != []
    ensures r.Some? ==> r.value in o
    ensures r.Some? && r.value != o[0] ==> DuBonType(r.value, meta, filtre)
    ensures r.Some? && PremierDuBonType(o, meta, filtre).Some? ==> r.value == o[PremierDuBonType(o, meta, filtre).value]
  {
    match PremierDuBonType(o, meta, filtre)
    case Some(k) => Some(o[k])
    case None => if o == [] then None else Some(o[0])
  }

  /**
    A product page with no bulk section and one unseen paper volume in its
    publisher section: the bulk run from it sets no success flag, yet
    takes that volume up as a candidate.
  */
  lemma BulkSansSectionAjoute(src: string, x: string, vus: set<string>, page: string -> Option<PageLiens>)
    requires !Contains(src, "amazon.co.jp") && page(AmazonDp + src) == Some(PageLiens([], [[x]], []))
    requires x != src && x != [] && x !in vus && EstAsinPapier(x)
    ensures var r := VolumesLies(src, Some(SourcesBulk(false)), page);
            r == Sections([], [x], []) && Papiers(Retenus(r.bulk + r.publisher + r.frequemment, vus)) == [x]
  {
    NouveauxMembres([x], {src});
    assert Nouveaux([x], {src}) == [x];
    assert PremierNonVide([[x]], {src}) == [x];
    assert PremierNonVide([], {src}) == [];
    assert [] + [x] + [] == [x];
    assert Retenus([x], vus) == [x] by {
      assert [x][..0] == [];
    }
    assert Papiers([x]) == [x] by {
      assert [x][..0] == [];
    }
  }

  /** Without the frequently-bought section, a bulk run with no bulk section takes up the publisher's section alone. */
  lemma SansBulkNiFrequemment(src: string, page: string -> Option<PageLiens>)
    ensures var r := VolumesLies(src, Some(SourcesBulk(false)), page);
            r.frequemment == [] && (r.bulk == [] ==> r.bulk + r.publisher + r.frequemment == r.publisher)
  {
  }

  // ---- phase B

  /** The way phase B settles a candidate. */
  datatype Chemin = Ignore | DuCache | SansPage | Invalide | Valide

  /** The fetch of a product page returned a body. */
  predicate PageRecue(f: Option<FicheProduit>) {
    f.Some? && f.value.html != []
  }

  /** A date field read with "Date inconnue" as its default. */
  function DateOuInconnue(d: string): string {
    if d == [] then "Date inconnue" else d
  }

  /** An optional field read with `default` as its default, as `dict.get` does. */
  function ChampOu(e: Option<string>, default: string): string {
    if e.Some? then e.value else default
  }

  /**
    The publisher of a verified volume: the one its page shows when not
    empty, else the one its title names in parentheses, in romaji.
  */
  function EditeurVolume(editeur: Option<string>, titre: string): (r: Option<string>)
    ensures Truthy(editeur) ==> r == editeur
    ensures !Truthy(editeur) && ExtraireEditeur(titre).Some? ==>
              r == Some(ConvertirEditeurRomaji(EditeursRomaji, ExtraireEditeur(titre).value))
    ensures !Truthy(editeur) && ExtraireEditeur(titre).None? ==> r == editeur
  {
    if Truthy(editeur) then editeur
    else match ExtraireEditeur(titre)
      case Some(e) => Some(ConvertirEditeurRomaji(EditeursRomaji, e))
      case None => editeur
  }

  /** The tome of a verified volume: the one read from its title, else the one its bulk section labels it with. */
  function TomeVerifie(lu: Option<TomeValue>, asin: string, bulkTomes: map<string, nat>): (t: Option<TomeValue>)
    ensures lu.Some? ==> t == lu
    ensures lu.None? && asin !in bulkTomes ==> t.None?
    ensures lu.None? && asin in bulkTomes ==> t == Some(Number(bulkTomes[asin]))
  {
    if lu.None? && asin in bulkTomes then Some(Number(bulkTomes[asin])) else lu
  }

  /** The ASINs of reported volumes. */
  function AsinsPapiers(ps: seq<Papier>): (r: set<string>)
    ensures forall p | p in ps :: p.asin in r
    ensures forall a | a in r :: exists p | p in ps :: p.asin == a
  {
    set p | p in ps :: p.asin
  }

  /** A row reported from a cached verification alone. */
  function PapierRepli(asin: string, url: string, v: Verification, dejaAlerte: bool): Papier {
    Papier(asin, url, v.tome, v.dateSortie, v.editeur, false, dejaAlerte, false, None)
  }

  // ---- phase C

  /** A result of the extended search worth looking at: titled, with an ASIN not seen yet, whose normalised title holds the title key. */
  predicate ConsidereEtendu(item: Item, cle: string, vus: set<string>) {
    item.titre != [] && item.asin != [] && item.asin !in vus && Contains(NormaliserTitre(item.titre), cle)
  }

  /** A considered result whose detail page phase C fetches: not an e-book, with a paper ASIN. */
  predicate PapierEtendu(item: Item) {
    !EstEbook(item.url, item.titre) && EstAsinPapier(item.asin)
  }

  /** The report line of a volume phase C finds: never a new release, no bulk-section fallback for its tome. */
  function PapierTrouve(item: Item, fiche: FicheProduit, t: Option<TomeValue>, editeur: Option<string>): Papier {
    Papier(item.asin, NormaliserUrl(item.url), TexteTome(t), DateOuInconnue(fiche.date),
           Some(if Truthy(editeur) then editeur.value else "Inconnu"), false, false, false, None)
  }

  /** A results page that was fetched and holds no result. */
  predicate SansResultat(p: Option<PageRecherche>) {
    p.Some? && p.value.items == []
  }

  /** Taking a newly found tome out of those still missing keeps them the tomes of `m0` not found. */
  lemma Retrancher(m0: set<int>, t0: set<int>, t1: set<int>, tome: Option<int>, manquants: set<int>)
    requires manquants == m0 - t0 && t1 == t0 + (if tome.Some? then {tome.value} else {})
    ensures var reste := if tome.Some? && tome.value in manquants then manquants - {tome.value} else manquants;
            reste == m0 - t1 && reste <= manquants
  {
  }

  /**
    The pages phase C has fetched (`lues`, from page 2 on) and what was
    missing before each (`avant`, starting from `m0`, never empty, only
    shrinking), with `manquants` what is missing now.
  */
  ghost predicate Parcours(lues: seq<int>, avant: seq<set<int>>, m0: set<int>, manquants: set<int>) {
    |lues| == |avant|
    && (forall k | 0 <= k < |lues| :: lues[k] == k + 2 && avant[k] != {})
    && (|avant| > 0 ==> avant[0] == m0 && manquants <= avant[|avant| - 1])
    && (|avant| == 0 ==> manquants == m0)
    && forall k | 0 < k < |avant| :: avant[k] <= avant[k - 1]
  }

  /** Fetching the next page while some tome is missing extends the walk. */
  lemma ParcoursSuivant(lues: seq<int>, avant: seq<set<int>>, m0: set<int>, manquants: set<int>, page: int, reste: set<int>)
    requires Parcours(lues, avant, m0, manquants) && |lues| == page - 2 && manquants != {} && reste <= manquants
    ensures Parcours(lues + [page], avant + [manquants], m0, reste)
  {
  }

  /** No ASIN is reported twice. */
  ghost predicate AsinsUniques(ps: seq<Papier>) {
    forall k, l | 0 <= k < l < |ps| :: ps[k].asin != ps[l].asin
  }

  /**
    Every reported new release that is not a changed date is alerted
    under `nom` in `alertes`, was not in `alertes0`, and is announced once.
  */
  ghost predicate Annoncees(nom: string, nouveautes: seq<Papier>, alertes: map<(string, string), string>,
                            alertes0: map<(string, string), string>) {
    (forall p | p in nouveautes && !p.dateModifiee :: (nom, p.url) in alertes && (nom, p.url) !in alertes0)
    && forall k, l | 0 <= k < l < |nouveautes| && !nouveautes[k].dateModifiee && !nouveautes[l].dateModifiee ::
         nouveautes[k].url != nouveautes[l].url
  }

  class RechercheSerie {
    const nom: string
    /** The key the series' rows are stored under: its identifier, or its name. */
    const nomBdd: string
    const filtre: string
    const horsSujet: set<string>
    /** The ASINs of the volumes already stored for the series. */
    const connus: set<string>
    const editeurOfficiel: Option<string>
    /** The French title the volumes are stored with. */
    const serieFr: Option<string>
    const web: Web
    /** Date parsing ("Y/M/D", and the English form of detail pages) and the current date. */
    const iso: string -> Option<Date>
    const anglais: string -> Option<Date>
    const maintenant: Date

    /** `candidats`: ASIN -> URL, with `ordre` its insertion order. */
    var ordre: seq<string>
    var candidats: map<string, string>
    var asinDejaVus: set<string>
    var bulkEffectue: bool
    var bulkAsinsEssayes: set<string>
    var bulkTomes: map<string, nat>
    /** What a search snippet said of a paper volume, and the format it showed. */
    var featuredMetadata: map<string, InfosFeatured>
    var nouveauxTrouvesFeatured: bool
    var pageMaxAtteinte: int
    var urlsAlertees: set<string>
    var captchaConsecutifs: nat
    var nouveautes: seq<Papier>
    var tousPapiers: seq<Papier>

    ghost predicate Valid()
      reads this
    {
      OrdreDe(ordre, candidats) && candidats.Keys <= asinDejaVus
      && (forall p | p in nouveautes :: p in tousPapiers)
    }

    /**
      Phase A0: the known volumes of the series, except those rejected by
      hand, are the first candidates; they and every ASIN the series'
      classification history holds count as seen.
    */
    constructor (nom: string, nomBdd: string, filtre: string, horsSujet: set<string>, serieFr: Option<string>,
                 web: Web, iso: string -> Option<Date>, anglais: string -> Option<Date>, maintenant: Date,
                 db: DatabaseManager, ordreConnus: seq<string>)
      requires Distinct(ordreConnus) && forall a :: a in ordreConnus <==> a in db.GetVolumesConnus(nomBdd)
      ensures Valid()
      ensures this.nom == nom && this.nomBdd == nomBdd && this.filtre == filtre && this.horsSujet == horsSujet
      ensures this.serieFr == serieFr && this.web == web && this.iso == iso && this.anglais == anglais
      ensures this.maintenant == maintenant
      ensures connus == db.GetVolumesConnus(nomBdd).Keys && editeurOfficiel == db.GetEditeurOfficiel(nomBdd)
      ensures ordre == SansHorsSujet(ordreConnus, horsSujet)
      ensures forall a | a in candidats :: candidats[a] == db.GetVolumesConnus(nomBdd)[a]
      ensures asinDejaVus == candidats.Keys + db.GetFeaturedHistoryAsins(nomBdd)
      ensures !bulkEffectue && bulkAsinsEssayes == {} && bulkTomes == map[] && featuredMetadata == map[]
      ensures !nouveauxTrouvesFeatured && pageMaxAtteinte == db.GetFeaturedProgression(nomBdd).dernierePage
      ensures urlsAlertees == {} && captchaConsecutifs == 0 && nouveautes == [] && tousPapiers == []
    {
      var volumesConnus := db.GetVolumesConnus(nomBdd);
      var o: seq<string> := [];
      var c: map<string, string> := map[];
      var i := 0;
      while i < |ordreConnus|
        invariant 0 <= i <= |ordreConnus|
        invariant o == SansHorsSujet(ordreConnus[..i], horsSujet)
        invariant forall a :: a in c <==> a in o
        invariant forall a | a in c :: a in volumesConnus && c[a] == volumesConnus[a]
      {
        var a := ordreConnus[i];
        assert ordreConnus[..i + 1][..i] == ordreConnus[..i];
        if a !in horsSujet {
          c := c[a := volumesConnus[a]];
          o := o + [a];
        }
        i := i + 1;
      }
      assert ordreConnus[..i] == ordreConnus;
      this.nom := nom;
      this.nomBdd := nomBdd;
      this.filtre := filtre;
      this.horsSujet := horsSujet;
      this.serieFr := serieFr;
      this.web := web;
      this.iso := iso;
      this.anglais := anglais;
      this.maintenant := maintenant;
      connus := volumesConnus.Keys;
      editeurOfficiel := db.GetEditeurOfficiel(nomBdd);
      ordre := o;
      candidats := c;
      asinDejaVus := c.Keys + db.GetFeaturedHistoryAsins(nomBdd);
      bulkEffectue := false;
      bulkAsinsEssayes := {};
      bulkTomes := map[];
      featuredMetadata := map[];
      nouveauxTrouvesFeatured := false;
      pageMaxAtteinte := db.GetFeaturedProgression(nomBdd).dernierePage;
      urlsAlertees := {};
      captchaConsecutifs := 0;
      nouveautes := [];
      tousPapiers := [];
    }

    /** A new candidate, seen from now on. */
    method Ajouter(a: string, url: string)
      requires Valid() && a !in asinDejaVus
      modifies this`ordre, this`candidats, this`asinDejaVus
      ensures Valid()
      ensures ordre == old(ordre) + [a] && candidats == old(candidats)[a := url]
      ensures asinDejaVus == old(asinDejaVus) + {a}
    {
      ordre := ordre + [a];
      candidats := candidats[a := url];
      asinDejaVus := asinDejaVus + {a};
    }

    /**
      Phase A1: with no candidate yet, the reference ASIN (its paper
      edition when it is an e-book linking to one) is the first.
    */
    method AjouterReference(asinReference: Option<string>)
      requires Valid()
      modifies this`ordre, this`candidats, this`asinDejaVus
      ensures Valid()
      ensures old(candidats) == map[] && asinReference.Some? && asinReference.value != [] ==>
                var r := ReferencePapier(asinReference.value, web.versionPapier);
                ordre == [r] && candidats == map[r := AmazonDp + r] && asinDejaVus == old(asinDejaVus) + {r}
      ensures !(old(candidats) == map[] && asinReference.Some? && asinReference.value != []) ==>
                ordre == old(ordre) && candidats == old(candidats) && asinDejaVus == old(asinDejaVus)
      ensures old(ordre) <= ordre && old(asinDejaVus) <= asinDejaVus
    {
      assert ordre != [] ==> ordre[0] in candidats;
      if candidats == map[] && asinReference.Some? && asinReference.value != [] {
        var r := ReferencePapier(asinReference.value, web.versionPapier);
        ordre := [r];
        candidats := map[r := AmazonDp + r];
        asinDejaVus := asinDejaVus + {r};
      }
    }

    /** Phase A2: the first URL of each "/dp/" ASIN not seen yet becomes a candidate. */
    method AjouterUrlsSupplementaires(urls: seq<string>)
      requires Valid()
      modifies this`ordre, this`candidats, this`asinDejaVus
      ensures Valid()
      ensures ordre == old(ordre) + Cles(Supplements(urls, old(asinDejaVus)))
      ensures candidats == Ecrire(old(candidats), Supplements(urls, old(asinDejaVus)))
      ensures asinDejaVus == old(asinDejaVus) + Ensemble(Cles(Supplements(urls, old(asinDejaVus))))
      ensures old(ordre) <= ordre && old(asinDejaVus) <= asinDejaVus
    {
      var vus := asinDejaVus;
      var i := 0;
      Prefixes(urls);
      SansRien(ordre, vus);
      while i < |urls|
        invariant 0 <= i <= |urls|
        invariant EtatUrls(urls[..i], vus, old(ordre), old(candidats))
      {
        PrefixeSuivant(urls, i);
        PasUrl(urls[..i], urls[i], vus, old(ordre), old(candidats));
        i := i + 1;
      }
    }

    /** The state after the extra URLs `vu` have been gone through. */
    ghost predicate EtatUrls(vu: seq<string>, vus: set<string>, ordre0: seq<string>, candidats0: map<string, string>)
      reads this
    {
      var s := Supplements(vu, vus);
      Valid()
      && ordre == ordre0 + Cles(s)
      && candidats == Ecrire(candidats0, s)
      && asinDejaVus == vus + Ensemble(Cles(s))
    }

    /** One extra URL. */
    method PasUrl(vu: seq<string>, u: string, vus: set<string>, ghost ordre0: seq<string>, ghost candidats0: map<string, string>)
      requires EtatUrls(vu, vus, ordre0, candidats0)
      modifies this`ordre, this`candidats, this`asinDejaVus
      ensures EtatUrls(vu + [u], vus, ordre0, candidats0)
    {
      ghost var s := Supplements(vu, vus);
      assert (vu + [u])[..|vu|] == vu;
      match AsinDp(u) {
        case None =>
          assert Supplements(vu + [u], vus) == s;
        case Some(a) =>
          assert a in asinDejaVus <==> a in vus || a in Cles(s);
          if a !in asinDejaVus {
            assert Supplements(vu + [u], vus) == s + [(a, u)];
            ClesPas(s, a, u, candidats0);
            Ajouter(a, u);
            Associe(ordre0, Cles(s), [a]);
            UnionAssocie(vus, Ensemble(Cles(s)), {a});
          } else {
            assert Supplements(vu + [u], vus) == s;
          }
      }
    }

    /**
      `executer_bulk`: nothing once a bulk run has succeeded or this
      source was tried; otherwise the source is tried, the run succeeds
      when the bulk or frequently-bought section is non-empty, and every
      related ASIN not seen yet is classified, the paper ones becoming
      candidates. Reports whether one of them is not a known volume.
    */
    method ExecuterBulk(asinSource: string, inclureFb: bool, db: DatabaseManager) returns (trouva: bool)
      requires Valid()
      modifies this`ordre, this`candidats, this`asinDejaVus, this`bulkEffectue, this`bulkAsinsEssayes, this`bulkTomes
      modifies db`featured
      ensures Valid() && Croit(old(ordre), old(candidats), old(asinDejaVus), ordre, candidats, asinDejaVus)
      ensures old(bulkEffectue) || asinSource in old(bulkAsinsEssayes) ==>
                !trouva && ordre == old(ordre) && candidats == old(candidats) && asinDejaVus == old(asinDejaVus)
                && bulkEffectue == old(bulkEffectue) && bulkAsinsEssayes == old(bulkAsinsEssayes)
                && bulkTomes == old(bulkTomes) && db.featured == old(db.featured)
      ensures !(old(bulkEffectue) || asinSource in old(bulkAsinsEssayes)) ==>
                var r := VolumesLies(asinSource, Some(SourcesBulk(inclureFb)), web.liens);
                bulkAsinsEssayes == old(bulkAsinsEssayes) + {asinSource}
                && bulkEffectue == (r.bulk != [] || r.frequemment != [])
                && bulkTomes == old(bulkTomes) + web.tomesBulk(asinSource)
                && ApresClassement(r.bulk + r.publisher + r.frequemment, old(asinDejaVus), old(ordre), old(candidats), old(db.featured), trouva, db)
    {
      trouva := false;
      if bulkEffectue || asinSource in bulkAsinsEssayes {
        return;
      }
      trouva := EssayerBulk(asinSource, inclureFb, db);
    }

    /** The part of ExecuterBulk that tries a source not tried yet. */
    method EssayerBulk(asinSource: string, inclureFb: bool, db: DatabaseManager) returns (trouva: bool)
      requires Valid()
      modifies this`ordre, this`candidats, this`asinDejaVus, this`bulkEffectue, this`bulkAsinsEssayes, this`bulkTomes
      modifies db`featured
      ensures Valid() && Croit(old(ordre), old(candidats), old(asinDejaVus), ordre, candidats, asinDejaVus)
      ensures var r := VolumesLies(asinSource, Some(SourcesBulk(inclureFb)), web.liens);
              bulkAsinsEssayes == old(bulkAsinsEssayes) + {asinSource}
              && bulkEffectue == (old(bulkEffectue) || r.bulk != [] || r.frequemment != [])
              && bulkTomes == old(bulkTomes) + web.tomesBulk(asinSource)
              && ApresClassement(r.bulk + r.publisher + r.frequemment, old(asinDejaVus), old(ordre), old(candidats), old(db.featured), trouva, db)
    {
      NoterBulk(asinSource, inclureFb);
      var r := ExtraireVolumesDepuisPage(asinSource, Some(SourcesBulk(inclureFb)), web.liens);
      trouva := ClasserBulk(r.bulk + r.publisher + r.frequemment, db);
    }

    /** The bookkeeping of a bulk attempt: the source is tried, the run succeeds on a non-empty section, its tomes are kept. */
    method NoterBulk(asinSource: string, inclureFb: bool)
      modifies this`bulkEffectue, this`bulkAsinsEssayes, this`bulkTomes
      ensures var r := VolumesLies(asinSource, Some(SourcesBulk(inclureFb)), web.liens);
              bulkAsinsEssayes == old(bulkAsinsEssayes) + {asinSource}
              && bulkEffectue == (old(bulkEffectue) || r.bulk != [] || r.frequemment != [])
              && bulkTomes == old(bulkTomes) + web.tomesBulk(asinSource)
    {
      bulkAsinsEssayes := bulkAsinsEssayes + {asinSource};
      var r := ExtraireVolumesDepuisPage(asinSource, Some(SourcesBulk(inclureFb)), web.liens);
      if r.bulk != [] || r.frequemment != [] {
        bulkEffectue := true;
      }
      bulkTomes := bulkTomes + web.tomesBulk(asinSource);
    }

    /**
      What classifying the related ASINs `tous` leaves: the ASINs taken up
      (non-empty, not seen before, each once) are seen, the paper ones are
      candidates with their product URL, each has its classification row,
      and `trouva` says whether a paper one is not a known volume.
    */
    ghost predicate ApresClassement(tous: seq<string>, vus: set<string>, ordre0: seq<string>, candidats0: map<string, string>,
                                    featured0: map<(string, string), Featured>, trouva: bool, db: DatabaseManager)
      reads this`ordre, this`candidats, this`asinDejaVus, db`featured
    {
      var n := Retenus(tous, vus);
      ordre == ordre0 + Papiers(n)
      && candidats == AvecUrlsDp(candidats0, Papiers(n))
      && asinDejaVus == vus + Ensemble(n)
      && db.featured == ClassementsBulk(featured0, nomBdd, n)
      && trouva == UnInconnu(Papiers(n), connus)
    }

    method ClasserBulk(tous: seq<string>, db: DatabaseManager) returns (trouva: bool)
      requires Valid()
      modifies this`ordre, this`candidats, this`asinDejaVus, db`featured
      ensures Valid() && Croit(old(ordre), old(candidats), old(asinDejaVus), ordre, candidats, asinDejaVus)
      ensures ApresClassement(tous, old(asinDejaVus), old(ordre), old(candidats), old(db.featured), trouva, db)
    {
      trouva := false;
      var vus := asinDejaVus;
      var i := 0;
      Prefixes(tous);
      DebutBulk(db);
      while i < |tous|
        invariant 0 <= i <= |tous|
        invariant EtatBulk(tous[..i], vus, old(ordre), old(candidats), old(db.featured), trouva, db)
      {
        PrefixeSuivant(tous, i);
        trouva := PasBulk(tous[..i], tous[i], vus, old(ordre), old(candidats), old(db.featured), trouva, db);
        i := i + 1;
      }
    }

    lemma DebutBulk(db: DatabaseManager)
      requires Valid()
      ensures EtatBulk([], asinDejaVus, ordre, candidats, db.featured, false, db)
    {
      SansRien(ordre, asinDejaVus);
    }

    /** The state after the bulk run has gone through the related ASINs `vu`. */
    ghost predicate EtatBulk(vu: seq<string>, vus: set<string>, ordre0: seq<string>, candidats0: map<string, string>,
                             featured0: map<(string, string), Featured>, trouva: bool, db: DatabaseManager)
      reads this, db
    {
      Valid() && ApresClassement(vu, vus, ordre0, candidats0, featured0, trouva, db)
      && Croit(ordre0, candidats0, vus, ordre, candidats, asinDejaVus)
    }

    /** One step of the bulk run. */
    method PasBulk(vu: seq<string>, a: string, vus: set<string>, ghost ordre0: seq<string>, ghost candidats0: map<string, string>,
                   ghost featured0: map<(string, string), Featured>, trouva: bool, db: DatabaseManager) returns (trouva': bool)
      requires EtatBulk(vu, vus, ordre0, candidats0, featured0, trouva, db)
      modifies this`ordre, this`candidats, this`asinDejaVus, db`featured
      ensures EtatBulk(vu + [a], vus, ordre0, candidats0, featured0, trouva', db)
    {
      trouva' := trouva;
      ghost var n := Retenus(vu, vus);
      RetenusPas(vu, a, vus);
      assert a in asinDejaVus <==> a in vus || a in n;
      if a != [] && a !in asinDejaVus {
        trouva' := PasBulkNeuf(vu, a, vus, ordre0, candidats0, featured0, trouva, db);
      }
    }

    /** The step of PasBulk for an ASIN that has not been seen yet. */
    method PasBulkNeuf(vu: seq<string>, a: string, vus: set<string>, ghost ordre0: seq<string>, ghost candidats0: map<string, string>,
                       ghost featured0: map<(string, string), Featured>, trouva: bool, db: DatabaseManager) returns (trouva': bool)
      requires EtatBulk(vu, vus, ordre0, candidats0, featured0, trouva, db)
      requires a != [] && a !in vus && a !in Retenus(vu, vus)
      modifies this`ordre, this`candidats, this`asinDejaVus, db`featured
      ensures EtatBulk(vu + [a], vus, ordre0, candidats0, featured0, trouva', db)
    {
      ghost var n := Retenus(vu, vus);
      RetenusPas(vu, a, vus);
      PapiersPas(n, a);
      EnsemblePas(n, a);
      ClassementsPas(featured0, nomBdd, n, a);
      AvecUrlsPas(candidats0, Papiers(n), a);
      UnInconnuPas(Papiers(n), a, connus);
      ghost var o, c, v := ordre, candidats, asinDejaVus;
      PrendreBulk(a, db);
      CroitTrans(ordre0, candidats0, vus, o, c, v, ordre, candidats, asinDejaVus);
      UnionAssocie(vus, Ensemble(n), {a});
      if EstAsinPapier(a) {
        Associe(ordre0, Papiers(n), [a]);
      }
      trouva' := trouva || (EstAsinPapier(a) && a !in connus);
    }

    /** One related ASIN not seen yet: classified "papier" and made a candidate, or classified "non_papier". */
    method PrendreBulk(a: string, db: DatabaseManager)
      requires Valid() && a !in asinDejaVus
      modifies this`ordre, this`candidats, this`asinDejaVus, db`featured
      ensures Valid() && Croit(old(ordre), old(candidats), old(asinDejaVus), ordre, candidats, asinDejaVus)
      ensures asinDejaVus == old(asinDejaVus) + {a}
      ensures EstAsinPapier(a) ==> ordre == old(ordre) + [a] && candidats == old(candidats)[a := AmazonDp + a]
      ensures !EstAsinPapier(a) ==> ordre == old(ordre) && candidats == old(candidats)
      ensures db.featured == old(db.featured)[(nomBdd, a) := Featured(if EstAsinPapier(a) then "papier" else "non_papier", Some("bulk"), None, None)]
    {
      if !EstAsinPapier(a) {
        asinDejaVus := asinDejaVus + {a};
        db.SauvegarderFeatured(nomBdd, a, "non_papier", Some("bulk"), None, None);
      } else {
        Ajouter(a, AmazonDp + a);
        db.SauvegarderFeatured(nomBdd, a, "papier", Some("bulk"), None, None);
      }
    }

    // ---- phase A3: the search result pages

    /** The paper-edition link the page of an e-book result gives, in the series' format. */
    function LienPapier(item: Item, c: Classe): Option<string> {
      if c == Ebook then web.versionPapier(item.url, FormatCible(filtre)) else None
    }

    /**
      What taking up a newly seen result of class `c` leaves: its row in the
      history (with the paper ASIN read from `lien` for an e-book), the
      snippet of a paper volume kept, its ASIN seen, and the candidate it
      brings added and flagged as new.
    */
    ghost predicate ApresItem(item: Item, page: int, c: Classe, lien: Option<string>, infos: InfosFeatured, ordre0: seq<string>,
                              candidats0: map<string, string>, vus0: set<string>, nouveaux0: bool,
                              meta0: map<string, InfosFeatured>, featured0: map<(string, string), Featured>, db: DatabaseManager)
      reads this, db
    {
      var d := Decouverte(item, c, vus0, lien);
      db.featured == featured0[(nomBdd, item.asin) := Featured(Statut(c), Some(SourceFeatured(page)), Some(item.titre),
                                                               if lien.Some? then Some(ExtraireAsin(lien.value)) else None)]
      && featuredMetadata == (if c == PapierValide
                              then meta0[item.asin := infos]
                              else meta0)
      && (d.None? ==> ordre == ordre0 && candidats == candidats0 && asinDejaVus == vus0 + {item.asin} && nouveauxTrouvesFeatured == nouveaux0)
      && (d.Some? ==> ordre == ordre0 + [d.value.0] && candidats == candidats0[d.value.0 := d.value.1]
                      && asinDejaVus == vus0 + {item.asin, d.value.0} && nouveauxTrouvesFeatured)
    }

    /**
      One search result of page `page`: skipped when it has no title or its
      ASIN was seen; otherwise classified by the first test that rejects it,
      its row written to the history, its ASIN seen, and the candidate it
      brings (itself when a paper volume, the linked paper edition of an
      e-book) added; the snippet of a paper volume is kept.
    */
    method ClasserItem(item: Item, page: int, cle: string, db: DatabaseManager)
      requires Valid()
      modifies this`ordre, this`candidats, this`asinDejaVus, this`nouveauxTrouvesFeatured, this`featuredMetadata, db`featured
      ensures Valid() && Croit(old(ordre), old(candidats), old(asinDejaVus), ordre, candidats, asinDejaVus)
      ensures nouveauxTrouvesFeatured <==> old(nouveauxTrouvesFeatured) || |ordre| > |old(ordre)|
      ensures item.titre != [] ==> item.asin in asinDejaVus
      ensures !Nouvel(item, old(asinDejaVus)) ==>
                ordre == old(ordre) && candidats == old(candidats) && asinDejaVus == old(asinDejaVus)
                && nouveauxTrouvesFeatured == old(nouveauxTrouvesFeatured) && featuredMetadata == old(featuredMetadata)
                && db.featured == old(db.featured)
      ensures Nouvel(item, old(asinDejaVus)) ==>
                var c := Classer(item, cle, horsSujet);
                ApresItem(item, page, c, LienPapier(item, c), ExtraireInfosFeatured(item.titre, item.spans, item.rangees), old(ordre), old(candidats), old(asinDejaVus),
                          old(nouveauxTrouvesFeatured), old(featuredMetadata), old(db.featured), db)
    {
      if !Nouvel(item, asinDejaVus) {
        return;
      }
      var c := Classer(item, cle, horsSujet);
      var lien := LienPapier(item, c);
      DecouverteNeuve(item, cle, horsSujet, asinDejaVus, lien);
      PrendreItem(item, page, c, lien, ExtraireInfosFeatured(item.titre, item.spans, item.rangees), db);
    }

    /** Taking up a newly seen result once its class `c` and the paper link `lien` of an e-book are known. */
    method PrendreItem(item: Item, page: int, c: Classe, lien: Option<string>, infos: InfosFeatured, db: DatabaseManager)
      requires Valid() && Nouvel(item, asinDejaVus) && (c != Ebook ==> lien.None?)
      requires var d := Decouverte(item, c, asinDejaVus, lien);
               d.Some? ==> EstAsinPapier(d.value.0) && d.value.0 !in asinDejaVus && (d.value.0 == item.asin <==> c == PapierValide)
      modifies this`ordre, this`candidats, this`asinDejaVus, this`nouveauxTrouvesFeatured, this`featuredMetadata, db`featured
      ensures Valid() && Croit(old(ordre), old(candidats), old(asinDejaVus), ordre, candidats, asinDejaVus) && item.asin in asinDejaVus
      ensures nouveauxTrouvesFeatured <==> old(nouveauxTrouvesFeatured) || |ordre| > |old(ordre)|
      ensures ApresItem(item, page, c, lien, infos, old(ordre), old(candidats), old(asinDejaVus),
                        old(nouveauxTrouvesFeatured), old(featuredMetadata), old(db.featured), db)
    {
      if c == PapierValide {
        PrendrePapier(item, page, c, lien, infos, db);
      } else {
        PrendreAutre(item, page, c, lien, infos, db);
      }
    }

    /** A new paper volume of the series: a candidate, recorded with its metadata. */
    method PrendrePapier(item: Item, page: int, c: Classe, lien: Option<string>, infos: InfosFeatured, db: DatabaseManager)
      requires Valid() && Nouvel(item, asinDejaVus) && (c != Ebook ==> lien.None?) && c == PapierValide
      requires var d := Decouverte(item, c, asinDejaVus, lien);
               d.Some? ==> EstAsinPapier(d.value.0) && d.value.0 !in asinDejaVus && (d.value.0 == item.asin <==> c == PapierValide)
      modifies this`ordre, this`candidats, this`asinDejaVus, this`nouveauxTrouvesFeatured, this`featuredMetadata, db`featured
      ensures Valid() && Croit(old(ordre), old(candidats), old(asinDejaVus), ordre, candidats, asinDejaVus) && item.asin in asinDejaVus
      ensures nouveauxTrouvesFeatured <==> old(nouveauxTrouvesFeatured) || |ordre| > |old(ordre)|
      ensures ApresItem(item, page, c, lien, infos, old(ordre), old(candidats), old(asinDejaVus),
                        old(nouveauxTrouvesFeatured), old(featuredMetadata), old(db.featured), db)
    {
      ghost var d := Decouverte(item, c, asinDejaVus, lien);
      Ajouter(item.asin, item.url);
      nouveauxTrouvesFeatured := true;
      db.SauvegarderFeatured(nomBdd, item.asin, Statut(c), Some(SourceFeatured(page)), Some(item.titre), None);
      featuredMetadata := featuredMetadata[item.asin := infos];
      assert asinDejaVus == old(asinDejaVus) + {item.asin, d.value.0};
    }

    /** Any other new result: seen, its paper volume (if any) a candidate, and recorded. */
    method PrendreAutre(item: Item, page: int, c: Classe, lien: Option<string>, infos: InfosFeatured, db: DatabaseManager)
      requires Valid() && Nouvel(item, asinDejaVus) && (c != Ebook ==> lien.None?) && c != PapierValide
      requires var d := Decouverte(item, c, asinDejaVus, lien);
               d.Some? ==> EstAsinPapier(d.value.0) && d.value.0 !in asinDejaVus && (d.value.0 == item.asin <==> c == PapierValide)
      modifies this`ordre, this`candidats, this`asinDejaVus, this`nouveauxTrouvesFeatured, this`featuredMetadata, db`featured
      ensures Valid() && Croit(old(ordre), old(candidats), old(asinDejaVus), ordre, candidats, asinDejaVus) && item.asin in asinDejaVus
      ensures nouveauxTrouvesFeatured <==> old(nouveauxTrouvesFeatured) || |ordre| > |old(ordre)|
      ensures ApresItem(item, page, c, lien, infos, old(ordre), old(candidats), old(asinDejaVus),
                        old(nouveauxTrouvesFeatured), old(featuredMetadata), old(db.featured), db)
    {
      var d := Decouverte(item, c, asinDejaVus, lien);
      asinDejaVus := asinDejaVus + {item.asin};
      if d.Some? {
        Ajouter(d.value.0, d.value.1);
        nouveauxTrouvesFeatured := true;
        UnionAssocie(old(asinDejaVus), {item.asin}, {d.value.0});
      }
      db.SauvegarderFeatured(nomBdd, item.asin, Statut(c), Some(SourceFeatured(page)), Some(item.titre),
                             if lien.Some? then Some(ExtraireAsin(lien.value)) else None);
    }

    /** The results of one page, in order: afterwards each one with a title is seen. */
    method ScannerPage(items: seq<Item>, page: int, cle: string, db: DatabaseManager)
      requires Valid()
      modifies this`ordre, this`candidats, this`asinDejaVus, this`nouveauxTrouvesFeatured, this`featuredMetadata, db`featured
      ensures Valid() && Croit(old(ordre), old(candidats), old(asinDejaVus), ordre, candidats, asinDejaVus)
      ensures nouveauxTrouvesFeatured <==> old(nouveauxTrouvesFeatured) || |ordre| > |old(ordre)|
      ensures forall k | 0 <= k < |items| && items[k].titre != [] :: items[k].asin in asinDejaVus
    {
      var i := 0;
      Prefixes(items);
      while i < |items|
        invariant 0 <= i <= |items|
        invariant EtatPage(items[..i], old(ordre), old(candidats), old(asinDejaVus), old(nouveauxTrouvesFeatured))
      {
        PrefixeSuivant(items, i);
        PasItem(items[..i], items[i], page, cle, old(ordre), old(candidats), old(asinDejaVus), old(nouveauxTrouvesFeatured), db);
        i := i + 1;
      }
    }

    /** The state after the results `vu` of a page have been gone through. */
    ghost predicate EtatPage(vu: seq<Item>, o0: seq<string>, c0: map<string, string>, v0: set<string>, n0: bool)
      reads this
    {
      Valid() && Croit(o0, c0, v0, ordre, candidats, asinDejaVus)
      && (nouveauxTrouvesFeatured <==> n0 || |ordre| > |o0|)
      && forall k | 0 <= k < |vu| && vu[k].titre != [] :: vu[k].asin in asinDejaVus
    }

    /** One result of a page. */
    method PasItem(vu: seq<Item>, item: Item, page: int, cle: string, ghost o0: seq<string>, ghost c0: map<string, string>,
                   ghost v0: set<string>, ghost n0: bool, db: DatabaseManager)
      requires EtatPage(vu, o0, c0, v0, n0)
      modifies this`ordre, this`candidats, this`asinDejaVus, this`nouveauxTrouvesFeatured, this`featuredMetadata, db`featured
      ensures EtatPage(vu + [item], o0, c0, v0, n0)
    {
      ghost var o, c, v := ordre, candidats, asinDejaVus;
      ClasserItem(item, page, cle, db);
      CroitTrans(o0, c0, v0, o, c, v, ordre, candidats, asinDejaVus);
    }

    /**
      One page of the schedule: a fetch that fails stops the scan, and
      abandons the run when it is page 1 and there is no candidate; a fetched
      page is scanned, its progression recorded, and the scan stops when the
      page closes the exploration.
    */
    method PasPage(page: int, cle: string, db: DatabaseManager) returns (arret: bool, abandon: bool)
      requires Valid()
      modifies this`ordre, this`candidats, this`asinDejaVus, this`nouveauxTrouvesFeatured, this`featuredMetadata, this`pageMaxAtteinte
      modifies db`featured, db`progression
      ensures Valid() && Croit(old(ordre), old(candidats), old(asinDejaVus), ordre, candidats, asinDejaVus)
      ensures nouveauxTrouvesFeatured <==> old(nouveauxTrouvesFeatured) || |ordre| > |old(ordre)|
      ensures abandon <==> page == 1 && old(candidats) == map[] && web.recherche(page).None?
      ensures web.recherche(page).None? ==>
                arret && ordre == old(ordre) && candidats == old(candidats) && asinDejaVus == old(asinDejaVus)
                && db.featured == old(db.featured) && db.progression == old(db.progression)
                && pageMaxAtteinte == old(pageMaxAtteinte)
      ensures web.recherche(page).Some? ==>
                var pr := web.recherche(page).value;
                var w := ProgressionPage(page, pr, old(pageMaxAtteinte));
                arret == ArretApres(page, pr)
                && db.progression == (if w.Some? then old(db.progression)[nomBdd := w.value] else old(db.progression))
                && pageMaxAtteinte == (if w.Some? && !w.value.complete then page else old(pageMaxAtteinte))
                && forall k | 0 <= k < |pr.items| && pr.items[k].titre != [] :: pr.items[k].asin in asinDejaVus
    {
      abandon := false;
      arret := false;
      var r := web.recherche(page);
      if r.None? {
        abandon := page == 1 && candidats == map[];
        arret := true;
        return;
      }
      var pr := r.value;
      if pr.items == [] {
        if page > 1 {
          db.SetFeaturedProgression(nomBdd, page - 1, true);
        }
        arret := true;
        return;
      }
      ScannerPage(pr.items, page, cle, db);
      if pr.derniereVraiePage || (page > 1 && |pr.items| < 8) {
        db.SetFeaturedProgression(nomBdd, page, true);
        arret := true;
      } else if page > pageMaxAtteinte {
        pageMaxAtteinte := page;
        db.SetFeaturedProgression(nomBdd, page, false);
      }
    }

    /**
      Phase A3: the scheduled result pages in order. Page 1 is always
      fetched; no page past the first is fetched once a new candidate has
      been found (`lues` pairs each fetched page with the number of
      candidates when it was fetched). The run is abandoned when page 1
      cannot be fetched and there is no candidate.
    */
    method ScannerFeatured(cle: string, db: DatabaseManager) returns (abandon: bool, ghost lues: seq<(int, nat)>)
      requires Valid() && !nouveauxTrouvesFeatured
      modifies this`ordre, this`candidats, this`asinDejaVus, this`nouveauxTrouvesFeatured, this`featuredMetadata, this`pageMaxAtteinte
      modifies db`featured, db`progression
      ensures Valid() && Croit(old(ordre), old(candidats), old(asinDejaVus), ordre, candidats, asinDejaVus)
      ensures nouveauxTrouvesFeatured <==> |ordre| > |old(ordre)|
      ensures var p := old(db.GetFeaturedProgression(nomBdd));
              var pages := PagesAScanner(p.dernierePage, p.complete);
              1 <= |lues| <= |pages| && forall k | 0 <= k < |lues| :: lues[k].0 == pages[k]
      ensures forall k | 0 <= k < |lues| :: lues[k].0 > 1 ==> lues[k].1 == |old(ordre)|
      ensures abandon <==> old(candidats) == map[] && web.recherche(1).None?
      ensures abandon ==> ordre == old(ordre) && candidats == old(candidats) && db.featured == old(db.featured)
    {
      var prog := db.GetFeaturedProgression(nomBdd);
      var pages := PagesAScanner(prog.dernierePage, prog.complete);
      pageMaxAtteinte := prog.dernierePage;
      abandon := false;
      lues := [];
      var i := 0;
      while i < |pages|
        invariant 0 <= i <= |pages| && |lues| == i
        invariant Valid() && Croit(old(ordre), old(candidats), old(asinDejaVus), ordre, candidats, asinDejaVus)
        invariant nouveauxTrouvesFeatured <==> |ordre| > |old(ordre)|
        invariant forall k | 0 <= k < i :: lues[k].0 == pages[k] && (lues[k].0 > 1 ==> lues[k].1 == |old(ordre)|)
        invariant i == 0 ==> ordre == old(ordre) && candidats == old(candidats) && db.featured == old(db.featured)
        invariant i > 0 ==> !(old(candidats) == map[] && web.recherche(1).None?)
        invariant !abandon
      {
        if nouveauxTrouvesFeatured && pages[i] > 1 {
          break;
        }
        LuesPas(lues, pages, i, |old(ordre)|, |ordre|);
        lues := lues + [(pages[i], |ordre|)];
        var arret;
        arret, abandon := PasPage(pages[i], cle, db);
        if abandon {
          return;
        }
        i := i + 1;
        if arret {
          break;
        }
      }
    }

    /**
      Phase A4: when no bulk section has been found yet and there are
      candidates, a bulk run from the candidate `ChoixBulk` picks and, if
      that page has no bulk section either, from the other candidates in
      turn.
    */
    method BulkApresFeatured(db: DatabaseManager)
      requires Valid()
      modifies this`ordre, this`candidats, this`asinDejaVus, this`bulkEffectue, this`bulkAsinsEssayes, this`bulkTomes
      modifies db`featured
      ensures Valid() && Croit(old(ordre), old(candidats), old(asinDejaVus), ordre, candidats, asinDejaVus)
      ensures old(bulkEffectue) ==> bulkEffectue
      ensures old(bulkAsinsEssayes) <= bulkAsinsEssayes
      ensures old(bulkEffectue) || old(candidats) == map[] ==>
                ordre == old(ordre) && candidats == old(candidats) && asinDejaVus == old(asinDejaVus)
                && bulkEffectue == old(bulkEffectue) && bulkAsinsEssayes == old(bulkAsinsEssayes)
                && bulkTomes == old(bulkTomes) && db.featured == old(db.featured)
      ensures !old(bulkEffectue) && old(candidats) != map[] ==>
                ChoixBulk(old(ordre), featuredMetadata, filtre).Some?
                && ChoixBulk(old(ordre), featuredMetadata, filtre).value in bulkAsinsEssayes
      ensures !bulkEffectue ==> forall a | a in old(ordre) :: a in bulkAsinsEssayes
    {
      if bulkEffectue || candidats == map[] {
        return;
      }
      assert ordre != [] by {
        var a :| a in candidats;
      }
      var choix := ChoixBulk(ordre, featuredMetadata, filtre).value;
      ghost var o, c, v := ordre, candidats, asinDejaVus;
      var _ := ExecuterBulk(choix, false, db);
      CroitTrans(old(ordre), old(candidats), old(asinDejaVus), o, c, v, ordre, candidats, asinDejaVus);
      if !bulkEffectue {
        o, c, v := ordre, candidats, asinDejaVus;
        RelancerBulk(db);
        CroitTrans(old(ordre), old(candidats), old(asinDejaVus), o, c, v, ordre, candidats, asinDejaVus);
      }
    }

    /**
      The retry of phase A4: a bulk run from each candidate in turn, over
      the candidates as they stand when the retry begins, until one shows
      a bulk section. Without success, every one of them has been tried.
    */
    method RelancerBulk(db: DatabaseManager)
      requires Valid() && !bulkEffectue
      modifies this`ordre, this`candidats, this`asinDejaVus, this`bulkEffectue, this`bulkAsinsEssayes, this`bulkTomes
      modifies db`featured
      ensures Valid() && Croit(old(ordre), old(candidats), old(asinDejaVus), ordre, candidats, asinDejaVus)
      ensures old(bulkAsinsEssayes) <= bulkAsinsEssayes
      ensures forall a | a in bulkAsinsEssayes :: a in old(bulkAsinsEssayes) || a in old(ordre)
      ensures !bulkEffectue ==> forall a | a in old(ordre) :: a in bulkAsinsEssayes
    {
      var s := ordre;
      var i := 0;
      Prefixes(s);
      while i < |s|
        invariant 0 <= i <= |s|
        invariant Valid() && Croit(old(ordre), old(candidats), old(asinDejaVus), ordre, candidats, asinDejaVus)
        invariant old(bulkAsinsEssayes) <= bulkAsinsEssayes && !bulkEffectue
        invariant forall a | a in bulkAsinsEssayes :: a in old(bulkAsinsEssayes) || a in s[..i]
        invariant forall a | a in s[..i] :: a in bulkAsinsEssayes
      {
        PrefixeSuivant(s, i);
        ghost var o, c, v := ordre, candidats, asinDejaVus;
        var _ := ExecuterBulk(s[i], false, db);
        CroitTrans(old(ordre), old(candidats), old(asinDejaVus), o, c, v, ordre, candidats, asinDejaVus);
        i := i + 1;
        if bulkEffectue {
          break;
        }
      }
    }

    /**
      The retry as written: it walks the live candidate dictionary, and
      Python ends such a walk with a RuntimeError once the dictionary has
      grown since the walk began (`erreur`). A bulk run that finds no bulk
      section can still take up candidates from the publisher's section,
      so the first unproductive step that adds one ends the retry.
    */
    method RelancerBulkAsWritten(db: DatabaseManager) returns (erreur: bool)
      requires Valid() && !bulkEffectue
      modifies this`ordre, this`candidats, this`asinDejaVus, this`bulkEffectue, this`bulkAsinsEssayes, this`bulkTomes
      modifies db`featured
      ensures Valid() && Croit(old(ordre), old(candidats), old(asinDejaVus), ordre, candidats, asinDejaVus)
      ensures erreur ==> !bulkEffectue && |ordre| > |old(ordre)|
      ensures !erreur && !bulkEffectue ==> ordre == old(ordre) && forall a | a in ordre :: a in bulkAsinsEssayes
      ensures old(ordre) != [] && old(ordre)[0] !in old(bulkAsinsEssayes) ==>
                var r := VolumesLies(old(ordre)[0], Some(SourcesBulk(false)), web.liens);
                r.bulk == [] && Papiers(Retenus(r.publisher, old(asinDejaVus))) != [] ==> erreur
    {
      erreur := false;
      var i := 0;
      while i < |ordre|
        invariant 0 <= i <= |ordre|
        invariant Valid() && Croit(old(ordre), old(candidats), old(asinDejaVus), ordre, candidats, asinDejaVus)
        invariant !bulkEffectue && ordre == old(ordre)
        invariant forall k | 0 <= k < i :: ordre[k] in bulkAsinsEssayes
        invariant i == 0 ==> bulkAsinsEssayes == old(bulkAsinsEssayes) && asinDejaVus == old(asinDejaVus)
        invariant i > 0 && old(ordre)[0] !in old(bulkAsinsEssayes) ==>
                    var r := VolumesLies(old(ordre)[0], Some(SourcesBulk(false)), web.liens);
                    !(r.bulk == [] && Papiers(Retenus(r.publisher, old(asinDejaVus))) != [])
        decreases |ordre| - i
      {
        var n := |ordre|;
        SansBulkNiFrequemment(ordre[i], web.liens);
        ghost var o, c, v := ordre, candidats, asinDejaVus;
        var _ := ExecuterBulk(ordre[i], false, db);
        CroitTrans(old(ordre), old(candidats), old(asinDejaVus), o, c, v, ordre, candidats, asinDejaVus);
        if bulkEffectue {
          return;
        }
        if |ordre| != n {
          erreur := true;
          return;
        }
        i := i + 1;
      }
    }

    // ---- phase B

    /**
      What phase B keeps: the URLs alerted in this run include those
      alerted before it; every new release other than a changed date was
      not alerted before phase B, is alerted now under the series name,
      and is announced once.
    */
    ghost predicate Annonces(urls0: set<string>, db: DatabaseManager)
      reads this, db
    {
      urls0 <= urlsAlertees
      && (forall p | p in nouveautes && !p.dateModifiee :: p.url !in urls0 && p.url in urlsAlertees && (nom, p.url) in db.alertes)
      && (forall i, j | 0 <= i < j < |nouveautes| && !nouveautes[i].dateModifiee && !nouveautes[j].dateModifiee ::
            nouveautes[i].url != nouveautes[j].url)
    }

    /**
      Reports a volume, and announces it when it is new: a new release
      that is not a changed date is alerted under the series name with
      `date`, and its URL counts as alerted from now on.
    */
    method Rapporter(p: Papier, date: string, ghost urls0: set<string>, db: DatabaseManager)
      requires Valid() && Annonces(urls0, db)
      requires p.estNouveaute && !p.dateModifiee ==> p.url !in urlsAlertees
      modifies this`urlsAlertees, this`nouveautes, this`tousPapiers, db`alertes
      ensures Valid() && Annonces(urls0, db)
      ensures tousPapiers == old(tousPapiers) + [p]
      ensures nouveautes == old(nouveautes) + if p.estNouveaute then [p] else []
      ensures p.estNouveaute && !p.dateModifiee ==>
                urlsAlertees == old(urlsAlertees) + {p.url} && db.alertes == AvecAlerte(old(db.alertes), nom, p.url, date)
      ensures !(p.estNouveaute && !p.dateModifiee) ==> urlsAlertees == old(urlsAlertees) && db.alertes == old(db.alertes)
    {
      if p.estNouveaute && !p.dateModifiee {
        db.MarquerCommeAlerte(nom, p.url, date);
        urlsAlertees := urlsAlertees + {p.url};
      }
      tousPapiers := tousPapiers + [p];
      if p.estNouveaute {
        nouveautes := nouveautes + [p];
      }
    }

    /**
      A candidate verified today: reported from the cache unless its
      publisher is another than the series'; new when it was not alerted
      and its date is past the threshold.
    */
    method DepuisCache(asin: string, url: string, v: Verification, dejaAlerte: bool, ghost urls0: set<string>, db: DatabaseManager)
      requires Valid() && Annonces(urls0, db) && dejaAlerte == (url in urlsAlertees)
      modifies this`urlsAlertees, this`nouveautes, this`tousPapiers, db`alertes
      ensures Valid() && Annonces(urls0, db)
      ensures AutreEditeur(editeurOfficiel, v.editeur) ==>
                tousPapiers == old(tousPapiers) && nouveautes == old(nouveautes)
                && urlsAlertees == old(urlsAlertees) && db.alertes == old(db.alertes)
      ensures !AutreEditeur(editeurOfficiel, v.editeur) ==>
                var nouveau := NouveauSansPage(dejaAlerte, v.dateSortie, iso);
                var p := Papier(asin, url, v.tome, v.dateSortie, Some(if Truthy(v.editeur) then v.editeur.value else "Inconnu"),
                                nouveau, dejaAlerte, false, None);
                tousPapiers == old(tousPapiers) + [p] && nouveautes == old(nouveautes) + (if nouveau then [p] else [])
                && urlsAlertees == (if nouveau then old(urlsAlertees) + {url} else old(urlsAlertees))
                && db.alertes == if nouveau then AvecAlerte(old(db.alertes), nom, url, v.dateSortie) else old(db.alertes)
    {
      if AutreEditeur(editeurOfficiel, v.editeur) {
        return;
      }
      var nouveau := NouveauSansPage(dejaAlerte, v.dateSortie, iso);
      var p := Papier(asin, url, v.tome, v.dateSortie, Some(if Truthy(v.editeur) then v.editeur.value else "Inconnu"),
                      nouveau, dejaAlerte, false, None);
      Rapporter(p, v.dateSortie, urls0, db);
    }

    /** A candidate whose page could not be read: reported from its cached verification when there is one, whatever its tome. */
    method Repli(asin: string, url: string, dejaAlerte: bool, ghost urls0: set<string>, db: DatabaseManager)
      requires Valid() && Annonces(urls0, db)
      modifies this`urlsAlertees, this`nouveautes, this`tousPapiers, db`alertes
      ensures Valid() && Annonces(urls0, db)
      ensures nouveautes == old(nouveautes) && urlsAlertees == old(urlsAlertees) && db.alertes == old(db.alertes)
      ensures old(db.GetVerificationCache(asin)).None? ==> tousPapiers == old(tousPapiers)
      ensures old(db.GetVerificationCache(asin)).Some? ==>
                tousPapiers == old(tousPapiers) + [PapierRepli(asin, url, old(db.GetVerificationCache(asin)).value, dejaAlerte)]
    {
      var v := db.GetVerificationCache(asin);
      if v.Some? {
        Rapporter(PapierRepli(asin, url, v.value, dejaAlerte), "", urls0, db);
      }
    }

    /**
      The second fallback for a page that came back invalid: what the
      search snippet said of the volume is cached and, unless its format
      or its publisher rule it out (`saute`), saved as a volume and
      reported, new when it was not alerted and its date is past the
      threshold.
    */
    method DepuisFeatured(asin: string, url: string, dejaAlerte: bool, ghost urls0: set<string>, db: DatabaseManager)
      returns (saute: bool)
      requires Valid() && Annonces(urls0, db) && dejaAlerte == (url in urlsAlertees) && asin in featuredMetadata
      modifies this`urlsAlertees, this`nouveautes, this`tousPapiers, db`alertes, db`cache, db`volumes
      ensures Valid() && Annonces(urls0, db)
      ensures var f := featuredMetadata[asin];
              var date := ChampOu(f.date, "Date inconnue");
              var editeur := ChampOu(f.editeur, "Inconnu");
              var nouveau := NouveauSansPage(dejaAlerte, date, iso);
              var p := Papier(asin, url, TexteTome(f.tome), date, Some(editeur), nouveau, dejaAlerte, false, None);
              db.cache == old(db.cache)[asin := Verification(date, TexteTome(f.tome), Tronquer(f.titre, 100), Some(editeur))]
              && (saute <==> FormatFeaturedRejete(filtre, ChampOu(f.format, "")) || AutreEditeur(editeurOfficiel, Some(editeur)))
              && (saute ==> tousPapiers == old(tousPapiers) && nouveautes == old(nouveautes) && urlsAlertees == old(urlsAlertees)
                            && db.alertes == old(db.alertes) && db.volumes == old(db.volumes))
              && (!saute ==> db.volumes == AvecVolume(old(db.volumes), asin, nom, serieFr, TomeEntier(f.tome), url, date,
                                                      Tronquer(f.titre, 200), Some(editeur))
                             && tousPapiers == old(tousPapiers) + [p] && nouveautes == old(nouveautes) + (if nouveau then [p] else [])
                             && urlsAlertees == (if nouveau then old(urlsAlertees) + {url} else old(urlsAlertees))
                             && db.alertes == if nouveau then AvecAlerte(old(db.alertes), nom, url, date) else old(db.alertes))
    {
      var f := featuredMetadata[asin];
      var date := ChampOu(f.date, "Date inconnue");
      var editeur := ChampOu(f.editeur, "Inconnu");
      db.SauvegarderVerification(asin, date, TexteTome(f.tome), Tronquer(f.titre, 100), Some(editeur));
      saute := FormatFeaturedRejete(filtre, ChampOu(f.format, "")) || AutreEditeur(editeurOfficiel, Some(editeur));
      if saute {
        return;
      }
      db.SauvegarderVolume(nom, serieFr, TomeEntier(f.tome), asin, url, date, Tronquer(f.titre, 200), Some(editeur));
      var nouveau := NouveauSansPage(dejaAlerte, date, iso);
      Rapporter(Papier(asin, url, TexteTome(f.tome), date, Some(editeur), nouveau, dejaAlerte, false, None), date, urls0, db);
    }

    /**
      The fallbacks for a page that came back invalid: the volume is
      reported from its cached verification whatever its tome, else from
      its search snippet; `saute` when the filters ruled the snippet out.
    */
    method Secours(asin: string, url: string, dejaAlerte: bool, ghost urls0: set<string>, db: DatabaseManager)
      returns (saute: bool)
      requires Valid() && Annonces(urls0, db) && dejaAlerte == (url in urlsAlertees)
      modifies this`urlsAlertees, this`nouveautes, this`tousPapiers, db`alertes, db`cache, db`volumes
      ensures Valid() && Annonces(urls0, db)
      ensures old(tousPapiers) <= tousPapiers && |tousPapiers| <= |old(tousPapiers)| + 1
      ensures forall k | |old(tousPapiers)| <= k < |tousPapiers| :: tousPapiers[k].asin == asin && tousPapiers[k].url == url
      ensures saute ==> old(db.GetVerificationCache(asin)).None? && asin in featuredMetadata
      ensures old(db.GetVerificationCache(asin)).Some? ==>
                tousPapiers == old(tousPapiers) + [PapierRepli(asin, url, old(db.GetVerificationCache(asin)).value, dejaAlerte)]
                && nouveautes == old(nouveautes) && db.cache == old(db.cache) && db.volumes == old(db.volumes)
      ensures old(db.GetVerificationCache(asin)).None? && asin !in featuredMetadata ==>
                tousPapiers == old(tousPapiers) && nouveautes == old(nouveautes) && db.cache == old(db.cache) && db.volumes == old(db.volumes)
    {
      saute := false;
      var v := db.GetVerificationCache(asin);
      if v.Some? {
        Rapporter(PapierRepli(asin, url, v.value, dejaAlerte), "", urls0, db);
      } else if asin in featuredMetadata {
        saute := DepuisFeatured(asin, url, dejaAlerte, urls0, db);
      }
    }

    /**
      A page that came back invalid (captcha, rate limit, too short, no
      title): one more consecutive invalid page, and the fallbacks. The
      counter is reset once it reaches 3 while some candidate is not
      reported yet, except after a snippet the filters ruled out, which
      skips that check.
    */
    method PageInvalide(asin: string, url: string, dejaAlerte: bool, ghost urls0: set<string>, db: DatabaseManager)
      returns (saute: bool)
      requires Valid() && Annonces(urls0, db) && dejaAlerte == (url in urlsAlertees)
      modifies this`captchaConsecutifs, this`urlsAlertees, this`nouveautes, this`tousPapiers, db`alertes, db`cache, db`volumes
      ensures Valid() && Annonces(urls0, db)
      ensures old(tousPapiers) <= tousPapiers && |tousPapiers| <= |old(tousPapiers)| + 1
      ensures forall k | |old(tousPapiers)| <= k < |tousPapiers| :: tousPapiers[k].asin == asin && tousPapiers[k].url == url
      ensures saute ==> captchaConsecutifs == old(captchaConsecutifs) + 1
      ensures !saute ==> captchaConsecutifs == if old(captchaConsecutifs) + 1 >= 3 && UnInconnu(ordre, AsinsPapiers(tousPapiers))
                                               then 0 else old(captchaConsecutifs) + 1
    {
      captchaConsecutifs := captchaConsecutifs + 1;
      saute := Secours(asin, url, dejaAlerte, urls0, db);
      if saute {
        return;
      }
      if captchaConsecutifs >= 3 && UnInconnu(ordre, AsinsPapiers(tousPapiers)) {
        captchaConsecutifs := 0;
      }
    }

    /**
      A valid page: the counter of invalid pages is reset; a format the
      series' filter rules out ends there; the verification is cached; a
      publisher other than the series' ends there; the volume is saved
      and reported with the verdict its date gives. A changed pre-order
      date updates the alert under the series key and is reported as new
      with its former date.
    */
    method PageValide(asin: string, url: string, fiche: FicheProduit, lu: Option<TomeValue>, dejaAlerte: bool,
                      dateAlerte: Option<string>, force: bool, ghost urls0: set<string>, db: DatabaseManager)
      requires Valid() && Annonces(urls0, db) && dejaAlerte == (url in urlsAlertees)
      modifies this`captchaConsecutifs, this`urlsAlertees, this`nouveautes, this`tousPapiers, db`alertes, db`cache, db`volumes
      ensures Valid() && Annonces(urls0, db)
      ensures old(tousPapiers) <= tousPapiers && |tousPapiers| <= |old(tousPapiers)| + 1
      ensures forall k | |old(tousPapiers)| <= k < |tousPapiers| :: tousPapiers[k].asin == asin && tousPapiers[k].url == url
      ensures captchaConsecutifs == 0
      ensures FormatRejete(filtre, fiche.format) ==>
                tousPapiers == old(tousPapiers) && nouveautes == old(nouveautes) && urlsAlertees == old(urlsAlertees)
                && db.alertes == old(db.alertes) && db.cache == old(db.cache) && db.volumes == old(db.volumes)
      ensures !FormatRejete(filtre, fiche.format) ==>
                Retenu(asin, url, fiche, TomeVerifie(lu, asin, bulkTomes), EditeurVolume(fiche.editeur, fiche.titre), VerdictPage(dejaAlerte, force, dateAlerte, fiche.date, iso, anglais),
                       old(db.cache), old(db.volumes), old(tousPapiers), old(nouveautes), old(urlsAlertees), old(db.alertes), db)
    {
      captchaConsecutifs := 0;
      if FormatRejete(filtre, fiche.format) {
        return;
      }
      Retenir(asin, url, fiche, TomeVerifie(lu, asin, bulkTomes), EditeurVolume(fiche.editeur, fiche.titre), VerdictPage(dejaAlerte, force, dateAlerte, fiche.date, iso, anglais),
              urls0, db);
    }

    /**
      What a valid page of the right format leaves: its verification
      cached; unless its publisher is another than the series', the
      volume saved and reported with its verdict.
    */
    ghost predicate Retenu(asin: string, url: string, fiche: FicheProduit, tome: Option<TomeValue>, editeur: Option<string>,
                           verdict: Verdict, cache0: map<string, Verification>, volumes0: map<string, Volume>, tous0: seq<Papier>,
                           nouveautes0: seq<Papier>, urls1: set<string>, alertes0: map<(string, string), string>, db: DatabaseManager)
      reads this, db
    {
      var date := DateOuInconnue(fiche.date);
      var cache1 := cache0[asin := Verification(date, TexteTome(tome), Tronquer(fiche.titre, 100), editeur)];
      if AutreEditeur(editeurOfficiel, editeur) then
        db.cache == cache1 && tousPapiers == tous0 && nouveautes == nouveautes0
        && urlsAlertees == urls1 && db.alertes == alertes0 && db.volumes == volumes0
      else
        db.volumes == AvecVolume(volumes0, asin, nom, serieFr, TomeEntier(tome), url, date, Tronquer(fiche.titre, 200), editeur)
        && ApresVerdict(asin, url, fiche, TexteTome(tome), verdict, cache1, tous0, nouveautes0, urls1, alertes0, db)
    }

    method Retenir(asin: string, url: string, fiche: FicheProduit, tome: Option<TomeValue>, editeur: Option<string>,
                   verdict: Verdict, ghost urls0: set<string>, db: DatabaseManager)
      requires Valid() && Annonces(urls0, db)
      requires verdict == Nouveau ==> url !in urlsAlertees
      modifies this`urlsAlertees, this`nouveautes, this`tousPapiers, db`alertes, db`cache, db`volumes
      ensures Valid() && Annonces(urls0, db)
      ensures old(tousPapiers) <= tousPapiers && |tousPapiers| <= |old(tousPapiers)| + 1
      ensures forall k | |old(tousPapiers)| <= k < |tousPapiers| :: tousPapiers[k].asin == asin && tousPapiers[k].url == url
      ensures Retenu(asin, url, fiche, tome, editeur, verdict, old(db.cache), old(db.volumes), old(tousPapiers), old(nouveautes),
                     old(urlsAlertees), old(db.alertes), db)
    {
      var date := DateOuInconnue(fiche.date);
      db.SauvegarderVerification(asin, date, TexteTome(tome), Tronquer(fiche.titre, 100), editeur);
      if AutreEditeur(editeurOfficiel, editeur) {
        return;
      }
      db.SauvegarderVolume(nom, serieFr, TomeEntier(tome), asin, url, date, Tronquer(fiche.titre, 200), editeur);
      Conclure(asin, url, fiche, TexteTome(tome), verdict, urls0, db);
    }

    /** The papier row of a verified page, before its verdict. */
    function PapierVerifie(asin: string, url: string, fiche: FicheProduit, tome: string): Papier {
      Papier(asin, url, tome, DateOuInconnue(fiche.date), Some(ChampOu(fiche.editeur, "Inconnu")), false, false, false, None)
    }

    /**
      What the verdict on a verified page leaves, from the cache `cache0`
      and the lists and alerts before it: a changed date updates the
      alert under the series key, caches the new date and reports the
      volume as new with its former date; a new release is alerted and
      reported as new; any other verdict only reports it.
    */
    ghost predicate ApresVerdict(asin: string, url: string, fiche: FicheProduit, tome: string, verdict: Verdict,
                                 cache0: map<string, Verification>, tous0: seq<Papier>, nouveautes0: seq<Papier>,
                                 urls1: set<string>, alertes0: map<(string, string), string>, db: DatabaseManager)
      reads this, db
    {
      var p := PapierVerifie(asin, url, fiche, tome);
      match verdict
      case DateModifiee(ancienne) =>
        var d := DateNettoyee(fiche.date);
        var q := p.(estNouveaute := true, dejaAlerte := true, dateModifiee := true, ancienneDate := Some(ancienne));
        db.alertes == (if (nomBdd, url) in alertes0 then alertes0[(nomBdd, url) := d] else alertes0)
        && db.cache == cache0[asin := Verification(d, tome, Tronquer(fiche.titre, 200), Some(ChampOu(fiche.editeur, "")))]
        && tousPapiers == tous0 + [q] && nouveautes == nouveautes0 + [q] && urlsAlertees == urls1
      case Nouveau =>
        var q := p.(estNouveaute := true);
        db.alertes == AvecAlerte(alertes0, nom, url, fiche.date) && db.cache == cache0
        && tousPapiers == tous0 + [q] && nouveautes == nouveautes0 + [q] && urlsAlertees == urls1 + {url}
      case _ =>
        db.alertes == alertes0 && db.cache == cache0
        && tousPapiers == tous0 + [p] && nouveautes == nouveautes0 && urlsAlertees == urls1
    }

    /** Reports a verified page according to its verdict. */
    method Conclure(asin: string, url: string, fiche: FicheProduit, tome: string, verdict: Verdict, ghost urls0: set<string>,
                    db: DatabaseManager)
      requires Valid() && Annonces(urls0, db)
      requires verdict == Nouveau ==> url !in urlsAlertees
      modifies this`urlsAlertees, this`nouveautes, this`tousPapiers, db`alertes, db`cache
      ensures Valid() && Annonces(urls0, db)
      ensures old(tousPapiers) <= tousPapiers && |tousPapiers| <= |old(tousPapiers)| + 1
      ensures forall k | |old(tousPapiers)| <= k < |tousPapiers| :: tousPapiers[k].asin == asin && tousPapiers[k].url == url
      ensures ApresVerdict(asin, url, fiche, tome, verdict, old(db.cache), old(tousPapiers), old(nouveautes), old(urlsAlertees),
                           old(db.alertes), db)
    {
      var p := PapierVerifie(asin, url, fiche, tome);
      match verdict {
        case DateModifiee(ancienne) =>
          var d := DateNettoyee(fiche.date);
          db.UpdateAlerteDate(nomBdd, url, d);
          db.SauvegarderVerification(asin, d, tome, Tronquer(fiche.titre, 200), Some(ChampOu(fiche.editeur, "")));
          Rapporter(p.(estNouveaute := true, dejaAlerte := true, dateModifiee := true, ancienneDate := Some(ancienne)), d, urls0, db);
        case Nouveau =>
          Rapporter(p.(estNouveaute := true), fiche.date, urls0, db);
        case _ =>
          Rapporter(p, "", urls0, db);
      }
    }

    /** The alert date read for a candidate's URL: only for a URL alerted already, and under the series key. */
    function DateAlerte(url: string, db: DatabaseManager): Option<string>
      reads this, db
    {
      if url in urlsAlertees then db.GetAlerteDate(nomBdd, url) else None
    }

    /**
      Phase B for one candidate: skipped when rejected by hand; reported
      from the cache when verified already, unless it is a pre-order whose
      alerted date is still ahead; otherwise its page is fetched, and a
      failed fetch falls back on the cache, an invalid page on the
      fallbacks, and a valid page is verified. A forced re-check needs an
      alert recorded under the series key.
    */
    method VerifierCandidat(asin: string, ghost urls0: set<string>, db: DatabaseManager) returns (ghost chemin: Chemin)
      requires Valid() && Annonces(urls0, db) && asin in candidats
      modifies this`captchaConsecutifs, this`urlsAlertees, this`nouveautes, this`tousPapiers, db`alertes, db`cache, db`volumes
      ensures Valid() && Annonces(urls0, db)
      ensures old(tousPapiers) <= tousPapiers && |tousPapiers| <= |old(tousPapiers)| + 1
      ensures forall k | |old(tousPapiers)| <= k < |tousPapiers| ::
                tousPapiers[k].asin == asin && tousPapiers[k].url == NormaliserUrl(candidats[asin])
      ensures var u := NormaliserUrl(candidats[asin]);
              var force := Forcer(old(DateAlerte(u, db)), iso, maintenant);
              (chemin == Ignore <==> asin in horsSujet)
              && (chemin == DuCache <==> asin !in horsSujet && !force && old(db.EstVerifieAujourdhui(asin)).Some?)
              && (force ==> u in old(urlsAlertees) && (nomBdd, u) in old(db.alertes))
      ensures chemin == Ignore ==> tousPapiers == old(tousPapiers) && nouveautes == old(nouveautes)
      ensures chemin == SansPage <==> chemin != Ignore && chemin != DuCache && !PageRecue(web.produit(candidats[asin]))
      ensures chemin == Valide <==> chemin != Ignore && chemin != DuCache && PageRecue(web.produit(candidats[asin]))
                                    && web.produit(candidats[asin]).value.titre != []
      ensures chemin == Valide ==> captchaConsecutifs == 0
      ensures chemin == Invalide ==> captchaConsecutifs == old(captchaConsecutifs) + 1
                                     || (captchaConsecutifs == 0 && old(captchaConsecutifs) + 1 >= 3)
      ensures chemin != Valide && chemin != Invalide ==> captchaConsecutifs == old(captchaConsecutifs)
    {
      var url := candidats[asin];
      var u := NormaliserUrl(url);
      if EstAsinHorsSujetManuel(asin, horsSujet) {
        chemin := Ignore;
        return;
      }
      var dejaAlerte := u in urlsAlertees;
      var dateAlerte := if dejaAlerte then db.GetAlerteDate(nomBdd, u) else None;
      var force := Forcer(dateAlerte, iso, maintenant);
      var cache := if force then None else db.EstVerifieAujourdhui(asin);
      if cache.Some? {
        chemin := DuCache;
        DepuisCache(asin, u, cache.value, dejaAlerte, urls0, db);
        return;
      }
      chemin := Examiner(asin, url, u, dejaAlerte, dateAlerte, force, urls0, db);
    }

    /**
      A candidate whose page is fetched: a failed fetch falls back on the
      cache, an invalid page on the fallbacks, and a valid page is
      verified.
    */
    method Examiner(asin: string, url: string, u: string, dejaAlerte: bool, dateAlerte: Option<string>, force: bool,
                    ghost urls0: set<string>, db: DatabaseManager) returns (ghost chemin: Chemin)
      requires Valid() && Annonces(urls0, db) && dejaAlerte == (u in urlsAlertees)
      modifies this`captchaConsecutifs, this`urlsAlertees, this`nouveautes, this`tousPapiers, db`alertes, db`cache, db`volumes
      ensures Valid() && Annonces(urls0, db)
      ensures old(tousPapiers) <= tousPapiers && |tousPapiers| <= |old(tousPapiers)| + 1
      ensures forall k | |old(tousPapiers)| <= k < |tousPapiers| :: tousPapiers[k].asin == asin && tousPapiers[k].url == u
      ensures chemin == SansPage || chemin == Invalide || chemin == Valide
      ensures chemin == SansPage <==> !PageRecue(web.produit(url))
      ensures chemin == Valide <==> PageRecue(web.produit(url)) && web.produit(url).value.titre != []
      ensures chemin == Valide ==> captchaConsecutifs == 0
      ensures chemin == Invalide ==> captchaConsecutifs == old(captchaConsecutifs) + 1
                                     || (captchaConsecutifs == 0 && old(captchaConsecutifs) + 1 >= 3)
      ensures chemin == SansPage ==> captchaConsecutifs == old(captchaConsecutifs)
    {
      var fiche := web.produit(url);
      if !PageRecue(fiche) {
        chemin := SansPage;
        Repli(asin, u, dejaAlerte, urls0, db);
        return;
      }
      var infos := ExtraireInfosProduit(fiche.value.html, fiche.value.titre).value;
      if infos.pageInvalide.Some? {
        chemin := Invalide;
        var _ := PageInvalide(asin, u, dejaAlerte, urls0, db);
        return;
      }
      chemin := Valide;
      PageValide(asin, u, fiche.value, infos.tome, dejaAlerte, dateAlerte, force, urls0, db);
    }

    /**
      Phase B: every candidate in insertion order, with the URLs alerted
      for the series so far. Each reported volume is a candidate not
      rejected by hand, reported once, under its normalised URL.
    */
    method Verifier(db: DatabaseManager)
      requires Valid()
      modifies this`captchaConsecutifs, this`urlsAlertees, this`nouveautes, this`tousPapiers, db`alertes, db`cache, db`volumes
      ensures Valid() && Annonces(old(db.GetAlertesExistantes(nom)), db)
      ensures forall p | p in tousPapiers :: p.asin in candidats && p.asin !in horsSujet && p.url == NormaliserUrl(candidats[p.asin])
      ensures forall i, j | 0 <= i < j < |tousPapiers| :: tousPapiers[i].asin != tousPapiers[j].asin
    {
      urlsAlertees := db.GetAlertesExistantes(nom);
      nouveautes := [];
      tousPapiers := [];
      captchaConsecutifs := 0;
      ghost var urls0 := urlsAlertees;
      var i := 0;
      Prefixes(ordre);
      while i < |ordre|
        invariant 0 <= i <= |ordre|
        invariant EtatVerif(ordre[..i], urls0, db)
      {
        PrefixeSuivant(ordre, i);
        PasVerif(ordre[..i], ordre[i], urls0, db);
        i := i + 1;
      }
    }

    /** The state after phase B has gone through the candidates `vu`. */
    ghost predicate EtatVerif(vu: seq<string>, urls0: set<string>, db: DatabaseManager)
      reads this, db
    {
      Valid() && Annonces(urls0, db)
      && (forall p | p in tousPapiers :: p.asin in vu && p.asin !in horsSujet && p.asin in candidats
                                         && p.url == NormaliserUrl(candidats[p.asin]))
      && forall k, l | 0 <= k < l < |tousPapiers| :: tousPapiers[k].asin != tousPapiers[l].asin
    }

    /** One candidate of phase B. */
    method PasVerif(vu: seq<string>, asin: string, ghost urls0: set<string>, db: DatabaseManager)
      requires EtatVerif(vu, urls0, db) && asin in candidats && asin !in vu
      modifies this`captchaConsecutifs, this`urlsAlertees, this`nouveautes, this`tousPapiers, db`alertes, db`cache, db`volumes
      ensures EtatVerif(vu + [asin], urls0, db)
    {
      var _ := VerifierCandidat(asin, urls0, db);
    }

    /**
      Phase C, a valid detail page: its verification is cached and,
      unless it shows another publisher than the series', the volume is
      saved and reported. `tome` is the number it adds to those found.
    */
    method RetenirEtendu(item: Item, fiche: FicheProduit, t: Option<TomeValue>, editeur: Option<string>,
                         ghost tous0: seq<Papier>, ghost vus0: set<string>, db: DatabaseManager)
      returns (tome: Option<int>)
      requires Neuf(item.asin, tous0, vus0)
      modifies this`tousPapiers, db`cache, db`volumes
      ensures EtatEtendu(tous0, vus0)
      ensures db.cache == old(db.cache)[item.asin := Verification(DateOuInconnue(fiche.date), TexteTome(t), Tronquer(fiche.titre, 100), editeur)]
      ensures AutreEditeur(editeurOfficiel, editeur) ==> tousPapiers == old(tousPapiers) && db.volumes == old(db.volumes)
      ensures !AutreEditeur(editeurOfficiel, editeur) ==>
                tousPapiers == old(tousPapiers) + [PapierTrouve(item, fiche, t, editeur)]
                && db.volumes == AvecVolume(old(db.volumes), item.asin, nom, serieFr, TomeEntier(t), NormaliserUrl(item.url),
                                            DateOuInconnue(fiche.date), Tronquer(fiche.titre, 200), editeur)
      ensures tome.Some? ==> !AutreEditeur(editeurOfficiel, editeur) && tome == TomeEntier(t)
      ensures TomesTrouves(tousPapiers) == TomesTrouves(old(tousPapiers)) + (if tome.Some? then {tome.value} else {})
    {
      tome := None;
      var date := DateOuInconnue(fiche.date);
      db.SauvegarderVerification(item.asin, date, TexteTome(t), Tronquer(fiche.titre, 100), editeur);
      if AutreEditeur(editeurOfficiel, editeur) {
        return;
      }
      tome := EnregistrerEtendu(item, fiche, t, editeur, tous0, vus0, db);
    }

    /** Phase C, a valid detail page of the series' publisher: the volume saved and added to those found. */
    method EnregistrerEtendu(item: Item, fiche: FicheProduit, t: Option<TomeValue>, editeur: Option<string>,
                             ghost tous0: seq<Papier>, ghost vus0: set<string>, db: DatabaseManager)
      returns (tome: Option<int>)
      requires Neuf(item.asin, tous0, vus0)
      modifies this`tousPapiers, db`volumes
      ensures EtatEtendu(tous0, vus0)
      ensures tousPapiers == old(tousPapiers) + [PapierTrouve(item, fiche, t, editeur)]
      ensures db.volumes == AvecVolume(old(db.volumes), item.asin, nom, serieFr, TomeEntier(t), NormaliserUrl(item.url),
                                       DateOuInconnue(fiche.date), Tronquer(fiche.titre, 200), editeur)
      ensures tome == TomeEntier(t)
      ensures TomesTrouves(tousPapiers) == TomesTrouves(old(tousPapiers)) + (if tome.Some? then {tome.value} else {})
    {
      db.SauvegarderVolume(nom, serieFr, TomeEntier(t), item.asin, NormaliserUrl(item.url), DateOuInconnue(fiche.date),
                           Tronquer(fiche.titre, 200), editeur);
      var p := PapierTrouve(item, fiche, t, editeur);
      TomesTrouvesAjout(tousPapiers, p);
      TexteTomeRelu(t);
      tousPapiers := tousPapiers + [p];
      tome := TomeEntier(t);
    }

    /**
      Phase C, one result of a page: one worth looking at is seen from now
      on; for a paper volume, its detail page is fetched and, when valid,
      verified as `RetenirEtendu` says.
    */
    method ItemEtendu(item: Item, cle: string, ghost tous0: seq<Papier>, ghost vus0: set<string>, db: DatabaseManager)
      returns (tome: Option<int>)
      requires EtatEtendu(tous0, vus0)
      modifies this`asinDejaVus, this`tousPapiers, db`cache, db`volumes
      ensures EtatEtendu(tous0, vus0)
      ensures asinDejaVus == if ConsidereEtendu(item, cle, old(asinDejaVus)) then old(asinDejaVus) + {item.asin} else old(asinDejaVus)
      ensures old(tousPapiers) <= tousPapiers && |tousPapiers| <= |old(tousPapiers)| + 1
      ensures !(ConsidereEtendu(item, cle, old(asinDejaVus)) && PapierEtendu(item)) ==>
                tousPapiers == old(tousPapiers) && db.cache == old(db.cache) && db.volumes == old(db.volumes)
      ensures |tousPapiers| > |old(tousPapiers)| ==>
                ConsidereEtendu(item, cle, old(asinDejaVus)) && PapierEtendu(item)
                && PageRecue(web.produit(item.url)) && web.produit(item.url).value.titre != []
                && tousPapiers[|old(tousPapiers)|].asin == item.asin && tousPapiers[|old(tousPapiers)|].url == NormaliserUrl(item.url)
      ensures TomesTrouves(tousPapiers) == TomesTrouves(old(tousPapiers)) + (if tome.Some? then {tome.value} else {})
    {
      tome := None;
      if !ConsidereEtendu(item, cle, asinDejaVus) {
        return;
      }
      asinDejaVus := asinDejaVus + {item.asin};
      if !PapierEtendu(item) {
        return;
      }
      tome := FicheEtendue(item, tous0, vus0, db);
    }

    /**
      The state in which phase C takes up the paper ASIN `a`: it is seen
      now, it was not seen before phase C, and no volume with it is reported.
    */
    ghost predicate Neuf(a: string, tous0: seq<Papier>, vus0: set<string>)
      reads this
    {
      EtatEtendu(tous0, vus0) && a in asinDejaVus && a !in vus0 && EstAsinPapier(a)
      && forall p | p in tousPapiers :: p.asin != a
    }

    /** Phase C, the detail page of a paper result taken up: verified as `RetenirEtendu` says when it came and is valid. */
    method FicheEtendue(item: Item, ghost tous0: seq<Papier>, ghost vus0: set<string>, db: DatabaseManager)
      returns (tome: Option<int>)
      requires Neuf(item.asin, tous0, vus0)
      modifies this`tousPapiers, db`cache, db`volumes
      ensures EtatEtendu(tous0, vus0)
      ensures old(tousPapiers) <= tousPapiers && |tousPapiers| <= |old(tousPapiers)| + 1
      ensures !(PageRecue(web.produit(item.url)) && web.produit(item.url).value.titre != []) ==>
                tousPapiers == old(tousPapiers) && db.cache == old(db.cache) && db.volumes == old(db.volumes)
      ensures |tousPapiers| > |old(tousPapiers)| ==>
                tousPapiers[|old(tousPapiers)|].asin == item.asin && tousPapiers[|old(tousPapiers)|].url == NormaliserUrl(item.url)
      ensures TomesTrouves(tousPapiers) == TomesTrouves(old(tousPapiers)) + (if tome.Some? then {tome.value} else {})
    {
      tome := None;
      var fiche := web.produit(item.url);
      if !PageRecue(fiche) {
        return;
      }
      var infos := ExtraireInfosProduit(fiche.value.html, fiche.value.titre).value;
      if infos.pageInvalide.Some? {
        return;
      }
      tome := RetenirEtendu(item, fiche.value, infos.tome, EditeurVolume(fiche.value.editeur, fiche.value.titre), tous0, vus0, db);
    }

    /**
      The state during phase C, which started from the reported volumes
      `tous0` and the seen ASINs `vus0`: every reported volume has a seen
      ASIN, no ASIN is reported twice, and those phase C adds are paper
      ASINs it had not seen before.
    */
    ghost predicate EtatEtendu(tous0: seq<Papier>, vus0: set<string>)
      reads this
    {
      Valid() && tous0 <= tousPapiers && vus0 <= asinDejaVus
      && (forall p | p in tousPapiers :: p.asin in asinDejaVus) && AsinsUniques(tousPapiers)
      && forall k | |tous0| <= k < |tousPapiers| :: tousPapiers[k].asin !in vus0 && EstAsinPapier(tousPapiers[k].asin)
    }

    /** Phase C, one result, with `manquants` the tomes of `m0` still missing: the tome it brings is no longer missing. */
    method PasEtendu(item: Item, cle: string, manquants: set<int>, ghost m0: set<int>, ghost tous0: seq<Papier>,
                     ghost vus0: set<string>, db: DatabaseManager) returns (reste: set<int>)
      requires EtatEtendu(tous0, vus0) && manquants == m0 - TomesTrouves(tousPapiers)
      modifies this`asinDejaVus, this`tousPapiers, db`cache, db`volumes
      ensures EtatEtendu(tous0, vus0) && reste == m0 - TomesTrouves(tousPapiers) && reste <= manquants
    {
      ghost var t0 := TomesTrouves(tousPapiers);
      var tome := ItemEtendu(item, cle, tous0, vus0, db);
      reste := if tome.Some? && tome.value in manquants then manquants - {tome.value} else manquants;
      Retrancher(m0, t0, TomesTrouves(tousPapiers), tome, manquants);
    }

    /** Phase C, the first 30 results of a page, with `manquants` the tomes of `m0` still missing. */
    method PageEtendue(items: seq<Item>, cle: string, manquants: set<int>, ghost m0: set<int>, ghost tous0: seq<Papier>,
                       ghost vus0: set<string>, db: DatabaseManager) returns (reste: set<int>)
      requires EtatEtendu(tous0, vus0) && manquants == m0 - TomesTrouves(tousPapiers)
      modifies this`asinDejaVus, this`tousPapiers, db`cache, db`volumes
      ensures EtatEtendu(tous0, vus0) && reste == m0 - TomesTrouves(tousPapiers) && reste <= manquants
    {
      reste := manquants;
      var n := if |items| < 30 then |items| else 30;
      var i := 0;
      while i < n
        invariant 0 <= i <= n
        invariant EtatEtendu(tous0, vus0) && reste == m0 - TomesTrouves(tousPapiers) && reste <= manquants
      {
        reste := PasEtendu(items[i], cle, reste, m0, tous0, vus0, db);
        i := i + 1;
      }
    }

    /** Phase C, result page `page`, with `manquants` the tomes of `m0` still missing; `vide` when it came with no result. */
    method PasRechercheEtendue(page: int, cle: string, manquants: set<int>, ghost m0: set<int>, ghost tous0: seq<Papier>,
                               ghost vus0: set<string>, db: DatabaseManager) returns (reste: set<int>, vide: bool)
      requires EtatEtendu(tous0, vus0) && manquants == m0 - TomesTrouves(tousPapiers)
      modifies this`asinDejaVus, this`tousPapiers, db`cache, db`volumes
      ensures EtatEtendu(tous0, vus0) && reste == m0 - TomesTrouves(tousPapiers) && reste <= manquants
      ensures vide <==> SansResultat(web.rechercheEtendue(page))
    {
      reste, vide := manquants, false;
      var pr := web.rechercheEtendue(page);
      if pr.Some? {
        if pr.value.items == [] {
          vide := true;
          return;
        }
        reste := PageEtendue(pr.value.items, cle, manquants, m0, tous0, vus0, db);
      }
    }

    /**
      Phase C: when the reported volumes leave tomes missing below the
      highest found, search result pages 2 to 4 are scanned again for
      them, page by page while some tome is still missing (`lues`: the
      pages fetched, `avant`: what was missing before each). Scanning
      stops early at a page with no result; a page that fails to come is
      passed over.
    */
    method RechercheEtendue(cle: string, db: DatabaseManager) returns (ghost lues: seq<int>, ghost avant: seq<set<int>>)
      requires EtatEtendu(tousPapiers, asinDejaVus)
      modifies this`asinDejaVus, this`tousPapiers, db`cache, db`volumes
      ensures EtatEtendu(old(tousPapiers), old(asinDejaVus))
      ensures Manquants(old(tousPapiers)) == {} ==>
                lues == [] && tousPapiers == old(tousPapiers) && asinDejaVus == old(asinDejaVus)
                && db.cache == old(db.cache) && db.volumes == old(db.volumes)
      ensures |lues| == |avant| <= 3
      ensures forall k | 0 <= k < |lues| :: lues[k] == k + 2 && avant[k] != {}
      ensures |avant| > 0 ==> avant[0] == Manquants(old(tousPapiers))
      ensures forall k | 0 < k < |avant| :: avant[k] <= avant[k - 1]
      ensures (Manquants(old(tousPapiers)) - TomesTrouves(tousPapiers) != {} && |lues| < 3) ==>
                |lues| > 0 && SansResultat(web.rechercheEtendue(lues[|lues| - 1]))
    {
      lues, avant := [], [];
      var manquants := Manquants(tousPapiers);
      ghost var m0, tous0, vus0 := manquants, tousPapiers, asinDejaVus;
      var page := 2;
      while page < 5
        invariant 2 <= page <= 5 && |lues| == page - 2
        invariant EtatEtendu(tous0, vus0) && manquants == m0 - TomesTrouves(tousPapiers)
        invariant Parcours(lues, avant, m0, manquants)
        invariant m0 == {} ==> page == 2 && tousPapiers == tous0 && asinDejaVus == vus0
                               && db.cache == old(db.cache) && db.volumes == old(db.volumes)
      {
        if manquants == {} {
          break;
        }
        var reste, vide := PasRechercheEtendue(page, cle, manquants, m0, tous0, vus0, db);
        ParcoursSuivant(lues, avant, m0, manquants, page, reste);
        lues, avant, manquants := lues + [page], avant + [manquants], reste;
        if vide {
          break;
        }
        page := page + 1;
      }
    }

    /**
      Phase A after the known volumes: the reference ASIN, the extra URLs,
      and a first bulk run from the first candidate, which has been tried
      afterwards unless a bulk run had already succeeded.
    */
    method Amorcer(asinReference: Option<string>, urlsSupplementaires: seq<string>, db: DatabaseManager)
      requires Valid()
      modifies this`ordre, this`candidats, this`asinDejaVus, this`bulkEffectue, this`bulkAsinsEssayes, this`bulkTomes
      modifies db`featured
      ensures Valid() && old(ordre) <= ordre && old(asinDejaVus) <= asinDejaVus
      ensures ordre != [] ==> old(bulkEffectue) || ordre[0] in bulkAsinsEssayes
    {
      AjouterReference(asinReference);
      AjouterUrlsSupplementaires(urlsSupplementaires);
      PremierBulk(db);
    }

    /** The first bulk run, from the first candidate when there is one. */
    method PremierBulk(db: DatabaseManager)
      requires Valid()
      modifies this`ordre, this`candidats, this`asinDejaVus, this`bulkEffectue, this`bulkAsinsEssayes, this`bulkTomes
      modifies db`featured
      ensures Valid() && old(ordre) <= ordre && old(asinDejaVus) <= asinDejaVus
      ensures ordre != [] ==> old(bulkEffectue) || ordre[0] in bulkAsinsEssayes
    {
      assert ordre != [] ==> ordre[0] in candidats;
      if candidats != map[] {
        assert ordre != [] by {
          var a :| a in candidats;
        }
        ghost var o1, t1 := ordre, bulkAsinsEssayes;
        assert bulkEffectue == old(bulkEffectue);
        var _ := ExecuterBulk(ordre[0], true, db);
        assert ordre[0] == o1[0] by {
          assert o1 <= ordre;
        }
        assert old(bulkEffectue) || o1[0] in bulkAsinsEssayes by {
          if !old(bulkEffectue) && o1[0] in t1 {
            assert bulkAsinsEssayes == t1;
          }
        }
      }
    }

    /**
      Phase A after the first bulk run: the search result pages, then a
      bulk run from the candidates if none has found a bulk section.
      `abandon` when page 1 cannot be fetched and there is no candidate.
    */
    method Decouvrir(cle: string, db: DatabaseManager) returns (abandon: bool)
      requires Valid() && !nouveauxTrouvesFeatured
      modifies this`ordre, this`candidats, this`asinDejaVus, this`nouveauxTrouvesFeatured, this`featuredMetadata, this`pageMaxAtteinte
      modifies this`bulkEffectue, this`bulkAsinsEssayes, this`bulkTomes, db`featured, db`progression
      ensures Valid()
      ensures abandon ==> candidats == map[]
      ensures !abandon && old(candidats) != map[] ==> candidats != map[]
    {
      var a, _ := ScannerFeatured(cle, db);
      abandon := a;
      if abandon {
        return;
      }
      ghost var c := candidats;
      BulkApresFeatured(db);
      assert c.Keys <= candidats.Keys;
    }

    /**
      What a run reports, with `alertes0` the alerts stored before it:
      every retained volume has a seen ASIN and none is retained twice;
      every new release that is not a changed date is alerted under the
      series name, had not been alerted before, and is announced once.
    */
    ghost predicate Rapport(alertes0: map<(string, string), string>, db: DatabaseManager)
      reads this, db
    {
      Valid() && (forall p | p in tousPapiers :: p.asin in asinDejaVus) && AsinsUniques(tousPapiers)
      && Annoncees(nom, nouveautes, db.alertes, alertes0)
    }

    /** Phases B and C, then the detection of the series' official publisher when some volume was retained. */
    method VerifierEtCompleter(cle: string, db: DatabaseManager)
      requires Valid()
      modifies this`captchaConsecutifs, this`urlsAlertees, this`nouveautes, this`tousPapiers, this`asinDejaVus
      modifies db`alertes, db`cache, db`volumes, db`editeurs
      ensures Rapport(old(db.alertes), db)
      ensures tousPapiers == [] ==> db.editeurs == old(db.editeurs)
    {
      Verifier(db);
      assert Annoncees(nom, nouveautes, db.alertes, old(db.alertes));
      Completer(cle, db);
    }

    /** Phase C, then the detection of the series' official publisher when some volume was retained. */
    method Completer(cle: string, db: DatabaseManager)
      requires EtatEtendu(tousPapiers, asinDejaVus)
      modifies this`asinDejaVus, this`tousPapiers, db`cache, db`volumes, db`editeurs
      ensures EtatEtendu(old(tousPapiers), old(asinDejaVus))
      ensures tousPapiers == [] ==> db.editeurs == old(db.editeurs)
    {
      var _, _ := RechercheEtendue(cle, db);
      if tousPapiers != [] {
        var _, _, _ := db.DetecterEtSauvegarderEditeurOfficiel(nomBdd);
      }
    }

    /**
      The run after the known volumes: phase A, then, when there is a
      candidate, phases B and C. Nothing is reported without a candidate.
    */
    method Executer(asinReference: Option<string>, urlsSupplementaires: seq<string>, cle: string, db: DatabaseManager)
      requires Valid() && !nouveauxTrouvesFeatured && nouveautes == [] && tousPapiers == []
      modifies this, db
      ensures Rapport(old(db.alertes), db)
      ensures candidats == map[] ==> nouveautes == [] && tousPapiers == []
      ensures tousPapiers == [] ==> db.editeurs == old(db.editeurs)
    {
      Amorcer(asinReference, urlsSupplementaires, db);
      var abandon := Decouvrir(cle, db);
      if abandon || candidats == map[] {
        return;
      }
      VerifierEtCompleter(cle, db);
    }
  }

  /** The key a series' rows are stored under: its identifier when it has one, else its name. */
  function NomBdd(nom: string, serieId: Option<string>): string {
    if Truthy(serieId) then serieId.value else nom
  }

  /**
    `rechercher_manga`: phase A gathers the candidates (known volumes,
    reference ASIN, extra URLs, a first bulk run, the search result
    pages, a later bulk run), phase B verifies them, phase C looks for
    the missing tomes, and the series' official publisher is detected
    again from what is stored. Returns the new releases and every volume
    retained; both are empty when no candidate was found. `ordreConnus`
    lists the series' known volumes, each once, in any order (the
    store's own order, by tome, is not imposed).
  */
  method RechercherManga(nom: string, urlSuffix: string, filtre: string, serieId: Option<string>,
                         asinReference: Option<string>, urlsSupplementaires: seq<string>,
                         horsSujet: set<string>, serieFr: Option<string>, web: Web,
                         iso: string -> Option<Date>, anglais: string -> Option<Date>, maintenant: Date,
                         db: DatabaseManager, ordreConnus: seq<string>)
    returns (nouveautes: seq<Papier>, tousPapiers: seq<Papier>, ghost serie: RechercheSerie)
    requires Distinct(ordreConnus) && forall a :: a in ordreConnus <==> a in db.GetVolumesConnus(NomBdd(nom, serieId))
    modifies db
    ensures serie.candidats == map[] ==> nouveautes == [] && tousPapiers == []
    ensures forall p | p in nouveautes :: p in tousPapiers
    ensures forall p | p in tousPapiers :: p.asin in serie.asinDejaVus
    ensures forall k, l | 0 <= k < l < |tousPapiers| :: tousPapiers[k].asin != tousPapiers[l].asin
    ensures forall p | p in nouveautes && !p.dateModifiee :: (nom, p.url) in db.alertes && (nom, p.url) !in old(db.alertes)
    ensures forall k, l | 0 <= k < l < |nouveautes| && !nouveautes[k].dateModifiee && !nouveautes[l].dateModifiee ::
              nouveautes[k].url != nouveautes[l].url
    ensures tousPapiers == [] ==> db.editeurs == old(db.editeurs)
  {
    var nomBdd := NomBdd(nom, serieId);
    var r := new RechercheSerie(nom, nomBdd, filtre, horsSujet, serieFr, web, iso, anglais, maintenant, db, ordreConnus);
    r.Executer(asinReference, urlsSupplementaires, TitreCle(urlSuffix), db);
    nouveautes, tousPapiers, serie := r.nouveautes, r.tousPapiers, r;
  }
}
