/**
  The decisions `rechercher_manga` takes on what it has fetched, as
  functions: the search query and title key, the schedule of result pages,
  the classification of a search-result item, the filters on format and
  publisher, the newness of a verified volume, the tomes still missing
  after verification, and the known volumes the extended related-volume
  search starts from.
*/
module Pipeline {
  import opened Wrappers
  import opened Text
  import opened Normaliser
  import opened Titre
  import opened Tome
  import opened Scraper

  // ---- configuration

  /** Words that mark a derived product rather than a volume. */
  const MotsClesDerives: seq<string> := [
    "コスプレ", "コスチューム", "衣装", "ウィッグ", "髪飾り", "フィギュア", "グッズ", "ポスター",
    "タペストリー", "靴", "バニー", "Official Book", "オフィシャルブック", "ガイドブック", "ファンブック"]

  /** Series names too generic to be searched without quotes. */
  const TitresGeneriques: seq<string> := ["ギフテッド"]

  datatype Date = Date(annee: int, mois: int, jour: int)

  /** Chronological order of calendar dates. */
  predicate Avant(a: Date, b: Date) {
    a.annee < b.annee || (a.annee == b.annee && (a.mois < b.mois || (a.mois == b.mois && a.jour < b.jour)))
  }

  /** A volume released after this date is a new release. */
  const DateSeuil: Date := Date(2025, 6, 1)

  // ---- query, title key and page schedule

  /** The search query: the series key as such when short and specific, quoted otherwise. */
  function RechercheExacte(urlSuffix: string): (q: string)
    ensures q == urlSuffix <==> |urlSuffix| <= 10 && urlSuffix !in TitresGeneriques
    ensures q != urlSuffix ==> q == "\"" + urlSuffix + "\"" && |q| == |urlSuffix| + 2
  {
    if |urlSuffix| <= 10 && urlSuffix !in TitresGeneriques then urlSuffix else "\"" + urlSuffix + "\""
  }

  /**
    The key a result title must contain: the normalised first eight
    characters of the series key. It is already in normal form, so it
    is compared with normalised titles as it is.
  */
  function TitreCle(urlSuffix: string): (k: string)
    ensures NormaliserTitre(k) == k
    ensures k == NormaliserTitre(if |urlSuffix| >= 8 then urlSuffix[..8] else urlSuffix)
  {
    var s := if |urlSuffix| >= 8 then urlSuffix[..8] else urlSuffix;
    NormaliserTitreIdempotent(s);
    NormaliserTitre(s)
  }

  function Max(a: int, b: int): int {
    if a >= b then a else b
  }

  /**
    The result pages scanned in one run: page 1 always; when the
    exploration is not complete, the (at most three) pages after the last
    one processed, never page 1 again.
  */
  function PagesAScanner(derniere: int, complete: bool): (pages: seq<int>)
    ensures 1 <= |pages| <= 4 && pages[0] == 1
    ensures complete ==> pages == [1]
    ensures forall i | 1 <= i < |pages| :: 2 <= pages[i] && derniere < pages[i] <= derniere + 3
    ensures forall i | 1 <= i < |pages| - 1 :: pages[i + 1] == pages[i] + 1
    ensures !complete ==> |pages| == 1 + Max(0, derniere + 4 - Max(2, derniere + 1))
  {
    if complete then [1]
    else
      var debut := Max(2, derniere + 1);
      var n := Max(0, derniere + 4 - debut);
      [1] + seq(n, i requires 0 <= i < n => debut + i)
  }

  // ---- classification of a search-result item

  /** A search-result item: its title ("" when it has none), link, ASIN ("" when none) and snippet. */
  datatype Item = Item(titre: string, url: string, asin: string, spans: seq<string>, rangees: seq<string>)

  datatype Classe = HorsSujetManuel | HorsSujetTitre | Derive | Sponsorise | Ebook | LotSet | NonPapier | PapierValide

  /** The classes that reject an item, in the order their tests run. */
  const Rejets: seq<Classe> := [HorsSujetManuel, HorsSujetTitre, Derive, Sponsorise, Ebook, LotSet, NonPapier]

  predicate EstDerive(titre: string) {
    exists i | 0 <= i < |MotsClesDerives| :: Contains(titre, MotsClesDerives[i])
  }

  predicate EstSponsorise(url: string) {
    Contains(url, "/sspa/click") || Contains(url, "sspa")
  }

  /** The `i`-th test of the cascade: does it reject the item? */
  predicate Rejette(i: nat, item: Item, cle: string, horsSujet: set<string>)
    requires i < 7
  {
    match i
    case 0 => EstAsinHorsSujetManuel(item.asin, horsSujet)
    case 1 => !Contains(NormaliserTitre(item.titre), cle)
    case 2 => EstDerive(item.titre)
    case 3 => EstSponsorise(item.url)
    case 4 => EstEbook(item.url, item.titre)
    case 5 => EstLot(item.titre)
    case _ => !EstAsinPapier(item.asin)
  }

  /**
    The class of a newly seen item: the first test that rejects it, or
    a paper volume when none does.
  */
  function Classer(item: Item, cle: string, horsSujet: set<string>): (c: Classe)
    ensures c == PapierValide <==> forall i | 0 <= i < 7 :: !Rejette(i, item, cle, horsSujet)
    ensures forall i | 0 <= i < 7 ::
              c == Rejets[i] <==> Rejette(i, item, cle, horsSujet) && forall j | 0 <= j < i :: !Rejette(j, item, cle, horsSujet)
  {
    if Rejette(0, item, cle, horsSujet) then HorsSujetManuel
    else if Rejette(1, item, cle, horsSujet) then HorsSujetTitre
    else if Rejette(2, item, cle, horsSujet) then Derive
    else if Rejette(3, item, cle, horsSujet) then Sponsorise
    else if Rejette(4, item, cle, horsSujet) then Ebook
    else if Rejette(5, item, cle, horsSujet) then LotSet
    else if Rejette(6, item, cle, horsSujet) then NonPapier
    else PapierValide
  }

  /** The status recorded in the classification history. */
  function Statut(c: Classe): string {
    match c
    case HorsSujetManuel => "hors_sujet_titre"
    case HorsSujetTitre => "hors_sujet_titre"
    case Derive => "derive"
    case Sponsorise => "sponsorise"
    case Ebook => "ebook"
    case LotSet => "lot"
    case NonPapier => "non_papier"
    case PapierValide => "papier"
  }

  /** Only a paper volume is recorded as "papier", and an ASIN it records is a paper ASIN. */
  lemma ClasserPapier(item: Item, cle: string, horsSujet: set<string>)
    ensures Statut(Classer(item, cle, horsSujet)) == "papier" <==> Classer(item, cle, horsSujet) == PapierValide
    ensures Classer(item, cle, horsSujet) == PapierValide ==>
              EstAsinPapier(item.asin) && item.asin !in horsSujet && !EstLot(item.titre)
              && !EstEbook(item.url, item.titre) && Contains(NormaliserTitre(item.titre), cle)
  {
    var c := Classer(item, cle, horsSujet);
    if c == PapierValide {
      assert !Rejette(0, item, cle, horsSujet) && !Rejette(1, item, cle, horsSujet);
      assert !Rejette(4, item, cle, horsSujet) && !Rejette(5, item, cle, horsSujet) && !Rejette(6, item, cle, horsSujet);
    }
  }

  /** The link of the paper edition an e-book page points to, in the format the series follows. */
  function FormatCible(filtre: string): string {
    if filtre == "ln_only" then "ln" else if filtre == "both" then "all" else "manga"
  }

  // ---- filters applied while verifying

  /** A product page format the series' filter rules out. */
  predicate FormatRejete(filtre: string, format: string) {
    filtre != "both" && format != []
    && if filtre == "ln_only" then
         !(Contains(format, "文庫") || Contains(format, "Bunko") || Contains(format, "ペーパーバック") || Contains(format, "Paperback"))
       else
         !(Contains(format, "コミック") || Contains(format, "Comic"))
  }

  /** The same rule on the format read from a search snippet, which knows fewer spellings. */
  predicate FormatFeaturedRejete(filtre: string, format: string) {
    filtre != "both" && format != []
    && if filtre == "ln_only" then !Contains(format, "文庫") else !Contains(format, "コミック")
  }

  /** A format the product page rules out is ruled out from the snippet too. */
  lemma FormatFeaturedPlusStrict(filtre: string, format: string)
    ensures FormatRejete(filtre, format) ==> FormatFeaturedRejete(filtre, format)
    ensures filtre == "both" || format == [] ==> !FormatRejete(filtre, format) && !FormatFeaturedRejete(filtre, format)
  {
  }

  /**
    A volume whose publisher is known, not "Inconnu", and does not match
    the series' publisher of record (when there is one).
  */
  predicate AutreEditeur(officiel: Option<string>, editeur: Option<string>) {
    officiel.Some? && officiel.value != [] && editeur.Some? && editeur.value != [] && editeur.value != "Inconnu"
    && !EditeurMatch(editeur.value, officiel.value)
  }

  /** The publisher filter never rejects the publisher of record itself, nor anything without one. */
  lemma AutreEditeurRespecteOfficiel(officiel: string, editeur: Option<string>)
    ensures !AutreEditeur(Some(officiel), Some(officiel))
    ensures !AutreEditeur(None, editeur)
    ensures editeur.Some? && AutreEditeur(Some(officiel), editeur) && officiel != "Inconnu" ==>
              AutreEditeur(Some(editeur.value), Some(officiel))
  {
    EditeurMatchReflexive(officiel);
    if editeur.Some? {
      EditeurMatchSymmetric(editeur.value, officiel);
    }
  }

  // ---- newness

  /** A pre-order alert whose recorded date is still in the future is checked again. */
  predicate Forcer(dateAlerte: Option<string>, iso: string -> Option<Date>, maintenant: Date) {
    dateAlerte.Some? && dateAlerte.value != [] && dateAlerte.value != "Date inconnue"
    && iso(dateAlerte.value).Some? && Avant(maintenant, iso(dateAlerte.value).value)
  }

  /** Newness of a volume known from the cache or from a search snippet: not yet alerted, released after the threshold. */
  predicate NouveauSansPage(dejaAlerte: bool, date: string, iso: string -> Option<Date>) {
    !dejaAlerte && date != "Date inconnue" && iso(date).Some? && Avant(DateSeuil, iso(date).value)
  }

  /** A detail-page date without its left-to-right marks and surrounding blanks. */
  function DateNettoyee(date: string): string {
    Strip(Remove(date, {'‎'}))
  }

  /** The detail-page date parsed as "Y/M/D", or else in the English form. */
  function LireDate(iso: string -> Option<Date>, anglais: string -> Option<Date>, d: string): Option<Date> {
    if iso(d).Some? then iso(d) else anglais(d)
  }

  /** What the verified date of a detail page means for the volume. */
  datatype Verdict = SansDate | DateInvalide | DateModifiee(ancienne: string) | DateInchangee | NonNouveau | Nouveau

  /**
    The verdict on a valid detail page as the code decides it: a
    forced re-check compares dates, and otherwise the date alone
    decides, whether or not the volume was alerted already.
  */
  function VerdictPageAsWritten(dejaAlerte: bool, force: bool, dateAlerte: Option<string>, date: string,
                                iso: string -> Option<Date>, anglais: string -> Option<Date>): (v: Verdict)
    ensures v == Nouveau ==> LireDate(iso, anglais, DateNettoyee(date)).Some?
                             && Avant(DateSeuil, LireDate(iso, anglais, DateNettoyee(date)).value)
  {
    if date == [] then SansDate
    else
      var d := DateNettoyee(date);
      match LireDate(iso, anglais, d)
      case None => DateInvalide
      case Some(p) =>
        if force && dateAlerte.Some? && dateAlerte.value != [] then
          (if d != dateAlerte.value then DateModifiee(dateAlerte.value) else DateInchangee)
        else if !Avant(DateSeuil, p) then NonNouveau
        else Nouveau
  }

  /**
    The verdict on a valid detail page: a forced re-check compares the
    new date with the alerted one; otherwise a volume is new only when
    it was not alerted already and its date is after the threshold.
  */
  function VerdictPage(dejaAlerte: bool, force: bool, dateAlerte: Option<string>, date: string,
                       iso: string -> Option<Date>, anglais: string -> Option<Date>): (v: Verdict)
    ensures v == Nouveau ==> !dejaAlerte && date != [] && LireDate(iso, anglais, DateNettoyee(date)).Some?
                             && Avant(DateSeuil, LireDate(iso, anglais, DateNettoyee(date)).value)
    ensures v.DateModifiee? ==> force && dateAlerte == Some(v.ancienne) && DateNettoyee(date) != v.ancienne
    ensures v == DateInchangee ==> force && dateAlerte == Some(DateNettoyee(date))
    ensures v == SansDate <==> date == []
  {
    if date == [] then SansDate
    else
      var d := DateNettoyee(date);
      match LireDate(iso, anglais, d)
      case None => DateInvalide
      case Some(p) =>
        if force && dateAlerte.Some? && dateAlerte.value != [] then
          (if d != dateAlerte.value then DateModifiee(dateAlerte.value) else DateInchangee)
        else if dejaAlerte || !Avant(DateSeuil, p) then NonNouveau
        else Nouveau
  }

  /** The two verdicts differ only on volumes already alerted. */
  lemma VerdictPageAccord(dejaAlerte: bool, force: bool, dateAlerte: Option<string>, date: string,
                          iso: string -> Option<Date>, anglais: string -> Option<Date>)
    ensures !dejaAlerte ==> VerdictPage(dejaAlerte, force, dateAlerte, date, iso, anglais)
                            == VerdictPageAsWritten(dejaAlerte, force, dateAlerte, date, iso, anglais)
    ensures VerdictPage(dejaAlerte, force, dateAlerte, date, iso, anglais)
            != VerdictPageAsWritten(dejaAlerte, force, dateAlerte, date, iso, anglais)
            ==> dejaAlerte && VerdictPage(dejaAlerte, force, dateAlerte, date, iso, anglais) == NonNouveau
                && VerdictPageAsWritten(dejaAlerte, force, dateAlerte, date, iso, anglais) == Nouveau
  {
  }

  /**
    A volume already alerted, checked without forcing (its alert date has
    passed, its cached tome is still "N/A"), is fetched again on every run;
    its date, past the threshold, makes it new again each time.
  */
  lemma VerdictPageRealerte(dateAlerte: Option<string>, date: string,
                            iso: string -> Option<Date>, anglais: string -> Option<Date>)
    requires date != [] && LireDate(iso, anglais, DateNettoyee(date)).Some?
    requires Avant(DateSeuil, LireDate(iso, anglais, DateNettoyee(date)).value)
    ensures VerdictPageAsWritten(true, false, dateAlerte, date, iso, anglais) == Nouveau
    ensures VerdictPage(true, false, dateAlerte, date, iso, anglais) == NonNouveau
  {
  }

  // ---- tomes

  /** The tome as the report shows it: its number, "FIN", or "N/A" when unknown. */
  function TexteTome(t: Option<TomeValue>): string {
    match t
    case None => "N/A"
    case Some(Fin) => "FIN"
    case Some(Number(n)) => NatToString(n)
  }

  /** The tome stored with a volume: a non-zero number only. */
  function TomeEntier(t: Option<TomeValue>): (r: Option<int>)
    ensures r.Some? ==> r.value > 0 && t == Some(Number(r.value))
    ensures t.Some? && t.value.Number? && t.value.n > 0 ==> r == Some(t.value.n)
  {
    match t
    case Some(Number(n)) => if n > 0 then Some(n) else None
    case _ => None
  }

  /** A volume retained by the verification, as the report lists it. */
  datatype Papier = Papier(asin: string, url: string, tome: string, date: string, editeur: Option<string>,
                           estNouveaute: bool, dejaAlerte: bool, dateModifiee: bool, ancienneDate: Option<string>)

  /** The positive tome numbers among the retained volumes. */
  function TomesTrouves(ps: seq<Papier>): (t: set<int>)
    ensures forall n | n in t :: n > 0
  {
    set p | p in ps && ParseInt(p.tome).Some? && ParseInt(p.tome).value > 0 :: ParseInt(p.tome).value
  }

  /** The tomes from 1 to the highest found that were not found. */
  function Manquants(ps: seq<Papier>): (m: set<int>)
    ensures m !! TomesTrouves(ps)
    ensures forall t | t in m :: t >= 1 && exists u | u in TomesTrouves(ps) :: t < u
    ensures forall t :: t in m <==> t !in TomesTrouves(ps) && exists u | u in TomesTrouves(ps) :: 1 <= t <= u
  {
    var trouves := TomesTrouves(ps);
    set u, t | u in trouves && 1 <= t <= u && t !in trouves :: t
  }

  /** The text of a numbered tome reads back as that number; "N/A" and "FIN" read as none. */
  lemma TexteTomeRelu(t: Option<TomeValue>)
    ensures t.Some? && t.value.Number? ==> ParseInt(TexteTome(t)) == Some(t.value.n)
    ensures !(t.Some? && t.value.Number?) ==> ParseInt(TexteTome(t)).None?
  {
    if t.Some? && t.value.Number? {
      ParseIntOfIntToString(t.value.n);
    } else if t.None? {
      assert Strip("N/A") == "N/A" by {
        assert TrimStart("N/A") == "N/A";
        assert TrimEnd("N/A") == "N/A";
      }
      assert !AllDigits("N/A") by { assert !IsDigit("N/A"[0]); }
    } else {
      assert Strip("FIN") == "FIN" by {
        assert TrimStart("FIN") == "FIN";
        assert TrimEnd("FIN") == "FIN";
      }
      assert !AllDigits("FIN") by { assert !IsDigit("FIN"[0]); }
    }
  }

  /** A retained volume with tome `n` > 0 makes `n` found, and so not missing. */
  lemma TomeTrouveNonManquant(ps: seq<Papier>, p: Papier, n: nat)
    requires p in ps && ParseInt(p.tome) == Some(n) && n > 0
    ensures n in TomesTrouves(ps) && n !in Manquants(ps)
  {
  }

  /** The tome a retained volume adds to those found: its number, when positive. */
  function TomeApporte(p: Papier): (t: set<int>)
    ensures forall n | n in t :: n > 0 && ParseInt(p.tome) == Some(n)
  {
    if ParseInt(p.tome).Some? && ParseInt(p.tome).value > 0 then {ParseInt(p.tome).value} else {}
  }

  /** Retaining one more volume adds its tome, and only it, to those found. */
  lemma TomesTrouvesAjout(ps: seq<Papier>, p: Papier)
    ensures TomesTrouves(ps + [p]) == TomesTrouves(ps) + TomeApporte(p)
  {
    forall n | n in TomesTrouves(ps)
      ensures n in TomesTrouves(ps + [p])
    {
      var q :| q in ps && ParseInt(q.tome).Some? && ParseInt(q.tome).value > 0 && ParseInt(q.tome).value == n;
      assert q in ps + [p];
    }
    if ParseInt(p.tome).Some? && ParseInt(p.tome).value > 0 {
      assert p in ps + [p];
    }
  }

  // ---- the extended related-volume search: which known volumes to start from

  datatype VolumeConnu = VolumeConnu(asin: string, tome: string)

  /** A known volume with an ASIN and a tome made of digits (`str.isdigit`). */
  predicate Eligible(v: VolumeConnu) {
    v.asin != [] && v.tome != [] && AllDigits(v.tome)
  }

  /** `int(tome)` of an eligible volume. */
  function TomeConnu(v: VolumeConnu): int {
    if Eligible(v) then DigitsValue(v.tome) else 0
  }

  /** The eligible known volumes, in their order. */
  function Eligibles(vs: seq<VolumeConnu>): (r: seq<VolumeConnu>)
    ensures forall v :: v in r <==> v in vs && Eligible(v)
  {
    if vs == [] then []
    else
      var reste := Eligibles(vs[1..]);
      assert forall v | v in vs :: v == vs[0] || v in vs[1..];
      if Eligible(vs[0]) then [vs[0]] + reste else reste
  }

  predicate TriePar<T>(t: seq<T>, cle: T -> int) {
    forall i, j | 0 <= i < j < |t| :: cle(t[i]) <= cle(t[j])
  }

  /** Insertion before the first element with a key at least as high, which keeps the sort stable. */
  function InsererPar<T>(x: T, t: seq<T>, cle: T -> int): (r: seq<T>)
    ensures multiset(r) == multiset(t) + multiset{x}
  {
    if t == [] || cle(x) <= cle(t[0]) then [x] + t
    else
      assert [t[0]] + t[1..] == t;
      [t[0]] + InsererPar(x, t[1..], cle)
  }

  lemma {:induction false} InsererParTrie<T>(x: T, t: seq<T>, cle: T -> int)
    requires TriePar(t, cle)
    ensures TriePar(InsererPar(x, t, cle), cle)
  {
    if !(t == [] || cle(x) <= cle(t[0])) {
      var q := InsererPar(x, t[1..], cle);
      InsererParTrie(x, t[1..], cle);
      InsererParMinore(x, t, cle);
      var r := [t[0]] + q;
      forall i, j | 0 <= i < j < |r|
        ensures cle(r[i]) <= cle(r[j])
      {
        if i > 0 {
          assert r[i] == q[i - 1] && r[j] == q[j - 1];
        } else {
          assert r[j] in q;
        }
      }
    }
  }

  /** Inserting behind the head of a sorted list yields elements none of which has a smaller key than the head's. */
  lemma InsererParMinore<T>(x: T, t: seq<T>, cle: T -> int)
    requires TriePar(t, cle) && t != [] && cle(t[0]) < cle(x)
    ensures forall y | y in InsererPar(x, t[1..], cle) :: cle(t[0]) <= cle(y)
  {
    var q := InsererPar(x, t[1..], cle);
    forall y | y in q
      ensures cle(t[0]) <= cle(y)
    {
      assert y in multiset(q);
      if y != x {
        assert y in multiset(t[1..]);
        var k :| 0 <= k < |t[1..]| && t[1..][k] == y;
        assert t[k + 1] == y;
      }
    }
  }

  /** Python's `sorted(s, key=cle)`: sorted by key, the same elements. */
  function TrierPar<T>(s: seq<T>, cle: T -> int): (t: seq<T>)
    ensures multiset(t) == multiset(s)
    ensures TriePar(t, cle)
  {
    if s == [] then []
    else
      assert [s[0]] + s[1..] == s;
      InsererParTrie(s[0], TrierPar(s[1..], cle), cle);
      InsererPar(s[0], TrierPar(s[1..], cle), cle)
  }

  /** The ASINs of the lowest, middle and highest tome of a sorted list (all of them when fewer than three). */
  function Choix(t: seq<VolumeConnu>): (c: seq<string>)
    ensures |c| <= 3
    ensures t != [] ==> c != [] && c[0] == t[0].asin
    ensures t != [] ==> t[|t| / 2].asin in c && t[|t| - 1].asin in c
    ensures forall a | a in c :: exists i | 0 <= i < |t| :: a == t[i].asin
  {
    if |t| >= 3 then [t[0].asin, t[|t| / 2].asin, t[|t| - 1].asin]
    else
      var c := seq(|t|, i requires 0 <= i < |t| => t[i].asin);
      assert t != [] ==> c[|t| / 2] == t[|t| / 2].asin && c[|t| - 1] == t[|t| - 1].asin;
      c
  }

  /**
    The known volumes the extended search explores: none when fewer than
    two are known; otherwise the lowest, middle and highest tome (all of
    them when fewer than three are eligible), each ASIN once.
  */
  function AsinsAExplorer(vs: seq<VolumeConnu>): (r: seq<string>)
    ensures |vs| < 2 ==> r == []
    ensures Distinct(r)
  {
    if |vs| < 2 then [] else Nouveaux(Choix(TrierPar(Eligibles(vs), TomeConnu)), {})
  }

  /** At most three volumes are explored, each an eligible known volume. */
  lemma {:induction false} AsinsAExplorerBornes(vs: seq<VolumeConnu>)
    ensures |AsinsAExplorer(vs)| <= 3
    ensures forall a | a in AsinsAExplorer(vs) :: exists v | v in vs :: Eligible(v) && v.asin == a
  {
    if |vs| >= 2 {
      var t := TrierPar(Eligibles(vs), TomeConnu);
      NouveauxCourt(Choix(t), {});
      NouveauxMembres(Choix(t), {});
      forall a | a in AsinsAExplorer(vs)
        ensures exists v | v in vs :: Eligible(v) && v.asin == a
      {
        var i :| 0 <= i < |t| && a == t[i].asin;
        assert t[i] in multiset(Eligibles(vs));
      }
    }
  }

  lemma TrieDernierMax<T>(t: seq<T>, cle: T -> int, w: T)
    requires TriePar(t, cle) && w in t
    ensures cle(w) <= cle(t[|t| - 1])
  {
    var k :| 0 <= k < |t| && t[k] == w;
    assert k == |t| - 1 || cle(t[k]) <= cle(t[|t| - 1]);
  }

  lemma TriePremierMin<T>(t: seq<T>, cle: T -> int, w: T)
    requires TriePar(t, cle) && w in t
    ensures cle(t[0]) <= cle(w)
  {
    var k :| 0 <= k < |t| && t[k] == w;
    assert k == 0 || cle(t[0]) <= cle(t[k]);
  }

  /** The first unseen element is the first one kept. */
  lemma NouveauxPremier(c: seq<string>, vus: set<string>)
    requires c != [] && c[0] !in vus
    ensures Nouveaux(c, vus) != [] && Nouveaux(c, vus)[0] == c[0]
  {
    NouveauxPrefix([c[0]], c[1..], vus);
    assert [c[0]] + c[1..] == c;
    assert Nouveaux([c[0]], vus) == [c[0]] by {
      assert [c[0]][..0] == [];
    }
  }

  /** With two known volumes or more, one of them eligible, some volume is explored. */
  lemma {:induction false} AsinsAExplorerNonVide(vs: seq<VolumeConnu>)
    ensures |vs| >= 2 && (exists v | v in vs :: Eligible(v)) ==> AsinsAExplorer(vs) != []
  {
    if |vs| >= 2 && exists v | v in vs :: Eligible(v) {
      var t := TrierPar(Eligibles(vs), TomeConnu);
      var v :| v in vs && Eligible(v);
      assert v in multiset(t);
      NouveauxPremier(Choix(t), {});
    }
  }

  /** The exploration starts from an eligible volume of lowest tome. */
  lemma {:induction false} AsinsAExplorerPlusBas(vs: seq<VolumeConnu>)
    ensures AsinsAExplorer(vs) != [] ==>
              exists v | v in vs :: Eligible(v) && v.asin == AsinsAExplorer(vs)[0]
                && forall w | w in vs && Eligible(w) :: TomeConnu(v) <= TomeConnu(w)
  {
    if AsinsAExplorer(vs) != [] {
      var e := Eligibles(vs);
      var t := TrierPar(e, TomeConnu);
      var c := Choix(t);
      assert t != [];
      NouveauxPremier(c, {});
      assert t[0] in multiset(e);
      forall w | w in vs && Eligible(w)
        ensures TomeConnu(t[0]) <= TomeConnu(w)
      {
        assert w in multiset(t);
        TriePremierMin(t, TomeConnu, w);
      }
    }
  }

  /** The last of the sorted volumes is kept among the explored ASINs. */
  lemma DernierChoisi(t: seq<VolumeConnu>)
    requires t != []
    ensures t[|t| - 1].asin in Nouveaux(Choix(t), {})
  {
    NouveauxMembres(Choix(t), {});
  }

  /** The last of the eligible volumes sorted by tome is an eligible volume of highest tome. */
  lemma DernierPlusHaut(vs: seq<VolumeConnu>, t: seq<VolumeConnu>)
    requires t != [] && TriePar(t, TomeConnu) && multiset(t) == multiset(Eligibles(vs))
    ensures t[|t| - 1] in vs && Eligible(t[|t| - 1])
    ensures forall w | w in vs && Eligible(w) :: TomeConnu(w) <= TomeConnu(t[|t| - 1])
  {
    assert t[|t| - 1] in multiset(Eligibles(vs));
    forall w | w in vs && Eligible(w)
      ensures TomeConnu(w) <= TomeConnu(t[|t| - 1])
    {
      assert w in multiset(t);
      TrieDernierMax(t, TomeConnu, w);
    }
  }

  /** With two known volumes or more, an eligible volume of highest tome is among those explored. */
  lemma {:induction false} AsinsAExplorerPlusHaut(vs: seq<VolumeConnu>)
    ensures |vs| >= 2 && (exists v | v in vs :: Eligible(v)) ==>
              exists v | v in vs :: Eligible(v) && v.asin in AsinsAExplorer(vs)
                && forall w | w in vs && Eligible(w) :: TomeConnu(w) <= TomeConnu(v)
  {
    if |vs| >= 2 && exists v | v in vs :: Eligible(v) {
      var t := TrierPar(Eligibles(vs), TomeConnu);
      var v :| v in vs && Eligible(v);
      assert v in multiset(t);
      DernierPlusHaut(vs, t);
      DernierChoisi(t);
      assert AsinsAExplorer(vs) == Nouveaux(Choix(t), {});
    }
  }
}
