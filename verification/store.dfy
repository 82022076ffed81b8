/**
  The tracker's SQLite store: one map per table, keyed by the table's primary
  key, and the read-modify-write operations of `DatabaseManager` on them.
  Timestamps written by the store (`date_maj`, `date_vu`, ...) are left out.
*/
module Store {
  import opened Wrappers
  import opened Text
  import opened Normaliser

  /** A row of `volumes`; `None` stands for SQL NULL. */
  datatype Volume = Volume(serieJp: string, serieFr: Option<string>, tome: Option<int>, url: string,
                           dateSortieJp: string, titreVolume: string, editeur: Option<string>)

  /** A row of `featured_history`. */
  datatype Featured = Featured(statut: string, source: Option<string>, titre: Option<string>, asinPapier: Option<string>)

  /** A row of `featured_progression`. */
  datatype Progression = Progression(dernierePage: int, complete: bool)

  /** A row of `verifications_cache`; the tome column is text, `"N/A"` meaning "not found yet". */
  datatype Verification = Verification(dateSortie: string, tome: string, titre: string, editeur: Option<string>)

  /** A row of `series_editeurs`. */
  datatype EditeurOfficiel = EditeurOfficiel(editeur: string, nbVolumes: nat)

  datatype StatutEtape = EnAttente | Fait

  /** A row of `suivi_editorial`, keyed by (asin, etape). */
  datatype Etape = Etape(serieJp: string, tome: Option<int>, statut: StatutEtape, dateDeclenchement: string,
                         dateCompletion: Option<string>, nbRelances: nat)

  /** Python truthiness of an optional string: present and non-empty. */
  predicate Truthy(o: Option<string>) { o.Some? && o.value != [] }

  // ---- alerts

  /**
    The `alertes` table after an insert-or-ignore of (nom, url) with
    `date`: the key is present afterwards, and a date once recorded never
    changes.
  */
  function AvecAlerte(alertes: map<(string, string), string>, nom: string, url: string, date: string): (r: map<(string, string), string>)
    ensures r.Keys == alertes.Keys + {(nom, url)}
    ensures forall k | k in alertes :: r[k] == alertes[k]
    ensures (nom, url) !in alertes ==> r[(nom, url)] == date
  {
    if (nom, url) in alertes then alertes else alertes[(nom, url) := date]
  }

  // ---- volumes

  /**
    The row `sauvegarder_volume` leaves for an ASIN: an existing row keeps its
    French title and publisher when the new ones are empty; every other column
    takes the new value.
  */
  function VolumeSauvegarde(existant: Option<Volume>, serieJp: string, serieFr: Option<string>, tome: Option<int>,
                            url: string, dateSortieJp: string, titreVolume: string, editeur: Option<string>): (v: Volume)
    ensures existant.Some? && Truthy(existant.value.serieFr) ==> Truthy(v.serieFr)
    ensures existant.Some? && Truthy(existant.value.editeur) ==> Truthy(v.editeur)
    ensures existant.None? || Truthy(serieFr) ==> v.serieFr == serieFr
    ensures existant.Some? && !Truthy(serieFr) ==> v.serieFr == existant.value.serieFr
    ensures existant.None? || Truthy(editeur) ==> v.editeur == editeur
    ensures existant.Some? && !Truthy(editeur) ==> v.editeur == existant.value.editeur
    ensures v.serieJp == serieJp && v.tome == tome && v.url == url && v.titreVolume == titreVolume
    ensures v.dateSortieJp == dateSortieJp
  {
    match existant
    case None => Volume(serieJp, serieFr, tome, url, dateSortieJp, titreVolume, editeur)
    case Some(e) =>
      Volume(serieJp, if Truthy(serieFr) then serieFr else e.serieFr, tome, url, dateSortieJp, titreVolume,
             if Truthy(editeur) then editeur else e.editeur)
  }

  /** The `volumes` table after saving a volume: the ASIN's row, inserted or updated in place, and no other row touched. */
  function AvecVolume(volumes: map<string, Volume>, asin: string, serieJp: string, serieFr: Option<string>, tome: Option<int>,
                      url: string, dateSortieJp: string, titreVolume: string, editeur: Option<string>): (r: map<string, Volume>)
    ensures r.Keys == volumes.Keys + {asin}
    ensures forall a | a in volumes && a != asin :: r[a] == volumes[a]
    ensures r[asin].tome == tome && r[asin].url == url && r[asin].dateSortieJp == dateSortieJp
  {
    volumes[asin := VolumeSauvegarde(if asin in volumes then Some(volumes[asin]) else None,
                                     serieJp, serieFr, tome, url, dateSortieJp, titreVolume, editeur)]
  }

  /** Saving the same volume twice leaves the row of saving it once. */
  lemma VolumeSauvegardeIdempotent(existant: Option<Volume>, serieJp: string, serieFr: Option<string>, tome: Option<int>,
                                   url: string, dateSortieJp: string, titreVolume: string, editeur: Option<string>)
    ensures var v := VolumeSauvegarde(existant, serieJp, serieFr, tome, url, dateSortieJp, titreVolume, editeur);
            VolumeSauvegarde(Some(v), serieJp, serieFr, tome, url, dateSortieJp, titreVolume, editeur) == v
  {
  }

  // ---- editorial workflow

  const EtapesWorkflow: seq<string> := ["mail_nwk", "draft_ad", "reponse_nwk", "contrat_ad", "signature_nwk", "facture"]

  /** `ETAPES_WORKFLOW.index(etape)`, or `None` where Python raises `ValueError`. */
  function IndexEtape(etape: string): (r: Option<nat>)
    ensures r.Some? ==> r.value < |EtapesWorkflow| && EtapesWorkflow[r.value] == etape
    ensures r.None? ==> etape !in EtapesWorkflow
  {
    if etape == "mail_nwk" then Some(0)
    else if etape == "draft_ad" then Some(1)
    else if etape == "reponse_nwk" then Some(2)
    else if etape == "contrat_ad" then Some(3)
    else if etape == "signature_nwk" then Some(4)
    else if etape == "facture" then Some(5)
    else None
  }

  /** The order `get_etape_courante_workflow` sorts pending steps by; unknown steps come last. */
  function Rang(etape: string): (r: nat)
    ensures IndexEtape(etape).Some? ==> r == IndexEtape(etape).value + 1
    ensures IndexEtape(etape).None? ==> r == 99
  {
    match IndexEtape(etape)
    case Some(i) => i + 1
    case None => 99
  }

  type Workflow = map<(string, string), Etape>

  /**
    The shape every workflow table keeps: the rows of one ASIN agree on series
    and tome, and an ASIN with any row has its first step `mail_nwk`.
  */
  ghost predicate WorkflowCoherent(w: Workflow) {
    (forall k1, k2 | k1 in w && k2 in w && k1.0 == k2.0 ::
       w[k1].serieJp == w[k2].serieJp && w[k1].tome == w[k2].tome)
    && (forall k | k in w :: (k.0, "mail_nwk") in w)
  }

  /**
    Series and tome of the ASIN's rows (`SELECT serie_jp, tome ... LIMIT 1`):
    in a coherent table all its rows agree, so the `mail_nwk` row answers.
  */
  function Base(w: Workflow, asin: string): (r: Option<(string, Option<int>)>)
    ensures r.Some? <==> (asin, "mail_nwk") in w
  {
    if (asin, "mail_nwk") in w then Some((w[(asin, "mail_nwk")].serieJp, w[(asin, "mail_nwk")].tome)) else None
  }

  lemma BaseOfAnyRow(w: Workflow, k: (string, string))
    requires WorkflowCoherent(w) && k in w
    ensures Base(w, k.0) == Some((w[k].serieJp, w[k].tome))
  {
  }

  /** `creer_workflow_volume`: insert-or-ignore of the first step. */
  function WorkflowCree(w: Workflow, asin: string, serieJp: string, tome: Option<int>, today: string): (r: Workflow)
    ensures (asin, "mail_nwk") in r
    ensures (asin, "mail_nwk") in w ==> r == w
    ensures (asin, "mail_nwk") !in w ==> r == w[(asin, "mail_nwk") := Etape(serieJp, tome, EnAttente, today, None, 0)]
  {
    if (asin, "mail_nwk") in w then w
    else w[(asin, "mail_nwk") := Etape(serieJp, tome, EnAttente, today, None, 0)]
  }

  lemma WorkflowCreeCoherent(w: Workflow, asin: string, serieJp: string, tome: Option<int>, today: string)
    requires WorkflowCoherent(w)
    ensures WorkflowCoherent(WorkflowCree(w, asin, serieJp, tome, today))
  {
  }

  /** The first half of `marquer_etape_faite`: the step itself marked done, or created done. */
  function MarqueFaite(w: Workflow, asin: string, etape: string, date: string): (r: Workflow)
    ensures forall k | k in w :: k in r
    ensures r.Keys <= w.Keys + {(asin, etape)}
    ensures forall k | k in w && k != (asin, etape) :: r[k] == w[k]
  {
    var k := (asin, etape);
    if k in w then w[k := w[k].(statut := Fait, dateCompletion := Some(date))]
    else
      match Base(w, asin)
      case None => w
      case Some(b) => w[k := Etape(b.0, b.1, Fait, date, Some(date), 0)]
  }

  /** The second half: the next step created pending, when there is one and it is absent. */
  function Suivante(w: Workflow, asin: string, etape: string, date: string): (r: Workflow)
    ensures forall k | k in w :: k in r && r[k] == w[k]
  {
    match IndexEtape(etape)
    case None => w
    case Some(i) =>
      if i + 1 < |EtapesWorkflow| && (asin, EtapesWorkflow[i + 1]) !in w then
        match Base(w, asin)
        case None => w
        case Some(b) => w[(asin, EtapesWorkflow[i + 1]) := Etape(b.0, b.1, EnAttente, date, None, 0)]
      else w
  }

  /** `marquer_etape_faite`: nothing when the step is already done on that date. */
  function EtapeFaite(w: Workflow, asin: string, etape: string, date: string): Workflow {
    var k := (asin, etape);
    if k in w && w[k].statut == Fait && w[k].dateCompletion == Some(date) then w
    else Suivante(MarqueFaite(w, asin, etape, date), asin, etape, date)
  }

  lemma MarqueFaiteCoherent(w: Workflow, asin: string, etape: string, date: string)
    requires WorkflowCoherent(w)
    ensures WorkflowCoherent(MarqueFaite(w, asin, etape, date))
    ensures Base(MarqueFaite(w, asin, etape, date), asin) == Base(w, asin)
  {
    var k := (asin, etape);
    if k in w {
      BaseOfAnyRow(w, k);
    }
  }

  lemma SuivanteCoherent(w: Workflow, asin: string, etape: string, date: string)
    requires WorkflowCoherent(w)
    ensures WorkflowCoherent(Suivante(w, asin, etape, date))
  {
  }

  /** Marking a step done keeps the workflow table coherent. */
  lemma EtapeFaiteCoherent(w: Workflow, asin: string, etape: string, date: string)
    requires WorkflowCoherent(w)
    ensures WorkflowCoherent(EtapeFaite(w, asin, etape, date))
  {
    MarqueFaiteCoherent(w, asin, etape, date);
    SuivanteCoherent(MarqueFaite(w, asin, etape, date), asin, etape, date);
  }

  /**
    An ASIN with a workflow that gets step `i` marked done has that step done
    on that date, and the following step present, unless the step is `facture`.
  */
  lemma EtapeFaiteAvance(w: Workflow, asin: string, i: nat, date: string)
    requires WorkflowCoherent(w) && i < |EtapesWorkflow| && (asin, "mail_nwk") in w
    ensures var r := EtapeFaite(w, asin, EtapesWorkflow[i], date);
            (asin, EtapesWorkflow[i]) in r && r[(asin, EtapesWorkflow[i])].statut == Fait
            && r[(asin, EtapesWorkflow[i])].dateCompletion == Some(date)
            && (i + 1 < |EtapesWorkflow| && (asin, EtapesWorkflow[i]) !in w ==> (asin, EtapesWorkflow[i + 1]) in r)
  {
    assert IndexEtape(EtapesWorkflow[i]) == Some(i);
  }

  /** `facture` is the last step: marking it done creates no further row. */
  lemma FactureSansSuite(w: Workflow, asin: string, date: string)
    ensures EtapeFaite(w, asin, "facture", date).Keys <= w.Keys + {(asin, "facture")}
  {
  }

  /** A row already in the table is never replaced by the creation of a next step. */
  lemma EtapeFaiteKeepsOthers(w: Workflow, asin: string, etape: string, date: string, k: (string, string))
    requires k in w && k != (asin, etape)
    ensures var r := EtapeFaite(w, asin, etape, date); k in r && r[k] == w[k]
  {
  }

  /** Marking the same step done twice with the same date is the same as once. */
  lemma EtapeFaiteIdempotent(w: Workflow, asin: string, etape: string, date: string)
    ensures var r := EtapeFaite(w, asin, etape, date); EtapeFaite(r, asin, etape, date) == r
  {
    var k := (asin, etape);
    var r := EtapeFaite(w, asin, etape, date);
    if !(k in w && w[k].statut == Fait && w[k].dateCompletion == Some(date)) {
      var m := MarqueFaite(w, asin, etape, date);
      if k in m {
        assert m[k].statut == Fait && m[k].dateCompletion == Some(date);
        assert r[k] == m[k];
      } else {
        assert Base(w, asin).None? && m == w;
        assert r == w;
      }
    }
  }

  // ---- selections the queries make with ORDER BY ... LIMIT 1

  /** SQL's `ORDER BY tome DESC` puts NULL last: `a` sorts no later than `b`. */
  predicate TomeAuMoins(a: Option<int>, b: Option<int>) {
    b.None? || (a.Some? && a.value >= b.value)
  }

  /** One of the candidates whose tome sorts first. */
  method PlusHautTome(cands: set<string>, tomes: map<string, Option<int>>) returns (r: Option<string>)
    requires cands <= tomes.Keys
    ensures r.None? <==> cands == {}
    ensures r.Some? ==> r.value in cands && forall a | a in cands :: TomeAuMoins(tomes[r.value], tomes[a])
  {
    var reste := cands;
    r := None;
    while reste != {}
      invariant reste <= cands
      invariant r.None? <==> reste == cands
      invariant r.Some? ==> r.value in cands && forall a | a in cands - reste :: TomeAuMoins(tomes[r.value], tomes[a])
      decreases |reste|
    {
      var a :| a in reste;
      if r.None? || !TomeAuMoins(tomes[r.value], tomes[a]) {
        r := Some(a);
      }
      reste := reste - {a};
    }
  }

  /** One of the steps with the smallest rank (unknown steps last). */
  method PremiereEtape(etapes: set<string>) returns (r: Option<string>)
    ensures r.None? <==> etapes == {}
    ensures r.Some? ==> r.value in etapes && forall e | e in etapes :: Rang(r.value) <= Rang(e)
  {
    var reste := etapes;
    r := None;
    while reste != {}
      invariant reste <= etapes
      invariant r.None? <==> reste == etapes
      invariant r.Some? ==> r.value in etapes && forall e | e in etapes - reste :: Rang(r.value) <= Rang(e)
      decreases |reste|
    {
      var e :| e in reste;
      if r.None? || Rang(e) < Rang(r.value) {
        r := Some(e);
      }
      reste := reste - {e};
    }
  }

  // ---- the store

  // ---- publisher majority, over the `volumes` and `statuts` tables

  /** A volume of the series with a non-empty publisher, validated when only those count. */
  predicate Compte(volumes: map<string, Volume>, statuts: map<string, string>, serieJp: string, validesSeulement: bool, a: string) {
    a in volumes && volumes[a].serieJp == serieJp && Truthy(volumes[a].editeur)
    && (validesSeulement ==> a in statuts && statuts[a] == "valide")
  }

  /** The publishers (as stored) of the volumes counted. */
  function Candidats(volumes: map<string, Volume>, statuts: map<string, string>, serieJp: string, validesSeulement: bool): set<string> {
    set a | a in volumes && Compte(volumes, statuts, serieJp, validesSeulement, a) :: volumes[a].editeur.value
  }

  /** How many counted volumes carry publisher `e` (`GROUP BY editeur`). */
  function NbVolumesEditeur(volumes: map<string, Volume>, statuts: map<string, string>, serieJp: string, validesSeulement: bool, e: string): nat {
    |set a | a in volumes && Compte(volumes, statuts, serieJp, validesSeulement, a) && volumes[a].editeur.value == e|
  }

  ghost predicate EstMajoritaire(volumes: map<string, Volume>, statuts: map<string, string>, serieJp: string, validesSeulement: bool, e: string) {
    var cands := Candidats(volumes, statuts, serieJp, validesSeulement);
    e in cands
    && forall e' | e' in cands ::
         NbVolumesEditeur(volumes, statuts, serieJp, validesSeulement, e') <= NbVolumesEditeur(volumes, statuts, serieJp, validesSeulement, e)
  }

  /** A most frequent publisher among the counted volumes, found by one pass over the candidates. */
  method PlusFrequent(volumes: map<string, Volume>, statuts: map<string, string>, serieJp: string, validesSeulement: bool) returns (best: string)
    requires Candidats(volumes, statuts, serieJp, validesSeulement) != {}
    ensures EstMajoritaire(volumes, statuts, serieJp, validesSeulement, best)
  {
    var cands := Candidats(volumes, statuts, serieJp, validesSeulement);
    best :| best in cands;
    var nbBest := NbVolumesEditeur(volumes, statuts, serieJp, validesSeulement, best);
    var reste := cands - {best};
    while reste != {}
      invariant reste <= cands && best in cands
      invariant nbBest == NbVolumesEditeur(volumes, statuts, serieJp, validesSeulement, best)
      invariant forall e | e in cands - reste :: NbVolumesEditeur(volumes, statuts, serieJp, validesSeulement, e) <= nbBest
      decreases |reste|
    {
      var e :| e in reste;
      var nb := NbVolumesEditeur(volumes, statuts, serieJp, validesSeulement, e);
      if nb > nbBest {
        best, nbBest := e, nb;
      }
      reste := reste - {e};
    }
  }

  /** What the majority query may answer: None when nothing is counted, otherwise a most frequent publisher, normalised. */
  ghost predicate Majoritaire(volumes: map<string, Volume>, statuts: map<string, string>, serieJp: string, validesSeulement: bool, r: Option<string>) {
    (r.None? <==> Candidats(volumes, statuts, serieJp, validesSeulement) == {})
    && (r.Some? ==> exists e :: EstMajoritaire(volumes, statuts, serieJp, validesSeulement, e) && r.value == NormaliserEditeur(e))
  }

  /** The ASINs a series has in `volumes` and in `featured_history` (empty ASINs skipped there). */
  function AsinsDe(volumes: map<string, Volume>, featured: map<(string, string), Featured>, nom: string): (asins: set<string>)
    ensures forall a :: a in asins <==>
      (a in volumes && volumes[a].serieJp == nom) || ((nom, a) in featured && a != [])
  {
    (set a | a in volumes && volumes[a].serieJp == nom) + (set k | k in featured && k.0 == nom && k.1 != [] :: k.1)
  }

  /** The rows of a table keyed by (series, …) that belong to another series than `nom`. */
  function SansSerie<V>(m: map<(string, string), V>, nom: string): map<(string, string), V> {
    map k | k in m && k.0 != nom :: m[k]
  }

  /** The volumes of other series than `nom`. */
  function SansVolumesDe(volumes: map<string, Volume>, nom: string): map<string, Volume> {
    map a | a in volumes && volumes[a].serieJp != nom :: volumes[a]
  }

  /** The ASINs of the volumes of series `nom`. */
  function VolumesDe(volumes: map<string, Volume>, nom: string): (asins: set<string>)
    ensures forall a :: a in asins <==> a in volumes && volumes[a].serieJp == nom
  {
    set a | a in volumes && volumes[a].serieJp == nom
  }

  lemma AsinsDeApresPurge(volumes: map<string, Volume>, featured: map<(string, string), Featured>, nom: string)
    ensures var v := SansVolumesDe(volumes, nom);
            var f := SansSerie(featured, nom);
            AsinsDe(v, f, nom) == {} && forall n | n != nom :: AsinsDe(v, f, n) == AsinsDe(volumes, featured, n)
    ensures forall n | n != nom :: VolumesDe(SansVolumesDe(volumes, nom), n) == VolumesDe(volumes, n)
  {
  }

  class DatabaseManager {
    /** `alertes`: (nom, url) -> date of the alert. */
    var alertes: map<(string, string), string>
    var volumes: map<string, Volume>
    /** `featured_history`, keyed by (serie, asin). */
    var featured: map<(string, string), Featured>
    var progression: map<string, Progression>
    var cache: map<string, Verification>
    /** `statuts_manuels`: asin -> 'valide', 'rejete', 'non_traite'. */
    var statuts: map<string, string>
    var editeurs: map<string, EditeurOfficiel>
    var workflow: Workflow
    /** `traductions`: titre_japonais -> titre_francais (only its purge is modelled). */
    var traductions: map<string, string>

    ghost predicate Valid()
      reads this
    {
      WorkflowCoherent(workflow)
    }

    constructor ()
      ensures Valid()
      ensures alertes == map[] && volumes == map[] && featured == map[] && progression == map[]
      ensures cache == map[] && statuts == map[] && editeurs == map[] && workflow == map[] && traductions == map[]
    {
      alertes := map[];
      volumes := map[];
      featured := map[];
      progression := map[];
      cache := map[];
      statuts := map[];
      editeurs := map[];
      workflow := map[];
      traductions := map[];
    }

    // -- alerts

    /** The URLs already alerted for a series. */
    function GetAlertesExistantes(nom: string): (urls: set<string>)
      reads this
      ensures forall u :: u in urls <==> (nom, u) in alertes
    {
      set k | k in alertes && k.0 == nom :: k.1
    }

    function GetAlerteDate(nom: string, url: string): (d: Option<string>)
      reads this
      ensures d.Some? <==> (nom, url) in alertes
      ensures d.Some? ==> d.value == alertes[(nom, url)]
    {
      if (nom, url) in alertes then Some(alertes[(nom, url)]) else None
    }

    /** Insert-or-ignore: an alert once recorded keeps its first date. */
    method MarquerCommeAlerte(nom: string, url: string, date: string)
      modifies this`alertes
      ensures alertes == AvecAlerte(old(alertes), nom, url, date)
    {
      if (nom, url) !in alertes {
        alertes := alertes[(nom, url) := date];
      }
    }

    /** `UPDATE ... WHERE`: changes the date of an existing alert, and nothing when there is none. */
    method UpdateAlerteDate(nom: string, url: string, date: string)
      modifies this`alertes
      ensures (nom, url) in old(alertes) ==> alertes == old(alertes)[(nom, url) := date]
      ensures (nom, url) !in old(alertes) ==> alertes == old(alertes)
    {
      if (nom, url) in alertes {
        alertes := alertes[(nom, url) := date];
      }
    }

    // -- featured history and progression

    /** Last write wins per (serie, asin); the same ASIN keeps separate rows under other series. */
    method SauvegarderFeatured(serie: string, asin: string, statut: string, source: Option<string>,
                               titre: Option<string>, asinPapier: Option<string>)
      modifies this`featured
      ensures featured == old(featured)[(serie, asin) := Featured(statut, source, titre, asinPapier)]
      ensures forall k | k in old(featured) && k.0 != serie :: k in featured && featured[k] == old(featured)[k]
    {
      featured := featured[(serie, asin) := Featured(statut, source, titre, asinPapier)];
    }

    function GetFeaturedHistoryAsins(serie: string): (asins: set<string>)
      reads this
      ensures forall a :: a in asins <==> (serie, a) in featured
    {
      set k | k in featured && k.0 == serie :: k.1
    }

    /** The last page explored and whether exploration is complete; (0, false) for a new series. */
    function GetFeaturedProgression(serie: string): (p: Progression)
      reads this
      ensures serie !in progression ==> p == Progression(0, false)
      ensures serie in progression ==> p == progression[serie]
    {
      if serie in progression then progression[serie] else Progression(0, false)
    }

    method SetFeaturedProgression(serie: string, page: int, complete: bool)
      modifies this`progression
      ensures progression == old(progression)[serie := Progression(page, complete)]
      ensures GetFeaturedProgression(serie) == Progression(page, complete)
    {
      progression := progression[serie := Progression(page, complete)];
    }

    // -- verification cache

    /** A cached verification, except that a tome still "N/A" asks for a new check. */
    function EstVerifieAujourdhui(asin: string): (r: Option<Verification>)
      reads this
      ensures r.Some? <==> asin in cache && cache[asin].tome != "N/A"
      ensures r.Some? ==> r.value == cache[asin]
    {
      if asin in cache && cache[asin].tome != "N/A" then Some(cache[asin]) else None
    }

    /** The cached verification whatever its tome. */
    function GetVerificationCache(asin: string): (r: Option<Verification>)
      reads this
      ensures r.Some? <==> asin in cache
      ensures r.Some? ==> r.value == cache[asin]
    {
      if asin in cache then Some(cache[asin]) else None
    }

    /** The two cache reads agree except on "N/A" rows, which only the fallback read returns. */
    lemma CacheReadsAgree(asin: string)
      ensures EstVerifieAujourdhui(asin).Some? ==> GetVerificationCache(asin) == EstVerifieAujourdhui(asin)
      ensures GetVerificationCache(asin).Some? && EstVerifieAujourdhui(asin).None? ==> cache[asin].tome == "N/A"
    {
    }

    method SauvegarderVerification(asin: string, dateSortie: string, tome: string, titre: string, editeur: Option<string>)
      modifies this`cache
      ensures cache == old(cache)[asin := Verification(dateSortie, tome, titre, editeur)]
    {
      cache := cache[asin := Verification(dateSortie, tome, titre, editeur)];
    }

    // -- volumes

    /** Upsert on the ASIN: one row per ASIN, updated in place when it exists. */
    method SauvegarderVolume(serieJp: string, serieFr: Option<string>, tome: Option<int>, asin: string, url: string,
                             dateSortieJp: string, titreVolume: string, editeur: Option<string>)
      modifies this`volumes
      ensures volumes == AvecVolume(old(volumes), asin, serieJp, serieFr, tome, url, dateSortieJp, titreVolume, editeur)
    {
      var existant := if asin in volumes then Some(volumes[asin]) else None;
      var v: Volume;
      if existant.Some? {
        var e := existant.value;
        var fr := if Truthy(serieFr) then serieFr else e.serieFr;
        var ed := if Truthy(editeur) then editeur else e.editeur;
        v := Volume(serieJp, fr, tome, url, dateSortieJp, titreVolume, ed);
      } else {
        v := Volume(serieJp, serieFr, tome, url, dateSortieJp, titreVolume, editeur);
      }
      volumes := volumes[asin := v];
    }

    /** `get_volumes_connus`: asin -> url for the volumes of a series. */
    function GetVolumesConnus(serieJp: string): (m: map<string, string>)
      reads this
      ensures forall a :: a in m <==> a in volumes && volumes[a].serieJp == serieJp
      ensures forall a | a in m :: m[a] == volumes[a].url
      ensures m == map[] <==> VolumesDe(volumes, serieJp) == {}
    {
      map a | a in volumes && volumes[a].serieJp == serieJp :: volumes[a].url
    }

    /** Corrects the tome of a volume and of its cached verification, where they exist. */
    method UpdateTomeVolume(asin: string, tome: int)
      modifies this`volumes, this`cache
      ensures asin in old(volumes) ==> volumes == old(volumes)[asin := old(volumes)[asin].(tome := Some(tome))]
      ensures asin !in old(volumes) ==> volumes == old(volumes)
      ensures asin in old(cache) ==> cache == old(cache)[asin := old(cache)[asin].(tome := IntToString(tome))]
      ensures asin !in old(cache) ==> cache == old(cache)
      ensures asin in cache ==> ParseInt(cache[asin].tome) == Some(tome) && EstVerifieAujourdhui(asin).Some?
    {
      if asin in volumes {
        volumes := volumes[asin := volumes[asin].(tome := Some(tome))];
      }
      if asin in cache {
        cache := cache[asin := cache[asin].(tome := IntToString(tome))];
        ParseIntOfIntToString(tome);
        assert IntToString(tome) != "N/A" by {
          if tome >= 0 {
            assert IsAsciiDigit(IntToString(tome)[0]);
          } else {
            assert IntToString(tome)[0] == '-';
          }
        }
      }
    }

    // -- manual statuses

    method SetStatutManuel(asin: string, statut: string)
      modifies this`statuts
      ensures statuts == old(statuts)[asin := statut]
    {
      statuts := statuts[asin := statut];
    }

    function GetAsinsRejetes(): (asins: set<string>)
      reads this
      ensures forall a :: a in asins <==> a in statuts && statuts[a] == "rejete"
    {
      set a | a in statuts && statuts[a] == "rejete"
    }

    function GetAsinsValides(): (asins: set<string>)
      reads this
      ensures forall a :: a in asins <==> a in statuts && statuts[a] == "valide"
    {
      set a | a in statuts && statuts[a] == "valide"
    }

    /** One status per ASIN: no ASIN is both validated and rejected. */
    lemma ValidesRejetesDisjoint()
      ensures GetAsinsValides() !! GetAsinsRejetes()
    {
    }

    predicate EstValide(asin: string)
      reads this`volumes, this`statuts
    {
      asin in statuts && statuts[asin] == "valide"
    }

    /** A validated volume of the series with the highest tome (`ORDER BY tome DESC LIMIT 1`), if any. */
    method GetAsinReference(serieJp: string) returns (r: Option<string>)
      ensures r.None? <==> forall a | a in volumes :: !(volumes[a].serieJp == serieJp && EstValide(a))
      ensures r.Some? ==> r.value in volumes && volumes[r.value].serieJp == serieJp && EstValide(r.value)
      ensures r.Some? ==> forall a | a in volumes && volumes[a].serieJp == serieJp && EstValide(a) ::
                            TomeAuMoins(volumes[r.value].tome, volumes[a].tome)
    {
      var valides := set a | a in volumes && volumes[a].serieJp == serieJp && EstValide(a);
      var tomes := map a | a in valides :: volumes[a].tome;
      r := PlusHautTome(valides, tomes);
      assert forall a | a in volumes && volumes[a].serieJp == serieJp && EstValide(a) :: a in valides;
    }

    // -- publisher of record

    function GetEditeurOfficiel(serieId: string): (r: Option<string>)
      reads this
      ensures r.Some? <==> serieId in editeurs
    {
      if serieId in editeurs then Some(editeurs[serieId].editeur) else None
    }

    /** Stores the publisher normalised. */
    method SetEditeurOfficiel(serieId: string, editeur: string, nbVolumes: nat)
      modifies this`editeurs
      ensures editeurs == old(editeurs)[serieId := EditeurOfficiel(NormaliserEditeur(editeur), nbVolumes)]
    {
      editeurs := editeurs[serieId := EditeurOfficiel(NormaliserEditeur(editeur), nbVolumes)];
    }

    /** The most frequent publisher, normalised (`ORDER BY nb DESC LIMIT 1`: any one of the most frequent). */
    method GetEditeurMajoritaire(serieJp: string, validesSeulement: bool) returns (r: Option<string>)
      ensures Majoritaire(volumes, statuts, serieJp, validesSeulement, r)
    {
      var cands := Candidats(volumes, statuts, serieJp, validesSeulement);
      if cands == {} {
        return None;
      }
      var best := PlusFrequent(volumes, statuts, serieJp, validesSeulement);
      r := Some(NormaliserEditeur(best));
    }

    /** `COUNT(*)` of the validated volumes of the series. */
    function NbValides(serieJp: string): nat
      reads this`volumes, this`statuts
    {
      |set a | a in volumes && volumes[a].serieJp == serieJp && EstValide(a)|
    }

    /** `COUNT(*)` of the volumes of the series whose publisher is not NULL. */
    function NbAvecEditeur(serieJp: string): nat
      reads this`volumes, this`statuts
    {
      |set a | a in volumes && volumes[a].serieJp == serieJp && volumes[a].editeur.Some?|
    }

    /**
      The publisher of record: the validated majority wins and replaces a
      different stored value; otherwise a stored value is kept; otherwise the
      majority of all volumes is stored. `valide` and `majoritaire` are the
      two majorities consulted (the second only when the first is empty).
    */
    method DetecterEtSauvegarderEditeurOfficiel(serieId: string) returns (r: Option<string>, ghost valide: Option<string>, ghost majoritaire: Option<string>)
      modifies this`editeurs
      ensures Majoritaire(volumes, statuts, serieId, true, valide)
      ensures r.Some? ==> r.value != []
      // the validated volumes decide
      ensures Truthy(valide) ==>
        r == valide && editeurs == (if old(GetEditeurOfficiel(serieId)) == r then old(editeurs)
                                    else old(editeurs)[serieId := EditeurOfficiel(NormaliserEditeur(r.value), NbValides(serieId))])
      // the stored value stands
      ensures !Truthy(valide) && Truthy(old(GetEditeurOfficiel(serieId))) ==>
        r == old(GetEditeurOfficiel(serieId)) && editeurs == old(editeurs)
      // the majority of all volumes is stored, if there is one
      ensures !Truthy(valide) && !Truthy(old(GetEditeurOfficiel(serieId))) ==>
        Majoritaire(volumes, statuts, serieId, false, majoritaire)
        && (Truthy(majoritaire) ==> r == majoritaire
                                    && editeurs == old(editeurs)[serieId := EditeurOfficiel(NormaliserEditeur(r.value), NbAvecEditeur(serieId))])
        && (!Truthy(majoritaire) ==> r == None && editeurs == old(editeurs))
    {
      var v := GetEditeurMajoritaire(serieId, true);
      valide, majoritaire := v, None;
      if v.Some? && v.value != [] {
        var existant := GetEditeurOfficiel(serieId);
        if existant != v {
          SetEditeurOfficiel(serieId, v.value, NbValides(serieId));
        }
        return v, valide, majoritaire;
      }
      var existant := GetEditeurOfficiel(serieId);
      if Truthy(existant) {
        return existant, valide, majoritaire;
      }
      var m := GetEditeurMajoritaire(serieId, false);
      majoritaire := m;
      if m.Some? && m.value != [] {
        SetEditeurOfficiel(serieId, m.value, NbAvecEditeur(serieId));
        return m, valide, majoritaire;
      }
      return None, valide, majoritaire;
    }

    // -- series purge

    /** The ASINs a series has in `volumes` and in `featured_history` (empty ASINs skipped there). */
    function GetAsinsSerie(nom: string): (asins: set<string>)
      reads this
      ensures forall a :: a in asins <==>
        (a in volumes && volumes[a].serieJp == nom) || ((nom, a) in featured && a != [])
    {
      AsinsDe(volumes, featured, nom)
    }

    /** Deletes every row of the series from the six per-series tables. */
    method PurgerSerie(nom: string)
      modifies this`featured, this`progression, this`volumes, this`editeurs, this`alertes, this`traductions
      ensures featured == SansSerie(old(featured), nom) && alertes == SansSerie(old(alertes), nom)
      ensures volumes == SansVolumesDe(old(volumes), nom)
      ensures progression == old(progression) - {nom} && editeurs == old(editeurs) - {nom}
      ensures traductions == old(traductions) - {nom}
      ensures GetAsinsSerie(nom) == {} && GetAlertesExistantes(nom) == {}
      ensures forall n | n != nom :: GetAsinsSerie(n) == old(GetAsinsSerie(n))
      ensures GetFeaturedProgression(nom) == Progression(0, false)
    {
      AsinsDeApresPurge(volumes, featured, nom);
      featured := SansSerie(featured, nom);
      volumes := SansVolumesDe(volumes, nom);
      progression := progression - {nom};
      editeurs := editeurs - {nom};
      alertes := SansSerie(alertes, nom);
      traductions := traductions - {nom};
    }

    // -- editorial workflow

    method CreerWorkflowVolume(asin: string, serieJp: string, tome: Option<int>, today: string)
      requires Valid()
      modifies this`workflow
      ensures Valid()
      ensures workflow == WorkflowCree(old(workflow), asin, serieJp, tome, today)
    {
      WorkflowCreeCoherent(workflow, asin, serieJp, tome, today);
      if (asin, "mail_nwk") !in workflow {
        workflow := workflow[(asin, "mail_nwk") := Etape(serieJp, tome, EnAttente, today, None, 0)];
      }
    }

    /** Marks a step done and creates the next one pending when absent; idempotent for the same date. */
    method MarquerEtapeFaite(asin: string, etape: string, date: string)
      requires Valid()
      modifies this`workflow
      ensures Valid()
      ensures workflow == EtapeFaite(old(workflow), asin, etape, date)
    {
      EtapeFaiteCoherent(workflow, asin, etape, date);
      var k := (asin, etape);
      if k in workflow && workflow[k].statut == Fait && workflow[k].dateCompletion == Some(date) {
        return;
      }
      workflow := MarqueFaite(workflow, asin, etape, date);
      workflow := Suivante(workflow, asin, etape, date);
    }

    /** The pending step of an ASIN that comes first in workflow order (`get_etape_courante`). */
    method GetEtapeCouranteWorkflow(asin: string) returns (r: Option<string>)
      ensures r.None? <==> forall k | k in workflow && k.0 == asin :: workflow[k].statut != EnAttente
      ensures r.Some? ==> (asin, r.value) in workflow && workflow[(asin, r.value)].statut == EnAttente
      ensures r.Some? ==> forall k | k in workflow && k.0 == asin && workflow[k].statut == EnAttente ::
                            Rang(r.value) <= Rang(k.1)
    {
      var enAttente := set k | k in workflow && k.0 == asin && workflow[k].statut == EnAttente :: k.1;
      r := PremiereEtape(enAttente);
      assert forall k | k in workflow && k.0 == asin && workflow[k].statut == EnAttente :: k.1 in enAttente;
      if r.Some? {
        var k :| k in workflow && k.0 == asin && workflow[k].statut == EnAttente && k.1 == r.value;
        assert k == (asin, r.value);
      }
    }
  }
}
