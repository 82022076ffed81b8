/**
  The text-level parts of the Amazon Japan scraper: the status/retry loop of
  the page fetch, the selection and flattening of related volumes, the
  product-page verdicts (invalid page, lot, tome) and the zero-padding of
  search-result dates. The network and the HTML tree are inputs: a response
  per attempt, and the link lists and texts the selectors yield.
*/
module Scraper {
  import opened Wrappers
  import opened Text
  import opened Normaliser
  import opened Tome
  import opened Suites

  // ---- fetching a page

  /** What one attempt gets back: a status and a body, or an exception (timeout, connection error). */
  datatype Reponse = Http(status: int, corps: string) | Echec

  /** The bot-check markers looked for, lower-cased, in a short 200 response. */
  predicate SigneRobot(html: string) {
    var l := Lower(html);
    Contains(l, "captcha") || Contains(l, "robot") || Contains(l, "automated access")
  }

  /** What the loop does after one attempt: try again, or stop with a result. */
  datatype Issue = Reessayer | Rendre(html: Option<string>)

  /**
    One attempt: a 200 whose body is over 500 characters is returned unless it
    is shorter than 5000 characters and shows a bot check; a 404 stops with no
    page; every other outcome is retried.
  */
  function IssueTentative(rep: Reponse): Issue {
    match rep
    case Echec => Reessayer
    case Http(status, html) =>
      if status == 200 then
        if html != [] && |html| < 5000 && SigneRobot(html) then Reessayer
        else if html != [] && |html| > 500 then Rendre(Some(html))
        else Reessayer
      else if status == 404 then Rendre(None)
      else Reessayer
  }

  /** The page the fetch ends with, from attempt `tentative` on; `reseau(t)` is the response to attempt `t`. */
  function Resultat(reseau: nat -> Reponse, tentative: nat, maxRetries: nat): Option<string>
    decreases maxRetries + 1 - tentative
  {
    if tentative > maxRetries then None
    else match IssueTentative(reseau(tentative))
      case Rendre(h) => h
      case Reessayer => Resultat(reseau, tentative + 1, maxRetries)
  }

  /**
    The attempt loop of the page fetch: at most `maxRetries` + 1 attempts,
    every attempt before the last one retried, and an early stop without a
    page only on a 404.
  */
  method GetHtml(reseau: nat -> Reponse, maxRetries: nat) returns (html: Option<string>, tentatives: nat)
    ensures html == Resultat(reseau, 0, maxRetries)
    ensures 1 <= tentatives <= maxRetries + 1
    ensures forall t | 0 <= t < tentatives - 1 :: IssueTentative(reseau(t)) == Reessayer
    ensures html.Some? ==> IssueTentative(reseau(tentatives - 1)) == Rendre(html)
    ensures html.None? && tentatives <= maxRetries ==> reseau(tentatives - 1).Http? && reseau(tentatives - 1).status == 404
  {
    var attempt := 0;
    while attempt <= maxRetries
      invariant attempt <= maxRetries + 1
      invariant Resultat(reseau, attempt, maxRetries) == Resultat(reseau, 0, maxRetries)
      invariant forall t | 0 <= t < attempt :: IssueTentative(reseau(t)) == Reessayer
      decreases maxRetries + 1 - attempt
    {
      var issue := IssueTentative(reseau(attempt));
      if issue.Rendre? {
        return issue.html, attempt + 1;
      }
      attempt := attempt + 1;
    }
    return None, maxRetries + 1;
  }

  /** A fetched page is the body of a 200 response, over 500 characters, with no bot check if it is short. */
  lemma {:induction false} ResultatPage(reseau: nat -> Reponse, tentative: nat, maxRetries: nat)
    ensures Resultat(reseau, tentative, maxRetries).Some? ==>
      var h := Resultat(reseau, tentative, maxRetries).value;
      (exists t | tentative <= t <= maxRetries :: reseau(t) == Http(200, h))
      && |h| > 500 && (|h| >= 5000 || !SigneRobot(h))
    decreases maxRetries + 1 - tentative
  {
    if tentative <= maxRetries {
      ResultatPage(reseau, tentative + 1, maxRetries);
      if IssueTentative(reseau(tentative)).Rendre? {
        assert tentative <= tentative <= maxRetries;
      }
    }
  }

  /** A 404 on the first attempt ends the fetch without a page, whatever later attempts would get. */
  lemma Resultat404(reseau: nat -> Reponse, maxRetries: nat, corps: string)
    requires reseau(0) == Http(404, corps)
    ensures Resultat(reseau, 0, maxRetries) == None
  {
  }

  // ---- product page verdicts

  /** Why a product page without a title is unusable. */
  datatype Motif = Captcha | RateLimit | PageCourte | TitreNonTrouve

  /** The verdict on a page whose product title is empty, in the order the checks are made. */
  function MotifPageInvalide(html: string): (m: Motif)
    ensures m == PageCourte ==> |html| < 5000
    ensures m == TitreNonTrouve ==> |html| >= 5000
  {
    if Contains(Lower(html), "captcha") || Contains(Lower(html), "robot") then Captcha
    else if Contains(html, "To discuss automated access") then RateLimit
    else if |html| < 5000 then PageCourte
    else TitreNonTrouve
  }

  /**
    A page the fetch returned that is shorter than 5000 characters carries no
    bot-check marker, so if it has no product title it is always judged too
    short, never a captcha or a rate limit.
  */
  lemma PageRendueCourte(h: string)
    requires IssueTentative(Http(200, h)) == Rendre(Some(h)) && |h| < 5000
    ensures MotifPageInvalide(h) == PageCourte
  {
    var marqueur := "To discuss automated access";
    ContainsLower(h, marqueur);
    assert OccursAt(Lower(marqueur), "automated access", 11);
    ContainsTrans(Lower(h), Lower(marqueur), "automated access");
  }

  /** A title announces a set of volumes. */
  predicate EstLot(titre: string) {
    Contains(titre, "巻セット") || (Contains(titre, "セット") && (Contains(titre, "1-") || Contains(titre, "全巻")))
  }

  /** `(\d+)-(\d+)巻` matches at `k`: both runs are whole, since a shorter one is followed by a digit. */
  predicate PlageAt(s: string, k: nat) {
    k < |s| && IsDigit(s[k])
    && var j := RunEnd(s, k);
       j + 1 < |s| && s[j] == '-' && IsDigit(s[j + 1])
       && var e := RunEnd(s, j + 1);
          e < |s| && s[e] == '巻'
  }

  /** `全(\d+)巻` matches at `k`. */
  predicate TotalAt(s: string, k: nat) {
    k + 1 < |s| && s[k] == '全' && IsDigit(s[k + 1])
    && var e := RunEnd(s, k + 1);
       e < |s| && s[e] == '巻'
  }

  /** What the title says about a set: not one, a range N-M, a total 全N, or neither. */
  datatype InfosLot = NonLot | LotPlage(debut: nat, fin: nat) | LotTotal(total: nat) | LotSansPlage

  function Lot(titre: string): (r: InfosLot)
    ensures r.NonLot? <==> !EstLot(titre)
  {
    if !EstLot(titre) then NonLot
    else match FindFirst(titre, 0, PlageAt)
      case Some(k) =>
        var j := RunEnd(titre, k);
        LotPlage(DigitsValue(titre[k..j]), DigitsValue(titre[j + 1..RunEnd(titre, j + 1)]))
      case None =>
        match FindFirst(titre, 0, TotalAt)
        case Some(k) => LotTotal(DigitsValue(titre[k + 1..RunEnd(titre, k + 1)]))
        case None => LotSansPlage
  }

  /** The fields read from a product page (those of its HTML tree given as `titre`). */
  datatype InfosProduit = InfosProduit(pageInvalide: Option<Motif>, titre: string, lot: InfosLot, tome: Option<TomeValue>)

  /**
    The verdicts on a product page: an empty page gives nothing; an empty
    title marks the page invalid; a set is recognised with its range; a tome is
    read only from a title that is not a set.
  */
  function ExtraireInfosProduit(html: string, titre: string): (r: Option<InfosProduit>)
    ensures r.None? <==> html == []
    ensures r.Some? ==> (r.value.pageInvalide.None? <==> titre != [])
    ensures r.Some? ==> (r.value.lot.NonLot? <==> !EstLot(titre))
    ensures r.Some? && r.value.tome.Some? ==> !EstLot(titre) && titre != []
    ensures r.Some? ==> r.value.titre == titre && r.value.lot == Lot(titre)
    ensures r.Some? ==> r.value.tome == (if r.value.lot.NonLot? then ExtraireNumeroTome(titre) else None)
    ensures r.Some? && titre == [] ==> r.value.pageInvalide == Some(MotifPageInvalide(html))
  {
    if html == [] then None
    else
      var invalide := if titre == [] then Some(MotifPageInvalide(html)) else None;
      var lot := Lot(titre);
      Some(InfosProduit(invalide, titre, lot, if lot.NonLot? then ExtraireNumeroTome(titre) else None))
  }

  lemma NatToStringDigits(n: nat)
    ensures AllDigits(NatToString(n)) && DigitsValue(NatToString(n)) == n
    ensures forall i | 0 <= i < |NatToString(n)| :: NatToString(n)[i] != '-' && NatToString(n)[i] != '巻'
  {
    DigitsValueOfNatToString(n);
  }

  /**
    A set titled `<prefix>N-M巻セット`, with no digit in the prefix, is read as
    the range N to M.
  */
  lemma LotPlageLue(prefix: string, n: nat, m: nat)
    requires forall i | 0 <= i < |prefix| :: !IsDigit(prefix[i])
    ensures Lot(prefix + NatToString(n) + "-" + NatToString(m) + "巻セット") == LotPlage(n, m)
  {
    NatToStringDigits(n);
    NatToStringDigits(m);
    LotDeChiffres(prefix, NatToString(n), NatToString(m));
  }

  /** A title `prefix N-M巻セット` with digit strings `N` and `M` reads as that range. */
  lemma LotDeChiffres(prefix: string, a: string, b: string)
    requires forall i | 0 <= i < |prefix| :: !IsDigit(prefix[i])
    requires a != [] && b != [] && AllDigits(a) && AllDigits(b)
    ensures Lot(prefix + a + "-" + b + "巻セット") == LotPlage(DigitsValue(a), DigitsValue(b))
  {
    var t := prefix + a + "-" + b + "巻セット";
    var k, j := |prefix|, |prefix| + |a|;
    PlageLue(prefix, a, b);
    FindFirstAt(t, 0, PlageAt, k);
    LotEnPlage(t, k);
    var x, y := t[k..RunEnd(t, k)], t[j + 1..RunEnd(t, j + 1)];
    assert x == a && y == b;
    assert Lot(t) == LotPlage(DigitsValue(x), DigitsValue(y));
  }

  /** A set title whose first `N-M巻` stands at `k` reads as that range. */
  lemma LotEnPlage(t: string, k: nat)
    requires EstLot(t) && FindFirst(t, 0, PlageAt) == Some(k)
    ensures var j := RunEnd(t, k);
            Lot(t) == LotPlage(DigitsValue(t[k..j]), DigitsValue(t[j + 1..RunEnd(t, j + 1)]))
  {
  }

  /** Where the digits and the dash of `<prefix>a-b巻セット` stand. */
  lemma PlageLue(prefix: string, a: string, b: string)
    requires forall i | 0 <= i < |prefix| :: !IsDigit(prefix[i])
    requires a != [] && b != [] && AllDigits(a) && AllDigits(b)
    ensures var t := prefix + a + "-" + b + "巻セット";
            var k, j := |prefix|, |prefix| + |a|;
            EstLot(t) && PlageAt(t, k) && (forall i | 0 <= i < k :: !PlageAt(t, i))
            && RunEnd(t, k) == j && RunEnd(t, j + 1) == j + 1 + |b|
            && t[k..j] == a && t[j + 1..j + 1 + |b|] == b
  {
    var t := prefix + a + "-" + b + "巻セット";
    var k, j := |prefix|, |prefix| + |a|;
    var e := j + 1 + |b|;
    assert t[k..j] == a;
    assert t[j + 1..e] == b;
    assert t[e..] == "巻セット";
    assert OccursAt(t, "巻セット", e);
    forall i | k <= i < j ensures IsDigit(t[i]) {
      assert t[i] == t[k..j][i - k];
    }
    forall i | j + 1 <= i < e ensures IsDigit(t[i]) {
      assert t[i] == t[j + 1..e][i - j - 1];
    }
    assert t[j] == '-' && t[e] == '巻';
    RunEndAt(t, k, |a|);
    RunEndAt(t, j + 1, |b|);
    forall i | 0 <= i < k ensures !PlageAt(t, i) {
      assert t[i] == prefix[i];
    }
  }


  // ---- related volumes

  predicate Distinct(s: seq<string>) {
    forall i, j | 0 <= i < j < |s| :: s[i] != s[j]
  }

  /** The elements of `s` not in `vus`, each at its first occurrence, in order. */
  function Nouveaux(s: seq<string>, vus: set<string>): (r: seq<string>)
    ensures Distinct(r)
  {
    if s == [] then []
    else
      var p := Nouveaux(s[..|s| - 1], vus);
      var x := s[|s| - 1];
      if x in vus || x in p then p else p + [x]
  }

  /** What `Nouveaux` keeps: exactly the elements of `s` outside `vus`. */
  lemma {:induction false} NouveauxMembres(s: seq<string>, vus: set<string>)
    ensures forall x :: x in Nouveaux(s, vus) <==> x in s && x !in vus
    decreases |s|
  {
    if s != [] {
      NouveauxMembres(s[..|s| - 1], vus);
      assert forall x | x in s :: x in s[..|s| - 1] || x == s[|s| - 1];
    }
  }

  /** Appending links never reorders what was already kept. */
  lemma {:induction false} NouveauxPrefix(a: seq<string>, b: seq<string>, vus: set<string>)
    ensures Nouveaux(a, vus) <= Nouveaux(a + b, vus)
    decreases |b|
  {
    if b == [] {
      assert a + b == a;
    } else {
      var b' := b[..|b| - 1];
      assert (a + b)[..|a + b| - 1] == a + b';
      NouveauxPrefix(a, b', vus);
      var p, q, r := Nouveaux(a, vus), Nouveaux(a + b', vus), Nouveaux(a + b, vus);
      assert q <= r;
      assert r[..|p|] == q[..|p|] == p;
    }
  }

  /** Keeping first occurrences never lengthens a list. */
  lemma {:induction false} NouveauxCourt(s: seq<string>, vus: set<string>)
    ensures |Nouveaux(s, vus)| <= |s|
    decreases |s|
  {
    if s != [] {
      NouveauxCourt(s[..|s| - 1], vus);
    }
  }

  /** Links already distinct and unseen are kept as they are. */
  lemma {:induction false} NouveauxOfDistinct(s: seq<string>, vus: set<string>)
    requires Distinct(s) && forall x | x in s :: x !in vus
    ensures Nouveaux(s, vus) == s
    decreases |s|
  {
    if s != [] {
      NouveauxOfDistinct(s[..|s| - 1], vus);
      assert s[|s| - 1] !in s[..|s| - 1];
      assert s[..|s| - 1] + [s[|s| - 1]] == s;
    }
  }

  /** The product URL of each ASIN. */
  function UrlsProduit(asins: seq<string>): (urls: seq<string>)
    ensures |urls| == |asins| && forall i | 0 <= i < |asins| :: urls[i] == AmazonDp + asins[i]
  {
    seq(|asins|, i requires 0 <= i < |asins| => AmazonDp + asins[i])
  }

  /**
    The related volumes as one list of product URLs: bulk, then publisher,
    then frequently-bought, each URL once.
  */
  method VolumesFlat(bulk: seq<string>, publisher: seq<string>, frequemment: seq<string>) returns (urls: seq<string>)
    ensures urls == Nouveaux(UrlsProduit(bulk + publisher + frequemment), {})
  {
    var asins := bulk + publisher + frequemment;
    ghost var tous := UrlsProduit(asins);
    urls := [];
    var i := 0;
    while i < |asins|
      invariant i <= |asins|
      invariant urls == Nouveaux(tous[..i], {})
    {
      var url := AmazonDp + asins[i];
      assert tous[i] == url;
      NouveauxPas(tous, i, urls);
      if url !in urls {
        urls := urls + [url];
      }
      i := i + 1;
    }
    Prefixes(tous);
  }

  lemma NouveauxPas(s: seq<string>, i: nat, p: seq<string>)
    requires i < |s| && p == Nouveaux(s[..i], {})
    ensures Nouveaux(s[..i + 1], {}) == if s[i] in p then p else p + [s[i]]
  {
    assert s[..i + 1][..i] == s[..i];
  }

  /** Every URL of the flat list is the product URL of one of the ASINs, and every ASIN has its URL there. */
  lemma VolumesFlatContents(asins: seq<string>, url: string)
    ensures url in Nouveaux(UrlsProduit(asins), {}) <==> exists i | 0 <= i < |asins| :: url == AmazonDp + asins[i]
  {
    NouveauxMembres(UrlsProduit(asins), {});
    if url in UrlsProduit(asins) {
      var i :| 0 <= i < |asins| && UrlsProduit(asins)[i] == url;
    }
  }

  /** The bulk volumes come first in the flat list, in their own order. */
  lemma VolumesFlatBulkFirst(bulk: seq<string>, publisher: seq<string>, frequemment: seq<string>)
    ensures Nouveaux(UrlsProduit(bulk), {}) <= Nouveaux(UrlsProduit(bulk + publisher + frequemment), {})
  {
    var tout := bulk + publisher + frequemment;
    assert UrlsProduit(tout) == UrlsProduit(bulk) + UrlsProduit(publisher + frequemment);
    NouveauxPrefix(UrlsProduit(bulk), UrlsProduit(publisher + frequemment), {});
  }

  /** Distinct ASINs give distinct URLs, so flattening sections of distinct ASINs drops nothing. */
  lemma VolumesFlatSansPerte(asins: seq<string>)
    requires Distinct(asins)
    ensures Nouveaux(UrlsProduit(asins), {}) == UrlsProduit(asins)
  {
    var urls := UrlsProduit(asins);
    forall i, j | 0 <= i < j < |urls| ensures urls[i] != urls[j] {
      assert asins[i] != asins[j];
      assert urls[i][28..] == asins[i];
      assert urls[j][28..] == asins[j];
    }
    NouveauxOfDistinct(urls, {});
  }

  /** Concatenating two distinct lists with no common element keeps them distinct. */
  lemma DistinctConcat(a: seq<string>, b: seq<string>)
    requires Distinct(a) && Distinct(b) && forall x | x in a :: x !in b
    ensures Distinct(a + b)
  {
    forall i, j | 0 <= i < j < |a + b| ensures (a + b)[i] != (a + b)[j] {
      if j >= |a| && i < |a| {
        assert (a + b)[i] in a && (a + b)[j] in b;
      }
    }
  }

  /**
    The `/dp/` links each selector of a section yields on the product page, in
    document order; a section tries its selectors in turn while it is still
    empty.
  */
  datatype PageLiens = PageLiens(bulk: seq<seq<string>>, publisher: seq<seq<string>>, frequemment: seq<seq<string>>)

  datatype Sections = Sections(bulk: seq<string>, publisher: seq<string>, frequemment: seq<string>)

  /** The new ASINs of the first selector that yields any. */
  function PremierNonVide(essais: seq<seq<string>>, vus: set<string>): (r: seq<string>)
    ensures forall x | x in r :: x !in vus
    ensures Distinct(r)
  {
    if essais == [] then []
    else
      var n := Nouveaux(essais[0], vus);
      NouveauxMembres(essais[0], vus);
      if n != [] then n else PremierNonVide(essais[1..], vus)
  }

  /** One section: the links of each selector not yet found are appended, until a selector yields some. */
  method CollecterSection(essais: seq<seq<string>>, trouves: set<string>) returns (asins: seq<string>, trouves': set<string>)
    ensures asins == PremierNonVide(essais, trouves)
    ensures trouves' == trouves + (set x | x in asins)
  {
    asins := [];
    trouves' := trouves;
    var e := 0;
    while e < |essais| && asins == []
      invariant e <= |essais|
      invariant asins == [] ==> trouves' == trouves && PremierNonVide(essais[e..], trouves) == PremierNonVide(essais, trouves)
      invariant asins != [] ==> asins == PremierNonVide(essais, trouves)
      invariant trouves' == trouves + (set x | x in asins)
      decreases |essais| - e
    {
      var liens := essais[e];
      assert essais[e..][1..] == essais[e + 1..];
      var i := 0;
      while i < |liens|
        invariant i <= |liens|
        invariant asins == Nouveaux(liens[..i], trouves)
        invariant trouves' == trouves + (set x | x in asins)
      {
        assert liens[..i + 1][..i] == liens[..i];
        if liens[i] !in trouves' {
          asins := asins + [liens[i]];
          trouves' := trouves' + {liens[i]};
        }
        i := i + 1;
      }
      assert liens[..i] == liens;
      e := e + 1;
    }
  }

  /** The ASIN a related-volumes search starts from: read from an Amazon URL, or given as such. */
  function AsinSource(urlOuAsin: string): Option<string> {
    if Contains(urlOuAsin, "amazon.co.jp") then AsinDp(urlOuAsin) else Some(urlOuAsin)
  }

  const SourcesParDefaut: set<string> := {"bulk", "publisher"}

  /**
    The related volumes of a fetched product page, by section: bulk purchases
    first and, only when that is empty, the publisher's and the
    frequently-bought sections; an ASIN appears once over all sections, and
    never the source ASIN.
  */
  function SectionsDe(asin: string, actives: set<string>, p: PageLiens): (r: Sections)
    ensures asin !in r.bulk + r.publisher + r.frequemment
    ensures Distinct(r.bulk + r.publisher + r.frequemment)
    ensures r.bulk != [] ==> r.publisher == [] && r.frequemment == []
    ensures "bulk" !in actives ==> r.bulk == []
    ensures "publisher" !in actives ==> r.publisher == []
    ensures "frequently_bought" !in actives ==> r.frequemment == []
  {
    var bulk := if "bulk" in actives then PremierNonVide(p.bulk, {asin}) else [];
    if bulk != [] then
      assert bulk + [] + [] == bulk;
      Sections(bulk, [], [])
    else
      var publisher := if "publisher" in actives then PremierNonVide(p.publisher, {asin}) else [];
      var frequemment := if "frequently_bought" in actives
                         then PremierNonVide(p.frequemment, {asin} + set x | x in publisher) else [];
      DistinctConcat(publisher, frequemment);
      assert [] + publisher + frequemment == publisher + frequemment;
      Sections([], publisher, frequemment)
  }

  /** The sections the related-volume extraction returns for `urlOuAsin`. */
  function VolumesLies(urlOuAsin: string, sources: Option<set<string>>, page: string -> Option<PageLiens>): Sections {
    match AsinSource(urlOuAsin)
    case None => Sections([], [], [])
    case Some(asin) =>
      match page(AmazonDp + asin)
      case None => Sections([], [], [])
      case Some(p) => SectionsDe(asin, if sources.Some? then sources.value else SourcesParDefaut, p)
  }

  /**
    `extraire_volumes_depuis_page`: the ASIN is read from the URL (nothing when
    an Amazon URL has none), its product page is fetched (nothing when that
    fails) and its sections are collected. `page(url)` is the parsed page at
    `url`.
  */
  method ExtraireVolumesDepuisPage(urlOuAsin: string, sources: Option<set<string>>, page: string -> Option<PageLiens>)
    returns (r: Sections)
    ensures r == VolumesLies(urlOuAsin, sources, page)
  {
    r := Sections([], [], []);
    var source := AsinSource(urlOuAsin);
    if source.None? {
      return;
    }
    var asin := source.value;
    var actives := if sources.Some? then sources.value else SourcesParDefaut;
    var fetched := page(AmazonDp + asin);
    if fetched.None? {
      return;
    }
    var p := fetched.value;
    var trouves: set<string> := {asin};
    var bulk: seq<string> := [];
    if "bulk" in actives {
      bulk, trouves := CollecterSection(p.bulk, trouves);
    }
    if bulk != [] {
      r := Sections(bulk, [], []);
      return;
    }
    assert (set x | x in bulk) == {};
    assert trouves == {asin};
    var publisher: seq<string> := [];
    if "publisher" in actives {
      publisher, trouves := CollecterSection(p.publisher, trouves);
    }
    assert trouves == {asin} + set x | x in publisher;
    var frequemment: seq<string> := [];
    if "frequently_bought" in actives {
      frequemment, trouves := CollecterSection(p.frequemment, trouves);
    }
    r := Sections([], publisher, frequemment);
  }

  // ---- search-result snippets

  /** End of a greedy `\d{1,2}` match at `i`. */
  function Fin12(s: string, i: nat): (e: nat)
    requires i < |s| && IsDigit(s[i])
    ensures (e == i + 1 || e == i + 2) && e <= |s|
    ensures forall j | i <= j < e :: IsDigit(s[j])
  {
    if i + 1 < |s| && IsDigit(s[i + 1]) then i + 2 else i + 1
  }

  /**
    `\d{4}/\d{1,2}/\d{1,2}` matches at `k`. A one-digit month followed by a
    digit cannot match, so the greedy month is the only candidate.
  */
  predicate DateAt(s: string, k: nat) {
    k + 5 < |s| && (forall j | k <= j < k + 4 :: IsDigit(s[j])) && s[k + 4] == '/' && IsDigit(s[k + 5])
    && var me := Fin12(s, k + 5);
       me + 1 < |s| && s[me] == '/' && IsDigit(s[me + 1])
  }

  /** `f"{n:02d}"` for a number below 100. */
  function Pad2(n: nat): (r: string)
    requires n < 100
    ensures |r| == 2 && IsAsciiDigit(r[0]) && IsAsciiDigit(r[1])
    ensures AllDigits(r) && DigitsValue(r) == n
  {
    var r := [DigitChar(n / 10), DigitChar(n % 10)];
    assert r[..1][..0] == [];
    r
  }

  lemma SmallValue(t: string)
    requires AllDigits(t) && |t| <= 2
    ensures DigitsValue(t) < 100
  {
    assert Pow10(2) == 100;
    assert Pow10(|t|) <= 100;
  }

  /** A date in the padded form the snippets are rewritten to: YYYY/MM/DD. */
  predicate DatePaddee(d: string) {
    |d| == 10 && (forall j | 0 <= j < 4 :: IsDigit(d[j])) && d[4] == '/' && d[7] == '/'
    && IsAsciiDigit(d[5]) && IsAsciiDigit(d[6]) && IsAsciiDigit(d[8]) && IsAsciiDigit(d[9])
  }

  lemma DigitsValue2(t: string)
    requires |t| == 2 && AllDigits(t)
    ensures DigitsValue(t) == DigitValue(t[0]) * 10 + DigitValue(t[1])
  {
    assert t[..1][..0] == [];
  }

  /** Two ASCII digits read as a number and padded back are the same two digits. */
  lemma Pad2OfDigits(t: string)
    requires |t| == 2 && IsAsciiDigit(t[0]) && IsAsciiDigit(t[1])
    ensures DigitsValue(t) < 100 && Pad2(DigitsValue(t)) == t
  {
    DigitsValue2(t);
  }

  /** `f"{annee}/{mois:02d}/{jour:02d}"`. */
  function FormerDate(annee: string, mois: nat, jour: nat): (d: string)
    requires |annee| == 4 && AllDigits(annee) && mois < 100 && jour < 100
    ensures DatePaddee(d) && d[..4] == annee
    ensures DigitsValue(d[5..7]) == mois && DigitsValue(d[8..]) == jour
  {
    var m, j := Pad2(mois), Pad2(jour);
    var d := annee + ['/', m[0], m[1], '/', j[0], j[1]];
    assert d[5..7] == m && d[8..] == j;
    d
  }

  /**
    The first date of a snippet text, its month and day zero-padded to two
    digits; splitting the match on '/' gives exactly its three digit groups.
  */
  function DateSnippet(text: string): (r: Option<string>)
    ensures r.None? <==> forall k | 0 <= k < |text| :: !DateAt(text, k)
    ensures r.Some? ==> DatePaddee(r.value)
    ensures r.Some? ==> exists k | 0 <= k < |text| :: DateAt(text, k)
                          && r.value[..4] == text[k..k + 4]
                          && DigitsValue(r.value[5..7]) == DigitsValue(text[k + 5..Fin12(text, k + 5)])
                          && DigitsValue(r.value[8..]) == DigitsValue(text[Fin12(text, k + 5) + 1..Fin12(text, Fin12(text, k + 5) + 1)])
  {
    match FindFirst(text, 0, DateAt)
    case None => None
    case Some(k) => Some(DateEn(text, k))
  }

  /** The date matched at `k`, its month and day zero-padded. */
  function DateEn(text: string, k: nat): (d: string)
    requires DateAt(text, k)
    ensures DatePaddee(d) && d[..4] == text[k..k + 4]
    ensures DigitsValue(d[5..7]) == DigitsValue(text[k + 5..Fin12(text, k + 5)])
    ensures DigitsValue(d[8..]) == DigitsValue(text[Fin12(text, k + 5) + 1..Fin12(text, Fin12(text, k + 5) + 1)])
  {
    var me := Fin12(text, k + 5);
    var de := Fin12(text, me + 1);
    var mois, jour := text[k + 5..me], text[me + 1..de];
    ChiffresEntre(text, k, k + 4);
    ChiffresEntre(text, k + 5, me);
    ChiffresEntre(text, me + 1, de);
    SmallValue(mois);
    SmallValue(jour);
    FormerDate(text[k..k + 4], DigitsValue(mois), DigitsValue(jour))
  }

  /** A stretch of digits, taken out of the text, is all digits. */
  lemma ChiffresEntre(s: string, i: nat, e: nat)
    requires i <= e <= |s| && forall j | i <= j < e :: IsDigit(s[j])
    ensures AllDigits(s[i..e])
  {
    forall j | 0 <= j < e - i ensures IsDigit(s[i..e][j]) {
      assert s[i..e][j] == s[i + j];
    }
  }

  /** A date already padded is read back as itself. */
  lemma DateSnippetOfPadded(d: string)
    requires DatePaddee(d)
    ensures DateSnippet(d) == Some(d)
  {
    assert Fin12(d, 5) == 7 && Fin12(d, 8) == 10;
    assert DateAt(d, 0);
    FormerDatePaddee(d);
  }

  /** Writing out the year, month and day of a padded date gives the date back. */
  lemma FormerDatePaddee(d: string)
    requires DatePaddee(d)
    ensures FormerDate(d[..4], DigitsValue(d[5..7]), DigitsValue(d[8..10])) == d
  {
    Pad2OfDigits(d[5..7]);
    Pad2OfDigits(d[8..10]);
    var e := FormerDate(d[..4], DigitsValue(d[5..7]), DigitsValue(d[8..10]));
    assert e[5..7] == d[5..7] && e[8..] == d[8..10];
    forall i | 0 <= i < 10 ensures e[i] == d[i] {
      if 5 <= i < 7 {
        assert e[i] == e[5..7][i - 5];
      } else if 8 <= i {
        assert e[i] == e[8..][i - 8];
      }
    }
  }

  /** Rewriting a snippet date twice gives what rewriting it once gives. */
  lemma DateSnippetIdempotent(text: string)
    ensures DateSnippet(text).Some? ==> DateSnippet(DateSnippet(text).value) == DateSnippet(text)
  {
    if DateSnippet(text).Some? {
      DateSnippetOfPadded(DateSnippet(text).value);
    }
  }

  /** The index of the first value present in `s`. */
  function PremierIndice<T>(s: seq<Option<T>>): (r: Option<nat>)
    ensures r.None? <==> forall i | 0 <= i < |s| :: s[i].None?
    ensures r.Some? ==> r.value < |s| && s[r.value].Some? && forall j | 0 <= j < r.value :: s[j].None?
  {
    if s == [] then None
    else if s[0].Some? then Some(0)
    else
      var r := PremierIndice(s[1..]);
      assert forall i | 1 <= i < |s| :: s[i] == s[1..][i - 1];
      if r.Some? then Some(r.value + 1) else None
  }

  /** The first value present in `s`. */
  function PremierPresent<T>(s: seq<Option<T>>): (r: Option<T>)
    ensures r.None? <==> forall i | 0 <= i < |s| :: s[i].None?
    ensures r.Some? ==> exists i | 0 <= i < |s| :: r == s[i] && forall j | 0 <= j < i :: s[j].None?
  {
    match PremierIndice(s)
    case None => None
    case Some(i) => s[i]
  }

  /**
    The date of a search result: from the first span that holds one, else
    from the first row that does.
  */
  function DateFeatured(spans: seq<string>, rangees: seq<string>): (r: Option<string>)
    ensures r.Some? ==> DatePaddee(r.value)
    ensures r.None? ==> (forall i | 0 <= i < |spans| :: DateSnippet(spans[i]).None?)
                        && forall i | 0 <= i < |rangees| :: DateSnippet(rangees[i]).None?
    ensures r.None? <==> forall i | 0 <= i < |spans + rangees| :: DateSnippet((spans + rangees)[i]).None?
    ensures r.Some? ==> exists i | 0 <= i < |spans + rangees| :: r == DateSnippet((spans + rangees)[i])
                          && forall j | 0 <= j < i :: DateSnippet((spans + rangees)[j]).None?
  {
    var t := spans + rangees;
    assert forall i | 0 <= i < |spans| :: t[i] == spans[i];
    assert forall i | 0 <= i < |rangees| :: t[|spans| + i] == rangees[i];
    PremierPresent(DatesDe(t))
  }

  /** The date of each text. */
  function DatesDe(t: seq<string>): (r: seq<Option<string>>)
    ensures |r| == |t| && forall i | 0 <= i < |t| :: r[i] == DateSnippet(t[i])
  {
    seq(|t|, i requires 0 <= i < |t| => DateSnippet(t[i]))
  }

  /** The formats a snippet may name, in the order of the alternation `(コミック|文庫|単行本|新書|大型本|ムック)`. */
  const FormatsLivre: seq<string> := ["コミック", "文庫", "単行本", "新書", "大型本", "ムック"]

  /** Some format of the table starts at `k`. */
  predicate FormatAt(s: string, k: nat) {
    exists m | 0 <= m < |FormatsLivre| :: OccursAt(s, FormatsLivre[m], k)
  }

  /** The first format of the table, from entry `j` on, that starts at `k`. */
  function FormatEn(s: string, k: nat, j: nat): (r: Option<string>)
    requires j <= |FormatsLivre|
    ensures r.None? <==> forall m | j <= m < |FormatsLivre| :: !OccursAt(s, FormatsLivre[m], k)
    ensures r.Some? ==> exists m | j <= m < |FormatsLivre| :: r.value == FormatsLivre[m] && OccursAt(s, r.value, k)
                          && forall n | j <= n < m :: !OccursAt(s, FormatsLivre[n], k)
    decreases |FormatsLivre| - j
  {
    if j == |FormatsLivre| then None
    else if OccursAt(s, FormatsLivre[j], k) then Some(FormatsLivre[j])
    else FormatEn(s, k, j + 1)
  }

  /**
    The format a snippet text names: `re.search` of the alternation, so the
    format starting leftmost, the earlier table entry winning at one place.
  */
  function FormatTexte(s: string): (r: Option<string>)
    ensures r.None? <==> forall k | 0 <= k < |s| :: !FormatAt(s, k)
    ensures r.Some? ==> r.value in FormatsLivre
    ensures r.Some? ==> exists k | 0 <= k < |s| :: OccursAt(s, r.value, k) && forall i | 0 <= i < k :: !FormatAt(s, i)
  {
    match FindFirst(s, 0, FormatAt)
    case None => None
    case Some(k) =>
      var r := FormatEn(s, k, 0);
      assert r.Some?;
      r
  }

  /** A snippet that starts with a format, as `コミック – 2026/1/23` does, names that format. */
  lemma FormatEnTete(j: nat, reste: string)
    requires j < |FormatsLivre|
    ensures FormatTexte(FormatsLivre[j] + reste) == Some(FormatsLivre[j])
  {
    var s := FormatsLivre[j] + reste;
    assert OccursAt(s, FormatsLivre[j], 0) by {
      assert s[..|FormatsLivre[j]|] == FormatsLivre[j];
    }
    FindFirstAt(s, 0, FormatAt, 0);
    assert s[0] == FormatsLivre[j][0];
    forall m | 0 <= m < j ensures !OccursAt(s, FormatsLivre[m], 0) {
      assert FormatsLivre[m][0] != s[0];
    }
  }

  /**
    The format of a search result: named in the first span that holds a
    date, and only there (a date found in a row brings no format).
  */
  function FormatFeatured(spans: seq<string>): (r: Option<string>)
    ensures (forall i | 0 <= i < |spans| :: DateSnippet(spans[i]).None?) ==> r.None?
    ensures r.Some? ==> r.value in FormatsLivre
    ensures forall i | 0 <= i < |spans| && DateSnippet(spans[i]).Some? && (forall j | 0 <= j < i :: DateSnippet(spans[j]).None?)
              :: r == FormatTexte(spans[i])
  {
    var dates := DatesDe(spans);
    match PremierIndice(dates)
    case None => None
    case Some(i) =>
      assert forall p | 0 <= p < |spans| && DateSnippet(spans[p]).Some? && (forall j | 0 <= j < p :: DateSnippet(spans[j]).None?) :: p == i;
      FormatTexte(spans[i])
  }

  /** The metadata of a search result, read from its title and its snippet texts. */
  datatype InfosFeatured = InfosFeatured(titre: string, tome: Option<TomeValue>, editeur: Option<string>, date: Option<string>,
                                         format: Option<string>)

  function ExtraireInfosFeatured(titre: string, spans: seq<string>, rangees: seq<string>): (r: InfosFeatured)
    ensures r.titre == titre && r.tome == ExtraireNumeroTome(titre)
    ensures r.editeur.Some? <==> ExtraireEditeur(titre).Some?
    ensures r.date.Some? ==> DatePaddee(r.date.value)
    ensures r.date == DateFeatured(spans, rangees)
    ensures ExtraireEditeur(titre).Some? ==> r.editeur == Some(ConvertirEditeurRomaji(EditeursRomaji, ExtraireEditeur(titre).value))
    ensures r.format == FormatFeatured(spans)
    ensures r.format.Some? ==> r.date.Some? && r.format.value in FormatsLivre
  {
    var editeur := ExtraireEditeur(titre);
    InfosFeatured(titre, ExtraireNumeroTome(titre),
                  if editeur.Some? then Some(ConvertirEditeurRomaji(EditeursRomaji, editeur.value)) else None,
                  DateFeatured(spans, rangees), FormatFeatured(spans))
  }
}