/**
  The pure helpers of the tracker that read and normalise Amazon data:
  series-name suffixes, paper formats, publisher names, publisher labels in
  titles, ASINs and product URLs, e-book detection.
*/
module Normaliser {
  import opened Wrappers
  import opened Text

  // ---- series names

  /** The display name of a series: its ` [LN]` or ` [MANGA]` suffix removed. */
  function StripTypeSuffix(nom: string): (r: string)
    ensures r <= nom
    ensures r == nom <==> !EndsWith(nom, " [LN]") && !EndsWith(nom, " [MANGA]")
    ensures EndsWith(nom, " [LN]") ==> r + " [LN]" == nom
    ensures !EndsWith(nom, " [LN]") && EndsWith(nom, " [MANGA]") ==> r + " [MANGA]" == nom
  {
    if EndsWith(nom, " [LN]") then nom[..|nom| - 5]
    else if EndsWith(nom, " [MANGA]") then nom[..|nom| - 8]
    else nom
  }

  // ---- formats

  const FormatsPapierValides: seq<string> :=
    ["単行本", "ペーパーバック", "文庫", "コミック", "Paperback", "Tankobon"]

  /** A format string names a printed book when it contains one of the paper formats. */
  predicate EstFormatPapier(format: string) {
    format != [] && exists i | 0 <= i < |FormatsPapierValides| :: Contains(format, FormatsPapierValides[i])
  }

  /** A format counts as paper as soon as it mentions a paper format, whatever surrounds it. */
  lemma EstFormatPapierWithin(format: string, i: nat, j: nat)
    requires i <= j <= |format| && EstFormatPapier(format[i..j])
    ensures EstFormatPapier(format)
  {
    var f :| 0 <= f < |FormatsPapierValides| && Contains(format[i..j], FormatsPapierValides[f]);
    ContainsWithin(format, i, j, FormatsPapierValides[f]);
  }

  // ---- publishers

  /**
    The labels and collections of the label table of `normaliser_editeur`,
    cleaned, each with its parent publisher, in table order, written in four
    parts.
  */
  const Labels: seq<(string, string)> := Labels1 + Labels2 + Labels3 + Labels4

  const Labels1: seq<(string, string)> := [
    ("shonenmagazine", "kodansha"), ("shonenmagazinekc", "kodansha"), ("magazinekc", "kodansha"),
    ("kcdeluxe", "kodansha"), ("kc", "kodansha"), ("youngmagazine", "kodansha"),
    ("youngmagazinekc", "kodansha"), ("morning", "kodansha"), ("morningkc", "kodansha"),
    ("afternoon", "kodansha"), ("afternoonkc", "kodansha"), ("eveningkc", "kodansha"),
    ("kodanshacomics", "kodansha"), ("kcmanga", "kodansha"), ("sirius", "kodansha"),
    ("siriuskc", "kodansha"), ("rivierekc", "kodansha"), ("palcykc", "kodansha"),
    ("dayscomics", "kodansha"), ("kadokawacomics", "kadokawa"), ("kadokawacomicsace", "kadokawa"),
    ("kadokawasneakerbunko", "kadokawa")
  ]

  const Labels2: seq<(string, string)> := [
    ("dengeki", "kadokawa"), ("dengekicomics", "kadokawa"), ("dengekibunko", "kadokawa"),
    ("dengekidaioh", "kadokawa"), ("asciimediaworks", "kadokawa"), ("mediaworks", "kadokawa"),
    ("enterbrain", "kadokawa"), ("mfbunko", "kadokawa"), ("mfbunkoj", "kadokawa"), ("mfc", "kadokawa"),
    ("dragoncomicsage", "kadokawa"), ("dragoncomics", "kadokawa"), ("compace", "kadokawa"),
    ("comptiq", "kadokawa"), ("bcomicskadoboku", "kadokawa"), ("flos", "kadokawa"),
    ("floscomics", "kadokawa"), ("jumpcomics", "shueisha"), ("youngjump", "shueisha"),
    ("youngjumpcomics", "shueisha"), ("grandjump", "shueisha"), ("ultrajump", "shueisha")
  ]

  const Labels3: seq<(string, string)> := [
    ("margaretcomics", "shueisha"), ("ribon", "shueisha"), ("ribbon", "shueisha"),
    ("dashxbunko", "shueisha"), ("sunday", "shogakukan"), ("sundaycomics", "shogakukan"),
    ("bigcomics", "shogakukan"), ("bigcomic", "shogakukan"), ("bigcomicsspirits", "shogakukan"),
    ("flowercomics", "shogakukan"), ("gangan", "shogakukan"), ("uracomics", "shogakukan"),
    ("gangancomics", "squareenix"), ("gangancomicsonline", "squareenix"),
    ("gangancomicsjoker", "squareenix"), ("gfantasy", "squareenix"), ("younggangan", "squareenix"),
    ("biggangancomics", "squareenix"), ("younganimal", "hakusensha"),
    ("younganimalcomics", "hakusensha"), ("hanatoname", "hakusensha"),
    ("hanatoamecomics", "hakusensha")
  ]

  const Labels4: seq<(string, string)> := [
    ("lala", "hakusensha"), ("melody", "hakusensha"), ("jets", "hakusensha"),
    ("jetscomics", "hakusensha"), ("champion", "akitashoten"), ("championcomics", "akitashoten"),
    ("shonenchampion", "akitashoten"), ("gene", "ichijinsha"), ("rexcomics", "ichijinsha"),
    ("action", "futabasha"), ("actioncomics", "futabasha"), ("harta", "kadokawa"),
    ("hartacomics", "kadokawa"), ("hue", "kadokawa"), ("bunch", "coamix"), ("bunchcomics", "coamix"),
    ("overlapbunko", "overlap"), ("hjbunko", "hobbyjapan"), ("gabunko", "sbcreative"),
    ("heroescomics", "heroes"), ("bladecomics", "maggarden"), ("ran", "leed")
  ]

  /** The parent publishers of the label table, each of which the table maps to itself. */
  const Parents: seq<string> := Parents1 + Parents2

  const Parents1: seq<string> := [
    "kodansha", "kadokawa", "shueisha", "shogakukan", "squareenix", "hakusensha", "akitashoten",
    "ichijinsha", "futabasha", "houbunsha", "coamix", "overlap"
  ]

  const Parents2: seq<string> := [
    "hobbyjapan", "sbcreative", "heroes", "flexcomics", "maggarden", "leed", "northstarspictures",
    "shinchosha", "bungeishunju", "kobunsha", "gentosha", "shonengazosha", "pixiv"
  ]

  /**
    The value of `cle` in a table of (key, value) entries, searched from entry
    `i`: the first entry with that key.
  */
  function ParentDe(t: seq<(string, string)>, cle: string, i: nat): Option<string>
    decreases |t| - i
  {
    if i >= |t| then None
    else if t[i].0 == cle then Some(t[i].1)
    else ParentDe(t, cle, i + 1)
  }

  /** A value found belongs to an entry with that key; nothing is found only when no entry has the key. */
  lemma {:induction false} ParentDeTrouve(t: seq<(string, string)>, cle: string, i: nat) returns (j: nat)
    ensures ParentDe(t, cle, i).Some? ==> i <= j < |t| && t[j] == (cle, ParentDe(t, cle, i).value)
    ensures ParentDe(t, cle, i).None? <==> forall k | i <= k < |t| :: t[k].0 != cle
    decreases |t| - i
  {
    if i >= |t| || t[i].0 == cle {
      j := i;
    } else {
      j := ParentDeTrouve(t, cle, i + 1);
    }
  }

  /**
    `table.get(cle)` for the dictionary made of the parents `ps`, each mapped
    to itself, and the label entries `t`. The dictionary's keys are distinct
    and no label is a parent, so the order of the search does not matter.
  */
  function Consulter(ps: seq<string>, t: seq<(string, string)>, cle: string): Option<string> {
    if cle in ps then Some(cle) else ParentDe(t, cle, 0)
  }

  /** The characters `normaliser_editeur` deletes: spaces and a few punctuation marks. */
  const SeparateursEditeur: set<char> := {' ', '\U{3000}', '・', '-', '−'}

  /** Separators removed, then lower case. */
  function NettoyerEditeur(editeur: string): string {
    Lower(Remove(editeur, SeparateursEditeur))
  }

  /**
    A publisher name reduced to a comparison key with the label table made of
    `ps` and `t` (the tracker uses `Parents` and `Labels`): separators removed,
    lower case, and a known label replaced by its parent publisher.
  */
  function NormaliserEditeurAvec(ps: seq<string>, t: seq<(string, string)>, editeur: string): string {
    if editeur == [] then []
    else
      var cle := NettoyerEditeur(editeur);
      match Consulter(ps, t, cle)
      case Some(parent) => parent
      case None => cle
  }

  function NormaliserEditeur(editeur: string): string {
    NormaliserEditeurAvec(Parents, Labels, editeur)
  }

  predicate LowerAsciiWord(s: string) {
    forall i | 0 <= i < |s| :: 'a' <= s[i] <= 'z'
  }

  /** Every label resolves to a parent, and every parent is spelled in lower-case letters. */
  predicate TableFermee(ps: seq<string>, t: seq<(string, string)>) {
    (forall i | 0 <= i < |t| :: t[i].1 in ps) && forall j | 0 <= j < |ps| :: LowerAsciiWord(ps[j])
  }

  /** A cleaned name is already clean. */
  lemma NettoyerEditeurIdempotent(editeur: string)
    ensures NettoyerEditeur(NettoyerEditeur(editeur)) == NettoyerEditeur(editeur)
  {
    var c := NettoyerEditeur(editeur);
    RemoveNothing(c, SeparateursEditeur);
    assert Lower(c) == c;
  }

  lemma NettoyerLowerAsciiWord(p: string)
    requires LowerAsciiWord(p)
    ensures NettoyerEditeur(p) == p
  {
    RemoveNothing(p, SeparateursEditeur);
    assert Lower(p) == p;
  }

  /** With a closed label table, normalising a normalised name changes nothing. */
  lemma NormaliserEditeurAvecIdempotent(ps: seq<string>, t: seq<(string, string)>, editeur: string)
    requires TableFermee(ps, t)
    ensures NormaliserEditeurAvec(ps, t, NormaliserEditeurAvec(ps, t, editeur)) == NormaliserEditeurAvec(ps, t, editeur)
  {
    var r := NormaliserEditeurAvec(ps, t, editeur);
    if editeur != [] && r != [] {
      var c := NettoyerEditeur(editeur);
      var j := ParentDeTrouve(t, c, 0);
      if c !in ps && ParentDe(t, c, 0).Some? {
        assert r == t[j].1 && r in ps;
        NettoyerLowerAsciiWord(r);
      } else {
        NettoyerEditeurIdempotent(editeur);
      }
    }
  }

  /** Every value of `a + b` is in `ps` when every value of `a` and of `b` is. */
  lemma ValeursConcat(a: seq<(string, string)>, b: seq<(string, string)>, ps: seq<string>)
    requires forall i | 0 <= i < |a| :: a[i].1 in ps
    requires forall i | 0 <= i < |b| :: b[i].1 in ps
    ensures forall i | 0 <= i < |a + b| :: (a + b)[i].1 in ps
  {
    forall i | 0 <= i < |a + b|
      ensures (a + b)[i].1 in ps
    {
      if i >= |a| {
        assert (a + b)[i] == b[i - |a|];
      }
    }
  }

  lemma ValeursLabels1()
    ensures forall i | 0 <= i < |Labels1| :: Labels1[i].1 in Parents
  {
  }

  lemma ValeursLabels2()
    ensures forall i | 0 <= i < |Labels2| :: Labels2[i].1 in Parents
  {
  }

  lemma ValeursLabels3()
    ensures forall i | 0 <= i < |Labels3| :: Labels3[i].1 in Parents
  {
  }

  lemma ValeursLabels4()
    ensures forall i | 0 <= i < |Labels4| :: Labels4[i].1 in Parents
  {
  }

  /** Every label of the table resolves to one of the parents. */
  lemma ValeursLabels()
    ensures forall i | 0 <= i < |Labels| :: Labels[i].1 in Parents
  {
    ValeursLabels1();
    ValeursLabels2();
    ValeursConcat(Labels1, Labels2, Parents);
    ValeursLabels3();
    ValeursConcat(Labels1 + Labels2, Labels3, Parents);
    ValeursLabels4();
    ValeursConcat(Labels1 + Labels2 + Labels3, Labels4, Parents);
  }

  lemma ParentsMinuscules1()
    ensures forall j | 0 <= j < |Parents1| :: LowerAsciiWord(Parents1[j])
  {
  }

  lemma ParentsMinuscules2()
    ensures forall j | 0 <= j < |Parents2| :: LowerAsciiWord(Parents2[j])
  {
  }

  /** Every parent is spelled in lower-case letters. */
  lemma ParentsMinuscules()
    ensures forall j | 0 <= j < |Parents| :: LowerAsciiWord(Parents[j])
  {
    ParentsMinuscules1();
    ParentsMinuscules2();
    forall j | 0 <= j < |Parents|
      ensures LowerAsciiWord(Parents[j])
    {
      if j >= |Parents1| {
        assert Parents[j] == Parents2[j - |Parents1|];
      }
    }
  }

  /** The tracker's label table is closed. */
  lemma LabelsFermee()
    ensures TableFermee(Parents, Labels)
  {
    ValeursLabels();
    ParentsMinuscules();
  }

  /** Normalising a normalised publisher name changes nothing. */
  lemma NormaliserEditeurIdempotent(editeur: string)
    ensures NormaliserEditeur(NormaliserEditeur(editeur)) == NormaliserEditeur(editeur)
  {
    LabelsFermee();
    NormaliserEditeurAvecIdempotent(Parents, Labels, editeur);
  }

  /** The table sends a label to its parent publisher. */
  lemma ShonenMagazineKodansha()
    ensures Consulter(Parents, Labels, "shonenmagazine") == Some("kodansha")
  {
  }

  /** Two names that clean to labels of one parent publisher both normalise to that parent. */
  lemma NormaliserEditeurMemeParent(a: string, b: string)
    requires a != [] && b != []
    requires Consulter(Parents, Labels, NettoyerEditeur(a)).Some?
    requires Consulter(Parents, Labels, NettoyerEditeur(a)) == Consulter(Parents, Labels, NettoyerEditeur(b))
    ensures NormaliserEditeur(a) == NormaliserEditeur(b) && NormaliserEditeur(a) in Parents
  {
    var j := ParentDeTrouve(Labels, NettoyerEditeur(a), 0);
    ValeursLabels();
  }

  /**
    The publisher of a volume agrees with the publisher of record when either is
    unknown, or when one normalised name contains the other.
  */
  predicate EditeurMatch(editeurVolume: string, editeurOfficiel: string) {
    editeurVolume == [] || editeurOfficiel == []
    || (var a := NormaliserEditeur(editeurVolume);
        var b := NormaliserEditeur(editeurOfficiel);
        Contains(b, a) || Contains(a, b))
  }

  lemma EditeurMatchSymmetric(a: string, b: string)
    ensures EditeurMatch(a, b) == EditeurMatch(b, a)
  {
  }

  /** Two labels of one parent publisher always match. */
  lemma EditeurMatchSameParent(a: string, b: string)
    requires a != [] && b != []
    requires Consulter(Parents, Labels, NettoyerEditeur(a)).Some?
    requires Consulter(Parents, Labels, NettoyerEditeur(a)) == Consulter(Parents, Labels, NettoyerEditeur(b))
    ensures EditeurMatch(a, b)
  {
    NormaliserEditeurMemeParent(a, b);
    ContainsSelf(NormaliserEditeur(a));
  }

  /** Spaces, separators and ASCII case never change the outcome of a comparison. */
  lemma EditeurMatchIgnoresSpelling(a: string, a2: string, b: string)
    requires a != [] && a2 != [] && NettoyerEditeur(a) == NettoyerEditeur(a2)
    ensures EditeurMatch(a, b) == EditeurMatch(a2, b)
  {
  }

  /** A name always matches itself. */
  lemma EditeurMatchReflexive(a: string)
    ensures EditeurMatch(a, a)
  {
    ContainsSelf(NormaliserEditeur(a));
  }

  /** Japanese publisher names and labels with their romaji, in table order. */
  const EditeursRomaji: seq<(string, string)> := [
    ("KADOKAWA", "Kadokawa"), ("角川書店", "Kadokawa"), ("カドカワ", "Kadokawa"),
    ("角川", "Kadokawa"), ("講談社", "Kodansha"), ("小学館", "Shogakukan"),
    ("集英社", "Shueisha"), ("スクウェア・エニックス", "Square Enix"), ("スクエニ", "Square Enix"),
    ("白泉社", "Hakusensha"), ("秋田書店", "Akita Shoten"), ("双葉社", "Futabasha"),
    ("芳文社", "Houbunsha"), ("一迅社", "Ichijinsha"), ("アスキー・メディアワークス", "ASCII Media Works"),
    ("メディアワークス", "Media Works"), ("電撃", "Dengeki"), ("マッグガーデン", "Mag Garden"),
    ("エンターブレイン", "Enterbrain"), ("ホビージャパン", "Hobby Japan"), ("オーバーラップ", "Overlap"),
    ("アース・スター", "Earth Star"), ("SBクリエイティブ", "SB Creative"), ("ソフトバンク", "SoftBank"),
    ("新潮社", "Shinchosha"), ("文藝春秋", "Bungeishunju"), ("光文社", "Kobunsha"),
    ("幻冬舎", "Gentosha"), ("リイド社", "Leed"), ("少年画報社", "Shonen Gahosha"),
    ("コアミックス", "Coamix"), ("ノース・スターズ・ピクチャーズ", "North Stars Pictures"), ("角川コミックス", "Kadokawa Comics"),
    ("角川スニーカー文庫", "Kadokawa Sneaker Bunko"), ("電撃コミックス", "Dengeki Comics"), ("電撃文庫", "Dengeki Bunko"),
    ("少年マガジン", "Shonen Magazine"), ("マガジンKC", "Magazine KC"), ("ヤングマガジン", "Young Magazine"),
    ("ジャンプコミックス", "Jump Comics"), ("サンデー", "Sunday"), ("ガンガン", "Gangan"),
    ("ビッグコミックス", "Big Comics"), ("ビッグコミック", "Big Comics"), ("モーニング", "Morning"),
    ("アフタヌーン", "Afternoon"), ("ハルタ", "Harta"), ("ハルタコミックス", "Harta Comics"),
    ("MFC", "MFC"), ("MF文庫", "MF Bunko"), ("フレックスコミックス", "Flex Comics"),
    ("ヒーローズ", "Heroes"), ("バンチ", "Bunch"), ("BUNCH", "Bunch"),
    ("アクション", "Action"), ("ヤングアニマル", "Young Animal"), ("チャンピオン", "Champion"),
    ("ジーン", "Gene"), ("ピクシブ", "Pixiv"), ("フロース", "Flos"),
    ("ヒュー", "Hue"), ("乱", "Ran"), ("KC", "KC"),
    ("KCデラックス", "KC Deluxe")
  ]

  /** The entry of `table` whose key equals `editeur`, looked up from entry `i` on. */
  function EntreeExacte(table: seq<(string, string)>, editeur: string, i: nat): (r: Option<nat>)
    requires i <= |table|
    ensures r.Some? ==> i <= r.value < |table| && table[r.value].0 == editeur
    ensures r.None? ==> forall m | i <= m < |table| :: table[m].0 != editeur
    decreases |table| - i
  {
    if i == |table| then None
    else if table[i].0 == editeur then Some(i)
    else EntreeExacte(table, editeur, i + 1)
  }

  /**
    The entry found first when `table` is sorted by decreasing key length (a
    stable sort) and scanned for a key contained in `editeur`: the longest
    contained key, the earliest among keys of that length. `best` is the best
    entry among those before `i`.
  */
  function PlusLongueCle(table: seq<(string, string)>, editeur: string, i: nat, best: Option<nat>): (r: Option<nat>)
    requires i <= |table|
    requires best.Some? ==> best.value < i && Contains(editeur, table[best.value].0)
    requires best.Some? ==> forall m | 0 <= m < i && Contains(editeur, table[m].0) ::
      |table[m].0| <= |table[best.value].0|
    requires best.Some? ==> forall m | 0 <= m < best.value && Contains(editeur, table[m].0) ::
      |table[m].0| < |table[best.value].0|
    requires best.None? ==> forall m | 0 <= m < i :: !Contains(editeur, table[m].0)
    ensures r.Some? ==> r.value < |table| && Contains(editeur, table[r.value].0)
    ensures r.Some? ==> forall m | 0 <= m < |table| && Contains(editeur, table[m].0) ::
      |table[m].0| <= |table[r.value].0|
    ensures r.Some? ==> forall m | 0 <= m < r.value && Contains(editeur, table[m].0) ::
      |table[m].0| < |table[r.value].0|
    ensures r.None? ==> forall m | 0 <= m < |table| :: !Contains(editeur, table[m].0)
    decreases |table| - i
  {
    if i == |table| then best
    else
      var key := table[i].0;
      if Contains(editeur, key) && (best.None? || |key| > |table[best.value].0|) then
        PlusLongueCle(table, editeur, i + 1, Some(i))
      else
        PlusLongueCle(table, editeur, i + 1, best)
  }

  /**
    A publisher name in romaji, looked up in `table` (the tracker uses
    `EditeursRomaji`): the value of an exact key, else that of the longest key
    the name contains, else the name itself.
  */
  function ConvertirEditeurRomaji(table: seq<(string, string)>, editeur: string): (r: string)
    ensures editeur == [] ==> r == []
    ensures editeur != [] && EntreeExacte(table, editeur, 0).Some? ==> r == table[EntreeExacte(table, editeur, 0).value].1
    ensures (forall m | 0 <= m < |table| :: !Contains(editeur, table[m].0)) ==> r == editeur
    ensures r != editeur ==> exists m | 0 <= m < |table| :: r == table[m].1 && Contains(editeur, table[m].0)
    ensures editeur != [] && EntreeExacte(table, editeur, 0).None?
            && (exists m | 0 <= m < |table| :: Contains(editeur, table[m].0)) ==>
      exists m | 0 <= m < |table| :: r == table[m].1 && Contains(editeur, table[m].0)
        && (forall n | 0 <= n < |table| && Contains(editeur, table[n].0) :: |table[n].0| <= |table[m].0|)
        && (forall n | 0 <= n < m && Contains(editeur, table[n].0) :: |table[n].0| < |table[m].0|)
  {
    if editeur == [] then []
    else
      match EntreeExacte(table, editeur, 0)
      case Some(i) =>
        ContainsSelf(editeur);
        table[i].1
      case None =>
        match PlusLongueCle(table, editeur, 0, None)
        case Some(i) => table[i].1
        case None => editeur
  }

  /** The index of the first `open` or `close` at or after `i`, or `|s|` when there is none. */
  function NextBracket(s: string, i: nat, open: char, close: char): (j: nat)
    requires i <= |s|
    ensures i <= j <= |s| && (j == |s| || s[j] == open || s[j] == close)
    ensures forall m | i <= m < j :: s[m] != open && s[m] != close
    decreases |s| - i
  {
    if i == |s| || s[i] == open || s[i] == close then i else NextBracket(s, i + 1, open, close)
  }

  /** `re.findall` of `open([^open close]+)close` over `s[i:]`: the non-empty bracketed groups, left to right. */
  function Groups(s: string, i: nat, open: char, close: char): (gs: seq<string>)
    requires i <= |s|
    decreases |s| - i
  {
    if i == |s| then []
    else if s[i] == open then
      var j := NextBracket(s, i + 1, open, close);
      if j < |s| && s[j] == close && j > i + 1 then
        [s[i + 1..j]] + Groups(s, j + 1, open, close)
      else Groups(s, i + 1, open, close)
    else Groups(s, i + 1, open, close)
  }

  /** `open([^open close]+)close` matches with its opening bracket at `p` and its closing one at `q`. */
  predicate GroupeEntre(s: string, p: nat, q: nat, open: char, close: char) {
    p + 1 < q < |s| && s[p] == open && s[q] == close
    && forall m | p < m < q :: s[m] != open && s[m] != close
  }

  /** Each `gs[j]` is the text of a match from `i` on, between brackets `ps[j]` and `qs[j]`. */
  ghost predicate Places(s: string, i: nat, open: char, close: char, gs: seq<string>, ps: seq<nat>, qs: seq<nat>) {
    |ps| == |qs| == |gs|
    && forall j | 0 <= j < |ps| :: i <= ps[j] && GroupeEntre(s, ps[j], qs[j], open, close)
                                   && gs[j] == s[ps[j] + 1..qs[j]]
  }

  ghost predicate Croissants(ps: seq<nat>) {
    forall j, k | 0 <= j < k < |ps| :: ps[j] < ps[k]
  }

  /** Every match that starts at `i` or later opens at one of `ps`. */
  ghost predicate Complets(s: string, i: nat, open: char, close: char, ps: seq<nat>) {
    forall p, q | i <= p && GroupeEntre(s, p, q, open, close) :: p in ps
  }

  /**
    `gs` are exactly the matches of `open([^open close]+)close` that start at
    `i` or later, in the order of their positions, as `re.findall` returns
    them: `ps` and `qs` hold their opening and closing brackets.
  */
  ghost predicate Exacts(s: string, i: nat, open: char, close: char, gs: seq<string>, ps: seq<nat>, qs: seq<nat>) {
    Places(s, i, open, close, gs, ps, qs) && Croissants(ps) && Complets(s, i, open, close, ps)
  }

  lemma ExactsFin(s: string, open: char, close: char)
    ensures Exacts(s, |s|, open, close, [], [], [])
  {
  }

  /** No match starts at `i`: the matches from `i` on are those from `i + 1` on. */
  lemma ExactsSaut(s: string, i: nat, open: char, close: char, gs: seq<string>, ps: seq<nat>, qs: seq<nat>)
    requires Exacts(s, i + 1, open, close, gs, ps, qs)
    requires forall q | 0 <= q :: !GroupeEntre(s, i, q, open, close)
    ensures Exacts(s, i, open, close, gs, ps, qs)
  {
  }

  lemma PlacesGroupe(s: string, i: nat, j: nat, open: char, close: char, gs: seq<string>, ps: seq<nat>, qs: seq<nat>)
    requires GroupeEntre(s, i, j, open, close) && Places(s, j + 1, open, close, gs, ps, qs)
    ensures Places(s, i, open, close, [s[i + 1..j]] + gs, [i] + ps, [j] + qs)
  {
    var gs2, ps2, qs2 := [s[i + 1..j]] + gs, [i] + ps, [j] + qs;
    forall k | 0 <= k < |ps2|
      ensures i <= ps2[k] && GroupeEntre(s, ps2[k], qs2[k], open, close) && gs2[k] == s[ps2[k] + 1..qs2[k]]
    {
      if k > 0 {
        assert ps2[k] == ps[k - 1] && qs2[k] == qs[k - 1] && gs2[k] == gs[k - 1];
      }
    }
  }

  lemma CroissantsGroupe(i: nat, ps: seq<nat>)
    requires Croissants(ps) && forall k | 0 <= k < |ps| :: i < ps[k]
    ensures Croissants([i] + ps)
  {
    var ps2 := [i] + ps;
    forall k, l | 0 <= k < l < |ps2| ensures ps2[k] < ps2[l] {
      assert ps2[l] == ps[l - 1];
      if k > 0 {
        assert ps2[k] == ps[k - 1];
      }
    }
  }

  lemma CompletsGroupe(s: string, i: nat, j: nat, open: char, close: char, ps: seq<nat>)
    requires open != close && GroupeEntre(s, i, j, open, close) && Complets(s, j + 1, open, close, ps)
    ensures Complets(s, i, open, close, [i] + ps)
  {
    assert forall m | i < m <= j :: s[m] != open;
  }

  /** A match from `i` to `j` comes first, before the matches from `j + 1` on. */
  lemma ExactsGroupe(s: string, i: nat, j: nat, open: char, close: char, gs: seq<string>, ps: seq<nat>, qs: seq<nat>)
    requires open != close && GroupeEntre(s, i, j, open, close)
    requires Exacts(s, j + 1, open, close, gs, ps, qs)
    ensures Exacts(s, i, open, close, [s[i + 1..j]] + gs, [i] + ps, [j] + qs)
  {
    PlacesGroupe(s, i, j, open, close, gs, ps, qs);
    CroissantsGroupe(i, ps);
    CompletsGroupe(s, i, j, open, close, ps);
  }

  /** The first bracket from `i` on is at `k` when there is one at `k` and none before it. */
  lemma NextBracketAt(s: string, i: nat, open: char, close: char, k: nat)
    requires i <= k <= |s| && (k == |s| || s[k] == open || s[k] == close)
    requires forall m | i <= m < k :: s[m] != open && s[m] != close
    ensures NextBracket(s, i, open, close) == k
  {
  }

  /** A match that opens at `i` closes at the first bracket after `i`. */
  lemma PremierCrochet(s: string, i: nat, open: char, close: char)
    requires i < |s|
    ensures forall q | GroupeEntre(s, i, q, open, close) :: NextBracket(s, i + 1, open, close) == q
  {
    forall q | GroupeEntre(s, i, q, open, close) ensures NextBracket(s, i + 1, open, close) == q {
      NextBracketAt(s, i + 1, open, close, q);
    }
  }

  /**
    `Groups` returns exactly the matches that start at `i` or later, in the
    order of their positions, as `re.findall` does.
  */
  lemma {:induction false} GroupsExacts(s: string, i: nat, open: char, close: char) returns (ps: seq<nat>, qs: seq<nat>)
    requires i <= |s| && open != close
    ensures Exacts(s, i, open, close, Groups(s, i, open, close), ps, qs)
    decreases |s| - i
  {
    if i == |s| {
      ps, qs := [], [];
      ExactsFin(s, open, close);
    } else {
      var j := NextBracket(s, i + 1, open, close);
      if s[i] == open && j < |s| && s[j] == close && j > i + 1 {
        var ps', qs' := GroupsExacts(s, j + 1, open, close);
        GroupsPasGroupe(s, i, j, open, close, ps', qs');
        ps, qs := [i] + ps', [j] + qs';
      } else {
        ps, qs := GroupsExacts(s, i + 1, open, close);
        GroupsPasSaut(s, i, open, close, ps, qs);
      }
    }
  }

  /** A match opens at `i`: it comes first, before the matches after it. */
  lemma GroupsPasGroupe(s: string, i: nat, j: nat, open: char, close: char, ps: seq<nat>, qs: seq<nat>)
    requires i < |s| && open != close && j == NextBracket(s, i + 1, open, close)
    requires s[i] == open && j < |s| && s[j] == close && j > i + 1
    requires Exacts(s, j + 1, open, close, Groups(s, j + 1, open, close), ps, qs)
    ensures Exacts(s, i, open, close, Groups(s, i, open, close), [i] + ps, [j] + qs)
  {
    assert GroupeEntre(s, i, j, open, close);
    ExactsGroupe(s, i, j, open, close, Groups(s, j + 1, open, close), ps, qs);
  }

  /** No match opens at `i`: the matches from `i` on are those from `i + 1` on. */
  lemma GroupsPasSaut(s: string, i: nat, open: char, close: char, ps: seq<nat>, qs: seq<nat>)
    requires i < |s| && open != close
    requires var j := NextBracket(s, i + 1, open, close); !(s[i] == open && j < |s| && s[j] == close && j > i + 1)
    requires Exacts(s, i + 1, open, close, Groups(s, i + 1, open, close), ps, qs)
    ensures Exacts(s, i, open, close, Groups(s, i, open, close), ps, qs)
  {
    assert Groups(s, i, open, close) == Groups(s, i + 1, open, close);
    PremierCrochet(s, i, open, close);
    ExactsSaut(s, i, open, close, Groups(s, i, open, close), ps, qs);
  }

  /** Each group returned is non-empty, free of brackets, and found bracketed in `s`. */
  lemma GroupsSains(s: string, open: char, close: char)
    requires open != close
    ensures forall g | g in Groups(s, 0, open, close) ::
      |g| > 0 && open !in g && close !in g && Contains(s, [open] + g + [close])
  {
    var gs := Groups(s, 0, open, close);
    var ps, qs := GroupsExacts(s, 0, open, close);
    assert Places(s, 0, open, close, gs, ps, qs);
    forall g | g in gs ensures |g| > 0 && open !in g && close !in g && Contains(s, [open] + g + [close]) {
      var j :| 0 <= j < |gs| && gs[j] == g;
      GroupeContenu(s, ps[j], qs[j], open, close);
    }
  }

  /** The text of one match is non-empty, free of brackets, and found bracketed in `s`. */
  lemma GroupeContenu(s: string, p: nat, q: nat, open: char, close: char)
    requires GroupeEntre(s, p, q, open, close)
    ensures var g := s[p + 1..q];
      |g| > 0 && open !in g && close !in g && Contains(s, [open] + g + [close])
  {
    var g := s[p + 1..q];
    assert forall m | 0 <= m < |g| :: g[m] == s[p + 1 + m];
    assert s[p..q + 1] == [open] + g + [close];
    assert OccursAt(s, [open] + g + [close], p);
  }

  /** A title followed by one more group yields its own groups, then that group. */
  lemma {:induction false} GroupsSuivi(a: string, g: string, i: nat, open: char, close: char)
    requires i <= |a| && open != close && |g| > 0 && open !in g && close !in g
    ensures Groups(a + [open] + g + [close], i, open, close) == Groups(a, i, open, close) + [g]
    decreases |a| - i
  {
    var s := a + [open] + g + [close];
    if i == |a| {
      GroupsSuiviFin(a, g, open, close);
    } else {
      var n, h := GroupsSuiviPas(a, g, i, open, close);
      GroupsSuivi(a, g, n, open, close);
      assert Groups(s, i, open, close) == h + (Groups(a, n, open, close) + [g]);
    }
  }

  /** The group appended at the end of a title is its last match. */
  lemma GroupsSuiviFin(a: string, g: string, open: char, close: char)
    requires open != close && |g| > 0 && open !in g && close !in g
    ensures Groups(a + [open] + g + [close], |a|, open, close) == [g]
  {
    var s := a + [open] + g + [close];
    assert s[|a|] == open && s[|a| + |g| + 1] == close && s[|a| + 1..|a| + |g| + 1] == g;
    forall m | |a| + 1 <= m < |a| + |g| + 1 ensures s[m] != open && s[m] != close {
      assert s[m] == g[m - |a| - 1];
    }
    NextBracketAt(s, |a| + 1, open, close, |a| + |g| + 1);
    assert Groups(s, |a| + |g| + 2, open, close) == [];
  }

  /**
    One step of the scan at an index `i` inside the title: the title alone and
    the title followed by a group yield the same matches `h` there, and both
    resume at `n`.
  */
  lemma GroupsSuiviPas(a: string, g: string, i: nat, open: char, close: char) returns (n: nat, h: seq<string>)
    requires i < |a| && open != close
    ensures i < n <= |a|
    ensures Groups(a + [open] + g + [close], i, open, close) == h + Groups(a + [open] + g + [close], n, open, close)
    ensures Groups(a, i, open, close) == h + Groups(a, n, open, close)
  {
    var s := a + [open] + g + [close];
    assert s[i] == a[i];
    if a[i] == open {
      var j := NextBracket(a, i + 1, open, close);
      if j < |a| {
        n, h := GroupsSuiviOuvrant(a, g, i, j, open, close);
      } else {
        NextBracketAt(s, i + 1, open, close, |a|);
        assert s[|a|] == open;
        n, h := i + 1, [];
      }
    } else {
      n, h := i + 1, [];
    }
  }

  /** The step of `GroupsSuiviPas` at an opening bracket whose next bracket lies inside the title. */
  lemma GroupsSuiviOuvrant(a: string, g: string, i: nat, j: nat, open: char, close: char) returns (n: nat, h: seq<string>)
    requires i < j < |a| && open != close && a[i] == open && j == NextBracket(a, i + 1, open, close)
    ensures i < n <= |a|
    ensures Groups(a + [open] + g + [close], i, open, close) == h + Groups(a + [open] + g + [close], n, open, close)
    ensures Groups(a, i, open, close) == h + Groups(a, n, open, close)
  {
    var s := a + [open] + g + [close];
    assert s[i] == open && s[j] == a[j];
    NextBracketAt(s, i + 1, open, close, j);
    if a[j] == close && j > i + 1 {
      assert s[i + 1..j] == a[i + 1..j];
      n, h := j + 1, [a[i + 1..j]];
    } else {
      n, h := i + 1, [];
    }
  }

  /** `$` matches at the end and before a final newline. */
  function DropFinalNewline(m: string): string {
    if |m| > 0 && m[|m| - 1] == '\n' then m[..|m| - 1] else m
  }

  /** A bracketed group that names a volume rather than a publisher: a number, 完/上/下/前編/後編, or 第N集. */
  predicate EstIndicateurVolume(m: string) {
    var b := DropFinalNewline(m);
    (|b| > 0 && AllDigits(b))
    || m in ["完", "上", "下", "前編", "後編"]
    || (|b| >= 3 && b[0] == '第' && b[|b| - 1] == '集' && AllDigits(b[1..|b| - 1]))
  }

  /** The last element of `ms` that `keep` accepts. */
  function DernierTel(ms: seq<string>, keep: string -> bool): (r: Option<string>)
    ensures r.Some? ==> exists i | 0 <= i < |ms| :: ms[i] == r.value && keep(ms[i])
                          && forall j | i < j < |ms| :: !keep(ms[j])
    ensures r.None? ==> forall j | 0 <= j < |ms| :: !keep(ms[j])
    decreases |ms|
  {
    if ms == [] then None
    else if keep(ms[|ms| - 1]) then Some(ms[|ms| - 1])
    else
      var r := DernierTel(ms[..|ms| - 1], keep);
      assert forall j | 0 <= j < |ms| - 1 :: ms[..|ms| - 1][j] == ms[j];
      r
  }

  predicate EstNomEditeur(m: string) { !EstIndicateurVolume(m) }

  /**
    The publisher named in a title: the last half-width bracketed group that is
    not a volume indicator, or, when the title has no half-width group, the
    last such full-width group.
  */
  function ExtraireEditeur(titre: string): (r: Option<string>)
    ensures titre == [] ==> r.None?
    ensures r.Some? ==> |r.value| > 0 && !EstIndicateurVolume(r.value)
    ensures r.Some? ==> Contains(titre, "(" + r.value + ")") || Contains(titre, "（" + r.value + "）")
    ensures titre != [] ==>
      var demi := Groups(titre, 0, '(', ')');
      var gs := if demi != [] then demi else Groups(titre, 0, '（', '）');
      (r.None? <==> forall j | 0 <= j < |gs| :: EstIndicateurVolume(gs[j]))
      && (r.Some? ==> exists j | 0 <= j < |gs| :: gs[j] == r.value
                        && forall k | j < k < |gs| :: EstIndicateurVolume(gs[k]))
  {
    if titre == [] then None
    else
      var demi := Groups(titre, 0, '(', ')');
      var groupes := if demi != [] then demi else Groups(titre, 0, '（', '）');
      var r := DernierTel(groupes, EstNomEditeur);
      if r.Some? then
        GroupsSains(titre, '(', ')');
        GroupsSains(titre, '（', '）');
        assert r.value in groupes;
        r
      else None
  }

  /** In "title (n) (publisher)" form, the last group names the publisher. */
  lemma ExtraireEditeurDernierGroupe(titre: string, editeur: string)
    requires |editeur| > 0 && '(' !in editeur && ')' !in editeur && !EstIndicateurVolume(editeur)
    ensures ExtraireEditeur(titre + "(" + editeur + ")") == Some(editeur)
  {
    var t := titre + "(" + editeur + ")";
    assert t == titre + ['('] + editeur + [')'];
    GroupsSuivi(titre, editeur, 0, '(', ')');
  }

  /** A volume-number group after the last one changes nothing, as long as the title has half-width groups. */
  lemma ExtraireEditeurIgnoreIndicateur(titre: string, n: string)
    requires Groups(titre, 0, '(', ')') != []
    requires |n| > 0 && '(' !in n && ')' !in n && EstIndicateurVolume(n)
    ensures ExtraireEditeur(titre + "(" + n + ")") == ExtraireEditeur(titre)
  {
    var t := titre + "(" + n + ")";
    assert t == titre + ['('] + n + [')'];
    GroupsSuivi(titre, n, 0, '(', ')');
    var gs := Groups(titre, 0, '(', ')');
    assert (gs + [n])[..|gs|] == gs;
  }

  // ---- ASINs and URLs

  predicate IsAsciiAlnum(c: char) { ('A' <= c <= 'Z') || ('a' <= c <= 'z') || ('0' <= c <= '9') }

  predicate IsUpperAlnum(c: char) { ('A' <= c <= 'Z') || ('0' <= c <= '9') }

  /** `/dp/([A-Za-z0-9]{10})` matches at `k`. */
  predicate DpAt(s: string, k: nat) {
    OccursAt(s, "/dp/", k) && k + 14 <= |s| && forall m | k + 4 <= m < k + 14 :: IsAsciiAlnum(s[m])
  }

  /** `/dp/([A-Z0-9]{10})` matches at `k`. */
  predicate DpUpperAt(s: string, k: nat) {
    OccursAt(s, "/dp/", k) && k + 14 <= |s| && forall m | k + 4 <= m < k + 14 :: IsUpperAlnum(s[m])
  }

  /** The ASIN of a product URL, or "?" when it has none. */
  function ExtraireAsin(url: string): (r: string)
    ensures r == "?" || (|r| == 10 && (forall i | 0 <= i < 10 :: IsAsciiAlnum(r[i])) && Contains(url, "/dp/" + r))
    ensures r == "?" <==> forall k | 0 <= k < |url| :: !DpAt(url, k)
    ensures r != "?" ==> exists k | 0 <= k < |url| :: DpAt(url, k) && (forall m | 0 <= m < k :: !DpAt(url, m))
                           && r == url[k + 4..k + 14]
  {
    match FindFirst(url, 0, DpAt)
    case None => "?"
    case Some(k) =>
      var a := url[k + 4..k + 14];
      assert url[k..k + 14] == "/dp/" + a by { assert url[k..k + 4] == "/dp/"; }
      assert OccursAt(url, "/dp/" + a, k);
      assert a[0] != '?';
      a
  }

  const AmazonDp: string := "https://www.amazon.co.jp/dp/"

  /** A product URL in canonical form: the Amazon Japan product page of its upper-case ASIN. */
  function NormaliserUrl(url: string): (r: string)
    ensures r == url || exists a :: r == AmazonDp + a && |a| == 10 && Contains(url, "/dp/" + a)
    ensures (forall k | 0 <= k < |url| :: !DpUpperAt(url, k)) ==> r == url
    ensures (exists k | 0 <= k < |url| :: DpUpperAt(url, k)) ==>
      exists k | 0 <= k < |url| :: DpUpperAt(url, k) && (forall m | 0 <= m < k :: !DpUpperAt(url, m))
                                   && r == AmazonDp + url[k + 4..k + 14]
  {
    match FindFirst(url, 0, DpUpperAt)
    case None => url
    case Some(k) =>
      var a := url[k + 4..k + 14];
      assert url[k..k + 14] == "/dp/" + a by { assert url[k..k + 4] == "/dp/"; }
      assert OccursAt(url, "/dp/" + a, k);
      AmazonDp + a
  }

  /** The Amazon Japan prefix holds no `/d` pair before its final `/dp/`. */
  lemma AmazonDpSansDp()
    ensures forall k | 0 <= k < 24 :: AmazonDp[k] != '/' || AmazonDp[k + 1] != 'd'
  {
  }

  /** In a canonical product URL, no `/dp/` starts before the one before the ASIN. */
  lemma PasDeDpAvant(a: string)
    ensures forall k | 0 <= k < 24 :: !OccursAt(AmazonDp + a, "/dp/", k)
  {
    var s := AmazonDp + a;
    AmazonDpSansDp();
    forall k | 0 <= k < 24 ensures !OccursAt(s, "/dp/", k) {
      assert s[k] == AmazonDp[k] && s[k + 1] == AmazonDp[k + 1];
      assert s[k..k + 4][0] == s[k] && s[k..k + 4][1] == s[k + 1];
    }
  }

  /** In a canonical product URL, the first `/dp/` is the one before the ASIN. */
  lemma DpInCanonicalUrl(a: string)
    requires |a| == 10 && forall i | 0 <= i < 10 :: IsUpperAlnum(a[i])
    ensures FindFirst(AmazonDp + a, 0, DpUpperAt) == Some(24)
    ensures FindFirst(AmazonDp + a, 0, DpAt) == Some(24)
    ensures (AmazonDp + a)[28..38] == a
  {
    var s := AmazonDp + a;
    assert |AmazonDp| == 28;
    assert s[24..28] == "/dp/";
    PasDeDpAvant(a);
    assert DpUpperAt(s, 24);
    FindFirstAt(s, 0, DpUpperAt, 24);
    assert DpAt(s, 24);
    FindFirstAt(s, 0, DpAt, 24);
  }

  /** Normalising a URL twice changes nothing more than normalising it once. */
  lemma {:induction false} NormaliserUrlIdempotent(url: string)
    ensures NormaliserUrl(NormaliserUrl(url)) == NormaliserUrl(url)
  {
    match FindFirst(url, 0, DpUpperAt)
    case None =>
    case Some(k) =>
      var a := AsinNormalise(url, k);
      NormaliserUrlCanonique(a);
  }

  /** Where the first `/dp/` followed by ten upper-case letters or digits is at `k`, the URL normalises to those ten. */
  lemma AsinNormalise(url: string, k: nat) returns (a: string)
    requires FindFirst(url, 0, DpUpperAt) == Some(k)
    ensures |a| == 10 && (forall i | 0 <= i < 10 :: IsUpperAlnum(a[i])) && NormaliserUrl(url) == AmazonDp + a
  {
    a := url[k + 4..k + 14];
    assert DpUpperAt(url, k);
    forall i | 0 <= i < 10 ensures IsUpperAlnum(a[i]) {
      assert a[i] == url[k + 4 + i];
    }
  }

  /** A canonical product URL is already normalised. */
  lemma NormaliserUrlCanonique(a: string)
    requires |a| == 10 && forall i | 0 <= i < 10 :: IsUpperAlnum(a[i])
    ensures NormaliserUrl(AmazonDp + a) == AmazonDp + a
  {
    DpInCanonicalUrl(a);
  }

  /** The ASIN read back from a canonical URL is the one it was built from. */
  lemma ExtraireAsinOfCanonicalUrl(a: string)
    requires |a| == 10 && forall i | 0 <= i < 10 :: IsUpperAlnum(a[i])
    ensures ExtraireAsin(AmazonDp + a) == a
  {
    DpInCanonicalUrl(a);
  }

  /** The group of the first `/dp/([A-Z0-9]{10})` match, as the callers that read a reference ASIN from a URL take it. */
  function AsinDp(s: string): (r: Option<string>)
    ensures r.None? <==> forall k | 0 <= k < |s| :: !DpUpperAt(s, k)
    ensures r.Some? ==> |r.value| == 10 && (forall i | 0 <= i < 10 :: IsUpperAlnum(r.value[i]))
                        && Contains(s, "/dp/" + r.value)
    ensures r.Some? ==> exists k | 0 <= k < |s| :: DpUpperAt(s, k) && (forall m | 0 <= m < k :: !DpUpperAt(s, m))
                          && r.value == s[k + 4..k + 14]
  {
    match FindFirst(s, 0, DpUpperAt)
    case None => None
    case Some(k) =>
      var a := s[k + 4..k + 14];
      assert s[k..k + 14] == "/dp/" + a by { assert s[k..k + 4] == "/dp/"; }
      assert OccursAt(s, "/dp/" + a, k);
      Some(a)
  }

  /** The ASIN read back from a canonical product URL is the one it was built from. */
  lemma AsinDpOfCanonicalUrl(a: string)
    requires |a| == 10 && forall i | 0 <= i < 10 :: IsUpperAlnum(a[i])
    ensures AsinDp(AmazonDp + a) == Some(a)
  {
    DpInCanonicalUrl(a);
  }

  /** Paper editions have ASINs that start with a digit (an ISBN); e-books and sets start with B. */
  predicate EstAsinPapier(asin: string) {
    asin != [] && asin != "?" && IsDigit(asin[0])
  }

  /** The "?" placeholder needs no test of its own: it does not start with a digit. */
  lemma EstAsinPapierByFirstChar(asin: string)
    ensures EstAsinPapier(asin) <==> |asin| > 0 && IsDigit(asin[0])
  {
    if asin == "?" { assert asin[0] == '?'; }
  }

  const MarqueursEbook: seq<string> := ["Kindle版", "kindle版", "電子書籍", "ebook", "Ebook", "eBook"]

  /** A search result is an e-book when its URL says so or its title carries an e-book marker. */
  predicate EstEbook(url: string, titre: string) {
    Contains(url, "/ebook/dp/") || Contains(url, "-ebook/dp/") || Contains(Lower(url), "kindle")
    || exists i | 0 <= i < |MarqueursEbook| :: Contains(titre, MarqueursEbook[i])
  }

  /** Text around `s` keeps every occurrence found in `s`. */
  lemma ContainsEntoure(a: string, s: string, b: string, t: string)
    requires Contains(s, t)
    ensures Contains(a + s + b, t)
  {
    var x := a + s + b;
    assert x[|a|..|a| + |s|] == s;
    ContainsWithin(x, |a|, |a| + |s|, t);
  }

  /** More text around the URL or the title never turns an e-book result into a paper one. */
  lemma EstEbookEntoure(url: string, titre: string, u1: string, u2: string, t1: string, t2: string)
    requires EstEbook(url, titre)
    ensures EstEbook(u1 + url + u2, t1 + titre + t2)
  {
    if Contains(url, "/ebook/dp/") {
      ContainsEntoure(u1, url, u2, "/ebook/dp/");
    } else if Contains(url, "-ebook/dp/") {
      ContainsEntoure(u1, url, u2, "-ebook/dp/");
    } else if Contains(Lower(url), "kindle") {
      assert Lower(u1 + url + u2) == Lower(u1) + Lower(url) + Lower(u2);
      ContainsEntoure(Lower(u1), Lower(url), Lower(u2), "kindle");
    } else {
      var i :| 0 <= i < |MarqueursEbook| && Contains(titre, MarqueursEbook[i]);
      ContainsEntoure(t1, titre, t2, MarqueursEbook[i]);
    }
  }

  /** The ASINs marked off-topic by hand are never considered. */
  predicate EstAsinHorsSujetManuel(asin: string, horsSujet: set<string>) {
    asin in horsSujet
  }
}
