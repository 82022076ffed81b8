/**
  Volume numbers read from Amazon titles (`extraire_numero_tome`) and the
  gap analysis over the numbers found (`analyser_tomes_manquants`).

  Each pattern of the cascade is a predicate `…At(s, k)` saying that the
  pattern matches at index `k`, written out from the regular expression
  (greedy quantifiers and their back-tracking included); the rule's value is
  read at the leftmost such index, found by `Text.FindFirst`.
*/
module Tome {
  import opened Wrappers
  import opened Text

  /** A volume number, or the marker 'FIN' that 完結編 yields. */
  datatype TomeValue = Number(n: nat) | Fin

  /** The class `_JP`: hiragana, katakana, CJK ideographs, ー, 々 and 〆. */
  predicate IsJp(c: char) {
    ('ぁ' <= c <= 'ん') || ('ァ' <= c <= 'ヿ') || ('一' <= c <= '龯')
    || c == 'ー' || c == '々' || c == '〆'
  }

  predicate IsOpenParen(c: char) { c == '(' || c == '（' }

  predicate IsCloseParen(c: char) { c == ')' || c == '）' }

  /** `int()` of the run of digits starting at `j`. */
  function RunValue(s: string, j: nat): nat
    requires j <= |s|
  {
    var e := RunEnd(s, j);
    assert AllDigits(s[j..e]) by {
      forall m | 0 <= m < e - j ensures IsDigit(s[j..e][m]) { assert s[j..e][m] == s[j + m]; }
    }
    DigitsValue(s[j..e])
  }

  /** `\d{1,2}` at `j` followed by something other than a digit: the run there has one or two digits. */
  predicate ShortRun(s: string, j: nat) {
    j <= |s| && 1 <= RunEnd(s, j) - j <= 2
  }

  lemma ShortRunValue(s: string, j: nat)
    requires ShortRun(s, j)
    ensures RunValue(s, j) <= 99
  {
    var e := RunEnd(s, j);
    assert Pow10(|s[j..e]|) <= 100;
  }

  // ---- 1. 第X巻 / 第X集 : `第\s*(\d+)\s*[巻集]`

  predicate FormalAt(s: string, k: nat) {
    k < |s| && s[k] == '第'
    && (var j := SpaceEnd(s, k + 1);
        var e := RunEnd(s, j);
        var f := SpaceEnd(s, e);
        j < e && f < |s| && (s[f] == '巻' || s[f] == '集'))
  }

  function Formal(s: string): Option<nat> {
    match FindFirst(s, 0, FormalAt)
    case None => None
    case Some(k) => Some(RunValue(s, SpaceEnd(s, k + 1)))
  }

  // ---- 2. X巻 : `0*(\d+)\s*巻`, skipped when the title holds 巻セット

  predicate KanAt(s: string, k: nat) {
    k < |s| && IsDigit(s[k])
    && (var f := SpaceEnd(s, RunEnd(s, k)); f < |s| && s[f] == '巻')
  }

  function Kan(s: string): Option<nat> {
    if Contains(s, "巻セット") then None
    else match FindFirst(s, 0, KanAt)
      case None => None
      case Some(k) => Some(RunValue(s, k))
  }

  // ---- 3. (X) / （X） : `[（(]\s*0*(\d+)\s*[)）]`

  predicate ParenAt(s: string, k: nat) {
    k < |s| && IsOpenParen(s[k])
    && (var j := SpaceEnd(s, k + 1);
        var e := RunEnd(s, j);
        var f := SpaceEnd(s, e);
        j < e && f < |s| && IsCloseParen(s[f]))
  }

  function Paren(s: string): Option<nat> {
    match FindFirst(s, 0, ParenAt)
    case None => None
    case Some(k) => Some(RunValue(s, SpaceEnd(s, k + 1)))
  }

  // ---- 4. X（完） : `[\s　](\d{1,2})[（(]完[)）]`

  predicate CompleteAt(s: string, k: nat) {
    k < |s| && IsSpace(s[k]) && ShortRun(s, k + 1)
    && (var e := RunEnd(s, k + 1);
        e + 2 < |s| && IsOpenParen(s[e]) && s[e + 1] == '完' && IsCloseParen(s[e + 2]))
  }

  function Complete(s: string): (r: Option<nat>)
    ensures r.Some? ==> r.value <= 99
  {
    match FindFirst(s, 0, CompleteAt)
    case None => None
    case Some(k) =>
      ShortRunValue(s, k + 1);
      Some(RunValue(s, k + 1))
  }

  // ---- 5. Vol.X / Volume X : `vol(?:ume)?\.?\s*0*(\d+)`, ignoring case

  /** Index after `vol`, the optional `ume` and the optional `.`. */
  function VolNumberStart(s: string, k: nat): (j: nat)
    requires k + 3 <= |s|
    ensures k + 3 <= j <= |s|
  {
    var a := if k + 6 <= |s| && Lower(s[k + 3..k + 6]) == "ume" then k + 6 else k + 3;
    if a < |s| && s[a] == '.' then a + 1 else a
  }

  predicate VolAt(s: string, k: nat) {
    k + 3 <= |s| && Lower(s[k..k + 3]) == "vol"
    && (var j := SpaceEnd(s, VolNumberStart(s, k)); j < |s| && IsDigit(s[j]))
  }

  function Vol(s: string): Option<nat> {
    match FindFirst(s, 0, VolAt)
    case None => None
    case Some(k) => Some(RunValue(s, SpaceEnd(s, VolNumberStart(s, k))))
  }

  // ---- 6. and 7. Roman and kanji numerals, tried in table order

  const ChiffresRomains: seq<(string, nat)> :=
    [("XV", 15), ("XIV", 14), ("XIII", 13), ("XII", 12), ("XI", 11),
     ("VIII", 8), ("VII", 7), ("IX", 9), ("X", 10),
     ("IV", 4), ("VI", 6), ("V", 5),
     ("III", 3), ("II", 2), ("I", 1)]

  const ChiffresKanji: seq<(string, nat)> :=
    [("二十", 20), ("十九", 19), ("十八", 18), ("十七", 17), ("十六", 16),
     ("十五", 15), ("十四", 14), ("十三", 13), ("十二", 12), ("十一", 11),
     ("十", 10), ("九", 9), ("八", 8), ("七", 7), ("六", 6),
     ("五", 5), ("四", 4), ("三", 3), ("二", 2), ("一", 1)]

  /** What may follow a roman numeral besides white space and the end: `[)）]|巻`. */
  const RomanClosers: set<char> := {')', '）', '巻'}

  /** What may follow a kanji numeral besides white space and the end: `[)）(（]|巻`. */
  const KanjiClosers: set<char> := {')', '）', '(', '（', '巻'}

  /** `\s` + `w` + `(\s|$|closers)` at `k`. */
  predicate WordAt(s: string, w: string, closers: set<char>, k: nat) {
    k < |s| && IsSpace(s[k]) && OccursAt(s, w, k + 1)
    && (k + 1 + |w| == |s| || IsSpace(s[k + 1 + |w|]) || s[k + 1 + |w|] in closers)
  }

  predicate HasWord(s: string, w: string, closers: set<char>) {
    exists k: nat | k < |s| :: WordAt(s, w, closers, k)
  }

  /** The value of the first numeral of `table`, from entry `i` on, that stands as a word in `s`. */
  function FirstNumeral(s: string, table: seq<(string, nat)>, closers: set<char>, i: nat): (r: Option<nat>)
    requires i <= |table|
    ensures r.Some? ==> exists m | i <= m < |table| :: table[m].1 == r.value && HasWord(s, table[m].0, closers)
                                                     && forall p | i <= p < m :: !HasWord(s, table[p].0, closers)
    ensures r.None? ==> forall m | i <= m < |table| :: !HasWord(s, table[m].0, closers)
    decreases |table| - i
  {
    if i == |table| then None
    else if HasWord(s, table[i].0, closers) then Some(table[i].1)
    else FirstNumeral(s, table, closers, i + 1)
  }

  // ---- 8. 上/下/前/後/完結 markers

  predicate BracketedAt(s: string, c: char, k: nat) {
    k + 3 <= |s| && IsOpenParen(s[k]) && s[k + 1] == c && IsCloseParen(s[k + 2])
  }

  predicate HasBracketed(s: string, c: char) {
    exists k: nat | k < |s| :: BracketedAt(s, c, k)
  }

  /** A first-half marker: (上), 上巻 or 前編. */
  predicate MarqueDebut(s: string) {
    HasBracketed(s, '上') || Contains(s, "上巻") || Contains(s, "前編")
  }

  /** A second-half marker: (下), 下巻 or 後編. */
  predicate MarqueFin(s: string) {
    HasBracketed(s, '下') || Contains(s, "下巻") || Contains(s, "後編")
  }

  /**
    The special markers in table order: a half marker gives 1 or 2, a first-half
    one winning only over a later entry, and 完結編 gives the final volume only
    when no half marker is present.
  */
  function Special(s: string): (r: Option<TomeValue>)
    ensures r.None? <==> !MarqueDebut(s) && !MarqueFin(s) && !Contains(s, "完結編")
    ensures r == Some(Fin) <==> !MarqueDebut(s) && !MarqueFin(s) && Contains(s, "完結編")
    ensures MarqueDebut(s) && !MarqueFin(s) ==> r == Some(Number(1))
    ensures MarqueFin(s) && !MarqueDebut(s) ==> r == Some(Number(2))
    ensures MarqueDebut(s) || MarqueFin(s) ==> r == Some(Number(1)) || r == Some(Number(2))
    ensures HasBracketed(s, '上') ==> r == Some(Number(1))
  {
    if HasBracketed(s, '上') then Some(Number(1))
    else if HasBracketed(s, '下') then Some(Number(2))
    else if Contains(s, "上巻") then Some(Number(1))
    else if Contains(s, "下巻") then Some(Number(2))
    else if Contains(s, "前編") then Some(Number(1))
    else if Contains(s, "後編") then Some(Number(2))
    else if Contains(s, "完結編") then Some(Fin)
    else None
  }

  // ---- 9. " X (" : `\s(\d+)\s+[（(]`

  predicate SpacedParenAt(s: string, k: nat) {
    k < |s| && IsSpace(s[k])
    && (var e := RunEnd(s, k + 1);
        k + 1 < e && e < |s| && IsSpace(s[e])
        && (var f := SpaceEnd(s, e); f < |s| && IsOpenParen(s[f])))
  }

  function SpacedParen(s: string): Option<nat> {
    match FindFirst(s, 0, SpacedParenAt)
    case None => None
    case Some(k) => Some(RunValue(s, k + 1))
  }

  // ---- 10. "-X" / "−X" : `[\s　]?[-−]\s*(\d{1,2})(?:\s|$|[（(])`
  // The optional leading space moves where the match starts, never which dash it uses.

  predicate DashAt(s: string, k: nat) {
    k < |s| && (s[k] == '-' || s[k] == '−')
    && (var j := SpaceEnd(s, k + 1);
        ShortRun(s, j)
        && (var e := RunEnd(s, j); e == |s| || IsSpace(s[e]) || IsOpenParen(s[e])))
  }

  function Dash(s: string): (r: Option<nat>)
    ensures r.Some? ==> r.value <= 99
  {
    match FindFirst(s, 0, DashAt)
    case None => None
    case Some(k) =>
      ShortRunValue(s, SpaceEnd(s, k + 1));
      Some(RunValue(s, SpaceEnd(s, k + 1)))
  }

  // ---- 11. number glued to a Japanese word : `_JP(\d{1,2})\s+\S`

  predicate JpGlueAt(s: string, k: nat) {
    k < |s| && IsJp(s[k]) && ShortRun(s, k + 1)
    && (var e := RunEnd(s, k + 1); e < |s| && IsSpace(s[e]) && SpaceEnd(s, e) < |s|)
  }

  function JpGlue(s: string): (r: Option<nat>)
    ensures r.Some? ==> r.value <= 99
  {
    match FindFirst(s, 0, JpGlueAt)
    case None => None
    case Some(k) =>
      ShortRunValue(s, k + 1);
      Some(RunValue(s, k + 1))
  }

  // ---- 12. number between Japanese words : `_JP\s+(\d{1,2})\s+_JP`, kept when at most 50
  // Only the first match is weighed: a larger number there ends the rule.

  predicate JpSpacedAt(s: string, k: nat) {
    k + 1 < |s| && IsJp(s[k]) && IsSpace(s[k + 1])
    && (var j := SpaceEnd(s, k + 1);
        ShortRun(s, j)
        && (var e := RunEnd(s, j);
            e < |s| && IsSpace(s[e])
            && (var f := SpaceEnd(s, e); f < |s| && IsJp(s[f]))))
  }

  function JpSpaced(s: string): (r: Option<nat>)
    ensures r.Some? ==> r.value <= 50
  {
    match FindFirst(s, 0, JpSpacedAt)
    case None => None
    case Some(k) =>
      var v := RunValue(s, SpaceEnd(s, k + 1));
      if v <= 50 then Some(v) else None
  }

  // ---- 13. number ending the title : `[\s　](\d{1,2})\s*$`

  predicate TrailingAt(s: string, k: nat) {
    k < |s| && IsSpace(s[k]) && ShortRun(s, k + 1) && SpaceEnd(s, RunEnd(s, k + 1)) == |s|
  }

  function Trailing(s: string): (r: Option<nat>)
    ensures r.Some? ==> r.value <= 99
  {
    match FindFirst(s, 0, TrailingAt)
    case None => None
    case Some(k) =>
      ShortRunValue(s, k + 1);
      Some(RunValue(s, k + 1))
  }

  // ---- 14. last resort : `(?<![0-9])(\d{1,2})(?![0-9])` after the first ten characters

  predicate TwoDigitsAt(t: string, i: nat) {
    i + 1 < |t| && IsDigit(t[i + 1]) && (i + 2 == |t| || !IsAsciiDigit(t[i + 2]))
  }

  predicate OneDigitAt(t: string, i: nat) {
    i + 1 == |t| || (i + 1 < |t| && !IsAsciiDigit(t[i + 1]))
  }

  /** The pattern matches at `i`; the look-behind sees nothing before index 0 of `t`. */
  predicate IsolatedAt(t: string, i: nat) {
    i < |t| && IsDigit(t[i]) && (i == 0 || !IsAsciiDigit(t[i - 1]))
    && (TwoDigitsAt(t, i) || OneDigitAt(t, i))
  }

  /** The greedy `\d{1,2}` takes two digits when the look-ahead allows it. */
  function IsolatedValue(t: string, i: nat): (v: nat)
    requires IsolatedAt(t, i)
    ensures v <= 99
  {
    if TwoDigitsAt(t, i) then DigitValue(t[i]) * 10 + DigitValue(t[i + 1]) else DigitValue(t[i])
  }

  /** The rule as written: the pattern is searched in the slice `titre[10:]`. */
  function LastResortAsWritten(s: string): (r: Option<nat>)
    ensures r.Some? ==> |s| > 10 && r.value <= 50
  {
    if |s| <= 10 then None
    else
      var t := s[10..];
      match FindFirst(t, 0, IsolatedAt)
      case None => None
      case Some(i) => if IsolatedValue(t, i) <= 50 then Some(IsolatedValue(t, i)) else None
  }

  /**
    The rule as intended: the search starts at index 10 of the title itself, so
    the look-behind sees the tenth character (Python's `pattern.search(titre, 10)`).
  */
  function LastResort(s: string): (r: Option<nat>)
    ensures r.Some? ==> |s| > 10 && r.value <= 50
  {
    if |s| <= 10 then None
    else
      match FindFirst(s, 10, IsolatedAt)
      case None => None
      case Some(i) => if IsolatedValue(s, i) <= 50 then Some(IsolatedValue(s, i)) else None
  }

  /** `s[j]` to `s[k]`, both included, are ASCII digits. */
  predicate DigitRun(s: string, j: nat, k: nat) {
    j <= k < |s| && forall m | j <= m <= k :: IsAsciiDigit(s[m])
  }

  /**
    The intended rule ignores large numbers such as 9004: the digits it
    reads start at index 10 or later, belong to no run of ASCII digits
    that begins before index 10, and to no run of three or more digits.
  */
  lemma LastResortReadsWholeNumbers(s: string)
    requires LastResort(s).Some?
    ensures exists i | 10 <= i < |s| :: IsolatedAt(s, i) && LastResort(s).value == IsolatedValue(s, i)
              && (forall j | 0 <= j < 10 :: !DigitRun(s, j, i)) && !DigitRun(s, i, i + 2)
  {
    var i := FindFirst(s, 10, IsolatedAt).value;
    forall j | 0 <= j < 10
      ensures !DigitRun(s, j, i)
    {
      assert j <= i - 1 && !IsAsciiDigit(s[i - 1]);
    }
  }

  /** The title a finding is about: a 4-digit code across index 10. */
  const CodeAcrossTen: string := "ABCDEFGH9004"

  /** As written, the rule returns 4 from the code 9004 of `CodeAcrossTen`; as intended it returns nothing. */
  lemma LastResortSplitsCode()
    ensures LastResortAsWritten(CodeAcrossTen) == Some(4)
    ensures LastResort(CodeAcrossTen) == None
  {
    var s := CodeAcrossTen;
    var t := s[10..];
    assert t == "04";
    assert IsolatedAt(t, 0) && TwoDigitsAt(t, 0);
    assert FindFirst(t, 0, IsolatedAt) == Some(0);
    assert !IsolatedAt(s, 10) && !IsolatedAt(s, 11);
    assert FindFirst(s, 12, IsolatedAt) == None;
    assert FindFirst(s, 11, IsolatedAt) == None;
    assert FindFirst(s, 10, IsolatedAt) == None;
  }

  // ---- the cascade

  function Num(o: Option<nat>): (r: Option<TomeValue>)
    ensures r.Some? <==> o.Some?
    ensures r.Some? ==> r.value == Number(o.value)
  {
    if o.Some? then Some(Number(o.value)) else None
  }

  /** The seven numeric rules `extraire_numero_tome` tries before the special words, in order. */
  function RulesAvant(t: string): seq<Option<nat>> {
    [Formal(t), Kan(t), Paren(t), Complete(t), Vol(t),
     FirstNumeral(t, ChiffresRomains, RomanClosers, 0),
     FirstNumeral(t, ChiffresKanji, KanjiClosers, 0)]
  }

  /** The six numeric rules tried after the special words, in order. */
  function RulesApres(t: string): seq<Option<nat>> {
    [SpacedParen(t), Dash(t), JpGlue(t), JpSpaced(t), Trailing(t), LastResort(t)]
  }

  /** The first rule from index `i` on that yields a number. */
  function FirstSome(rs: seq<Option<nat>>, i: nat): (r: Option<nat>)
    requires i <= |rs|
    ensures r.Some? ==> exists m | i <= m < |rs| :: rs[m] == r && forall p | i <= p < m :: rs[p].None?
    ensures r.None? ==> forall m | i <= m < |rs| :: rs[m].None?
    decreases |rs| - i
  {
    if i == |rs| then None else if rs[i].Some? then rs[i] else FirstSome(rs, i + 1)
  }

  /** The fourteen rules in order: the first that yields something decides. */
  function ExtraireNumeroTome(titre: string): (r: Option<TomeValue>)
    ensures titre == [] ==> r.None?
    ensures r == Some(Fin) ==> Contains(titre, "完結編")
  {
    if titre == [] then None
    else match FirstSome(RulesAvant(titre), 0)
      case Some(n) => Some(Number(n))
      case None => if Special(titre).Some? then Special(titre) else Num(FirstSome(RulesApres(titre), 0))
  }

  /** The first rule that yields a number decides: `Formal` is tried before all others. */
  lemma FormalFirst(t: string, v: nat)
    requires Formal(t) == Some(v)
    ensures ExtraireNumeroTome(t) == Some(Number(v))
  {
    assert t != [];
    assert RulesAvant(t)[0] == Some(v);
  }

  lemma RunEndAt(s: string, i: nat, n: nat)
    requires i + n <= |s| && forall m | i <= m < i + n :: IsDigit(s[m])
    requires i + n == |s| || !IsDigit(s[i + n])
    ensures RunEnd(s, i) == i + n
  {
  }

  lemma DigitsInSlice(s: string, i: nat, j: nat)
    requires i <= j <= |s| && AllDigits(s[i..j])
    ensures forall m | i <= m < j :: IsDigit(s[m])
  {
    forall m | i <= m < j ensures IsDigit(s[m]) {
      assert s[m] == s[i..j][m - i];
    }
  }

  lemma RunValueTo(s: string, j: nat, e: nat)
    requires j <= e <= |s| && RunEnd(s, j) == e && AllDigits(s[j..e])
    ensures RunValue(s, j) == DigitsValue(s[j..e])
  {
  }

  lemma FormalDe(s: string, k: nat, v: nat)
    requires FindFirst(s, 0, FormalAt) == Some(k) && k < |s| && RunValue(s, SpaceEnd(s, k + 1)) == v
    ensures Formal(s) == Some(v)
  {
  }

  lemma FormalAtDigits(s: string, k: nat, n: nat)
    requires k + 1 + n < |s| && s[k] == '第' && s[k + 1 + n] == '巻' && n > 0
    requires forall m | k + 1 <= m < k + 1 + n :: IsDigit(s[m])
    ensures SpaceEnd(s, k + 1) == k + 1 && RunEnd(s, k + 1) == k + 1 + n
    ensures FormalAt(s, k)
  {
    assert !IsSpace(s[k + 1]);
    RunEndAt(s, k + 1, n);
    assert SpaceEnd(s, k + 1 + n) == k + 1 + n;
  }

  lemma FormalFindsFirst(s: string, k: nat)
    requires FormalAt(s, k) && forall m | 0 <= m < k :: s[m] != '第'
    ensures FindFirst(s, 0, FormalAt) == Some(k)
  {
  }

  /** Where 第, digits and 巻 stand at `k` and no 第 comes before, `Formal` reads those digits. */
  lemma FormalAtMarker(s: string, k: nat, ds: string)
    requires k + 1 + |ds| < |s| && s[k] == '第' && s[k + 1..k + 1 + |ds|] == ds && s[k + 1 + |ds|] == '巻'
    requires |ds| > 0 && AllDigits(ds)
    requires forall m | 0 <= m < k :: s[m] != '第'
    ensures Formal(s) == Some(DigitsValue(ds))
  {
    var e := k + 1 + |ds|;
    DigitsInSlice(s, k + 1, e);
    FormalAtDigits(s, k, |ds|);
    FormalFindsFirst(s, k);
    RunValueTo(s, k + 1, e);
    assert SpaceEnd(s, k + 1) == k + 1;
    assert s[k + 1..e] == ds;
    assert RunValue(s, k + 1) == DigitsValue(ds);
    FormalDe(s, k, DigitsValue(ds));
  }

  /**
    The formal 第X巻 wins over every later rule: wherever 第, digits and 巻
    stand with no 第 before them, the title yields those digits, whatever
    follows (a trailing " 7", say).
  */
  lemma FormalMarkerWins(s: string, k: nat, ds: string)
    requires k + 1 + |ds| < |s| && s[k] == '第' && s[k + 1..k + 1 + |ds|] == ds && s[k + 1 + |ds|] == '巻'
    requires |ds| > 0 && AllDigits(ds)
    requires forall m | 0 <= m < k :: s[m] != '第'
    ensures ExtraireNumeroTome(s) == Some(Number(DigitsValue(ds)))
  {
    FormalAtMarker(s, k, ds);
    FormalFirst(s, DigitsValue(ds));
  }

  /** A run of four ASCII digits, such as 9004, offers the last-resort rule no match inside it. */
  lemma NoMatchInsideLongNumber(t: string, i: nat)
    requires i + 4 <= |t| && forall m | i <= m < i + 4 :: IsAsciiDigit(t[m])
    ensures forall m | i <= m < i + 4 :: !IsolatedAt(t, m)
  {
  }

  // ---- missing volumes

  /** A `tome` entry of a volume record: absent, an integer, or a text. */
  datatype TomeField = Missing | IntTome(i: int) | TextTome(s: string)

  /** `tome and str(tome).isdigit()` and then `int(tome)`. */
  function NumericTome(t: TomeField): Option<nat> {
    match t
    case Missing => None
    case IntTome(i) => if i > 0 then Some(i) else None
    case TextTome(s) => if s != [] && AllDigits(s) then Some(DigitsValue(s)) else None
  }

  ghost function NumericTomes(vols: seq<TomeField>): set<nat> {
    set i | 0 <= i < |vols| && NumericTome(vols[i]).Some? :: NumericTome(vols[i]).value
  }

  datatype Analyse = Analyse(
    tomesTrouves: set<nat>,
    tomeMax: nat,
    tomesManquants: set<nat>,
    nbTomesAttendus: nat,
    complet: bool)

  /** Python's `max()` over a non-empty set. */
  method MaxOf(s: set<nat>) returns (m: nat)
    requires s != {}
    ensures m in s && forall x | x in s :: x <= m
  {
    var rest := s;
    var x :| x in rest;
    m := x;
    rest := rest - {x};
    while rest != {}
      invariant rest <= s && m in s
      invariant forall y | y in s && y !in rest :: y <= m
      decreases |rest|
    {
      var y :| y in rest;
      if y > m { m := y; }
      rest := rest - {y};
    }
  }

  method AnalyserTomesManquants(vols: seq<TomeField>) returns (r: Analyse)
    ensures r.tomesTrouves == NumericTomes(vols)
    ensures r.tomesTrouves == {} ==> r.tomeMax == 0
    ensures r.tomesTrouves != {} ==> r.tomeMax in r.tomesTrouves
    ensures forall n | n in r.tomesTrouves :: n <= r.tomeMax
    ensures forall n :: n in r.tomesManquants <==> 1 <= n <= r.tomeMax && n !in r.tomesTrouves
    ensures r.nbTomesAttendus == r.tomeMax
    ensures r.complet <==> forall n | 1 <= n <= r.tomeMax :: n in r.tomesTrouves
  {
    var trouves: set<nat> := {};
    var i := 0;
    while i < |vols|
      invariant i <= |vols|
      invariant trouves == NumericTomes(vols[..i])
    {
      var t := NumericTome(vols[i]);
      if t.Some? {
        trouves := trouves + {t.value};
      }
      assert vols[..i + 1][..i] == vols[..i];
      i := i + 1;
    }
    assert vols[..i] == vols;
    if trouves == {} {
      return Analyse({}, 0, {}, 0, true);
    }
    var m := MaxOf(trouves);
    var manquants := set n: nat | 1 <= n <= m && n !in trouves;
    r := Analyse(trouves, m, manquants, m, |manquants| == 0);
    if !r.complet {
      var n :| n in manquants;
    }
  }
}
