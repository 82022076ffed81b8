/**
  `normaliser_titre`: the canonical spelling of a title used to compare titles.
  Character by character it folds full-width forms to ASCII, Greek capitals and
  small letters that look Latin to their Latin twins, dash-like characters to
  `-` and full-width punctuation to ASCII; then it replaces hiragana spellings of
  common pronouns by their kanji, and finally collapses white space.
*/
module Titre {
  import opened Text

  // ---- character folding

  predicate IsAscii(c: char) { c < '\U{80}' }

  /** The part of NFKC the model covers: the full-width ASCII block and the ideographic space. */
  function Nfkc(c: char): (r: char)
    ensures r == c || IsAscii(r)
    ensures IsAscii(c) ==> r == c
  {
    if '\U{FF01}' <= c <= '\U{FF5E}' then (c as int - 0xFEE0) as char
    else if c == '\U{3000}' then ' '
    else c
  }

  /** Greek letters that look like Latin ones, as their Latin twins. */
  function GrecVersLatin(c: char): (r: char)
    ensures r == c || IsAscii(r)
    ensures IsAscii(c) ==> r == c
  {
    match c
    case 'Α' => 'A' case 'Β' => 'B' case 'Ε' => 'E' case 'Ζ' => 'Z' case 'Η' => 'H'
    case 'Ι' => 'I' case 'Κ' => 'K' case 'Μ' => 'M' case 'Ν' => 'N' case 'Ο' => 'O'
    case 'Ρ' => 'P' case 'Τ' => 'T' case 'Υ' => 'Y' case 'Χ' => 'X'
    case 'α' => 'a' case 'β' => 'b' case 'ε' => 'e' case 'ζ' => 'z' case 'η' => 'h'
    case 'ι' => 'i' case 'κ' => 'k' case 'μ' => 'm' case 'ν' => 'n' case 'ο' => 'o'
    case 'ρ' => 'p' case 'τ' => 't' case 'υ' => 'y' case 'χ' => 'x'
    case _ => c
  }

  /** Dash-like characters as `-`; the long-vowel mark ー is not one of them. */
  function Tiret(c: char): (r: char)
    ensures r == c || IsAscii(r)
    ensures IsAscii(c) ==> r == c
  {
    if c in {'―', '─', '—', '–', '−', '〜', '～'} then '-' else c
  }

  /** Full-width punctuation as ASCII. */
  function Ponctuation(c: char): (r: char)
    ensures r == c || IsAscii(r)
    ensures IsAscii(c) ==> r == c
  {
    match c
    case '！' => '!' case '？' => '?' case '（' => '(' case '）' => ')'
    case '：' => ':' case '；' => ';' case '，' => ',' case '。' => '.'
    case _ => c
  }

  /** The four character-for-character passes, in the order they run. */
  function FoldChar(c: char): (r: char)
    ensures r == c || IsAscii(r)
    ensures IsAscii(c) ==> r == c
  {
    Ponctuation(Tiret(GrecVersLatin(Nfkc(c))))
  }

  /** A folded character folds to itself. */
  lemma FoldCharIdempotent(c: char)
    ensures FoldChar(FoldChar(c)) == FoldChar(c)
  {
  }

  /** Full-width letters and digits read as their ASCII counterparts, Greek look-alikes as Latin letters. */
  lemma FoldCharExamples()
    ensures FoldChar('Ａ') == 'A' && FoldChar('９') == '9' && FoldChar('Ο') == 'O'
    ensures FoldChar('〜') == '-' && FoldChar('。') == '.' && FoldChar('ー') == 'ー'
  {
  }

  /** Every full-width ASCII form folds to the ASCII character it stands for. */
  lemma FoldCharPleineChasse(c: char)
    requires '\U{FF01}' <= c <= '\U{FF5E}'
    ensures FoldChar(c) as int == c as int - 0xFEE0 && IsAscii(FoldChar(c))
  {
  }

  predicate Folded(s: string) {
    forall c | c in s :: FoldChar(c) == c
  }

  /** The folding passes over a whole text: ASCII is kept, and nothing in the result folds further. */
  function Fold(s: string): (r: string)
    ensures |r| == |s| && Folded(r)
    ensures forall i | 0 <= i < |s| :: IsAscii(s[i]) ==> r[i] == s[i]
    ensures forall i | 0 <= i < |s| :: r[i] == s[i] || IsAscii(r[i])
  {
    seq(|s|, i requires 0 <= i < |s| => FoldChar(s[i]))
  }

  // ---- pronoun spellings

  /** Hiragana spellings and the kanji that replace them, applied in this order. */
  const Equivalences: seq<(string, string)> := [
    ("わたし", "私"), ("わたしの", "私の"), ("ぼく", "僕"),
    ("おれ", "俺"), ("かれ", "彼"), ("かのじょ", "彼女")
  ]

  function Equivalents(s: string): string {
    var s1 := ReplaceAll(s, "わたし", "私");
    var s2 := ReplaceAll(s1, "わたしの", "私の");
    var s3 := ReplaceAll(s2, "ぼく", "僕");
    var s4 := ReplaceAll(s3, "おれ", "俺");
    var s5 := ReplaceAll(s4, "かれ", "彼");
    ReplaceAll(s5, "かのじょ", "彼女")
  }

  predicate SansHiraganaEquivalent(s: string) {
    !Contains(s, "わたし") && !Contains(s, "わたしの") && !Contains(s, "ぼく")
    && !Contains(s, "おれ") && !Contains(s, "かれ") && !Contains(s, "かのじょ")
  }

  // ---- white space

  /** End of the run of non-space characters that starts at `i`. */
  function WordEnd(s: string, i: nat): (k: nat)
    requires i <= |s|
    ensures i <= k <= |s|
    ensures forall j | i <= j < k :: !IsSpace(s[j])
    ensures k == |s| || IsSpace(s[k])
    decreases |s| - i
  {
    if i < |s| && !IsSpace(s[i]) then WordEnd(s, i + 1) else i
  }

  predicate IsWord(w: string) {
    |w| > 0 && forall i | 0 <= i < |w| :: !IsSpace(w[i])
  }

  /** `s.split()`: the maximal runs of non-space characters, in order. */
  function Words(s: string): (ws: seq<string>)
    ensures forall w | w in ws :: IsWord(w) && forall c | c in w :: c in s
    decreases |s|
  {
    if s == [] then []
    else if IsSpace(s[0]) then Words(s[1..])
    else
      var b := WordEnd(s, 0);
      [s[..b]] + Words(s[b..])
  }

  /** `' '.join(ws)`. */
  function Join(ws: seq<string>): (r: string)
    ensures forall c | c in r :: c == ' ' || exists w | w in ws :: c in w
  {
    if ws == [] then []
    else if |ws| == 1 then ws[0]
    else ws[0] + " " + Join(ws[1..])
  }

  /** `' '.join(s.split())`. */
  function Collapse(s: string): string {
    Join(Words(s))
  }

  /** Splitting joined words gives the words back. */
  lemma {:induction false} WordsOfJoin(ws: seq<string>)
    requires forall w | w in ws :: IsWord(w)
    ensures Words(Join(ws)) == ws
    decreases |ws|
  {
    if ws == [] {
    } else if |ws| == 1 {
      var w := ws[0];
      assert w + [] == w;
      WordEndOfWord(w, [], 0);
      assert w[..|w|] == w && w[|w|..] == [];
    } else {
      var w := ws[0];
      var rest := Join(ws[1..]);
      var s := w + " " + rest;
      assert Join(ws) == s;
      WordEndOfWord(w, " " + rest, 0);
      assert s[..|w|] == w;
      assert s[|w|..] == " " + rest;
      assert (" " + rest)[1..] == rest;
      WordsOfJoin(ws[1..]);
      assert [w] + ws[1..] == ws;
    }
  }

  /** The run of non-space characters starting inside a word ends with the word. */
  lemma {:induction false} WordEndOfWord(w: string, tail: string, i: nat)
    requires IsWord(w) && i <= |w|
    requires tail == [] || IsSpace(tail[0])
    ensures WordEnd(w + tail, i) == |w|
    decreases |w| - i
  {
    if i < |w| {
      WordEndOfWord(w, tail, i + 1);
    }
  }

  /** A string without spaces occurs in joined words only inside one of the words. */
  lemma {:induction false} ContainsInJoin(ws: seq<string>, p: string)
    requires |p| > 0 && forall i | 0 <= i < |p| :: !IsSpace(p[i])
    requires forall w | w in ws :: !Contains(w, p)
    ensures !Contains(Join(ws), p)
    decreases |ws|
  {
    if |ws| > 1 {
      var w := ws[0];
      var rest := Join(ws[1..]);
      var s := Join(ws);
      assert s == w + " " + rest;
      ContainsInJoin(ws[1..], p);
      assert w in ws;
      forall i: nat | i <= |s| ensures !OccursAt(s, p, i) {
        if i + |p| <= |w| {
          assert s[i..i + |p|] == w[i..i + |p|];
          assert !OccursAt(w, p, i);
        } else if i <= |w| && i + |p| <= |s| {
          assert s[i..i + |p|][|w| - i] == s[|w|] == ' ';
        } else if i + |p| <= |s| {
          assert s[i..i + |p|] == rest[i - |w| - 1..i - |w| - 1 + |p|];
          assert !OccursAt(rest, p, i - |w| - 1);
        }
      }
    }
  }

  /** A word of `s` is a part of `s`: what `s` does not contain, no word contains. */
  lemma {:induction false} WordsAvoid(s: string, p: string)
    requires !Contains(s, p)
    ensures forall w | w in Words(s) :: !Contains(w, p)
    decreases |s|
  {
    if s != [] {
      if IsSpace(s[0]) {
        ContainsInSuffix(s, 1, p);
        WordsAvoid(s[1..], p);
      } else {
        var b := WordEnd(s, 0);
        ContainsInSuffix(s, b, p);
        WordsAvoid(s[b..], p);
        if Contains(s[..b], p) {
          ContainsWithin(s, 0, b, p);
        }
        assert s[..b] == s[0..b];
      }
    }
  }

  /** Collapsing white space creates no occurrence of a space-free string. */
  lemma CollapseAvoids(s: string, p: string)
    requires |p| > 0 && forall i | 0 <= i < |p| :: !IsSpace(p[i])
    requires !Contains(s, p)
    ensures !Contains(Collapse(s), p)
  {
    WordsAvoid(s, p);
    ContainsInJoin(Words(s), p);
  }

  /** Joined words neither start nor end with white space, and each space in them is one `' '` between two words. */
  lemma {:induction false} JoinTrimmed(ws: seq<string>)
    requires forall w | w in ws :: IsWord(w)
    ensures var r := Join(ws); |r| == 0 || (!IsSpace(r[0]) && !IsSpace(r[|r| - 1]))
    ensures var r := Join(ws); forall i | 0 <= i < |r| && IsSpace(r[i]) :: r[i] == ' ' && i + 1 < |r| && !IsSpace(r[i + 1])
    ensures |Join(ws)| == 0 <==> ws == []
    decreases |ws|
  {
    if |ws| > 1 {
      JoinTrimmed(ws[1..]);
      var w := ws[0];
      var rest := Join(ws[1..]);
      var r := Join(ws);
      assert r == w + " " + rest;
      assert w in ws && ws[1] in ws;
      forall i | 0 <= i < |r| && IsSpace(r[i]) ensures r[i] == ' ' && i + 1 < |r| && !IsSpace(r[i + 1]) {
        if i > |w| {
          assert r[i] == rest[i - |w| - 1];
          assert r[i + 1] == rest[i - |w|];
        }
      }
    } else if |ws| == 1 {
      assert ws[0] in ws;
    }
  }

  lemma StripOfTrimmed(r: string)
    requires |r| == 0 || (!IsSpace(r[0]) && !IsSpace(r[|r| - 1]))
    ensures Strip(r) == r
  {
    assert TrimStart(r) == r;
  }

  // ---- the whole normalisation

  /** The canonical spelling of a title. */
  function NormaliserTitre(texte: string): (r: string)
    ensures |r| == 0 || (!IsSpace(r[0]) && !IsSpace(r[|r| - 1]))
    ensures forall i | 0 <= i < |r| && IsSpace(r[i]) :: r[i] == ' ' && i + 1 < |r| && !IsSpace(r[i + 1])
  {
    var c := Collapse(Equivalents(Fold(texte)));
    JoinTrimmed(Words(Equivalents(Fold(texte))));
    StripOfTrimmed(c);
    Strip(c)
  }

  /** The characters the pronoun replacements bring in. */
  const KanjiEquivalents: string := "私の僕俺彼女"

  lemma EquivalentsChars(s: string, c: char)
    requires c in Equivalents(s)
    ensures c in s || c in KanjiEquivalents
  {
    var s1 := ReplaceAll(s, "わたし", "私");
    var s2 := ReplaceAll(s1, "わたしの", "私の");
    var s3 := ReplaceAll(s2, "ぼく", "僕");
    var s4 := ReplaceAll(s3, "おれ", "俺");
    var s5 := ReplaceAll(s4, "かれ", "彼");
    ReplaceAllChars(s5, "かのじょ", "彼女", c);
    if c in s5 {
      ReplaceAllChars(s4, "かれ", "彼", c);
      if c in s4 {
        ReplaceAllChars(s3, "おれ", "俺", c);
        if c in s3 {
          ReplaceAllChars(s2, "ぼく", "僕", c);
          if c in s2 {
            ReplaceAllChars(s1, "わたしの", "私の", c);
            if c in s1 {
              ReplaceAllChars(s, "わたし", "私", c);
            }
          }
        }
      }
    }
  }

  /** After the replacements no hiragana spelling is left, whatever the input. */
  lemma EquivalentsLeaveNone(s: string)
    ensures SansHiraganaEquivalent(Equivalents(s))
  {
    var s1 := ReplaceAll(s, "わたし", "私");
    ReplaceAllLeavesNo(s, "わたし", "私", "わたし");
    ContainsPrefixOf(s1, "わたしの", 3);
    assert "わたしの"[..3] == "わたし";
    ReplaceAllAbsent(s1, "わたしの", "私の");
    var s2 := s1;
    var s3 := ReplaceAll(s2, "ぼく", "僕");
    ReplaceAllLeavesNo(s2, "ぼく", "僕", "ぼく");
    ReplaceAllLeavesNo(s2, "ぼく", "僕", "わたし");
    ReplaceAllLeavesNo(s2, "ぼく", "僕", "わたしの");
    var s4 := ReplaceAll(s3, "おれ", "俺");
    ReplaceAllLeavesNo(s3, "おれ", "俺", "おれ");
    ReplaceAllLeavesNo(s3, "おれ", "俺", "ぼく");
    ReplaceAllLeavesNo(s3, "おれ", "俺", "わたし");
    ReplaceAllLeavesNo(s3, "おれ", "俺", "わたしの");
    var s5 := ReplaceAll(s4, "かれ", "彼");
    ReplaceAllLeavesNo(s4, "かれ", "彼", "かれ");
    ReplaceAllLeavesNo(s4, "かれ", "彼", "おれ");
    ReplaceAllLeavesNo(s4, "かれ", "彼", "ぼく");
    ReplaceAllLeavesNo(s4, "かれ", "彼", "わたし");
    ReplaceAllLeavesNo(s4, "かれ", "彼", "わたしの");
    ReplaceAllLeavesNo(s5, "かのじょ", "彼女", "かのじょ");
    ReplaceAllLeavesNo(s5, "かのじょ", "彼女", "かれ");
    ReplaceAllLeavesNo(s5, "かのじょ", "彼女", "おれ");
    ReplaceAllLeavesNo(s5, "かのじょ", "彼女", "ぼく");
    ReplaceAllLeavesNo(s5, "かのじょ", "彼女", "わたし");
    ReplaceAllLeavesNo(s5, "かのじょ", "彼女", "わたしの");
  }

  /** A text without hiragana spellings goes through the replacements unchanged. */
  lemma EquivalentsOfClean(s: string)
    requires SansHiraganaEquivalent(s)
    ensures Equivalents(s) == s
  {
    ReplaceAllAbsent(s, "わたし", "私");
    ReplaceAllAbsent(s, "わたしの", "私の");
    ReplaceAllAbsent(s, "ぼく", "僕");
    ReplaceAllAbsent(s, "おれ", "俺");
    ReplaceAllAbsent(s, "かれ", "彼");
    ReplaceAllAbsent(s, "かのじょ", "彼女");
  }

  /** Collapsing white space keeps a text free of hiragana spellings. */
  lemma CollapseKeepsClean(s: string)
    requires SansHiraganaEquivalent(s)
    ensures SansHiraganaEquivalent(Collapse(s))
  {
    CollapseAvoids(s, "わたし");
    CollapseAvoids(s, "わたしの");
    CollapseAvoids(s, "ぼく");
    CollapseAvoids(s, "おれ");
    CollapseAvoids(s, "かれ");
    CollapseAvoids(s, "かのじょ");
  }

  /** A normalised title is a `' '.join` of the words of the folded, replaced text. */
  lemma NormaliserTitreIsJoin(texte: string)
    ensures NormaliserTitre(texte) == Join(Words(Equivalents(Fold(texte))))
  {
    var ws := Words(Equivalents(Fold(texte)));
    JoinTrimmed(ws);
    StripOfTrimmed(Join(ws));
  }

  lemma CollapseChars(s: string, c: char)
    requires c in Collapse(s)
    ensures c == ' ' || c in s
  {
  }

  lemma FoldCharOfKanji(c: char)
    requires c in KanjiEquivalents
    ensures FoldChar(c) == c
  {
  }

  /** Every character of a normalised title is already folded. */
  lemma NormaliserTitreFolded(texte: string)
    ensures Fold(NormaliserTitre(texte)) == NormaliserTitre(texte)
  {
    var f := Fold(texte);
    var e := Equivalents(f);
    var n := NormaliserTitre(texte);
    NormaliserTitreIsJoin(texte);
    forall i | 0 <= i < |n| ensures FoldChar(n[i]) == n[i] {
      var c := n[i];
      assert c in Collapse(e);
      CollapseChars(e, c);
      if c != ' ' {
        EquivalentsChars(f, c);
        if c in f {
          var j :| 0 <= j < |f| && f[j] == c;
          FoldCharIdempotent(texte[j]);
        } else {
          FoldCharOfKanji(c);
        }
      }
    }
  }

  /** Normalising a normalised title changes nothing: titles can be compared after one pass. */
  lemma NormaliserTitreIdempotent(texte: string)
    ensures NormaliserTitre(NormaliserTitre(texte)) == NormaliserTitre(texte)
  {
    var e := Equivalents(Fold(texte));
    var ws := Words(e);
    var n := NormaliserTitre(texte);
    NormaliserTitreIsJoin(texte);
    NormaliserTitreFolded(texte);
    EquivalentsLeaveNone(Fold(texte));
    CollapseKeepsClean(e);
    EquivalentsOfClean(n);
    WordsOfJoin(ws);
    assert Equivalents(Fold(n)) == n;
    JoinTrimmed(ws);
    StripOfTrimmed(n);
  }
}
