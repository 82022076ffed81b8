/**
  Character classes and string operations with the meaning Python gives them in
  the tracker: the `\d` and `\s` classes of its regular expressions, `t in s`,
  `str.strip`, `str.replace`, `str.lower`, `str(n)` and `int(s)`, and the
  leftmost-position rule by which `re.search` picks its match.
*/
module Text {
  import opened Wrappers

  /** Python's `\d`, restricted to the digits titles carry: ASCII and full-width. */
  predicate IsDigit(c: char) { ('0' <= c <= '9') || ('\U{FF10}' <= c <= '\U{FF19}') }

  /** The `[0-9]` class used by look-around assertions. */
  predicate IsAsciiDigit(c: char) { '0' <= c <= '9' }

  function DigitValue(c: char): (v: nat)
    requires IsDigit(c)
    ensures v <= 9
  {
    if '0' <= c <= '9' then c as int - '0' as int else c as int - '\U{FF10}' as int
  }

  /** Python's `\s` and `str.isspace()`. */
  predicate IsSpace(c: char) {
    ('\t' <= c <= '\r') || ('\U{1C}' <= c <= ' ') || c == '\U{85}' || c == '\U{A0}'
    || c == '\U{1680}' || ('\U{2000}' <= c <= '\U{200A}') || c == '\U{2028}'
    || c == '\U{2029}' || c == '\U{202F}' || c == '\U{205F}' || c == '\U{3000}'
  }

  /** `t` occurs in `s` starting at index `i`. */
  predicate OccursAt(s: string, t: string, i: nat) {
    i + |t| <= |s| && s[i..i + |t|] == t
  }

  /** Python's `t in s` on strings. */
  predicate Contains(s: string, t: string) {
    exists i: nat | i <= |s| :: OccursAt(s, t, i)
  }

  predicate EndsWith(s: string, t: string) {
    |t| <= |s| && s[|s| - |t|..] == t
  }

  lemma ContainsSelf(s: string)
    ensures Contains(s, s)
  {
    assert OccursAt(s, s, 0);
  }

  /** A pattern occurs in `s` whenever it occurs in a part of `s`. */
  lemma ContainsWithin(s: string, i: nat, j: nat, t: string)
    requires i <= j <= |s| && Contains(s[i..j], t)
    ensures Contains(s, t)
  {
    var u := s[i..j];
    var k: nat :| k <= |u| && OccursAt(u, t, k);
    assert k + |t| <= j - i;
    forall m | 0 <= m < |t| ensures s[i + k + m] == t[m] {
      assert u[k..k + |t|][m] == u[k + m] == s[i + k + m];
    }
    assert s[i + k..i + k + |t|] == t;
    assert OccursAt(s, t, i + k);
  }

  /** A pattern found in a part found in `s` is found in `s`. */
  lemma ContainsTrans(s: string, t: string, u: string)
    ensures Contains(s, t) && Contains(t, u) ==> Contains(s, u)
  {
    if Contains(s, t) && Contains(t, u) {
      var k: nat :| k <= |s| && OccursAt(s, t, k);
      ContainsWithin(s, k, k + |t|, u);
    }
  }

  function LowerChar(c: char): char {
    if 'A' <= c <= 'Z' then (c as int + 32) as char else c
  }

  /** `str.lower()` on the ASCII letters; other characters are kept. */
  function Lower(s: string): (r: string)
    ensures |r| == |s|
    ensures forall i | 0 <= i < |r| :: !('A' <= r[i] <= 'Z')
    ensures forall i | 0 <= i < |s| :: !('A' <= s[i] <= 'Z') ==> r[i] == s[i]
    ensures forall i | 0 <= i < |s| :: 'A' <= s[i] <= 'Z' ==> r[i] as int == s[i] as int + 32
  {
    seq(|s|, i requires 0 <= i < |s| => LowerChar(s[i]))
  }

  /** Lower-casing a lower-cased string changes nothing. */
  lemma LowerIdempotent(s: string)
    ensures Lower(Lower(s)) == Lower(s)
  {
  }

  /** Lower-casing keeps every occurrence. */
  lemma ContainsLower(s: string, t: string)
    ensures Contains(s, t) ==> Contains(Lower(s), Lower(t))
  {
    if Contains(s, t) {
      var k: nat :| k <= |s| && OccursAt(s, t, k);
      assert Lower(s)[k..k + |t|] == Lower(t) by {
        forall m | 0 <= m < |t| ensures Lower(s)[k + m] == Lower(t)[m] {
          assert s[k..k + |t|][m] == s[k + m];
        }
      }
      assert OccursAt(Lower(s), Lower(t), k);
    }
  }

  /** Every character of `s` outside `drop`, in order: a chain of `s.replace(c, '')`. */
  function Remove(s: string, drop: set<char>): (r: string)
    ensures forall i | 0 <= i < |r| :: r[i] !in drop
    decreases |s|
  {
    if s == [] then []
    else if s[0] in drop then Remove(s[1..], drop)
    else [s[0]] + Remove(s[1..], drop)
  }

  /** Every character outside the dropped set is kept as many times as it occurs. */
  lemma {:induction false} RemoveGarde(s: string, drop: set<char>)
    ensures forall c | c !in drop :: multiset(Remove(s, drop))[c] == multiset(s)[c]
    decreases |s|
  {
    if s != [] {
      RemoveGarde(s[1..], drop);
      assert s == [s[0]] + s[1..];
    }
  }

  /** Removing from a concatenation removes from each part and keeps them in order. */
  lemma {:induction false} RemoveConcat(a: string, b: string, drop: set<char>)
    ensures Remove(a + b, drop) == Remove(a, drop) + Remove(b, drop)
    decreases |a|
  {
    if a != [] {
      var x := a + b;
      var h := if a[0] in drop then [] else [a[0]];
      assert x != [] && x[0] == a[0] && x[1..] == a[1..] + b;
      RemoveConcat(a[1..], b, drop);
      assert Remove(x, drop) == h + Remove(x[1..], drop);
      assert Remove(a, drop) == h + Remove(a[1..], drop);
    } else {
      assert a + b == b;
    }
  }

  /** Nothing to remove leaves the string as it is. */
  lemma {:induction false} RemoveNothing(s: string, drop: set<char>)
    requires forall i | 0 <= i < |s| :: s[i] !in drop
    ensures Remove(s, drop) == s
    decreases |s|
  {
    if s != [] {
      RemoveNothing(s[1..], drop);
    }
  }

  function TrimStart(s: string): (r: string)
    decreases |s|
  {
    if |s| > 0 && IsSpace(s[0]) then TrimStart(s[1..]) else s
  }

  function TrimEnd(s: string): (r: string)
    decreases |s|
  {
    if |s| > 0 && IsSpace(s[|s| - 1]) then TrimEnd(s[..|s| - 1]) else s
  }

  /** `str.strip()` with no argument. */
  function Strip(s: string): string {
    TrimEnd(TrimStart(s))
  }

  /** A string with no blank at either end is its own `strip()`. */
  lemma StripNothing(s: string)
    requires s != [] ==> !IsSpace(s[0]) && !IsSpace(s[|s| - 1])
    ensures Strip(s) == s
  {
  }

  /** `s.replace(pat, rep)`: every leftmost, non-overlapping occurrence, scanning left to right. */
  function ReplaceAll(s: string, pat: string, rep: string): string
    requires |pat| > 0
    decreases |s|
  {
    if |s| < |pat| then s
    else if pat <= s then rep + ReplaceAll(s[|pat|..], pat, rep)
    else [s[0]] + ReplaceAll(s[1..], pat, rep)
  }

  /** An occurrence in a suffix is an occurrence in the whole string. */
  lemma ContainsInSuffix(s: string, i: nat, t: string)
    requires i <= |s|
    ensures Contains(s[i..], t) ==> Contains(s, t)
  {
    if Contains(s[i..], t) {
      assert s[i..] == s[i..|s|];
      ContainsWithin(s, i, |s|, t);
    }
  }

  /** A string that contains `t` contains every prefix of `t`. */
  lemma ContainsPrefixOf(s: string, t: string, n: nat)
    requires n <= |t|
    ensures Contains(s, t) ==> Contains(s, t[..n])
  {
    if Contains(s, t) {
      var i: nat :| i <= |s| && OccursAt(s, t, i);
      assert s[i..i + n] == t[..n];
      assert OccursAt(s, t[..n], i);
    }
  }

  /** Without an occurrence of `pat`, `s.replace(pat, rep)` is `s`. */
  lemma {:induction false} ReplaceAllAbsent(s: string, pat: string, rep: string)
    requires |pat| > 0 && !Contains(s, pat)
    ensures ReplaceAll(s, pat, rep) == s
    decreases |s|
  {
    if |s| >= |pat| {
      assert pat <= s ==> OccursAt(s, pat, 0);
      ContainsInSuffix(s, 1, pat);
      ReplaceAllAbsent(s[1..], pat, rep);
    }
  }

  /**
    A stretch at the start of `s.replace(pat, rep)` made only of characters of
    `q`, none of which begins `rep`, was copied from `s` unchanged, and `pat`
    started at none of its positions.
  */
  lemma {:induction false} ReplaceAllKeptPrefix(t: string, pat: string, rep: string, q: string, m: nat)
    requires |pat| > 0 && |rep| > 0 && rep[0] !in q
    requires m <= |ReplaceAll(t, pat, rep)|
    ensures (forall i | 0 <= i < m :: ReplaceAll(t, pat, rep)[i] in q) ==>
      m <= |t| && ReplaceAll(t, pat, rep)[..m] == t[..m] && forall j | 0 <= j < m :: !(pat <= t[j..])
    decreases |t|
  {
    var x := ReplaceAll(t, pat, rep);
    if m > 0 && |t| >= |pat| && forall i | 0 <= i < m :: x[i] in q {
      assert x[0] in q && rep[0] !in q;
      assert !(pat <= t);
      var x' := ReplaceAll(t[1..], pat, rep);
      assert x == [t[0]] + x';
      forall i | 0 <= i < m - 1 ensures x'[i] in q {
        assert x'[i] == x[i + 1];
      }
      ReplaceAllKeptPrefix(t[1..], pat, rep, q, m - 1);
      assert x[..m] == [t[0]] + x'[..m - 1];
      assert t[..m] == [t[0]] + t[1..][..m - 1];
      forall j | 0 <= j < m ensures !(pat <= t[j..]) {
        if j > 0 {
          assert t[j..] == t[1..][j - 1..];
        }
      }
    }
  }

  /** Text that shares no character with `q` adds no occurrence of `q` in front of `u`. */
  lemma NoOccurrenceBehind(v: string, u: string, q: string)
    requires |q| > 0 && !Contains(u, q)
    requires forall c | c in v :: c !in q
    ensures !Contains(v + u, q)
  {
    var x := v + u;
    forall i: nat | i <= |x| ensures !OccursAt(x, q, i) {
      if i < |v| {
        assert x[i] == v[i] && v[i] in v && q[0] in q;
      } else if i + |q| <= |x| {
        assert x[i..i + |q|] == u[i - |v|..i - |v| + |q|];
        assert !OccursAt(u, q, i - |v|);
      }
    }
  }

  /** One character in front of `u` adds at most the occurrence of `q` at the very start. */
  lemma NoOccurrenceAfterChar(c: char, u: string, q: string)
    requires |q| > 0 && !Contains(u, q) && !OccursAt([c] + u, q, 0)
    ensures !Contains([c] + u, q)
  {
    var x := [c] + u;
    forall i: nat | 0 < i <= |x| ensures !OccursAt(x, q, i) {
      if i + |q| <= |x| {
        assert u[i - 1..i - 1 + |q|] == x[i..i + |q|];
        assert !OccursAt(u, q, i - 1);
      }
    }
  }

  /**
    `s.replace(pat, rep)` contains no `q` when `rep` shares no character with
    `q` and either `q` is `pat` itself or `s` contained no `q` to begin with.
  */
  lemma {:induction false} ReplaceAllLeavesNo(s: string, pat: string, rep: string, q: string)
    requires |pat| > 0 && |rep| > 0 && |q| > 0
    requires forall c | c in rep :: c !in q
    requires q == pat || !Contains(s, q)
    ensures !Contains(ReplaceAll(s, pat, rep), q)
    decreases |s|
  {
    var x := ReplaceAll(s, pat, rep);
    if |s| >= |pat| && pat <= s {
      var x' := ReplaceAll(s[|pat|..], pat, rep);
      assert x == rep + x';
      ContainsInSuffix(s, |pat|, q);
      ReplaceAllLeavesNo(s[|pat|..], pat, rep, q);
      NoOccurrenceBehind(rep, x', q);
    } else if |s| >= |pat| {
      var x' := ReplaceAll(s[1..], pat, rep);
      assert x == [s[0]] + x';
      ContainsInSuffix(s, 1, q);
      ReplaceAllLeavesNo(s[1..], pat, rep, q);
      if |q| <= |x| {
        assert OccursAt(x, q, 0) ==> forall k | 0 <= k < |q| :: x[k] == q[k] && q[k] in q;
        assert rep[0] in rep;
        ReplaceAllKeptPrefix(s, pat, rep, q, |q|);
        assert s[0..] == s;
        assert q == pat || !OccursAt(s, q, 0);
      }
      NoOccurrenceAfterChar(s[0], x', q);
    }
  }

  /** `s.replace(pat, rep)` draws its characters from `s` and `rep`. */
  lemma {:induction false} ReplaceAllChars(s: string, pat: string, rep: string, c: char)
    requires |pat| > 0 && c in ReplaceAll(s, pat, rep)
    ensures c in s || c in rep
    decreases |s|
  {
    if |s| < |pat| {
    } else if pat <= s {
      var x' := ReplaceAll(s[|pat|..], pat, rep);
      assert ReplaceAll(s, pat, rep) == rep + x';
      if c !in rep {
        assert c in x';
        ReplaceAllChars(s[|pat|..], pat, rep, c);
      }
    } else {
      var x' := ReplaceAll(s[1..], pat, rep);
      assert ReplaceAll(s, pat, rep) == [s[0]] + x';
      if c != s[0] {
        assert c in x';
        ReplaceAllChars(s[1..], pat, rep, c);
      }
    }
  }

  /** End of the run of `\d` characters that starts at `i`. */
  function RunEnd(s: string, i: nat): (k: nat)
    requires i <= |s|
    ensures i <= k <= |s|
    ensures forall j | i <= j < k :: IsDigit(s[j])
    ensures k == |s| || !IsDigit(s[k])
    decreases |s| - i
  {
    if i < |s| && IsDigit(s[i]) then RunEnd(s, i + 1) else i
  }

  /** End of the run of `\s` characters that starts at `i`. */
  function SpaceEnd(s: string, i: nat): (k: nat)
    requires i <= |s|
    ensures i <= k <= |s|
    ensures forall j | i <= j < k :: IsSpace(s[j])
    ensures k == |s| || !IsSpace(s[k])
    decreases |s| - i
  {
    if i < |s| && IsSpace(s[i]) then SpaceEnd(s, i + 1) else i
  }

  predicate AllDigits(t: string) {
    forall j | 0 <= j < |t| :: IsDigit(t[j])
  }

  function Pow10(n: nat): (p: nat)
    ensures p >= 1
  {
    if n == 0 then 1 else 10 * Pow10(n - 1)
  }

  /** `int(t)` of a run of digits. */
  function DigitsValue(t: string): (v: nat)
    requires AllDigits(t)
    ensures v < Pow10(|t|)
    decreases |t|
  {
    if |t| == 0 then 0 else DigitsValue(t[..|t| - 1]) * 10 + DigitValue(t[|t| - 1])
  }

  function DigitChar(d: nat): (c: char)
    requires d <= 9
    ensures IsAsciiDigit(c) && DigitValue(c) == d
  {
    ('0' as int + d) as char
  }

  /** `str(n)` for a natural number. */
  function NatToString(n: nat): (s: string)
    ensures |s| > 0 && forall i | 0 <= i < |s| :: IsAsciiDigit(s[i])
    decreases n
  {
    if n < 10 then [DigitChar(n)] else NatToString(n / 10) + [DigitChar(n % 10)]
  }

  /** `str(n)` for an integer. */
  function IntToString(n: int): string {
    if n < 0 then "-" + NatToString(-n) else NatToString(n)
  }

  /** `int(s)` for an optionally signed run of digits surrounded by white space; anything else raises. */
  function ParseInt(s: string): Option<int> {
    var t := Strip(s);
    if |t| > 0 && (t[0] == '-' || t[0] == '+') then
      (if |t| > 1 && AllDigits(t[1..]) then
         var v: int := DigitsValue(t[1..]);
         Some(if t[0] == '-' then -v else v)
       else None)
    else if |t| > 0 && AllDigits(t) then Some(DigitsValue(t))
    else None
  }

  lemma {:induction false} DigitsValueOfNatToString(n: nat)
    ensures AllDigits(NatToString(n)) && DigitsValue(NatToString(n)) == n
    decreases n
  {
    if n >= 10 {
      DigitsValueOfNatToString(n / 10);
      var s := NatToString(n);
      assert s[..|s| - 1] == NatToString(n / 10);
    }
  }

  /** `int(str(n)) == n`: a tome number written to a text column reads back unchanged. */
  lemma ParseIntOfIntToString(n: int)
    ensures ParseInt(IntToString(n)) == Some(n)
  {
    var s := IntToString(n);
    DigitsValueOfNatToString(if n < 0 then -n else n);
    assert TrimStart(s) == s;
    assert TrimEnd(s) == s;
    if n < 0 {
      assert s[1..] == NatToString(-n);
    }
  }

  /**
    The leftmost index `k` in `[i, |s|)` at which `p(s, k)` holds: how
    `re.search` chooses among the places where its pattern matches.
  */
  function FindFirst(s: string, i: nat, p: (string, nat) -> bool): (r: Option<nat>)
    requires i <= |s|
    ensures r.Some? ==> i <= r.value < |s| && p(s, r.value)
    ensures r.Some? ==> forall k | i <= k < r.value :: !p(s, k)
    ensures r.None? ==> forall k | i <= k < |s| :: !p(s, k)
    decreases |s| - i
  {
    if i == |s| then None else if p(s, i) then Some(i) else FindFirst(s, i + 1, p)
  }
  /** The first index from `i` on where `p` holds is `k` when `p` holds at `k` and nowhere before it. */
  lemma {:induction false} FindFirstAt(s: string, i: nat, p: (string, nat) -> bool, k: nat)
    requires i <= k < |s| && p(s, k) && forall m | i <= m < k :: !p(s, m)
    ensures FindFirst(s, i, p) == Some(k)
    decreases k - i
  {
    if i < k {
      FindFirstAt(s, i + 1, p, k);
    }
  }

}
