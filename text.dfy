/** String helpers shared by the models: substring search, splitting at a
    separator, whitespace stripping and decimal conversion. */
module Text {
  import opened Wrappers

  predicate IsDigit(c: char) { '0' <= c <= '9' }

  function DigitValue(c: char): (d: nat)
    requires IsDigit(c)
    ensures d < 10
  {
    c as int - '0' as int
  }

  function DigitChar(d: nat): (c: char)
    requires d < 10
    ensures IsDigit(c) && DigitValue(c) == d
  {
    ('0' as int + d) as char
  }

  predicate IsPrefix(p: string, s: string) {
    |p| <= |s| && s[..|p|] == p
  }

  predicate IsSuffix(p: string, s: string) {
    |p| <= |s| && s[|s| - |p|..] == p
  }

  /** `needle` occurs in `hay` starting at index `i`. */
  predicate OccursAt(needle: string, hay: string, i: int) {
    0 <= i && i + |needle| <= |hay| && hay[i..i + |needle|] == needle
  }

  /** Python's `needle in hay`, C's `strstr(hay, needle) != NULL`. */
  predicate IsSubstring(needle: string, hay: string) {
    exists i | 0 <= i <= |hay| :: OccursAt(needle, hay, i)
  }

  /** Index of the first occurrence of `needle` at or after `from`. */
  function FindFrom(needle: string, hay: string, from: nat): (r: Option<nat>)
    decreases |hay| - from
    ensures r.Some? ==> from <= r.value && OccursAt(needle, hay, r.value)
    ensures r.Some? ==> forall j :: from <= j < r.value ==> !OccursAt(needle, hay, j)
    ensures r.None? ==> forall j :: from <= j ==> !OccursAt(needle, hay, j)
  {
    if from + |needle| > |hay| then None
    else if hay[from..from + |needle|] == needle then Some(from)
    else FindFrom(needle, hay, from + 1)
  }

  function Search(needle: string, hay: string): (r: Option<nat>)
    ensures r.Some? ==> OccursAt(needle, hay, r.value)
    ensures r.Some? ==> forall j :: 0 <= j < r.value ==> !OccursAt(needle, hay, j)
    ensures r.None? <==> !IsSubstring(needle, hay)
  {
    FindFrom(needle, hay, 0)
  }

  lemma OccursInConcat(needle: string, a: string, b: string, i: int)
    requires OccursAt(needle, b, i)
    ensures OccursAt(needle, a + b, |a| + i)
  {
    assert (a + b)[|a| + i..|a| + i + |needle|] == b[i..i + |needle|];
  }

  lemma SubstringOfPrefix(needle: string, a: string, b: string)
    requires IsSubstring(needle, a)
    ensures IsSubstring(needle, a + b)
  {
    var i :| 0 <= i <= |a| && OccursAt(needle, a, i);
    assert (a + b)[i..i + |needle|] == a[i..i + |needle|];
    assert OccursAt(needle, a + b, i);
  }

  lemma SubstringOfSuffix(needle: string, a: string, b: string)
    requires IsSubstring(needle, b)
    ensures IsSubstring(needle, a + b)
  {
    var i :| 0 <= i <= |b| && OccursAt(needle, b, i);
    OccursInConcat(needle, a, b, i);
  }

  /** A needle with a character the text lacks does not occur in it. */
  lemma AbsentCharNoSubstring(needle: string, hay: string, k: nat)
    requires k < |needle| && needle[k] !in hay
    ensures !IsSubstring(needle, hay)
  {
    forall i | 0 <= i <= |hay| ensures !OccursAt(needle, hay, i) {
      if i + k < |hay| {
        Mismatch(needle, hay, i, k);
      }
    }
  }

  lemma SubstringOfItself(s: string)
    ensures IsSubstring(s, s)
  {
    assert OccursAt(s, s, 0);
  }

  /** A needle cannot start where one of its characters is contradicted. */
  lemma Mismatch(n: string, t: string, j: nat, i: nat)
    requires i < |n| && j + i < |t| && t[j + i] != n[i]
    ensures !OccursAt(n, t, j)
  {
    if j + |n| <= |t| {
      assert t[j..j + |n|][i] == t[j + i];
    }
  }

  /** A needle one of whose characters (the `k`-th) occurs neither in the
      text searched before it nor earlier in the needle itself is first
      found where it was placed. */
  lemma FoundFirstAt(needle: string, a: string, rest: string, from: nat, k: nat)
    requires from <= |a| && k < |needle|
    requires needle[k] !in a[from..] && needle[k] !in needle[..k]
    ensures FindFrom(needle, a + needle + rest, from) == Some(|a|)
  {
    var t := a + needle + rest;
    assert t[|a|..|a| + |needle|] == needle;
    assert OccursAt(needle, t, |a|);
    forall j | from <= j < |a| ensures !OccursAt(needle, t, j) {
      if j + k < |a| {
        assert t[j + k] == a[from..][j + k - from];
      } else {
        assert t[j + k] == needle[..k][j + k - |a|];
      }
      Mismatch(needle, t, j, k);
    }
  }

  /** `FoundFirstAt` for a search from the start of the text. */
  lemma SearchFinds(pre: string, needle: string, rest: string, k: nat)
    requires k < |needle| && needle[k] !in pre && needle[k] !in needle[..k]
    ensures Search(needle, pre + needle + rest) == Some(|pre|)
  {
    assert pre[0..] == pre;
    FoundFirstAt(needle, pre, rest, 0, k);
  }

  /** `FoundFirstAt` for a search from the end of `pre` that crosses `mid`. */
  lemma FindFromFinds(pre: string, mid: string, needle: string, rest: string, k: nat)
    requires k < |needle| && needle[k] !in mid && needle[k] !in needle[..k]
    ensures FindFrom(needle, pre + mid + needle + rest, |pre|) == Some(|pre| + |mid|)
  {
    assert (pre + mid)[|pre|..] == mid;
    FoundFirstAt(needle, pre + mid, rest, |pre|, k);
  }

  /** Index of the first `c` in `s`, if any. */
  function IndexOf(s: string, c: char): (r: Option<nat>)
    ensures r.Some? ==> r.value < |s| && s[r.value] == c && c !in s[..r.value]
    ensures r.None? <==> c !in s
  {
    if |s| == 0 then None
    else if s[0] == c then Some(0)
    else match IndexOf(s[1..], c)
      case None => None
      case Some(k) => assert s[1..][..k] == s[1..k + 1]; Some(k + 1)
  }

  lemma {:induction false} IndexOfAfter(a: string, c: char, rest: string)
    requires c !in a
    ensures IndexOf(a + [c] + rest, c) == Some(|a|)
  {
    if |a| > 0 {
      assert (a + [c] + rest)[1..] == a[1..] + [c] + rest;
      IndexOfAfter(a[1..], c, rest);
    }
  }

  lemma SplitCons(a: string, b: string, c: char)
    requires c !in a
    ensures Split(a + [c] + b, c) == [a] + Split(b, c)
  {
    var s := a + [c] + b;
    IndexOfAfter(a, c, b);
    assert s[..|a|] == a;
    assert s[|a| + 1..] == b;
  }

  /** Python's `s.split(c)[0]`: the text before the first `c`. */
  function BeforeFirst(s: string, c: char): (r: string)
    ensures c !in r && IsPrefix(r, s)
    ensures c in s ==> |r| < |s| && s[|r|] == c
    ensures c !in s ==> r == s
  {
    match IndexOf(s, c)
    case None => s
    case Some(k) => s[..k]
  }

  /** Python's `c.join(s.split(c)[1:])`: the text after the first `c`,
      empty when there is none. */
  function AfterFirst(s: string, c: char): (r: string)
    ensures c in s ==> s == BeforeFirst(s, c) + [c] + r
    ensures c !in s ==> r == ""
  {
    match IndexOf(s, c)
    case None => ""
    case Some(k) => s[k + 1..]
  }

  /** Python's `s.split(c)`: the pieces between the separators, keeping
      empty pieces; there is always at least one. */
  function Split(s: string, c: char): (r: seq<string>)
    ensures |r| > 0
    ensures forall i :: 0 <= i < |r| ==> c !in r[i]
    ensures c !in s ==> r == [s]
  {
    match IndexOf(s, c)
    case None => [s]
    case Some(k) => [s[..k]] + Split(s[k + 1..], c)
  }

  /** `c.join(parts)`. */
  function JoinWith(parts: seq<string>, c: char): string {
    if |parts| == 0 then ""
    else if |parts| == 1 then parts[0]
    else parts[0] + [c] + JoinWith(parts[1..], c)
  }

  lemma JoinCons(p: string, rest: seq<string>, c: char)
    requires |rest| > 0
    ensures JoinWith([p] + rest, c) == p + [c] + JoinWith(rest, c)
  {
    assert ([p] + rest)[1..] == rest;
  }

  lemma CutAt(s: string, k: nat)
    requires k < |s|
    ensures s == s[..k] + [s[k]] + s[k + 1..]
  {
  }

  lemma {:induction false} JoinSplit(s: string, c: char)
    ensures JoinWith(Split(s, c), c) == s
    decreases |s|
  {
    match IndexOf(s, c)
    case None =>
    case Some(k) =>
      JoinCons(s[..k], Split(s[k + 1..], c), c);
      JoinSplit(s[k + 1..], c);
      CutAt(s, k);
  }

  /** Concatenation is associative; stated once so that proofs about
      long concatenations can regroup them cheaply. */
  lemma Regroup<T>(a: seq<T>, b: seq<T>, c: seq<T>)
    ensures a + b + c == a + (b + c)
  {
  }

  /** Splitting the join of pieces free of the separator gives the pieces
      back. */
  lemma {:induction false} SplitJoin(parts: seq<string>, c: char)
    requires |parts| > 0 && forall i :: 0 <= i < |parts| ==> c !in parts[i]
    ensures Split(JoinWith(parts, c), c) == parts
    decreases |parts|
  {
    if |parts| > 1 {
      var rest := parts[1..];
      assert [parts[0]] + rest == parts;
      JoinCons(parts[0], rest, c);
      SplitCons(parts[0], JoinWith(rest, c), c);
      SplitJoin(rest, c);
    }
  }

  /** The ASCII whitespace Python's `str.strip()` and `int()` skip: space,
      tab to carriage return, and the separators 0x1C to 0x1F. */
  predicate IsSpace(c: char) {
    c == ' ' || '\t' <= c <= '\r' || '\U{1C}' <= c <= '\U{1F}'
  }

  function StripLeft(s: string): (r: string)
    ensures IsSuffix(r, s)
    ensures |r| > 0 ==> !IsSpace(r[0])
    ensures forall i :: 0 <= i < |s| - |r| ==> IsSpace(s[i])
  {
    if |s| > 0 && IsSpace(s[0]) then StripLeft(s[1..]) else s
  }

  function StripRight(s: string): (r: string)
    ensures IsPrefix(r, s)
    ensures |r| > 0 ==> !IsSpace(r[|r| - 1])
    ensures forall i :: |r| <= i < |s| ==> IsSpace(s[i])
  {
    if |s| > 0 && IsSpace(s[|s| - 1]) then StripRight(s[..|s| - 1]) else s
  }

  /** Python's `str.strip()`. */
  function Strip(s: string): (r: string)
    ensures |r| > 0 ==> !IsSpace(r[0]) && !IsSpace(r[|r| - 1])
    ensures |r| <= |s|
  {
    StripRight(StripLeft(s))
  }

  /** Decimal rendering of a natural number, without leading zeros. */
  function NatToString(n: nat): (r: string)
    decreases n
    ensures |r| > 0 && forall i :: 0 <= i < |r| ==> IsDigit(r[i])
    ensures |r| > 1 ==> r[0] != '0'
  {
    if n < 10 then [DigitChar(n)] else NatToString(n / 10) + [DigitChar(n % 10)]
  }

  function Pow10(k: nat): nat {
    if k == 0 then 1 else 10 * Pow10(k - 1)
  }

  /** A number below `10^k` prints with at most `k` digits. */
  lemma {:induction false} NatDigits(n: nat, k: nat)
    requires 0 < k && n < Pow10(k)
    ensures |NatToString(n)| <= k
    decreases k
  {
    if n >= 10 {
      assert k > 1;
      NatDigits(n / 10, k - 1);
    }
  }

  /** A character that is not a decimal digit is not in a rendered
      number. */
  lemma NotInNumber(n: nat, c: char)
    requires !IsDigit(c)
    ensures c !in NatToString(n)
  {
    var s := NatToString(n);
    assert forall i :: 0 <= i < |s| ==> s[i] != c;
  }

  /** Python's `str(i)` / C's `%d` for an integer. */
  function IntToString(i: int): (r: string)
    ensures |r| > 0
  {
    if i < 0 then "-" + NatToString(-i) else NatToString(i)
  }

  predicate AllDigits(s: string) {
    forall i :: 0 <= i < |s| ==> IsDigit(s[i])
  }

  /** Value of a string of decimal digits (the empty string is 0). */
  function DigitsValue(s: string): (v: nat)
    requires AllDigits(s)
  {
    if |s| == 0 then 0 else 10 * DigitsValue(s[..|s| - 1]) + DigitValue(s[|s| - 1])
  }

  lemma {:induction false} DigitsValueOfNatToString(n: nat)
    ensures DigitsValue(NatToString(n)) == n
  {
    if n >= 10 {
      var s := NatToString(n / 10) + [DigitChar(n % 10)];
      assert s[..|s| - 1] == NatToString(n / 10);
      DigitsValueOfNatToString(n / 10);
    }
  }

  /** Python's `int(s)` on a decimal literal: surrounding whitespace, an
      optional sign and at least one digit; anything else is a ValueError. */
  function ParseInt(s: string): Option<int>
  {
    var t := Strip(s);
    if |t| > 0 && (t[0] == '-' || t[0] == '+') then
      var body := t[1..];
      if |body| > 0 && AllDigits(body) then
        Some(if t[0] == '-' then 0 - DigitsValue(body) else DigitsValue(body))
      else None
    else if |t| > 0 && AllDigits(t) then Some(DigitsValue(t))
    else None
  }

  /** A string that neither starts nor ends with whitespace is its own
      strip. */
  lemma StripUnspaced(s: string)
    requires |s| > 0 && !IsSpace(s[0]) && !IsSpace(s[|s| - 1])
    ensures Strip(s) == s
  {
    assert StripLeft(s) == s;
  }

  lemma ParseIntOfNatToString(i: int)
    requires i >= 0
    ensures ParseInt(IntToString(i)) == Some(i)
  {
    var d := NatToString(i);
    DigitsValueOfNatToString(i);
    assert IsDigit(d[0]) && IsDigit(d[|d| - 1]);
    StripUnspaced(d);
  }

  lemma ParseIntOfNegative(i: int)
    requires i < 0
    ensures ParseInt(IntToString(i)) == Some(i)
  {
    var d := NatToString(-i);
    DigitsValueOfNatToString(-i);
    var s := "-" + d;
    assert s[1..] == d;
    assert s[|s| - 1] == d[|d| - 1] && IsDigit(d[|d| - 1]);
    StripUnspaced(s);
    ParseMinus(s);
  }

  lemma ParseMinus(s: string)
    requires |s| > 1 && s[0] == '-' && Strip(s) == s && AllDigits(s[1..])
    ensures ParseInt(s) == Some(0 - DigitsValue(s[1..]))
  {
  }

  lemma ParseIntOfIntToString(i: int)
    ensures ParseInt(IntToString(i)) == Some(i)
  {
    if i < 0 {
      ParseIntOfNegative(i);
    } else {
      ParseIntOfNatToString(i);
    }
  }

  /** Lines joined with a newline after each one. */
  function Lines(ls: seq<string>): (r: string)
    ensures |ls| == 0 ==> r == ""
  {
    if |ls| == 0 then "" else Lines(ls[..|ls| - 1]) + ls[|ls| - 1] + "\n"
  }

  lemma LinesAppend(ls: seq<string>, l: string)
    ensures Lines(ls + [l]) == Lines(ls) + l + "\n"
  {
    assert (ls + [l])[..|ls|] == ls;
  }
}
