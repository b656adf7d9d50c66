// Character and string helpers with the meaning Python gives them
// (str.isdigit on ASCII digits, int(), str(), str.split(), str.lower(), repr()).
module Text {
  import opened Wrappers

  predicate IsDigit(c: char) { '0' <= c <= '9' }

  predicate AllDigits(s: string) { forall i :: 0 <= i < |s| ==> IsDigit(s[i]) }

  /** The whitespace characters that str.split(), str.strip() and int() skip (ASCII only). */
  predicate IsSpace(c: char) { c == ' ' || c == '\t' || c == '\n' || c == '\r' || c as int == 11 || c as int == 12 }

  predicate NoSpace(s: string) { forall i :: 0 <= i < |s| ==> !IsSpace(s[i]) }

  /** The decimal value of a run of digits (leading zeros allowed, as int() allows them). */
  function DigitsValue(s: string): nat
    requires AllDigits(s)
  {
    if s == [] then 0 else 10 * DigitsValue(s[..|s| - 1]) + (s[|s| - 1] - '0') as nat
  }

  function Digit(d: nat): (c: char)
    requires d < 10
    ensures IsDigit(c) && (c - '0') as nat == d
  {
    ['0', '1', '2', '3', '4', '5', '6', '7', '8', '9'][d]
  }

  /** str(n) for a non-negative int: digits only, no leading zero. */
  function NatToString(n: nat): (r: string)
    ensures |r| >= 1 && AllDigits(r)
    ensures r[0] == '0' ==> n == 0
  {
    if n < 10 then [Digit(n)] else NatToString(n / 10) + [Digit(n % 10)]
  }

  /** str(i) for any int. */
  function IntToString(i: int): (r: string)
    ensures |r| >= 1 && (r[0] == '-' <==> i < 0)
  {
    if i < 0 then "-" + NatToString(-i) else NatToString(i)
  }

  lemma {:induction false} NatToStringValue(n: nat)
    ensures DigitsValue(NatToString(n)) == n
  {
    if n >= 10 {
      var s := NatToString(n);
      assert s[..|s| - 1] == NatToString(n / 10);
      NatToStringValue(n / 10);
    }
  }

  lemma NatToStringInjective(m: nat, n: nat)
    requires NatToString(m) == NatToString(n)
    ensures m == n
  {
    NatToStringValue(m);
    NatToStringValue(n);
  }

  predicate StartsWith(s: string, prefix: string) { |prefix| <= |s| && s[..|prefix|] == prefix }

  /** `sub` occurs in `s` starting at index i. */
  predicate At(s: string, i: nat, sub: string) { i + |sub| <= |s| && s[i..i + |sub|] == sub }

  /** Python's `sub in s`. */
  predicate Contains(s: string, sub: string)
    decreases |s|
  {
    StartsWith(s, sub) || (s != [] && Contains(s[1..], sub))
  }

  lemma {:induction false} ContainsAt(s: string, sub: string, i: nat)
    requires At(s, i, sub)
    ensures Contains(s, sub)
    decreases i
  {
    if i > 0 {
      assert At(s[1..], i - 1, sub) by { assert s[1..][i - 1..i - 1 + |sub|] == s[i..i + |sub|]; }
      ContainsAt(s[1..], sub, i - 1);
    }
  }

  lemma {:induction false} ContainsWitness(s: string, sub: string) returns (i: nat)
    requires Contains(s, sub)
    ensures At(s, i, sub)
    decreases |s|
  {
    if StartsWith(s, sub) {
      i := 0;
    } else {
      var j := ContainsWitness(s[1..], sub);
      assert s[1..][j..j + |sub|] == s[j + 1..j + 1 + |sub|];
      i := j + 1;
    }
  }

  /** The index after the longest run of non-whitespace characters starting at i. */
  function WordEnd(s: string, i: nat): (e: nat)
    requires i <= |s|
    ensures i <= e <= |s| && NoSpace(s[i..e]) && (e == |s| || IsSpace(s[e]))
    decreases |s| - i
  {
    if i < |s| && !IsSpace(s[i]) then WordEnd(s, i + 1) else i
  }

  /** The index of the first non-whitespace character at or after i. */
  function SkipSpace(s: string, i: nat): (e: nat)
    requires i <= |s|
    ensures i <= e <= |s| && (e == |s| || !IsSpace(s[e]))
    ensures forall k :: i <= k < e ==> IsSpace(s[k])
    decreases |s| - i
  {
    if i < |s| && IsSpace(s[i]) then SkipSpace(s, i + 1) else i
  }

  /** str.split() without arguments: the maximal runs of non-whitespace characters. */
  function Words(s: string): (ws: seq<string>)
    ensures forall k :: 0 <= k < |ws| ==> ws[k] != [] && NoSpace(ws[k])
    ensures NoSpace(s) && s != [] ==> ws == [s]
    decreases |s|
  {
    var b := SkipSpace(s, 0);
    if b == |s| then []
    else
      var e := WordEnd(s, b);
      assert b < e;
      assert NoSpace(s) ==> b == 0 && e == |s| && Words(s[e..]) == [] && s[b..e] == s;
      [s[b..e]] + Words(s[e..])
  }

  /** str.strip() without arguments. */
  function Strip(s: string): (r: string)
    ensures |r| <= |s|
    ensures r != [] ==> !IsSpace(r[0]) && !IsSpace(r[|r| - 1])
    ensures NoSpace(s) ==> r == s
    decreases |s|
  {
    if s == [] then []
    else if IsSpace(s[0]) then Strip(s[1..])
    else if IsSpace(s[|s| - 1]) then Strip(s[..|s| - 1])
    else s
  }

  /** int(s) for a string argument; None where int() raises ValueError (digit separators `_` are not modelled). */
  function ParseInt(s: string): (r: Option<int>)
  {
    var t := Strip(s);
    if t == [] then None
    else
      var negative := t[0] == '-';
      var digits := if t[0] == '-' || t[0] == '+' then t[1..] else t;
      if digits != [] && AllDigits(digits) then
        var value: int := DigitsValue(digits);
        Some(if negative then -value else value)
      else None
  }

  lemma ParseIntOfIntToString(i: int)
    ensures ParseInt(IntToString(i)) == Some(i)
  {
    var s := IntToString(i);
    var n: nat := if i < 0 then -i else i;
    var d := NatToString(n);
    NatToStringValue(n);
    assert NoSpace(d);
    if i < 0 {
      assert s == "-" + d && s[1..] == d;
      assert NoSpace(s) by {
        forall k | 0 <= k < |s| ensures !IsSpace(s[k]) {
          if k > 0 { assert s[k] == d[k - 1]; }
        }
      }
    } else {
      assert s == d;
    }
    assert Strip(s) == s;
  }

  /** ASCII case folding, as str.lower() does on ASCII text. */
  function LowerChar(c: char): (r: char)
    ensures 'A' <= c <= 'Z' ==> r != c && 'a' <= r <= 'z'
    ensures !('A' <= c <= 'Z') ==> r == c
  {
    if 'A' <= c <= 'Z' then (c - 'A' + 'a') as char else c
  }

  function Lower(s: string): (r: string)
    ensures |r| == |s| && forall i :: 0 <= i < |s| ==> r[i] == LowerChar(s[i])
  {
    seq(|s|, i requires 0 <= i < |s| => LowerChar(s[i]))
  }

  lemma LowerIdempotent(s: string)
    ensures Lower(Lower(s)) == Lower(s)
  {
  }

  /** sep.join(parts). */
  function Join(parts: seq<string>, sep: string): (r: string)
    ensures parts == [] ==> r == []
    ensures |parts| == 1 ==> r == parts[0]
  {
    if parts == [] then [] else if |parts| == 1 then parts[0] else parts[0] + sep + Join(parts[1..], sep)
  }

  /** s.replace(a, b) for single characters a and b. */
  function ReplaceChar(s: string, a: char, b: char): (r: string)
    ensures |r| == |s| && (a !in r || a == b)
    ensures forall i :: 0 <= i < |s| ==> r[i] == if s[i] == a then b else s[i]
  {
    seq(|s|, i requires 0 <= i < |s| => if s[i] == a then b else s[i])
  }

  /** s.replace(a, '') for a single character a. */
  function RemoveChar(s: string, a: char): (r: string)
    ensures a !in r && |r| <= |s|
    ensures forall c :: c in r <==> c in s && c != a
  {
    if s == [] then [] else (if s[0] == a then [] else [s[0]]) + RemoveChar(s[1..], a)
  }

  /** The largest index k with lo <= k < hi and s[k] == c, when there is one. */
  function LastIndexIn(s: string, c: char, lo: nat, hi: nat): (r: Option<nat>)
    requires lo <= hi <= |s|
    ensures r.Some? ==> lo <= r.value < hi && s[r.value] == c && forall k :: r.value < k < hi ==> s[k] != c
    ensures r.None? ==> forall k :: lo <= k < hi ==> s[k] != c
    decreases hi - lo
  {
    if lo == hi then None else if s[hi - 1] == c then Some(hi - 1) else LastIndexIn(s, c, lo, hi - 1)
  }

  /** repr() of a Python str: quoted, with backslash, the quote and \n, \r, \t escaped. */
  function Repr(s: string): (r: string)
    ensures |r| >= 2
  {
    var q := if '\'' in s && '"' !in s then '"' else '\'';
    [q] + Escape(s, q) + [q]
  }

  function Escape(s: string, q: char): string
  {
    if s == [] then []
    else
      var c := s[0];
      (if c == '\\' then "\\\\" else if c == q then ['\\', q] else if c == '\n' then "\\n"
       else if c == '\r' then "\\r" else if c == '\t' then "\\t" else [c]) + Escape(s[1..], q)
  }

  lemma EscapePlain(s: string, q: char)
    requires forall i :: 0 <= i < |s| ==> s[i] !in {'\\', q, '\n', '\r', '\t'}
    ensures Escape(s, q) == s
  {
  }
}
