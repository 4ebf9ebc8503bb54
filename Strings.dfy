/** The few Python string operations the generator relies on, on ASCII text:
    `str.title`, `str.replace(c, "")`, `in` on strings, `str.split(sep, maxsplit=1)`,
    `sep.join`, list repetition `[x] * n`, and `str`/`int` on integers. */
module Strings {
  import opened Wrappers

  predicate IsUpper(c: char) { 'A' <= c <= 'Z' }
  predicate IsLower(c: char) { 'a' <= c <= 'z' }

  /** For ASCII text the cased characters of Python are exactly the letters. */
  predicate IsLetter(c: char) { IsUpper(c) || IsLower(c) }

  predicate IsDigit(c: char) { '0' <= c <= '9' }

  function ToUpper(c: char): (r: char)
    ensures IsLetter(c) ==> IsUpper(r)
    ensures !IsLower(c) ==> r == c
  {
    if IsLower(c) then (c as int - 32) as char else c
  }

  function ToLower(c: char): (r: char)
    ensures IsLetter(c) ==> IsLower(r)
    ensures !IsUpper(c) ==> r == c
  {
    if IsUpper(c) then (c as int + 32) as char else c
  }

  // ---------------------------------------------------------------------------
  // str.title()

  /** How `str.title` rewrites one character: a letter right after a letter is
      lower-cased, any other letter is upper-cased, and a non-letter is kept. */
  function TitleChar(c: char, afterLetter: bool): char {
    if !IsLetter(c) then c else if afterLetter then ToLower(c) else ToUpper(c)
  }

  function TitleFrom(s: string, afterLetter: bool): (r: string)
    ensures |r| == |s|
  {
    if s == [] then []
    else [TitleChar(s[0], afterLetter)] + TitleFrom(s[1..], IsLetter(s[0]))
  }

  /** Python's `str.title()` restricted to ASCII. */
  function Title(s: string): string {
    TitleFrom(s, false)
  }

  lemma {:induction false} TitleFromAt(s: string, afterLetter: bool, i: nat)
    requires i < |s|
    ensures TitleFrom(s, afterLetter)[i]
         == TitleChar(s[i], if i == 0 then afterLetter else IsLetter(s[i - 1]))
  {
    if i > 0 {
      TitleFromAt(s[1..], IsLetter(s[0]), i - 1);
    }
  }

  /** Each character of `Title(s)` depends only on itself and its left neighbour:
      a word's first letter becomes upper case, its remaining letters lower case. */
  lemma TitleAt(s: string, i: nat)
    requires i < |s|
    ensures |Title(s)| == |s|
    ensures Title(s)[i] == TitleChar(s[i], i > 0 && IsLetter(s[i - 1]))
  {
    TitleFromAt(s, false, i);
  }

  /** Title-casing a concatenation: the second part starts after the first's
      last character. */
  lemma {:induction false} TitleFromConcat(a: string, b: string, afterLetter: bool)
    ensures TitleFrom(a + b, afterLetter)
         == TitleFrom(a, afterLetter) + TitleFrom(b, if a == [] then afterLetter else IsLetter(a[|a| - 1]))
    decreases |a|
  {
    if a == [] {
      assert a + b == b;
    } else {
      assert (a + b)[0] == a[0];
      assert (a + b)[1..] == a[1..] + b;
      TitleFromConcat(a[1..], b, IsLetter(a[0]));
    }
  }

  /** An underscore is kept, and the text after it starts a new word. */
  lemma TitleAfterUnderscore(b: string, afterLetter: bool)
    ensures TitleFrom("_" + b, afterLetter) == "_" + TitleFrom(b, false)
  {
    assert ("_" + b)[0] == '_';
    assert ("_" + b)[1..] == b;
  }

  /** `str.title` never adds or removes an underscore. */
  lemma TitleKeepsUnderscores(s: string, i: nat)
    requires i < |s|
    ensures Title(s)[i] == '_' <==> s[i] == '_'
  {
    TitleAt(s, i);
  }

  // ---------------------------------------------------------------------------
  // str.replace(c, "")

  /** `s.replace(c, "")` for a one-character `c`. */
  function RemoveAll(s: string, c: char): (r: string)
    ensures c !in r
    ensures |r| <= |s|
    ensures forall x :: x in r ==> x in s
  {
    if s == [] then []
    else (if s[0] == c then [] else [s[0]]) + RemoveAll(s[1..], c)
  }

  lemma {:induction false} RemoveAllConcat(a: string, b: string, c: char)
    ensures RemoveAll(a + b, c) == RemoveAll(a, c) + RemoveAll(b, c)
  {
    if a != [] {
      var h := if a[0] == c then [] else [a[0]];
      assert (a + b)[0] == a[0];
      assert (a + b)[1..] == a[1..] + b;
      assert RemoveAll(a + b, c) == h + RemoveAll(a[1..] + b, c);
      assert RemoveAll(a, c) == h + RemoveAll(a[1..], c);
      RemoveAllConcat(a[1..], b, c);
    } else {
      assert a + b == b;
    }
  }

  lemma {:induction false} RemoveAllAbsent(s: string, c: char)
    requires c !in s
    ensures RemoveAll(s, c) == s
  {
    if s != [] {
      RemoveAllAbsent(s[1..], c);
    }
  }

  // ---------------------------------------------------------------------------
  // `sub in s` and str.split(sep, maxsplit=1)

  predicate OccursAt(s: string, sub: string, i: int) {
    0 <= i && i + |sub| <= |s| && s[i..i + |sub|] == sub
  }

  /** The first index at or after `i` where `sub` occurs in `s`. */
  function FindFrom(s: string, sub: string, i: nat): (r: Option<nat>)
    decreases |s| - i
    ensures r.Some? ==> i <= r.value && OccursAt(s, sub, r.value)
    ensures forall j :: i <= j && (r.None? || j < r.value) ==> !OccursAt(s, sub, j)
  {
    if i + |sub| > |s| then None
    else if s[i..i + |sub|] == sub then Some(i)
    else FindFrom(s, sub, i + 1)
  }

  function Find(s: string, sub: string): Option<nat> {
    FindFrom(s, sub, 0)
  }

  /** Python's `sub in s`. */
  predicate Contains(s: string, sub: string) {
    Find(s, sub).Some?
  }

  lemma ContainsAt(s: string, sub: string, i: int)
    requires OccursAt(s, sub, i)
    ensures Contains(s, sub)
  {
  }

  /** A string cannot contain a pattern with a character the string lacks. */
  lemma MissingCharNotContained(s: string, sub: string, k: nat)
    requires k < |sub| && sub[k] !in s
    ensures !Contains(s, sub)
  {
    forall j
      ensures !OccursAt(s, sub, j)
    {
      if 0 <= j && j + |sub| <= |s| {
        assert s[j..j + |sub|][k] == s[j + k];
        assert s[j + k] in s;
      }
    }
  }

  /** Every `m` in `h` comes right after a `c`. */
  predicate AlwaysPreceded(h: string, m: char, c: char) {
    forall i :: 0 <= i < |h| && h[i] == m ==> 0 < i && h[i - 1] == c
  }

  lemma {:induction false} AlwaysPrecededConcat(a: string, b: string, m: char, c: char)
    requires AlwaysPreceded(a, m, c) && AlwaysPreceded(b, m, c)
    ensures AlwaysPreceded(a + b, m, c)
  {
    forall i | 0 <= i < |a + b| && (a + b)[i] == m
      ensures 0 < i && (a + b)[i - 1] == c
    {
      if i < |a| {
        assert a[i] == m;
      } else {
        assert b[i - |a|] == m;
        assert 0 < i - |a|;
        assert (a + b)[i - 1] == b[i - |a| - 1];
      }
    }
  }

  /** A pattern in which `m` follows something other than `c` cannot occur in a
      text where every `m` follows a `c`. */
  lemma PrecededBlocks(h: string, m: char, c: char, sub: string, k: nat)
    requires AlwaysPreceded(h, m, c)
    requires 1 <= k < |sub| && sub[k] == m && sub[k - 1] != c
    ensures !Contains(h, sub)
  {
    forall j
      ensures !OccursAt(h, sub, j)
    {
      if 0 <= j && j + |sub| <= |h| {
        var w := h[j..j + |sub|];
        assert w[k] == h[j + k];
        assert w[k - 1] == h[j + k - 1];
      }
    }
  }

  /** Python's `s.split(sep, maxsplit=1)`: one piece when `sep` does not occur,
      otherwise the text before and after its first occurrence. */
  function SplitOnce(s: string, sep: string): (r: seq<string>)
    requires |sep| > 0
    ensures |r| == 1 || |r| == 2
    ensures |r| == 1 <==> !Contains(s, sep)
    ensures |r| == 1 ==> r[0] == s
    ensures |r| == 2 ==> s == r[0] + sep + r[1]
    ensures |r| == 2 ==> forall j :: 0 <= j < |r[0]| ==> !OccursAt(s, sep, j)
  {
    match Find(s, sep)
    case None => [s]
    case Some(k) =>
      assert s == s[..k] + s[k..k + |sep|] + s[k + |sep|..];
      [s[..k], s[k + |sep|..]]
  }

  // ---------------------------------------------------------------------------
  // sep.join(xs) and [x] * n

  /** Python's `sep.join(xs)`. */
  function Join(xs: seq<string>, sep: string): string {
    if |xs| == 0 then ""
    else if |xs| == 1 then xs[0]
    else xs[0] + sep + Join(xs[1..], sep)
  }

  /** Python's `[x] * n`, which is empty when `n <= 0`. */
  function Repeat<T>(x: T, n: int): (r: seq<T>)
    ensures |r| == if n <= 0 then 0 else n
    ensures forall k :: 0 <= k < |r| ==> r[k] == x
  {
    if n <= 0 then [] else [x] + Repeat(x, n - 1)
  }

  lemma MulStep(k: int, w: int)
    ensures k * w == w + (k - 1) * w
  {
  }

  lemma {:induction false} JoinRepeatLength(x: string, sep: string, n: nat)
    requires 1 <= n
    ensures |Join(Repeat(x, n), sep)| == n * (|x| + |sep|) - |sep|
  {
    MulStep(n, |x| + |sep|);
    if n > 1 {
      assert Repeat(x, n)[1..] == Repeat(x, n - 1);
      JoinRepeatLength(x, sep, n - 1);
    }
  }

  lemma JoinRepeatCons(x: string, sep: string, n: int)
    requires n >= 2
    ensures Join(Repeat(x, n), sep) == x + sep + Join(Repeat(x, n - 1), sep)
  {
    assert Repeat(x, n)[1..] == Repeat(x, n - 1);
  }

  lemma SliceOfSuffix(p: string, q: string, i: int, len: int)
    requires 0 <= i && 0 <= len && i + len <= |q|
    ensures (p + q)[|p| + i..|p| + i + len] == q[i..i + len]
  {
  }

  /** Where the `k`-th of a run of pieces of width `w` starts: `k * w`. */
  function Offset(k: nat, w: nat): (o: nat)
  {
    if k == 0 then 0 else w + Offset(k - 1, w)
  }

  lemma {:induction false} OffsetIsProduct(k: nat, w: nat)
    ensures Offset(k, w) == k * w
  {
    if k > 0 {
      OffsetIsProduct(k - 1, w);
      MulStep(k, w);
    }
  }

  /** The `k`-th copy in `sep.join([x] * n)` starts at `Offset(k, |x| + |sep|)`. */
  lemma {:induction false} JoinRepeatCopy(x: string, sep: string, n: nat, k: nat)
    requires k < n
    ensures var o := Offset(k, |x| + |sep|);
              o + |x| <= |Join(Repeat(x, n), sep)|
              && Join(Repeat(x, n), sep)[o..o + |x|] == x
  {
    var whole := Join(Repeat(x, n), sep);
    var o := Offset(k, |x| + |sep|);
    if n == 1 {
      assert Repeat(x, 1) == [x];
      assert whole == x;
      assert whole[o..o + |x|] == x;
    } else {
      var rest := Join(Repeat(x, n - 1), sep);
      JoinRepeatCons(x, sep, n);
      assert whole == (x + sep) + rest;
      if k == 0 {
        assert whole[o..o + |x|] == x;
      } else {
        var a := Offset(k - 1, |x| + |sep|);
        assert o == |x + sep| + a;
        JoinRepeatCopy(x, sep, n - 1, k - 1);
        SliceOfSuffix(x + sep, rest, a, |x|);
      }
    }
  }

  /** Every copy but the last in `sep.join([x] * n)` is followed by `sep`. */
  lemma {:induction false} JoinRepeatSep(x: string, sep: string, n: nat, k: nat)
    requires k + 1 < n
    ensures var o := Offset(k, |x| + |sep|) + |x|;
              o + |sep| <= |Join(Repeat(x, n), sep)|
              && Join(Repeat(x, n), sep)[o..o + |sep|] == sep
  {
    var whole := Join(Repeat(x, n), sep);
    var o := Offset(k, |x| + |sep|) + |x|;
    var rest := Join(Repeat(x, n - 1), sep);
    JoinRepeatCons(x, sep, n);
    assert whole == (x + sep) + rest;
    if k == 0 {
      assert whole[o..o + |sep|] == sep;
    } else {
      var a := Offset(k - 1, |x| + |sep|) + |x|;
      assert o == |x + sep| + a;
      JoinRepeatSep(x, sep, n - 1, k - 1);
      SliceOfSuffix(x + sep, rest, a, |sep|);
    }
  }

  /** `sep.join([x] * n)` is `n` copies of `x`: the `k`-th one starts at
      `Offset(k, |x| + |sep|)` and, unless it is the last, is followed by `sep`. */
  lemma JoinRepeatAt(x: string, sep: string, n: nat, k: nat)
    requires k < n
    ensures var o := Offset(k, |x| + |sep|);
              o + |x| <= |Join(Repeat(x, n), sep)|
              && Join(Repeat(x, n), sep)[o..o + |x|] == x
    ensures var o := Offset(k, |x| + |sep|);
              k + 1 < n ==>
              o + |x| + |sep| <= |Join(Repeat(x, n), sep)|
              && Join(Repeat(x, n), sep)[o + |x|..o + |x| + |sep|] == sep
  {
    JoinRepeatCopy(x, sep, n, k);
    if k + 1 < n {
      JoinRepeatSep(x, sep, n, k);
    }
  }

  // ---------------------------------------------------------------------------
  // str(n) and int(s) on decimal integers

  function DigitChar(d: nat): (c: char)
    requires d < 10
    ensures IsDigit(c)
  {
    ('0' as int + d) as char
  }

  function DigitValue(c: char): nat
    requires IsDigit(c)
  {
    c as int - '0' as int
  }

  function NatToString(n: nat): (r: string)
    ensures |r| > 0
  {
    if n < 10 then [DigitChar(n)] else NatToString(n / 10) + [DigitChar(n % 10)]
  }

  /** Python's `str(n)` on an `int`. */
  function IntToString(i: int): string {
    if i < 0 then "-" + NatToString(-i) else NatToString(i)
  }

  predicate AllDigits(s: string) {
    forall k :: 0 <= k < |s| ==> IsDigit(s[k])
  }

  function DigitsValue(s: string): nat
    requires AllDigits(s)
  {
    if s == [] then 0 else DigitsValue(s[..|s| - 1]) * 10 + DigitValue(s[|s| - 1])
  }

  /** Python's `int(s)` on an optional sign followed by decimal digits. */
  function ParseInt(s: string): Option<int> {
    if |s| > 1 && (s[0] == '-' || s[0] == '+') && AllDigits(s[1..]) then
      var v: int := DigitsValue(s[1..]);
      Some(if s[0] == '-' then -v else v)
    else if |s| > 0 && AllDigits(s) then Some(DigitsValue(s))
    else None
  }

  lemma {:induction false} NatToStringDigits(n: nat)
    ensures AllDigits(NatToString(n))
    ensures DigitsValue(NatToString(n)) == n
  {
    var s := NatToString(n);
    if n >= 10 {
      NatToStringDigits(n / 10);
      assert s[..|s| - 1] == NatToString(n / 10);
    }
  }

  /** `str` of an integer is its digits, after a `-` when it is negative. */
  lemma IntToStringChars(i: int)
    ensures forall k :: 0 <= k < |IntToString(i)| ==>
              IsDigit(IntToString(i)[k]) || (k == 0 && i < 0 && IntToString(i)[k] == '-')
  {
    if i < 0 {
      NatToStringDigits(-i);
      assert forall k :: 1 <= k < |IntToString(i)| ==> IntToString(i)[k] == NatToString(-i)[k - 1];
    } else {
      NatToStringDigits(i);
    }
  }

  /** Reading back what `str` printed gives the integer again. */
  lemma IntToStringRoundTrip(i: int)
    ensures ParseInt(IntToString(i)) == Some(i)
  {
    if i < 0 {
      NatToStringDigits(-i);
      assert IntToString(i)[1..] == NatToString(-i);
    } else {
      NatToStringDigits(i);
    }
  }
}
