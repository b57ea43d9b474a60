/** The slice of JavaScript's string and number semantics that the modelled
    TypeScript code relies on: whitespace as `trim` and `\s` see it, `split`,
    `join`, `includes`, `replace` with a string pattern, `new Set` de-duplication,
    `toString(radix)`, `parseInt`, `parseFloat` and `Number`.  Case mapping is
    ASCII only (see README, "Left out"). */
module JsText {
  import opened Wrappers

  // ---------------------------------------------------------------------------
  // Character classes

  /** WhiteSpace and LineTerminator of ECMAScript: what `trim()` removes and `\s` matches. */
  predicate IsSpace(c: char) {
    c == ' ' || c == '\t' || c == '\n' || c == '\r' || c == '\U{000B}' || c == '\U{000C}'
    || c == '\U{00A0}' || c == '\U{FEFF}' || c == '\U{1680}' || ('\U{2000}' <= c <= '\U{200A}')
    || c == '\U{2028}' || c == '\U{2029}' || c == '\U{202F}' || c == '\U{205F}' || c == '\U{3000}'
  }

  /** The line terminators that `$` and `^` recognise in multiline mode. */
  predicate IsLineTerminator(c: char) {
    c == '\n' || c == '\r' || c == '\U{2028}' || c == '\U{2029}'
  }

  predicate IsDigit(c: char) { '0' <= c <= '9' }

  predicate IsAsciiLetter(c: char) { ('a' <= c <= 'z') || ('A' <= c <= 'Z') }

  /** `\w` without the `u` flag. */
  predicate IsWordChar(c: char) { IsAsciiLetter(c) || IsDigit(c) || c == '_' }

  predicate AllDigits(s: string) { forall i :: 0 <= i < |s| ==> IsDigit(s[i]) }

  // ---------------------------------------------------------------------------
  // Case mapping (ASCII)

  function LowerChar(c: char): (r: char)
    ensures !('A' <= r <= 'Z')
    ensures IsAsciiLetter(c) <==> IsAsciiLetter(r)
  {
    if 'A' <= c <= 'Z' then (c as int + 32) as char else c
  }

  function UpperChar(c: char): (r: char)
    ensures !('a' <= r <= 'z')
  {
    if 'a' <= c <= 'z' then (c as int - 32) as char else c
  }

  function Lower(s: string): (r: string)
    ensures |r| == |s|
    ensures forall i :: 0 <= i < |s| ==> r[i] == LowerChar(s[i])
  {
    if |s| == 0 then "" else [LowerChar(s[0])] + Lower(s[1..])
  }

  function Upper(s: string): (r: string)
    ensures |r| == |s|
    ensures forall i :: 0 <= i < |s| ==> r[i] == UpperChar(s[i])
  {
    if |s| == 0 then "" else [UpperChar(s[0])] + Upper(s[1..])
  }

  /** Lower-casing twice is lower-casing once. */
  lemma LowerIdempotent(s: string)
    ensures Lower(Lower(s)) == Lower(s)
  {
  }

  /** Lower-casing works character by character, so it distributes over concatenation. */
  lemma LowerConcat(a: string, b: string)
    ensures Lower(a + b) == Lower(a) + Lower(b)
  {
    assert forall i :: 0 <= i < |a + b| ==> Lower(a + b)[i] == (Lower(a) + Lower(b))[i];
  }

  /** Case-insensitive character equality of a regex with the `i` flag and no `u` flag. */
  predicate CharEqIgnoreCase(a: char, b: char) { UpperChar(a) == UpperChar(b) }

  /** `p` occurs at position `i` of `s`, compared case-insensitively. */
  predicate MatchesAtIgnoreCase(s: string, i: nat, p: string) {
    i + |p| <= |s| && forall k :: 0 <= k < |p| ==> CharEqIgnoreCase(s[i + k], p[k])
  }

  /** `p` occurs at position `i` of `s` exactly. */
  predicate MatchesAt(s: string, i: nat, p: string) {
    i + |p| <= |s| && s[i..i + |p|] == p
  }

  // ---------------------------------------------------------------------------
  // Runs of characters

  /** Length of the longest run of whitespace starting at `i`. */
  function SpaceRun(s: string, i: nat): (n: nat)
    requires i <= |s|
    ensures i + n <= |s|
    ensures forall k :: i <= k < i + n ==> IsSpace(s[k])
    ensures i + n < |s| ==> !IsSpace(s[i + n])
    decreases |s| - i
  {
    if i < |s| && IsSpace(s[i]) then 1 + SpaceRun(s, i + 1) else 0
  }

  /** Length of the longest run of ASCII digits starting at `i`. */
  function DigitRun(s: string, i: nat): (n: nat)
    requires i <= |s|
    ensures i + n <= |s|
    ensures forall k :: i <= k < i + n ==> IsDigit(s[k])
    ensures i + n < |s| ==> !IsDigit(s[i + n])
    decreases |s| - i
  {
    if i < |s| && IsDigit(s[i]) then 1 + DigitRun(s, i + 1) else 0
  }

  /** Length of the longest run of `\w` characters starting at `i`. */
  function WordRun(s: string, i: nat): (n: nat)
    requires i <= |s|
    ensures i + n <= |s|
    ensures forall k :: i <= k < i + n ==> IsWordChar(s[k])
    ensures i + n < |s| ==> !IsWordChar(s[i + n])
    decreases |s| - i
  {
    if i < |s| && IsWordChar(s[i]) then 1 + WordRun(s, i + 1) else 0
  }

  // ---------------------------------------------------------------------------
  // trim

  function TrimStart(s: string): (r: string)
    ensures |r| <= |s| && r == s[|s| - |r|..]
    ensures |r| > 0 ==> !IsSpace(r[0])
    ensures forall k :: 0 <= k < |s| - |r| ==> IsSpace(s[k])
  {
    if |s| > 0 && IsSpace(s[0]) then TrimStart(s[1..]) else s
  }

  function TrimEnd(s: string): (r: string)
    ensures |r| <= |s| && r == s[..|r|]
    ensures |r| > 0 ==> !IsSpace(r[|r| - 1])
    ensures forall k :: |r| <= k < |s| ==> IsSpace(s[k])
  {
    if |s| > 0 && IsSpace(s[|s| - 1]) then TrimEnd(s[..|s| - 1]) else s
  }

  function Trim(s: string): string {
    TrimEnd(TrimStart(s))
  }

  /** `s.trim() === ''`. */
  predicate IsBlank(s: string) {
    forall k :: 0 <= k < |s| ==> IsSpace(s[k])
  }

  lemma {:induction false} TrimEmptyIffBlank(s: string)
    ensures Trim(s) == "" <==> IsBlank(s)
  {
    if !IsBlank(s) {
      var k :| 0 <= k < |s| && !IsSpace(s[k]);
      NotBlankAfterTrimStart(s, k);
    }
  }

  lemma NotBlankAfterTrimStart(s: string, k: nat)
    requires k < |s| && !IsSpace(s[k])
    ensures TrimEnd(TrimStart(s)) != ""
  {
    var t := TrimStart(s);
    assert t[k - (|s| - |t|)] == s[k];
  }

  // ---------------------------------------------------------------------------
  // includes / indexOf / replace(string, string)

  /** First index at or after `from` where `t` occurs in `s`. */
  function IndexOfFrom(s: string, t: string, from: nat): (r: Option<nat>)
    requires from <= |s|
    ensures r.Some? ==> from <= r.value && MatchesAt(s, r.value, t)
    ensures r.Some? ==> forall j :: from <= j < r.value ==> !MatchesAt(s, j, t)
    ensures r.None? ==> forall j :: from <= j <= |s| ==> !MatchesAt(s, j, t)
    decreases |s| - from
  {
    if MatchesAt(s, from, t) then Some(from)
    else if from == |s| then None
    else IndexOfFrom(s, t, from + 1)
  }

  function IndexOf(s: string, t: string): Option<nat> {
    IndexOfFrom(s, t, 0)
  }

  /** `s.includes(t)`. */
  predicate Contains(s: string, t: string) {
    IndexOf(s, t).Some?
  }

  lemma ContainsIff(s: string, t: string)
    ensures Contains(s, t) <==> exists j :: 0 <= j <= |s| && MatchesAt(s, j, t)
  {
  }

  /** `s.replace(pat, rep)` with a string pattern: only the first occurrence is replaced. */
  function ReplaceFirst(s: string, pat: string, rep: string): (r: string)
    ensures IndexOf(s, pat).None? ==> r == s
    ensures IndexOf(s, pat).Some? ==>
      var j := IndexOf(s, pat).value;
      r == s[..j] + rep + s[j + |pat|..]
  {
    match IndexOf(s, pat)
    case None => s
    case Some(j) => s[..j] + rep + s[j + |pat|..]
  }

  // ---------------------------------------------------------------------------
  // split / join

  /** `s.split(c)` for a one-character separator. */
  function Split(s: string, c: char): (r: seq<string>)
    ensures |r| >= 1
  {
    if |s| == 0 then [""]
    else if s[0] == c then [""] + Split(s[1..], c)
    else
      var rest := Split(s[1..], c);
      [[s[0]] + rest[0]] + rest[1..]
  }

  /** `parts.join(sep)`. */
  function Join(parts: seq<string>, sep: string): string {
    if |parts| == 0 then ""
    else if |parts| == 1 then parts[0]
    else parts[0] + sep + Join(parts[1..], sep)
  }

  lemma JoinLength(parts: seq<string>, sep: string)
    requires |parts| >= 1
    ensures |Join(parts, sep)| >= |parts[0]|
  {
  }

  predicate NoChar(s: string, c: char) { forall k :: 0 <= k < |s| ==> s[k] != c }

  lemma {:induction false} SplitOfPiece(p: string, t: string, c: char)
    requires NoChar(p, c)
    ensures Split(p + t, c) == [p + Split(t, c)[0]] + Split(t, c)[1..]
    decreases |p|
  {
    if |p| == 0 {
      var st := Split(t, c);
      assert p + t == t;
      assert p + st[0] == st[0];
      assert [st[0]] + st[1..] == st;
    } else {
      var q := p[1..];
      assert NoChar(q, c) by {
        forall k | 0 <= k < |q| ensures q[k] != c {
          assert q[k] == p[k + 1];
        }
      }
      SplitOfPiece(q, t, c);
      var st := Split(t, c);
      var rest := Split(q + t, c);
      assert rest == [q + st[0]] + st[1..];
      assert (p + t)[0] == p[0] && p[0] != c;
      assert (p + t)[1..] == q + t;
      assert Split(p + t, c) == [[p[0]] + rest[0]] + rest[1..];
      assert [p[0]] + (q + st[0]) == p + st[0];
    }
  }

  /** Splitting a join on its separator gives back the parts, when no part contains it. */
  lemma {:induction false} SplitJoin(parts: seq<string>, c: char)
    requires |parts| >= 1
    requires forall i :: 0 <= i < |parts| ==> NoChar(parts[i], c)
    ensures Split(Join(parts, [c]), c) == parts
    decreases |parts|
  {
    if |parts| == 1 {
      SplitOfPiece(parts[0], "", c);
      assert parts[0] + "" == parts[0];
    } else {
      var rest := Join(parts[1..], [c]);
      SplitJoin(parts[1..], c);
      assert Join(parts, [c]) == parts[0] + ([c] + rest);
      SplitOfPiece(parts[0], [c] + rest, c);
      assert ([c] + rest)[0] == c && ([c] + rest)[1..] == rest;
      assert Split([c] + rest, c) == [""] + parts[1..];
      assert parts[0] + "" == parts[0];
      assert [parts[0]] + parts[1..] == parts;
    }
  }

  /** Joining the pieces of a split restores the string. */
  lemma {:induction false} JoinSplit(s: string, c: char)
    ensures Join(Split(s, c), [c]) == s
    decreases |s|
  {
    if |s| == 0 {
    } else if s[0] == c {
      JoinSplit(s[1..], c);
      JoinCons("", Split(s[1..], c), [c]);
      assert s == [c] + s[1..];
    } else {
      JoinSplit(s[1..], c);
      JoinOntoFirst([s[0]], Split(s[1..], c), [c]);
      assert s == [s[0]] + s[1..];
    }
  }

  lemma JoinCons(h: string, t: seq<string>, sep: string)
    requires |t| >= 1
    ensures Join([h] + t, sep) == h + sep + Join(t, sep)
  {
    assert ([h] + t)[1..] == t;
  }

  /** Gluing `x` onto the first part glues it onto the front of the join. */
  lemma JoinOntoFirst(x: string, parts: seq<string>, sep: string)
    requires |parts| >= 1
    ensures Join([x + parts[0]] + parts[1..], sep) == x + Join(parts, sep)
  {
    if |parts| > 1 {
      JoinCons(x + parts[0], parts[1..], sep);
      assert x + parts[0] + sep + Join(parts[1..], sep) == x + (parts[0] + sep + Join(parts[1..], sep));
    }
  }

  /** No piece of a split contains the separator. */
  lemma {:induction false} SplitPiecesNoSep(s: string, c: char)
    ensures forall i :: 0 <= i < |Split(s, c)| ==> NoChar(Split(s, c)[i], c)
    decreases |s|
  {
    if |s| > 0 {
      SplitPiecesNoSep(s[1..], c);
    }
  }

  // ---------------------------------------------------------------------------
  // Array.from(new Set(xs)): first occurrences, in order

  function Dedup(xs: seq<string>): (r: seq<string>)
    ensures forall x :: x in r <==> x in xs
  {
    if |xs| == 0 then []
    else
      var d := Dedup(xs[..|xs| - 1]);
      assert xs == xs[..|xs| - 1] + [xs[|xs| - 1]];
      if xs[|xs| - 1] in d then d else d + [xs[|xs| - 1]]
  }

  predicate Distinct<T(==)>(xs: seq<T>) {
    forall i, j :: 0 <= i < j < |xs| ==> xs[i] != xs[j]
  }

  lemma {:induction false} DedupDistinct(xs: seq<string>)
    ensures Distinct(Dedup(xs))
    decreases |xs|
  {
    if |xs| > 0 {
      DedupDistinct(xs[..|xs| - 1]);
    }
  }

  /** De-duplicating a concatenation keeps the de-duplicated first part as a prefix:
      the entries of `a` come first, in their order. */
  lemma {:induction false} DedupPrefix(a: seq<string>, b: seq<string>)
    ensures |Dedup(a)| <= |Dedup(a + b)|
    ensures Dedup(a + b)[..|Dedup(a)|] == Dedup(a)
    decreases |b|
  {
    if |b| == 0 {
      assert a + b == a;
    } else {
      var b' := b[..|b| - 1];
      DedupPrefix(a, b');
      assert (a + b)[..|a + b| - 1] == a + b';
    }
  }

  /** The entries of `b` that are not in `a`, first occurrences only, in the
      order of `b`: what de-duplicating `a + b` appends after `a`'s entries. */
  function DedupAfter(a: seq<string>, b: seq<string>): (r: seq<string>)
    ensures forall x :: x in r <==> x in b && x !in a
  {
    if |b| == 0 then []
    else
      var d := DedupAfter(a, b[..|b| - 1]);
      assert b == b[..|b| - 1] + [b[|b| - 1]];
      if b[|b| - 1] in a || b[|b| - 1] in d then d else d + [b[|b| - 1]]
  }

  /** De-duplicating a concatenation is the de-duplicated first part followed by
      the new entries of the second part, in their order. */
  lemma {:induction false} DedupAppend(a: seq<string>, b: seq<string>)
    ensures Dedup(a + b) == Dedup(a) + DedupAfter(a, b)
    decreases |b|
  {
    if |b| == 0 {
      assert a + b == a;
    } else {
      var b' := b[..|b| - 1];
      DedupAppend(a, b');
      assert (a + b)[..|a + b| - 1] == a + b';
      assert (a + b)[|a + b| - 1] == b[|b| - 1];
    }
  }

  /** The position of the first occurrence of `x`: `xs.indexOf(x)`. */
  function FirstIndex(xs: seq<string>, x: string): (k: nat)
    requires x in xs
    ensures k < |xs| && xs[k] == x
    ensures forall j :: 0 <= j < k ==> xs[j] != x
  {
    if xs[0] == x then 0 else 1 + FirstIndex(xs[1..], x)
  }

  /** Concatenation is associative. */
  lemma AppendAssoc<T>(a: seq<T>, b: seq<T>, c: seq<T>)
    ensures (a + b) + c == a + (b + c)
  {
  }

  /** `Dedup` lists the elements in the order of their first occurrences. */
  lemma {:induction false} DedupOrder(xs: seq<string>)
    ensures forall i, j :: 0 <= i < j < |Dedup(xs)| ==> FirstIndex(xs, Dedup(xs)[i]) < FirstIndex(xs, Dedup(xs)[j])
    decreases |xs|
  {
    if |xs| > 0 {
      var init := xs[..|xs| - 1];
      DedupOrder(init);
      assert xs == init + [xs[|xs| - 1]];
      forall z | z in init
        ensures FirstIndex(xs, z) == FirstIndex(init, z)
      {
        var k := FirstIndex(init, z);
        assert xs[k] == z;
      }
    }
  }

  /** De-duplicating a list that is already duplicate-free changes nothing. */
  lemma {:induction false} DedupOfDistinct(xs: seq<string>)
    requires Distinct(xs)
    ensures Dedup(xs) == xs
    decreases |xs|
  {
    if |xs| > 0 {
      var init := xs[..|xs| - 1];
      DedupOfDistinct(init);
      assert xs[|xs| - 1] !in init;
      assert init + [xs[|xs| - 1]] == xs;
    }
  }

  // ---------------------------------------------------------------------------
  // Number.prototype.toString(radix) and digit strings

  /** The digit character for `d` in base 36 (lower case, as `toString(radix)` prints). */
  function DigitChar(d: nat): (c: char)
    requires d < 36
    ensures DigitValue(c) == d
  {
    if d < 10 then ('0' as int + d) as char else ('a' as int + d - 10) as char
  }

  /** Value of one digit character in base 36 (either case); 36 when it is not a digit. */
  function DigitValue(c: char): (d: nat)
    ensures d <= 36
  {
    if '0' <= c <= '9' then c as int - '0' as int
    else if 'a' <= c <= 'z' then c as int - 'a' as int + 10
    else if 'A' <= c <= 'Z' then c as int - 'A' as int + 10
    else 36
  }

  predicate IsRadixDigit(c: char, radix: nat) { DigitValue(c) < radix }

  predicate AllRadixDigits(s: string, radix: nat) {
    forall i :: 0 <= i < |s| ==> IsRadixDigit(s[i], radix)
  }

  lemma DivMod(n: nat, radix: nat)
    requires 2 <= radix
    ensures n == (n / radix) * radix + n % radix && n % radix < radix
    ensures n >= radix ==> 1 <= n / radix < n
    ensures n < radix ==> n % radix == n
  {
    var q := n / radix;
    if n >= radix {
      assert q * radix >= q * 2;
    }
  }

  /** `n.toString(radix)` for a non-negative integer. */
  function ToRadix(n: nat, radix: nat): (r: string)
    requires 2 <= radix <= 36
    ensures |r| >= 1 && AllRadixDigits(r, radix)
    ensures n >= 1 ==> r[0] != '0'
    ensures |r| > 1 ==> r[0] != '0'
    decreases n
  {
    DivMod(n, radix);
    var d := DigitChar(n % radix);
    if n < radix then [d]
    else
      var p := ToRadix(n / radix, radix);
      AppendRadixDigit(p, d, radix);
      p + [d]
  }

  lemma AppendRadixDigit(p: string, d: char, radix: nat)
    requires |p| >= 1 && AllRadixDigits(p, radix) && IsRadixDigit(d, radix)
    ensures AllRadixDigits(p + [d], radix) && (p + [d])[0] == p[0]
  {
  }

  /** The value of a string of digits in base `radix` (the inverse of `ToRadix`). */
  function FromRadix(s: string, radix: nat): nat
    requires AllRadixDigits(s, radix)
  {
    if |s| == 0 then 0 else FromRadix(s[..|s| - 1], radix) * radix + DigitValue(s[|s| - 1])
  }

  /** Printing and reading back in any radix is the identity. */
  lemma {:induction false} RadixRoundTrip(n: nat, radix: nat)
    requires 2 <= radix <= 36
    ensures FromRadix(ToRadix(n, radix), radix) == n
    decreases n
  {
    var r := ToRadix(n, radix);
    DivMod(n, radix);
    var d := DigitChar(n % radix);
    if n >= radix {
      var q := n / radix;
      RadixRoundTrip(q, radix);
      assert r[..|r| - 1] == ToRadix(q, radix);
      assert FromRadix(r, radix) == FromRadix(ToRadix(q, radix), radix) * radix + n % radix;
    } else {
      assert r == [d];
      assert r[..0] == [];
    }
  }

  /** Decimal text of a natural number (`String(n)`, template literals). */
  function NatToString(n: nat): (r: string)
    ensures |r| >= 1 && AllDigits(r)
  {
    var r := ToRadix(n, 10);
    assert forall i :: 0 <= i < |r| ==> IsRadixDigit(r[i], 10) ==> IsDigit(r[i]);
    r
  }

  lemma NatToStringInjective(a: nat, b: nat)
    requires NatToString(a) == NatToString(b)
    ensures a == b
  {
    RadixRoundTrip(a, 10);
    RadixRoundTrip(b, 10);
  }

  /** `i.toString(radix)`: a minus sign followed by the magnitude for negatives. */
  function IntToRadix(i: int, radix: nat): string
    requires 2 <= radix <= 36
  {
    if i < 0 then "-" + ToRadix(-i, radix) else ToRadix(i, radix)
  }

  function IntToString(i: int): string {
    IntToRadix(i, 10)
  }

  /** Value of a string of decimal digits. */
  function DigitsValue(s: string): nat
    requires AllDigits(s)
  {
    assert AllRadixDigits(s, 10);
    FromRadix(s, 10)
  }

  lemma DigitsOfNat(n: nat)
    ensures DigitsValue(NatToString(n)) == n
  {
    RadixRoundTrip(n, 10);
  }

  // ---------------------------------------------------------------------------
  // parseInt, parseFloat and Number on strings

  /** Length of the longest run of base-`radix` digits starting at `i`. */
  function RadixRun(s: string, i: nat, radix: nat): (n: nat)
    requires i <= |s|
    ensures i + n <= |s|
    ensures forall k :: i <= k < i + n ==> IsRadixDigit(s[k], radix)
    decreases |s| - i
  {
    if i < |s| && IsRadixDigit(s[i], radix) then 1 + RadixRun(s, i + 1, radix) else 0
  }

  /** `parseInt(s)` (no radix argument): leading whitespace and a sign are skipped, a
      `0x`/`0X` prefix selects base 16, and the longest digit prefix is read; `None`
      is `NaN`. */
  function ParseInt(s: string): (r: Option<int>)
  {
    var t := TrimStart(s);
    var neg := |t| > 0 && t[0] == '-';
    var u := if |t| > 0 && (t[0] == '-' || t[0] == '+') then t[1..] else t;
    var hex := |u| >= 2 && u[0] == '0' && (u[1] == 'x' || u[1] == 'X');
    var radix := if hex then 16 else 10;
    var body := if hex then u[2..] else u;
    var n := RadixRun(body, 0, radix);
    if n == 0 then None
    else
      assert AllRadixDigits(body[..n], radix);
      var m: int := FromRadix(body[..n], radix);
      Some(if neg then -m else m)
  }

  lemma {:induction false} RadixRunOfDigits(s: string, i: nat)
    requires i <= |s| && AllDigits(s)
    ensures RadixRun(s, i, 10) == |s| - i
    decreases |s| - i
  {
    if i < |s| {
      assert IsRadixDigit(s[i], 10);
      RadixRunOfDigits(s, i + 1);
    }
  }

  lemma DigitIsNotSpace(c: char)
    requires IsDigit(c)
    ensures !IsSpace(c)
  {
  }

  lemma TrimStartOfDigits(s: string)
    requires |s| > 0 && IsDigit(s[0])
    ensures TrimStart(s) == s
  {
    DigitIsNotSpace(s[0]);
  }

  lemma TrimOfDigits(s: string)
    requires |s| > 0 && AllDigits(s)
    ensures Trim(s) == s
  {
    TrimStartOfDigits(s);
    DigitIsNotSpace(s[|s| - 1]);
  }

  /** `parseInt` of a run of decimal digits is its decimal value. */
  lemma ParseIntOfDigits(s: string)
    requires |s| > 0 && AllDigits(s)
    ensures ParseInt(s) == Some(DigitsValue(s) as int)
  {
    TrimStartOfDigits(s);
    RadixRunOfDigits(s, 0);
    assert s[..|s|] == s;
  }

  function Pow10(e: nat): (r: nat)
    ensures r >= 1
  {
    if e == 0 then 1 else 10 * Pow10(e - 1)
  }

  /** The digits `v` read after a decimal point, `b` of them. */
  function Fraction(v: nat, b: nat): real {
    v as real / Pow10(b) as real
  }

  /** `m` times ten to the `e`, or divided by it when `down` holds. */
  function ShiftDecimal(m: real, e: nat, down: bool): real {
    if down then m / Pow10(e) as real else m * Pow10(e) as real
  }

  /** The longest StrUnsignedDecimalLiteral (without `Infinity`) at the start of `s`:
      its value and its length.  An exponent is taken only when digits follow it. */
  function UnsignedDecimalPrefix(s: string): (r: Option<(real, nat)>)
    ensures r.Some? ==> 0 < r.value.1 <= |s|
  {
    var a := DigitRun(s, 0);
    var hasPoint := a < |s| && s[a] == '.';
    var b := if hasPoint then DigitRun(s, a + 1) else 0;
    if a == 0 && b == 0 then None
    else
      var intPart := DigitsValue(s[..a]) as real;
      var mantissa :=
        if hasPoint then intPart + Fraction(DigitsValue(s[a + 1..a + 1 + b]), b)
        else intPart;
      var len := if hasPoint then a + 1 + b else a;
      var hasE := len < |s| && (s[len] == 'e' || s[len] == 'E');
      var signLen := if hasE && len + 1 < |s| && (s[len + 1] == '+' || s[len + 1] == '-') then 1 else 0;
      var c := if hasE then DigitRun(s, len + 1 + signLen) else 0;
      if c == 0 then Some((mantissa, len))
      else
        var e := DigitsValue(s[len + 1 + signLen..len + 1 + signLen + c]);
        var negE := signLen == 1 && s[len + 1] == '-';
        var v := ShiftDecimal(mantissa, e, negE);
        Some((v, len + 1 + signLen + c))
  }

  /** `parseFloat(s)`: whitespace and a sign are skipped, then the longest decimal
      literal prefix is read; `None` is `NaN`. */
  function ParseFloat(s: string): Option<real> {
    var t := TrimStart(s);
    var neg := |t| > 0 && t[0] == '-';
    var u := if |t| > 0 && (t[0] == '-' || t[0] == '+') then t[1..] else t;
    match UnsignedDecimalPrefix(u)
    case None => None
    case Some((v, _)) => Some(if neg then -v else v)
  }

  /** `Number(s)`: the whole trimmed text must be a numeric literal; the empty text is 0;
      `0x`/`0o`/`0b` prefixes select a radix; `None` is `NaN`. */
  function StringToNumber(s: string): Option<real> {
    var t := Trim(s);
    if t == "" then Some(0.0)
    else if |t| > 2 && t[0] == '0' && (t[1] == 'x' || t[1] == 'X' || t[1] == 'o' || t[1] == 'O' || t[1] == 'b' || t[1] == 'B') then
      var radix := if t[1] == 'x' || t[1] == 'X' then 16 else if t[1] == 'o' || t[1] == 'O' then 8 else 2;
      var body := t[2..];
      if AllRadixDigits(body, radix) then Some(FromRadix(body, radix) as real) else None
    else
      var neg := t[0] == '-';
      var u := if t[0] == '-' || t[0] == '+' then t[1..] else t;
      match UnsignedDecimalPrefix(u)
      case Some((v, len)) => if len == |u| then Some(if neg then -v else v) else None
      case None => None
  }

  /** Plain digit strings read as their value, whatever the reader. */
  lemma {:induction false} DigitsReadBack(n: nat)
    ensures StringToNumber(NatToString(n)) == Some(n as real)
  {
    var s := NatToString(n);
    DigitsOfNat(n);
    TrimOfDigits(s);
    assert s[0] != '-' && s[0] != '+';
    if |s| > 2 {
      assert s[0] != '0';
    }
    DigitRunAll(s, 0);
    assert s[..|s|] == s;
  }

  lemma {:induction false} DigitRunAll(s: string, i: nat)
    requires i <= |s|
    requires AllDigits(s)
    ensures DigitRun(s, i) == |s| - i
    decreases |s| - i
  {
    if i < |s| {
      DigitRunAll(s, i + 1);
    }
  }

  // ---------------------------------------------------------------------------
  // Searching positions, prefixes and suffixes

  /** The first position `j` with `i <= j <= n` where `p` holds: how a regex without
      the `g` flag finds its leftmost match. */
  function FirstWhere(n: nat, p: nat -> bool, i: nat): (r: Option<nat>)
    ensures r.Some? ==> i <= r.value <= n && p(r.value)
    ensures r.Some? ==> forall k :: i <= k < r.value ==> !p(k)
    ensures r.None? ==> forall k :: i <= k <= n ==> !p(k)
    decreases n + 1 - i
  {
    if i > n then None else if p(i) then Some(i) else FirstWhere(n, p, i + 1)
  }

  lemma FirstWhereAtStart(n: nat, p: nat -> bool)
    requires p(0)
    ensures FirstWhere(n, p, 0) == Some(0)
  {
  }

  /** `s.endsWith(t)`. */
  predicate EndsWith(s: string, t: string) {
    |t| <= |s| && s[|s| - |t|..] == t
  }

  /** `xs.splice(0, n)` as a value: the first `n` entries (all of them when fewer). */
  function Take<T>(xs: seq<T>, n: nat): (r: seq<T>)
    ensures |r| <= n && |r| <= |xs| && r == xs[..|r|]
    ensures |xs| <= n ==> r == xs
  {
    if |xs| <= n then xs else xs[..n]
  }

  /** `s.startsWith(t)`. */
  predicate StartsWith(s: string, t: string) {
    |t| <= |s| && s[..|t|] == t
  }

  /** `s.replace(/pat/g, rep)` for a non-empty literal pattern: left to right, without overlaps. */
  function ReplaceAll(s: string, pat: string, rep: string): string
    requires |pat| > 0
    decreases |s|
  {
    if |s| == 0 then ""
    else if MatchesAt(s, 0, pat) then rep + ReplaceAll(s[|pat|..], pat, rep)
    else [s[0]] + ReplaceAll(s[1..], pat, rep)
  }

  /** The reverse of a sequence. */
  function Reversed<T>(xs: seq<T>): (r: seq<T>)
    ensures |r| == |xs| && forall k :: 0 <= k < |xs| ==> r[k] == xs[|xs| - 1 - k]
  {
    if |xs| == 0 then [] else Reversed(xs[1..]) + [xs[0]]
  }

  // ---------------------------------------------------------------------------
  // Array.prototype.sort() on strings: ascending by character codes

  predicate StrLt(a: string, b: string) {
    if |a| == 0 then |b| > 0
    else if |b| == 0 then false
    else if a[0] != b[0] then a[0] < b[0]
    else StrLt(a[1..], b[1..])
  }

  predicate StrLe(a: string, b: string) { a == b || StrLt(a, b) }

  lemma {:induction false} StrLeTotal(a: string, b: string)
    ensures StrLe(a, b) || StrLe(b, a)
    decreases |a|
  {
    if |a| > 0 && |b| > 0 && a[0] == b[0] {
      StrLeTotal(a[1..], b[1..]);
      if a[1..] == b[1..] {
        assert a == [a[0]] + a[1..] && b == [b[0]] + b[1..];
      }
    }
  }

  /** Each entry is at most the next one. */
  predicate SortedStrings(xs: seq<string>) {
    forall k :: 0 < k < |xs| ==> StrLe(xs[k - 1], xs[k])
  }

  function InsertSorted(x: string, xs: seq<string>): (r: seq<string>)
    requires SortedStrings(xs)
    ensures SortedStrings(r) && multiset(r) == multiset(xs) + multiset{x}
    ensures |r| > 0 && (r[0] == x || (|xs| > 0 && r[0] == xs[0]))
  {
    if |xs| == 0 then [x]
    else if StrLe(x, xs[0]) then [x] + xs
    else
      StrLeTotal(x, xs[0]);
      var rest := InsertSorted(x, xs[1..]);
      assert xs == [xs[0]] + xs[1..];
      [xs[0]] + rest
  }

  /** `[...xs].sort()`. */
  function SortStrings(xs: seq<string>): (r: seq<string>)
    ensures SortedStrings(r) && multiset(r) == multiset(xs)
  {
    if |xs| == 0 then []
    else
      assert xs == [xs[0]] + xs[1..];
      InsertSorted(xs[0], SortStrings(xs[1..]))
  }
}
