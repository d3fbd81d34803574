/** The JavaScript string operations the dashboard relies on: `trim`,
    `toUpperCase`/`toLowerCase`, `startsWith`, `includes`, `lastIndexOf`
    and the UTF-16 code-unit order used by a bare `Array.prototype.sort()`, with
    `String(n)`, `padStart` and `parseInt` on decimal numbers. */
module Strings {
  import opened Wrappers
  import opened Seqs

  /** JavaScript WhiteSpace and LineTerminator characters, which `trim`
      removes. */
  predicate IsSpace(c: char)
  {
    || ('\U{0009}' <= c <= '\U{000D}')
    || c == ' ' || c == '\U{00A0}' || c == '\U{1680}'
    || ('\U{2000}' <= c <= '\U{200A}')
    || c == '\U{2028}' || c == '\U{2029}' || c == '\U{202F}'
    || c == '\U{205F}' || c == '\U{3000}' || c == '\U{FEFF}'
  }

  function TrimStart(s: string): string
  {
    if s != [] && IsSpace(s[0]) then TrimStart(s[1..]) else s
  }

  function TrimEnd(s: string): string
  {
    if s != [] && IsSpace(Last(s)) then TrimEnd(DropLast(s)) else s
  }

  /** `String.prototype.trim`. */
  function Trim(s: string): string
  {
    TrimEnd(TrimStart(s))
  }

  lemma {:induction false} TrimStartSpec(s: string)
    ensures var r := TrimStart(s);
      (exists i :: 0 <= i <= |s| && r == s[i..] && (forall k :: 0 <= k < i ==> IsSpace(s[k])))
      && (r == [] || !IsSpace(r[0]))
    decreases |s|
  {
    if s != [] && IsSpace(s[0]) {
      TrimStartSpec(s[1..]);
      var i :| 0 <= i <= |s[1..]| && TrimStart(s[1..]) == s[1..][i..] && (forall k :: 0 <= k < i ==> IsSpace(s[1..][k]));
      assert s[1..][i..] == s[i + 1..];
      forall k | 0 <= k < i + 1 ensures IsSpace(s[k]) {
        if k > 0 { assert s[k] == s[1..][k - 1]; }
      }
    } else {
      assert TrimStart(s) == s[0..];
    }
  }

  lemma {:induction false} TrimEndSpec(s: string)
    ensures var r := TrimEnd(s);
      (exists j :: 0 <= j <= |s| && r == s[..j] && (forall k :: j <= k < |s| ==> IsSpace(s[k])))
      && (r == [] || !IsSpace(Last(r)))
    decreases |s|
  {
    if s != [] && IsSpace(Last(s)) {
      var d := DropLast(s);
      TrimEndSpec(d);
      var j :| 0 <= j <= |d| && TrimEnd(d) == d[..j] && (forall k :: j <= k < |d| ==> IsSpace(d[k]));
      assert d[..j] == s[..j];
      forall k | j <= k < |s| ensures IsSpace(s[k]) {
        if k < |d| { assert s[k] == d[k]; }
      }
    } else {
      assert TrimEnd(s) == s[..|s|];
    }
  }

  /** `trim` removes only white space, from both ends, and leaves no white
      space at either end. */
  lemma TrimSpec(s: string)
    ensures var r := Trim(s);
      exists i, j :: 0 <= i <= j <= |s| && r == s[i..j]
        && (forall k :: 0 <= k < i ==> IsSpace(s[k]))
        && (forall k :: j <= k < |s| ==> IsSpace(s[k]))
        && (r == [] || (!IsSpace(r[0]) && !IsSpace(Last(r))))
  {
    TrimBetween(s);
    TrimEnds(s);
  }

  /** `trim` keeps a slice and removes only white space around it. */
  lemma TrimBetween(s: string)
    ensures var r := Trim(s);
      exists i, j :: 0 <= i <= j <= |s| && r == s[i..j]
        && (forall k :: 0 <= k < i ==> IsSpace(s[k]))
        && (forall k :: j <= k < |s| ==> IsSpace(s[k]))
  {
    var i := LeadingSpaces(s);
    var j := TrailingSpaces(TrimStart(s));
    SliceOfSlice(s, TrimStart(s), Trim(s), i, j, IsSpace);
  }

  /** Where `trimStart` cuts. */
  lemma LeadingSpaces(s: string) returns (i: nat)
    ensures i <= |s| && TrimStart(s) == s[i..] && forall k :: 0 <= k < i ==> IsSpace(s[k])
  {
    TrimStartSpec(s);
    i :| 0 <= i <= |s| && TrimStart(s) == s[i..] && (forall k :: 0 <= k < i ==> IsSpace(s[k]));
  }

  /** Where `trimEnd` cuts. */
  lemma TrailingSpaces(t: string) returns (j: nat)
    ensures j <= |t| && TrimEnd(t) == t[..j] && forall k :: j <= k < |t| ==> IsSpace(t[k])
  {
    TrimEndSpec(t);
    j :| 0 <= j <= |t| && TrimEnd(t) == t[..j] && (forall k :: j <= k < |t| ==> IsSpace(t[k]));
  }

  /** A prefix of a suffix is a slice, whatever the dropped characters are. */
  lemma SliceOfSlice(s: string, t: string, r: string, i: nat, j: nat, drop: char -> bool)
    requires i <= |s| && t == s[i..] && forall k :: 0 <= k < i ==> drop(s[k])
    requires j <= |t| && r == t[..j] && forall k :: j <= k < |t| ==> drop(t[k])
    ensures exists a, b :: (0 <= a <= b <= |s| && r == s[a..b]
        && (forall k :: 0 <= k < a ==> drop(s[k]))
        && (forall k :: b <= k < |s| ==> drop(s[k])))
  {
    assert r == s[i..i + j];
    forall k | i + j <= k < |s| ensures drop(s[k]) {
      assert s[k] == t[k - i];
    }
  }

  /** `trim` leaves no white space at either end. */
  lemma TrimEnds(s: string)
    ensures var r := Trim(s); r == [] || (!IsSpace(r[0]) && !IsSpace(Last(r)))
  {
    var t := TrimStart(s);
    TrimStartSpec(s);
    var r := TrimEnd(t);
    TrimEndSpec(t);
    var j :| 0 <= j <= |t| && r == t[..j] && (forall k :: j <= k < |t| ==> IsSpace(t[k]));
    if r != [] { assert r[0] == t[0]; }
  }

  /** A string without white space at its ends is its own trim. */
  lemma TrimNoop(s: string)
    requires s == [] || (!IsSpace(s[0]) && !IsSpace(Last(s)))
    ensures Trim(s) == s
  {
  }

  lemma TrimIdempotent(s: string)
    ensures Trim(Trim(s)) == Trim(s)
  {
    TrimEnds(s);
    TrimNoop(Trim(s));
  }

  /** `toUpperCase` on ASCII and Latin-1 letters: the micro sign becomes
      Greek capital mu and y-diaeresis its capital, both outside Latin-1;
      sharp s, which `toUpperCase` expands to "SS", stays as it is. */
  function UpperChar(c: char): char
  {
    if 'a' <= c <= 'z' || ('\U{00E0}' <= c <= '\U{00FE}' && c != '\U{00F7}') then
      (c as int - 32) as char
    else if c == '\U{00B5}' then '\U{039C}'
    else if c == '\U{00FF}' then '\U{0178}'
    else c
  }

  /** `toLowerCase` on ASCII and Latin-1 letters. */
  function LowerChar(c: char): char
  {
    if 'A' <= c <= 'Z' || ('\U{00C0}' <= c <= '\U{00DE}' && c != '\U{00D7}') then
      (c as int + 32) as char
    else c
  }

  function ToUpper(s: string): (r: string)
    ensures |r| == |s| && forall i :: 0 <= i < |s| ==> r[i] == UpperChar(s[i])
  {
    Map(s, UpperChar)
  }

  function ToLower(s: string): (r: string)
    ensures |r| == |s| && forall i :: 0 <= i < |s| ==> r[i] == LowerChar(s[i])
  {
    Map(s, LowerChar)
  }

  /** Case mapping never turns white space into a letter or back. */
  lemma CaseKeepsSpace(c: char)
    ensures IsSpace(UpperChar(c)) == IsSpace(c)
    ensures IsSpace(LowerChar(c)) == IsSpace(c)
  {
  }

  lemma CaseIdempotent(c: char)
    ensures UpperChar(UpperChar(c)) == UpperChar(c)
    ensures LowerChar(LowerChar(c)) == LowerChar(c)
  {
  }

  /** A character-wise image of a trimmed string that keeps white space
      where it was is already trimmed. */
  lemma TrimmedImage(s: string, m: string)
    requires |m| == |Trim(s)|
    requires forall i :: 0 <= i < |m| ==> IsSpace(m[i]) == IsSpace(Trim(s)[i])
    ensures Trim(m) == m
  {
    TrimEnds(s);
    if m != [] {
      assert IsSpace(m[0]) == IsSpace(Trim(s)[0]);
      assert IsSpace(Last(m)) == IsSpace(Last(Trim(s)));
    }
    TrimNoop(m);
  }

  /** Trimming then upper-casing (the `normalizeCode` shape) is idempotent. */
  lemma TrimUpperIdempotent(s: string)
    ensures ToUpper(Trim(ToUpper(Trim(s)))) == ToUpper(Trim(s))
  {
    var m := ToUpper(Trim(s));
    forall i | 0 <= i < |m| ensures IsSpace(m[i]) == IsSpace(Trim(s)[i]) && UpperChar(m[i]) == m[i] {
      CaseKeepsSpace(Trim(s)[i]);
      CaseIdempotent(Trim(s)[i]);
    }
    TrimmedImage(s, m);
  }

  /** Trimming then lower-casing (the `normalizeText` shape) is idempotent. */
  lemma TrimLowerIdempotent(s: string)
    ensures ToLower(Trim(ToLower(Trim(s)))) == ToLower(Trim(s))
  {
    var m := ToLower(Trim(s));
    forall i | 0 <= i < |m| ensures IsSpace(m[i]) == IsSpace(Trim(s)[i]) && LowerChar(m[i]) == m[i] {
      CaseKeepsSpace(Trim(s)[i]);
      CaseIdempotent(Trim(s)[i]);
    }
    TrimmedImage(s, m);
  }

  /** `String.prototype.startsWith`. */
  predicate StartsWith(s: string, prefix: string)
  {
    |prefix| <= |s| && s[..|prefix|] == prefix
  }

  /** `String.prototype.includes`. */
  predicate Includes(s: string, sub: string)
    decreases |s|
  {
    if |s| < |sub| then false
    else s[..|sub|] == sub || Includes(s[1..], sub)
  }

  /** `String.prototype.lastIndexOf` for one character: -1 when absent. */
  function LastIndexOf(s: string, c: char): (r: int)
    ensures -1 <= r < |s|
    ensures r >= 0 ==> s[r] == c
    ensures forall k :: r < k < |s| ==> s[k] != c
  {
    if s == [] then -1
    else if Last(s) == c then |s| - 1
    else LastIndexOf(DropLast(s), c)
  }

  // ----- the order of a bare `sort()` -----

  /** The UTF-16 code units of a character: itself below U+10000, otherwise
      a high surrogate (U+D800..U+DBFF) followed by a low one
      (U+DC00..U+DFFF). */
  function Units(c: char): seq<int>
  {
    if c as int < 0x10000 then [c as int]
    else [0xD800 + (c as int - 0x10000) / 0x400, 0xDC00 + (c as int - 0x10000) % 0x400]
  }

  /** The UTF-16 code units of a string, which JavaScript strings are. */
  function Utf16(s: string): seq<int>
  {
    if s == [] then [] else Units(s[0]) + Utf16(s[1..])
  }

  /** Lexicographic order of code-unit sequences, a proper prefix first: how
      a bare `Array.prototype.sort()` compares two strings. */
  predicate UnitsLe(a: seq<int>, b: seq<int>)
  {
    if a == [] then true
    else if b == [] then false
    else if a[0] != b[0] then a[0] < b[0]
    else UnitsLe(a[1..], b[1..])
  }

  /** The place of a character in code-unit order. Characters below U+D800
      and the astral ones (led by a surrogate) keep their code point;
      U+E000..U+FFFF come after every astral character. */
  function UnitKey(c: char): int
  {
    if 0xE000 <= c as int <= 0xFFFF then c as int + 0x110000 else c as int
  }

  /** The order of a bare `sort()`, stated character by character:
      lexicographic by `UnitKey`, a proper prefix first. */
  predicate LexLe(a: string, b: string)
  {
    if a == [] then true
    else if b == [] then false
    else if a[0] != b[0] then UnitKey(a[0]) < UnitKey(b[0])
    else LexLe(a[1..], b[1..])
  }

  /** A common prefix of code units does not decide the order. */
  lemma {:induction false} UnitsLeCommonPrefix(p: seq<int>, x: seq<int>, y: seq<int>)
    ensures UnitsLe(p + x, p + y) == UnitsLe(x, y)
    decreases |p|
  {
    if p != [] {
      assert (p + x)[1..] == p[1..] + x && (p + y)[1..] == p[1..] + y;
      UnitsLeCommonPrefix(p[1..], x, y);
    } else {
      assert p + x == x && p + y == y;
    }
  }

  /** Two different characters are ordered by their first differing code
      unit, whatever follows them, and that unit agrees with `UnitKey`. */
  lemma UnitsLeDistinctHeads(c: char, d: char, x: seq<int>, y: seq<int>)
    requires c != d
    ensures UnitsLe(Units(c) + x, Units(d) + y) <==> UnitKey(c) < UnitKey(d)
  {
    var u, v := Units(c) + x, Units(d) + y;
    var ci, di := c as int, d as int;
    if ci >= 0x10000 && di >= 0x10000 && u[0] == v[0] {
      var qc, rc := (ci - 0x10000) / 0x400, (ci - 0x10000) % 0x400;
      var qd, rd := (di - 0x10000) / 0x400, (di - 0x10000) % 0x400;
      assert ci == 0x10000 + qc * 0x400 + rc && di == 0x10000 + qd * 0x400 + rd;
      assert qc == qd;
      assert u[1..] == [0xDC00 + rc] + x && v[1..] == [0xDC00 + rd] + y;
    } else if ci >= 0x10000 && di >= 0x10000 {
      var qc, qd := (ci - 0x10000) / 0x400, (di - 0x10000) / 0x400;
      assert qc < qd ==> ci < di by {
        assert ci < 0x10000 + (qc + 1) * 0x400 && 0x10000 + qd * 0x400 <= di;
      }
      assert qd < qc ==> di < ci by {
        assert di < 0x10000 + (qd + 1) * 0x400 && 0x10000 + qc * 0x400 <= ci;
      }
    }
  }

  /** `LexLe` is exactly the code-unit order of the strings' UTF-16 forms,
      the order a bare `sort()` uses. */
  lemma {:induction false} LexLeIsUtf16Order(a: string, b: string)
    ensures LexLe(a, b) <==> UnitsLe(Utf16(a), Utf16(b))
    decreases |a|
  {
    if a != [] && b != [] {
      if a[0] == b[0] {
        UnitsLeCommonPrefix(Units(a[0]), Utf16(a[1..]), Utf16(b[1..]));
        LexLeIsUtf16Order(a[1..], b[1..]);
      } else {
        UnitsLeDistinctHeads(a[0], b[0], Utf16(a[1..]), Utf16(b[1..]));
      }
    }
  }

  /** An astral character sorts before U+E000, because its first code unit
      is a surrogate, although its code point is larger. */
  lemma AstralBeforePrivateUse()
    ensures LexLe("\U{1F600}", "\U{E000}") && !LexLe("\U{E000}", "\U{1F600}")
    ensures Utf16("\U{1F600}") == [0xD83D, 0xDE00]
  {
  }

  lemma {:induction false} LexLeTotal(a: string, b: string)
    ensures LexLe(a, b) || LexLe(b, a)
  {
    if a != [] && b != [] && a[0] == b[0] {
      LexLeTotal(a[1..], b[1..]);
    }
  }

  lemma {:induction false} LexLeTrans(a: string, b: string, c: string)
    requires LexLe(a, b) && LexLe(b, c)
    ensures LexLe(a, c)
  {
    if a != [] && b != [] && c != [] && a[0] == b[0] && b[0] == c[0] {
      LexLeTrans(a[1..], b[1..], c[1..]);
    }
  }

  lemma {:induction false} LexLeAntisym(a: string, b: string)
    requires LexLe(a, b) && LexLe(b, a)
    ensures a == b
  {
    if a != [] && b != [] {
      LexLeAntisym(a[1..], b[1..]);
      assert a == [a[0]] + a[1..] && b == [b[0]] + b[1..];
    }
  }

  /** The comparator of a bare `sort()` is a total preorder, and it is the
      code-unit order of the UTF-16 forms. */
  lemma LexLeIsTotalPreorder()
    ensures TotalPreorder((a: string, b: string) => LexLe(a, b))
    ensures forall a: string, b: string :: LexLe(a, b) <==> UnitsLe(Utf16(a), Utf16(b))
  {
    forall a: string, b: string ensures LexLe(a, b) <==> UnitsLe(Utf16(a), Utf16(b)) {
      LexLeIsUtf16Order(a, b);
    }
    forall a: string, b: string ensures LexLe(a, b) || LexLe(b, a) {
      LexLeTotal(a, b);
    }
    forall a: string, b: string, c: string | LexLe(a, b) && LexLe(b, c) ensures LexLe(a, c) {
      LexLeTrans(a, b, c);
    }
  }

  /** `[...new Set(xs)].filter(keep).sort()`: the distinct values that pass
      `keep`, in ascending order (`keep` is constantly true for a bare
      `[...new Set(xs)].sort()`). */
  function UniqueSorted(xs: seq<string>, keep: string -> bool): seq<string>
  {
    SortBy(Filter(FirstOccurrences(xs, (x: string) => x), keep), (a: string, b: string) => LexLe(a, b))
  }

  /** The `keep` of a bare `[...new Set(xs)].sort()`. */
  predicate AnyString(s: string) { true }

  /** A sequence with pairwise-distinct elements holds each value once. */
  lemma {:induction false} DistinctCount<T>(s: seq<T>, x: T)
    requires forall i, j :: 0 <= i < j < |s| ==> s[i] != s[j]
    ensures multiset(s)[x] <= 1
    decreases |s|
  {
    if s != [] {
      var d := DropLast(s);
      Snoc(s);
      DistinctCount(d, x);
      if x == Last(s) {
        assert x !in d;
      }
    }
  }

  lemma CountTwo<T>(s: seq<T>, i: nat, j: nat)
    requires i < j < |s| && s[i] == s[j]
    ensures multiset(s)[s[i]] >= 2
  {
    assert s == s[..j] + [s[j]] + s[j + 1..];
    assert s[..j][i] == s[i];
    assert s[i] in multiset(s[..j]);
  }

  /** UniqueSorted has every kept input value exactly once, in strictly
      ascending order. */
  lemma UniqueSortedSpec(xs: seq<string>, keep: string -> bool)
    ensures var r := UniqueSorted(xs, keep);
      && (forall x :: x in r <==> x in xs && keep(x))
      && (forall i, j :: 0 <= i < j < |r| ==> LexLe(r[i], r[j]) && r[i] != r[j])
  {
    UniqueSortedMembers(xs, keep);
    UniqueSortedStrict(xs, keep);
  }

  lemma UniqueSortedMembers(xs: seq<string>, keep: string -> bool)
    ensures forall x :: x in UniqueSorted(xs, keep) <==> x in xs && keep(x)
  {
    var id := (x: string) => x;
    var le := (a: string, b: string) => LexLe(a, b);
    var u := FirstOccurrences(xs, id);
    var f := Filter(u, keep);
    var r := SortBy(f, le);
    assert KeySet(u, id) == KeySet(xs, id);
    forall x ensures x in r <==> x in xs && keep(x) {
      assert x in r <==> x in multiset(f);
      FilterMember(u, keep, x);
      assert x in u <==> x in KeySet(u, id) by {
        if x in u { var i :| 0 <= i < |u| && u[i] == x; assert id(u[i]) == x; }
      }
      assert x in xs <==> x in KeySet(xs, id) by {
        if x in xs { var i :| 0 <= i < |xs| && xs[i] == x; assert id(xs[i]) == x; }
      }
    }
  }

  lemma UniqueSortedStrict(xs: seq<string>, keep: string -> bool)
    ensures var r := UniqueSorted(xs, keep);
      forall i, j :: 0 <= i < j < |r| ==> LexLe(r[i], r[j]) && r[i] != r[j]
  {
    var id := (x: string) => x;
    var le := (a: string, b: string) => LexLe(a, b);
    var u := FirstOccurrences(xs, id);
    var f := Filter(u, keep);
    var r := SortBy(f, le);
    assert TotalPreorder(le) by { LexLeIsTotalPreorder(); }
    SortBySorted(f, le);
    forall i, j | 0 <= i < j < |r| ensures r[i] != r[j] {
      if r[i] == r[j] {
        CountTwo(r, i, j);
        assert forall a, b :: 0 <= a < b < |u| ==> u[a] != u[b] by {
          assert forall a, b :: 0 <= a < b < |u| ==> id(u[a]) != id(u[b]);
        }
        DistinctCount(u, r[i]);
        FilterCount(u, keep, r[i]);
        assert false;
      }
    }
  }

  /** The decimal digits of `n`, as `String(n)`. */
  function NatToString(n: nat): (s: string)
    ensures s != []
    ensures forall i :: 0 <= i < |s| ==> '0' <= s[i] <= '9'
  {
    var d := ['0' + (n % 10) as char];
    if n < 10 then d else NatToString(n / 10) + d
  }

  predicate IsDigit(c: char) { '0' <= c <= '9' }

  /** `s.padStart(n, c)` for a one-character pad. */
  function PadStart(s: string, n: nat, c: char): (r: string)
    ensures |r| == if |s| >= n then |s| else n
    ensures r[|r| - |s|..] == s
    ensures forall i :: 0 <= i < |r| - |s| ==> r[i] == c
  {
    if |s| >= n then s else seq(n - |s|, _ => c) + s
  }

  /** The longest prefix of decimal digits. */
  function DigitPrefix(s: string): (d: string)
    ensures |d| <= |s| && d == s[..|d|]
    ensures forall i :: 0 <= i < |d| ==> IsDigit(d[i])
    ensures |d| < |s| ==> !IsDigit(s[|d|])
  {
    if s != [] && IsDigit(s[0]) then [s[0]] + DigitPrefix(s[1..]) else []
  }

  /** The value of a string of decimal digits. */
  function DigitsValue(d: string): nat
    requires forall i :: 0 <= i < |d| ==> IsDigit(d[i])
  {
    if d == [] then 0
    else
      assert IsDigit(d[|d| - 1]);
      DigitsValue(DropLast(d)) * 10 + (Last(d) as int - '0' as int)
  }

  /** `parseInt(s, 10)`: leading white space, an optional sign and the
      longest run of digits; `None` (NaN) without a digit. */
  function ParseInt(s: string): (r: Option<int>)
    ensures r.None? <==> DigitPrefix(var t := TrimStart(s); if t != [] && (t[0] == '-' || t[0] == '+') then t[1..] else t) == []
  {
    var t := TrimStart(s);
    var body := if t != [] && (t[0] == '-' || t[0] == '+') then t[1..] else t;
    var d := DigitPrefix(body);
    var v: int := if d == [] then 0 else DigitsValue(d);
    if d == [] then None
    else if t[0] == '-' then Some(-v)
    else Some(v)
  }

  /** Reading the digits of `n` gives `n`. */
  lemma {:induction false} NatToStringValue(n: nat)
    ensures DigitsValue(NatToString(n)) == n
    decreases n
  {
    var s := NatToString(n);
    if n >= 10 {
      NatToStringValue(n / 10);
      assert DropLast(s) == NatToString(n / 10);
    }
  }

  /** `parseInt(String(n), 10) == n`. */
  lemma ParseIntNatToString(n: nat)
    ensures ParseInt(NatToString(n)) == Some(n)
  {
    var s := NatToString(n);
    assert !IsSpace(s[0]);
    assert DigitPrefix(s) == s by { DigitPrefixAll(s); }
    NatToStringValue(n);
  }

  lemma {:induction false} DigitPrefixAll(s: string)
    requires forall i :: 0 <= i < |s| ==> IsDigit(s[i])
    ensures DigitPrefix(s) == s
    decreases |s|
  {
    if s != [] {
      DigitPrefixAll(s[1..]);
    }
  }
}
