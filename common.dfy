/** Shared vocabulary of the concepts and syncs: optional values, the string order that
    JavaScript's default sort and `<` use, a stable sort, JavaScript's `slice`, `join`,
    `trim` and number-to-string conversion for natural numbers. */
module Common {

  datatype Option<T> = None | Some(value: T)

  /** The `{ ... } | { error: string }` shape that every concept action returns. */
  datatype Result<T> = Ok(value: T) | Err(error: string)

  /** Identifiers (`ID` in the source) are strings. */
  type Id = string

  // ---------------------------------------------------------------------------
  // String order
  // ---------------------------------------------------------------------------

  /** `a <= b` in the lexicographic order of characters (Unicode scalar values). JavaScript's
      `<` and the default order of `Array.prototype.sort` compare UTF-16 code units
      instead; the two orders agree on strings within the Basic Multilingual Plane. */
  predicate StrLe(a: string, b: string)
    decreases |a|
  {
    if a == [] then true
    else if b == [] then false
    else if a[0] != b[0] then a[0] < b[0]
    else StrLe(a[1..], b[1..])
  }

  lemma {:induction false} StrLeTotal(a: string, b: string)
    ensures StrLe(a, b) || StrLe(b, a)
    decreases |a|
  {
    if a != [] && b != [] && a[0] == b[0] {
      StrLeTotal(a[1..], b[1..]);
    }
  }

  lemma {:induction false} StrLeAntisymmetric(a: string, b: string)
    requires StrLe(a, b) && StrLe(b, a)
    ensures a == b
    decreases |a|
  {
    if a != [] && b != [] {
      StrLeAntisymmetric(a[1..], b[1..]);
      assert a == [a[0]] + a[1..] && b == [b[0]] + b[1..];
    }
  }

  lemma {:induction false} StrLeTransitive(a: string, b: string, c: string)
    requires StrLe(a, b) && StrLe(b, c)
    ensures StrLe(a, c)
    decreases |a|
  {
    if a != [] && b != [] && c != [] && a[0] == b[0] && b[0] == c[0] {
      StrLeTransitive(a[1..], b[1..], c[1..]);
    }
  }

  // ---------------------------------------------------------------------------
  // Orders and a stable insertion sort (JavaScript's sort is stable)
  // ---------------------------------------------------------------------------

  ghost predicate Total<T(!new)>(le: (T, T) -> bool) {
    forall x, y :: le(x, y) || le(y, x)
  }

  ghost predicate Transitive<T(!new)>(le: (T, T) -> bool) {
    forall x, y, z :: le(x, y) && le(y, z) ==> le(x, z)
  }

  ghost predicate Antisymmetric<T(!new)>(le: (T, T) -> bool) {
    forall x, y :: le(x, y) && le(y, x) ==> x == y
  }

  /** A total preorder: what a consistent JavaScript comparator describes. */
  ghost predicate TotalPreorder<T(!new)>(le: (T, T) -> bool) {
    Total(le) && Transitive(le)
  }

  predicate SortedBy<T>(s: seq<T>, le: (T, T) -> bool) {
    forall i, j :: 0 <= i < j < |s| ==> le(s[i], s[j])
  }

  /** Inserts `x` in front of the first element it is `le` to, so that later-inserted
      earlier-positioned elements stay in front of equal ones (stability). */
  function Insert<T>(x: T, s: seq<T>, le: (T, T) -> bool): (r: seq<T>)
    ensures multiset(r) == multiset(s) + multiset{x}
    ensures |r| == |s| + 1
  {
    if s == [] || le(x, s[0]) then [x] + s
    else
      assert s == [s[0]] + s[1..];
      [s[0]] + Insert(x, s[1..], le)
  }

  /** A stable sort by the comparator `le`. */
  function SortBy<T>(s: seq<T>, le: (T, T) -> bool): (r: seq<T>)
    ensures multiset(r) == multiset(s)
    ensures |r| == |s|
  {
    if s == [] then []
    else
      assert s == [s[0]] + s[1..];
      Insert(s[0], SortBy(s[1..], le), le)
  }

  lemma {:induction false} InsertSorted<T(!new)>(x: T, s: seq<T>, le: (T, T) -> bool)
    requires TotalPreorder(le) && SortedBy(s, le)
    ensures SortedBy(Insert(x, s, le), le)
  {
    var r := Insert(x, s, le);
    if s == [] || le(x, s[0]) {
      assert r == [x] + s;
      forall i, j | 0 <= i < j < |r| ensures le(r[i], r[j]) {
        assert r[j] == s[j - 1];
        if i > 0 {
          assert r[i] == s[i - 1];
        } else if j > 1 {
          assert le(s[0], s[j - 1]);
        }
      }
    } else {
      var t := Insert(x, s[1..], le);
      InsertSorted(x, s[1..], le);
      assert le(s[0], x);
      forall k | 0 <= k < |t| ensures le(s[0], t[k]) {
        assert t[k] in multiset(t);
        assert t[k] in multiset(s[1..]) + multiset{x};
        if t[k] != x {
          assert t[k] in s[1..];
          var m :| 0 <= m < |s[1..]| && s[1..][m] == t[k];
          assert s[m + 1] == t[k];
        }
      }
      assert r == [s[0]] + t;
      forall i, j | 0 <= i < j < |r| ensures le(r[i], r[j]) {
        if i > 0 {
          assert r[i] == t[i - 1] && r[j] == t[j - 1];
        } else {
          assert r[j] == t[j - 1];
        }
      }
    }
  }

  lemma {:induction false} SortBySorted<T(!new)>(s: seq<T>, le: (T, T) -> bool)
    requires TotalPreorder(le)
    ensures SortedBy(SortBy(s, le), le)
  {
    if s != [] {
      SortBySorted(s[1..], le);
      InsertSorted(s[0], SortBy(s[1..], le), le);
    }
  }

  /** Under an antisymmetric order, a sorted arrangement of a multiset is unique. */
  lemma {:induction false} SortedUnique<T(!new)>(a: seq<T>, b: seq<T>, le: (T, T) -> bool)
    requires Antisymmetric(le)
    requires SortedBy(a, le) && SortedBy(b, le)
    requires multiset(a) == multiset(b)
    ensures a == b
  {
    assert |b| == |multiset(b)| == |multiset(a)| == |a|;
    if a != [] {
      SortedHeads(a, b, le);
      TailMultisets(a, b);
      SortedTail(a, le);
      SortedTail(b, le);
      SortedUnique(a[1..], b[1..], le);
      assert a == [a[0]] + a[1..] && b == [b[0]] + b[1..];
    }
  }

  lemma SortedHeads<T(!new)>(a: seq<T>, b: seq<T>, le: (T, T) -> bool)
    requires Antisymmetric(le)
    requires SortedBy(a, le) && SortedBy(b, le)
    requires multiset(a) == multiset(b) && |a| > 0 && |b| > 0
    ensures a[0] == b[0]
  {
    assert a[0] in multiset(b);
    var j :| 0 <= j < |b| && b[j] == a[0];
    assert b[0] in multiset(a);
    var i :| 0 <= i < |a| && a[i] == b[0];
    if i != 0 && j != 0 {
      assert le(b[0], b[j]) && le(a[0], a[i]);
    }
  }

  lemma TailMultisets<T>(a: seq<T>, b: seq<T>)
    requires multiset(a) == multiset(b) && |a| > 0 && |b| > 0 && a[0] == b[0]
    ensures multiset(a[1..]) == multiset(b[1..])
  {
    assert a == [a[0]] + a[1..] && b == [b[0]] + b[1..];
    assert multiset(a[1..]) == multiset(a) - multiset{a[0]};
    assert multiset(b[1..]) == multiset(b) - multiset{b[0]};
  }

  lemma SortedTail<T>(a: seq<T>, le: (T, T) -> bool)
    requires SortedBy(a, le) && |a| > 0
    ensures SortedBy(a[1..], le)
  {
    forall i, j | 0 <= i < j < |a[1..]| ensures le(a[1..][i], a[1..][j]) {
      assert a[1..][i] == a[i + 1] && a[1..][j] == a[j + 1];
    }
  }

  /** A suffix of a sorted sequence is sorted, and nothing left out of it comes after
      anything in it. */
  lemma SortedSuffix<T>(s: seq<T>, le: (T, T) -> bool, cut: nat)
    requires SortedBy(s, le) && cut <= |s|
    ensures SortedBy(s[cut..], le)
    ensures multiset(s[cut..]) <= multiset(s)
    ensures forall x, y :: x in s && x !in s[cut..] && y in s[cut..] ==> le(x, y)
  {
    assert s == s[..cut] + s[cut..];
    assert multiset(s) == multiset(s[..cut]) + multiset(s[cut..]);
    forall i, j | 0 <= i < j < |s[cut..]| ensures le(s[cut..][i], s[cut..][j]) {
      assert s[cut..][i] == s[cut + i] && s[cut..][j] == s[cut + j];
    }
    forall x, y | x in s && x !in s[cut..] && y in s[cut..] ensures le(x, y) {
      assert x in s[..cut];
      var a :| 0 <= a < cut && s[..cut][a] == x;
      var b :| 0 <= b < |s[cut..]| && s[cut..][b] == y;
      assert s[a] == x && s[cut + b] == y;
    }
  }

  /** A prefix of a sorted sequence is sorted, and nothing left out of it comes before
      anything in it. */
  lemma SortedPrefix<T>(s: seq<T>, le: (T, T) -> bool, n: nat)
    requires SortedBy(s, le) && n <= |s|
    ensures SortedBy(s[..n], le)
    ensures multiset(s[..n]) <= multiset(s)
    ensures forall x, y :: x in s && x !in s[..n] && y in s[..n] ==> le(y, x)
  {
    assert s == s[..n] + s[n..];
    assert multiset(s) == multiset(s[..n]) + multiset(s[n..]);
    forall i, j | 0 <= i < j < n ensures le(s[..n][i], s[..n][j]) {
      assert s[..n][i] == s[i] && s[..n][j] == s[j];
    }
    forall x, y | x in s && x !in s[..n] && y in s[..n] ensures le(y, x) {
      assert x in s[n..];
      var a :| 0 <= a < |s[n..]| && s[n..][a] == x;
      var b :| 0 <= b < n && s[..n][b] == y;
      assert s[n + a] == x && s[b] == y;
    }
  }

  /** `[...signals].sort()` on strings, in the order of StrLe. */
  function SortStrings(s: seq<string>): (r: seq<string>)
    ensures multiset(r) == multiset(s)
  {
    SortBy(s, StrLe)
  }

  lemma StrLeIsTotalOrder()
    ensures TotalPreorder(StrLe) && Antisymmetric(StrLe)
  {
    forall x, y ensures StrLe(x, y) || StrLe(y, x) { StrLeTotal(x, y); }
    forall x, y, z | StrLe(x, y) && StrLe(y, z) ensures StrLe(x, z) { StrLeTransitive(x, y, z); }
    forall x, y | StrLe(x, y) && StrLe(y, x) ensures x == y { StrLeAntisymmetric(x, y); }
  }

  /** The default string sort depends only on the multiset of its input: any two
      permutations of one list sort to the same list. */
  lemma SortStringsPermutationInvariant(a: seq<string>, b: seq<string>)
    requires multiset(a) == multiset(b)
    ensures SortStrings(a) == SortStrings(b)
  {
    StrLeIsTotalOrder();
    SortBySorted(a, StrLe);
    SortBySorted(b, StrLe);
    SortedUnique(SortStrings(a), SortStrings(b), StrLe);
  }

  // ---------------------------------------------------------------------------
  // Sequence helpers mirroring JavaScript array methods
  // ---------------------------------------------------------------------------

  /** `Array.prototype.filter`. */
  function Filter<T(!new)>(s: seq<T>, p: T -> bool): (r: seq<T>)
    ensures |r| <= |s|
    ensures forall x :: x in r <==> x in s && p(x)
    ensures forall i :: 0 <= i < |r| ==> p(r[i])
  {
    if s == [] then []
    else if p(s[0]) then [s[0]] + Filter(s[1..], p)
    else Filter(s[1..], p)
  }

  lemma {:induction false} FilterSnoc<T(!new)>(s: seq<T>, x: T, p: T -> bool)
    ensures Filter(s + [x], p) == Filter(s, p) + (if p(x) then [x] else [])
  {
    if s != [] {
      assert (s + [x])[1..] == s[1..] + [x];
      FilterSnoc(s[1..], x, p);
    }
  }

  lemma {:induction false} FilterSorted<T(!new)>(s: seq<T>, p: T -> bool, le: (T, T) -> bool)
    requires SortedBy(s, le)
    ensures SortedBy(Filter(s, p), le)
  {
    if s != [] {
      FilterSorted(s[1..], p, le);
      if p(s[0]) {
        var t := Filter(s[1..], p);
        var r := [s[0]] + t;
        forall i, j | 0 <= i < j < |r| ensures le(r[i], r[j]) {
          if i == 0 {
            assert r[j] == t[j - 1] && t[j - 1] in s[1..];
            var m :| 0 <= m < |s[1..]| && s[1..][m] == t[j - 1];
            assert s[m + 1] == r[j];
          } else {
            assert r[i] == t[i - 1] && r[j] == t[j - 1];
          }
        }
      }
    }
  }

  /** `Array.prototype.map`. */
  function Map<T, U>(s: seq<T>, f: T -> U): (r: seq<U>)
    ensures |r| == |s|
    ensures forall i :: 0 <= i < |s| ==> r[i] == f(s[i])
  {
    seq(|s|, i requires 0 <= i < |s| => f(s[i]))
  }

  lemma MapSnoc<T, U>(s: seq<T>, x: T, f: T -> U)
    ensures Map(s + [x], f) == Map(s, f) + [f(x)]
  {
    assert Map(s + [x], f)[|s|] == f(x);
  }

  lemma MapAppend<T, U>(a: seq<T>, b: seq<T>, f: T -> U)
    ensures Map(a + b, f) == Map(a, f) + Map(b, f)
  {
    assert forall i :: 0 <= i < |b| ==> (a + b)[|a| + i] == b[i];
  }

  lemma {:induction false} FilterAppend<T(!new)>(a: seq<T>, b: seq<T>, p: T -> bool)
    ensures Filter(a + b, p) == Filter(a, p) + Filter(b, p)
  {
    if a != [] {
      var head := if p(a[0]) then [a[0]] else [];
      assert (a + b)[0] == a[0] && (a + b)[1..] == a[1..] + b;
      assert Filter(a + b, p) == head + Filter(a[1..] + b, p);
      assert Filter(a, p) == head + Filter(a[1..], p);
      FilterAppend(a[1..], b, p);
    } else {
      assert a + b == b;
    }
  }

  lemma {:induction false} FilterNone<T(!new)>(s: seq<T>, p: T -> bool)
    requires forall x :: x in s ==> !p(x)
    ensures Filter(s, p) == []
  {
    if s != [] {
      assert s[0] in s;
      FilterNone(s[1..], p);
    }
  }

  /** The index that `slice` makes of a relative `start` argument. */
  function RelativeIndex(start: int, len: nat): (k: nat)
    ensures k <= len
  {
    if start < 0 then (if len + start < 0 then 0 else len + start)
    else if start > len then len
    else start
  }

  /** `Array.prototype.slice(start)`: a negative start counts from the end. */
  function SliceFrom<T>(s: seq<T>, start: int): (r: seq<T>)
    ensures |r| <= |s|
  {
    s[RelativeIndex(start, |s|)..]
  }

  /** `slice(-k)` keeps the last `k` elements, or all of them when there are fewer;
      `slice(-0)` is `slice(0)` and keeps everything. */
  lemma SliceFromNegative<T>(s: seq<T>, k: nat)
    ensures k == 0 ==> SliceFrom(s, -(k as int)) == s
    ensures k > 0 ==> SliceFrom(s, -(k as int)) == s[|s| - (if k < |s| then k else |s|)..]
  {
  }

  lemma SliceFromAppend<T>(a: seq<T>, b: seq<T>, k: nat)
    requires 0 < k <= |b|
    ensures SliceFrom(a + b, -(k as int)) == SliceFrom(b, -(k as int))
  {
    assert (a + b)[|a + b| - k..] == b[|b| - k..];
  }

  /** `Array.prototype.slice(0, n)` for a non-negative `n`. */
  function Take<T>(s: seq<T>, n: nat): (r: seq<T>)
    ensures |r| == if n < |s| then n else |s|
    ensures r <= s
  {
    if n < |s| then s[..n] else s
  }

  /** `Array.prototype.join(sep)` on strings. */
  function Join(parts: seq<string>, sep: string): string {
    if parts == [] then ""
    else if |parts| == 1 then parts[0]
    else parts[0] + sep + Join(parts[1..], sep)
  }

  lemma {:induction false} SubsetCardinality<T>(a: set<T>, b: set<T>)
    requires a <= b
    ensures |a| <= |b|
    decreases |b|
  {
    if a != {} {
      var x :| x in a;
      SubsetCardinality(a - {x}, b - {x});
    }
  }

  predicate NoDuplicates<T(==)>(s: seq<T>) {
    forall i, j :: 0 <= i < j < |s| ==> s[i] != s[j]
  }

  lemma NoDuplicatesSnoc<T>(s: seq<T>, x: T)
    requires NoDuplicates(s) && x !in s
    ensures NoDuplicates(s + [x])
  {
    var t := s + [x];
    forall i, j | 0 <= i < j < |t| ensures t[i] != t[j] {
      assert t[i] == s[i];
      if j < |s| { assert t[j] == s[j]; }
    }
  }

  // ---------------------------------------------------------------------------
  // Number to string (template literals on array lengths)
  // ---------------------------------------------------------------------------

  predicate IsDigit(c: char) { '0' <= c <= '9' }

  function DigitChar(d: nat): (c: char)
    requires d < 10
    ensures IsDigit(c) && c as int - '0' as int == d
  {
    ('0' as int + d) as char
  }

  /** The decimal text JavaScript prints for a non-negative integer. */
  function NatToString(n: nat): (r: string)
    ensures |r| >= 1
    ensures forall i :: 0 <= i < |r| ==> IsDigit(r[i])
    ensures |r| > 1 ==> r[0] != '0'
  {
    if n < 10 then [DigitChar(n)] else NatToString(n / 10) + [DigitChar(n % 10)]
  }

  /** The value of a string of decimal digits. */
  function DigitsValue(s: string): int
    requires forall i :: 0 <= i < |s| ==> IsDigit(s[i])
  {
    if s == [] then 0 else 10 * DigitsValue(s[..|s| - 1]) + (s[|s| - 1] as int - '0' as int)
  }

  /** Reading the printed number back gives the number: printing loses nothing. */
  lemma {:induction false} NatToStringRoundTrip(n: nat)
    ensures DigitsValue(NatToString(n)) == n
  {
    if n >= 10 {
      var r := NatToString(n);
      NatToStringRoundTrip(n / 10);
      assert r[..|r| - 1] == NatToString(n / 10);
    }
  }

  // ---------------------------------------------------------------------------
  // White space and String.prototype.trim
  // ---------------------------------------------------------------------------

  /** ECMAScript WhiteSpace and LineTerminator code points, which `trim` removes. */
  predicate IsJsWhitespace(c: char) {
    c == '\t' || c == '\n' || c == '\U{000B}' || c == '\U{000C}' || c == '\r' || c == ' '
    || c == '\U{00A0}' || c == '\U{1680}' || ('\U{2000}' <= c <= '\U{200A}')
    || c == '\U{2028}' || c == '\U{2029}' || c == '\U{202F}' || c == '\U{205F}'
    || c == '\U{3000}' || c == '\U{FEFF}'
  }

  predicate IsBlank(s: string) {
    forall i :: 0 <= i < |s| ==> IsJsWhitespace(s[i])
  }

  /** The number of white-space characters `s` starts with. */
  function LeadingBlanks(s: string): (n: nat)
    ensures n <= |s| && IsBlank(s[..n])
    ensures n == |s| || !IsJsWhitespace(s[n])
  {
    if s == [] || !IsJsWhitespace(s[0]) then 0
    else
      var m := LeadingBlanks(s[1..]);
      assert s[..m + 1] == [s[0]] + s[1..][..m];
      BlankCons(s[0], s[1..][..m]);
      m + 1
  }

  /** The number of white-space characters `s` ends with. */
  function TrailingBlanks(s: string): (n: nat)
    ensures n <= |s| && IsBlank(s[|s| - n..])
    ensures n == |s| || !IsJsWhitespace(s[|s| - n - 1])
  {
    if s == [] || !IsJsWhitespace(s[|s| - 1]) then 0
    else
      var t := s[..|s| - 1];
      var m := TrailingBlanks(t);
      assert s[|s| - (m + 1)..] == t[|t| - m..] + [s[|s| - 1]];
      BlankSnoc(t[|t| - m..], s[|s| - 1]);
      m + 1
  }

  lemma BlankCons(c: char, t: string)
    requires IsJsWhitespace(c) && IsBlank(t)
    ensures IsBlank([c] + t)
  {
    forall i | 0 <= i < |[c] + t| ensures IsJsWhitespace(([c] + t)[i]) {
      if i > 0 { assert ([c] + t)[i] == t[i - 1]; }
    }
  }

  lemma BlankSnoc(t: string, c: char)
    requires IsBlank(t) && IsJsWhitespace(c)
    ensures IsBlank(t + [c])
  {
    forall i | 0 <= i < |t + [c]| ensures IsJsWhitespace((t + [c])[i]) {
      if i < |t| { assert (t + [c])[i] == t[i]; }
    }
  }

  /** `String.prototype.trimStart`: only leading white space is removed. */
  function TrimStart(s: string): (r: string)
    ensures |r| <= |s| && r == s[|s| - |r|..]
    ensures r == [] || !IsJsWhitespace(r[0])
    ensures IsBlank(s[..|s| - |r|])
  {
    s[LeadingBlanks(s)..]
  }

  /** `String.prototype.trimEnd`: only trailing white space is removed. */
  function TrimEnd(s: string): (r: string)
    ensures |r| <= |s| && r == s[..|r|]
    ensures r == [] || !IsJsWhitespace(r[|r| - 1])
    ensures IsBlank(s[|r|..])
  {
    s[..|s| - TrailingBlanks(s)]
  }

  /** `String.prototype.trim`. */
  function Trim(s: string): string {
    TrimEnd(TrimStart(s))
  }

  lemma BlankTrimStart(s: string)
    requires IsBlank(s)
    ensures TrimStart(s) == []
  {
  }

  /** A character that is not white space survives `trimStart`. */
  lemma TrimStartNonBlank(s: string)
    requires !IsBlank(s)
    ensures !IsBlank(TrimStart(s))
  {
    var r := TrimStart(s);
    var k := |s| - |r|;
    var i :| 0 <= i < |s| && !IsJsWhitespace(s[i]);
    forall j | 0 <= j < k ensures IsJsWhitespace(s[j]) {
      assert s[..k][j] == s[j];
    }
    assert r[i - k] == s[i];
  }

  /** A character that is not white space survives `trimEnd`. */
  lemma TrimEndNonBlank(s: string)
    requires !IsBlank(s)
    ensures !IsBlank(TrimEnd(s))
  {
    var r := TrimEnd(s);
    var k := |r|;
    var i :| 0 <= i < |s| && !IsJsWhitespace(s[i]);
    forall j | k <= j < |s| ensures IsJsWhitespace(s[j]) {
      assert s[k..][j - k] == s[j];
    }
    assert r[i] == s[i];
  }

  /** `s.trim().length > 0` holds exactly when `s` has a character that is not white space. */
  lemma TrimEmptyIffBlank(s: string)
    ensures |Trim(s)| == 0 <==> IsBlank(s)
  {
    if IsBlank(s) {
      BlankTrimStart(s);
    } else {
      TrimStartNonBlank(s);
      TrimEndNonBlank(TrimStart(s));
    }
  }

  /** Trimming leaves no white space at either end. */
  lemma TrimEnds(s: string)
    ensures Trim(s) == [] || (!IsJsWhitespace(Trim(s)[0]) && !IsJsWhitespace(Trim(s)[|Trim(s)| - 1]))
  {
    var a := TrimStart(s);
    var t := TrimEnd(a);
    if t != [] {
      assert t[0] == a[0];
    }
  }
}
