/**
 * The .NET string primitives the updater relies on, stated over `seq<char>`:
 * white-space tests and trimming, ordinal and ordinal-ignore-case comparison,
 * character search, splitting, and invariant-culture integer formatting and
 * parsing.
 */
module Text {
  import opened Wrappers

  /** `char.IsWhiteSpace`: the characters with the Unicode White_Space property. */
  predicate IsWhiteSpace(c: char) {
    ('\t' <= c <= '\r') || c == ' ' || c == '\U{85}' || c == '\U{A0}' || c == '\U{1680}'
    || ('\U{2000}' <= c <= '\U{200A}') || c == '\U{2028}' || c == '\U{2029}'
    || c == '\U{202F}' || c == '\U{205F}' || c == '\U{3000}'
  }

  /** Empty or white space only. */
  predicate IsBlank(s: string) {
    forall i | 0 <= i < |s| :: IsWhiteSpace(s[i])
  }

  /** `string.IsNullOrWhiteSpace`. */
  predicate IsNullOrWhiteSpace(s: Option<string>) {
    s.None? || IsBlank(s.value)
  }

  /** `string.IsNullOrEmpty`. */
  predicate IsNullOrEmpty(s: Option<string>) {
    s.None? || s.value == []
  }

  // ---------------------------------------------------------------- trimming

  /** `TrimStart()`: drops the leading white space, nothing else. */
  function TrimStart(s: string): (r: string)
    ensures |r| <= |s| && r == s[|s| - |r|..]
    ensures forall i | 0 <= i < |s| - |r| :: IsWhiteSpace(s[i])
    ensures r == [] || !IsWhiteSpace(r[0])
  {
    if s == [] || !IsWhiteSpace(s[0]) then s else TrimStart(s[1..])
  }

  /** `TrimEnd()`: drops the trailing white space, nothing else. */
  function TrimEnd(s: string): (r: string)
    ensures |r| <= |s| && r == s[..|r|]
    ensures forall i | |r| <= i < |s| :: IsWhiteSpace(s[i])
    ensures r == [] || !IsWhiteSpace(r[|r| - 1])
  {
    if s == [] || !IsWhiteSpace(s[|s| - 1]) then s else TrimEnd(s[..|s| - 1])
  }

  /** `Trim()`: drops white space at both ends; blank strings become empty. */
  function Trim(s: string): (r: string)
    ensures |r| <= |s|
    ensures r == [] <==> IsBlank(s)
    ensures r == [] || (!IsWhiteSpace(r[0]) && !IsWhiteSpace(r[|r| - 1]))
  {
    var t := TrimStart(s);
    var r := TrimEnd(t);
    assert r != [] ==> r[0] == t[0];
    r
  }

  /** A cut after white space only and before a non-white character is `TrimStart`'s. */
  lemma TrimStartUnique(x: string, k: int)
    requires 0 <= k <= |x| && forall i | 0 <= i < k :: IsWhiteSpace(x[i])
    requires k == |x| || !IsWhiteSpace(x[k])
    ensures TrimStart(x) == x[k..]
  {
    var t := TrimStart(x);
    var dt := |x| - |t|;
    assert t != [] ==> t[0] == x[dt];
    assert dt == k;
  }

  /** A cut before white space only and after a non-white character is `TrimEnd`'s. */
  lemma TrimEndUnique(x: string, k: int)
    requires 0 <= k <= |x| && forall i | k <= i < |x| :: IsWhiteSpace(x[i])
    requires k == 0 || !IsWhiteSpace(x[k - 1])
    ensures TrimEnd(x) == x[..k]
  {
    var t := TrimEnd(x);
    assert t != [] ==> t[|t| - 1] == x[|t| - 1];
    assert |t| == k;
  }

  /** TrimStart skips a blank prefix. */
  lemma TrimStartBlankPrefix(p: string, s: string)
    requires IsBlank(p)
    ensures TrimStart(p + s) == TrimStart(s)
  {
    var r := TrimStart(s);
    var x := p + s;
    var k := |p| + |s| - |r|;
    assert forall i | |p| <= i < k :: x[i] == s[i - |p|];
    assert r != [] ==> x[k] == r[0];
    TrimStartUnique(x, k);
    assert x[k..] == r;
  }

  /** TrimEnd skips a blank suffix. */
  lemma TrimEndBlankSuffix(s: string, p: string)
    requires IsBlank(p)
    ensures TrimEnd(s + p) == TrimEnd(s)
  {
    var r := TrimEnd(s);
    var x := s + p;
    assert forall i | |r| <= i < |s| :: x[i] == s[i];
    assert r != [] ==> x[|r| - 1] == r[|r| - 1];
    TrimEndUnique(x, |r|);
    assert x[..|r|] == r;
  }

  /** Blanks around a word with no white space at its ends are trimmed away. */
  lemma TrimPadded(pre: string, w: string, post: string)
    requires IsBlank(pre) && IsBlank(post)
    requires w != [] && !IsWhiteSpace(w[0]) && !IsWhiteSpace(w[|w| - 1])
    ensures Trim(pre + (w + post)) == w
  {
    var wp := w + post;
    TrimStartBlankPrefix(pre, wp);
    assert wp[0] == w[0];
    TrimStartUnique(wp, 0);
    assert wp[0..] == wp;
    TrimEndBlankSuffix(w, post);
    TrimEndUnique(w, |w|);
    assert w[..|w|] == w;
  }

  /** `TrimStart(c)`: drops every leading occurrence of `c`. */
  function TrimStartChar(s: string, c: char): (r: string)
    ensures |r| <= |s| && r == s[|s| - |r|..]
    ensures forall i | 0 <= i < |s| - |r| :: s[i] == c
    ensures r == [] || r[0] != c
  {
    if s == [] || s[0] != c then s else TrimStartChar(s[1..], c)
  }

  // ------------------------------------------------------ comparison, search

  /** Invariant lower-casing, on the ASCII letters. */
  function LowerChar(c: char): char {
    if 'A' <= c <= 'Z' then (c as int + 32) as char else c
  }

  /** Only ASCII letters lower-case to ASCII lower-case letters. */
  lemma LowerCharOfLetter(c: char)
    requires 'a' <= LowerChar(c) <= 'z'
    ensures 'a' <= c <= 'z' || 'A' <= c <= 'Z'
    ensures !IsWhiteSpace(c) && c != '\0'
  {
  }

  /** `ToLowerInvariant()`, on the ASCII letters. */
  function ToLower(s: string): (r: string)
    ensures |r| == |s|
    ensures forall i | 0 <= i < |s| :: r[i] == LowerChar(s[i])
  {
    seq(|s|, i requires 0 <= i < |s| => LowerChar(s[i]))
  }

  /** `string.Equals(a, b, StringComparison.OrdinalIgnoreCase)`. */
  predicate EqualsIgnoreCase(a: string, b: string) {
    ToLower(a) == ToLower(b)
  }

  /** `s.StartsWith(p, StringComparison.Ordinal)`. */
  predicate StartsWith(s: string, p: string) {
    |p| <= |s| && s[..|p|] == p
  }

  /** `s.StartsWith(p, StringComparison.OrdinalIgnoreCase)`. */
  predicate StartsWithIgnoreCase(s: string, p: string) {
    StartsWith(ToLower(s), ToLower(p))
  }

  /** `s.IndexOf(c)`: the first position of `c`, or -1. */
  function IndexOf(s: string, c: char): (r: int)
    ensures -1 <= r < |s|
    ensures r == -1 <==> c !in s
    ensures 0 <= r ==> s[r] == c && c !in s[..r]
  {
    if s == [] then -1
    else if s[0] == c then 0
    else
      var k := IndexOf(s[1..], c);
      assert s == [s[0]] + s[1..];
      if k == -1 then -1
      else
        assert s[..k + 1] == [s[0]] + s[1..][..k];
        k + 1
  }

  /** `s.LastIndexOf(c)`: the last position of `c`, or -1. */
  function LastIndexOf(s: string, c: char): (r: int)
    ensures -1 <= r < |s|
    ensures r == -1 <==> c !in s
    ensures 0 <= r ==> s[r] == c && c !in s[r + 1..]
  {
    if s == [] then -1
    else if s[|s| - 1] == c then |s| - 1
    else
      var k := LastIndexOf(s[..|s| - 1], c);
      assert s == s[..|s| - 1] + [s[|s| - 1]];
      assert 0 <= k ==> s[k + 1..] == s[..|s| - 1][k + 1..] + [s[|s| - 1]];
      k
  }

  /** A character absent from a suffix is absent from every shorter suffix. */
  lemma NotInShorterSuffix(s: string, c: char, k: int, j: int)
    requires 0 <= k <= j <= |s| && c !in s[k..]
    ensures c !in s[j..]
  {
    assert s[j..] == s[k..][j - k..];
  }

  /**
   * `s.Split(c, 2, StringSplitOptions.TrimEntries)[0]`: the text before the
   * first `c` (all of `s` when there is none), trimmed.
   */
  function FirstPiece(s: string, c: char): (r: string)
    ensures c !in r
  {
    var p := BeforeFirst(s, c);
    var r := Trim(p);
    assert forall i | 0 <= i < |r| :: r[i] in p;
    r
  }

  /** The text before the first `c`, untrimmed. */
  function BeforeFirst(s: string, c: char): (p: string)
    ensures StartsWith(s, p)
  {
    var k := IndexOf(s, c);
    if k < 0 then s else s[..k]
  }

  /** A string with no white space at either end is its own trim. */
  lemma TrimOfUntrimmed(s: string)
    requires s != [] && !IsWhiteSpace(s[0]) && !IsWhiteSpace(s[|s| - 1])
    ensures Trim(s) == s
  {
    TrimStartUnique(s, 0);
    assert s[0..] == s;
    TrimEndUnique(s, |s|);
    assert s[..|s|] == s;
  }

  /** The first `c` of `a + [c] + b`, when `a` has none, sits right after `a`. */
  lemma IndexOfAfter(a: string, c: char, b: string)
    requires c !in a
    ensures IndexOf(a + [c] + b, c) == |a|
  {
    var s := a + [c] + b;
    assert s[|a|] == c;
  }

  /** The last `c` of `a + [c] + b`, when `b` has none, sits right after `a`. */
  lemma LastIndexOfBefore(a: string, c: char, b: string)
    requires c !in b
    ensures LastIndexOf(a + [c] + b, c) == |a|
  {
    var s := a + [c] + b;
    assert s[|a|] == c;
  }

  /** Everything before the first `c` of `a + [c] + b` is `a`, when `a` has no `c`. */
  lemma BeforeFirstAt(a: string, c: char, b: string)
    requires c !in a
    ensures BeforeFirst(a + [c] + b, c) == a
  {
    IndexOfAfter(a, c, b);
    assert (a + [c] + b)[..|a|] == a;
  }

  /** With no `c` in it, the whole string comes before the first `c`. */
  lemma BeforeFirstAll(s: string, c: char)
    requires c !in s
    ensures BeforeFirst(s, c) == s
  {
  }

  /** The first piece of a string holds only characters of that string. */
  lemma FirstPieceChars(s: string, c: char, x: char)
    requires x in FirstPiece(s, c)
    ensures x in s
  {
    var p := BeforeFirst(s, c);
    assert x in p;
    assert p == s[..|p|];
  }

  /** Trimming a string that starts with a non-white character only trims its end. */
  lemma TrimOfNonWhiteStart(p: string)
    requires p == [] || !IsWhiteSpace(p[0])
    ensures Trim(p) == TrimEnd(p)
  {
    TrimStartUnique(p, 0);
    assert p[0..] == p;
  }

  /** When `s` does not start with white space, its first piece is a prefix of it. */
  lemma FirstPieceIsPrefix(s: string, c: char)
    requires s == [] || !IsWhiteSpace(s[0])
    ensures StartsWith(s, FirstPiece(s, c))
  {
    var p := BeforeFirst(s, c);
    assert FirstPiece(s, c) == Trim(p);
    assert p == [] || p[0] == s[0];
    TrimOfNonWhiteStart(p);
    var t := TrimEnd(p);
    assert s[..|t|] == p[..|t|];
  }

  /**
   * `s.Split(seps)` with no options: the pieces between separator
   * characters, empty pieces included, so there is always one more piece
   * than there are separators.
   */
  function SplitAny(s: string, seps: set<char>): (r: seq<string>)
    ensures |r| == |Separators(s, seps)| + 1
    ensures Interleave(r, Separators(s, seps)) == s
    ensures forall p | p in r :: forall i | 0 <= i < |p| :: p[i] !in seps
  {
    PiecesRebuild(s, seps);
    PiecesHaveNoSeparator(s, seps);
    Pieces(s, seps)
  }

  /** The pieces, built from the front: a separator opens a new piece. */
  function Pieces(s: string, seps: set<char>): seq<string>
    ensures |Pieces(s, seps)| >= 1
  {
    if s == [] then [[]]
    else
      var rest := Pieces(s[1..], seps);
      if s[0] in seps then [[]] + rest
      else [[s[0]] + rest[0]] + rest[1..]
  }

  /** The separator characters of `s`, in order. */
  function Separators(s: string, seps: set<char>): seq<char> {
    if s == [] then []
    else if s[0] in seps then [s[0]] + Separators(s[1..], seps)
    else Separators(s[1..], seps)
  }

  /** The pieces joined again, each separator back between its two neighbours. */
  function Interleave(pieces: seq<string>, cs: seq<char>): string
    requires |pieces| == |cs| + 1
  {
    if cs == [] then pieces[0] else pieces[0] + [cs[0]] + Interleave(pieces[1..], cs[1..])
  }

  lemma InterleaveHead(a: string, b: string, tail: seq<string>, cs: seq<char>)
    requires |tail| == |cs|
    ensures Interleave([a + b] + tail, cs) == a + Interleave([b] + tail, cs)
  {
    if cs != [] {
      assert ([a + b] + tail)[1..] == tail == ([b] + tail)[1..];
    }
  }

  /** Joining the pieces with the separators between them gives the text back. */
  lemma {:induction false} PiecesRebuild(s: string, seps: set<char>)
    ensures |Pieces(s, seps)| == |Separators(s, seps)| + 1
    ensures Interleave(Pieces(s, seps), Separators(s, seps)) == s
    decreases |s|
  {
    if s != [] {
      PiecesRebuild(s[1..], seps);
      var rest := Pieces(s[1..], seps);
      var cs := Separators(s[1..], seps);
      assert [s[0]] + s[1..] == s;
      if s[0] in seps {
        assert ([[]] + rest)[1..] == rest;
      } else {
        InterleaveHead([s[0]], rest[0], rest[1..], cs);
        assert [rest[0]] + rest[1..] == rest;
      }
    }
  }

  lemma {:induction false} PiecesHaveNoSeparator(s: string, seps: set<char>)
    ensures forall p | p in Pieces(s, seps) :: forall i | 0 <= i < |p| :: p[i] !in seps
    decreases |s|
  {
    if s != [] {
      PiecesHaveNoSeparator(s[1..], seps);
      var rest := Pieces(s[1..], seps);
      assert forall p | p in rest[1..] :: p in rest;
      if s[0] !in seps {
        var p0 := [s[0]] + rest[0];
        assert forall i | 1 <= i < |p0| :: p0[i] == rest[0][i - 1];
      }
    }
  }

  /** A separator cuts the text in two, and the pieces of each half follow each other. */
  lemma {:induction false} SplitAnyAtSeparator(a: string, c: char, b: string, seps: set<char>)
    requires c in seps
    ensures SplitAny(a + [c] + b, seps) == SplitAny(a, seps) + SplitAny(b, seps)
  {
    PiecesAtSeparator(a, c, b, seps);
  }

  lemma {:induction false} PiecesAtSeparator(a: string, c: char, b: string, seps: set<char>)
    requires c in seps
    ensures Pieces(a + [c] + b, seps) == Pieces(a, seps) + Pieces(b, seps)
    decreases |a|
  {
    var s := a + [c] + b;
    if a == [] {
      assert s[0] == c && s[1..] == b;
    } else {
      assert s[0] == a[0] && s[1..] == a[1..] + [c] + b;
      PiecesAtSeparator(a[1..], c, b, seps);
      var tailA := Pieces(a[1..], seps);
      if a[0] !in seps {
        assert (tailA + Pieces(b, seps))[1..] == tailA[1..] + Pieces(b, seps);
      }
    }
  }

  /** Every piece of blank text is blank. */
  lemma SplitAnyOfBlank(s: string, seps: set<char>)
    requires IsBlank(s)
    ensures forall p | p in SplitAny(s, seps) :: IsBlank(p)
  {
    PiecesOfBlank(s, seps);
  }

  lemma {:induction false} PiecesOfBlank(s: string, seps: set<char>)
    requires IsBlank(s)
    ensures forall p | p in Pieces(s, seps) :: IsBlank(p)
    decreases |s|
  {
    if s != [] {
      assert IsWhiteSpace(s[0]);
      PiecesOfBlank(s[1..], seps);
      var rest := Pieces(s[1..], seps);
      assert forall p | p in rest[1..] :: p in rest;
      if s[0] !in seps {
        var p0 := [s[0]] + rest[0];
        assert rest[0] in rest;
        assert forall i | 1 <= i < |p0| :: p0[i] == rest[0][i - 1];
        assert IsBlank(p0);
        assert Pieces(s, seps) == [p0] + rest[1..];
      }
    }
  }

  /** Text without a separator is a single piece. */
  lemma SplitAnyWithoutSeparator(s: string, seps: set<char>)
    requires forall i | 0 <= i < |s| :: s[i] !in seps
    ensures SplitAny(s, seps) == [s]
  {
    PiecesWithoutSeparator(s, seps);
  }

  lemma {:induction false} PiecesWithoutSeparator(s: string, seps: set<char>)
    requires forall i | 0 <= i < |s| :: s[i] !in seps
    ensures Pieces(s, seps) == [s]
    decreases |s|
  {
    if s != [] {
      PiecesWithoutSeparator(s[1..], seps);
      assert [s[0]] + s[1..] == s;
    }
  }

  // ------------------------------------------------------- integers as text

  const Int32Min: int := -0x8000_0000
  const Int32Max: int := 0x7FFF_FFFF

  predicate IsDigit(c: char) { '0' <= c <= '9' }

  function DigitChar(d: nat): char
    requires d < 10
  {
    ('0' as int + d) as char
  }

  /** The value of a string of decimal digits, most significant first. */
  function DigitsValue(s: string): nat
    requires forall i | 0 <= i < |s| :: IsDigit(s[i])
  {
    if s == [] then 0
    else
      assert IsDigit(s[|s| - 1]);
      DigitsValue(s[..|s| - 1]) * 10 + (s[|s| - 1] as int - '0' as int)
  }

  /** Invariant-culture decimal text of a natural number, no leading zeros. */
  function NatToString(n: nat): (r: string)
    ensures |r| >= 1
    ensures forall i | 0 <= i < |r| :: IsDigit(r[i])
    ensures n != 0 ==> r[0] != '0'
    decreases n
  {
    if n < 10 then [DigitChar(n)] else NatToString(n / 10) + [DigitChar(n % 10)]
  }

  /** Invariant-culture decimal text of an integer: `int.ToString()`. */
  function IntToString(i: int): string {
    if i < 0 then "-" + NatToString(-i) else NatToString(i)
  }

  /** The white space `NumberStyles.Integer` accepts around a number. */
  predicate IsNumberWhite(c: char) {
    ('\t' <= c <= '\r') || c == ' '
  }

  function TrimNumberWhite(s: string): (r: string)
    ensures |r| <= |s|
    ensures r == [] || (!IsNumberWhite(r[0]) && !IsNumberWhite(r[|r| - 1]))
  {
    if s == [] then s
    else if IsNumberWhite(s[0]) then TrimNumberWhite(s[1..])
    else if IsNumberWhite(s[|s| - 1]) then TrimNumberWhite(s[..|s| - 1])
    else s
  }

  predicate AllDigits(s: string) {
    forall i | 0 <= i < |s| :: IsDigit(s[i])
  }

  /**
   * `int.TryParse(s, NumberStyles.Integer, CultureInfo.InvariantCulture)`:
   * optional white space, an optional '+' or '-', at least one ASCII digit,
   * optional white space, and a value that fits in 32 bits.
   */
  function ParseInt32(s: string): (r: Option<int>)
    ensures r.Some? ==> Int32Min <= r.value <= Int32Max
  {
    var t := TrimNumberWhite(s);
    var negative := |t| > 0 && t[0] == '-';
    var digits := if |t| > 0 && (t[0] == '-' || t[0] == '+') then t[1..] else t;
    if digits == [] || !AllDigits(digits) then None
    else
      var magnitude: int := DigitsValue(digits);
      var v := if negative then -magnitude else magnitude;
      if Int32Min <= v <= Int32Max then Some(v) else None
  }

  /** Trimming number white space off a blank string leaves it blank. */
  lemma {:induction false} TrimNumberWhiteOfBlank(s: string)
    requires IsBlank(s)
    ensures IsBlank(TrimNumberWhite(s))
    decreases |s|
  {
    if s != [] && IsNumberWhite(s[0]) {
      TrimNumberWhiteOfBlank(s[1..]);
    } else if s != [] && IsNumberWhite(s[|s| - 1]) {
      TrimNumberWhiteOfBlank(s[..|s| - 1]);
    }
  }

  /** A blank string is not a number. */
  lemma ParseInt32OfBlank(s: string)
    requires IsBlank(s)
    ensures ParseInt32(s).None?
  {
    TrimNumberWhiteOfBlank(s);
    var t := TrimNumberWhite(s);
    if t != [] {
      // the first character is white space: neither a sign nor a digit
      assert IsWhiteSpace(t[0]) && !IsDigit(t[0]);
    }
  }

  /** `int.TryParse` on a nullable string: null never parses. */
  function ParseNullableInt32(s: Option<string>): Option<int> {
    if s.None? then None else ParseInt32(s.value)
  }

  lemma {:induction false} DigitsValueOfNatToString(n: nat)
    ensures DigitsValue(NatToString(n)) == n
    decreases n
  {
    if n >= 10 {
      var s := NatToString(n);
      assert s[..|s| - 1] == NatToString(n / 10);
      DigitsValueOfNatToString(n / 10);
    }
  }

  /** Formatting an in-range integer and parsing it back gives the integer. */
  lemma ParseInt32OfIntToString(i: int)
    requires Int32Min <= i <= Int32Max
    ensures ParseInt32(IntToString(i)) == Some(i)
  {
    var s := IntToString(i);
    var d := NatToString(if i < 0 then -i else i);
    DigitsValueOfNatToString(if i < 0 then -i else i);
    assert TrimNumberWhite(s) == s;
    if i < 0 {
      assert s[1..] == d;
    }
  }
}
