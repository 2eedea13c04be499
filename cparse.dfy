/**
 * The C library's text scanning as the core uses it: `isspace`, `atoi`,
 * `atof` (decimal notation), `sscanf("%d%d")`, `strcmp`, and the libacfutils
 * helpers `strip_space` and `strsplit(line, " ", B_TRUE, ...)`.
 */
module CParse {
  import opened Common

  predicate IsSpace(c: char) {
    c == ' ' || c == '\t' || c == '\n' || c == '\r' || c == '\U{0B}' || c == '\U{0C}'
  }

  predicate IsDigit(c: char) { '0' <= c <= '9' }

  /** Number of leading characters of `s` satisfying `IsSpace`. */
  function LeadingSpaces(s: string): (n: nat)
    ensures n <= |s|
  {
    if |s| == 0 || !IsSpace(s[0]) then 0 else 1 + LeadingSpaces(s[1..])
  }

  /** Number of leading decimal digits of `s`. */
  function LeadingDigits(s: string): (n: nat)
    ensures n <= |s|
  {
    if |s| == 0 || !IsDigit(s[0]) then 0 else 1 + LeadingDigits(s[1..])
  }

  /** Value of a string of decimal digits, most significant first. */
  function DigitsValue(s: string): int
  {
    if |s| == 0 then 0
    else 10 * DigitsValue(s[..|s| - 1]) + (s[|s| - 1] as int - '0' as int)
  }

  /** The run `LeadingSpaces` skips is white space, and it stops at the first other character. */
  lemma {:induction false} LeadingSpacesSpec(s: string)
    ensures forall i :: 0 <= i < LeadingSpaces(s) ==> IsSpace(s[i])
    ensures LeadingSpaces(s) < |s| ==> !IsSpace(s[LeadingSpaces(s)])
  {
    if |s| > 0 && IsSpace(s[0]) {
      LeadingSpacesSpec(s[1..]);
    }
  }

  /** The run `LeadingDigits` counts is made of digits, and it stops at the first non-digit. */
  lemma {:induction false} LeadingDigitsSpec(s: string)
    ensures forall i :: 0 <= i < LeadingDigits(s) ==> IsDigit(s[i])
    ensures LeadingDigits(s) < |s| ==> !IsDigit(s[LeadingDigits(s)])
  {
    if |s| > 0 && IsDigit(s[0]) {
      LeadingDigitsSpec(s[1..]);
    }
  }

  /** A string of digits has a non-negative value. */
  lemma {:induction false} DigitsValueNonNegative(s: string)
    requires forall i :: 0 <= i < |s| ==> IsDigit(s[i])
    ensures DigitsValue(s) >= 0
  {
    if |s| > 0 {
      DigitsValueNonNegative(s[..|s| - 1]);
    }
  }

  /**
   * One `%d` conversion of `sscanf`/`strtol`: optional white space, an
   * optional sign, then at least one digit. Yields the value and the
   * number of characters consumed, or None when no digit follows.
   */
  function ScanInt(s: string): (r: Option<(int, nat)>)
    ensures r.Some? ==> 0 < r.value.1 <= |s|
  {
    ScanSigned(s, LeadingSpaces(s))
  }

  /** The `%d` conversion from position `at` on: an optional sign, then at least one digit. */
  function ScanSigned(s: string, at: nat): (r: Option<(int, nat)>)
    requires at <= |s|
    ensures r.Some? ==> at < r.value.1 <= |s|
  {
    var sign := if at < |s| && (s[at] == '+' || s[at] == '-') then 1 else 0;
    var nd := LeadingDigits(s[at + sign..]);
    if nd == 0 then None
    else
      var mag := DigitsValue(s[at + sign..at + sign + nd]);
      Some((if sign == 1 && s[at] == '-' then -mag else mag, at + sign + nd))
  }

  /** White space up to `i`, then a character that is not white space: `LeadingSpaces` is `i`. */
  lemma {:induction false} LeadingSpacesAt(s: string, i: nat)
    requires i < |s| && !IsSpace(s[i])
    requires forall m :: 0 <= m < i ==> IsSpace(s[m])
    ensures LeadingSpaces(s) == i
  {
    if i > 0 {
      LeadingSpacesAt(s[1..], i - 1);
    }
  }

  /** Digits up to `k`, then a non-digit or the end: `LeadingDigits` is `k`. */
  lemma {:induction false} LeadingDigitsAt(s: string, k: nat)
    requires k <= |s| && (k < |s| ==> !IsDigit(s[k]))
    requires forall m :: 0 <= m < k ==> IsDigit(s[m])
    ensures LeadingDigits(s) == k
  {
    if k > 0 {
      LeadingDigitsAt(s[1..], k - 1);
    }
  }

  /**
   * What `%d` reads: white space before `i`, an optional sign in
   * `s[i..j]` and digits in `s[j..k]` ending at a non-digit scan to the
   * signed value of those digits, and the conversion consumes exactly `k`
   * characters.
   */
  lemma ScanIntReads(s: string, i: nat, j: nat, k: nat)
    requires i <= j < k <= |s|
    requires forall m :: 0 <= m < i ==> IsSpace(s[m])
    requires j <= i + 1 && (j == i + 1 ==> s[i] == '+' || s[i] == '-')
    requires forall m :: j <= m < k ==> IsDigit(s[m])
    requires k < |s| ==> !IsDigit(s[k])
    ensures ScanInt(s) == Some((if j == i + 1 && s[i] == '-' then -DigitsValue(s[j..k])
                                else DigitsValue(s[j..k]), k))
  {
    LeadingSpacesAt(s, i);
    LeadingDigitsAt(s[j..], k - j);
    ScanSignedParts(s, i, j, k);
  }

  /** `ScanSigned` in terms of where the sign and the digits end. */
  lemma ScanSignedParts(s: string, i: nat, j: nat, k: nat)
    requires i <= j < k <= |s|
    requires j <= i + 1 && (j == i + 1 <==> s[i] == '+' || s[i] == '-')
    requires LeadingDigits(s[j..]) == k - j
    ensures ScanSigned(s, i) == Some((if j == i + 1 && s[i] == '-' then -DigitsValue(s[j..k])
                                      else DigitsValue(s[j..k]), k))
  {
  }

  /** `atoi`/`atoll`: the `%d` conversion, or 0 when there is none. */
  function AtoI(s: string): int
  {
    match ScanInt(s)
    case Some(p) => p.0
    case None => 0
  }

  /** `sscanf(s, "%d%d", &a, &b) == 2`: two integers, the second right after the first. */
  function ScanTwoInts(s: string): (r: Option<(int, int)>)
  {
    match ScanInt(s)
    case None => None
    case Some(p) =>
      match ScanInt(s[p.1..])
      case None => None
      case Some(q) => Some((p.0, q.0))
  }

  /** `atoi` on a string `%d` can read: the signed value of its digits. */
  lemma AtoIReads(s: string, i: nat, j: nat, k: nat)
    requires i <= j < k <= |s|
    requires forall m :: 0 <= m < i ==> IsSpace(s[m])
    requires j <= i + 1 && (j == i + 1 ==> s[i] == '+' || s[i] == '-')
    requires forall m :: j <= m < k ==> IsDigit(s[m])
    requires k < |s| ==> !IsDigit(s[k])
    ensures AtoI(s) == if j == i + 1 && s[i] == '-' then -DigitsValue(s[j..k]) else DigitsValue(s[j..k])
  {
    ScanIntReads(s, i, j, k);
  }

  /**
   * `%d%d` needs no separator when the second number carries a sign: the
   * sign at `k` ends the first number (digits `s[j..k]`) and starts the
   * second (digits `s[k+1..m]`).
   */
  lemma ScanTwoIntsSignSeparates(s: string, i: nat, j: nat, k: nat, m: nat)
    requires i <= j < k && k + 1 < m <= |s|
    requires forall p :: 0 <= p < i ==> IsSpace(s[p])
    requires j <= i + 1 && (j == i + 1 ==> s[i] == '+' || s[i] == '-')
    requires forall p :: j <= p < k ==> IsDigit(s[p])
    requires s[k] == '+' || s[k] == '-'
    requires forall p :: k < p < m ==> IsDigit(s[p])
    requires m < |s| ==> !IsDigit(s[m])
    ensures ScanTwoInts(s) == Some((if j == i + 1 && s[i] == '-' then -DigitsValue(s[j..k]) else DigitsValue(s[j..k]),
                                    if s[k] == '-' then -DigitsValue(s[k + 1..m]) else DigitsValue(s[k + 1..m])))
  {
    ScanIntReads(s, i, j, k);
    ScanSignedAt(s, k, m);
  }

  /** A sign at `k` and digits up to `m`: `%d` on the text from `k` reads them as a signed number. */
  lemma {:induction false} ScanSignedAt(s: string, k: nat, m: nat)
    requires k + 1 < m <= |s| && (s[k] == '+' || s[k] == '-')
    requires forall p :: k < p < m ==> IsDigit(s[p])
    requires m < |s| ==> !IsDigit(s[m])
    ensures ScanInt(s[k..]) == Some((if s[k] == '-' then -DigitsValue(s[k + 1..m]) else DigitsValue(s[k + 1..m]), m - k))
  {
    var t := s[k..];
    LeadingSpacesAt(t, 0);
    LeadingDigitsAt(s[k + 1..], m - k - 1);
    assert t[1..] == s[k + 1..];
    assert t[1..m - k] == s[k + 1..m];
    ScanSignedParts(t, 0, 1, m - k);
  }

  function Pow10(n: nat): (r: nat)
    ensures r >= 1
  {
    if n == 0 then 1 else 10 * Pow10(n - 1)
  }

  /** The value of a digit run read as the fraction after a decimal point. */
  function Fraction(v: string): real
  {
    var nf := LeadingDigits(v);
    DigitsValue(v[..nf]) as real / Pow10(nf) as real
  }

  /** The unsigned decimal `u` begins with: digits, optionally '.' and more digits. */
  function Magnitude(u: string): real
  {
    var ni := LeadingDigits(u);
    DigitsValue(u[..ni]) as real + (if ni < |u| && u[ni] == '.' then Fraction(u[ni + 1..]) else 0.0)
  }

  /**
   * `atof` on decimal notation: optional white space, optional sign, digits,
   * optionally '.' and more digits; 0.0 when no digit is present.
   */
  function AtoF(s: string): real
  {
    var t := s[LeadingSpaces(s)..];
    if |t| > 0 && t[0] == '-' then -Magnitude(t[1..])
    else if |t| > 0 && t[0] == '+' then Magnitude(t[1..])
    else Magnitude(t)
  }

  /** `AtoF` after the white space, in terms of where the sign ends. */
  lemma AtoFSigned(s: string, i: nat, j: nat)
    requires i <= j <= |s| && i < |s| && LeadingSpaces(s) == i
    requires j <= i + 1 && (j == i + 1 <==> s[i] == '+' || s[i] == '-')
    ensures AtoF(s) == if j == i + 1 && s[i] == '-' then -Magnitude(s[j..]) else Magnitude(s[j..])
  {
    if j == i + 1 {
      assert s[i..][1..] == s[j..];
    }
  }

  /** `Magnitude` from `j` of digits up to `k`, then '.', then digits up to a non-digit at `m`. */
  lemma {:induction false} MagnitudeReads(s: string, j: nat, k: nat, m: nat)
    requires j <= k < m <= |s| && s[k] == '.'
    requires forall p :: j <= p < k ==> IsDigit(s[p])
    requires forall p :: k < p < m ==> IsDigit(s[p])
    requires m < |s| ==> !IsDigit(s[m])
    ensures Magnitude(s[j..]) == DigitsValue(s[j..k]) as real + DigitsValue(s[k + 1..m]) as real / Pow10(m - k - 1) as real
  {
    var u := s[j..];
    LeadingDigitsAt(u, k - j);
    assert u[..k - j] == s[j..k];
    assert u[k - j + 1..] == s[k + 1..];
    LeadingDigitsAt(s[k + 1..], m - k - 1);
    assert s[k + 1..][..m - k - 1] == s[k + 1..m];
  }

  /** `Magnitude` from `j` of digits up to `k` followed by neither a digit nor '.'. */
  lemma {:induction false} MagnitudeWhole(s: string, j: nat, k: nat)
    requires j <= k <= |s| && (k < |s| ==> !IsDigit(s[k]) && s[k] != '.')
    requires forall p :: j <= p < k ==> IsDigit(s[p])
    ensures Magnitude(s[j..]) == DigitsValue(s[j..k]) as real
  {
    LeadingDigitsAt(s[j..], k - j);
    assert s[j..][..k - j] == s[j..k];
  }

  /**
   * What `atof` reads: white space before `i`, an optional sign in
   * `s[i..j]`, digits in `s[j..k]`, a decimal point at `k` and digits in
   * `s[k+1..m]` ending at a non-digit give the signed value of the whole
   * digits plus the fraction digits over 10 to the number of them.
   */
  lemma {:induction false} AtoFReads(s: string, i: nat, j: nat, k: nat, m: nat)
    requires i <= j <= k < m <= |s| && s[k] == '.'
    requires forall p :: 0 <= p < i ==> IsSpace(s[p])
    requires j <= i + 1 && (j == i + 1 ==> s[i] == '+' || s[i] == '-')
    requires forall p :: j <= p < k ==> IsDigit(s[p])
    requires forall p :: k < p < m ==> IsDigit(s[p])
    requires m < |s| ==> !IsDigit(s[m])
    ensures var v := DigitsValue(s[j..k]) as real + DigitsValue(s[k + 1..m]) as real / Pow10(m - k - 1) as real;
      AtoF(s) == if j == i + 1 && s[i] == '-' then -v else v
  {
    LeadingSpacesAt(s, i);
    AtoFSigned(s, i, j);
    MagnitudeReads(s, j, k, m);
  }

  /**
   * Without a decimal point: an optional sign and digits `s[j..k]` ending
   * at a character that is neither a digit nor '.' give the signed value of
   * the digits.
   */
  lemma {:induction false} AtoFReadsWhole(s: string, i: nat, j: nat, k: nat)
    requires i <= j < k <= |s|
    requires forall p :: 0 <= p < i ==> IsSpace(s[p])
    requires j <= i + 1 && (j == i + 1 ==> s[i] == '+' || s[i] == '-')
    requires forall p :: j <= p < k ==> IsDigit(s[p])
    requires k < |s| ==> !IsDigit(s[k]) && s[k] != '.'
    ensures AtoF(s) == if j == i + 1 && s[i] == '-' then -(DigitsValue(s[j..k]) as real) else DigitsValue(s[j..k]) as real
  {
    LeadingSpacesAt(s, i);
    AtoFSigned(s, i, j);
    MagnitudeWhole(s, j, k);
  }

  /** `strcmp`, reduced to its sign; characters compare by code. */
  function StrCmp(a: string, b: string): (r: int)
    ensures -1 <= r <= 1
  {
    if |a| == 0 && |b| == 0 then 0
    else if |a| == 0 then -1
    else if |b| == 0 then 1
    else if a[0] < b[0] then -1
    else if a[0] > b[0] then 1
    else StrCmp(a[1..], b[1..])
  }

  lemma {:induction false} StrCmpAntisymmetric(a: string, b: string)
    ensures StrCmp(a, b) == -StrCmp(b, a)
  {
    if |a| > 0 && |b| > 0 && a[0] == b[0] {
      StrCmpAntisymmetric(a[1..], b[1..]);
    }
  }

  lemma {:induction false} StrCmpZeroIffEqual(a: string, b: string)
    ensures StrCmp(a, b) == 0 <==> a == b
  {
    if |a| > 0 && |b| > 0 && a[0] == b[0] {
      StrCmpZeroIffEqual(a[1..], b[1..]);
      if a[1..] == b[1..] {
        assert a == [a[0]] + a[1..] && b == [b[0]] + b[1..];
      }
    }
  }

  lemma {:induction false} StrCmpTransitive(a: string, b: string, c: string)
    requires StrCmp(a, b) < 0 && StrCmp(b, c) < 0
    ensures StrCmp(a, c) < 0
  {
    if |a| > 0 && |b| > 0 && |c| > 0 && a[0] == b[0] && b[0] == c[0] {
      StrCmpTransitive(a[1..], b[1..], c[1..]);
    }
  }

  /** libacfutils `strip_space`: drop leading and trailing white space. */
  function StripSpace(s: string): (r: string)
    ensures |r| <= |s|
    ensures |r| > 0 ==> !IsSpace(r[0]) && !IsSpace(r[|r| - 1])
  {
    if |s| == 0 then s
    else if IsSpace(s[0]) then StripSpace(s[1..])
    else if IsSpace(s[|s| - 1]) then StripSpace(s[..|s| - 1])
    else s
  }

  /** `s[i..j]` is `s` with only white space outside it. */
  predicate SpaceOutside(s: string, i: nat, j: nat)
  {
    i <= j <= |s|
    && (forall k :: 0 <= k < i ==> IsSpace(s[k]))
    && (forall k :: j <= k < |s| ==> IsSpace(s[k]))
  }

  /** Appending white space keeps the white space outside a slice. */
  lemma SpaceOutsideExtends(s: string, i: nat, j: nat)
    requires |s| > 0 && IsSpace(s[|s| - 1]) && SpaceOutside(s[..|s| - 1], i, j)
    ensures SpaceOutside(s, i, j) && s[..|s| - 1][i..j] == s[i..j]
  {
    var u := s[..|s| - 1];
    forall k | 0 <= k < i ensures IsSpace(s[k]) {
      assert s[k] == u[k];
    }
    forall k | j <= k < |s| ensures IsSpace(s[k]) {
      if k < |u| { assert s[k] == u[k]; }
    }
  }

  /**
   * `strip_space` removes white space at both ends and nothing else: the
   * result is a slice of the input with only white space outside it.
   */
  lemma {:induction false} StripSpaceTrims(s: string)
    ensures exists i: nat, j: nat :: SpaceOutside(s, i, j) && StripSpace(s) == s[i..j]
    decreases |s|
  {
    if |s| == 0 {
      assert SpaceOutside(s, 0, 0) && StripSpace(s) == s[0..0];
    } else if IsSpace(s[0]) {
      var u := s[1..];
      StripSpaceTrims(u);
      var i: nat, j: nat :| SpaceOutside(u, i, j) && StripSpace(u) == u[i..j];
      assert u[i..j] == s[i + 1..j + 1];
      assert SpaceOutside(s, i + 1, j + 1) by {
        forall k | 0 <= k < i + 1 ensures IsSpace(s[k]) {
          if k > 0 { assert s[k] == u[k - 1]; }
        }
        forall k | j + 1 <= k < |s| ensures IsSpace(s[k]) {
          assert s[k] == u[k - 1];
        }
      }
    } else if IsSpace(s[|s| - 1]) {
      var u := s[..|s| - 1];
      assert StripSpace(s) == StripSpace(u);
      StripSpaceTrims(u);
      var i: nat, j: nat :| SpaceOutside(u, i, j) && StripSpace(u) == u[i..j];
      SpaceOutsideExtends(s, i, j);
    } else {
      assert SpaceOutside(s, 0, |s|) && StripSpace(s) == s[0..|s|];
    }
  }

  /** Length of the leading run of characters other than ' '. */
  function TokenLength(s: string): (n: nat)
    ensures n <= |s|
    ensures forall i :: 0 <= i < n ==> s[i] != ' '
    ensures n < |s| ==> s[n] == ' '
  {
    if |s| == 0 || s[0] == ' ' then 0 else 1 + TokenLength(s[1..])
  }

  /**
   * libacfutils `strsplit(s, " ", B_TRUE, &n)`: the maximal runs of
   * characters other than ' ', adjacent separators merged.
   */
  function Split(s: string): (r: seq<string>)
    decreases |s|
  {
    if |s| == 0 then []
    else if s[0] == ' ' then Split(s[1..])
    else
      var n := TokenLength(s);
      [s[..n]] + Split(s[n..])
  }

  /** A token of `Split` is never empty and never holds the separator. */
  lemma {:induction false} SplitTokensAreWords(s: string)
    ensures forall k :: 0 <= k < |Split(s)| ==> |Split(s)[k]| > 0 && ' ' !in Split(s)[k]
    decreases |s|
  {
    if |s| == 0 {
    } else if s[0] == ' ' {
      SplitTokensAreWords(s[1..]);
    } else {
      var n := TokenLength(s);
      SplitTokensAreWords(s[n..]);
      var r := Split(s);
      assert r == [s[..n]] + Split(s[n..]);
      forall k | 0 <= k < |r| ensures |r[k]| > 0 && ' ' !in r[k] {
        if k > 0 {
          assert r[k] == Split(s[n..])[k - 1];
        } else {
          assert r[0] == s[..n];
          assert forall i :: 0 <= i < n ==> s[..n][i] != ' ';
        }
      }
    }
  }

  /** A non-empty string without blanks splits into itself alone. */
  lemma SplitOfWord(w: string)
    requires ' ' !in w && |w| > 0
    ensures Split(w) == [w]
  {
    var n := TokenLength(w);
    assert w[..n] == w && w[n..] == [];
  }

  /** A word, a blank and the rest split into the word followed by the rest's tokens. */
  lemma SplitWordThen(w: string, rest: string)
    requires ' ' !in w && |w| > 0
    ensures Split(w + " " + rest) == [w] + Split(rest)
  {
    var s := w + " " + rest;
    var n := TokenLength(s);
    assert s[|w|] == ' ';
    assert forall p :: 0 <= p < |w| ==> s[p] == w[p] && s[p] != ' ';
    assert s[..n] == w;
    assert s[n..][1..] == rest;
  }

  /** Truncation of a `strlcpy` into a `char[cap]` array: at most cap-1 characters survive. */
  function Strlcpy(s: string, cap: nat): (r: string)
    requires cap > 0
    ensures |r| <= cap - 1 && |r| <= |s| && r == s[..|r|]
    ensures |s| < cap ==> r == s
  {
    if |s| < cap then s else s[..cap - 1]
  }
}
