/** Shared vocabulary of the app model: optional values, the app's two-case result type,
    the outcome of a call that may throw, screen load states, Kotlin's integer division and
    Kotlin's string helpers (trim, isBlank) and decimal rendering of integers. */
module Common {

  datatype Option<+T> = None | Some(value: T)

  /** The app's `DataResult`: a value, or an error carrying the throwable's (nullable) message. */
  datatype DataResult<+T> = Success(data: T) | Error(message: Option<string>)

  /** What a call into code the model cannot see (Firebase, the compressor, the gallery) did:
      it returned a value or it threw an exception with a (nullable) message. */
  datatype Outcome<+T> = Returned(value: T) | Threw(message: Option<string>)

  /** The app's `UiState`. The timestamp carried by `Success` in several view models is a clock
      reading and is not modelled. */
  datatype UiState<+T> = Idle | Loading | Loaded(data: T) | Failure(message: Option<string>)

  /** No element occurs twice: a `LinkedHashSet`, or the result of `distinct()`, as the
      sequence of its elements in insertion order. */
  predicate NoDuplicates<T(==)>(s: seq<T>) {
    forall i, j :: 0 <= i < j < |s| ==> s[i] != s[j]
  }

  /** A section of a track as the repository returns it (its other fields are not part of this model). */
  datatype Section = Section(id: string, title: string)

  /** `runCatching { … }.fold(onSuccess = { Success(it) }, onFailure = { Error(it) })`. */
  function RunCatching<T>(o: Outcome<T>): (r: DataResult<T>)
    ensures r.Error? <==> o.Threw?
    ensures o.Returned? ==> r == Success(o.value)
    ensures o.Threw? ==> r.message == o.message
  {
    match o
    case Returned(v) => Success(v)
    case Threw(m) => Error(m)
  }

  // ---------------------------------------------------------------------------------------
  // Kotlin integer division: `/` truncates toward zero, `%` takes the sign of the dividend.

  function Abs(x: int): nat { if x < 0 then -x else x }

  /** Kotlin's `a / b` on Int/Long. */
  function TDiv(a: int, b: int): (q: int)
    requires b != 0
    ensures a >= 0 && b > 0 ==> q == a / b
  {
    var m := Abs(a) / Abs(b);
    if (a < 0) == (b < 0) then m else -m
  }

  /** Kotlin's `a % b` on Int/Long: the remainder takes the sign of the dividend. */
  function TMod(a: int, b: int): (r: int)
    requires b != 0
    ensures Abs(r) < Abs(b)
    ensures a >= 0 ==> r >= 0
    ensures a <= 0 ==> r <= 0
    ensures a >= 0 && b > 0 ==> r == a % b
  {
    var k := Abs(a) % Abs(b);
    if a >= 0 then k else -k
  }

  /** Kotlin's quotient and remainder recombine to the dividend. */
  lemma TDivTMod(a: int, b: int)
    requires b != 0
    ensures a == TDiv(a, b) * b + TMod(a, b)
  {
    var m, k := Abs(a) / Abs(b), Abs(a) % Abs(b);
    assert Abs(a) == m * Abs(b) + k;
    if b > 0 {
      assert m * Abs(b) == m * b;
    } else {
      assert m * Abs(b) == -(m * b);
    }
  }

  lemma MulAtLeast(n: int, k: int)
    requires n > 0 && k >= 1
    ensures n * k >= n
  {
  }

  /** Euclidean division is unique: a quotient and remainder in range are the ones `/` and `%` give. */
  lemma DivModUnique(a: int, n: int, q: int, r: int)
    requires n > 0 && a == q * n + r && 0 <= r < n
    ensures a / n == q && a % n == r
  {
    var q', r' := a / n, a % n;
    assert a == q' * n + r' && 0 <= r' < n;
    assert (q - q') * n == r' - r;
    if q - q' >= 1 {
      MulAtLeast(n, q - q');
    } else if q' - q >= 1 {
      MulAtLeast(n, q' - q);
    }
  }

  /** Multiplying by a non-negative factor keeps the order. */
  lemma MulMonotone(h: int, a: int, b: int)
    requires h >= 0 && 0 <= a <= b
    ensures 0 <= h * a <= h * b
  {
    assert h * b - h * a == h * (b - a);
  }

  /** Dividing by a positive divisor keeps the order. */
  lemma DivMonotone(a: int, b: int, n: int)
    requires n > 0 && 0 <= a <= b
    ensures a / n <= b / n
  {
    var qa, ra, qb, rb := a / n, a % n, b / n, b % n;
    assert a == qa * n + ra && b == qb * n + rb;
    if qa > qb {
      MulAtLeast(n, qa - qb);
    }
  }

  /** Dividing a multiple of a positive divisor gives the other factor back. */
  lemma TDivOfMultiple(n: int, s: int)
    requires n > 0
    ensures TDiv(n * s, n) == s
  {
    var a := Abs(n * s);
    var t := Abs(s);
    assert a == n * t;
    var q, r := a / n, a % n;
    assert a == q * n + r && 0 <= r < n;
    assert n * (t - q) == r;
    if t - q >= 1 {
      MulAtLeast(n, t - q);
    }
    assert q == t;
  }

  // ---------------------------------------------------------------------------------------
  // Kotlin strings.

  /** Kotlin's `Char.isWhitespace()`: Java's `Character.isWhitespace` or `Character.isSpaceChar`. */
  predicate IsWhitespace(c: char) {
    || ('\t' <= c <= '\r')
    || ('\U{1C}' <= c <= '\U{1F}')
    || c == ' '
    || c == '\U{A0}'
    || c == '\U{1680}'
    || ('\U{2000}' <= c <= '\U{200A}')
    || c == '\U{2028}' || c == '\U{2029}' || c == '\U{202F}' || c == '\U{205F}'
    || c == '\U{3000}'
  }

  /** Kotlin's `CharSequence.isBlank()`. */
  predicate IsBlank(s: string) {
    forall i :: 0 <= i < |s| ==> IsWhitespace(s[i])
  }

  /** Leading whitespace removed. */
  function TrimStart(s: string): (r: string)
    ensures |r| <= |s| && r == s[|s| - |r|..]
    ensures r == [] || !IsWhitespace(r[0])
  {
    if s == [] || !IsWhitespace(s[0]) then s else TrimStart(s[1..])
  }

  /** Only leading whitespace is removed. */
  lemma {:induction false} TrimStartDropsWhitespace(s: string)
    ensures forall i :: 0 <= i < |s| - |TrimStart(s)| ==> IsWhitespace(s[i])
  {
    if s != [] && IsWhitespace(s[0]) {
      TrimStartDropsWhitespace(s[1..]);
      assert forall i :: 1 <= i < |s| ==> s[i] == s[1..][i - 1];
    }
  }

  /** Trailing whitespace removed. */
  function TrimEnd(s: string): (r: string)
    ensures |r| <= |s| && r == s[..|r|]
    ensures r == [] || !IsWhitespace(r[|r| - 1])
  {
    if s == [] || !IsWhitespace(s[|s| - 1]) then s else TrimEnd(s[..|s| - 1])
  }

  /** Only trailing whitespace is removed. */
  lemma {:induction false} TrimEndDropsWhitespace(s: string)
    ensures forall i :: |TrimEnd(s)| <= i < |s| ==> IsWhitespace(s[i])
  {
    if s != [] && IsWhitespace(s[|s| - 1]) {
      TrimEndDropsWhitespace(s[..|s| - 1]);
      assert forall i :: 0 <= i < |s| - 1 ==> s[i] == s[..|s| - 1][i];
    }
  }

  /** Kotlin's `String.trim()`: the longest infix that starts and ends with a non-whitespace
      character, obtained by dropping whitespace from both ends. */
  function Trim(s: string): (r: string)
  {
    TrimEnd(TrimStart(s))
  }

  /** The trimmed text is an infix of the original, has no whitespace at either end, and only
      whitespace was dropped. */
  lemma TrimShape(s: string)
    ensures var k := |s| - |TrimStart(s)|; k + |Trim(s)| <= |s| && Trim(s) == s[k..k + |Trim(s)|]
    ensures Trim(s) == [] || (!IsWhitespace(Trim(s)[0]) && !IsWhitespace(Trim(s)[|Trim(s)| - 1]))
  {
    TrimInfix(s);
    TrimEndsClean(s);
  }

  lemma TrimInfix(s: string)
    ensures var k := |s| - |TrimStart(s)|; k + |Trim(s)| <= |s| && Trim(s) == s[k..k + |Trim(s)|]
  {
    var t := TrimStart(s);
    var k := |s| - |t|;
    var r := TrimEnd(t);
    assert t == s[k..] && r == t[..|r|] && |r| <= |t|;
    PrefixOfSuffix(s, k, |r|);
  }

  lemma PrefixOfSuffix(s: string, k: nat, m: nat)
    requires k + m <= |s|
    ensures s[k..][..m] == s[k..k + m]
  {
  }

  lemma TrimEndsClean(s: string)
    ensures Trim(s) == [] || (!IsWhitespace(Trim(s)[0]) && !IsWhitespace(Trim(s)[|Trim(s)| - 1]))
  {
    var t := TrimStart(s);
    var r := TrimEnd(t);
    if r != [] {
      assert r == t[..|r|];
      assert r[0] == t[0];
    }
  }

  /** Trimming leaves nothing exactly when the text is blank. */
  lemma TrimEmptyIffBlank(s: string)
    ensures Trim(s) == [] <==> IsBlank(s)
  {
    var t := TrimStart(s);
    TrimStartDropsWhitespace(s);
    if t != [] {
      assert !IsWhitespace(t[0]);
      TrimEndDropsWhitespace(t);
      assert TrimEnd(t) != [];
      assert s[|s| - |t|] == t[0];
    }
  }

  /** Trimming twice is trimming once. */
  lemma TrimIdempotent(s: string)
    ensures Trim(Trim(s)) == Trim(s)
  {
    var r := Trim(s);
    TrimShape(s);
    if r != [] {
      assert TrimStart(r) == r;
      assert TrimEnd(r) == r;
    }
  }

  // ---------------------------------------------------------------------------------------
  // Decimal rendering, as `Int.toString()` and the `%d` conversion produce it.

  function DigitChar(d: nat): (c: char)
    requires d < 10
    ensures '0' <= c <= '9'
  {
    ['0', '1', '2', '3', '4', '5', '6', '7', '8', '9'][d]
  }

  function DigitValue(c: char): (d: nat)
    requires '0' <= c <= '9'
    ensures d < 10 && DigitChar(d) == c
  {
    var d := (c as int) - ('0' as int);
    assert DigitChar(d) == c;
    d
  }

  predicate IsDigits(s: string) {
    forall i :: 0 <= i < |s| ==> '0' <= s[i] <= '9'
  }

  /** The decimal digits of `n`, without leading zeros ("0" for zero). */
  function NatToString(n: nat): (s: string)
    ensures |s| >= 1 && IsDigits(s)
    ensures n < 10 <==> |s| == 1
    ensures n >= 10 ==> s[0] != '0'
    ensures 10 <= n < 100 ==> |s| == 2
    decreases n
  {
    if n < 10 then [DigitChar(n)] else NatToString(n / 10) + [DigitChar(n % 10)]
  }

  /** The value of a string of decimal digits. */
  function ParseDigits(s: string): nat
    requires IsDigits(s)
    decreases |s|
  {
    if s == [] then 0 else 10 * ParseDigits(s[..|s| - 1]) + DigitValue(s[|s| - 1])
  }

  /** Reading back the rendered digits gives the number. */
  lemma {:induction false} ParseNatToString(n: nat)
    ensures ParseDigits(NatToString(n)) == n
    decreases n
  {
    var s := NatToString(n);
    if n < 10 {
      assert s[..0] == [];
    } else {
      ParseNatToString(n / 10);
      assert s[..|s| - 1] == NatToString(n / 10);
    }
  }
}
