/** Number conversions of the Python runtime that the protocol layer uses:
    `str()` and `int()` on integers, `str.zfill`, `Decimal(str)`, and
    `round` to a number of decimal places (half to even, as Python's
    `round` on a `Decimal` and on an exactly representable float does).
    A `Decimal` is kept as Python keeps it, a coefficient and an exponent;
    its value is an exact Dafny `real`. */
module Numbers {
  import opened Wrappers
  import opened PyStr

  predicate IsDigit(c: char) {
    '0' <= c <= '9'
  }

  predicate AllDigits(s: string) {
    forall i :: 0 <= i < |s| ==> IsDigit(s[i])
  }

  function DigitValue(c: char): (d: nat)
    requires IsDigit(c)
    ensures d < 10
  {
    c as int - '0' as int
  }

  function DigitChar(d: nat): (c: char)
    requires d < 10
    ensures IsDigit(c) && DigitValue(c) == d
  {
    ('0' as int + d) as char
  }

  /** Value of a string of decimal digits, most significant first; `""` is 0. */
  function DigitsValue(ds: string): nat
    requires AllDigits(ds)
    decreases |ds|
  {
    if ds == [] then 0 else 10 * DigitsValue(ds[..|ds| - 1]) + DigitValue(ds[|ds| - 1])
  }

  function Pow10(k: nat): (p: nat)
    ensures p >= 1
  {
    if k == 0 then 1 else 10 * Pow10(k - 1)
  }

  /** A string of `n` zero digits. */
  function Zeros(n: nat): (z: string)
    ensures |z| == n && forall i :: 0 <= i < n ==> z[i] == '0'
  {
    seq(n, _ => '0')
  }

  /** Leading zeros do not change the value of a digit string. */
  lemma {:induction false} LeadingZeros(n: nat, ds: string)
    requires AllDigits(ds)
    ensures AllDigits(Zeros(n) + ds)
    ensures DigitsValue(Zeros(n) + ds) == DigitsValue(ds)
    decreases |ds|
  {
    var x := Zeros(n) + ds;
    if ds == [] {
      assert x == Zeros(n);
      ZerosValue(n);
    } else {
      assert x[..|x| - 1] == Zeros(n) + ds[..|ds| - 1];
      LeadingZeros(n, ds[..|ds| - 1]);
    }
  }

  lemma {:induction false} ZerosValue(n: nat)
    ensures AllDigits(Zeros(n)) && DigitsValue(Zeros(n)) == 0
  {
    if n > 0 {
      assert Zeros(n)[..n - 1] == Zeros(n - 1);
      ZerosValue(n - 1);
    }
  }

  /** Python's `str(n)` for `n >= 0`: decimal digits without leading zeros. */
  function NatToString(n: nat): (s: string)
    ensures |s| >= 1 && AllDigits(s)
    ensures |s| > 1 ==> s[0] != '0'
    decreases n
  {
    if n < 10 then [DigitChar(n)] else NatToString(n / 10) + [DigitChar(n % 10)]
  }

  /** `int(str(n)) == n`: the digits written by `NatToString` denote `n`. */
  lemma {:induction false} NatToStringValue(n: nat)
    ensures DigitsValue(NatToString(n)) == n
    decreases n
  {
    if n >= 10 {
      var s := NatToString(n);
      assert s[..|s| - 1] == NatToString(n / 10);
      NatToStringValue(n / 10);
    }
  }

  /** Python's `str(i)` for any integer. */
  function IntToString(i: int): (s: string)
    ensures |s| >= 1
  {
    if i < 0 then "-" + NatToString(-i) else NatToString(i)
  }

  /** Python's `s.zfill(width)`: zeros are inserted after a leading sign,
      or at the front, until the string is `width` long. */
  function ZFill(s: string, width: int): (r: string)
    ensures |r| == if |s| >= width then |s| else width
    ensures |s| >= width ==> r == s
  {
    if |s| >= width then s
    else
      var pad := Zeros(width - |s|);
      if s != [] && (s[0] == '+' || s[0] == '-') then [s[0]] + pad + s[1..] else pad + s
  }

  /** One optional leading sign, as Python's `int()` and `Decimal()` accept it:
      whether it is `-`, and what follows it. */
  function SplitSign(t: string): (bool, string) {
    if t != [] && (t[0] == '-' || t[0] == '+') then (t[0] == '-', t[1..]) else (false, t)
  }

  /** Python's `int(s)` on a string: surrounding whitespace, an optional sign
      and at least one ASCII digit; anything else raises `ValueError`, which is
      `None` here. */
  function ParseInt(s: string): (r: Option<int>)
  {
    IntOfToken(Strip(s))
  }

  /** `int()` of a string without surrounding whitespace. */
  function IntOfToken(t: string): (r: Option<int>)
  {
    var signed := SplitSign(t);
    var neg, body := signed.0, signed.1;
    if body != [] && AllDigits(body) then
      Some(if neg then -(DigitsValue(body) as int) else DigitsValue(body) as int)
    else None
  }

  /** `int()` of an optionally signed run of digits is the value of the digits. */
  lemma ParseIntSignedDigits(neg: bool, ds: string)
    requires ds != [] && AllDigits(ds)
    ensures ParseInt((if neg then "-" else "") + ds)
            == Some(if neg then -(DigitsValue(ds) as int) else DigitsValue(ds) as int)
  {
    var x := (if neg then "-" else "") + ds;
    if neg {
      assert x[1..] == ds;
      assert SplitSign(x) == (true, ds);
    } else {
      assert x == ds;
      assert SplitSign(x) == (false, ds);
    }
    StripUnchanged(x);
  }

  /** `zfill` puts its zeros between an optional `-` and the digits. */
  lemma ZFillSigned(neg: bool, digits: string, width: int)
    requires digits != [] && AllDigits(digits)
    ensures var s := (if neg then "-" else "") + digits;
            var pad := if |s| >= width then 0 else width - |s|;
            ZFill(s, width) == (if neg then "-" else "") + (Zeros(pad) + digits)
  {
    var sign := if neg then "-" else "";
    var s := sign + digits;
    var pad := if |s| >= width then 0 else width - |s|;
    if |s| >= width {
      assert Zeros(pad) + digits == digits;
    } else if neg {
      assert s[0] == '-' && s[1..] == digits;
    } else {
      assert s == digits;
      assert s[0] != '-' && s[0] != '+';
    }
  }

  /** `int(str(i).zfill(w)) == i` for every integer and every width. */
  lemma ParseIntZFill(i: int, width: int)
    ensures ParseInt(ZFill(IntToString(i), width)) == Some(i)
  {
    var m: nat := if i < 0 then -i else i;
    var sign := if i < 0 then "-" else "";
    var pad := if |sign + NatToString(m)| >= width then 0 else width - |sign + NatToString(m)|;
    ZFillInt(i, width);
    ParsePadded(ZFill(IntToString(i), width), i < 0, pad, m);
  }

  /** `int()` of a sign, zeros and the digits of `m` is the signed `m`. */
  lemma ParsePadded(x: string, neg: bool, pad: nat, m: nat)
    requires x == (if neg then "-" else "") + (Zeros(pad) + NatToString(m))
    ensures ParseInt(x) == Some(if neg then -(m as int) else m as int)
  {
    var padded := Zeros(pad) + NatToString(m);
    NatToStringValue(m);
    LeadingZeros(pad, NatToString(m));
    ParseIntSignedDigits(neg, padded);
  }

  /** `str(i).zfill(width)` is the sign of `i`, then zeros, then the digits of `|i|`. */
  lemma ZFillInt(i: int, width: int)
    ensures var m: nat := if i < 0 then -i else i;
            var sign := if i < 0 then "-" else "";
            var pad := if |sign + NatToString(m)| >= width then 0 else width - |sign + NatToString(m)|;
            ZFill(IntToString(i), width) == sign + (Zeros(pad) + NatToString(m))
  {
    var m: nat := if i < 0 then -i else i;
    NatToStringValue(m);
    assert IntToString(i) == (if i < 0 then "-" else "") + NatToString(m);
    ZFillSigned(i < 0, NatToString(m), width);
  }

  /** `int()` raises on a string that ends in a character which is neither a
      digit nor whitespace. */
  lemma ParseIntRejectsTrailing(s: string, c: char)
    requires !IsDigit(c) && !IsSpace(c)
    ensures ParseInt(s + [c]) == None
  {
    var x := s + [c];
    var t := Strip(x);
    StripRemovesSpaceOnly(x);
    var i :| StrippedAt(x, t, i);
    assert x[|x| - 1] == c;
    assert i + |t| == |x|;
    assert t != [] && t[|t| - 1] == c;
    var body := SplitSign(t).1;
    assert body == t || body == t[1..];
    if body != [] {
      assert body[|body| - 1] == c;
    }
  }

  /** Position of the first `c` in `s`, as `s.index(c)` with `None` for `ValueError`. */
  function IndexOf(s: string, c: char): (r: Option<nat>)
    ensures r.Some? ==> r.value < |s| && s[r.value] == c && c !in s[..r.value]
    ensures r.None? ==> c !in s
  {
    if s == [] then None
    else if s[0] == c then Some(0)
    else match IndexOf(s[1..], c)
      case None => None
      case Some(k) => assert s[..k + 1] == [s[0]] + s[1..][..k]; Some(k + 1)
  }

  /** An exact decimal as Python's `Decimal` holds it: a signed integer
      coefficient and the number of digits after the point (the negated
      exponent). `Decimal("1.50")` is `Decimal(150, 2)`. */
  datatype Decimal = Decimal(coefficient: int, places: nat)

  /** The number a `Decimal` denotes. */
  function DecimalValue(d: Decimal): (v: real)
    ensures d.coefficient > 0 <==> v > 0.0
    ensures d.coefficient == 0 <==> v == 0.0
  {
    d.coefficient as real / Pow10(d.places) as real
  }

  /** `Decimal(s)` restricted to plain positional notation: surrounding whitespace,
      an optional sign, digits with at most one `.`, and at least one digit.
      `None` stands for `InvalidOperation`. */
  function ParseDecimal(s: string): (r: Option<Decimal>)
  {
    DecimalOfToken(Strip(s))
  }

  /** `Decimal()` of a string without surrounding whitespace. */
  function DecimalOfToken(t: string): (r: Option<Decimal>)
  {
    var signed := SplitSign(t);
    var neg, body := signed.0, signed.1;
    var point := IndexOf(body, '.');
    var ip := if point.Some? then body[..point.value] else body;
    var fp := if point.Some? then body[point.value + 1..] else "";
    if AllDigits(ip) && AllDigits(fp) && |ip| + |fp| > 0 then
      Some(Decimal(Signed(neg, PointCoefficient(ip, fp)), |fp|))
    else None
  }

  /** The coefficient written as integer digits `ip`, a point and fraction
      digits `fp`: all the digits read as one integer. */
  function PointCoefficient(ip: string, fp: string): nat
    requires AllDigits(ip) && AllDigits(fp)
  {
    assert AllDigits(ip + fp) by {
      assert forall i :: 0 <= i < |ip + fp| ==> (ip + fp)[i] == if i < |ip| then ip[i] else fp[i - |ip|];
    }
    DigitsValue(ip + fp)
  }

  /** Appending digits `b` to `a` shifts the value of `a` by `|b|` places. */
  lemma {:induction false} DigitsValueConcat(a: string, b: string)
    requires AllDigits(a) && AllDigits(b) && AllDigits(a + b)
    ensures DigitsValue(a + b) == DigitsValue(a) * Pow10(|b|) + DigitsValue(b)
    decreases |b|
  {
    if b == [] {
      assert a + b == a;
    } else {
      var n := |b| - 1;
      var c := b[..n];
      assert (a + b)[..|a + b| - 1] == a + c;
      assert AllDigits(a + c);
      var va, vc, d, p := DigitsValue(a), DigitsValue(c), DigitValue(b[n]), Pow10(n);
      calc {
        DigitsValue(a + b);
        { assert (a + b)[|a + b| - 1] == b[n]; }
        10 * DigitsValue(a + c) + d;
        { DigitsValueConcat(a, c); }
        10 * (va * p + vc) + d;
        { TenTimes(va, p); }
        va * (10 * p) + (10 * vc + d);
        { assert b[..n] == c; }
        va * Pow10(|b|) + DigitsValue(b);
      }
    }
  }

  lemma TenTimes(x: int, y: int)
    ensures 10 * (x * y) == x * (10 * y)
  {
  }

  function Signed(neg: bool, m: nat): int {
    if neg then -(m as int) else m
  }

  /** Python's `str(d)` for a `Decimal` in positional notation: the sign, the
      integer digits, and, when there are places, a point followed by exactly
      that many digits. */
  function DecimalToString(d: Decimal): (s: string)
    ensures |s| >= 1
    ensures d.places > 0 <==> '.' in s
  {
    var m: nat := if d.coefficient < 0 then -d.coefficient else d.coefficient;
    var sign := if d.coefficient < 0 then "-" else "";
    var p := Pow10(d.places);
    DivMod(m, p);
    if d.places == 0 then
      assert '.' !in NatToString(m) by { IndexOfDigits(NatToString(m)); }
      sign + NatToString(m)
    else
      var s := sign + NatToString(m / p) + "." + ZFill(NatToString(m % p), d.places);
      assert s[|sign + NatToString(m / p)|] == '.';
      s
  }

  lemma DivMod(m: nat, p: nat)
    requires p > 0
    ensures 0 <= m / p && 0 <= m % p < p && m == (m / p) * p + m % p
  {
  }

  lemma NatToStringLength(n: nat, k: nat)
    requires n < Pow10(k)
    ensures |NatToString(n)| <= k || (k == 0 && n == 0)
    decreases n
  {
    if n >= 10 {
      assert k > 0;
      NatToStringLength(n / 10, k - 1);
    }
  }

  /** A token that neither starts nor ends with whitespace is parsed as it stands. */
  lemma ParseToken(x: string)
    requires x == [] || (!IsSpace(x[0]) && !IsSpace(x[|x| - 1]))
    ensures ParseDecimal(x) == DecimalOfToken(x)
    ensures ParseInt(x) == IntOfToken(x)
  {
    StripUnchanged(x);
  }

  lemma SplitSignOf(neg: bool, body: string)
    requires body == [] || (body[0] != '-' && body[0] != '+')
    ensures SplitSign((if neg then "-" else "") + body) == (neg, body)
  {
    var x := (if neg then "-" else "") + body;
    if neg { assert x[1..] == body; } else { assert x == body; }
  }

  lemma IndexOfPoint(ip: string, fp: string)
    requires AllDigits(ip)
    ensures IndexOf(ip + "." + fp, '.') == Some(|ip|)
    ensures (ip + "." + fp)[..|ip|] == ip && (ip + "." + fp)[|ip| + 1..] == fp
  {
    var body := ip + "." + fp;
    assert body[|ip|] == '.' && body[..|ip|] == ip;
    assert forall k :: 0 <= k < |ip| ==> body[k] == ip[k];
  }

  lemma IndexOfDigits(ds: string)
    requires AllDigits(ds)
    ensures IndexOf(ds, '.') == None
  {
    assert forall k :: 0 <= k < |ds| ==> ds[k] != '.';
  }

  lemma DecimalOfPoint(neg: bool, ip: string, fp: string)
    requires |ip| + |fp| > 0 && AllDigits(ip) && AllDigits(fp)
    ensures DecimalOfToken((if neg then "-" else "") + (ip + "." + fp))
            == Some(Decimal(Signed(neg, PointCoefficient(ip, fp)), |fp|))
  {
    assert (ip + "." + fp)[0] == if ip != [] then ip[0] else '.';
    SplitSignOf(neg, ip + "." + fp);
    IndexOfPoint(ip, fp);
  }

  /** `Decimal` of an optionally signed integer part, a point and a fraction
      part: the digits make the coefficient, the fraction's length the places. */
  lemma ParseDecimalPoint(neg: bool, ip: string, fp: string)
    requires |ip| + |fp| > 0 && AllDigits(ip) && AllDigits(fp)
    ensures ParseDecimal((if neg then "-" else "") + (ip + "." + fp))
            == Some(Decimal(Signed(neg, PointCoefficient(ip, fp)), |fp|))
  {
    PointEnds(neg, ip, fp);
    DecimalOfPoint(neg, ip, fp);
    ParseToken((if neg then "-" else "") + (ip + "." + fp));
  }

  /** A signed point literal has no whitespace at either end. */
  lemma PointEnds(neg: bool, ip: string, fp: string)
    requires |ip| + |fp| > 0 && AllDigits(ip) && AllDigits(fp)
    ensures var x := (if neg then "-" else "") + (ip + "." + fp);
            x != [] && !IsSpace(x[0]) && !IsSpace(x[|x| - 1])
  {
    var sign, body := (if neg then "-" else ""), ip + "." + fp;
    assert (sign + body)[0] == (if neg then '-' else body[0]);
    assert (sign + body)[|sign + body| - 1] == body[|body| - 1];
    assert body[0] == if ip != [] then ip[0] else '.';
    if fp == [] {
      assert body[|body| - 1] == '.';
    } else {
      assert body[|body| - 1] == fp[|fp| - 1];
    }
  }

  lemma DecimalOfDigits(neg: bool, ds: string)
    requires ds != [] && AllDigits(ds)
    ensures DecimalOfToken((if neg then "-" else "") + ds) == Some(Decimal(Signed(neg, DigitsValue(ds)), 0))
  {
    SplitSignOf(neg, ds);
    IndexOfDigits(ds);
    assert AllDigits("");
    assert PointCoefficient(ds, "") == DigitsValue(ds) by {
      assert ds + "" == ds;
    }
  }

  /** `Decimal` of an optionally signed run of digits is that integer, with no places. */
  lemma ParseDecimalDigits(neg: bool, ds: string)
    requires ds != [] && AllDigits(ds)
    ensures ParseDecimal((if neg then "-" else "") + ds) == Some(Decimal(Signed(neg, DigitsValue(ds)), 0))
  {
    DecimalOfDigits(neg, ds);
    ParseToken((if neg then "-" else "") + ds);
  }

  /** The remainder part of `DecimalToString`: exactly `k` digits denoting `r`. */
  lemma PaddedRemainder(r: nat, k: nat)
    requires 0 < k && r < Pow10(k)
    ensures var fp := ZFill(NatToString(r), k);
            AllDigits(fp) && |fp| == k && DigitsValue(fp) == r
  {
    var ds := NatToString(r);
    NatToStringLength(r, k);
    NatToStringValue(r);
    if |ds| < k {
      assert ZFill(ds, k) == Zeros(k - |ds|) + ds by {
        assert ds[0] != '-' && ds[0] != '+';
      }
      LeadingZeros(k - |ds|, ds);
    }
  }

  /** Round trip: `Decimal(str(d)) == d`, coefficient and exponent alike, for
      every decimal in positional notation. */
  lemma DecimalStringRoundTrip(d: Decimal)
    ensures ParseDecimal(DecimalToString(d)) == Some(d)
  {
    if d.places == 0 {
      DecimalStringInteger(d.coefficient);
    } else {
      DecimalStringFraction(d);
    }
  }

  lemma DecimalStringInteger(n: int)
    ensures ParseDecimal(DecimalToString(Decimal(n, 0))) == Some(Decimal(n, 0))
  {
    var m: nat := if n < 0 then -n else n;
    var ds := NatToString(m);
    assert DecimalToString(Decimal(n, 0)) == (if n < 0 then "-" else "") + ds by {
      IntegerString(n);
    }
    assert DigitsValue(ds) == m by {
      NatToStringValue(m);
    }
    assert ParseDecimal((if n < 0 then "-" else "") + ds) == Some(Decimal(Signed(n < 0, m), 0)) by {
      ParseDecimalDigits(n < 0, ds);
    }
  }

  lemma IntegerString(n: int)
    ensures DecimalToString(Decimal(n, 0)) == (if n < 0 then "-" else "") + NatToString(if n < 0 then -n else n)
  {
  }

  /** `str(d)` with places: the sign, the integer digits, a point and the
      remainder zero-filled to the number of places. */
  lemma PointString(d: Decimal, m: nat, q: nat, r: nat)
    requires d.places > 0 && m == (if d.coefficient < 0 then -d.coefficient else d.coefficient)
    requires q == m / Pow10(d.places) && r == m % Pow10(d.places)
    ensures DecimalToString(d)
            == (if d.coefficient < 0 then "-" else "") + (NatToString(q) + "." + ZFill(NatToString(r), d.places))
  {
  }

  lemma DecimalStringFraction(d: Decimal)
    requires d.places > 0
    ensures ParseDecimal(DecimalToString(d)) == Some(d)
  {
    var n, k := d.coefficient, d.places;
    var m: nat := if n < 0 then -n else n;
    var p := Pow10(k);
    DivMod(m, p);
    var ip := NatToString(m / p);
    var fp := ZFill(NatToString(m % p), k);
    var x := (if n < 0 then "-" else "") + (ip + "." + fp);
    assert DecimalToString(d) == x by {
      PointString(d, m, m / p, m % p);
    }
    assert AllDigits(fp) && |fp| == k && DigitsValue(fp) == m % p by {
      PaddedRemainder(m % p, k);
    }
    assert DigitsValue(ip) == m / p by {
      NatToStringValue(m / p);
    }
    assert PointCoefficient(ip, fp) == m by {
      DigitsValueConcat(ip, fp);
    }
    ParseDecimalPoint(n < 0, ip, fp);
    assert Signed(n < 0, m) == n;
  }

  /** A character that may appear in a string `Decimal` accepts. */
  predicate DecimalChar(c: char) {
    IsSpace(c) || IsDigit(c) || c == '.' || c == '+' || c == '-'
  }

  /** `Decimal` rejects every string holding a character outside whitespace,
      digits, `.`, `+` and `-`: letters (so exponents, `NaN`, `Infinity`) and
      the protocol's `,` separator among them. */
  lemma ParseDecimalCharset(s: string)
    requires ParseDecimal(s).Some?
    ensures forall i :: 0 <= i < |s| ==> DecimalChar(s[i])
  {
    var t := Strip(s);
    StripRemovesSpaceOnly(s);
    var j :| StrippedAt(s, t, j);
    TokenCharset(t);
    forall i | 0 <= i < |s|
      ensures DecimalChar(s[i])
    {
      if j <= i < j + |t| {
        assert s[i] == t[i - j];
      }
    }
  }

  lemma TokenCharset(t: string)
    requires DecimalOfToken(t).Some?
    ensures forall i :: 0 <= i < |t| ==> DecimalChar(t[i])
  {
    var body := SplitSign(t).1;
    BodyCharset(body);
    forall i | 0 <= i < |t|
      ensures DecimalChar(t[i])
    {
      if t[0] == '-' || t[0] == '+' {
        if i > 0 { assert t[i] == body[i - 1]; }
      } else {
        assert t[i] == body[i];
      }
    }
  }

  lemma BodyCharset(body: string)
    requires var point := IndexOf(body, '.');
             var ip := if point.Some? then body[..point.value] else body;
             var fp := if point.Some? then body[point.value + 1..] else "";
             AllDigits(ip) && AllDigits(fp)
    ensures forall i :: 0 <= i < |body| ==> IsDigit(body[i]) || body[i] == '.'
  {
    var point := IndexOf(body, '.');
    if point.Some? {
      var p := point.value;
      var ip, fp := body[..p], body[p + 1..];
      forall i | 0 <= i < |body|
        ensures IsDigit(body[i]) || body[i] == '.'
      {
        if i < p {
          assert body[i] == ip[i];
        } else if i > p {
          assert body[i] == fp[i - p - 1];
        }
      }
    }
  }

  /** `10^k` for any integer `k`, as an exact real. */
  function Pow10R(k: int): (p: real)
    ensures p > 0.0
  {
    if k >= 0 then Pow10(k) as real else 1.0 / (Pow10(-k) as real)
  }

  lemma Pow10RStep(k: int)
    ensures Pow10R(k + 1) == 10.0 * Pow10R(k)
  {
    if k < 0 {
      assert Pow10(-k) == 10 * Pow10(-k - 1);
    }
  }

  lemma {:induction false} Pow10RMonotone(j: int, k: int)
    requires j <= k
    ensures Pow10R(j) <= Pow10R(k)
    decreases k - j
  {
    if j < k {
      Pow10RMonotone(j, k - 1);
      Pow10RStep(k - 1);
    }
  }

  /** The integer nearest to `x`; a tie goes to the even neighbour. */
  function RoundHalfEven(x: real): (n: int)
    ensures (n as real) - 0.5 <= x <= (n as real) + 0.5
    ensures (x == (n as real) - 0.5 || x == (n as real) + 0.5) ==> n % 2 == 0
  {
    var f := x.Floor;
    var d := x - f as real;
    if d < 0.5 then f else if d > 0.5 then f + 1 else if f % 2 == 0 then f else f + 1
  }

  /** Python's `round(x, d)` on an exact decimal: the multiple of `10^-d`
      nearest to `x`, ties to even; `d` may be negative. */
  function RoundTo(x: real, d: int): real
  {
    RoundHalfEven(x * Pow10R(d)) as real / Pow10R(d)
  }

  /** `round(x, d)` is within half a unit of the `d`-th decimal place of `x`. */
  lemma RoundToNear(x: real, d: int)
    ensures var p, r := Pow10R(d), RoundTo(x, d);
      r - 0.5 / p <= x <= r + 0.5 / p
  {
    ScaleBack(RoundHalfEven(x * Pow10R(d)) as real, x, Pow10R(d));
  }

  /** Dividing `n - 1/2 <= x * p <= n + 1/2` by a positive `p`. */
  lemma ScaleBack(n: real, x: real, p: real)
    requires p > 0.0 && n - 0.5 <= x * p <= n + 0.5
    ensures n / p - 0.5 / p <= x <= n / p + 0.5 / p
  {
    var lo, hi := n / p - 0.5 / p, n / p + 0.5 / p;
    assert lo * p == n - 0.5;
    assert hi * p == n + 0.5;
  }

  /** `floor(log10(y))` computed exactly: the power of ten at or below `y`. */
  function FloorLog10(y: real): (k: int)
    requires y > 0.0
    ensures Pow10R(k) <= y < Pow10R(k + 1)
    decreases if y >= 10.0 then y.Floor else if y < 1.0 then (1.0 / y).Floor else 0
  {
    if y >= 10.0 then
      assert y / 10.0 >= 10.0 ==> (y / 10.0).Floor < y.Floor;
      var k := FloorLog10(y / 10.0);
      Pow10RStep(k);
      Pow10RStep(k + 1);
      k + 1
    else if y < 1.0 then
      assert 10.0 * y < 1.0 ==> (1.0 / (10.0 * y)).Floor < (1.0 / y).Floor by {
        if 10.0 * y < 1.0 {
          assert 1.0 / (10.0 * y) == (1.0 / y) / 10.0;
          assert 1.0 / y > 10.0;
        }
      }
      var k := FloorLog10(10.0 * y);
      Pow10RStep(k - 1);
      Pow10RStep(k);
      k - 1
    else
      assert Pow10R(1) == 10.0;
      0
  }

  /** `FloorLog10` is the only exponent that brackets `y`. */
  lemma FloorLog10Unique(y: real, k: int)
    requires y > 0.0 && Pow10R(k) <= y < Pow10R(k + 1)
    ensures FloorLog10(y) == k
  {
    var j := FloorLog10(y);
    if j < k {
      Pow10RMonotone(j + 1, k);
    } else if j > k {
      Pow10RMonotone(k + 1, j);
    }
  }
}
