/** The size check of LimitedXMLRPCRequestHandler.do_POST (server.py): Python's int() on a header value,
    and which requests are forwarded to the stock handler. */
module ContentLength {
  import opened Common
  import opened Octets

  // ----- int() -----

  /** White space that int() strips from ASCII text. */
  predicate IsBlank(b: byte) { b == SP || 9 <= b <= 13 }

  function Strip(s: Bytes): Bytes {
    if s == [] then s
    else if IsBlank(s[0]) then Strip(s[1..])
    else if IsBlank(s[|s| - 1]) then Strip(s[..|s| - 1])
    else s
  }

  /** Digits with single underscores between them. */
  predicate IsNumeral(s: Bytes) {
    && s != []
    && (forall i :: 0 <= i < |s| ==> IsDigit(s[i]) || s[i] == UNDERSCORE)
    && s[0] != UNDERSCORE && s[|s| - 1] != UNDERSCORE
    && (forall i :: 0 <= i < |s| - 1 ==> s[i] != UNDERSCORE || s[i + 1] != UNDERSCORE)
  }

  function DigitsOf(s: Bytes): (d: Bytes)
    requires forall i :: 0 <= i < |s| ==> IsDigit(s[i]) || s[i] == UNDERSCORE
    ensures AllDigits(d) && |d| <= |s|
    ensures AllDigits(s) ==> d == s
  {
    if s == [] then []
    else
      var n := |s| - 1;
      assert forall i :: 0 <= i < n ==> s[..n][i] == s[i];
      if s[n] == UNDERSCORE then DigitsOf(s[..n]) else DigitsOf(s[..n]) + [s[n]]
  }

  /** int(s) for ASCII text; None is ValueError. The interpreter refuses more than `maxDigits` digits,
      0 meaning no limit. */
  function PyInt(s: Bytes, maxDigits: nat): Option<int> {
    var t := Strip(s);
    var signed := t != [] && (t[0] == PLUS || t[0] == MINUS);
    var u := if signed then t[1..] else t;
    if !IsNumeral(u) then None
    else
      var d := DigitsOf(u);
      if maxDigits > 0 && |d| > maxDigits then None
      else
        var v: int := Value(d);
        Some(if signed && t[0] == MINUS then -v else v)
  }

  // ----- do_POST -----

  /** The two header values that do_POST looks at. */
  datatype Headers = Headers(transferEncoding: Option<Bytes>, contentLength: Option<Bytes>)

  datatype Decision = Refuse(status: nat) | Forward

  predicate Chunked(h: Headers) {
    h.transferEncoding.Some? && Lower(h.transferEncoding.value) == Ascii("chunked")
  }

  function DoPost(h: Headers, maxRequestSize: nat, maxDigits: nat): Decision {
    if Chunked(h) then Refuse(501)
    else if h.contentLength.None? then Refuse(411)
    else
      var size := PyInt(h.contentLength.value, maxDigits);
      if size.None? || size.value < 0 then Refuse(400)
      else if size.value > maxRequestSize then Refuse(413)
      else Forward
  }

  lemma StripDigits(s: Bytes)
    requires AllDigits(s)
    ensures Strip(s) == s
  {
  }

  /** On every value that section 8.6 of RFC 9110 allows, int() reads the decimal number; it refuses
      exactly those longer than the interpreter's digit limit, leading zeros included. */
  lemma PyIntReadsLengths(s: Bytes, maxDigits: nat)
    requires IsLength(s)
    ensures PyInt(s, maxDigits) == if maxDigits > 0 && |s| > maxDigits then None else Some(Value(s))
  {
    hide Strip, DigitsOf, Value;
    StripDigits(s);
  }

  /** do_POST on a request with a valid Content-Length: forwarded iff its number fits the limit (and
      int() reads it at all), else answered with 413 or, for a number too long for int(), 400. */
  lemma ValidLengthsDecided(h: Headers, maxRequestSize: nat, maxDigits: nat)
    requires !Chunked(h) && h.contentLength.Some? && IsLength(h.contentLength.value)
    ensures var n := Value(h.contentLength.value);
            var tooLong := maxDigits > 0 && |h.contentLength.value| > maxDigits;
            && (DoPost(h, maxRequestSize, maxDigits) == Forward <==> !tooLong && n <= maxRequestSize)
            && (DoPost(h, maxRequestSize, maxDigits) == Refuse(413) <==> !tooLong && n > maxRequestSize)
            && (DoPost(h, maxRequestSize, maxDigits) == Refuse(400) <==> tooLong)
  {
    PyIntReadsLengths(h.contentLength.value, maxDigits);
  }

  /** The length that a truthful client prints is read back, whatever the size of its body. */
  lemma PrintedLengthRead(n: nat, maxDigits: nat)
    ensures PyInt(Decimal(n), maxDigits)
            == if maxDigits > 0 && |Decimal(n)| > maxDigits then None else Some(n)
  {
    PyIntReadsLengths(Decimal(n), maxDigits);
    DecimalRoundTrip(n);
  }

  predicate AllBlank(s: Bytes) { forall i :: 0 <= i < |s| ==> IsBlank(s[i]) }

  lemma {:induction false} StripPadded(a: Bytes, s: Bytes, b: Bytes)
    requires AllBlank(a) && AllBlank(b)
    requires s == [] || (!IsBlank(s[0]) && !IsBlank(s[|s| - 1]))
    ensures Strip(a + s + b) == s
    decreases |a| + |b|
  {
    var t := a + s + b;
    if a != [] {
      assert t[0] == a[0] && t[1..] == a[1..] + s + b;
      StripPadded(a[1..], s, b);
    } else if b != [] {
      if s == [] {
        assert t == b && t[1..] == [] + s + b[1..];
        StripPadded([], s, b[1..]);
      } else {
        assert t[0] == s[0] && t[|t| - 1] == b[|b| - 1];
        assert t[..|t| - 1] == [] + s + b[..|b| - 1];
        StripPadded([], s, b[..|b| - 1]);
      }
    } else {
      assert t == s;
    }
  }

  /** What else int() reads: white space around a number never matters, a sign in front of a valid
      length is obeyed, and white space alone is refused. */
  lemma PaddedAndSigned(a: Bytes, s: Bytes, b: Bytes, maxDigits: nat)
    requires AllBlank(a) && AllBlank(b) && IsLength(s)
    ensures var n := PyInt(s, maxDigits);
            && PyInt(a + s + b, maxDigits) == n
            && PyInt(a + ([PLUS] + s) + b, maxDigits) == n
            && PyInt(a + ([MINUS] + s) + b, maxDigits) == (if n.None? then None else Some(-n.value))
    ensures PyInt(a + [] + b, maxDigits) == None
  {
    hide Strip, DigitsOf, Value;
    StripDigits(s);
    StripPadded(a, s, b);
    StripPadded(a, [PLUS] + s, b);
    StripPadded(a, [MINUS] + s, b);
    StripPadded(a, [], b);
    assert ([PLUS] + s)[1..] == s && ([MINUS] + s)[1..] == s;
  }

  /** So a padded or positively signed length is decided like the bare one, and a negative number is
      refused as malformed. */
  lemma PaddedLengthsDecided(h: Headers, a: Bytes, s: Bytes, b: Bytes, maxRequestSize: nat, maxDigits: nat)
    requires AllBlank(a) && AllBlank(b) && IsLength(s)
    ensures var bare := DoPost(h.(contentLength := Some(s)), maxRequestSize, maxDigits);
            && DoPost(h.(contentLength := Some(a + s + b)), maxRequestSize, maxDigits) == bare
            && DoPost(h.(contentLength := Some(a + ([PLUS] + s) + b)), maxRequestSize, maxDigits) == bare
            && (!Chunked(h) && Value(s) > 0 ==>
                  DoPost(h.(contentLength := Some(a + ([MINUS] + s) + b)), maxRequestSize, maxDigits) == Refuse(400))
  {
    hide PyInt, Value;
    PaddedAndSigned(a, s, b, maxDigits);
    PyIntReadsLengths(s, maxDigits);
  }

  lemma BlankInFront(x: byte, a: Bytes, s: Bytes, b: Bytes)
    requires IsBlank(x) && AllBlank(a)
    ensures AllBlank([x] + a) && [x] + (a + s + b) == ([x] + a) + s + b
  {
  }

  lemma BlankBehind(a: Bytes, s: Bytes, b: Bytes, x: byte)
    requires IsBlank(x) && AllBlank(b)
    ensures AllBlank(b + [x]) && (a + s + b) + [x] == a + s + (b + [x])
  {
  }

  /** Strip cuts off blanks, and all of them. */
  lemma {:induction false} StripSplits(s: Bytes) returns (a: Bytes, b: Bytes)
    ensures AllBlank(a) && AllBlank(b) && s == a + Strip(s) + b
    ensures Strip(s) == [] || (!IsBlank(Strip(s)[0]) && !IsBlank(Strip(s)[|Strip(s)| - 1]))
  {
    hide IsBlank;
    var n := |s| - 1;
    if s != [] && IsBlank(s[0]) {
      a, b := StripSplits(s[1..]);
      BlankInFront(s[0], a, Strip(s), b);
      assert s == [s[0]] + s[1..];
      a := [s[0]] + a;
    } else if s != [] && IsBlank(s[n]) {
      a, b := StripSplits(s[..n]);
      BlankBehind(a, Strip(s), b, s[n]);
      assert s == s[..n] + [s[n]];
      b := b + [s[n]];
    } else {
      a, b := [], [];
      assert s == [] + s + [];
    }
  }

  /** The texts that int() is documented to read: white space, a sign or none, digits with single
      underscores between them, white space. */
  ghost predicate Spells(v: Bytes, a: Bytes, sign: Bytes, s: Bytes, b: Bytes) {
    && v == a + (sign + s) + b
    && AllBlank(a) && AllBlank(b) && IsNumeral(s)
    && (sign == [] || sign == [PLUS] || sign == [MINUS])
  }

  function Signed(sign: Bytes, n: int): int { if sign == [MINUS] then -n else n }

  /** Some spelling of n, with no more digits than the interpreter accepts. */
  ghost predicate Denotes(v: Bytes, maxDigits: nat, n: int) {
    exists a, sign, s, b ::
      && Spells(v, a, sign, s, b)
      && (maxDigits == 0 || |DigitsOf(s)| <= maxDigits)
      && n == Signed(sign, Value(DigitsOf(s)))
  }

  lemma SpellsReads(v: Bytes, a: Bytes, sign: Bytes, s: Bytes, b: Bytes, maxDigits: nat)
    requires Spells(v, a, sign, s, b)
    ensures PyInt(v, maxDigits) == if maxDigits > 0 && |DigitsOf(s)| > maxDigits then None
                                   else Some(Signed(sign, Value(DigitsOf(s))))
  {
    hide Strip, DigitsOf, Value;
    StripPadded(a, sign + s, b);
    assert (sign + s)[|sign|..] == s;
    assert sign == [] ==> sign + s == s;
  }

  /** int() reads exactly the spellings of numbers, and reads them as what they spell. */
  lemma PyIntExact(v: Bytes, maxDigits: nat, n: int)
    ensures PyInt(v, maxDigits) == Some(n) <==> Denotes(v, maxDigits, n)
  {
    hide Strip, DigitsOf, Value;
    if PyInt(v, maxDigits) == Some(n) {
      var a, b := StripSplits(v);
      var t := Strip(v);
      var sign := if t != [] && (t[0] == PLUS || t[0] == MINUS) then [t[0]] else [];
      var s := t[|sign|..];
      assert t == sign + s;
      assert Spells(v, a, sign, s, b);
    }
    if Denotes(v, maxDigits, n) {
      var a, sign, s, b :| Spells(v, a, sign, s, b) && (maxDigits == 0 || |DigitsOf(s)| <= maxDigits)
                           && n == Signed(sign, Value(DigitsOf(s)));
      SpellsReads(v, a, sign, s, b, maxDigits);
    }
  }

  /** Which single bytes int() allows in front of a length: white space, a sign, a digit, nothing else. */
  lemma FirstByteExact(x: byte, s: Bytes)
    requires IsLength(s)
    ensures PyInt([x] + s, 0).Some? <==> 9 <= x <= 13 || x == 32 || x == 43 || x == 45 || 48 <= x <= 57
  {
    hide Strip, DigitsOf, Value;
    StripDigits(s);
    if IsBlank(x) {
      StripPadded([x], s, []);
      assert [x] + s + [] == [x] + s;
    } else {
      StripPadded([], [x] + s, []);
      assert [] + ([x] + s) + [] == [x] + s;
      assert ([x] + s)[1..] == s;
      assert ([x] + s)[0] == x;
    }
    if IsNumeral([x] + s) { assert IsDigit(([x] + s)[0]) || x == UNDERSCORE; }
    if IsDigit(x) { assert AllDigits([x] + s); }
  }

  /** Numerals are runs of digits with one underscore between them, and nothing else. */
  lemma NumeralExact(s: Bytes)
    ensures IsNumeral(s) <==>
              || (s != [] && forall i :: 0 <= i < |s| ==> 48 <= s[i] <= 57)
              || exists k :: && 0 < k < |s| - 1 && s[k] == 95 && IsNumeral(s[k + 1..])
                             && forall i :: 0 <= i < k ==> 48 <= s[i] <= 57
  {
    if IsNumeral(s) && exists i :: 0 <= i < |s| && s[i] == UNDERSCORE {
      var k := FirstUnderscore(s);
      assert s[k + 1] != UNDERSCORE;
      assert IsNumeral(s[k + 1..]);
    }
    if k :| && 0 < k < |s| - 1 && s[k] == 95 && IsNumeral(s[k + 1..])
            && forall i :: 0 <= i < k ==> 48 <= s[i] <= 57 {
      var t := s[k + 1..];
      assert forall i :: k < i < |s| ==> s[i] == t[i - k - 1];
      assert IsNumeral(s);
    }
  }

  lemma FirstUnderscore(s: Bytes) returns (k: nat)
    requires exists i :: 0 <= i < |s| && s[i] == UNDERSCORE
    ensures k < |s| && s[k] == UNDERSCORE && forall i :: 0 <= i < k ==> s[i] != UNDERSCORE
  {
    k := 0;
    while s[k] != UNDERSCORE
      invariant k < |s| && forall i :: 0 <= i < k ==> s[i] != UNDERSCORE
      decreases |s| - k
    {
      k := k + 1;
    }
  }

  /** The transfer coding is compared without regard to case. */
  lemma ChunkedExact(h: Headers)
    ensures Chunked(h) <==>
              && h.transferEncoding.Some? && |h.transferEncoding.value| == 7
              && forall i :: 0 <= i < 7 ==>
                   || h.transferEncoding.value[i] == Ascii("chunked")[i]
                   || h.transferEncoding.value[i] == Ascii("CHUNKED")[i]
  {
    if h.transferEncoding.Some? && |h.transferEncoding.value| == 7 {
      var v := h.transferEncoding.value;
      forall i | 0 <= i < 7
        ensures Lower(v)[i] == Ascii("chunked")[i] <==> v[i] == Ascii("chunked")[i] || v[i] == Ascii("CHUNKED")[i]
      {
        assert Ascii("CHUNKED")[i] as int + 32 == Ascii("chunked")[i] as int;
        assert 97 <= Ascii("chunked")[i] <= 122;
      }
    }
  }

  /** What do_POST decides, on every pair of headers, in terms of the number that the header spells. */
  lemma DecisionsExact(h: Headers, maxRequestSize: nat, maxDigits: nat)
    ensures var d := DoPost(h, maxRequestSize, maxDigits);
            && (d == Refuse(501) <==> Chunked(h))
            && (d == Refuse(411) <==> !Chunked(h) && h.contentLength.None?)
            && (!Chunked(h) && h.contentLength.Some? ==>
                  var v := h.contentLength.value;
                  && (d == Forward <==> exists n :: Denotes(v, maxDigits, n) && 0 <= n <= maxRequestSize)
                  && (d == Refuse(413) <==> exists n :: Denotes(v, maxDigits, n) && n > maxRequestSize)
                  && (d == Refuse(400) <==> forall n :: Denotes(v, maxDigits, n) ==> n < 0))
  {
    hide PyInt, Denotes;
    if h.contentLength.Some? {
      forall n ensures PyInt(h.contentLength.value, maxDigits) == Some(n)
                       <==> Denotes(h.contentLength.value, maxDigits, n)
      {
        PyIntExact(h.contentLength.value, maxDigits, n);
      }
    }
  }

  predicate Plain(v: Bytes) {
    forall i :: 0 <= i < |v| ==> !IsBlank(v[i]) && v[i] != PLUS && v[i] != MINUS && v[i] != UNDERSCORE
  }

  lemma PlainStrips(v: Bytes)
    requires Plain(v)
    ensures Strip(v) == v
  {
  }

  /** Exactly when a forwarded value is a length under RFC 9110: iff it has no blank, sign or underscore. */
  lemma ForwardedIsLengthIffPlain(h: Headers, maxRequestSize: nat, maxDigits: nat)
    requires DoPost(h, maxRequestSize, maxDigits) == Forward
    ensures IsLength(h.contentLength.value) <==> Plain(h.contentLength.value)
  {
    hide Strip, DigitsOf, Value;
    var v := h.contentLength.value;
    if Plain(v) {
      PlainStrips(v);
      forall i | 0 <= i < |v| ensures IsDigit(v[i]) { }
    }
  }

  lemma DigitsSnoc(s: Bytes, b: byte)
    requires forall i :: 0 <= i < |s| ==> IsDigit(s[i]) || s[i] == UNDERSCORE
    requires IsDigit(b) || b == UNDERSCORE
    ensures DigitsOf(s + [b]) == if b == UNDERSCORE then DigitsOf(s) else DigitsOf(s) + [b]
  {
    assert (s + [b])[..|s|] == s;
  }

  lemma ValueSnoc(s: Bytes, b: byte)
    requires AllDigits(s) && IsDigit(b)
    ensures Value(s + [b]) == 10 * Value(s) + (b - 48) as nat
  {
    assert (s + [b])[..|s|] == s;
  }

  lemma DigitsOfSeparated(s: Bytes)
    requires s == [49, UNDERSCORE, 48]
    ensures DigitsOf(s) == [49, 48] && Value([49, 48]) == 10
  {
    hide DigitsOf, Value;
    DigitsSnoc([], 49);
    DigitsSnoc([49], UNDERSCORE);
    DigitsSnoc([49, UNDERSCORE], 48);
    assert [] + [49] == [49] && [49] + [UNDERSCORE] == [49, UNDERSCORE];
    assert [49, UNDERSCORE] + [48] == s && [49] + [48] == [49, 48];
    assert DigitsOf([]) == [];
    ValueSnoc([], 49);
    ValueSnoc([49], 48);
    assert Value([]) == 0 by { NoValue(); }
  }

  lemma NoValue()
    ensures Value([]) == 0
  {
  }

  /** "1_0" is no length under RFC 9110, but int() reads it as 10. */
  lemma SeparatedTen(maxDigits: nat) returns (s: Bytes)
    requires maxDigits == 0 || maxDigits >= 2
    ensures !IsLength(s) && PyInt(s, maxDigits) == Some(10)
  {
    hide DigitsOf, Value;
    s := [49, UNDERSCORE, 48];
    assert IsNumeral(s) && Strip(s) == s;
    DigitsOfSeparated(s);
  }

  /** So there are forwarded values that are no lengths. */
  lemma OtherLengthsForwarded(maxRequestSize: nat, maxDigits: nat) returns (h: Headers)
    requires maxRequestSize >= 10 && (maxDigits == 0 || maxDigits >= 2)
    ensures h.contentLength.Some? && !IsLength(h.contentLength.value)
    ensures DoPost(h, maxRequestSize, maxDigits) == Forward
  {
    var s := SeparatedTen(maxDigits);
    h := Headers(None, Some(s));
  }
}
