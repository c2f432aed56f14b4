/**
 The text side of routing: paths as segments and parameter values as segments.
 */
module RouteText {
  import opened Prelude

  // ---- paths ----

  function CharBytes(c: char): nat {
    if c as int < 0x80 then 1 else if c as int < 0x800 then 2 else if c as int < 0x10000 then 3 else 4
  }

  /** The UTF-8 length, which is what the limit counts. */
  function Bytes(s: string): nat {
    if s == "" then 0 else CharBytes(s[0]) + Bytes(s[1..])
  }

  lemma {:induction false} BytesAppend(a: string, b: string)
    ensures Bytes(a + b) == Bytes(a) + Bytes(b)
  {
    if a == "" {
      assert a + b == b;
    } else {
      assert (a + b)[1..] == a[1..] + b;
      BytesAppend(a[1..], b);
    }
  }

  lemma {:induction false} AsciiBytes(s: string)
    requires forall k :: 0 <= k < |s| ==> s[k] as int < 0x80
    ensures Bytes(s) == |s|
  {
    if s != "" { AsciiBytes(s[1..]); }
  }

  predicate IsControl(c: char) { c as int <= 0x1F || 0x7F <= c as int <= 0x9F }

  predicate PlainChar(c: char) { !IsControl(c) && c != '\\' }

  predicate Plain(s: string) { forall c :: c in s ==> PlainChar(c) }

  predicate ValidSegment(s: string) {
    s != "" && s != "." && s != ".." && '/' !in s && Plain(s)
  }

  /** The characters and segments a path may be made of, one by one. */
  lemma SegmentRules(s: string)
    ensures ValidSegment(s) <==>
      && s != "" && s != "." && s != ".."
      && forall c :: c in s ==> c != '/' && c != '\\' && 0x20 <= c as int && !(0x7F <= c as int < 0xA0)
  {
  }

  lemma Utf8Lengths(c: char)
    ensures CharBytes(c) == 1 <==> c as int <= 0x7F
    ensures CharBytes(c) == 2 <==> 0x7F < c as int <= 0x7FF
    ensures CharBytes(c) == 3 <==> 0x7FF < c as int <= 0xFFFF
    ensures CharBytes(c) == 4 <==> 0xFFFF < c as int
  {
  }

  /** The pieces between separators; there is always at least one. */
  function Split(s: string): (r: seq<string>)
    ensures |r| >= 1
  {
    if s == "" then [""]
    else
      var rest := Split(s[1..]);
      if s[0] == '/' then [""] + rest else [[s[0]] + rest[0]] + rest[1..]
  }

  /** Every segment behind a separator. */
  function Join(segments: seq<string>): string {
    if segments == [] then "" else "/" + segments[0] + Join(segments[1..])
  }

  lemma JoinBytes(segments: seq<string>)
    ensures Bytes(Join(segments)) == if segments == [] then 0 else 1 + Bytes(segments[0]) + Bytes(Join(segments[1..]))
  {
    if segments != [] {
      BytesAppend("/" + segments[0], Join(segments[1..]));
      BytesAppend("/", segments[0]);
      AsciiBytes("/");
    }
  }

  /** A join without its first separator. */
  function Body(segments: seq<string>): string
    requires segments != []
  {
    segments[0] + Join(segments[1..])
  }

  lemma {:induction false} BodyOfSplit(s: string)
    ensures Body(Split(s)) == s
  {
    if s != "" {
      var rest := Split(s[1..]);
      BodyOfSplit(s[1..]);
      if s[0] == '/' {
        assert ([""] + rest)[1..] == rest;
        assert Body([""] + rest) == Join(rest) == "/" + Body(rest);
      }
      assert s == [s[0]] + s[1..];
    }
  }

  lemma JoinSplit(s: string)
    ensures Join(Split(s)) == "/" + s
  {
    BodyOfSplit(s);
    var segments := Split(s);
    assert "/" + segments[0] + Join(segments[1..]) == "/" + (segments[0] + Join(segments[1..]));
  }

  lemma {:induction false} SplitPlain(s: string, tail: string)
    requires '/' !in s && (tail == "" || tail[0] == '/')
    ensures Split(s + tail) == [s] + (if tail == "" then [] else Split(tail[1..]))
  {
    if s == "" {
      assert s + tail == tail;
      if tail != "" { assert Split(tail) == [""] + Split(tail[1..]); }
    } else {
      assert (s + tail)[1..] == s[1..] + tail;
      SplitPlain(s[1..], tail);
      var rest := Split(s[1..] + tail);
      assert s == [s[0]] + s[1..];
      assert rest[1..] == if tail == "" then [] else Split(tail[1..]);
    }
  }

  lemma {:induction false} SplitJoin(segments: seq<string>)
    requires segments != [] && forall k :: 0 <= k < |segments| ==> '/' !in segments[k]
    ensures Split(Join(segments)[1..]) == segments
  {
    var tail := Join(segments[1..]);
    assert Join(segments)[1..] == segments[0] + tail;
    SplitPlain(segments[0], tail);
    if |segments| > 1 {
      SplitJoin(segments[1..]);
      assert segments == [segments[0]] + segments[1..];
    } else {
      assert segments == [segments[0]];
    }
  }

  const MAX_PATH: nat := 4096

  /** The path is made of exactly these segments, and is one the host accepts. */
  predicate IsPathOf(path: string, segments: seq<string>) {
    && segments != [] && path == Join(segments) && Bytes(path) <= MAX_PATH
    && forall k :: 0 <= k < |segments| ==> ValidSegment(segments[k])
  }

  lemma PathHasOneReading(path: string, a: seq<string>, b: seq<string>)
    requires IsPathOf(path, a) && IsPathOf(path, b)
    ensures a == b
  {
    SplitJoin(a);
    SplitJoin(b);
  }

  lemma {:induction false} JoinChars(segments: seq<string>, c: char)
    ensures c in Join(segments) <==> (segments != [] && c == '/') || exists k :: 0 <= k < |segments| && c in segments[k]
  {
    if segments != [] {
      JoinChars(segments[1..], c);
      assert forall k :: 0 < k < |segments| ==> segments[k] == segments[1..][k - 1];
      assert c in Join(segments) <==> c == '/' || c in segments[0] || c in Join(segments[1..]);
      if k :| 0 <= k < |segments[1..]| && c in segments[1..][k] { assert c in segments[k + 1]; }
      assert |segments| > 1 <==> segments[1..] != [];
    }
  }

  lemma {:induction false} SplitChars(s: string, k: nat)
    requires k < |Split(s)|
    ensures '/' !in Split(s)[k] && forall c :: c in Split(s)[k] ==> c in s
    decreases s
  {
    if s != "" {
      var rest := Split(s[1..]);
      if s[0] == '/' {
        if k > 0 { SplitChars(s[1..], k - 1); }
      } else {
        SplitChars(s[1..], k);
      }
    }
  }

  /** An accepted path stays below its root: it has no empty, current or parent segment, no backslash and no control
      character. */
  lemma AcceptedPathsStayInside(path: string, segments: seq<string>)
    requires IsPathOf(path, segments)
    ensures path != "" && path[0] == '/' && |path| <= 4096
    ensures forall k :: 0 <= k < |segments| ==> segments[k] != "" && segments[k] != "." && segments[k] != ".."
    ensures forall c :: c in path ==> c != '\\' && 0x20 <= c as int && !(0x7F <= c as int < 0xA0)
  {
    BytesAtLeast(path);
    forall c | c in path ensures c != '\\' && 0x20 <= c as int && !(0x7F <= c as int < 0xA0) {
      JoinChars(segments, c);
      if c != '/' {
        var k :| 0 <= k < |segments| && c in segments[k];
        SegmentRules(segments[k]);
      }
    }
  }

  lemma {:induction false} BytesAtLeast(s: string)
    ensures |s| <= Bytes(s)
  {
    if s != "" { BytesAtLeast(s[1..]); }
  }

  datatype PathError = InvalidPath

  lemma SeparatorIsPlain(c: char)
    requires c == '/'
    ensures PlainChar(c)
  {
  }

  /** Accepts exactly the paths that have a reading as valid segments, and returns that reading. */
  method NormalizeRequestPath(path: string) returns (r: Result<seq<string>, PathError>)
    ensures r.Ok? ==> IsPathOf(path, r.value)
    ensures r.Err? ==> forall segments :: !IsPathOf(path, segments)
  {
    forall segments | IsPathOf(path, segments)
      ensures path != "" && path[0] == '/' && Plain(path) && segments == Split(path[1..])
    {
      SplitJoin(segments);
      forall c | c in path ensures PlainChar(c) {
        JoinChars(segments, c);
        if c != '/' {
          var k :| 0 <= k < |segments| && c in segments[k];
          assert ValidSegment(segments[k]);
          assert PlainChar(c);
        } else {
          SeparatorIsPlain(c);
        }
      }
    }
    if path == "" || Bytes(path) > MAX_PATH || path[0] != '/' || !Plain(path) { return Err(InvalidPath); }
    var pieces := Split(path[1..]);
    JoinSplit(path[1..]);
    assert path == "/" + path[1..];
    var segments := [];
    for k := 0 to |pieces|
      invariant segments == pieces[..k]
      invariant forall j :: 0 <= j < k ==> ValidSegment(pieces[j])
    {
      if pieces[k] == "" || pieces[k] == "." || pieces[k] == ".." {
        assert !ValidSegment(pieces[k]);
        return Err(InvalidPath);
      }
      SplitChars(path[1..], k);
      segments := segments + [pieces[k]];
    }
    assert segments == pieces;
    r := Ok(segments);
  }

  // ---- parameter values ----

  const I64_MIN: int := -0x8000_0000_0000_0000
  const I64_MAX: int := 0x7FFF_FFFF_FFFF_FFFF
  const I128_MIN: int := -0x8000_0000_0000_0000_0000_0000_0000_0000
  const I128_MAX: int := 0x7FFF_FFFF_FFFF_FFFF_FFFF_FFFF_FFFF_FFFF
  const U128_MAX: int := 0xFFFF_FFFF_FFFF_FFFF_FFFF_FFFF_FFFF_FFFF

  datatype ParamType = Text | Integer | Unsigned | Boolean

  datatype ParamValue = TextValue(text: string) | IntegerValue(i: int) | UnsignedValue(u: int) | BooleanValue(b: bool)

  predicate HasType(v: ParamValue, t: ParamType) {
    match t
    case Text => v.TextValue?
    case Integer => v.IntegerValue? && I64_MIN <= v.i <= I64_MAX
    case Unsigned => v.UnsignedValue? && 0 <= v.u <= U64_MAX
    case Boolean => v.BooleanValue?
  }

  predicate IsDigit(c: char) { '0' <= c <= '9' }

  predicate Digits(s: string) { s != "" && forall c :: c in s ==> IsDigit(c) }

  function DigitOf(c: char): nat { if IsDigit(c) then c as int - '0' as int else 0 }

  function DigitsValue(s: string): nat {
    if s == "" then 0 else DigitsValue(s[..|s| - 1]) * 10 + DigitOf(s[|s| - 1])
  }

  function Show(n: nat): string {
    var last := [('0' as int + n % 10) as char];
    if n < 10 then last else Show(n / 10) + last
  }

  lemma {:induction false} ShowReads(n: nat)
    ensures Digits(Show(n)) && DigitsValue(Show(n)) == n
  {
    if n >= 10 {
      ShowReads(n / 10);
      assert Show(n)[..|Show(n)| - 1] == Show(n / 10);
    } else {
      assert Show(n)[..0] == "";
    }
  }

  /** An optional sign (only a plus for unsigned integers), then digits, within the wide range. */
  function ParseWide(s: string, signed: bool): Option<int> {
    if s == "" then None
    else
      var negative := signed && s[0] == '-';
      var digits := if s[0] == '+' || negative then s[1..] else s;
      if !Digits(digits) then None
      else
        var magnitude: int := DigitsValue(digits);
        var n := if negative then -magnitude else magnitude;
        if signed && I128_MIN <= n <= I128_MAX then Some(n)
        else if !signed && n <= U128_MAX then Some(n)
        else None
  }

  function ShowInt(n: int): string { if n < 0 then "-" + Show(-n) else Show(n) }

  function ParseValue(t: ParamType, raw: string): Option<ParamValue> {
    match t
    case Text => Some(TextValue(raw))
    case Integer =>
      var wide := ParseWide(raw, true);
      if wide.Some? && I64_MIN <= wide.value <= I64_MAX then Some(IntegerValue(wide.value)) else None
    case Unsigned =>
      var wide := ParseWide(raw, false);
      if wide.Some? && 0 <= wide.value <= U64_MAX then Some(UnsignedValue(wide.value)) else None
    case Boolean =>
      if raw == "true" then Some(BooleanValue(true))
      else if raw == "false" then Some(BooleanValue(false))
      else None
  }

  // ---- which texts are values ----

  function Pow10(n: nat): nat { if n == 0 then 1 else 10 * Pow10(n - 1) }

  /** Digits mean what they mean in decimal: a digit its place on this list, and a digit sequence the sum of its parts
      shifted into place. */
  lemma {:induction false} DigitsAreDecimal(a: string, b: string)
    ensures DigitsValue(a + b) == DigitsValue(a) * Pow10(|b|) + DigitsValue(b)
    ensures forall n :: 0 <= n < 10 ==> DigitsValue(["0123456789"[n]]) == n
    decreases |b|
  {
    forall n | 0 <= n < 10 ensures DigitsValue(["0123456789"[n]]) == n { OneDigit("0123456789"[n]); }
    if b == "" {
      assert a + b == a;
    } else {
      var init, last := b[..|b| - 1], b[|b| - 1];
      DigitsAreDecimal(a, init);
      assert (a + b)[..|a + b| - 1] == a + init;
      ShiftLeft(DigitsValue(a), Pow10(|init|), DigitsValue(init), DigitOf(last));
    }
  }

  lemma ShiftLeft(a: nat, p: nat, b: nat, d: nat)
    ensures (a * p + b) * 10 + d == a * (10 * p) + (b * 10 + d)
  {
  }

  lemma OneDigit(c: char)
    ensures DigitsValue([c]) == DigitOf(c)
  {
    assert [c][..0] == "";
  }

  /** An optional sign, a minus only where it is permitted, and then at least one digit, worth `n`. */
  predicate IsNumeral(raw: string, sign: string, digits: string, signed: bool, n: int) {
    && raw == sign + digits && (sign == "" || sign == "+" || (signed && sign == "-"))
    && Digits(digits) && n == (if sign == "-" then -1 else 1) * DigitsValue(digits)
  }

  ghost predicate Numeral(raw: string, signed: bool, n: int) {
    exists sign, digits :: IsNumeral(raw, sign, digits, signed, n)
  }

  /** The text is this value of the type. */
  ghost predicate Reads(t: ParamType, raw: string, v: ParamValue) {
    match t
    case Text => v == TextValue(raw)
    case Integer => v.IntegerValue? && Numeral(raw, true, v.i) && -0x8000_0000_0000_0000 <= v.i < 0x8000_0000_0000_0000
    case Unsigned => v.UnsignedValue? && Numeral(raw, false, v.u) && 0 <= v.u < 0x1_0000_0000_0000_0000
    case Boolean => (raw == "true" && v == BooleanValue(true)) || (raw == "false" && v == BooleanValue(false))
  }

  lemma WideNumerals(raw: string, signed: bool, n: int)
    ensures ParseWide(raw, signed) == Some(n) ==> Numeral(raw, signed, n)
    ensures Numeral(raw, signed, n) && (if signed then I128_MIN <= n <= I128_MAX else n <= U128_MAX) ==>
              ParseWide(raw, signed) == Some(n)
  {
    if ParseWide(raw, signed) == Some(n) {
      var signs := raw[0] == '+' || (signed && raw[0] == '-');
      var sign, digits := if signs then raw[..1] else "", if signs then raw[1..] else raw;
      assert IsNumeral(raw, sign, digits, signed, n);
    }
    if Numeral(raw, signed, n) {
      var sign, digits :| IsNumeral(raw, sign, digits, signed, n);
      SignOfDigits(digits);
      assert if sign == "" then raw == digits else raw[1..] == digits && raw[0] == sign[0];
    }
  }

  /** A text parses at a type exactly when it is a value of it, and then to that value. */
  lemma ParsesExactly(t: ParamType, raw: string, v: ParamValue)
    ensures ParseValue(t, raw) == Some(v) <==> Reads(t, raw, v)
  {
    match t
    case Integer =>
      if v.IntegerValue? { WideNumerals(raw, true, v.i); }
    case Unsigned =>
      if v.UnsignedValue? { WideNumerals(raw, false, v.u); }
    case _ =>
  }

  /** A text is at most one value of a type. */
  lemma ReadsOnce(t: ParamType, raw: string, v: ParamValue, w: ParamValue)
    requires Reads(t, raw, v) && Reads(t, raw, w)
    ensures v == w
  {
    ParsesExactly(t, raw, v);
    ParsesExactly(t, raw, w);
  }

  function Render(v: ParamValue): string {
    match v
    case TextValue(text) => text
    case IntegerValue(i) => ShowInt(i)
    case UnsignedValue(u) => ShowInt(u)
    case BooleanValue(b) => if b then "true" else "false"
  }

  /** Rendering a value and parsing it at its type gives the value back. */
  lemma RenderThenParse(t: ParamType, v: ParamValue)
    requires HasType(v, t)
    ensures ParseValue(t, Render(v)) == Some(v)
  {
    match v
    case IntegerValue(i) =>
      ShowReads(if i < 0 then -i else i);
      if i < 0 { assert ShowInt(i)[1..] == Show(-i); }
      SignOfDigits(Show(if i < 0 then -i else i));
    case UnsignedValue(u) =>
      ShowReads(u);
      SignOfDigits(Show(u));
    case _ =>
  }

  lemma SignOfDigits(s: string)
    requires Digits(s)
    ensures s[0] != '-' && s[0] != '+'
  {
    assert s[0] in s;
  }

  /** Whatever parses has the declared type, and a value has only one parse. */
  lemma ParsedHasType(t: ParamType, raw: string)
    ensures ParseValue(t, raw).Some? ==> HasType(ParseValue(t, raw).value, t)
  {
  }

  /** Every value except a text that is not a segment renders to a valid segment. */
  lemma RenderedIsSegment(t: ParamType, v: ParamValue)
    requires HasType(v, t) && (v.TextValue? ==> ValidSegment(v.text))
    ensures ValidSegment(Render(v))
  {
    match v
    case TextValue(_) =>
    case IntegerValue(i) => ShowReads(if i < 0 then -i else i); DigitsArePlain(Show(if i < 0 then -i else i));
    case UnsignedValue(u) => ShowReads(u); DigitsArePlain(Show(u));
    case BooleanValue(_) =>
  }

  lemma DigitsArePlain(s: string)
    requires Digits(s)
    ensures ValidSegment(s) && ValidSegment("-" + s)
  {
    assert s[0] in s;
    assert forall c :: c in "-" + s ==> c == '-' || IsDigit(c);
    assert s != "." && s != ".." by { assert IsDigit(s[0]); }
    assert ("-" + s)[0] == '-';
  }
}
