/** The length-prefixed key that joins a document's source and source id. */
module DocumentKey {
  import opened Wrappers

  const USIZE_LIMIT: nat := 0x1_0000_0000_0000_0000

  /** Bytes of a character in UTF-8. */
  function Width(c: char): nat {
    if (c as int) < 0x80 then 1 else if (c as int) < 0x800 then 2 else if (c as int) < 0x10000 then 3 else 4
  }

  /** `str::len` */
  function ByteLen(s: string): nat {
    if |s| == 0 then 0 else Width(s[0]) + ByteLen(s[1..])
  }

  predicate IsDigit(c: char) {
    '0' <= c <= '9'
  }

  function DigitChar(d: nat): char
    requires d < 10
  {
    ('0' as int + d) as char
  }

  function DigitValue(c: char): nat
    requires IsDigit(c)
  {
    c as int - '0' as int
  }

  /** Decimal rendering. */
  function Digits(n: nat): string {
    if n < 10 then [DigitChar(n)] else Digits(n / 10) + [DigitChar(n % 10)]
  }

  predicate AllDigits(s: string) {
    forall i :: 0 <= i < |s| ==> IsDigit(s[i])
  }

  function Value(s: string): nat
    requires AllDigits(s)
  {
    if |s| == 0 then 0 else Value(s[..|s| - 1]) * 10 + DigitValue(s[|s| - 1])
  }

  /** `str::parse::<usize>`: an optional plus sign, then digits, in range. */
  function ParseUsize(s: string): Option<nat> {
    var digits := if |s| > 0 && s[0] == '+' then s[1..] else s;
    if |digits| > 0 && AllDigits(digits) && Value(digits) < USIZE_LIMIT then Some(Value(digits)) else None
  }

  /** `split_once(':')` */
  function SplitOnce(s: string): Option<(string, string)> {
    if |s| == 0 then None
    else if s[0] == ':' then Some(("", s[1..]))
    else
      match SplitOnce(s[1..])
      case None => None
      case Some((left, right)) => Some(([s[0]] + left, right))
  }

  /** `split_at(n)`, or None when `n` is past the end or inside a character. */
  function SplitAtByte(s: string, n: nat): Option<(string, string)> {
    if n == 0 then Some(("", s))
    else if |s| == 0 || n < Width(s[0]) then None
    else
      match SplitAtByte(s[1..], n - Width(s[0]))
      case None => None
      case Some((left, right)) => Some(([s[0]] + left, right))
  }

  function Encode(source: string, id: string): string {
    Digits(ByteLen(source)) + ":" + source + id
  }

  function Decode(key: string): Option<(string, string)> {
    match SplitOnce(key)
    case None => None
    case Some((prefix, rest)) =>
      match ParseUsize(prefix)
      case None => None
      case Some(n) =>
        match SplitAtByte(rest, n)
        case None => None
        case Some((source, id)) => if |source| == 0 || |id| == 0 then None else Some((source, id))
  }

  // ---------- decimal numbers ----------

  /** Rendering and reading are inverse, and a rendering never starts with a zero it does not need. */
  lemma {:induction false} DigitsRoundTrip(n: nat)
    ensures |Digits(n)| > 0 && AllDigits(Digits(n)) && Value(Digits(n)) == n
    ensures n > 0 ==> Digits(n)[0] != '0'
  {
    if n >= 10 {
      DigitsRoundTrip(n / 10);
      assert Digits(n)[..|Digits(n)| - 1] == Digits(n / 10);
    } else {
      assert Digits(n)[..0] == "";
    }
  }

  lemma {:induction false} CanonicalIsRendering(s: string)
    requires |s| > 0 && AllDigits(s) && s[0] != '0'
    ensures Value(s) > 0 && Digits(Value(s)) == s
  {
    var front, last := s[..|s| - 1], s[|s| - 1];
    if |front| > 0 {
      CanonicalIsRendering(front);
      assert Value(s) / 10 == Value(front) && Value(s) % 10 == DigitValue(last);
      assert s == front + [last];
    } else {
      assert s == [last] && Value(front) == 0;
    }
  }

  // ---------- splitting ----------

  lemma {:induction false} SplitOnceFinds(left: string, right: string)
    requires ':' !in left
    ensures SplitOnce(left + ":" + right) == Some((left, right))
  {
    var s := left + ":" + right;
    if |left| > 0 {
      assert s[1..] == left[1..] + ":" + right;
      SplitOnceFinds(left[1..], right);
      assert left == [left[0]] + left[1..];
    } else {
      assert s[1..] == right;
    }
  }

  lemma {:induction false} SplitOnceSound(s: string)
    requires SplitOnce(s).Some?
    ensures var (left, right) := SplitOnce(s).value; s == left + ":" + right && ':' !in left
  {
    if s[0] == ':' {
      assert s == [s[0]] + s[1..];
    } else {
      SplitOnceSound(s[1..]);
      assert s == [s[0]] + s[1..];
    }
  }

  lemma {:induction false} SplitAtByteFinds(left: string, right: string)
    ensures SplitAtByte(left + right, ByteLen(left)) == Some((left, right))
  {
    if |left| > 0 {
      assert (left + right)[1..] == left[1..] + right;
      SplitAtByteFinds(left[1..], right);
      assert left == [left[0]] + left[1..];
    } else {
      assert left + right == right;
    }
  }

  lemma {:induction false} SplitAtByteSound(s: string, n: nat)
    requires SplitAtByte(s, n).Some?
    ensures var (left, right) := SplitAtByte(s, n).value; s == left + right && ByteLen(left) == n
  {
    if n > 0 {
      SplitAtByteSound(s[1..], n - Width(s[0]));
      var (left, right) := SplitAtByte(s[1..], n - Width(s[0])).value;
      assert ([s[0]] + left)[1..] == left;
      assert s == [s[0]] + s[1..];
    }
  }

  // ---------- the codec ----------

  lemma PrefixHasNoColon(source: string)
    ensures ':' !in Digits(ByteLen(source))
  {
    DigitsRoundTrip(ByteLen(source));
  }

  /** Decoding recovers both parts, whatever colons, digits or multi-byte characters they contain. */
  lemma RoundTrip(source: string, id: string)
    requires |source| > 0 && |id| > 0 && ByteLen(source) < USIZE_LIMIT
    ensures Decode(Encode(source, id)) == Some((source, id))
  {
    var n := ByteLen(source);
    PrefixHasNoColon(source);
    assert Encode(source, id) == Digits(n) + ":" + (source + id);
    SplitOnceFinds(Digits(n), source + id);
    DigitsParse(n);
    SplitAtByteFinds(source, id);
  }

  lemma DigitsParse(n: nat)
    requires 0 < n < USIZE_LIMIT
    ensures ParseUsize(Digits(n)) == Some(n)
  {
    DigitsRoundTrip(n);
  }

  /** Distinct identities have distinct keys, even with empty parts. */
  lemma Injective(source1: string, id1: string, source2: string, id2: string)
    requires Encode(source1, id1) == Encode(source2, id2)
    ensures source1 == source2 && id1 == id2
  {
    var n1, n2 := ByteLen(source1), ByteLen(source2);
    assert Encode(source1, id1) == Digits(n1) + ":" + (source1 + id1);
    assert Encode(source2, id2) == Digits(n2) + ":" + (source2 + id2);
    PrefixHasNoColon(source1);
    PrefixHasNoColon(source2);
    SplitOnceFinds(Digits(n1), source1 + id1);
    SplitOnceFinds(Digits(n2), source2 + id2);
    DigitsRoundTrip(n1);
    DigitsRoundTrip(n2);
    SplitAtByteFinds(source1, id1);
    SplitAtByteFinds(source2, id2);
  }

  /** A decodable key is a readable length, a colon and the two parts. */
  lemma DecodeSound(key: string) returns (prefix: string)
    requires Decode(key).Some?
    ensures var (source, id) := Decode(key).value;
            key == prefix + ":" + (source + id) && ParseUsize(prefix) == Some(ByteLen(source)) && |source| > 0
  {
    prefix := SplitOnce(key).value.0;
    SplitOnceSound(key);
    SplitAtByteSound(SplitOnce(key).value.1, ParseUsize(prefix).value);
  }

  lemma CanonicalPrefix(prefix: string, n: nat)
    requires ParseUsize(prefix) == Some(n) && n > 0
    ensures |prefix| > 0
    ensures Digits(n) == prefix <==> '1' <= prefix[0] <= '9'
  {
    DigitsRoundTrip(n);
    if '1' <= prefix[0] <= '9' { CanonicalIsRendering(prefix); }
  }

  /**
   Decoding accepts more than encoding produces. A decodable key is the encoding
   of what it decodes to exactly when it starts with a digit from 1 to 9; a plus
   sign or a leading zero is read but never written.
   */
  lemma DecodedKeyIsCanonicalIff(key: string)
    requires Decode(key).Some?
    ensures |key| > 0
    ensures var (source, id) := Decode(key).value; Encode(source, id) == key <==> '1' <= key[0] <= '9'
  {
    var prefix := DecodeSound(key);
    var (source, id) := Decode(key).value;
    var n := ByteLen(source);
    CanonicalPrefix(prefix, n);
    assert key[0] == prefix[0];
    assert Encode(source, id) == Digits(n) + ":" + (source + id);
    if Encode(source, id) == key {
      assert |Digits(n)| == |prefix|;
      assert Digits(n) == key[..|prefix|] == prefix;
    }
  }

  /** Two keys outside the image of the encoding that collide with an encoded one. */
  lemma NonCanonicalKeysCollide()
    ensures Decode("+1:ab") == Decode("01:ab") == Decode(Encode("a", "b")) == Some(("a", "b"))
  {
    RoundTrip("a", "b");
    OtherSpellingsOfOne();
    assert "+1" + ":" + "ab" == "+1:ab" && "01" + ":" + "ab" == "01:ab";
    SplitOnceFinds("+1", "ab");
    SplitOnceFinds("01", "ab");
    assert ByteLen("a") == 1;
    SplitAtByteFinds("a", "b");
    assert "a" + "b" == "ab";
  }

  lemma OtherSpellingsOfOne()
    ensures ParseUsize("+1") == ParseUsize("01") == Some(1)
  {
    assert "1"[..0] == "" && "01"[..1] == "0" && "0"[..0] == "";
    assert Value("1") == 1 && Value("0") == 0 && Value("01") == 1;
    assert "+1"[1..] == "1";
  }
}
