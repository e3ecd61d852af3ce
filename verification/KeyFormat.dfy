/**
  The text of a personal API key, and what the check of its prefix lets through.
 */
module KeyFormat {
  import opened Base
  import opened Text

  const KEY_TAG: string := "teb_uk_"
  const PREFIX_LENGTH: nat := 16

  predicate HexDigit(c: char) {
    '0' <= c <= '9' || 'a' <= c <= 'f' || 'A' <= c <= 'F'
  }

  /** Digits for int(x, 16): single underscores are allowed between digits. */
  predicate HexDigits(s: string) {
    && s != "" && HexDigit(s[0]) && HexDigit(s[|s| - 1])
    && (forall i :: 0 <= i < |s| ==> HexDigit(s[i]) || s[i] == '_')
    && (forall i, j :: 0 <= i < |s| && 0 <= j < |s| && j == i + 1 ==> HexDigit(s[i]) || HexDigit(s[j]))
  }

  function AfterSign(s: string): string {
    if s != "" && (s[0] == '+' || s[0] == '-') then s[1..] else s
  }

  /** Drops 0x, and an underscore after it. */
  function AfterRadix(s: string): string {
    if |s| >= 2 && s[0] == '0' && (s[1] == 'x' || s[1] == 'X') then
      if |s| > 2 && s[2] == '_' then s[3..] else s[2..]
    else s
  }

  /** What Python's int(x, 16) accepts: surrounding space, a sign and 0x included. */
  predicate ParsesAsHex(x: string) {
    HexDigits(AfterRadix(AfterSign(Strip(x))))
  }

  /** A fixed window of sixteen characters, an underscore and a secret. */
  function KeyParts(raw: string): Option<(string, string)> {
    if !Prefixed(raw, KEY_TAG) then None
    else
      var body := raw[|KEY_TAG|..];
      if |body| <= PREFIX_LENGTH + 1 || body[PREFIX_LENGTH] != '_' then None
      else Some((body[..PREFIX_LENGTH], body[PREFIX_LENGTH + 1..]))
  }

  function ExtractKeyPrefix(raw: string): Option<string> {
    match KeyParts(raw)
    case None => None
    case Some(parts) => if ParsesAsHex(parts.0) then Some(parts.0) else None
  }

  lemma KeyPartsAre(raw: string, p: string, secret: string)
    ensures KeyParts(raw) == Some((p, secret)) <==> |p| == 16 && secret != "" && raw == "teb_uk_" + p + "_" + secret
  {
    if KeyParts(raw) == Some((p, secret)) {
      assert raw == KEY_TAG + (p + "_" + secret);
    }
    if |p| == 16 && secret != "" && raw == "teb_uk_" + p + "_" + secret {
      var body := p + "_" + secret;
      assert raw == KEY_TAG + body && raw[|KEY_TAG|..] == body;
      assert body[16] == '_' && body[..16] == p && body[17..] == secret;
    }
  }

  /** A key is the tag, a prefix of sixteen characters that reads as a number, an
      underscore, and a secret that is not empty. */
  lemma KeyFormatIff(raw: string, p: string)
    ensures ExtractKeyPrefix(raw) == Some(p) <==>
      |p| == 16 && ParsesAsHex(p) && exists secret: string :: secret != "" && raw == "teb_uk_" + p + "_" + secret
  {
    if KeyParts(raw).Some? {
      KeyPartsAre(raw, KeyParts(raw).value.0, KeyParts(raw).value.1);
    }
    forall secret: string | |p| == 16 && secret != "" && raw == "teb_uk_" + p + "_" + secret
      ensures KeyParts(raw) == Some((p, secret))
    {
      KeyPartsAre(raw, p, secret);
    }
  }

  predicate HexRun(run: string) {
    && run != ""
    && forall k :: 0 <= k < |run| ==> '0' <= run[k] <= '9' || 'a' <= run[k] <= 'f' || 'A' <= run[k] <= 'F'
  }

  lemma HexDigitsApart(head: string, tail: string)
    requires Free(head, '_') && HexDigits(head + ['_'] + tail)
    ensures HexRun(head) && HexDigits(tail)
  {
    var s, n := head + ['_'] + tail, |head|;
    assert forall k :: 0 <= k < n ==> s[k] == head[k];
    assert s[n] == '_' && forall k :: 0 <= k < |tail| ==> s[n + 1 + k] == tail[k];
    assert head != "" && tail != "" && s[|s| - 1] == tail[|tail| - 1];
    assert HexDigit(s[n]) || HexDigit(s[n + 1]);
    forall i, j | 0 <= i < |tail| && 0 <= j < |tail| && j == i + 1 ensures HexDigit(tail[i]) || HexDigit(tail[j]) {
      assert HexDigit(s[n + 1 + i]) || HexDigit(s[n + 1 + j]);
    }
  }

  lemma HexDigitsTogether(head: string, tail: string)
    requires HexRun(head) && HexDigits(tail)
    ensures HexDigits(head + ['_'] + tail)
  {
    var s, n := head + ['_'] + tail, |head|;
    assert forall k :: 0 <= k < n ==> s[k] == head[k];
    assert s[n] == '_' && forall k :: 0 <= k < |tail| ==> s[n + 1 + k] == tail[k];
    assert s[0] == head[0] && s[|s| - 1] == tail[|tail| - 1];
    forall i, j | 0 <= i < |s| && 0 <= j < |s| && j == i + 1 ensures HexDigit(s[i]) || HexDigit(s[j]) {
      if i == n {
        assert s[j] == tail[0];
      } else if i > n {
        assert HexDigit(tail[i - n - 1]) || HexDigit(tail[j - n - 1]);
      }
    }
  }

  /** Runs of digits with single underscores between them. */
  lemma {:induction false} HexDigitsAreRuns(s: string)
    ensures HexDigits(s) <==> forall run :: run in Split(s, '_') ==> HexRun(run)
    decreases |s|
  {
    if Free(s, '_') {
      SplitOfFree(s, '_');
      assert s in Split(s, '_');
    } else {
      var at := FirstAt(s, '_');
      var head, tail := s[..at], s[at + 1..];
      assert s == head + ['_'] + tail;
      SplitAtFirst(head, '_', tail);
      HexDigitsAreRuns(tail);
      if HexDigits(s) {
        HexDigitsApart(head, tail);
      }
      if HexRun(head) && HexDigits(tail) {
        HexDigitsTogether(head, tail);
      }
      assert head in Split(s, '_');
      assert forall run :: run in Split(s, '_') <==> run == head || run in Split(tail, '_');
    }
  }

  predicate SignText(s: string) {
    s == "" || (|s| == 1 && (s[0] == '+' || s[0] == '-'))
  }

  /** Nothing, or 0x, after which an underscore may stand. */
  predicate RadixText(s: string) {
    s == "" || (2 <= |s| <= 3 && s[0] == '0' && (s[1] == 'x' || s[1] == 'X') && (|s| == 3 ==> s[2] == '_'))
  }

  predicate Numeral(s: string, sign: string, radix: string, digits: string) {
    s == sign + (radix + digits) && SignText(sign) && RadixText(radix) && HexDigits(digits)
  }

  /** What is read as a number is a numeral, once the white space around it is gone. */
  lemma ParsesAsHexIff(x: string)
    ensures ParsesAsHex(x) <==> exists sign, radix, digits :: Numeral(Strip(x), sign, radix, digits)
  {
    if ParsesAsHex(x) {
      ParsedIsNumeral(x);
    }
    forall g, r, d | Numeral(Strip(x), g, r, d) ensures ParsesAsHex(x) {
      NumeralParses(x, g, r, d);
    }
  }

  lemma SignOf(s: string) returns (sign: string)
    ensures SignText(sign) && s == sign + AfterSign(s)
  {
    sign := s[..|s| - |AfterSign(s)|];
  }

  lemma RadixOf(s: string) returns (radix: string)
    ensures RadixText(radix) && s == radix + AfterRadix(s)
  {
    radix := s[..|s| - |AfterRadix(s)|];
  }

  lemma ParsedIsNumeral(x: string)
    requires ParsesAsHex(x)
    ensures exists sign, radix, digits :: Numeral(Strip(x), sign, radix, digits)
  {
    var s := Strip(x);
    var digits := AfterRadix(AfterSign(s));
    var sign := SignOf(s);
    var radix := RadixOf(AfterSign(s));
    assert Numeral(s, sign, radix, digits);
  }

  lemma AfterSignIs(sign: string, body: string)
    requires SignText(sign) && body != "" && body[0] != '+' && body[0] != '-'
    ensures AfterSign(sign + body) == body
  {
    assert sign == "" ==> sign + body == body;
  }

  lemma AfterRadixIs(radix: string, digits: string)
    requires RadixText(radix) && digits != "" && digits[0] != '_'
    requires |digits| > 1 ==> digits[1] != 'x' && digits[1] != 'X'
    ensures AfterRadix(radix + digits) == digits
    ensures (radix + digits)[0] == if radix == "" then digits[0] else '0'
  {
    assert radix == "" ==> radix + digits == digits;
  }

  lemma DigitsStart(digits: string)
    requires HexDigits(digits)
    ensures digits != "" && HexDigit(digits[0]) && (|digits| > 1 ==> HexDigit(digits[1]) || digits[1] == '_')
  {
  }

  lemma SignedDigits(sign: string, radix: string, digits: string)
    requires SignText(sign) && RadixText(radix) && digits != "" && HexDigit(digits[0])
    requires |digits| > 1 ==> HexDigit(digits[1]) || digits[1] == '_'
    ensures AfterRadix(AfterSign(sign + (radix + digits))) == digits
  {
    var body := radix + digits;
    AfterRadixIs(radix, digits);
    assert body != "" && body[0] != '+' && body[0] != '-';
    AfterSignIs(sign, body);
  }

  lemma NumeralParses(x: string, sign: string, radix: string, digits: string)
    requires Numeral(Strip(x), sign, radix, digits)
    ensures ParsesAsHex(x)
  {
    DigitsStart(digits);
    SignedDigits(sign, radix, digits);
  }

  /** One draw of random bytes: a row id, the prefix and the secret. */
  datatype Draw = Draw(id: nat, prefix: string, secret: string) {
    /** The CHECK on key_prefix, and a secret that is not empty. */
    predicate Ok() {
      |prefix| == PREFIX_LENGTH && secret != ""
      && forall i :: 0 <= i < |prefix| ==> '0' <= prefix[i] <= '9' || 'a' <= prefix[i] <= 'f'
    }

    function Raw(): string {
      KEY_TAG + prefix + "_" + secret
    }
  }

  /** Every issued key parses back to the prefix it is stored under. */
  lemma IssuedKeyParses(d: Draw)
    requires d.Ok()
    ensures ExtractKeyPrefix(d.Raw()) == Some(d.prefix)
  {
    KeyPartsAre(d.Raw(), d.prefix, d.secret);
    StripIsStripped(d.prefix);
    assert HexDigits(d.prefix);
  }
}
