/**
  The admin gateway: which paths are forwarded, and the path the upstream gets.
 */
module AdminGateway {
  import opened Base
  import opened Text

  // ---------------------------------------------------------------- manifest

  datatype Rule = Rule(prefix: string, methods: set<string>)

  const READ: set<string> := {"GET"}
  const READ_POST: set<string> := {"GET", "POST"}
  const POST_ONLY: set<string> := {"POST"}
  const FAMILIES: nat := 34

  /** The route families in the order they are tried, ADMIN_ROUTE_MANIFEST. */
  function Manifest(): (rules: seq<Rule>)
    ensures |rules| == FAMILIES && forall i :: 0 <= i < FAMILIES ==> rules[i] == RuleAt(i)
  {
    seq(FAMILIES, i requires 0 <= i < FAMILIES => RuleAt(i))
  }

  function RuleAt(i: nat): Rule
    requires i < FAMILIES
  {
    match i
    case 0 => Rule("auth/", {"GET", "POST", "DELETE"})
    case 1 => Rule("orders", READ_POST)
    case 2 => Rule("funds", READ_POST)
    case 3 => Rule("audit", READ)
    case 4 => Rule("agents", READ_POST)
    case 5 => Rule("briefings", READ)
    case 6 => Rule("guard", READ_POST)
    case 7 => Rule("master-admin", READ)
    case 8 => Rule("services", READ_POST)
    case 9 => Rule("backtest", READ_POST)
    case 10 => Rule("costs", READ)
    case 11 => Rule("data", READ)
    case 12 => Rule("desktop", READ)
    case 13 => Rule("users", READ)
    case 14 => Rule("edge", READ)
    case 15 => Rule("integrations", READ)
    case 16 => Rule("console", READ_POST)
    case 17 => Rule("terminal-data", READ)
    case 18 => Rule("sql/query", POST_ONLY)
    case 19 => Rule("sql/execute", POST_ONLY)
    case 20 => Rule("dataapi/locks", POST_ONLY)
    case 21 => Rule("proposals", READ_POST)
    case 22 => Rule("ops", READ)
    case 23 => Rule("workers", READ_POST)
    case 24 => Rule("trask", READ_POST)
    case 25 => Rule("alerts", READ_POST)
    case 26 => Rule("prelive", READ)
    case 27 => Rule("trading", READ_POST)
    case 28 => Rule("timers", READ_POST)
    case 29 => Rule("risk", READ_POST)
    case 30 => Rule("compliance", READ)
    case 31 => Rule("oms", READ_POST)
    case 32 => Rule("broker", READ)
    case _ => Rule("macro", READ_POST)
  }

  // ------------------------------------------------------------- plain paths

  function LStripSlashes(s: string): string {
    if s != "" && s[0] == '/' then LStripSlashes(s[1..]) else s
  }

  function RStripSlashes(s: string): string {
    if s != "" && s[|s| - 1] == '/' then RStripSlashes(s[..|s| - 1]) else s
  }

  /** str.strip("/"). */
  function StripSlashes(s: string): string {
    RStripSlashes(LStripSlashes(s))
  }

  predicate Bare(s: string) {
    s != "" && s[0] != '/' && s[|s| - 1] != '/'
  }

  predicate ForbiddenChar(c: char) {
    c == '\\' || c == '%' || c < ' ' || c as int == 0x7f
  }

  predicate PlainSegment(s: string) {
    s != "" && s != "." && s != ".."
  }

  /** _normalized_admin_path. */
  function Normalize(path: string): Option<string> {
    if Passable(StripSlashes(path)) then Some(StripSlashes(path)) else None
  }

  predicate Passable(normalized: string) {
    && normalized != "" && (forall c :: c in normalized ==> !ForbiddenChar(c))
    && (forall s :: s in Split(normalized, '/') ==> PlainSegment(s))
  }

  lemma {:induction false} LStripSlashesIsSuffix(s: string)
    ensures LStripSlashes(s) == "" || LStripSlashes(s)[0] != '/'
    ensures |LStripSlashes(s)| <= |s| && LStripSlashes(s) == s[|s| - |LStripSlashes(s)|..]
  {
    if s == "" || s[0] != '/' {
    } else {
      LStripSlashesIsSuffix(s[1..]);
    }
  }

  lemma {:induction false} RStripSlashesIsPrefix(s: string)
    ensures RStripSlashes(s) == "" || RStripSlashes(s)[|RStripSlashes(s)| - 1] != '/'
    ensures |RStripSlashes(s)| <= |s| && RStripSlashes(s) == s[..|RStripSlashes(s)|]
  {
    if s == "" || s[|s| - 1] != '/' {
    } else {
      RStripSlashesIsPrefix(s[..|s| - 1]);
    }
  }

  lemma StripSlashesIsBare(s: string)
    ensures StripSlashes(s) == "" || Bare(StripSlashes(s))
    ensures Bare(s) ==> StripSlashes(s) == s
  {
    LStripSlashesIsSuffix(s);
    RStripSlashesIsPrefix(LStripSlashes(s));
  }

  predicate Slashes(s: string) {
    forall k :: 0 <= k < |s| ==> s[k] == '/'
  }

  lemma {:induction false} LeadingSlashesGo(before: string, s: string)
    requires Slashes(before) && s != "" && s[0] != '/'
    ensures LStripSlashes(before + s) == s
  {
    if before == "" {
      assert before + s == s;
    } else {
      assert (before + s)[1..] == before[1..] + s;
      LeadingSlashesGo(before[1..], s);
    }
  }

  lemma {:induction false} TrailingSlashesGo(s: string, after: string)
    requires Slashes(after) && s != "" && s[|s| - 1] != '/'
    ensures RStripSlashes(s + after) == s
  {
    if after == "" {
      assert s + after == s;
    } else {
      var last := |after| - 1;
      assert (s + after)[..|s + after| - 1] == s + after[..last];
      TrailingSlashesGo(s, after[..last]);
    }
  }

  /** Slashes around a path make no difference. */
  lemma OuterSlashesGo(before: string, s: string, after: string)
    requires Slashes(before) && Slashes(after) && Bare(s)
    ensures StripSlashes(before + s + after) == s
  {
    assert before + s + after == before + (s + after);
    LeadingSlashesGo(before, s + after);
    TrailingSlashesGo(s, after);
  }

  /** A path that passes is a fixed point: normalising it again changes nothing, and
      it has no outer slash, no empty or dot segment and no forbidden character. */
  lemma NormalizeIsIdempotent(path: string)
    requires Normalize(path).Some?
    ensures var n := Normalize(path).value;
      && Normalize(n) == Some(n) && Bare(n)
      && PassableChars(n) && PassableSegments(n)
  {
    StripSlashesIsBare(path);
    StripSlashesIsBare(Normalize(path).value);
    PassableIff(Normalize(path).value);
  }

  predicate PassableChar(c: char) {
    c != '\\' && c != '%' && ' ' <= c && c as int != 127
  }

  predicate PassableChars(n: string) {
    forall c :: c in n ==> PassableChar(c)
  }

  predicate PassableSegments(n: string) {
    forall s :: s in Split(n, '/') ==> s != "" && s != "." && s != ".."
  }

  lemma CharsPass(n: string)
    ensures PassableChars(n) <==> forall c :: c in n ==> !ForbiddenChar(c)
  {
    if PassableChars(n) {
      forall c | c in n ensures !ForbiddenChar(c) {
        assert PassableChar(c);
      }
    }
    if forall c :: c in n ==> !ForbiddenChar(c) {
      forall c | c in n ensures PassableChar(c) {
        assert !ForbiddenChar(c);
      }
    }
  }

  lemma SegmentsPass(n: string)
    ensures PassableSegments(n) <==> forall s :: s in Split(n, '/') ==> PlainSegment(s)
  {
    if forall s :: s in Split(n, '/') ==> PlainSegment(s) {
      forall s | s in Split(n, '/') ensures s != "" && s != "." && s != ".." {
        assert PlainSegment(s);
      }
    }
    if PassableSegments(n) {
      forall s | s in Split(n, '/') ensures PlainSegment(s) {
      }
    }
  }

  lemma PassableIff(n: string)
    ensures Passable(n) <==> n != "" && PassableChars(n) && PassableSegments(n)
  {
    CharsPass(n);
    SegmentsPass(n);
  }

  /** Which paths pass: those without backslash, percent sign or control character and
      without empty or dot segment, once the outer slashes are gone. */
  lemma PlainPathsPass(before: string, n: string, after: string)
    requires Slashes(before) && Slashes(after) && Bare(n)
    ensures Normalize(before + n + after)
            == if PassableChars(n) && PassableSegments(n) then Some(n) else None
  {
    OuterSlashesGo(before, n, after);
    PassableIff(n);
  }

  // ---------------------------------------------------------------- matching

  predicate InFamily(normalized: string, rule: Rule) {
    var prefix := StripSlashes(rule.prefix);
    normalized == prefix || Prefixed(normalized, prefix + "/")
  }

  /** Some family of the manifest has the path and allows the method. */
  ghost predicate Allowed(rules: seq<Rule>, path: string, httpMethod: string) {
    Normalize(path).Some?
    && exists i ::
         0 <= i < |rules| && InFamily(Normalize(path).value, rules[i]) && Upper(httpMethod) in rules[i].methods
  }

  /** No path is in two families. */
  ghost predicate Disjoint(rules: seq<Rule>) {
    forall i, j, n :: 0 <= i < |rules| && 0 <= j < |rules| && InFamily(n, rules[i]) && InFamily(n, rules[j]) ==> i == j
  }

  /** is_allowed_admin_route: the first family that has the path decides, and with
      disjoint families that is the same as any. */
  method IsAllowedAdminRoute(rules: seq<Rule>, path: string, httpMethod: string) returns (allowed: bool)
    requires Disjoint(rules)
    ensures allowed <==> Allowed(rules, path, httpMethod)
  {
    var normalized := Normalize(path);
    if normalized.None? {
      return false;
    }
    for i := 0 to |rules|
      invariant forall j :: 0 <= j < i ==> !InFamily(normalized.value, rules[j])
    {
      if InFamily(normalized.value, rules[i]) {
        return Upper(httpMethod) in rules[i].methods;
      }
    }
    return false;
  }

  // ---------------------------------------------------- one family at the most

  datatype Key = Key(a: char, b: char, c: char)

  /** The three characters the paths of a family start with. */
  function KeyAt(i: nat): Key
    requires i < FAMILIES
  {
    match i
    case 0 => Key('a', 'u', 't')
    case 1 => Key('o', 'r', 'd')
    case 2 => Key('f', 'u', 'n')
    case 3 => Key('a', 'u', 'd')
    case 4 => Key('a', 'g', 'e')
    case 5 => Key('b', 'r', 'i')
    case 6 => Key('g', 'u', 'a')
    case 7 => Key('m', 'a', 's')
    case 8 => Key('s', 'e', 'r')
    case 9 => Key('b', 'a', 'c')
    case 10 => Key('c', 'o', 's')
    case 11 => Key('d', 'a', 't')
    case 12 => Key('d', 'e', 's')
    case 13 => Key('u', 's', 'e')
    case 14 => Key('e', 'd', 'g')
    case 15 => Key('i', 'n', 't')
    case 16 => Key('c', 'o', 'n')
    case 17 => Key('t', 'e', 'r')
    case 18 => Key('s', 'q', 'l')
    case 19 => Key('s', 'q', 'l')
    case 20 => Key('d', 'a', 't')
    case 21 => Key('p', 'r', 'o')
    case 22 => Key('o', 'p', 's')
    case 23 => Key('w', 'o', 'r')
    case 24 => Key('t', 'r', 'a')
    case 25 => Key('a', 'l', 'e')
    case 26 => Key('p', 'r', 'e')
    case 27 => Key('t', 'r', 'a')
    case 28 => Key('t', 'i', 'm')
    case 29 => Key('r', 'i', 's')
    case 30 => Key('c', 'o', 'm')
    case 31 => Key('o', 'm', 's')
    case 32 => Key('b', 'r', 'o')
    case _ => Key('m', 'a', 'c')
  }

  predicate StartsWithKey(s: string, k: Key) {
    |s| >= 3 && s[0] == k.a && s[1] == k.b && s[2] == k.c
  }

  lemma PrefixesFrom1(i: nat)
    requires 1 <= i < 9
    ensures Bare(RuleAt(i).prefix) && StartsWithKey(RuleAt(i).prefix, KeyAt(i))
  {
  }

  lemma PrefixesFrom9(i: nat)
    requires 9 <= i < 17
    ensures Bare(RuleAt(i).prefix) && StartsWithKey(RuleAt(i).prefix, KeyAt(i))
  {
  }

  lemma PrefixesFrom17(i: nat)
    requires 17 <= i < 26
    ensures Bare(RuleAt(i).prefix) && StartsWithKey(RuleAt(i).prefix, KeyAt(i))
  {
  }

  lemma PrefixesFrom26(i: nat)
    requires 26 <= i < 34
    ensures Bare(RuleAt(i).prefix) && StartsWithKey(RuleAt(i).prefix, KeyAt(i))
  {
  }

  lemma AuthPrefix()
    ensures StripSlashes("auth/") == "auth" && StartsWithKey("auth", Key('a', 'u', 't'))
  {
    var slashed, auth := "auth/", "auth";
    assert slashed[..4] == auth && LStripSlashes(slashed) == slashed && slashed[4] == '/';
    assert RStripSlashes(auth) == auth;
  }

  function PrefixAt(i: nat): string
    requires i < FAMILIES
  {
    if i == 0 then "auth" else RuleAt(i).prefix
  }

  lemma PrefixesAreBare(i: nat)
    requires i < FAMILIES
    ensures StripSlashes(RuleAt(i).prefix) == PrefixAt(i) && StartsWithKey(PrefixAt(i), KeyAt(i))
  {
    if i == 0 {
      AuthPrefix();
    } else {
      if i < 9 {
        PrefixesFrom1(i);
      } else if i < 17 {
        PrefixesFrom9(i);
      } else if i < 26 {
        PrefixesFrom17(i);
      } else {
        PrefixesFrom26(i);
      }
      StripSlashesIsBare(RuleAt(i).prefix);
    }
  }

  /** Which methods a family may allow at all: deletion only below auth, nothing but
      POST for the SQL and lock families, and nothing but GET for fourteen. */
  lemma MethodsOfFamilies(i: nat)
    requires i < FAMILIES
    ensures var methods := Manifest()[i].methods;
      && methods <= {"GET", "POST", "DELETE"}
      && ("DELETE" in methods <==> i == 0)
      && ("GET" !in methods <==> i in {18, 19, 20})
      && ("POST" !in methods <==> i in {3, 5, 7, 10, 11, 12, 13, 14, 15, 17, 22, 26, 30, 32})
  {
    MethodNames();
  }

  lemma MethodNames()
    ensures "GET" != "POST" && "POST" != "DELETE" && "GET" != "DELETE"
  {
    var get, post, delete := "GET", "POST", "DELETE";
    assert get[0] == 'G' && post[0] == 'P' && delete[0] == 'D';
  }

  /** A family is its prefix and everything below it. */
  lemma FamilyIsPrefixAndBelow(i: nat, n: string)
    requires i < FAMILIES
    ensures InFamily(n, Manifest()[i]) <==> n == PrefixAt(i) || exists rest: string :: n == PrefixAt(i) + "/" + rest
  {
    PrefixesAreBare(i);
    var below := PrefixAt(i) + "/";
    if Prefixed(n, below) {
      assert n == below + n[|below|..];
    }
  }

  predicate Under(n: string, prefix: string) {
    n == prefix || Prefixed(n, prefix + "/")
  }

  lemma UnderPrefix(n: string, prefix: string, k: nat)
    requires Under(n, prefix) && k <= |prefix|
    ensures |n| >= |prefix| && (k < |prefix| ==> n[k] == prefix[k])
    ensures |n| > |prefix| ==> n[|prefix|] == '/'
  {
    if n != prefix {
      assert n[..|prefix| + 1][k] == (prefix + "/")[k];
      assert n[..|prefix| + 1][|prefix|] == '/';
    }
  }

  lemma UnderKeepsKey(n: string, prefix: string, k: Key)
    requires Under(n, prefix) && StartsWithKey(prefix, k)
    ensures StartsWithKey(n, k)
  {
    UnderPrefix(n, prefix, 0);
    UnderPrefix(n, prefix, 1);
    UnderPrefix(n, prefix, 2);
  }

  /** Two prefixes part at position k: no path is under both. */
  lemma PartedPrefixes(n: string, p: string, q: string, k: nat)
    requires k <= |p| && k < |q| && q[k] != '/' && (k < |p| ==> p[k] != q[k])
    ensures !Under(n, p) || !Under(n, q)
  {
    if Under(n, p) && Under(n, q) {
      UnderPrefix(n, p, k);
      UnderPrefix(n, q, k);
    }
  }

  /** Three pairs of families share three characters. */
  predicate Twins(i: nat, j: nat) {
    (i == 11 && j == 20) || (i == 18 && j == 19) || (i == 24 && j == 27)
  }

  lemma KeysDiffer(i: nat, j: nat)
    requires i < j < FAMILIES
    ensures KeyAt(i) == KeyAt(j) ==> Twins(i, j)
  {
  }

  lemma TwinsAreDisjoint(n: string)
    ensures !Under(n, "data") || !Under(n, "dataapi/locks")
    ensures !Under(n, "sql/query") || !Under(n, "sql/execute")
    ensures !Under(n, "trask") || !Under(n, "trading")
  {
    var data, locks := "data", "dataapi/locks";
    var query, execute, trask, trading := "sql/query", "sql/execute", "trask", "trading";
    assert locks[4] == 'a' && query[4] == 'q' && execute[4] == 'e' && trask[3] == 's' && trading[3] == 'd';
    PartedPrefixes(n, data, locks, 4);
    PartedPrefixes(n, query, execute, 4);
    PartedPrefixes(n, trask, trading, 3);
  }

  lemma DistinctFamilies(n: string, i: nat, j: nat)
    requires i < j < FAMILIES
    ensures !Under(n, PrefixAt(i)) || !Under(n, PrefixAt(j))
  {
    if Under(n, PrefixAt(i)) && Under(n, PrefixAt(j)) {
      PrefixesAreBare(i);
      PrefixesAreBare(j);
      UnderKeepsKey(n, PrefixAt(i), KeyAt(i));
      UnderKeepsKey(n, PrefixAt(j), KeyAt(j));
      KeysDiffer(i, j);
      TwinPrefixes(i, j);
      TwinsAreDisjoint(n);
    }
  }

  lemma TwinPrefixes(i: nat, j: nat)
    requires i < j < FAMILIES && Twins(i, j)
    ensures (PrefixAt(i), PrefixAt(j))
            in {("data", "dataapi/locks"), ("sql/query", "sql/execute"), ("trask", "trading")}
  {
  }

  /** No path is in two families of the manifest, so trying them in order is trying
      them all. */
  lemma ManifestIsDisjoint()
    ensures Disjoint(Manifest())
  {
    var rules := Manifest();
    forall i, j, n | 0 <= i < |rules| && 0 <= j < |rules| && InFamily(n, rules[i]) && InFamily(n, rules[j])
      ensures i == j
    {
      PrefixesAreBare(i);
      PrefixesAreBare(j);
      if i < j {
        DistinctFamilies(n, i, j);
      } else if j < i {
        DistinctFamilies(n, j, i);
      }
    }
  }

  // --------------------------------------------------------------- upstream

  type Byte = b: int | 0 <= b < 256

  /** UTF-8 of one character. */
  function Utf8(c: char): (bytes: seq<Byte>)
    ensures |bytes| >= 1 && (c as int < 128 ==> bytes == [c as int])
  {
    var n := c as int;
    if n < 0x80 then [n]
    else if n < 0x800 then [0xC0 + n / 64, 0x80 + n % 64]
    else if n < 0x10000 then [0xE0 + n / 4096, 0x80 + n / 64 % 64, 0x80 + n % 64]
    else [0xF0 + n / 262144, 0x80 + n / 4096 % 64, 0x80 + n / 64 % 64, 0x80 + n % 64]
  }

  function Utf8All(s: string): seq<Byte> {
    if s == "" then [] else Utf8(s[0]) + Utf8All(s[1..])
  }

  predicate Unreserved(c: char) {
    'A' <= c <= 'Z' || 'a' <= c <= 'z' || '0' <= c <= '9' || c == '-' || c == '_' || c == '.' || c == '~'
  }

  function HexDigit(n: nat): (c: char)
    requires n < 16
    ensures Unreserved(c)
  {
    if n < 10 then ('0' as int + n) as char else ('A' as int + n - 10) as char
  }

  function HexValue(c: char): (n: Option<nat>)
    ensures n.Some? ==> n.value < 16
  {
    if '0' <= c <= '9' then Some(c as int - '0' as int)
    else if 'A' <= c <= 'F' then Some(c as int - 'A' as int + 10)
    else None
  }

  function EscapeByte(b: Byte): (q: string)
    ensures |q| == 3 && forall c :: c in q ==> Unreserved(c) || c == '%'
  {
    ['%', HexDigit(b / 16), HexDigit(b % 16)]
  }

  function Escape(bytes: seq<Byte>): string {
    if bytes == [] then "" else EscapeByte(bytes[0]) + Escape(bytes[1..])
  }

  function QuoteChar(c: char): (q: string)
    ensures c != '/' ==> Free(q, '/')
    ensures forall d :: d in q ==> SafeChar(d)
  {
    EscapeIsSafe(Utf8(c));
    if Unreserved(c) || c == '/' then [c] else Escape(Utf8(c))
  }

  /** quote(s, safe="/"). */
  function Quote(s: string): string {
    if s == "" then "" else QuoteChar(s[0]) + Quote(s[1..])
  }

  /** The byte an escape at the start of the text stands for. */
  function Escaped(s: string): (b: Option<Byte>)
    ensures b.Some? ==> |s| >= 3
  {
    if |s| < 3 || s[0] != '%' || HexValue(s[1]).None? || HexValue(s[2]).None? then None
    else Some(HexValue(s[1]).value * 16 + HexValue(s[2]).value)
  }

  /** What the upstream reads: escapes are bytes, every other character is itself. */
  function Unquote(s: string): seq<Byte> {
    if s == "" then []
    else if Escaped(s).Some? then [Escaped(s).value] + Unquote(s[3..])
    else Utf8(s[0]) + Unquote(s[1..])
  }

  lemma HexRoundTrip(n: nat)
    requires n < 16
    ensures HexValue(HexDigit(n)) == Some(n)
  {
  }

  lemma EscapedByte(b: Byte, tail: string)
    ensures Escaped(EscapeByte(b) + tail) == Some(b)
  {
    HexRoundTrip(b / 16);
    HexRoundTrip(b % 16);
    assert b / 16 * 16 + b % 16 == b;
  }

  lemma UnquoteOneByte(b: Byte, tail: string)
    ensures Unquote(EscapeByte(b) + tail) == [b] + Unquote(tail)
  {
    EscapedByte(b, tail);
    assert (EscapeByte(b) + tail)[3..] == tail;
  }

  lemma {:induction false} UnquoteOfEscape(bytes: seq<Byte>, tail: string)
    ensures Unquote(Escape(bytes) + tail) == bytes + Unquote(tail)
  {
    if bytes == [] {
      assert Escape(bytes) + tail == tail;
    } else {
      UnquoteOfEscape(bytes[1..], tail);
      UnquoteOneMore(bytes, tail);
    }
  }

  lemma UnquoteOneMore(bytes: seq<Byte>, tail: string)
    requires bytes != [] && Unquote(Escape(bytes[1..]) + tail) == bytes[1..] + Unquote(tail)
    ensures Unquote(Escape(bytes) + tail) == bytes + Unquote(tail)
  {
    var rest, decoded := Escape(bytes[1..]) + tail, Unquote(tail);
    EscapeOneMore(bytes, tail);
    UnquoteOneByte(bytes[0], rest);
    Regroup(bytes, decoded);
  }

  lemma Regroup(bytes: seq<Byte>, more: seq<Byte>)
    requires bytes != []
    ensures [bytes[0]] + (bytes[1..] + more) == bytes + more
  {
  }

  lemma EscapeOneMore(bytes: seq<Byte>, tail: string)
    requires bytes != []
    ensures Escape(bytes) + tail == EscapeByte(bytes[0]) + (Escape(bytes[1..]) + tail)
  {
  }

  /** The upstream reads the bytes of the path that was checked. */
  lemma {:induction false} UnquoteOfQuote(s: string)
    ensures Unquote(Quote(s)) == Utf8All(s)
  {
    if s == "" {
    } else {
      UnquoteOfQuote(s[1..]);
      if Unreserved(s[0]) || s[0] == '/' {
        assert Quote(s)[1..] == Quote(s[1..]);
      } else {
        UnquoteOfEscape(Utf8(s[0]), Quote(s[1..]));
      }
    }
  }

  predicate SafeChar(c: char) {
    Unreserved(c) || c == '/' || c == '%'
  }

  lemma {:induction false} EscapeIsSafe(bytes: seq<Byte>)
    ensures forall c :: c in Escape(bytes) ==> Unreserved(c) || c == '%'
  {
    if bytes == [] {
    } else {
      EscapeIsSafe(bytes[1..]);
    }
  }

  /** Letters, digits, the four marks and slashes are sent as they are. */
  lemma {:induction false} UnreservedStays(s: string)
    requires forall c :: c in s ==>
      'a' <= c <= 'z' || 'A' <= c <= 'Z' || '0' <= c <= '9' || c in {'-', '_', '.', '~', '/'}
    ensures Quote(s) == s
  {
    if s == "" {
    } else {
      assert s[0] in s && forall c :: c in s[1..] ==> c in s;
      UnreservedStays(s[1..]);
    }
  }

  /** The encoded path ends neither the path (a question mark) nor the URL (a hash). */
  lemma {:induction false} QuoteIsSafe(s: string)
    ensures forall c :: c in Quote(s) ==> SafeChar(c)
    ensures Free(Quote(s), '?') && Free(Quote(s), '#')
  {
    if s == "" {
    } else {
      QuoteIsSafe(s[1..]);
    }
  }

  function QuoteEach(parts: seq<string>): (r: seq<string>)
    ensures |r| == |parts| && forall k :: 0 <= k < |parts| ==> r[k] == Quote(parts[k])
  {
    seq(|parts|, i requires 0 <= i < |parts| => Quote(parts[i]))
  }

  /** The segments of the encoded path are the segments of the checked one, encoded. */
  lemma {:induction false} SegmentsOfQuote(s: string)
    ensures Split(Quote(s), '/') == QuoteEach(Split(s, '/'))
  {
    if s == "" {
    } else {
      SegmentsOfQuote(s[1..]);
      if s[0] == '/' {
        assert Quote(s)[1..] == Quote(s[1..]);
        QuoteEachOfSlash(Split(s[1..], '/'));
      } else {
        SplitAfterFree(QuoteChar(s[0]), Quote(s[1..]), '/');
        QuoteEachOfChar(s[0], Split(s[1..], '/'));
      }
    }
  }

  lemma QuoteEachOfSlash(rest: seq<string>)
    ensures QuoteEach([""] + rest) == [""] + QuoteEach(rest)
  {
  }

  lemma QuoteEachOfChar(c: char, rest: seq<string>)
    requires rest != [] && c != '/'
    ensures QuoteEach([[c] + rest[0]] + rest[1..]) == [QuoteChar(c) + QuoteEach(rest)[0]] + QuoteEach(rest)[1..]
  {
    assert ([c] + rest[0])[1..] == rest[0];
  }

  // ------------------------------------------------ bytes determine the text

  /** How many bytes the character takes, by the first of them. */
  function Utf8Length(lead: Byte): nat {
    if lead < 0x80 then 1 else if lead < 0xE0 then 2 else if lead < 0xF0 then 3 else 4
  }

  /** The code point that the bytes of one character spell. */
  function CodePoint(bytes: seq<Byte>): int
    requires 1 <= |bytes| <= 4
  {
    var units := seq(|bytes|, i requires 0 <= i < |bytes| => bytes[i] as int);
    match |bytes|
    case 1 => units[0]
    case 2 => (units[0] - 0xC0) * 64 + (units[1] - 0x80)
    case 3 => (units[0] - 0xE0) * 4096 + (units[1] - 0x80) * 64 + (units[2] - 0x80)
    case _ => (units[0] - 0xF0) * 262144 + (units[1] - 0x80) * 4096 + (units[2] - 0x80) * 64 + (units[3] - 0x80)
  }

  lemma SixBitsAtATime(n: nat)
    ensures n == n / 64 * 64 + n % 64
    ensures n == n / 4096 * 4096 + n / 64 % 64 * 64 + n % 64
    ensures n == n / 262144 * 262144 + n / 4096 % 64 * 4096 + n / 64 % 64 * 64 + n % 64
  {
    assert n / 64 / 64 == n / 4096;
    assert n / 4096 / 64 == n / 262144;
  }

  lemma Utf8IsRead(c: char)
    ensures |Utf8(c)| == Utf8Length(Utf8(c)[0]) <= 4 && CodePoint(Utf8(c)) == c as int
    ensures var n := c as int;
      |Utf8(c)| == if n < 0x80 then 1 else if n < 0x800 then 2 else if n < 0x10000 then 3 else 4
    ensures forall k :: 0 < k < |Utf8(c)| ==> 0x80 <= Utf8(c)[k] < 0xC0
  {
    SixBitsAtATime(c as int);
  }

  /** Characters are read off the bytes one by one: no code is the start of another. */
  lemma Utf8IsPrefixFree(c: char, d: char, x: seq<Byte>, y: seq<Byte>)
    requires Utf8(c) + x == Utf8(d) + y
    ensures c == d && x == y
  {
    Utf8IsRead(c);
    Utf8IsRead(d);
    var n := |Utf8(c)|;
    assert Utf8(c)[0] == (Utf8(c) + x)[0] == (Utf8(d) + y)[0] == Utf8(d)[0];
    assert Utf8(c) == (Utf8(c) + x)[..n] == (Utf8(d) + y)[..n] == Utf8(d);
    assert x == (Utf8(c) + x)[n..] == (Utf8(d) + y)[n..] == y;
  }

  lemma {:induction false} BytesDetermineTheText(a: string, b: string)
    requires Utf8All(a) == Utf8All(b)
    ensures a == b
  {
    if a == "" || b == "" {
    } else {
      Utf8IsPrefixFree(a[0], b[0], Utf8All(a[1..]), Utf8All(b[1..]));
      BytesDetermineTheText(a[1..], b[1..]);
      assert a == [a[0]] + a[1..] && b == [b[0]] + b[1..];
    }
  }

  /** The bytes are the UTF-8 of `s`, and of no other text. */
  ghost predicate ReadAs(bytes: seq<Byte>, s: string) {
    forall other :: Utf8All(other) == bytes <==> other == s
  }

  lemma QuotedIsReadAs(s: string)
    ensures ReadAs(Unquote(Quote(s)), s)
  {
    UnquoteOfQuote(s);
    forall other | Utf8All(other) == Utf8All(s) ensures other == s {
      BytesDetermineTheText(other, s);
    }
  }

  /** The bytes the upstream decodes from each segment of an encoded path. */
  function Decoded(sent: string): (r: seq<seq<Byte>>)
    ensures |r| == |Split(sent, '/')| && forall k :: 0 <= k < |r| ==> r[k] == Unquote(Split(sent, '/')[k])
  {
    var parts := Split(sent, '/');
    seq(|parts|, i requires 0 <= i < |parts| => Unquote(parts[i]))
  }

  ghost predicate ReadEach(decoded: seq<seq<Byte>>, segments: seq<string>) {
    |decoded| == |segments| && forall k :: 0 <= k < |decoded| ==> ReadAs(decoded[k], segments[k])
  }

  lemma DecodedIsReadAs(s: string)
    ensures ReadEach(Decoded(Quote(s)), Split(s, '/'))
  {
    SegmentsOfQuote(s);
    forall k | 0 <= k < |Split(s, '/')| ensures ReadAs(Unquote(Quote(Split(s, '/')[k])), Split(s, '/')[k]) {
      QuotedIsReadAs(Split(s, '/')[k]);
    }
  }

  lemma ReadInOneWay(decoded: seq<seq<Byte>>, a: seq<string>, b: seq<string>)
    requires ReadEach(decoded, a) && ReadEach(decoded, b)
    ensures a == b
  {
    forall k | 0 <= k < |a| ensures a[k] == b[k] {
      ReadAsOneText(decoded[k], a[k], b[k]);
    }
  }

  lemma ReadAsOneText(bytes: seq<Byte>, s: string, t: string)
    requires ReadAs(bytes, s) && ReadAs(bytes, t)
    ensures s == t
  {
    assert Utf8All(s) == bytes;
  }

  /** An allowed request reaches the upstream under a path that decodes, segment by
      segment, to the path that was checked and to no other text, and every segment
      of that is plain. */
  lemma UpstreamSeesTheCheckedPath(path: string, httpMethod: string)
    requires Allowed(Manifest(), path, httpMethod)
    ensures var n := Normalize(path).value;
      && ReadEach(Decoded(Quote(n)), Split(n, '/'))
      && (forall k :: 0 <= k < |Split(n, '/')| ==> PlainSegment(Split(n, '/')[k]))
      && Free(Quote(n), '?') && Free(Quote(n), '#')
  {
    var n := Normalize(path).value;
    NormalizeIsIdempotent(path);
    DecodedIsReadAs(n);
    QuoteIsSafe(n);
  }

  /** The upstream decodes two paths to the same segments only if they are one path. */
  lemma PathsAreToldApart(a: string, b: string)
    ensures Decoded(Quote(a)) == Decoded(Quote(b)) <==> a == b
  {
    if Decoded(Quote(a)) == Decoded(Quote(b)) {
      DecodedIsReadAs(a);
      DecodedIsReadAs(b);
      ReadInOneWay(Decoded(Quote(a)), Split(a, '/'), Split(b, '/'));
      SplitIsInjective(a, b, '/');
    }
  }
}
