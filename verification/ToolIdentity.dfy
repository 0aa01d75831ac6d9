/**
 Names of tools that servers contribute: the canonical id that routes a call, and the projection
 of it that model providers accept.
 */
module ToolIdentity {
  import opened Wrappers

  datatype Identity = Identity(canonicalId: string, registryName: string, serverAlias: string,
                               toolName: string, effectiveToolName: string)

  datatype Input = Input(serverAlias: string, toolName: string, toolAlias: Option<string>)

  datatype Error = InvalidAlias | InvalidToolName | InvalidCanonicalId | Collision(incoming: Identity, existing: Identity)

  // --------------------------------------------------------------------- grammars

  predicate Lower(c: char) { 'a' <= c <= 'z' }

  predicate Upper(c: char) { 'A' <= c <= 'Z' }

  predicate Digit(c: char) { '0' <= c <= '9' }

  /** ^[a-z][a-z0-9-]*$ */
  predicate ServerAlias(s: string) {
    s != "" && Lower(s[0]) && forall c :: c in s ==> Lower(c) || Digit(c) || c == '-'
  }

  predicate ToolChar(c: char) {
    Lower(c) || Upper(c) || Digit(c) || c == '_' || c == '.' || c == '-'
  }

  /** ^[A-Za-z0-9_.-]{1,128}$ */
  predicate McpToolName(s: string) {
    1 <= |s| <= 128 && forall c :: c in s ==> ToolChar(c)
  }

  predicate RegistryChar(c: char) {
    Lower(c) || Upper(c) || Digit(c) || c == '_' || c == '-'
  }

  /** ^[a-zA-Z0-9_-]+$ */
  predicate RegistryName(s: string) {
    s != "" && forall c :: c in s ==> RegistryChar(c)
  }

  predicate LineEnd(c: char) {
    c == '\n' || c == '\r' || c == '\U{2028}' || c == '\U{2029}'
  }

  predicate Space(c: char) {
    || c == ' ' || c == '\t' || c == '\U{000B}' || c == '\U{000C}' || LineEnd(c)
    || c == '\U{00A0}' || c == '\U{FEFF}' || c == '\U{1680}' || '\U{2000}' <= c <= '\U{200A}'
    || c == '\U{202F}' || c == '\U{205F}' || c == '\U{3000}'
  }

  function Trim(s: string): string
    decreases |s|
  {
    if s == "" then "" else if Space(s[0]) then Trim(s[1..])
    else if Space(s[|s| - 1]) then Trim(s[..|s| - 1]) else s
  }

  lemma {:induction false} TrimTwice(s: string)
    ensures Trim(Trim(s)) == Trim(s)
    decreases |s|
  {
    if s != "" {
      if Space(s[0]) {
        TrimTwice(s[1..]);
      } else if Space(s[|s| - 1]) {
        TrimTwice(s[..|s| - 1]);
      }
    }
  }

  predicate AllSpace(s: string) {
    forall i :: 0 <= i < |s| ==> Space(s[i])
  }

  /** What is trimmed off is space on both sides. */
  predicate Surrounded(s: string, lo: nat, hi: nat) {
    && lo <= hi <= |s|
    && (forall i :: 0 <= i < lo ==> Space(s[i])) && (forall i :: hi <= i < |s| ==> Space(s[i]))
  }

  lemma {:induction false} TrimIs(s: string) returns (lo: nat, hi: nat)
    ensures Surrounded(s, lo, hi) && Trim(s) == s[lo..hi]
    decreases |s|
  {
    lo, hi := 0, |s|;
    if s != "" {
      if Space(s[0]) {
        lo, hi := TrimIs(s[1..]);
        lo, hi := lo + 1, hi + 1;
      } else if Space(s[|s| - 1]) {
        lo, hi := TrimIs(s[..|s| - 1]);
      }
    }
  }

  lemma {:induction false} TrimEnds(s: string)
    ensures Trim(s) != "" ==> !Space(Trim(s)[0]) && !Space(Trim(s)[|Trim(s)| - 1])
    decreases |s|
  {
    if s != "" {
      if Space(s[0]) {
        TrimEnds(s[1..]);
      } else if Space(s[|s| - 1]) {
        TrimEnds(s[..|s| - 1]);
      }
    }
  }

  lemma BlankIs(s: string)
    ensures Trim(s) == "" <==> AllSpace(s)
  {
    var lo, hi := TrimIs(s);
    TrimEnds(s);
    if Trim(s) != "" {
      assert s[lo] == Trim(s)[0];
    }
  }

  const PREFIX := "mcp."

  function IndexOf(s: string, c: char): (i: nat)
    ensures i <= |s| && (i < |s| ==> s[i] == c) && forall k :: 0 <= k < i ==> s[k] != c
  {
    if s == "" || s[0] == c then 0 else 1 + IndexOf(s[1..], c)
  }

  /** ^mcp\.[a-z][a-z0-9-]*\..+$ */
  predicate CanonicalId(s: string) {
    |s| >= 4 && s[..4] == PREFIX &&
    var dot := IndexOf(s[4..], '.');
    dot + 1 < |s| - 4 && ServerAlias(s[4..][..dot]) && forall c :: c in s[4 + dot + 1..] ==> !LineEnd(c)
  }

  // ---------------------------------------------------------------- registry name

  function DotsOut(s: string): string {
    if s == "" then "" else (if s[0] == '.' then "__" else [s[0]]) + DotsOut(s[1..])
  }

  function Utf8(c: char): seq<nat> {
    var n := c as int;
    if n < 0x80 then [n]
    else if n < 0x800 then [0xC0 + n / 0x40, 0x80 + n % 0x40]
    else if n < 0x1_0000 then [0xE0 + n / 0x1000, 0x80 + n / 0x40 % 0x40, 0x80 + n % 0x40]
    else [0xF0 + n / 0x4_0000, 0x80 + n / 0x1000 % 0x40, 0x80 + n / 0x40 % 0x40, 0x80 + n % 0x40]
  }

  function Bytes(s: string): seq<nat> {
    if s == "" then [] else Utf8(s[0]) + Bytes(s[1..])
  }

  const TWO_64: nat := 0x1_0000_0000_0000_0000
  const FNV_OFFSET: nat := 0xcbf2_9ce4_8422_2325
  const FNV_PRIME: nat := 0x100_0000_01b3

  /** XOR of a number with a byte. */
  function XorByte(hash: nat, byte: nat): nat {
    hash - hash % 256 + ((hash % 256) as bv8 ^ (byte % 256) as bv8) as nat
  }

  function Mix(hash: nat, byte: nat): (h: nat)
    ensures h < TWO_64
  {
    XorByte(hash, byte) * FNV_PRIME % TWO_64
  }

  /** The 64-bit FNV-1a hash of the bytes. */
  function Fnv1a(bytes: seq<nat>): (h: nat)
    ensures h < TWO_64
  {
    if bytes == [] then FNV_OFFSET else Mix(Fnv1a(bytes[..|bytes| - 1]), bytes[|bytes| - 1])
  }

  function HexChar(d: nat): (c: char)
    requires d < 16
    ensures Lower(c) || Digit(c)
  {
    if d < 10 then ('0' as int + d) as char else ('a' as int + d - 10) as char
  }

  function ToHex(n: nat): (s: string)
    ensures s != "" && forall c :: c in s ==> Lower(c) || Digit(c)
  {
    if n < 16 then [HexChar(n)] else ToHex(n / 16) + [HexChar(n % 16)]
  }

  function PadStart(s: string, width: nat): (t: string)
    ensures |t| == if |s| >= width then |s| else width
    ensures (forall c :: c in s ==> Lower(c) || Digit(c)) ==> forall c :: c in t ==> Lower(c) || Digit(c)
    decreases width - |s|
  {
    if |s| >= width then s else PadStart("0" + s, width)
  }

  method RoutingSuffix(value: string) returns (suffix: string)
    ensures suffix == PadStart(ToHex(Fnv1a(Bytes(value))), 16)
  {
    var bytes := Bytes(value);
    var hash := FNV_OFFSET;
    for i := 0 to |bytes|
      invariant hash == Fnv1a(bytes[..i])
    {
      assert bytes[..i + 1][..i] == bytes[..i];
      hash := XorByte(hash, bytes[i]) * FNV_PRIME % TWO_64;
    }
    assert bytes[..|bytes|] == bytes;
    suffix := PadStart(ToHex(hash), 16);
  }

  function ToRegistryToolName(canonicalId: string): Result<string, Error> {
    var raw := DotsOut(canonicalId);
    var projected := if |raw| <= 64 then raw else raw[..47] + "_" + PadStart(ToHex(Fnv1a(Bytes(canonicalId))), 16);
    if RegistryName(projected) then Ok(projected) else Err(InvalidToolName)
  }

  // ------------------------------------------------------------- building, parsing

  function NormalizeServerAlias(value: string): Result<string, Error> {
    if ServerAlias(Trim(value)) then Ok(Trim(value)) else Err(InvalidAlias)
  }

  function NormalizeToolName(value: string): Result<string, Error> {
    if McpToolName(value) then Ok(value) else Err(InvalidToolName)
  }

  function CanonicalOf(serverAlias: string, effective: string): string {
    PREFIX + (serverAlias + ("." + effective))
  }

  function Build(input: Input): Result<Identity, Error> {
    match NormalizeServerAlias(input.serverAlias)
    case Err(e) => Err(e)
    case Ok(serverAlias) =>
      match NormalizeToolName(input.toolName)
      case Err(e) => Err(e)
      case Ok(toolName) =>
        match if input.toolAlias.None? then Ok(toolName) else NormalizeToolName(input.toolAlias.value)
        case Err(e) => Err(e)
        case Ok(effective) =>
          var canonicalId := CanonicalOf(serverAlias, effective);
          if !CanonicalId(canonicalId) then Err(InvalidCanonicalId)
          else
            match ToRegistryToolName(canonicalId)
            case Err(e) => Err(e)
            case Ok(registryName) => Ok(Identity(canonicalId, registryName, serverAlias, toolName, effective))
  }

  datatype Parsed = Parsed(serverAlias: string, effectiveToolName: string)

  function Parse(canonicalId: string): Result<Parsed, Error> {
    if !CanonicalId(canonicalId) then Err(InvalidCanonicalId)
    else
      var rest := canonicalId[4..];
      var split := IndexOf(rest, '.');
      if split == 0 || split >= |rest| - 1 then Err(InvalidCanonicalId)
      else
        match NormalizeServerAlias(rest[..split])
        case Err(e) => Err(e)
        case Ok(serverAlias) =>
          match NormalizeToolName(rest[split + 1..])
          case Err(e) => Err(e)
          case Ok(effective) => Ok(Parsed(serverAlias, effective))
  }

  // ---------------------------------------------------------------- what they keep

  lemma AliasIsTrimmed(s: string)
    requires ServerAlias(s)
    ensures Trim(s) == s
  {
    assert s[0] in s && s[|s| - 1] in s;
  }

  lemma {:induction false} IndexAfter(a: string, tail: string)
    requires '.' !in a
    ensures IndexOf(a + ("." + tail), '.') == |a|
  {
    if a == "" {
      assert a + ("." + tail) == "." + tail;
    } else {
      assert (a + ("." + tail))[1..] == a[1..] + ("." + tail);
      IndexAfter(a[1..], tail);
    }
  }

  lemma Halves(a: string, e: string, rest: string)
    requires rest == a + ("." + e) && '.' !in a
    ensures IndexOf(rest, '.') == |a| && rest[..|a|] == a && rest[|a| + 1..] == e && |rest| == |a| + 1 + |e|
  {
    IndexAfter(a, e);
  }

  lemma Rest(a: string, e: string, id: string)
    requires id == CanonicalOf(a, e)
    ensures |id| >= 4 && id[..4] == PREFIX && id[4..] == a + ("." + e)
  {
  }

  lemma CanonicalOfIsCanonical(a: string, e: string)
    requires ServerAlias(a) && McpToolName(e)
    ensures CanonicalId(CanonicalOf(a, e))
  {
    var id := CanonicalOf(a, e);
    Rest(a, e, id);
    Halves(a, e, id[4..]);
    assert id[4 + |a| + 1..] == id[4..][|a| + 1..];
  }

  /** A built id parses back to its alias and its tool name, whatever dots the name contains. */
  lemma ParseOfBuilt(a: string, e: string)
    requires ServerAlias(a) && McpToolName(e)
    ensures Parse(CanonicalOf(a, e)) == Ok(Parsed(a, e))
  {
    CanonicalOfIsCanonical(a, e);
    Rest(a, e, CanonicalOf(a, e));
    Halves(a, e, CanonicalOf(a, e)[4..]);
    AliasIsTrimmed(a);
  }

  /** Only such ids parse. */
  lemma ParsesOnlyBuilt(id: string)
    ensures Parse(id).Ok? ==>
              var p := Parse(id).value;
              ServerAlias(p.serverAlias) && McpToolName(p.effectiveToolName)
              && id == CanonicalOf(p.serverAlias, p.effectiveToolName)
  {
    if Parse(id).Ok? {
      var rest := id[4..];
      var split := IndexOf(rest, '.');
      AliasIsTrimmed(rest[..split]);
      assert rest == rest[..split] + ("." + rest[split + 1..]);
      assert id == id[..4] + rest;
    }
  }

  lemma CanonicalIsInjective(a: string, e: string, b: string, f: string)
    requires ServerAlias(a) && McpToolName(e) && ServerAlias(b) && McpToolName(f)
    ensures CanonicalOf(a, e) == CanonicalOf(b, f) <==> a == b && e == f
  {
    ParseOfBuilt(a, e);
    ParseOfBuilt(b, f);
  }

  function Power16(k: nat): nat {
    if k == 0 then 1 else 16 * Power16(k - 1)
  }

  lemma {:induction false} HexFits(n: nat, k: nat)
    requires k >= 1 && n < Power16(k)
    ensures |ToHex(n)| <= k
    decreases k
  {
    if n >= 16 {
      assert Power16(1) == 16 * Power16(0) == 16;
      HexFits(n / 16, k - 1);
    }
  }

  lemma SuffixIsSixteen(bytes: seq<nat>)
    ensures |PadStart(ToHex(Fnv1a(bytes)), 16)| == 16
  {
    assert Power16(4) == 0x1_0000;
    assert Power16(8) == 0x1_0000_0000;
    assert Power16(12) == 0x1_0000_0000_0000;
    assert Power16(16) == TWO_64;
    HexFits(Fnv1a(bytes), 16);
  }

  lemma {:induction false} DotsOutIsLegal(s: string)
    requires forall c :: c in s ==> ToolChar(c)
    ensures forall c :: c in DotsOut(s) ==> RegistryChar(c)
    ensures |DotsOut(s)| >= |s|
  {
    if s != "" {
      assert s[0] in s;
      DotsOutIsLegal(s[1..]);
    }
  }

  lemma LegalChars(a: string, e: string)
    requires ServerAlias(a) && McpToolName(e)
    ensures forall c :: c in CanonicalOf(a, e) ==> ToolChar(c)
  {
    assert forall c :: c in PREFIX ==> ToolChar(c);
  }

  /** Every canonical id has a registry name, legal and of at most 64 characters. */
  lemma RegistryNameExists(a: string, e: string)
    requires ServerAlias(a) && McpToolName(e)
    ensures var name := ToRegistryToolName(CanonicalOf(a, e));
            name.Ok? && RegistryName(name.value) && |name.value| <= 64
  {
    var id := CanonicalOf(a, e);
    LegalChars(a, e);
    DotsOutIsLegal(id);
    SuffixIsSixteen(Bytes(id));
  }

  predicate Accepts(input: Input) {
    ServerAlias(Trim(input.serverAlias)) && McpToolName(input.toolName)
    && (input.toolAlias.Some? ==> McpToolName(input.toolAlias.value))
  }

  function EffectiveName(input: Input): string {
    input.toolAlias.GetOr(input.toolName)
  }

  /**
   A tool gets an identity exactly if its alias and names are in the grammar: the checks of the
   canonical id and of its projection never fail. The identity routes back to the server and name.
   */
  lemma BuildIs(input: Input)
    ensures Build(input).Ok? <==> Accepts(input)
    ensures Build(input).Ok? ==>
              var identity := Build(input).value;
              && identity.serverAlias == Trim(input.serverAlias) && identity.toolName == input.toolName
              && identity.effectiveToolName == EffectiveName(input)
              && identity.canonicalId == CanonicalOf(identity.serverAlias, identity.effectiveToolName)
              && Parse(identity.canonicalId) == Ok(Parsed(identity.serverAlias, identity.effectiveToolName))
              && RegistryName(identity.registryName) && |identity.registryName| <= 64
  {
    if Accepts(input) {
      var a, e := Trim(input.serverAlias), EffectiveName(input);
      CanonicalOfIsCanonical(a, e);
      RegistryNameExists(a, e);
      ParseOfBuilt(a, e);
    }
  }

  // ------------------------------------------------------------ in characters alone

  predicate Word(c: char) {
    'a' <= c <= 'z' || '0' <= c <= '9' || c == '-'
  }

  /** `mcp.`, an alias, a dot and a tool name. */
  predicate Spelled(id: string, a: string, e: string) {
    && id == "mcp." + a + "." + e
    && 0 < |a| && 'a' <= a[0] <= 'z' && (forall i :: 0 <= i < |a| ==> Word(a[i]))
    && 0 < |e| < 129 && forall i :: 0 <= i < |e| ==> Word(e[i]) || 'A' <= e[i] <= 'Z' || e[i] == '_' || e[i] == '.'
  }

  lemma SpelledIs(id: string, a: string, e: string)
    ensures Spelled(id, a, e) <==> ServerAlias(a) && McpToolName(e) && id == CanonicalOf(a, e)
  {
    assert "mcp." + a + "." + e == CanonicalOf(a, e);
    if ServerAlias(a) && McpToolName(e) {
      assert forall i :: 0 <= i < |a| ==> a[i] in a;
      assert forall i :: 0 <= i < |e| ==> e[i] in e;
    }
  }

  /** An id parses exactly if it is so spelled, and to the alias and the name it is spelled with. */
  lemma ParsesIff(id: string, a: string, e: string)
    ensures Parse(id) == Ok(Parsed(a, e)) <==> Spelled(id, a, e)
  {
    SpelledIs(id, a, e);
    ParsesOnlyBuilt(id);
    if Spelled(id, a, e) {
      ParseOfBuilt(a, e);
    }
  }

  lemma ConsConcat(a: string, b: string, c: string)
    ensures a + (b + c) == (a + b) + c
  {
  }

  lemma {:induction false} DotsApart(x: string, y: string)
    ensures DotsOut(x + y) == DotsOut(x) + DotsOut(y)
  {
    if x == "" {
      assert x + y == y;
    } else {
      assert (x + y)[1..] == x[1..] + y && (x + y)[0] == x[0];
      DotsApart(x[1..], y);
      ConsConcat(if x[0] == '.' then "__" else [x[0]], DotsOut(x[1..]), DotsOut(y));
    }
  }

  lemma {:induction false} DotlessStays(x: string)
    requires '.' !in x
    ensures DotsOut(x) == x
  {
    if x != "" {
      DotlessStays(x[1..]);
      assert x == [x[0]] + x[1..];
    }
  }

  lemma OneDotOut(id: string, x: string, y: string)
    requires id == x + "." + y && '.' !in y
    ensures DotsOut(id) == DotsOut(x) + "__" + y
  {
    DotsApart(x + ".", y);
    DotsApart(x, ".");
    DotlessStays(y);
    assert DotsOut(".") == "__";
  }

  lemma CutIs(raw: string, suffix: string)
    requires |raw| > 64 && |suffix| == 16
    ensures |raw[..47] + "_" + suffix| == 64 && (raw[..47] + "_" + suffix)[..48] == raw[..47] + "_"
  {
  }

  /** The registry name of an id: never empty, of letters, digits, `_` and `-`, at most 64 of them; the id
      with `__` for each dot, if that is short enough, else its first 47 characters, `_` and 16 characters. */
  lemma RegistryNameIs(id: string, x: string, y: string)
    requires Parse(id).Ok? && id == x + "." + y && '.' !in y
    ensures var name := ToRegistryToolName(id);
            var long := DotsOut(x) + "__" + y;
            && name.Ok? && 0 < |name.value| < 65 && (forall c :: c in name.value ==> RegistryChar(c))
            && (|long| <= 64 ==> name.value == long)
            && (|long| > 64 ==> |name.value| == 64 && name.value[..48] == long[..47] + "_")
  {
    ParsesOnlyBuilt(id);
    var p := Parse(id).value;
    RegistryNameExists(p.serverAlias, p.effectiveToolName);
    OneDotOut(id, x, y);
    SuffixIsSixteen(Bytes(id));
    if |DotsOut(id)| > 64 {
      CutIs(DotsOut(id), PadStart(ToHex(Fnv1a(Bytes(id))), 16));
    }
  }
}
