/** The deep link that survives a login round trip, at the level of bytes. */
module LoginLink {
  import opened Basics

  const SLASH: Byte := 0x2F
  const PERCENT: Byte := 0x25
  const PLUS: Byte := 0x2B
  const SPACE: Byte := 0x20

  /** `/admin` */
  const MOUNT: Bytes := [0x2F, 0x61, 0x64, 0x6D, 0x69, 0x6E]

  // ---- percent-encoding (section 2.1 of RFC 3986) --------------------------

  /** Bytes that stand for themselves: unreserved ones and the slash. */
  predicate Plain(b: Byte) {
    0x41 <= b <= 0x5A || 0x61 <= b <= 0x7A || 0x30 <= b <= 0x39 || b in {0x2F, 0x2D, 0x5F, 0x2E, 0x7E}
  }

  function Digit(n: int): Byte
    requires 0 <= n < 16
  {
    if n < 10 then (0x30 + n) as Byte else (0x41 + n - 10) as Byte
  }

  function EncodeByte(b: Byte): Bytes {
    if Plain(b) then [b] else [PERCENT, Digit(b as int / 16), Digit(b as int % 16)]
  }

  function Encode(s: Bytes): Bytes {
    if s == [] then [] else Encode(s[..|s| - 1]) + EncodeByte(s[|s| - 1])
  }

  method UrlEncode(s: Bytes) returns (out: Bytes)
    ensures out == Encode(s)
  {
    out := [];
    for i := 0 to |s|
      invariant out == Encode(s[..i])
    {
      assert s[..i + 1][..i] == s[..i];
      out := out + EncodeByte(s[i]);
    }
    assert s[..|s|] == s;
  }

  function HexValue(b: Byte): Option<int> {
    if 0x30 <= b <= 0x39 then Some(b as int - 0x30)
    else if 0x41 <= b <= 0x46 then Some(b as int - 0x41 + 10)
    else if 0x61 <= b <= 0x66 then Some(b as int - 0x61 + 10)
    else None
  }

  /** How a query string value is read back: escapes, and `+` for a space. A malformed escape stands for itself. */
  function Decode(s: Bytes): Bytes {
    if s == [] then []
    else if s[0] == PERCENT && |s| >= 3 && HexValue(s[1]).Some? && HexValue(s[2]).Some?
    then [(HexValue(s[1]).value * 16 + HexValue(s[2]).value) as Byte] + Decode(s[3..])
    else [if s[0] == PLUS then SPACE else s[0]] + Decode(s[1..])
  }

  lemma DecodeOne(b: Byte, rest: Bytes)
    ensures Decode(EncodeByte(b) + rest) == [b] + Decode(rest)
  {
  }

  lemma {:induction false} DecodeFront(s: Bytes, rest: Bytes)
    ensures Decode(Encode(s) + rest) == s + Decode(rest)
    decreases |s|
  {
    if s == [] {
      assert Encode(s) + rest == rest;
    } else {
      var n := |s| - 1;
      Regroup(Encode(s[..n]), EncodeByte(s[n]), rest);
      DecodeFront(s[..n], EncodeByte(s[n]) + rest);
      DecodeOne(s[n], rest);
      Regroup(s[..n], [s[n]], Decode(rest));
      assert s == s[..n] + [s[n]];
    }
  }

  /** Reading back what was written. */
  lemma DecodeUndoesEncode(s: Bytes)
    ensures Decode(Encode(s)) == s
  {
    DecodeFront(s, []);
    assert Encode(s) + [] == Encode(s) && s + Decode([]) == s;
  }

  /** The unreserved characters of section 2.3 of RFC 3986. */
  predicate Unreserved(b: Byte) {
    || 'A' as int <= b as int <= 'Z' as int || 'a' as int <= b as int <= 'z' as int
    || '0' as int <= b as int <= '9' as int
    || b as int in {'-' as int, '.' as int, '_' as int, '~' as int}
  }

  predicate UpperHex(b: Byte) {
    '0' as int <= b as int <= '9' as int || 'A' as int <= b as int <= 'F' as int
  }

  /** A byte stands for itself exactly when it is unreserved or a slash. */
  lemma StandsForItselfExactly(b: Byte)
    ensures EncodeByte(b) == [b] <==> Unreserved(b) || b as int == '/' as int
  {
  }

  /** Position `i` of an encoded value: an unreserved byte, a slash, or an escape with two upper-case digits. */
  predicate InertAt(out: Bytes, i: nat)
    requires i < |out|
  {
    if out[i] as int == '%' as int then i + 2 < |out| && UpperHex(out[i + 1]) && UpperHex(out[i + 2])
    else Unreserved(out[i]) || out[i] as int == '/' as int
  }

  predicate Delimits(b: Byte) {
    b as int in {'&' as int, '#' as int, '=' as int, '+' as int, '?' as int, ';' as int, ' ' as int}
  }

  /** Nothing in an encoded value can end it early, start a fragment, or read as a space in a query string. */
  lemma {:induction false} EncodedIsInert(s: Bytes)
    ensures forall i | 0 <= i < |Encode(s)| :: InertAt(Encode(s), i)
    ensures forall b | b in Encode(s) :: !Delimits(b)
    decreases |s|
  {
    if s != [] {
      var n := |s| - 1;
      EncodedIsInert(s[..n]);
      var front, last := Encode(s[..n]), EncodeByte(s[n]);
      forall i | 0 <= i < |Encode(s)| ensures InertAt(Encode(s), i) {
        if i < |front| {
          assert InertAt(front, i);
        }
      }
    }
  }

  // ---- the link ------------------------------------------------------------

  predicate UnderMount(path: Bytes) {
    MOUNT + [SLASH] <= path || path == MOUNT
  }

  /** The absolute path a login link carries for the path the router saw. */
  function Absolute(inner: Bytes): Bytes {
    if UnderMount(inner) then inner
    else if inner != [] && inner[0] == SLASH then MOUNT + inner
    else MOUNT + [SLASH]
  }

  function Sanitize(raw: Option<Bytes>): Bytes {
    if raw.Some? && UnderMount(raw.value) then raw.value else MOUNT + [SLASH]
  }

  predicate DefaultHome(path: Bytes) {
    path == MOUNT + [SLASH] || path == MOUNT
  }

  /** Where a login started at `inner` ends up. */
  function AfterLogin(inner: Bytes): Bytes {
    Sanitize(Some(Decode(Encode(Absolute(inner)))))
  }

  lemma AbsoluteIsUnderMount(inner: Bytes)
    ensures UnderMount(Absolute(inner))
  {
  }

  lemma RoundTripKeepsTheLink(inner: Bytes)
    ensures AfterLogin(inner) == Absolute(inner)
  {
    var absolute := Absolute(inner);
    AbsoluteIsUnderMount(inner);
    DecodeUndoesEncode(absolute);
  }

  /**
   Wherever a login link came from, the redirect stays below the mount: a path that begins with
   `/admin/`, or is `/admin`, is kept, and anything else becomes `/admin/`.
   */
  lemma RedirectStaysBelowTheMount(raw: Option<Bytes>)
    ensures var home, mount := [0x2F, 0x61, 0x64, 0x6D, 0x69, 0x6E, 0x2F], [0x2F, 0x61, 0x64, 0x6D, 0x69, 0x6E];
            && (home <= Sanitize(raw) || Sanitize(raw) == mount)
            && Sanitize(raw) == (if raw.Some? && (home <= raw.value || raw.value == mount) then raw.value else home)
  {
    assert MOUNT + [SLASH] == [0x2F, 0x61, 0x64, 0x6D, 0x69, 0x6E, 0x2F];
  }

  /** A path that does not begin with a slash goes home. */
  lemma UnrootedGoesHome(inner: Bytes)
    requires inner == [] || inner[0] != SLASH
    ensures AfterLogin(inner) == MOUNT + [SLASH]
  {
    RoundTripKeepsTheLink(inner);
  }

  /** A rooted path comes back mounted exactly when it does not itself look mounted. */
  lemma DeepLinkSurvivesExactly(inner: Bytes)
    requires inner != [] && inner[0] == SLASH
    ensures AfterLogin(inner) == MOUNT + inner <==> !UnderMount(inner)
  {
    RoundTripKeepsTheLink(inner);
    if UnderMount(inner) {
      assert |MOUNT + inner| != |inner|;
    }
  }

  /** Only the home path is taken for the default home, again unless the path itself looks mounted. */
  lemma HomeExactly(inner: Bytes)
    requires inner != [] && inner[0] == SLASH
    ensures DefaultHome(AfterLogin(inner)) <==> inner == [SLASH] || inner == MOUNT || inner == MOUNT + [SLASH]
  {
    RoundTripKeepsTheLink(inner);
    if !UnderMount(inner) {
      assert (MOUNT + inner)[|MOUNT|..] == inner;
      assert (MOUNT + [SLASH])[|MOUNT|..] == [SLASH];
      assert |MOUNT + inner| > |MOUNT|;
    }
  }

  /** A page below the mount whose own path begins with the mount is lost. */
  lemma MountedLookAlikeIsLost(rest: Bytes)
    ensures AfterLogin(MOUNT + [SLASH] + rest) == MOUNT + [SLASH] + rest
    ensures AfterLogin(MOUNT + [SLASH] + rest) != MOUNT + (MOUNT + [SLASH] + rest)
  {
    var inner := MOUNT + [SLASH] + rest;
    assert inner[..|MOUNT| + 1] == MOUNT + [SLASH];
    RoundTripKeepsTheLink(inner);
    assert |MOUNT + inner| != |inner|;
  }

  // ---- comparing secrets ---------------------------------------------------

  method ConstantTimeEq(a: seq<bv8>, b: seq<bv8>) returns (same: bool)
    ensures same <==> a == b
  {
    if |a| != |b| {
      return false;
    }
    var diff: bv8 := 0;
    for i := 0 to |a|
      invariant diff == 0 <==> a[..i] == b[..i]
    {
      OrXor(diff, a[i], b[i]);
      assert a[..i + 1] == a[..i] + [a[i]] && b[..i + 1] == b[..i] + [b[i]];
      diff := diff | (a[i] ^ b[i]);
    }
    assert a[..|a|] == a && b[..|a|] == b;
    return diff == 0;
  }

  lemma OrXor(d: bv8, x: bv8, y: bv8)
    ensures d | (x ^ y) == 0 <==> d == 0 && x == y
  {
  }
}
