/** Channel names of the psrpc bus: sanitization of one part, joining of parts
    and the four channel families built from them. */
module Channels {
  import Lists

  const SEPARATOR := '|'

  // -------------------------------------------------------------------------
  // Sanitization of one part
  // -------------------------------------------------------------------------

  predicate IsPlain(c: char) {
    'a' <= c <= 'z' || 'A' <= c <= 'Z' || '0' <= c <= '9' || c == '_'
  }

  function HexDigit(d: nat): char
    requires d < 16
  {
    if d < 10 then ('0' as int + d) as char else ('a' as int + d - 10) as char
  }

  /** The lower-case hexadecimal digits of `n`, zero-padded to `width`. */
  function Hex(n: nat, width: nat): string
    decreases width
  {
    if width == 0 then "" else Hex(n / 16, width - 1) + [HexDigit(n % 16)]
  }

  /** The escape forms `u+XXXX` and `U+XXXXXXXX` differ in marker and width. */
  function Marker(c: char): char {
    if c as int < 0x10000 then 'u' else 'U'
  }

  function Width(c: char): nat {
    if c as int < 0x10000 then 4 else 8
  }

  /** What `sanitize` emits for one character. */
  function Escape(c: char): string {
    if IsPlain(c) then [c] else [Marker(c), '+'] + Hex(c as int, Width(c))
  }

  function Sanitized(s: string): string {
    if s == "" then "" else Escape(s[0]) + Sanitized(s[1..])
  }

  method Sanitize(s: string) returns (out: string)
    ensures out == Sanitized(s)
  {
    out := "";
    for i := 0 to |s|
      invariant out + Sanitized(s[i..]) == Sanitized(s)
    {
      SanitizedStep(s, i);
      Lists.Regroup(out, Escape(s[i]), Sanitized(s[i + 1..]));
      out := out + Escape(s[i]);
    }
  }

  lemma SanitizedStep(s: string, i: nat)
    requires i < |s|
    ensures Sanitized(s[i..]) == Escape(s[i]) + Sanitized(s[i + 1..])
  {
    assert s[i..][1..] == s[i + 1..];
  }

  // The decoder below is the partner of `Sanitized`; psrpc itself never decodes.

  function HexValue(c: char): nat {
    if '0' <= c <= '9' then c as int - '0' as int
    else if 'a' <= c <= 'f' then c as int - 'a' as int + 10
    else 0
  }

  function Unhex(s: string): nat {
    if s == "" then 0 else Unhex(s[..|s| - 1]) * 16 + HexValue(s[|s| - 1])
  }

  function CharOf(n: nat): char {
    if 0 <= n < 0xD800 || 0xE000 <= n < 0x11_0000 then n as char else '?'
  }

  function Unsanitized(s: string): string
    decreases |s|
  {
    var w := if |s| >= 2 && s[1] == '+' && s[0] == 'u' then 4
             else if |s| >= 2 && s[1] == '+' && s[0] == 'U' then 8 else 0;
    if 0 < w <= |s| - 2 then [CharOf(Unhex(s[2..2 + w]))] + Unsanitized(s[2 + w..])
    else if s == "" then ""
    else [s[0]] + Unsanitized(s[1..])
  }

  function Pow16(n: nat): nat {
    if n == 0 then 1 else 16 * Pow16(n - 1)
  }

  lemma {:induction false} HexRoundTrip(n: nat, width: nat)
    requires n < Pow16(width)
    ensures |Hex(n, width)| == width
    ensures Unhex(Hex(n, width)) == n
    ensures forall c :: c in Hex(n, width) ==> IsPlain(c)
    decreases width
  {
    if width == 0 {
    } else {
      HexRoundTrip(n / 16, width - 1);
      var h := Hex(n / 16, width - 1);
      assert Hex(n, width)[..width - 1] == h;
    }
  }

  lemma EscapeHex(c: char)
    ensures var h := Hex(c as int, Width(c));
            |h| == Width(c) && Unhex(h) == c as int && forall x :: x in h ==> IsPlain(x)
  {
    assert Pow16(2) == 256 && Pow16(4) == 0x10000 && Pow16(6) == 0x100_0000 && Pow16(8) == 0x1_0000_0000;
    HexRoundTrip(c as int, Width(c));
  }

  lemma EscapeShape(c: char)
    ensures |Escape(c)| > 0 && IsPlain(Escape(c)[0])
    ensures SEPARATOR !in Escape(c)
  {
    EscapeHex(c);
  }

  lemma {:induction false} SanitizedShape(s: string)
    ensures SEPARATOR !in Sanitized(s)
    ensures s != "" ==> Sanitized(s) != "" && IsPlain(Sanitized(s)[0])
  {
    if s == "" {
    } else {
      EscapeShape(s[0]);
      SanitizedShape(s[1..]);
    }
  }

  lemma UnescapeStep(c: char, rest: string)
    requires rest == "" || IsPlain(rest[0])
    ensures Unsanitized(Escape(c) + rest) == [c] + Unsanitized(rest)
  {
    var s := Escape(c) + rest;
    if IsPlain(c) {
      assert s[1..] == rest;
    } else {
      var w, h := Width(c), Hex(c as int, Width(c));
      EscapeHex(c);
      assert s == [Marker(c), '+'] + h + rest;
      assert s[2..2 + w] == h && s[2 + w..] == rest;
    }
  }

  /** Sanitization loses nothing: it has a left inverse on all Unicode strings. */
  lemma {:induction false} SanitizeRoundTrip(s: string)
    ensures Unsanitized(Sanitized(s)) == s
  {
    if s == "" {
    } else {
      SanitizedShape(s[1..]);
      UnescapeStep(s[0], Sanitized(s[1..]));
      SanitizeRoundTrip(s[1..]);
    }
  }

  lemma SanitizeInjective(a: string, b: string)
    requires Sanitized(a) == Sanitized(b)
    ensures a == b
  {
    SanitizeRoundTrip(a);
    SanitizeRoundTrip(b);
  }

  // -------------------------------------------------------------------------
  // Joining parts
  // -------------------------------------------------------------------------

  function NonEmpty(parts: seq<string>): seq<string> {
    if parts == [] then []
    else (if parts[0] == "" then [] else [parts[0]]) + NonEmpty(parts[1..])
  }

  /** `|`-join of the sanitized parts. */
  function Join(parts: seq<string>): string {
    if parts == [] then ""
    else if |parts| == 1 then Sanitized(parts[0])
    else Sanitized(parts[0]) + [SEPARATOR] + Join(parts[1..])
  }

  function Channel(parts: seq<string>): string {
    Join(NonEmpty(parts))
  }

  lemma {:induction false} NonEmptyParts(parts: seq<string>)
    ensures AllNonEmpty(NonEmpty(parts))
  {
    if parts == [] {
    } else {
      NonEmptyParts(parts[1..]);
    }
  }

  lemma {:induction false} SplitAtSeparator(x: string, rest: string, y: string, rest': string)
    requires x + rest == y + rest'
    requires SEPARATOR !in x && SEPARATOR !in y
    requires rest == "" || rest[0] == SEPARATOR
    requires rest' == "" || rest'[0] == SEPARATOR
    ensures x == y && rest == rest'
  {
    var s, s' := x + rest, y + rest';
    assert x == "" ==> s == rest;
    assert y == "" ==> s' == rest';
    if x != "" && y != "" {
      assert s[0] == x[0] && s'[0] == y[0];
      assert s[1..] == x[1..] + rest && s'[1..] == y[1..] + rest';
      SplitAtSeparator(x[1..], rest, y[1..], rest');
      assert x == [x[0]] + x[1..] && y == [y[0]] + y[1..];
    }
  }

  function Tail(parts: seq<string>): string {
    if |parts| <= 1 then "" else [SEPARATOR] + Join(parts[1..])
  }

  predicate AllNonEmpty(parts: seq<string>) {
    forall i :: 0 <= i < |parts| ==> parts[i] != ""
  }

  lemma JoinHead(parts: seq<string>)
    requires parts != [] && AllNonEmpty(parts)
    ensures Join(parts) == Sanitized(parts[0]) + Tail(parts) && |Join(parts)| > 0
  {
    SanitizedShape(parts[0]);
  }

  lemma {:induction false} JoinInjective(a: seq<string>, b: seq<string>)
    requires AllNonEmpty(a) && AllNonEmpty(b)
    requires Join(a) == Join(b)
    ensures a == b
  {
    if a == [] {
      if b != [] {
        JoinHead(b);
      }
    } else if b == [] {
      JoinHead(a);
    } else {
      SameHead(a, b);
      SameTail(a, b);
      JoinInjective(a[1..], b[1..]);
      assert a == [a[0]] + a[1..] && b == [b[0]] + b[1..];
    }
  }

  lemma SameHead(a: seq<string>, b: seq<string>)
    requires a != [] && b != [] && AllNonEmpty(a) && AllNonEmpty(b) && Join(a) == Join(b)
    ensures a[0] == b[0] && Tail(a) == Tail(b)
  {
    JoinHead(a);
    JoinHead(b);
    SanitizedShape(a[0]);
    SanitizedShape(b[0]);
    SplitAtSeparator(Sanitized(a[0]), Tail(a), Sanitized(b[0]), Tail(b));
    SanitizeInjective(a[0], b[0]);
  }

  lemma SameTail(a: seq<string>, b: seq<string>)
    requires a != [] && b != [] && Tail(a) == Tail(b)
    ensures Join(a[1..]) == Join(b[1..])
  {
    assert |a| > 1 ==> Tail(a)[1..] == Join(a[1..]);
    assert |b| > 1 ==> Tail(b)[1..] == Join(b[1..]);
  }

  /** Two part lists name one channel exactly when they agree once empty parts
      are dropped. */
  lemma ChannelEqualIff(a: seq<string>, b: seq<string>)
    ensures Channel(a) == Channel(b) <==> NonEmpty(a) == NonEmpty(b)
  {
    NonEmptyParts(a);
    NonEmptyParts(b);
    if Channel(a) == Channel(b) {
      JoinInjective(NonEmpty(a), NonEmpty(b));
    }
  }

  // -------------------------------------------------------------------------
  // The four families
  // -------------------------------------------------------------------------

  function RpcChannel(service: string, rpc: string, topic: string): string {
    Channel([service, rpc, topic, "REQ"])
  }

  function ClaimResponseChannel(service: string, rpc: string, topic: string): string {
    Channel([service, rpc, topic, "RCLAIM"])
  }

  function ResponseChannel(service: string, clientId: string): string {
    Channel([service, clientId, "RES"])
  }

  function ClaimRequestChannel(service: string, clientId: string): string {
    Channel([service, clientId, "CLAIM"])
  }

  lemma NonEmptyThree(a: string, b: string, c: string)
    requires c != ""
    ensures NonEmpty([a, b, c])
         == (if a == "" then [] else [a]) + (if b == "" then [] else [b]) + [c]
  {
    assert [a, b, c][1..] == [b, c] && [b, c][1..] == [c];
    assert NonEmpty([c]) == [c];
  }

  lemma NonEmptyFour(a: string, b: string, c: string, d: string)
    requires d != ""
    ensures NonEmpty([a, b, c, d])
         == (if a == "" then [] else [a]) + (if b == "" then [] else [b])
          + (if c == "" then [] else [c]) + [d]
  {
    assert [a, b, c, d][1..] == [b, c, d];
    NonEmptyThree(b, c, d);
  }

  /** Each family is injective once service, method and client id are non-empty,
      although an empty topic is dropped from the name. */
  lemma TopicFamiliesInjective(s: string, m: string, t: string, s': string, m': string, t': string)
    requires s != "" && m != "" && s' != "" && m' != ""
    ensures RpcChannel(s, m, t) == RpcChannel(s', m', t') ==> s == s' && m == m' && t == t'
    ensures ClaimResponseChannel(s, m, t) == ClaimResponseChannel(s', m', t') ==> s == s' && m == m' && t == t'
  {
    NonEmptyFour(s, m, t, "REQ");
    NonEmptyFour(s', m', t', "REQ");
    NonEmptyFour(s, m, t, "RCLAIM");
    NonEmptyFour(s', m', t', "RCLAIM");
    ChannelEqualIff([s, m, t, "REQ"], [s', m', t', "REQ"]);
    ChannelEqualIff([s, m, t, "RCLAIM"], [s', m', t', "RCLAIM"]);
    SameParts(s, m, t, "REQ", s', m', t');
    SameParts(s, m, t, "RCLAIM", s', m', t');
  }

  lemma SameParts(s: string, m: string, t: string, d: string, s': string, m': string, t': string)
    ensures [s] + [m] + (if t == "" then [] else [t]) + [d] == [s'] + [m'] + (if t' == "" then [] else [t']) + [d]
        ==> s == s' && m == m' && t == t'
  {
    var a := [s] + [m] + (if t == "" then [] else [t]) + [d];
    var b := [s'] + [m'] + (if t' == "" then [] else [t']) + [d];
    if a == b {
      assert |a| == |b| && a[0] == b[0] && a[1] == b[1];
      if |a| == 4 {
        assert a[2] == b[2];
      }
    }
  }

  lemma SamePair(s: string, c: string, d: string, s': string, c': string)
    ensures [s] + [c] + [d] == [s'] + [c'] + [d] ==> s == s' && c == c'
  {
    var a, b := [s] + [c] + [d], [s'] + [c'] + [d];
    if a == b {
      assert a[0] == b[0] && a[1] == b[1];
    }
  }

  lemma ClientFamiliesInjective(s: string, c: string, s': string, c': string)
    requires s != "" && c != "" && s' != "" && c' != ""
    ensures ResponseChannel(s, c) == ResponseChannel(s', c') ==> s == s' && c == c'
    ensures ClaimRequestChannel(s, c) == ClaimRequestChannel(s', c') ==> s == s' && c == c'
  {
    NonEmptyThree(s, c, "RES");
    NonEmptyThree(s', c', "RES");
    NonEmptyThree(s, c, "CLAIM");
    NonEmptyThree(s', c', "CLAIM");
    ChannelEqualIff([s, c, "RES"], [s', c', "RES"]);
    ChannelEqualIff([s, c, "CLAIM"], [s', c', "CLAIM"]);
    SamePair(s, c, "RES", s', c');
    SamePair(s, c, "CLAIM", s', c');
  }

  function Last(parts: seq<string>): string {
    if parts == [] then "" else parts[|parts| - 1]
  }

  lemma {:induction false} LastSurvives(parts: seq<string>)
    requires parts != [] && Last(parts) != ""
    ensures NonEmpty(parts) != [] && Last(NonEmpty(parts)) == Last(parts)
  {
    if |parts| == 1 {
    } else {
      LastSurvives(parts[1..]);
    }
  }

  lemma DifferentLast(a: seq<string>, b: seq<string>)
    requires a != [] && b != [] && Last(a) != "" && Last(b) != "" && Last(a) != Last(b)
    ensures Channel(a) != Channel(b)
  {
    LastSurvives(a);
    LastSurvives(b);
    ChannelEqualIff(a, b);
  }

  /** The four families never share a name, whatever the parts are. */
  lemma FamiliesDisjoint(s: string, m: string, t: string, s': string, m': string, t': string,
                         u: string, c: string, u': string, c': string)
    ensures RpcChannel(s, m, t) != ClaimResponseChannel(s', m', t')
    ensures RpcChannel(s, m, t) != ResponseChannel(u, c)
    ensures RpcChannel(s, m, t) != ClaimRequestChannel(u, c)
    ensures ClaimResponseChannel(s, m, t) != ResponseChannel(u, c)
    ensures ClaimResponseChannel(s, m, t) != ClaimRequestChannel(u, c)
    ensures ResponseChannel(u, c) != ClaimRequestChannel(u', c')
  {
    DifferentLast([s, m, t, "REQ"], [s', m', t', "RCLAIM"]);
    DifferentLast([s, m, t, "REQ"], [u, c, "RES"]);
    DifferentLast([s, m, t, "REQ"], [u, c, "CLAIM"]);
    DifferentLast([s, m, t, "RCLAIM"], [u, c, "RES"]);
    DifferentLast([s, m, t, "RCLAIM"], [u, c, "CLAIM"]);
    DifferentLast([u, c, "RES"], [u', c', "CLAIM"]);
  }

  /** Without the non-empty method the request family is not injective: the
      method "" on topic "t" shares its channel with the method "t" on no topic. */
  lemma EmptyMethodCollides()
    ensures RpcChannel("s", "", "t") == RpcChannel("s", "t", "")
  {
    NonEmptyFour("s", "", "t", "REQ");
    NonEmptyFour("s", "t", "", "REQ");
  }
}
