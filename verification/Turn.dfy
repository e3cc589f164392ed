/** TURN usernames that carry their own key name, participant and expiry. */
module Turn {
  import opened Common
  import opened Decimal
  import Base62

  type Bytes = seq<Byte>

  /** UTF-8 both ways, and SHA-256. */
  datatype Codec = Codec(utf8: string -> Bytes, fromUtf8: Bytes -> Option<string>, sha256: Bytes -> Bytes)

  /** Decoding undoes encoding. */
  ghost predicate Exact(codec: Codec) {
    forall s :: codec.fromUtf8(codec.utf8(s)) == Some(s)
  }

  function Plain(a: string, participant: string, expiry: int): string {
    Join3(a, participant, Pad(0, expiry), '|')
  }

  function Username(codec: Codec, key: string, participant: string, expiry: int): Bytes {
    Base62.EncodedText(codec.utf8(Plain(key, participant, expiry)))
  }

  function Password(codec: Codec, secret: string, participant: string, expiry: int): Bytes {
    Base62.EncodedText(codec.sha256(codec.utf8(Plain(secret, participant, expiry))))
  }

  method TurnUsername(codec: Codec, key: string, participant: string, expiry: int) returns (name: Bytes)
    ensures name == Username(codec, key, participant, expiry)
  {
    name := Base62.Encode(codec.utf8(Plain(key, participant, expiry)));
  }

  method TurnPassword(codec: Codec, secret: string, participant: string, expiry: int) returns (word: Bytes)
    ensures word == Password(codec, secret, participant, expiry)
  {
    word := Base62.Encode(codec.sha256(codec.utf8(Plain(secret, participant, expiry))));
  }

  /** The password the server derives from decoded username bytes; None when
      there is no such user. */
  function Derived(codec: Codec, keys: map<string, string>, decoded: Bytes): Option<Bytes> {
    match codec.fromUtf8(decoded)
    case None => None
    case Some(text) =>
      var parts := Split(text, '|');
      if |parts| != 3 then None
      else
        match ParseInt(parts[2], I64_MIN, I64_MAX)
        case None => None
        case Some(expiry) =>
          if expiry == 0 || parts[0] !in keys then None
          else Some(Password(codec, keys[parts[0]], parts[1], expiry))
  }

  /** The authentication handler, for any username, up to the key derived from
      the password. */
  method AuthHandle(codec: Codec, keys: map<string, string>, username: Bytes) returns (r: Option<Bytes>)
    ensures r == match Base62.Decoded(username)
                 case None => None
                 case Some(decoded) => Derived(codec, keys, decoded)
  {
    var decoded := Base62.Decode(username);
    if decoded.None? {
      return None;
    }
    var text := codec.fromUtf8(decoded.value);
    if text.None? {
      return None;
    }
    var parts := Split(text.value, '|');
    if |parts| != 3 {
      return None;
    }
    var expiry := ParseInt(parts[2], I64_MIN, I64_MAX);
    if expiry.None? || expiry.value == 0 || parts[0] !in keys {
      return None;
    }
    var word := TurnPassword(codec, keys[parts[0]], parts[1], expiry.value);
    return Some(word);
  }

  // -------------------------------------------------------------------------
  // Separators
  // -------------------------------------------------------------------------

  function Occurrences(s: string, c: char): nat {
    if s == "" then 0 else (if s[0] == c then 1 else 0) + Occurrences(s[1..], c)
  }

  lemma {:induction false} SplitCounts(s: string, c: char)
    ensures |Split(s, c)| == Occurrences(s, c) + 1
  {
    if s == "" {
    } else {
      SplitCounts(s[1..], c);
    }
  }

  lemma {:induction false} OccurrencesConcat(a: string, b: string, c: char)
    ensures Occurrences(a + b, c) == Occurrences(a, c) + Occurrences(b, c)
  {
    if a == "" {
      assert a + b == b;
    } else {
      OccurrencesConcat(a[1..], b, c);
      assert (a + b)[1..] == a[1..] + b;
    }
  }

  lemma {:induction false} OccursIff(s: string, c: char)
    ensures Occurrences(s, c) > 0 <==> c in s
  {
    if s == "" {
    } else {
      OccursIff(s[1..], c);
    }
  }

  lemma JoinOccurrences(a: string, b: string, d: string, c: char)
    ensures Occurrences(Join3(a, b, d, c), c) == 2 + Occurrences(a, c) + Occurrences(b, c) + Occurrences(d, c)
  {
    OccurrencesConcat(a + [c], b + [c] + d, c);
    OccurrencesConcat(a, [c], c);
    OccurrencesConcat(b + [c], d, c);
    OccurrencesConcat(b, [c], c);
    assert Occurrences([c], c) == 1 by {
      assert [c][1..] == "";
    }
    assert Join3(a, b, d, c) == (a + [c]) + (b + [c] + d);
  }

  // -------------------------------------------------------------------------
  // Main result
  // -------------------------------------------------------------------------

  /** Credentials the server can resolve. */
  predicate Resolvable(keys: map<string, string>, key: string, participant: string, expiry: int) {
    '|' !in key && '|' !in participant && expiry != 0 && key in keys
  }

  /** From an issued username the server derives the issued password, exactly
      for a known key, a non-zero expiry and names without the separator; for
      any other the server knows no such user. */
  lemma IssuedCredentialsResolveIff(codec: Codec, keys: map<string, string>, key: string, participant: string, expiry: int)
    requires Exact(codec) && I64_MIN <= expiry <= I64_MAX
    ensures Derived(codec, keys, codec.utf8(Plain(key, participant, expiry)))
         == if Resolvable(keys, key, participant, expiry)
            then Some(Password(codec, keys[key], participant, expiry)) else None
  {
    var text := Plain(key, participant, expiry);
    assert codec.fromUtf8(codec.utf8(text)) == Some(text);
    SplitCounts(text, '|');
    JoinOccurrences(key, participant, Pad(0, expiry), '|');
    OccursIff(key, '|');
    OccursIff(participant, '|');
    PadText(0, expiry);
    if '|' !in key && '|' !in participant {
      SplitJoin3(key, participant, Pad(0, expiry), '|');
      ParsePad(0, expiry, I64_MIN, I64_MAX);
    }
  }

  /** The same through the text that travels. */
  method IssueThenAuthenticate(codec: Codec, keys: map<string, string>, key: string, participant: string, expiry: int)
    returns (name: Bytes, r: Option<Bytes>)
    requires Exact(codec) && I64_MIN <= expiry <= I64_MAX
    ensures name == Username(codec, key, participant, expiry)
    ensures r == if Resolvable(keys, key, participant, expiry)
                 then Some(Password(codec, keys[key], participant, expiry)) else None
  {
    name := TurnUsername(codec, key, participant, expiry);
    r := AuthHandle(codec, keys, name);
    Base62.DecodedOfEncoded(codec.utf8(Plain(key, participant, expiry)));
    IssuedCredentialsResolveIff(codec, keys, key, participant, expiry);
  }
}
