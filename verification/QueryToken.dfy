/**
 The token in the query of a WebSocket request: percent-decoding (section 2.1 of RFC 3986) and
 the search for the `token` parameter, on bytes.
 */
module QueryToken {
  import opened Win32

  const PERCENT: Byte := 0x25
  const AMPERSAND: Byte := 0x26
  const PLUS: Byte := 0x2B
  const EQUALS: Byte := 0x3D
  const SPACE: Byte := 0x20

  /** The bytes of "token". */
  const TOKEN: seq<Byte> := [0x74, 0x6F, 0x6B, 0x65, 0x6E]

  lemma TokenSpelled()
    ensures |TOKEN| == |"token"| && forall k | 0 <= k < |TOKEN| :: TOKEN[k] == "token"[k] as int
  {
  }

  // ---------------------------------------------------------------- percent-decoding

  /** The value of a hexadecimal digit of either case. */
  function HexNibble(b: Byte): (r: Option<Byte>)
    ensures r.Some? ==> r.value < 16
  {
    if 0x30 <= b <= 0x39 then Some(b - 0x30)
    else if 0x61 <= b <= 0x66 then Some(b - 0x61 + 10)
    else if 0x41 <= b <= 0x46 then Some(b - 0x41 + 10)
    else None
  }

  /** The hexadecimal digit of a value below 16, in upper and in lower case. */
  function UpperDigit(n: Byte): Byte
    requires n < 16
  {
    [0x30, 0x31, 0x32, 0x33, 0x34, 0x35, 0x36, 0x37, 0x38, 0x39, 0x41, 0x42, 0x43, 0x44, 0x45, 0x46][n]
  }

  function LowerDigit(n: Byte): Byte
    requires n < 16
  {
    [0x30, 0x31, 0x32, 0x33, 0x34, 0x35, 0x36, 0x37, 0x38, 0x39, 0x61, 0x62, 0x63, 0x64, 0x65, 0x66][n]
  }

  /** Reading undoes printing in both cases, and nothing else is a digit. */
  lemma HexNibbleIff(b: Byte, n: Byte)
    requires n < 16
    ensures HexNibble(b) == Some(n) <==> b == UpperDigit(n) || b == LowerDigit(n)
  {
  }

  /** `s` starts with a percent sign and two hexadecimal digits. */
  predicate StartsEscape(s: Bytes)
  {
    |s| >= 3 && s[0] == PERCENT && HexNibble(s[1]).Some? && HexNibble(s[2]).Some?
  }

  function EscapeValue(s: Bytes): Byte
    requires StartsEscape(s)
  {
    HexNibble(s[1]).value * 16 + HexNibble(s[2]).value
  }

  function Decoded(s: Bytes): Bytes
  {
    if s == [] then []
    else if StartsEscape(s) then [EscapeValue(s)] + Decoded(s[3..])
    else [if s[0] == PLUS then SPACE else s[0]] + Decoded(s[1..])
  }

  /** `out` is what the bytes before `i` decode to. */
  ghost predicate DecodedUpTo(s: Bytes, out: Bytes, i: nat)
  {
    i <= |s| && |out| <= i && out + Decoded(s[i..]) == Decoded(s)
  }

  lemma EscapeDecoded(s: Bytes, out: Bytes, i: nat, h: Byte, l: Byte)
    requires DecodedUpTo(s, out, i) && i + 2 < |s| && s[i] == PERCENT
    requires HexNibble(s[i + 1]) == Some(h) && HexNibble(s[i + 2]) == Some(l)
    ensures h * 16 + l <= 255 && DecodedUpTo(s, out + [h * 16 + l], i + 3)
  {
    var rest := s[i..];
    assert StartsEscape(rest) && EscapeValue(rest) == h * 16 + l;
    assert rest[3..] == s[i + 3..];
    assert out + ([h * 16 + l] + Decoded(s[i + 3..])) == out + [h * 16 + l] + Decoded(s[i + 3..]);
  }

  lemma ByteDecoded(s: Bytes, out: Bytes, i: nat)
    requires DecodedUpTo(s, out, i) && i < |s|
    requires !(s[i] == PERCENT && i + 2 < |s| && HexNibble(s[i + 1]).Some? && HexNibble(s[i + 2]).Some?)
    ensures DecodedUpTo(s, out + [if s[i] == PLUS then SPACE else s[i]], i + 1)
  {
    var rest, b := s[i..], if s[i] == PLUS then SPACE else s[i];
    assert !StartsEscape(rest);
    assert rest[1..] == s[i + 1..];
    assert out + ([b] + Decoded(s[i + 1..])) == out + [b] + Decoded(s[i + 1..]);
  }

  /** The decoded bytes are how the text reads, and there are not more of them. */
  method PercentDecode(s: Bytes) returns (out: Bytes)
    ensures out == Decoded(s) && Reads(s, out)
    ensures |out| <= |s|
  {
    out := DecodeBytes(s);
    DecodedIff(s, out);
  }

  /** The byte loop. */
  method DecodeBytes(s: Bytes) returns (out: Bytes)
    ensures out == Decoded(s)
    ensures |out| <= |s|
  {
    out := [];
    var i := 0;
    assert s[0..] == s;
    while i < |s|
      invariant DecodedUpTo(s, out, i)
    {
      if s[i] == PERCENT && i + 2 < |s| {
        var h, l := HexNibble(s[i + 1]), HexNibble(s[i + 2]);
        if h.Some? && l.Some? {
          EscapeDecoded(s, out, i, h.value, l.value);
          out := out + [h.value * 16 + l.value];
          i := i + 3;
          continue;
        }
        ByteDecoded(s, out, i);
        out := out + [PERCENT];
        i := i + 1;
      } else if s[i] == PLUS {
        ByteDecoded(s, out, i);
        out := out + [SPACE];
        i := i + 1;
      } else {
        ByteDecoded(s, out, i);
        out := out + [s[i]];
        i := i + 1;
      }
    }
  }

  /** `e` starts with the escape of `b`: a percent sign and two hexadecimal digits of either case. */
  predicate EscapeOf(e: Bytes, b: Byte)
  {
    && |e| >= 3 && e[0] == 0x25
    && (e[1] == UpperDigit(b / 16) || e[1] == LowerDigit(b / 16))
    && (e[2] == UpperDigit(b % 16) || e[2] == LowerDigit(b % 16))
  }

  lemma Nibbles(h: Byte, l: Byte, b: Byte)
    requires h < 16 && l < 16
    ensures h * 16 + l == b <==> h == b / 16 && l == b % 16
  {
  }

  lemma EscapeIff(e: Bytes, b: Byte)
    ensures EscapeOf(e, b) <==> StartsEscape(e) && EscapeValue(e) == b
  {
    if |e| >= 3 {
      HexNibbleIff(e[1], b / 16);
      HexNibbleIff(e[2], b % 16);
      var h, l := HexNibble(e[1]), HexNibble(e[2]);
      if h.Some? && l.Some? {
        Nibbles(h.value, l.value, b);
      }
    }
  }

  /**
   `e` is one of the ways to write `t`: each byte is an escape of either hexadecimal case, a plus
   sign for a space, or the byte itself where that is not a percent or plus sign.
   */
  predicate Writes(e: Bytes, t: Bytes)
  {
    if t == [] then e == []
    else
      || (EscapeOf(e, t[0]) && Writes(e[3..], t[1..]))
      || (e != [] && e[0] == 0x2B && t[0] == 0x20 && Writes(e[1..], t[1..]))
      || (e != [] && e[0] == t[0] && e[0] != 0x25 && e[0] != 0x2B && Writes(e[1..], t[1..]))
  }

  /** Whatever encoder wrote it, decoding gives the text back. */
  lemma {:induction false} DecodeUndoesWriting(e: Bytes, t: Bytes)
    requires Writes(e, t)
    ensures Decoded(e) == t
    decreases |e|
  {
    if t == [] {
    } else if EscapeOf(e, t[0]) && Writes(e[3..], t[1..]) {
      EscapeIff(e, t[0]);
      DecodeUndoesWriting(e[3..], t[1..]);
    } else {
      DecodeUndoesWriting(e[1..], t[1..]);
    }
  }

  /** No byte at all is escaped at the start of `e`. */
  ghost predicate NoEscape(e: Bytes)
  {
    forall b: Byte :: !EscapeOf(e, b)
  }

  /**
   How any bytes are read, malformed ones included: an escape is its byte, a plus sign is a space,
   and all else stands for itself, a percent sign that starts no escape among it.
   */
  ghost predicate Reads(e: Bytes, t: Bytes)
    decreases |e|
  {
    if e == [] then t == []
    else
      && t != []
      && ((EscapeOf(e, t[0]) && Reads(e[3..], t[1..]))
          || (NoEscape(e) && t[0] == (if e[0] == 0x2B then 0x20 else e[0]) && Reads(e[1..], t[1..])))
  }

  /** Decoding is exactly that reading, for every byte string. */
  lemma {:induction false} DecodedIff(e: Bytes, t: Bytes)
    ensures Decoded(e) == t <==> Reads(e, t)
    decreases |e|
  {
    if e == [] {
    } else if StartsEscape(e) {
      EscapeIff(e, EscapeValue(e));
      if t != [] {
        EscapeIff(e, t[0]);
        DecodedIff(e[3..], t[1..]);
        assert Decoded(e) == [EscapeValue(e)] + Decoded(e[3..]);
        assert t == [t[0]] + t[1..];
      }
    } else {
      forall b: Byte ensures !EscapeOf(e, b) {
        EscapeIff(e, b);
      }
      if t != [] {
        DecodedIff(e[1..], t[1..]);
        assert t == [t[0]] + t[1..];
      }
    }
  }

  // ---------------------------------------------------------------- the frontend's encoder

  /** What encodeURIComponent leaves alone: letters, digits and - _ . ! ~ * ' ( ) */
  predicate Unreserved(b: Byte)
  {
    || 0x41 <= b <= 0x5A || 0x61 <= b <= 0x7A || 0x30 <= b <= 0x39
    || b == 0x2D || b == 0x5F || b == 0x2E || b == 0x21 || b == 0x7E
    || b == 0x2A || b == 0x27 || b == 0x28 || b == 0x29
  }

  function Encoded(t: Bytes): Bytes
  {
    if t == [] then []
    else
      (if Unreserved(t[0]) then [t[0]] else [PERCENT, UpperDigit(t[0] / 16), UpperDigit(t[0] % 16)]) +
      Encoded(t[1..])
  }

  lemma EscapeWritten(b: Byte, rest: Bytes)
    ensures var e := [PERCENT, UpperDigit(b / 16), UpperDigit(b % 16)] + rest;
            EscapeOf(e, b) && e[3..] == rest
    ensures AMPERSAND !in [PERCENT, UpperDigit(b / 16), UpperDigit(b % 16)]
  {
  }

  lemma {:induction false} EncodedWrites(t: Bytes)
    ensures Writes(Encoded(t), t)
    ensures AMPERSAND !in Encoded(t)
  {
    if t == [] {
    } else {
      var b, rest := t[0], Encoded(t[1..]);
      EncodedWrites(t[1..]);
      if Unreserved(b) {
        assert ([b] + rest)[1..] == rest;
      } else {
        EscapeWritten(b, rest);
      }
    }
  }

  // ---------------------------------------------------------------- finding the parameter

  function IndexOf(s: Bytes, b: Byte): (i: nat)
    ensures i <= |s|
    ensures i < |s| ==> s[i] == b
    ensures forall k | 0 <= k < i :: s[k] != b
  {
    if s == [] || s[0] == b then 0 else 1 + IndexOf(s[1..], b)
  }

  function Split(s: Bytes): seq<Bytes>
    decreases |s|
  {
    var i := IndexOf(s, AMPERSAND);
    if i == |s| then [s] else [s[..i]] + Split(s[i + 1..])
  }

  function Key(pair: Bytes): Bytes
  {
    pair[..IndexOf(pair, EQUALS)]
  }

  /** Everything after the first equals sign, or nothing. */
  function Value(pair: Bytes): Bytes
  {
    var i := IndexOf(pair, EQUALS);
    if i == |pair| then [] else pair[i + 1..]
  }

  /** The decoded value of the first parameter whose key is `token`. */
  function FirstToken(pairs: seq<Bytes>): Option<Bytes>
  {
    if pairs == [] then None
    else if Key(pairs[0]) == TOKEN then Some(Decoded(Value(pairs[0])))
    else FirstToken(pairs[1..])
  }

  method ExtractQueryToken(query: Option<Bytes>) returns (token: Option<Bytes>)
    ensures token == if query.None? then None else FirstToken(Split(query.value))
  {
    if query.None? {
      return None;
    }
    var pairs := Split(query.value);
    for n := 0 to |pairs|
      invariant FirstToken(pairs) == FirstToken(pairs[n..])
    {
      assert pairs[n..][1..] == pairs[n + 1..];
      var i := IndexOf(pairs[n], EQUALS);
      var key := pairs[n][..i];
      if key == TOKEN {
        var value := if i < |pairs[n]| then pairs[n][i + 1..] else [];
        var decoded := PercentDecode(value);
        return Some(decoded);
      }
    }
    return None;
  }

  /** Parameters joined by ampersands. */
  function Join(pairs: seq<Bytes>): Bytes
    requires pairs != []
  {
    if |pairs| == 1 then pairs[0] else pairs[0] + [AMPERSAND] + Join(pairs[1..])
  }

  predicate Plain(pairs: seq<Bytes>)
  {
    forall k | 0 <= k < |pairs| :: AMPERSAND !in pairs[k]
  }

  lemma IndexAfter(pre: Bytes, b: Byte, post: Bytes)
    requires b !in pre
    ensures IndexOf(pre + [b] + post, b) == |pre|
    ensures IndexOf(pre, b) == |pre|
  {
    var s, i := pre + [b] + post, IndexOf(pre + [b] + post, b);
    assert s[|pre|] == b;
    assert forall k | 0 <= k < |pre| :: s[k] == pre[k] && pre[k] != b;
  }

  lemma SplitFirst(pair: Bytes, rest: Bytes)
    requires AMPERSAND !in pair
    ensures Split(pair) == [pair]
    ensures Split(pair + [AMPERSAND] + rest) == [pair] + Split(rest)
  {
    IndexAfter(pair, AMPERSAND, rest);
    var s := pair + [AMPERSAND] + rest;
    assert s[..|pair|] == pair && s[|pair| + 1..] == rest;
  }

  lemma {:induction false} SplitUndoesJoin(pairs: seq<Bytes>)
    requires pairs != [] && Plain(pairs)
    ensures Split(Join(pairs)) == pairs
    decreases |pairs|
  {
    var pair, rest := pairs[0], pairs[1..];
    if |pairs| == 1 {
      SplitFirst(pair, []);
      assert pairs == [pair];
    } else {
      SplitUndoesJoin(rest);
      SplitFirst(pair, Join(rest));
      assert pairs == [pair] + rest;
    }
  }

  lemma {:induction false} SkipOthers(pre: seq<Bytes>, rest: seq<Bytes>)
    requires forall j | 0 <= j < |pre| :: Key(pre[j]) != TOKEN
    ensures FirstToken(pre + rest) == FirstToken(rest)
  {
    if pre == [] {
      assert pre + rest == rest;
    } else {
      assert (pre + rest)[1..] == pre[1..] + rest;
      SkipOthers(pre[1..], rest);
    }
  }

  lemma PlainTogether(pre: seq<Bytes>, pair: Bytes, post: seq<Bytes>)
    requires Plain(pre) && Plain(post) && AMPERSAND !in pair
    ensures Plain(pre + [pair] + post)
  {
  }

  lemma TokenFirst(pair: Bytes, post: seq<Bytes>)
    requires Key(pair) == TOKEN
    ensures FirstToken([pair] + post) == Some(Decoded(Value(pair)))
  {
    assert ([pair] + post)[0] == pair;
  }

  lemma FirstAmong(pre: seq<Bytes>, pair: Bytes, post: seq<Bytes>)
    requires Plain(pre) && Plain(post) && AMPERSAND !in pair && Key(pair) == TOKEN
    requires forall j | 0 <= j < |pre| :: Key(pre[j]) != TOKEN
    ensures FirstToken(Split(Join(pre + [pair] + post))) == Some(Decoded(Value(pair)))
  {
    PlainTogether(pre, pair, post);
    SplitUndoesJoin(pre + [pair] + post);
    FirstAfterOthers(pre, pair, post);
  }

  lemma FirstAfterOthers(pre: seq<Bytes>, pair: Bytes, post: seq<Bytes>)
    requires Key(pair) == TOKEN && forall j | 0 <= j < |pre| :: Key(pre[j]) != TOKEN
    ensures FirstToken(pre + [pair] + post) == Some(Decoded(Value(pair)))
  {
    SkipOthers(pre, [pair] + post);
    TokenFirst(pair, post);
    assert pre + [pair] + post == pre + ([pair] + post);
  }

  /**
   A token written in any valid way as the value of the first `token` parameter comes out as it
   was, whatever parameters stand before and after it.
   */
  lemma WrittenTokenFound(pre: seq<Bytes>, e: Bytes, t: Bytes, post: seq<Bytes>)
    requires Plain(pre) && Plain(post) && AMPERSAND !in e && Writes(e, t)
    requires forall j | 0 <= j < |pre| :: Key(pre[j]) != TOKEN
    ensures FirstToken(Split(Join(pre + [TOKEN + [EQUALS] + e] + post))) == Some(t)
  {
    TokenPair(e);
    FirstAmong(pre, TOKEN + [EQUALS] + e, post);
    DecodeUndoesWriting(e, t);
  }

  lemma TokenPair(e: Bytes)
    requires AMPERSAND !in e
    ensures var pair := TOKEN + [EQUALS] + e;
            Key(pair) == TOKEN && Value(pair) == e && AMPERSAND !in pair
  {
    assert EQUALS !in TOKEN && AMPERSAND !in TOKEN;
    IndexAfter(TOKEN, EQUALS, e);
    var pair := TOKEN + [EQUALS] + e;
    assert pair[..|TOKEN|] == TOKEN && pair[|TOKEN| + 1..] == e;
  }

  /** A parameter that is only the key has an empty token. */
  lemma BareToken(post: seq<Bytes>)
    requires Plain(post)
    ensures FirstToken(Split(Join([TOKEN] + post))) == Some([])
  {
    assert EQUALS !in TOKEN && AMPERSAND !in TOKEN;
    IndexAfter(TOKEN, EQUALS, []);
    assert TOKEN[..|TOKEN|] == TOKEN;
    FirstAmong([], TOKEN, post);
    assert [] + [TOKEN] + post == [TOKEN] + post;
  }

  /** So the token that the frontend puts into its socket URL is the one that the server compares. */
  lemma FrontendTokenFound(pre: seq<Bytes>, t: Bytes, post: seq<Bytes>)
    requires Plain(pre) && Plain(post)
    requires forall j | 0 <= j < |pre| :: Key(pre[j]) != TOKEN
    ensures FirstToken(Split(Join(pre + [TOKEN + [EQUALS] + Encoded(t)] + post))) == Some(t)
  {
    EncodedWrites(t);
    WrittenTokenFound(pre, Encoded(t), t, post);
  }

  /** A token is found exactly when some parameter is called `token`. */
  lemma {:induction false} TokenFoundIff(pairs: seq<Bytes>)
    ensures FirstToken(pairs).Some? <==> exists k :: 0 <= k < |pairs| && Key(pairs[k]) == TOKEN
  {
    if pairs == [] {
    } else {
      TokenFoundIff(pairs[1..]);
      if FirstToken(pairs[1..]).Some? {
        var k :| 0 <= k < |pairs[1..]| && Key(pairs[1..][k]) == TOKEN;
        assert pairs[k + 1] == pairs[1..][k];
      }
      if k: nat :| 0 < k < |pairs| && Key(pairs[k]) == TOKEN {
        assert pairs[1..][k - 1] == pairs[k];
      }
    }
  }
}
