/**
 The router side of the trusted-proxy user name: sixty-four lowercase hexadecimal
 digits (base 16, section 8 of RFC 4648), a dot, and a save slot.

 A Go string is a `string` here.  The source scans bytes where the model scans
 characters; the two differ only on names that are not ASCII, which both refuse.
 */
module ProxyProto {
  import opened Common

  type Digest = d: seq<Byte> | |d| == 32 witness seq(32, i => 0)

  const FP_HEX_LEN := 64
  const MAX_SLOT_LEN := 32
  const DEFAULT_SLOT := "default"

  /** The Unicode tables behind `strings.ToLower` and `unicode.IsSpace`. */
  datatype Unicode = Unicode(lower: char -> char, space: char -> bool)

  /** All that the sanitizer needs of them. */
  ghost predicate Lawful(u: Unicode) {
    && (forall c :: SlotChar(c) ==> u.lower(c) == c)
    && (forall c :: u.space(c) ==> !SlotChar(u.lower(c)))
  }

  type Tables = u: Unicode | Lawful(u) witness Unicode(c => c, c => false)

  predicate SlotChar(c: char) {
    'a' <= c <= 'z' || '0' <= c <= '9' || c == '-' || c == '_'
  }

  predicate HexChar(c: char) {
    '0' <= c <= '9' || 'a' <= c <= 'f'
  }

  /** The language of save slots. */
  predicate IsSlot(s: string) {
    1 <= |s| <= MAX_SLOT_LEN && forall i :: 0 <= i < |s| ==> SlotChar(s[i])
  }

  method ValidSlot(s: string) returns (ok: bool)
    ensures ok <==> IsSlot(s)
    ensures ok <==> 1 <= |s| <= 32
                    && forall i :: 0 <= i < |s| ==> 'a' <= s[i] <= 'z' || '0' <= s[i] <= '9' || s[i] in {'-', '_'}
  {
    if |s| < 1 || |s| > MAX_SLOT_LEN {
      return false;
    }
    for i := 0 to |s|
      invariant forall j :: 0 <= j < i ==> SlotChar(s[j])
    {
      if !SlotChar(s[i]) {
        return false;
      }
    }
    return true;
  }

  // ---------------------------------------------------------------- sanitizer

  function TrimLeft(u: Tables, s: string): string {
    if s != "" && u.space(s[0]) then TrimLeft(u, s[1..]) else s
  }

  function TrimRight(u: Tables, s: string): string {
    if s != "" && u.space(s[|s| - 1]) then TrimRight(u, s[..|s| - 1]) else s
  }

  function Lowered(u: Tables, s: string): string {
    seq(|s|, i requires 0 <= i < |s| => u.lower(s[i]))
  }

  /** The slot characters of the lowercased text, in order. */
  function Kept(u: Tables, s: string): string {
    if s == "" then ""
    else (if SlotChar(u.lower(s[0])) then [u.lower(s[0])] else "") + Kept(u, s[1..])
  }

  /** What the sanitizer computes: the first 32 slot characters of the lowercased input. */
  function Sanitized(u: Tables, raw: string): string {
    var kept := Kept(u, raw);
    if |kept| <= MAX_SLOT_LEN then kept else kept[..MAX_SLOT_LEN]
  }

  lemma {:induction false} KeptConcat(u: Tables, a: string, b: string)
    ensures Kept(u, a + b) == Kept(u, a) + Kept(u, b)
  {
    if a == "" {
      assert a + b == b;
    } else {
      KeptConcat(u, a[1..], b);
      assert (a + b)[0] == a[0] && (a + b)[1..] == a[1..] + b;
      var head := if SlotChar(u.lower(a[0])) then [u.lower(a[0])] else "";
      assert head + (Kept(u, a[1..]) + Kept(u, b)) == head + Kept(u, a[1..]) + Kept(u, b);
    }
  }

  /** One character is kept, lowercased, exactly when that makes it a slot character. */
  lemma KeptOfOne(u: Tables, c: char)
    ensures Kept(u, [c]) == if SlotChar(u.lower(c)) then [u.lower(c)] else ""
  {
    assert Kept(u, [c][1..]) == "";
  }

  lemma {:induction false} TrimLeftIsRedundant(u: Tables, s: string)
    ensures Kept(u, TrimLeft(u, s)) == Kept(u, s)
  {
    if s != "" && u.space(s[0]) {
      TrimLeftIsRedundant(u, s[1..]);
    }
  }

  lemma {:induction false} TrimRightIsRedundant(u: Tables, s: string)
    ensures Kept(u, TrimRight(u, s)) == Kept(u, s)
  {
    if s != "" && u.space(s[|s| - 1]) {
      TrimRightIsRedundant(u, s[..|s| - 1]);
      assert s == s[..|s| - 1] + [s[|s| - 1]];
      KeptConcat(u, s[..|s| - 1], [s[|s| - 1]]);
    }
  }

  /** Trims, lowercases, then copies slot characters until 32 are written. */
  method SanitizeSlot(u: Tables, raw: string) returns (slot: string)
    ensures slot == Sanitized(u, raw)
  {
    var trimmed := TrimRight(u, TrimLeft(u, raw));
    TrimLeftIsRedundant(u, raw);
    TrimRightIsRedundant(u, TrimLeft(u, raw));
    var text := Lowered(u, trimmed);
    if text == "" {
      return "";
    }
    slot := "";
    for i := 0 to |text|
      invariant |slot| < MAX_SLOT_LEN
      invariant slot == Kept(u, trimmed[..i])
    {
      KeptConcat(u, trimmed[..i], [trimmed[i]]);
      assert trimmed[..i + 1] == trimmed[..i] + [trimmed[i]];
      if !SlotChar(text[i]) {
        continue;
      }
      slot := slot + [text[i]];
      if |slot| >= MAX_SLOT_LEN {
        KeptConcat(u, trimmed[..i + 1], trimmed[i + 1..]);
        assert trimmed == trimmed[..i + 1] + trimmed[i + 1..];
        return;
      }
    }
    assert trimmed[..|text|] == trimmed;
  }

  lemma {:induction false} KeptIsClean(u: Tables, s: string)
    ensures forall i :: 0 <= i < |Kept(u, s)| ==> SlotChar(Kept(u, s)[i])
  {
    if s != "" {
      KeptIsClean(u, s[1..]);
    }
  }

  lemma {:induction false} KeptFixes(u: Tables, s: string)
    requires forall i :: 0 <= i < |s| ==> SlotChar(s[i])
    ensures Kept(u, s) == s
  {
    if s != "" {
      KeptFixes(u, s[1..]);
      assert u.lower(s[0]) == s[0];
      assert s == [s[0]] + s[1..];
    }
  }

  /** A sanitized name is empty or a valid slot, and sanitizing it again changes nothing. */
  lemma SanitizedIsSlot(u: Tables, raw: string)
    ensures Sanitized(u, raw) == "" || IsSlot(Sanitized(u, raw))
    ensures Sanitized(u, Sanitized(u, raw)) == Sanitized(u, raw)
  {
    KeptIsClean(u, raw);
    KeptFixes(u, Sanitized(u, raw));
  }

  /** It is the first thirty-two of the characters kept, or all of them when they are fewer. */
  lemma SanitizedIsPrefix(u: Tables, raw: string)
    ensures Sanitized(u, raw) <= Kept(u, raw)
    ensures |Sanitized(u, raw)| == if |Kept(u, raw)| < 32 then |Kept(u, raw)| else 32
  {}

  /** The sanitizer's fixed points are the empty name and exactly what `ValidSlot` accepts. */
  lemma FixedPointsAreSlots(u: Tables, s: string)
    ensures Sanitized(u, s) == s <==> s == "" || IsSlot(s)
  {
    SanitizedIsSlot(u, s);
    if IsSlot(s) {
      KeptFixes(u, s);
    }
  }

  // -------------------------------------------------------------- hexadecimal

  function HexDigit(n: nat): (c: char)
    requires n < 16
    ensures HexChar(c) && HexValue(c) == n
  {
    if n < 10 then '0' + n as char else 'a' + (n - 10) as char
  }

  function HexValue(c: char): (n: nat)
    requires HexChar(c)
    ensures n < 16
  {
    if c <= '9' then (c - '0') as nat else 10 + (c - 'a') as nat
  }

  function HexOf(bytes: seq<Byte>): (s: string)
    ensures |s| == 2 * |bytes| && forall i :: 0 <= i < |s| ==> HexChar(s[i])
  {
    if bytes == [] then ""
    else [HexDigit(bytes[0] / 16), HexDigit(bytes[0] % 16)] + HexOf(bytes[1..])
  }

  function Unhex(s: string): (bytes: seq<Byte>)
    requires |s| % 2 == 0 && forall i :: 0 <= i < |s| ==> HexChar(s[i])
    ensures 2 * |bytes| == |s|
  {
    if s == "" then []
    else [HexValue(s[0]) * 16 + HexValue(s[1])] + Unhex(s[2..])
  }

  lemma {:induction false} UnhexHexOf(bytes: seq<Byte>)
    ensures Unhex(HexOf(bytes)) == bytes
  {
    if bytes != [] {
      UnhexHexOf(bytes[1..]);
      assert HexOf(bytes)[2..] == HexOf(bytes[1..]);
    }
  }

  lemma {:induction false} HexOfUnhex(s: string)
    requires |s| % 2 == 0 && forall i :: 0 <= i < |s| ==> HexChar(s[i])
    ensures HexOf(Unhex(s)) == s
  {
    if s != "" {
      var high, low := HexValue(s[0]), HexValue(s[1]);
      HexOfUnhex(s[2..]);
      assert HexDigit(high) == s[0] && HexDigit(low) == s[1];
      HexOfCons(high, low, Unhex(s[2..]));
      assert s == [s[0], s[1]] + s[2..];
    }
  }

  lemma HexDigitIsExact(n: nat)
    requires n < 16
    ensures HexDigit(n) == "0123456789abcdef"[n]
  {}

  /** Two digits a byte, the high half first. */
  lemma {:induction false} HexDigitsAt(bytes: seq<Byte>, i: nat)
    requires i < |bytes|
    ensures HexOf(bytes)[2 * i] == "0123456789abcdef"[bytes[i] / 16]
    ensures HexOf(bytes)[2 * i + 1] == "0123456789abcdef"[bytes[i] % 16]
  {
    HexDigitIsExact(bytes[0] / 16);
    HexDigitIsExact(bytes[0] % 16);
    if i > 0 {
      HexDigitsAt(bytes[1..], i - 1);
      assert HexOf(bytes)[2..] == HexOf(bytes[1..]);
    }
  }

  lemma HexOfCons(high: nat, low: nat, rest: seq<Byte>)
    requires high < 16 && low < 16
    ensures HexOf([high * 16 + low] + rest) == [HexDigit(high), HexDigit(low)] + HexOf(rest)
  {
    assert ([high * 16 + low] + rest)[1..] == rest;
    assert (high * 16 + low) / 16 == high && (high * 16 + low) % 16 == low;
  }

  // ---------------------------------------------------------- encode and parse

  /** The slot sent for an SSH user name. */
  function SlotOf(u: Tables, user: string): string {
    if Sanitized(u, user) == "" then DEFAULT_SLOT else Sanitized(u, user)
  }

  function Encode(u: Tables, fp: Digest, user: string): string {
    HexOf(fp) + "." + SlotOf(u, user)
  }

  /** A player whose name leaves nothing gets the slot "default". */
  lemma SlotIsExact(u: Tables, user: string)
    ensures SlotOf(u, user) == if Kept(u, user) == "" then "default" else Sanitized(u, user)
    ensures IsSlot(SlotOf(u, user))
  {
    SanitizedIsSlot(u, user);
  }

  datatype ParseError = WantDot | NotLowerHex | BadSlot

  /** Index of the first dot, or -1 when there is none. */
  function Dot(s: string): int {
    if s == "" then -1
    else if s[0] == '.' then 0
    else var d := Dot(s[1..]); if d < 0 then -1 else d + 1
  }

  ghost predicate WellFormed(name: string) {
    && |name| > FP_HEX_LEN
    && (forall i :: 0 <= i < FP_HEX_LEN ==> HexChar(name[i]))
    && name[FP_HEX_LEN] == '.'
    && IsSlot(name[FP_HEX_LEN + 1..])
  }

  /** What a well-formed name stands for. */
  ghost function Meaning(name: string): (Digest, string)
    requires WellFormed(name)
  {
    (Unhex(name[..FP_HEX_LEN]), name[FP_HEX_LEN + 1..])
  }

  lemma {:induction false} DotIsFirst(s: string)
    ensures -1 <= Dot(s) < |s| && (Dot(s) >= 0 ==> s[Dot(s)] == '.')
    ensures forall i :: 0 <= i < (if Dot(s) < 0 then |s| else Dot(s)) ==> s[i] != '.'
  {
    if s != "" && s[0] != '.' {
      DotIsFirst(s[1..]);
      assert forall i :: 1 <= i < |s| ==> s[i] == s[1..][i - 1];
    }
  }

  /** Accepts exactly the well-formed names and reads off what they stand for. */
  method Parse(name: string) returns (r: Result<(Digest, string), ParseError>)
    ensures r.Ok? <==> WellFormed(name)
    ensures r.Ok? ==> r.value == Meaning(name)
    ensures r.Ok? ==> 66 <= |name| <= 97 && HexOf(r.value.0) == name[..64] && name[64] == '.' && r.value.1 == name[65..]
    ensures r == Err(WantDot) <==> Dot(name) != FP_HEX_LEN
    ensures r == Err(BadSlot) <==>
              && Dot(name) == FP_HEX_LEN < |name| && (forall i :: 0 <= i < FP_HEX_LEN ==> HexChar(name[i]))
              && !IsSlot(name[FP_HEX_LEN + 1..])
  {
    DotIsFirst(name);
    if Dot(name) != FP_HEX_LEN {
      return Err(WantDot);
    }
    for i := 0 to FP_HEX_LEN
      invariant forall j :: 0 <= j < i ==> HexChar(name[j])
    {
      if !HexChar(name[i]) {
        return Err(NotLowerHex);
      }
    }
    var fp := Unhex(name[..FP_HEX_LEN]);
    HexOfUnhex(name[..FP_HEX_LEN]);
    var slot := name[FP_HEX_LEN + 1..];
    var ok := ValidSlot(slot);
    if !ok {
      return Err(BadSlot);
    }
    return Ok((fp, slot));
  }

  /** Every encoded name is accepted and stands for the digest and the slot that went in. */
  lemma ParseUndoesEncode(u: Tables, fp: Digest, user: string)
    ensures WellFormed(Encode(u, fp, user))
    ensures Meaning(Encode(u, fp, user)) == (fp, SlotOf(u, user))
    ensures |Encode(u, fp, user)| <= 97
  {
    var name := Encode(u, fp, user);
    SanitizedIsSlot(u, user);
    UnhexHexOf(fp);
    assert name[..FP_HEX_LEN] == HexOf(fp);
    assert name[FP_HEX_LEN + 1..] == SlotOf(u, user);
  }

  /** Every accepted name is the encoding of what it stands for. */
  lemma EncodeUndoesParse(u: Tables, name: string)
    requires WellFormed(name)
    ensures Encode(u, Meaning(name).0, Meaning(name).1) == name
  {
    HexOfUnhex(name[..FP_HEX_LEN]);
    FixedPointsAreSlots(u, name[FP_HEX_LEN + 1..]);
    assert name == name[..FP_HEX_LEN] + "." + name[FP_HEX_LEN + 1..];
  }

  /** The accepted language is exactly the range of `Encode`. */
  lemma AcceptedIffEncoded(u: Tables, name: string)
    ensures WellFormed(name) <==> exists fp: Digest, user: string :: Encode(u, fp, user) == name
  {
    if WellFormed(name) {
      EncodeUndoesParse(u, name);
    }
    if fp: Digest, user: string :| Encode(u, fp, user) == name {
      ParseUndoesEncode(u, fp, user);
    }
  }
}
