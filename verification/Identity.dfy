/** Who a lobby shell belongs to, and the user name each identity travels under. */
module Identity {
  import opened Common
  import P = ProxyProto

  /** A public key, by its wire encoding. */
  datatype PublicKey = PublicKey(wire: seq<Byte>)

  /** The two printable forms of a key: the raw SHA-256 digest and its display string. */
  datatype Hashing = Hashing(sum: PublicKey -> P.Digest, display: PublicKey -> string)

  datatype Kind = Invalid | Keyed | Guest

  datatype Id = Id(kind: Kind, fingerprint: string, slot: string, guestId: string,
                   publicKey: Option<PublicKey>)

  function Fingerprint(h: Hashing, key: Option<PublicKey>): string {
    match key
    case None => ""
    case Some(k) => h.display(k)
  }

  function NewKeyed(h: Hashing, u: P.Tables, key: Option<PublicKey>, user: string): Id {
    Id(Keyed, Fingerprint(h, key), P.SlotOf(u, user), "", key)
  }

  function NewGuest(token: string): Id {
    Id(Guest, "", "", token, None)
  }

  /** A token is sixteen random bytes in lowercase hexadecimal. */
  function NewToken(random: seq<Byte>): string
    requires |random| == 16
  {
    P.HexOf(random)
  }

  ghost predicate IsToken(s: string) {
    |s| == 32 && forall i :: 0 <= i < 32 ==> P.HexChar(s[i])
  }

  method ValidToken(s: string) returns (ok: bool)
    ensures ok <==> IsToken(s)
    ensures ok <==> |s| == 32 && forall i :: 0 <= i < |s| ==> '0' <= s[i] <= '9' || 'a' <= s[i] <= 'f'
  {
    if |s| != 32 {
      return false;
    }
    for i := 0 to |s|
      invariant forall j :: 0 <= j < i ==> P.HexChar(s[j])
    {
      if !P.HexChar(s[i]) {
        return false;
      }
    }
    return true;
  }

  ghost predicate Valid(h: Hashing, u: P.Tables, id: Id) {
    match id.kind
    case Keyed =>
      && id.publicKey.Some? && id.fingerprint == h.display(id.publicKey.value)
      && id.guestId == "" && id.slot != "" && id.slot == P.Sanitized(u, id.slot)
    case Guest =>
      IsToken(id.guestId) && id.publicKey == None && id.fingerprint == "" && id.slot == ""
    case Invalid => false
  }

  method Validate(h: Hashing, u: P.Tables, id: Id) returns (ok: bool)
    ensures ok <==> Valid(h, u, id)
  {
    match id.kind {
      case Keyed =>
        var clean := P.SanitizeSlot(u, id.slot);
        return id.publicKey.Some? && id.fingerprint == Fingerprint(h, id.publicKey) && id.guestId == ""
               && id.slot != "" && id.slot == clean;
      case Guest =>
        var token := ValidToken(id.guestId);
        return token && id.publicKey == None && id.fingerprint == "" && id.slot == "";
      case Invalid =>
        return false;
    }
  }

  function PresenceKey(id: Id): string {
    if id.kind == Guest then "guest:" + id.guestId else "key:" + id.fingerprint
  }

  datatype Refusal = InvalidIdentity | KeyRequired

  /** The user name a game sees; `token` is minted afresh for every guest visit. */
  method BridgeUser(h: Hashing, u: P.Tables, id: Id, allowGuests: bool, token: string)
    returns (r: Result<string, Refusal>)
    requires IsToken(token)
    ensures r == Err(InvalidIdentity) <==> !Valid(h, u, id)
    ensures r == Err(KeyRequired) <==> Valid(h, u, id) && id.kind == Guest && !allowGuests
    ensures r.Ok? && id.kind == Keyed ==>
              P.WellFormed(r.value) && P.Meaning(r.value) == (h.sum(id.publicKey.value), id.slot)
    ensures r.Ok? && id.kind == Guest ==> r.value == "guest." + token && !P.WellFormed(r.value)
  {
    var ok := Validate(h, u, id);
    if !ok {
      return Err(InvalidIdentity);
    }
    if id.kind == Guest {
      if !allowGuests {
        return Err(KeyRequired);
      }
      GuestNamesAreRefused(token);
      return Ok("guest." + token);
    }
    P.ParseUndoesEncode(u, h.sum(id.publicKey.value), id.slot);
    return Ok(P.Encode(u, h.sum(id.publicKey.value), id.slot));
  }

  /** Whatever follows the dot, a guest name never parses as a player's account. */
  lemma GuestNamesAreRefused(token: string)
    ensures !P.WellFormed("guest." + token)
  {
    assert ("guest." + token)[5] == '.';
  }

  /** A keyed identity is the key's own, valid exactly when there is one, and its slot is sent unchanged. */
  lemma NewKeyedIsValid(h: Hashing, u: P.Tables, key: Option<PublicKey>, user: string)
    ensures Valid(h, u, NewKeyed(h, u, key, user)) <==> key.Some?
    ensures P.SlotOf(u, NewKeyed(h, u, key, user).slot) == NewKeyed(h, u, key, user).slot
    ensures var id := NewKeyed(h, u, key, user);
            && id.kind == Keyed && id.publicKey == key && id.slot == P.SlotOf(u, user) && id.guestId == ""
            && (key.Some? ==> id.fingerprint == h.display(key.value))
  {
    P.SanitizedIsSlot(u, user);
    P.FixedPointsAreSlots(u, P.SlotOf(u, user));
  }

  /** A guest identity made from sixteen random bytes is always valid. */
  lemma NewGuestIsValid(h: Hashing, u: P.Tables, random: seq<Byte>)
    requires |random| == 16
    ensures Valid(h, u, NewGuest(NewToken(random)))
    ensures NewGuest(NewToken(random)).kind == Guest && NewGuest(NewToken(random)).guestId == P.HexOf(random)
  {
    assert |P.HexOf(random)| == 32;
  }

  /** Presence keys identify: equal keys mean the same kind and the same account or token. */
  lemma PresenceKeysAreDistinct(h: Hashing, u: P.Tables, a: Id, b: Id)
    requires Valid(h, u, a) && Valid(h, u, b)
    ensures PresenceKey(a) == PresenceKey(b) <==>
            a.kind == b.kind && a.fingerprint == b.fingerprint && a.guestId == b.guestId
    ensures PresenceKey(a) == if a.kind == Guest then "guest:" + a.guestId else "key:" + a.fingerprint
  {
    if PresenceKey(a) == PresenceKey(b) {
      assert PresenceKey(a)[0] == PresenceKey(b)[0];
      if a.kind == Guest {
        assert a.guestId == PresenceKey(a)[6..];
        assert b.guestId == PresenceKey(b)[6..];
      } else {
        assert a.fingerprint == PresenceKey(a)[4..];
        assert b.fingerprint == PresenceKey(b)[4..];
      }
    }
  }

  /** Two keyed players share a user name only when they share both the digest and the slot. */
  lemma EncodedNamesIdentify(u: P.Tables, fpA: P.Digest, a: string, fpB: P.Digest, b: string)
    ensures P.Encode(u, fpA, a) == P.Encode(u, fpB, b) <==>
            fpA == fpB && P.SlotOf(u, a) == P.SlotOf(u, b)
  {
    P.ParseUndoesEncode(u, fpA, a);
    P.ParseUndoesEncode(u, fpB, b);
  }
}
