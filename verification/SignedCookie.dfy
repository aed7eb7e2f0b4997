// The signed cookie codec with key rotation of pkg/cookie/signed.go.
module SignedCookie {
  import opened Wrappers
  import opened Base64

  type Key = seq<byte>

  // HMAC-SHA256 of a text under a key, as an arbitrary function.
  type Mac = (Key, string) -> seq<byte>

  // What Encode may be handed: a session ID, or a value of another type.
  datatype GoValue = Text(bytes: seq<byte>) | OtherType

  class StringCell {
    var value: seq<byte>

    constructor (value: seq<byte>)
      ensures this.value == value
    {
      this.value := value;
    }
  }

  // ------------------------------------------------------------------------------------
  // Specification
  // ------------------------------------------------------------------------------------

  function Sign(mac: Mac, key: Key, id: seq<byte>): string {
    Encode(id) + "." + Encode(mac(key, Encode(id)))
  }

  // Text before and after the first separator.
  function Split(raw: string): Option<(string, string)> {
    if raw == "" then None
    else if raw[0] == '.' then Some(("", raw[1..]))
    else
      match Split(raw[1..])
      case None => None
      case Some((payload, sig)) => Some(([raw[0]] + payload, sig))
  }

  predicate SignedByOne(mac: Mac, keys: seq<Key>, payload: string, sig: seq<byte>) {
    exists i :: 0 <= i < |keys| && mac(keys[i], payload) == sig
  }

  function Verify(mac: Mac, keys: seq<Key>, raw: string): Option<seq<byte>> {
    match Split(raw)
    case None => None
    case Some((payload, sigText)) =>
      match Decode(sigText)
      case None => None
      case Some(sig) => if SignedByOne(mac, keys, payload, sig) then Decode(payload) else None
  }

  // ------------------------------------------------------------------------------------
  // Properties
  // ------------------------------------------------------------------------------------

  lemma {:induction false} SplitAtFirst(payload: string, sig: string)
    requires '.' !in payload
    ensures Split(payload + "." + sig) == Some((payload, sig))
  {
    var raw := payload + "." + sig;
    if payload == "" {
      assert raw == "." + sig;
      assert raw[1..] == sig;
    } else {
      assert raw[1..] == payload[1..] + "." + sig;
      SplitAtFirst(payload[1..], sig);
      assert payload == [payload[0]] + payload[1..];
    }
  }

  lemma {:induction false} SplitJoins(raw: string)
    ensures match Split(raw)
            case Some((payload, sig)) => raw == payload + "." + sig && '.' !in payload
            case None => '.' !in raw
  {
    if raw != "" && raw[0] != '.' {
      SplitJoins(raw[1..]);
      assert raw == [raw[0]] + raw[1..];
    } else if raw != "" {
      assert raw == "" + "." + raw[1..];
    }
  }

  // A cookie is accepted with an ID exactly when it is a payload and a signature joined by
  // the first separator, the signature decodes to the MAC of the payload under one of the
  // keys, and the payload decodes to the ID.
  lemma AcceptedExactly(mac: Mac, keys: seq<Key>, raw: string, id: seq<byte>)
    ensures Verify(mac, keys, raw) == Some(id) <==>
            exists payload, sigText :: Accepts(mac, keys, raw, id, payload, sigText)
  {
    SplitJoins(raw);
    if Verify(mac, keys, raw) == Some(id) {
      var (payload, sigText) := Split(raw).value;
      assert Accepts(mac, keys, raw, id, payload, sigText);
    }
    if payload, sigText :| Accepts(mac, keys, raw, id, payload, sigText) {
      SplitAtFirst(payload, sigText);
    }
  }

  ghost predicate Accepts(mac: Mac, keys: seq<Key>, raw: string, id: seq<byte>, payload: string, sigText: string) {
    && raw == payload + "." + sigText && '.' !in payload
    && (exists i :: 0 <= i < |keys| && Decode(sigText) == Some(mac(keys[i], payload)))
    && Decode(payload) == Some(id)
  }

  // A cookie signed under any key decodes to its ID if and only if one of the decoder's
  // keys gives the same MAC, and is rejected otherwise.
  lemma SignedDecodes(mac: Mac, key: Key, keys: seq<Key>, id: seq<byte>)
    ensures Verify(mac, keys, Sign(mac, key, id)) ==
            if SignedByOne(mac, keys, Encode(id), mac(key, Encode(id))) then Some(id) else None
  {
    EncodedIsClean(id);
    SplitAtFirst(Encode(id), Encode(mac(key, Encode(id))));
    RoundTrip(mac(key, Encode(id)));
    RoundTrip(id);
  }

  // Decoding inverts encoding when the encoder's primary key is the decoder's primary key
  // or one of its older keys.
  lemma EncodeThenDecode(mac: Mac, key: Key, keys: seq<Key>, id: seq<byte>)
    requires key in keys
    ensures Verify(mac, keys, Sign(mac, key, id)) == Some(id)
  {
    SignedDecodes(mac, key, keys, id);
    var i :| 0 <= i < |keys| && keys[i] == key;
    assert mac(keys[i], Encode(id)) == mac(key, Encode(id));
  }

  // Rotating keys keeps every cookie: a manager that knows all keys of another accepts
  // whatever the other accepts, with the same ID.
  lemma RotationKeepsCookies(mac: Mac, before: seq<Key>, after: seq<Key>, raw: string)
    requires forall k :: k in before ==> k in after
    requires Verify(mac, before, raw).Some?
    ensures Verify(mac, after, raw) == Verify(mac, before, raw)
  {
    var (payload, sigText) := Split(raw).value;
    var sig := Decode(sigText).value;
    var i :| 0 <= i < |before| && mac(before[i], payload) == sig;
    assert before[i] in after;
    var j :| 0 <= j < |after| && after[j] == before[i];
    assert mac(after[j], payload) == sig;
  }

  // ------------------------------------------------------------------------------------
  // The manager
  // ------------------------------------------------------------------------------------

  class SignedManager {
    const primary: Key
    const older: seq<Key>
    const mac: Mac

    // NewSignedManagerWithKeys; without older keys it is NewSignedManager.
    constructor (mac: Mac, primary: Key, older: seq<Key>)
      ensures this.mac == mac && this.primary == primary && this.older == older
    {
      this.mac := mac;
      this.primary := primary;
      this.older := older;
    }

    function Keys(): seq<Key> {
      [primary] + older
    }

    method Encode(v: GoValue) returns (cookie: string)
      ensures cookie == if v.Text? then Sign(mac, primary, v.bytes) else ""
    {
      if v.OtherType? {
        return "";
      }
      var payload := Base64.Encode(v.bytes);
      var sig := mac(primary, payload);
      return payload + "." + Base64.Encode(sig);
    }

    // The primary key is tried first, then the older ones in order. A rejected cookie
    // leaves the destination as it was.
    method Decode(raw: string, dst: StringCell) returns (ok: bool)
      modifies dst
      ensures ok <==> Verify(mac, Keys(), raw).Some?
      ensures dst.value == if ok then Verify(mac, Keys(), raw).value else old(dst.value)
    {
      var parts := Split(raw);
      if parts.None? {
        return false;
      }
      var (payload, sigText) := parts.value;
      var decoded := Base64.Decode(sigText);
      if decoded.None? {
        return false;
      }
      var sig := decoded.value;
      if mac(primary, payload) == sig {
        assert Keys()[0] == primary;
        ok := DecodePayload(payload, dst);
        return;
      }
      for i := 0 to |older|
        invariant forall j :: 0 <= j <= i ==> mac(Keys()[j], payload) != sig
        invariant dst.value == old(dst.value)
      {
        assert Keys()[i + 1] == older[i];
        if mac(older[i], payload) == sig {
          ok := DecodePayload(payload, dst);
          return;
        }
      }
      return false;
    }

    method DecodePayload(payload: string, dst: StringCell) returns (ok: bool)
      modifies dst
      ensures ok <==> Base64.Decode(payload).Some?
      ensures dst.value == if ok then Base64.Decode(payload).value else old(dst.value)
    {
      var decoded := Base64.Decode(payload);
      if decoded.None? {
        return false;
      }
      dst.value := decoded.value;
      return true;
    }
  }
}
