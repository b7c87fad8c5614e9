/** internal/keyring/keyring.go: the checksum, the version byte, and what an accepted address looks like. */
module Address {
  import opened Tables
  import opened Digits
  import opened Keyring

  function Checksum(sha: Sha, payload: seq<Byte>): (sum: seq<Byte>)
    ensures |sum| == 4
  {
    sha(sha(payload))[..4]
  }

  function CheckEncode(sha: Sha, payload: seq<Byte>): string {
    Encode(payload + Checksum(sha, payload))
  }

  function CheckDecode(sha: Sha, s: string): Option<seq<Byte>> {
    match Decode(s)
    case None => None
    case Some(data) =>
      if |data| < 4 || data[|data| - 4..] != Checksum(sha, data[..|data| - 4]) then None else Some(data)
  }

  predicate IsVersion(v: Byte) {
    v == 0x1e || v == 0x16 || v == 0x71 || v == 0xc4 || v == 0x6f
  }

  predicate IsValid(sha: Sha, s: string) {
    s != "" && CheckDecode(sha, s).Some? && |CheckDecode(sha, s).value| == 25
    && IsVersion(CheckDecode(sha, s).value[0])
  }

  method BytesEqual(a: seq<Byte>, b: seq<Byte>) returns (equal: bool)
    ensures equal <==> a == b
  {
    if |a| != |b| {
      return false;
    }
    for i := 0 to |a|
      invariant a[..i] == b[..i]
    {
      if a[i] != b[i] {
        return false;
      }
    }
    equal := true;
  }

  method Base58CheckDecode(sha: Sha, encoded: string) returns (r: Option<seq<Byte>>)
    ensures r == CheckDecode(sha, encoded)
  {
    var decoded := Base58Decode(encoded);
    if decoded.None? || |decoded.value| < 4 {
      return None;
    }
    var split := |decoded.value| - 4;
    var matches := BytesEqual(decoded.value[split..], Checksum(sha, decoded.value[..split]));
    r := if matches then decoded else None;
  }

  method Base58CheckEncode(sha: Sha, payload: seq<Byte>) returns (s: string)
    ensures s == CheckEncode(sha, payload)
  {
    s := Base58Encode(payload + Checksum(sha, payload));
  }

  method ValidateAddress(sha: Sha, s: string) returns (valid: bool)
    ensures valid == IsValid(sha, s)
  {
    if s == "" {
      return false;
    }
    var decoded := Base58CheckDecode(sha, s);
    if decoded.None? || |decoded.value| != 25 {
      return false;
    }
    valid := IsVersion(decoded.value[0]);
  }

  /** The string stands for a known version byte and a hash, followed by four bytes of a double hash of both. */
  ghost predicate Spells(sha: Sha, s: string, version: Byte, hash: seq<Byte>) {
    && |hash| == 20
    && (version == 0x1e || version == 0x16 || version == 0x71 || version == 0xc4 || version == 0x6f)
    && Decode(s) == Some([version] + hash + sha(sha([version] + hash))[..4])
  }

  lemma PayloadOf(sha: Sha, payload: seq<Byte>)
    ensures CheckDecode(sha, CheckEncode(sha, payload)) == Some(payload + Checksum(sha, payload))
  {
    var data := payload + Checksum(sha, payload);
    DecodeEncode(data);
    assert data[..|data| - 4] == payload && data[|data| - 4..] == Checksum(sha, payload);
  }

  lemma ValidIsSpelled(sha: Sha, s: string)
    requires IsValid(sha, s)
    ensures exists version, hash :: Spells(sha, s, version, hash)
  {
    var data := CheckDecode(sha, s).value;
    var payload := data[..21];
    assert data == payload + Checksum(sha, payload);
    assert payload == [data[0]] + data[1..21];
    assert Spells(sha, s, data[0], data[1..21]);
  }

  lemma EmptyDecodes()
    ensures Decode("") == Some([])
  {
    assert DigitsIn("") == [] && Convert([], 58, 256) == [];
  }

  lemma SpelledIsValid(sha: Sha, s: string, version: Byte, hash: seq<Byte>)
    requires Spells(sha, s, version, hash)
    ensures IsValid(sha, s)
  {
    var payload := [version] + hash;
    var data := payload + Checksum(sha, payload);
    assert data[..|data| - 4] == payload && data[|data| - 4..] == Checksum(sha, payload);
    EmptyDecodes();
  }

  /** A version and a hash are spelled by their encoding and by nothing else. */
  lemma SpelledBy(sha: Sha, s: string, version: Byte, hash: seq<Byte>)
    requires |hash| == 20 && IsVersion(version)
    ensures Spells(sha, s, version, hash) <==> s == CheckEncode(sha, [version] + hash)
  {
    PayloadOf(sha, [version] + hash);
    if Spells(sha, s, version, hash) {
      EncodeDecode(s);
    }
  }

  /** The accepted strings are exactly those that stand for a version byte and a 20-byte hash. */
  lemma ValidExactly(sha: Sha, s: string)
    ensures IsValid(sha, s) <==> exists version, hash :: Spells(sha, s, version, hash)
  {
    if IsValid(sha, s) {
      ValidIsSpelled(sha, s);
    }
    if exists version, hash :: Spells(sha, s, version, hash) {
      var version: Byte, hash: seq<Byte> :| Spells(sha, s, version, hash);
      SpelledIsValid(sha, s, version, hash);
    }
  }

  /** No address stands for two destinations. */
  lemma SpelledOnce(sha: Sha, s: string, v1: Byte, h1: seq<Byte>, v2: Byte, h2: seq<Byte>)
    requires Spells(sha, s, v1, h1) && Spells(sha, s, v2, h2)
    ensures v1 == v2 && h1 == h2
  {
    var d1, d2 := [v1] + h1 + Checksum(sha, [v1] + h1), [v2] + h2 + Checksum(sha, [v2] + h2);
    assert d1 == d2;
    assert d1[0] == v1 && d2[0] == v2 && d1[1..21] == h1 && d2[1..21] == h2;
  }

  const P33: nat := 15599970876632771988160814054146447252125923204784443097088
  const P192: nat := 6277101735386680763835789423207666416102355444464034512896

  lemma Powers()
    ensures Pow(58, 33) == P33 && Pow(58, 34) == 58 * P33 && Pow(256, 24) == P192
  {
    assert Pow(58, 2) == 3364;
    PowAdds(58, 2, 2);
    PowAdds(58, 4, 4);
    PowAdds(58, 8, 8);
    PowAdds(58, 16, 16);
    assert Pow(256, 2) == 65536;
    PowAdds(256, 2, 2);
    PowAdds(256, 4, 4);
    PowAdds(256, 8, 8);
    PowAdds(256, 8, 16);
  }

  /** An address with a nonzero version byte is as long, and starts with, what its value's size dictates. */
  lemma Shape(sha: Sha, version: Byte, hash: seq<Byte>, len: nat, lead: nat)
    requires |hash| == 20 && version > 0
    requires len >= 1 && 0 < lead < 58
    requires lead * Pow(58, len - 1) <= Magnitude(sha, version, hash) < (lead + 1) * Pow(58, len - 1)
    ensures |CheckEncode(sha, [version] + hash)| == len
    ensures CheckEncode(sha, [version] + hash)[0] == Letter(lead)
  {
    var payload := [version] + hash;
    LengthAndLead(Magnitude(sha, version, hash), 58, len, lead);
    assert LeadingZeros(payload + Checksum(sha, payload)) == 0;
  }

  /** The number that an address spells, checksum included. */
  ghost function Magnitude(sha: Sha, version: Byte, hash: seq<Byte>): nat {
    Value([version] + hash + Checksum(sha, [version] + hash), 256)
  }

  lemma MagnitudeBounds(sha: Sha, version: Byte, hash: seq<Byte>)
    requires |hash| == 20
    ensures version * P192 <= Magnitude(sha, version, hash) < (version + 1) * P192
  {
    var tail := hash + Checksum(sha, [version] + hash);
    assert [version] + hash + Checksum(sha, [version] + hash) == [version] + tail;
    ValueSplits([version], tail, 256);
    ValueBound(tail, 256);
    assert Value([version], 256) == version by {
      assert [version][..0] == [];
      assert Value([version][..0], 256) == 0;
    }
    Powers();
  }

  lemma MainnetShapes(sha: Sha, version: Byte, hash: seq<Byte>)
    requires |hash| == 20 && (version == 0x1e || version == 0x16)
    ensures
      var s := CheckEncode(sha, [version] + hash);
      && |s| == 34
      && (if version == 0x1e then s[0] == 'D' else s[0] == '9' || s[0] == 'A')
  {
    Powers();
    MagnitudeBounds(sha, version, hash);
    if version == 0x1e {
      Shape(sha, version, hash, 34, 12);
    } else {
      Shape(sha, version, hash, 34, if Magnitude(sha, version, hash) < 9 * P33 then 8 else 9);
    }
  }

  lemma TestnetShapes(sha: Sha, version: Byte, hash: seq<Byte>)
    requires |hash| == 20 && (version == 0x6f || version == 0x71 || version == 0xc4)
    ensures
      var s := CheckEncode(sha, [version] + hash);
      && |s| == (if version == 0xc4 then 35 else 34)
      && (if version == 0xc4 then s[0] == '2' else s[0] == 'n' || (version == 0x6f && s[0] == 'm'))
  {
    Powers();
    MagnitudeBounds(sha, version, hash);
    if version == 0x6f {
      Shape(sha, version, hash, 34, if Magnitude(sha, version, hash) < 45 * P33 then 44 else 45);
    } else if version == 0x71 {
      Shape(sha, version, hash, 34, 45);
    } else {
      Shape(sha, version, hash, 35, 1);
    }
  }

  /**
   The shapes that the comments of keyring.go announce, for every hash and whatever its
   checksum. (Version 0x71 never gives an 'm': only 0x6f does.)
   */
  lemma AcceptedShapes(sha: Sha, s: string, version: Byte, hash: seq<Byte>)
    requires Spells(sha, s, version, hash)
    ensures
      && |s| == (if version == 0xc4 then 35 else 34)
      && (version == 0x1e ==> s[0] == 'D')
      && (version == 0x16 ==> s[0] == '9' || s[0] == 'A')
      && (version == 0x6f ==> s[0] == 'm' || s[0] == 'n')
      && (version == 0x71 ==> s[0] == 'n')
      && (version == 0xc4 ==> s[0] == '2')
  {
    SpelledBy(sha, s, version, hash);
    if version == 0x1e || version == 0x16 {
      MainnetShapes(sha, version, hash);
    } else {
      TestnetShapes(sha, version, hash);
    }
  }
}
