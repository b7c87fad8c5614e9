/** internal/keyring/keyring.go: Base58Check addresses. */
module Keyring {
  import opened Tables
  import opened Digits

  type Byte = b: nat | b < 256

  /** SHA-256 (section 6.2 of FIPS 180-4), of which only the length of its result is used. */
  type Digest = d: seq<Byte> | |d| == 32 witness seq(32, _ => 0)
  type Sha = seq<Byte> -> Digest

  /** The Base58 alphabet, in the runs of consecutive letters that Letter and DigitOf go by. */
  const ALPHABET: string := "123456789" + "ABCDEFGH" + "JKLMN" + "PQRSTUVWXYZ" + "abcdefghijk" + "mnopqrstuvwxyz"

  /** The letter of a digit and the digit of a letter, by the runs of consecutive letters. */
  function Letter(d: nat): (c: char)
    requires d < 58
    ensures DigitOf(c) == Some(d)
  {
    if d < 9 then '1' + d as char
    else if d < 17 then 'A' + (d - 9) as char
    else if d < 22 then 'J' + (d - 17) as char
    else if d < 33 then 'P' + (d - 22) as char
    else if d < 44 then 'a' + (d - 33) as char
    else 'm' + (d - 44) as char
  }

  function DigitOf(c: char): (d: Option<nat>)
    ensures d.Some? ==> d.value < 58
  {
    if '1' <= c <= '9' then Some((c - '1') as nat)
    else if 'A' <= c <= 'H' then Some(9 + (c - 'A') as nat)
    else if 'J' <= c <= 'N' then Some(17 + (c - 'J') as nat)
    else if 'P' <= c <= 'Z' then Some(22 + (c - 'P') as nat)
    else if 'a' <= c <= 'k' then Some(33 + (c - 'a') as nat)
    else if 'm' <= c <= 'z' then Some(44 + (c - 'm') as nat)
    else None
  }

  /** The runs of consecutive letters spell the Base58 alphabet. */
  lemma AlphabetAt(d: nat)
    requires d < 58
    ensures AlphabetLetter(d) == Letter(d)
  {
  }

  function AlphabetLetter(d: nat): char
    requires d < 58
  {
    ALPHABET[d]
  }

  function Letters(digits: seq<nat>): (s: string)
    requires InBase(digits, 58)
    ensures |s| == |digits| && forall i | 0 <= i < |digits| :: s[i] == Letter(digits[i])
  {
    seq(|digits|, i requires 0 <= i < |digits| => Letter(digits[i]))
  }

  predicate IsBase58(s: string) {
    forall i | 0 <= i < |s| :: DigitOf(s[i]).Some?
  }

  function DigitsIn(s: string): (digits: seq<nat>)
    requires IsBase58(s)
    ensures |digits| == |s| && forall i | 0 <= i < |s| :: DigitOf(s[i]) == Some(digits[i]) && digits[i] < 58
  {
    seq(|s|, i requires 0 <= i < |s| => DigitOf(s[i]).value)
  }

  function Encode(data: seq<Byte>): string {
    ConvertInBase(data, 256, 58);
    Letters(Convert(data, 256, 58))
  }

  lemma ConvertInBase(digits: seq<nat>, source: nat, target: nat)
    requires target >= 2
    ensures InBase(Convert(digits, source, target), target)
  {
  }

  function Decode(s: string): Option<seq<Byte>> {
    if IsBase58(s) then
      ConvertInBase(DigitsIn(s), 58, 256);
      Some(Convert(DigitsIn(s), 58, 256))
    else None
  }

  lemma LettersAndDigits(digits: seq<nat>)
    requires InBase(digits, 58)
    ensures IsBase58(Letters(digits)) && DigitsIn(Letters(digits)) == digits
  {
    assert forall i | 0 <= i < |digits| :: DigitOf(Letters(digits)[i]) == Some(digits[i]);
  }

  /** Base58 writes the number that the bytes are, in base 58, and a '1' for each zero byte in front. */
  lemma {:induction false} EncodingIsTheNumber(data: seq<Byte>)
    ensures
      var s := Encode(data);
      && IsBase58(s) && Value(DigitsIn(s), 58) == Value(data, 256)
      && LeadingZeros(DigitsIn(s)) == LeadingZeros(data)
      && forall i | 0 <= i < |s| :: AlphabetLetter(DigitsIn(s)[i]) == s[i]
  {
    var digits := Convert(data, 256, 58);
    LettersAndDigits(digits);
    var k, n := LeadingZeros(data), Value(data, 256);
    ZerosAreWorthNothing(k, DigitsOf(n, 58), 58);
    ValueOfDigits(n, 58);
    LeadingZerosOf(k, DigitsOf(n, 58));
    forall i | 0 <= i < |digits|
      ensures AlphabetLetter(digits[i]) == Encode(data)[i]
    {
      AlphabetAt(digits[i]);
    }
  }

  /** Base58 loses nothing: every byte string comes back. */
  lemma DecodeEncode(data: seq<Byte>)
    ensures Decode(Encode(data)) == Some(data)
  {
    ConvertBack(data, 256, 58);
    LettersAndDigits(Convert(data, 256, 58));
  }

  ghost predicate InAlphabet(c: char) {
    exists d: nat :: d < 58 && IsLetter(d, c)
  }

  ghost predicate IsLetter(d: nat, c: char)
    requires d < 58
  {
    c == AlphabetLetter(d)
  }

  lemma LettersAgree(d: nat, c: char)
    requires d < 58
    ensures IsLetter(d, c) <==> c == Letter(d)
  {
    AlphabetAt(d);
  }

  lemma DigitIffInAlphabet(c: char)
    ensures DigitOf(c).Some? <==> InAlphabet(c)
  {
    forall d: nat | d < 58
      ensures IsLetter(d, c) <==> c == Letter(d)
    {
      LettersAgree(d, c);
    }
    LetterOfDigit(c);
    if DigitOf(c).Some? {
      assert IsLetter(DigitOf(c).value, c);
    }
  }

  lemma Base58IsSpelled(s: string)
    ensures IsBase58(s) <==> forall i | 0 <= i < |s| :: InAlphabet(s[i])
  {
    forall i | 0 <= i < |s|
      ensures DigitOf(s[i]).Some? <==> InAlphabet(s[i])
    {
      DigitIffInAlphabet(s[i]);
    }
  }

  lemma LetterOfDigit(c: char)
    ensures DigitOf(c).Some? ==> Letter(DigitOf(c).value) == c
  {
  }

  /** Decoding fails exactly on a foreign character, and a decoded string has no other spelling. */
  lemma EncodeDecode(s: string)
    ensures Decode(s).Some? <==> forall i | 0 <= i < |s| :: InAlphabet(s[i])
    ensures Decode(s).Some? ==> Encode(Decode(s).value) == s
  {
    Base58IsSpelled(s);
    if IsBase58(s) {
      ConvertBack(DigitsIn(s), 58, 256);
      forall i | 0 <= i < |s|
        ensures Letters(DigitsIn(s))[i] == s[i]
      {
        LetterOfDigit(s[i]);
      }
      assert Letters(DigitsIn(s)) == s;
    }
  }

  method LetterAt(d: nat) returns (c: char)
    requires d < 58
    ensures c == Letter(d)
  {
    AlphabetAt(d);
    c := ALPHABET[d];
  }

  /** The lookup table, filled letter by letter. */
  method BuildAlphabetMap() returns (alphabetMap: map<char, nat>)
    ensures forall c :: DigitOf(c) == if c in alphabetMap then Some(alphabetMap[c]) else None
  {
    alphabetMap := map[];
    for i := 0 to 58
      invariant forall c :: c in alphabetMap <==> DigitOf(c).Some? && DigitOf(c).value < i
      invariant forall c | c in alphabetMap :: DigitOf(c) == Some(alphabetMap[c])
    {
      var letter := LetterAt(i);
      OneLetterPerDigit(i, letter);
      alphabetMap := alphabetMap[letter := i];
    }
  }

  lemma OneLetterPerDigit(d: nat, letter: char)
    requires d < 58 && letter == Letter(d)
    ensures forall c :: DigitOf(c) == Some(d) <==> c == letter
  {
    forall c
      ensures DigitOf(c) == Some(d) <==> c == letter
    {
      LetterOfDigit(c);
    }
  }

  /** Horner's rule over the digits from `start` on. */
  method ReadNumber(encoded: string, start: nat) returns (value: Option<nat>)
    requires start <= |encoded|
    ensures value.Some? <==> IsBase58(encoded[start..])
    ensures value.Some? ==> value.value == Value(DigitsIn(encoded[start..]), 58)
  {
    var alphabetMap := BuildAlphabetMap();
    var number: nat := 0;
    for i := start to |encoded|
      invariant IsBase58(encoded[start..i])
      invariant number == Value(DigitsIn(encoded[start..i]), 58)
    {
      if encoded[i] !in alphabetMap {
        assert encoded[start..][i - start] == encoded[i];
        return None;
      }
      assert encoded[start..i + 1] == encoded[start..i] + [encoded[i]];
      assert DigitsIn(encoded[start..i + 1]) == DigitsIn(encoded[start..i]) + [alphabetMap[encoded[i]]];
      number := number * 58 + alphabetMap[encoded[i]];
    }
    assert encoded[start..|encoded|] == encoded[start..];
    value := Some(number);
  }

  method Base58Decode(encoded: string) returns (r: Option<seq<Byte>>)
    ensures r == Decode(encoded)
  {
    var leadingOnes := 0;
    while leadingOnes < |encoded| && encoded[leadingOnes] == '1'
      invariant leadingOnes <= |encoded|
      invariant forall i | 0 <= i < leadingOnes :: encoded[i] == '1'
    {
      leadingOnes := leadingOnes + 1;
    }
    LeadingOnesAreZeros(encoded, leadingOnes);
    var value := ReadNumber(encoded, leadingOnes);
    if value.None? {
      return None;
    }
    r := Some(Zeros(leadingOnes) + DigitsOf(value.value, 256));
  }

  lemma LeadingOnesAreZeros(s: string, k: nat)
    requires k <= |s| && (forall i | 0 <= i < k :: s[i] == '1') && (k < |s| ==> s[k] != '1')
    ensures IsBase58(s) <==> IsBase58(s[k..])
    ensures IsBase58(s) ==> LeadingZeros(DigitsIn(s)) == k
                            && Value(DigitsIn(s), 58) == Value(DigitsIn(s[k..]), 58)
  {
    TailIsBase58(s, k);
    if IsBase58(s) {
      DigitsSplit(s, k);
      var rest := DigitsIn(s[k..]);
      ZerosAreWorthNothing(k, rest, 58);
      assert rest != [] ==> rest[0] != 0;
      LeadingZerosOf(k, rest);
    }
  }

  lemma TailIsBase58(s: string, k: nat)
    requires k <= |s| && forall i | 0 <= i < k :: s[i] == '1'
    ensures IsBase58(s) <==> IsBase58(s[k..])
  {
    assert forall i | k <= i < |s| :: s[i] == s[k..][i - k];
    assert DigitOf('1') == Some(0);
  }

  lemma DigitsSplit(s: string, k: nat)
    requires IsBase58(s) && k <= |s| && forall i | 0 <= i < k :: s[i] == '1'
    ensures IsBase58(s[k..])
    ensures DigitsIn(s) == Zeros(k) + DigitsIn(s[k..])
    ensures k < |s| && s[k] != '1' ==> DigitsIn(s[k..])[0] != 0
  {
    TailIsBase58(s, k);
    var digits, rest := DigitsIn(s), DigitsIn(s[k..]);
    assert DigitOf('1') == Some(0);
    assert forall i | 0 <= i < k :: digits[i] == 0;
    assert forall i | 0 <= i < |s| - k :: s[k..][i] == s[k + i];
    assert forall i | 0 <= i < |s| - k :: rest[i] == digits[k + i];
    assert digits[..k] == Zeros(k) && digits[k..] == rest;
    assert digits == digits[..k] + digits[k..];
    if k < |s| && s[k] != '1' {
      assert s[k..][0] == s[k];
      OnlyOneIsZero(s[k]);
    }
  }

  lemma OnlyOneIsZero(c: char)
    ensures DigitOf(c) == Some(0) <==> c == '1'
  {
  }

  /** The in-place reversal of the digits, which were built backwards. */
  method Reverse(result: array<char>)
    modifies result
    ensures forall k | 0 <= k < result.Length :: result[k] == old(result[result.Length - 1 - k])
  {
    var i, j := 0, result.Length - 1;
    while i < j
      invariant 0 <= i <= result.Length && -1 <= j < result.Length && i + j == result.Length - 1
      invariant forall k | 0 <= k < i || j < k < result.Length :: result[k] == old(result[result.Length - 1 - k])
      invariant forall k | i <= k <= j :: result[k] == old(result[k])
    {
      result[i], result[j] := result[j], result[i];
      i, j := i + 1, j - 1;
    }
  }

  /** With the last k digits taken off, the next one off is the remainder. */
  lemma {:induction false} NextDigit(digits: seq<nat>, value: nat, k: nat)
    requires value > 0 && k <= |digits| && DigitsOf(value, 58) == digits[..|digits| - k]
    ensures k < |digits| && digits[|digits| - 1 - k] == value % 58
    ensures DigitsOf(value / 58, 58) == digits[..|digits| - k - 1]
  {
    var rest, init := DigitsOf(value, 58), DigitsOf(value / 58, 58);
    assert rest == init + [value % 58];
    assert init == rest[..|rest| - 1];
  }

  method WriteBackwards(number: nat) returns (backwards: string)
    ensures
      var digits := DigitsOf(number, 58);
      |backwards| == |digits| && forall i | 0 <= i < |digits| :: backwards[i] == Letter(digits[|digits| - 1 - i])
  {
    ghost var digits := DigitsOf(number, 58);
    var value := number;
    backwards := "";
    while value > 0
      invariant |backwards| <= |digits| && DigitsOf(value, 58) == digits[..|digits| - |backwards|]
      invariant forall i | 0 <= i < |backwards| :: backwards[i] == Letter(digits[|digits| - 1 - i])
    {
      NextDigit(digits, value, |backwards|);
      var mod := value % 58;
      value := value / 58;
      var letter := LetterAt(mod);
      backwards := backwards + [letter];
    }
  }

  method WriteNumber(number: nat) returns (result: string)
    ensures result == Letters(DigitsOf(number, 58))
  {
    var backwards := WriteBackwards(number);
    var buffer := new char[|backwards|](i requires 0 <= i < |backwards| => backwards[i]);
    Reverse(buffer);
    result := buffer[..];
  }

  method Base58Encode(data: seq<Byte>) returns (s: string)
    ensures s == Encode(data)
  {
    if |data| == 0 {
      return "";
    }
    var leadingZeros := 0;
    while leadingZeros < |data| && data[leadingZeros] == 0
      invariant leadingZeros <= |data|
      invariant forall i | 0 <= i < leadingZeros :: data[i] == 0
    {
      leadingZeros := leadingZeros + 1;
    }
    assert leadingZeros == LeadingZeros(data);
    var value := ReadBytes(data);
    OnesThenLetters(leadingZeros, DigitsOf(value, 58));
    if value == 0 {
      AllZeros(data);
      s := "";
      for i := 0 to |data|
        invariant s == seq(i, _ => '1')
      {
        s := s + ['1'];
      }
    } else {
      s := WriteNumber(value);
      s := PrependOnes(leadingZeros, s);
    }
  }

  /** Horner's rule over the bytes. */
  method ReadBytes(data: seq<Byte>) returns (value: nat)
    ensures value == Value(data, 256)
  {
    value := 0;
    for i := 0 to |data|
      invariant value == Value(data[..i], 256)
    {
      assert data[..i + 1][..i] == data[..i];
      value := value * 256 + data[i];
    }
    assert data[..|data|] == data;
  }

  /** One '1' for each leading zero byte. */
  method PrependOnes(n: nat, text: string) returns (s: string)
    ensures s == seq(n, _ => '1') + text
  {
    s := text;
    for k := 0 to n
      invariant s == seq(k, _ => '1') + text
    {
      s := ['1'] + s;
    }
  }

  lemma OnesThenLetters(n: nat, digits: seq<nat>)
    requires InBase(digits, 58)
    ensures InBase(Zeros(n) + digits, 58)
    ensures Letters(Zeros(n) + digits) == seq(n, _ => '1') + Letters(digits)
  {
  }

  lemma {:induction false} AllZeros(data: seq<nat>)
    ensures Value(data, 256) == 0 ==> LeadingZeros(data) == |data|
  {
    var k := LeadingZeros(data);
    assert data == Zeros(k) + data[k..];
    ZerosAreWorthNothing(k, data[k..], 256);
    if k < |data| {
      PositiveValue(data[k..]);
    }
  }

  lemma {:induction false} PositiveValue(data: seq<nat>)
    requires data != [] && data[0] > 0
    ensures Value(data, 256) > 0
  {
    if |data| > 1 {
      PositiveValue(data[..|data| - 1]);
    }
  }
}
