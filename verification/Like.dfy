/**
 SQL LIKE as SQLite compares: '%' for any run of characters, '_' for any one, an optional
 escape character, and upper and lower case equal for ASCII letters only.
 */
module Like {
  import opened Tables
  import opened Alerts

  function Fold(c: char): char {
    if 'A' <= c <= 'Z' then (c as int + 32) as char else c
  }

  function Folded(s: string): (r: string)
    ensures |r| == |s| && forall i | 0 <= i < |s| :: r[i] == Fold(s[i])
  {
    seq(|s|, i requires 0 <= i < |s| => Fold(s[i]))
  }

  predicate Matches(pattern: string, s: string, escape: Option<char>)
    decreases |pattern|, |s|
  {
    if pattern == "" then s == ""
    else if escape == Some(pattern[0]) then
      |pattern| > 1 && s != "" && Fold(pattern[1]) == Fold(s[0]) && Matches(pattern[2..], s[1..], escape)
    else if pattern[0] == '%' then
      Matches(pattern[1..], s, escape) || (s != "" && Matches(pattern, s[1..], escape))
    else
      s != "" && (pattern[0] == '_' || Fold(pattern[0]) == Fold(s[0])) && Matches(pattern[1..], s[1..], escape)
  }

  predicate Special(c: char) {
    c == '\\' || c == '%' || c == '_'
  }

  /** escapeLike */
  function EscapeLike(s: string): string {
    if s == "" then ""
    else if Special(s[0]) then ['\\', s[0]] + EscapeLike(s[1..])
    else [s[0]] + EscapeLike(s[1..])
  }

  ghost predicate Contains(s: string, part: string) {
    exists i :: OccursAt(s, part, i)
  }

  ghost predicate OccursAt(s: string, part: string, i: int) {
    0 <= i <= |s| - |part| && s[i..i + |part|] == part
  }

  /** A leading '%' skips any number of characters. */
  lemma {:induction false} PercentSkips(rest: string, s: string, escape: Option<char>)
    requires escape != Some('%')
    ensures Matches("%" + rest, s, escape) <==> exists i :: 0 <= i <= |s| && Matches(rest, s[i..], escape)
    decreases |s|
  {
    var pattern := "%" + rest;
    assert pattern[1..] == rest && s[0..] == s;
    if s != "" {
      PercentSkips(rest, s[1..], escape);
      assert forall i | 0 <= i < |s| :: s[1..][i..] == s[i + 1..];
      if exists i :: 0 <= i <= |s| && Matches(rest, s[i..], escape) {
        var i :| 0 <= i <= |s| && Matches(rest, s[i..], escape);
        if i > 0 {
          assert s[1..][i - 1..] == s[i..];
        }
      }
      if exists i :: 0 <= i <= |s[1..]| && Matches(rest, s[1..][i..], escape) {
        var i :| 0 <= i <= |s[1..]| && Matches(rest, s[1..][i..], escape);
        assert s[1..][i..] == s[i + 1..];
      }
    }
  }

  lemma {:induction false} PercentMatchesAll(s: string, escape: Option<char>)
    requires escape != Some('%')
    ensures Matches("%", s, escape)
  {
    PercentSkips("", s, escape);
    assert "%" + "" == "%" && s[|s|..] == "";
  }

  /** An escaped text matches itself and nothing else, up to the case of ASCII letters. */
  lemma {:induction false} EscapedIsLiteral(q: string, rest: string, s: string)
    ensures Matches(EscapeLike(q) + rest, s, Some('\\'))
       <==> |q| <= |s| && Folded(s[..|q|]) == Folded(q) && Matches(rest, s[|q|..], Some('\\'))
    decreases |q|
  {
    var pattern := EscapeLike(q) + rest;
    if q == "" {
      assert pattern == rest && s[0..] == s;
    } else {
      var tail := EscapeLike(q[1..]) + rest;
      if Special(q[0]) {
        assert pattern == ['\\', q[0]] + tail && pattern[2..] == tail;
      } else {
        assert pattern == [q[0]] + tail && pattern[1..] == tail;
      }
      if s != "" {
        EscapedIsLiteral(q[1..], rest, s[1..]);
        if |q| <= |s| {
          assert s[1..][..|q| - 1] == s[..|q|][1..] && s[1..][|q| - 1..] == s[|q|..];
          assert Folded(s[..|q|]) == [Fold(s[0])] + Folded(s[..|q|][1..]);
          assert Folded(q) == [Fold(q[0])] + Folded(q[1..]);
        }
      }
    }
  }

  /** SearchByDisplayName finds exactly the names that contain the query, in either case. */
  lemma {:induction false} SearchIsContains(q: string, s: string)
    ensures Matches("%" + EscapeLike(q) + "%", s, Some('\\')) <==> Contains(Folded(s), Folded(q))
  {
    var rest := EscapeLike(q) + "%";
    assert "%" + EscapeLike(q) + "%" == "%" + rest;
    PercentSkips(rest, s, Some('\\'));
    forall i | 0 <= i <= |s|
      ensures Matches(rest, s[i..], Some('\\')) <==> OccursAt(Folded(s), Folded(q), i)
    {
      EscapedIsLiteral(q, "%", s[i..]);
      if |q| <= |s[i..]| {
        PercentMatchesAll(s[i..][|q|..], Some('\\'));
        assert Folded(s[i..][..|q|]) == Folded(s)[i..i + |q|];
      }
    }
  }

  const ALERT_KEY := "deposit_id:"
  const ALERT_HEAD := "Deposit reorged after credit (" + ALERT_KEY

  /** The pattern and the message of insertReorgAlert. */
  function AlertPattern(deposit: nat): string {
    "%" + (ALERT_KEY + Decimal(deposit) + "," + "%")
  }

  function AlertMessage(deposit: nat, txid: string): string {
    ALERT_HEAD + Decimal(deposit) + ", txid:" + txid + ")"
  }

  predicate IsDigit(c: char) {
    '0' <= c <= '9'
  }

  predicate IsHex(s: string) {
    forall i | 0 <= i < |s| :: IsDigit(s[i]) || 'a' <= s[i] <= 'f' || 'A' <= s[i] <= 'F'
  }

  lemma {:induction false} DecimalIsDigits(n: nat)
    ensures forall i | 0 <= i < |Decimal(n)| :: IsDigit(Decimal(n)[i])
  {
    if n >= 10 {
      DecimalIsDigits(n / 10);
    }
  }

  lemma {:induction false} DecimalInjective(m: nat, n: nat)
    requires Decimal(m) == Decimal(n)
    ensures m == n
  {
    assert Digit(m % 10) == Decimal(m)[|Decimal(m)| - 1];
    assert Digit(n % 10) == Decimal(n)[|Decimal(n)| - 1];
    if m >= 10 && n >= 10 {
      assert Decimal(m / 10) == Decimal(m)[..|Decimal(m)| - 1];
      assert Decimal(n / 10) == Decimal(n)[..|Decimal(n)| - 1];
      DecimalInjective(m / 10, n / 10);
    }
  }

  /** A pattern piece without '%' is compared character by character. */
  predicate Fits(piece: string, s: string) {
    |piece| <= |s| && forall k | 0 <= k < |piece| :: piece[k] == '_' || Fold(piece[k]) == Fold(s[k])
  }

  lemma {:induction false} PieceFits(piece: string, rest: string, s: string)
    requires '%' !in piece
    ensures Matches(piece + rest, s, None) <==> Fits(piece, s) && Matches(rest, s[|piece|..], None)
    decreases |piece|
  {
    if piece == "" {
      assert piece + rest == rest && s[0..] == s;
    } else {
      assert (piece + rest)[1..] == piece[1..] + rest;
      if s != "" {
        PieceFits(piece[1..], rest, s[1..]);
        assert |piece| <= |s| ==> s[1..][|piece| - 1..] == s[|piece|..];
        assert Fits(piece, s) <==> (piece[0] == '_' || Fold(piece[0]) == Fold(s[0])) && Fits(piece[1..], s[1..]) by {
          if Fits(piece, s) {
            assert forall k | 0 <= k < |piece| - 1 :: piece[1..][k] == piece[k + 1] && s[1..][k] == s[k + 1];
          }
          if Fits(piece[1..], s[1..]) && (piece[0] == '_' || Fold(piece[0]) == Fold(s[0])) {
            forall k | 0 <= k < |piece| ensures piece[k] == '_' || Fold(piece[k]) == Fold(s[k]) {
              if k > 0 {
                assert piece[1..][k - 1] == piece[k] && s[1..][k - 1] == s[k];
              }
            }
          }
        }
      }
    }
  }

  lemma HeadHasOneColon(k: nat)
    requires k < |ALERT_HEAD| && ALERT_HEAD[k] == ':'
    ensures k == |ALERT_HEAD| - 1
  {
  }

  /** The fixed texts around the deposit id and the txid, by what matters of them. */
  ghost predicate Frame(head: string, key: string, separator: string) {
    && |key| == 11 && key[10] == ':' && key[5] == 'i' && '%' !in key
    && |head| >= 11 && head[|head| - 11..] == key && (forall k | 0 <= k < |head| && head[k] == ':' :: k == |head| - 1)
    && |separator| == 7 && separator[0] == ',' && separator[1] == ' ' && (forall k | 0 <= k < 6 :: separator[k] != ':')
  }

  lemma AlertFrame()
    ensures Frame(ALERT_HEAD, ALERT_KEY, ", txid:")
  {
    assert ALERT_HEAD[|ALERT_HEAD| - 11..] == ALERT_KEY;
    forall k | 0 <= k < |ALERT_HEAD| && ALERT_HEAD[k] == ':'
      ensures k == |ALERT_HEAD| - 1
    {
      HeadHasOneColon(k);
    }
  }

  /** The key can only fit where the message spells it out, because txids are hexadecimal. */
  lemma KeyFitsOnce(head: string, key: string, digits: string, separator: string, txid: string, i: nat)
    requires Frame(head, key, separator) && IsHex(txid) && (forall k | 0 <= k < |digits| :: IsDigit(digits[k]))
    requires
      var message := head + digits + separator + txid + ")";
      i <= |message| && Fits(key, message[i..])
    ensures i + 11 == |head|
  {
    var message := head + digits + separator + txid + ")";
    var at := i + 10;
    assert message[i..][10] == message[at] && message[i..][5] == message[i + 5];
    assert Fold(message[at]) == ':' && Fold(message[i + 5]) == 'i';
    assert message[at] == ':';
    var tail := |head| + |digits|;
    assert message[tail + 1] == separator[1];
    assert forall k | 0 <= k < |head| :: message[k] == head[k];
    assert forall k | 0 <= k < |digits| :: message[|head| + k] == digits[k];
    assert forall k | 0 <= k < 7 :: message[tail + k] == separator[k];
    assert forall k | 0 <= k < |txid| :: message[tail + 7 + k] == txid[k];
    assert forall k | |head| <= k < tail :: message[k] == digits[k - |head|];
    assert forall k | tail <= k < tail + 7 :: message[k] == separator[k - tail];
    assert forall k | tail + 7 <= k < tail + 7 + |txid| :: message[k] == txid[k - tail - 7];
  }

  lemma {:induction false} DigitsThenComma(m: nat, n: nat, s: string)
    requires Decimal(n) + "," <= s
    ensures Fits(Decimal(m) + ",", s) <==> m == n
  {
    var x, y := Decimal(m), Decimal(n);
    DecimalIsDigits(m);
    DecimalIsDigits(n);
    assert s[|y|] == (y + ",")[|y|] == ',';
    assert forall k | 0 <= k < |y| :: s[k] == (y + ",")[k] == y[k];
    if Fits(x + ",", s) {
      assert forall k | 0 <= k < |x| :: (x + ",")[k] == x[k];
      assert (x + ",")[|x|] == ',';
      assert |x| == |y|;
      assert forall k | 0 <= k < |x| :: x[k] == y[k];
      assert x == y;
      DecimalInjective(m, n);
    }
  }

  /**
   The unescaped '_' of the pattern is a wildcard, and still the pattern for one deposit
   matches the message of that deposit and of no other.
   */
  lemma AlertPatternIsExact(wanted: nat, deposit: nat, txid: string)
    requires IsHex(txid)
    ensures Matches(AlertPattern(wanted), AlertMessage(deposit, txid), None) <==> wanted == deposit
  {
    AlertFrame();
    PatternIsExact(ALERT_HEAD, ALERT_KEY, ", txid:", wanted, deposit, txid);
    assert AlertMessage(deposit, txid) == ALERT_HEAD + Decimal(deposit) + ", txid:" + txid + ")";
    assert AlertPattern(wanted) == "%" + (ALERT_KEY + Decimal(wanted) + "," + "%");
  }

  lemma {:induction false} PatternIsExact(head: string, key: string, separator: string, wanted: nat, deposit: nat, txid: string)
    requires Frame(head, key, separator) && IsHex(txid)
    ensures Matches("%" + (key + Decimal(wanted) + "," + "%"), head + Decimal(deposit) + separator + txid + ")", None)
       <==> wanted == deposit
  {
    var message := head + Decimal(deposit) + separator + txid + ")";
    var rest := key + Decimal(wanted) + "," + "%";
    PercentSkips(rest, message, None);
    var home := |head| - 11;
    forall i: nat | i <= |message|
      ensures Matches(rest, message[i..], None) <==> i == home && wanted == deposit
    {
      PatternAt(head, key, separator, wanted, deposit, txid, i);
    }
    assert wanted == deposit ==> Matches(rest, message[home..], None);
  }

  lemma {:induction false} PatternAt(head: string, key: string, separator: string, wanted: nat, deposit: nat, txid: string, i: nat)
    requires Frame(head, key, separator) && IsHex(txid)
    requires i <= |head + Decimal(deposit) + separator + txid + ")"|
    ensures Matches(key + Decimal(wanted) + "," + "%", (head + Decimal(deposit) + separator + txid + ")")[i..], None)
       <==> i == |head| - 11 && wanted == deposit
  {
    var message := head + Decimal(deposit) + separator + txid + ")";
    var digits := Decimal(wanted) + ",";
    var piece := key + Decimal(wanted) + ",";
    assert piece == key + digits;
    DecimalIsDigits(wanted);
    DecimalIsDigits(deposit);
    assert '%' !in piece;
    PieceFits(piece, "%", message[i..]);
    PieceSplits(key, digits, message[i..]);
    if Fits(key, message[i..]) {
      KeyFitsOnce(head, key, Decimal(deposit), separator, txid, i);
    }
    if i == |head| - 11 {
      AtHome(head, key, separator, wanted, deposit, txid);
      if Fits(piece, message[i..]) {
        PercentMatchesAll(message[i..][|piece|..], None);
      }
    }
  }

  lemma {:induction false} AtHome(head: string, key: string, separator: string, wanted: nat, deposit: nat, txid: string)
    requires Frame(head, key, separator)
    ensures
      var here := (head + Decimal(deposit) + separator + txid + ")")[|head| - 11..];
      && Fits(key, here) && |here| >= 11
      && (Fits(Decimal(wanted) + ",", here[11..]) <==> wanted == deposit)
  {
    var message := head + Decimal(deposit) + separator + txid + ")";
    var here := message[|head| - 11..];
    assert here[..11] == head[|head| - 11..] == key;
    assert forall k | 0 <= k < 11 :: here[k] == here[..11][k];
    assert here[11..] == message[|head|..];
    assert separator == "," + separator[1..];
    assert message[|head|..] == Decimal(deposit) + "," + (separator[1..] + txid + ")");
    DigitsThenComma(wanted, deposit, here[11..]);
  }

  lemma PieceSplits(a: string, b: string, s: string)
    ensures Fits(a + b, s) <==> Fits(a, s) && Fits(b, s[|a|..])
  {
    if Fits(a + b, s) {
      assert forall k | 0 <= k < |a| :: (a + b)[k] == a[k];
      assert forall k | 0 <= k < |b| :: (a + b)[|a| + k] == b[k] && s[|a|..][k] == s[|a| + k];
    }
    if Fits(a, s) && Fits(b, s[|a|..]) {
      forall k | 0 <= k < |a + b| ensures (a + b)[k] == '_' || Fold((a + b)[k]) == Fold(s[k]) {
        if k >= |a| {
          assert s[|a|..][k - |a|] == s[k];
        }
      }
    }
  }
}
