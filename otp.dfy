/** One-time verification codes: the four-digit code `getVerificationCode`
    generates and stores, and the decision of `verifyOTP`, which compares a
    candidate with the latest code stored for an email. */
module Otp {
  import opened Documents

  /** A stored OTP record: the email as the driver wrote it, the code as a
      string, and the creation time in milliseconds. */
  datatype OtpRecord = OtpRecord(email: Value, otp: string, timestamp: int)

  predicate IsDigit(c: char)
  {
    '0' <= c <= '9'
  }

  /** The character of decimal digit `d`. */
  function DigitChar(d: int): (c: char)
    requires 0 <= d < 10
    ensures IsDigit(c) && c as int - '0' as int == d
  {
    (d + '0' as int) as char
  }

  /** The value of a decimal digit character. */
  function DigitValue(c: char): (d: int)
    requires IsDigit(c)
    ensures 0 <= d < 10 && DigitChar(d) == c
  {
    c as int - '0' as int
  }

  predicate AllDigits(s: string)
  {
    forall i :: 0 <= i < |s| ==> IsDigit(s[i])
  }

  /** JavaScript's `n.toString()` for a non-negative integer: its decimal
      digits, most significant first, without leading zeros. */
  function DecimalString(n: nat): (s: string)
    ensures |s| >= 1 && AllDigits(s)
    ensures s[0] == '0' <==> n == 0
    ensures n < 10 <==> |s| == 1
    decreases n
  {
    if n < 10 then [DigitChar(n)] else DecimalString(n / 10) + [DigitChar(n % 10)]
  }

  /** The number a string of decimal digits denotes. */
  function ParseDecimal(s: string): nat
    requires AllDigits(s)
  {
    if |s| == 0 then 0 else 10 * ParseDecimal(s[..|s| - 1]) + DigitValue(s[|s| - 1])
  }

  /** Reading back the decimal string of `n` gives `n`. */
  lemma {:induction false} ParseDecimalString(n: nat)
    ensures ParseDecimal(DecimalString(n)) == n
    decreases n
  {
    var s := DecimalString(n);
    if n >= 10 {
      ParseDecimalString(n / 10);
      assert s[..|s| - 1] == DecimalString(n / 10);
    }
  }

  /** Two numbers with the same decimal string are equal. */
  lemma DecimalStringInjective(m: nat, n: nat)
    requires DecimalString(m) == DecimalString(n)
    ensures m == n
  {
    ParseDecimalString(m);
    ParseDecimalString(n);
  }

  /** A digit string without a leading zero is the decimal string of the
      number it denotes. */
  lemma {:induction false} DecimalStringOfParse(s: string)
    requires |s| >= 1 && AllDigits(s) && (s[0] == '0' ==> |s| == 1)
    ensures DecimalString(ParseDecimal(s)) == s
    decreases |s|
  {
    if |s| > 1 {
      var init := s[..|s| - 1];
      DecimalStringOfParse(init);
      ParseBounds(init);
      var n := ParseDecimal(s);
      assert n / 10 == ParseDecimal(init) && n % 10 == DigitValue(s[|s| - 1]);
      assert s == init + [s[|s| - 1]];
    }
  }

  /** A digit string of length `k` that does not start with '0' denotes at
      least 10^(k-1), and every digit string of length `k` less than 10^k. */
  lemma {:induction false} ParseBounds(s: string)
    requires AllDigits(s)
    ensures ParseDecimal(s) < Pow10(|s|)
    ensures |s| >= 1 && s[0] != '0' ==> Pow10(|s| - 1) <= ParseDecimal(s)
    decreases |s|
  {
    if |s| > 0 {
      var init := s[..|s| - 1];
      ParseBounds(init);
      if |s| > 1 {
        assert init[0] == s[0];
      }
    }
  }

  /** 10 to the power k. */
  function Pow10(k: nat): (p: nat)
    ensures p >= 1
  {
    if k == 0 then 1 else 10 * Pow10(k - 1)
  }

  /** The shape of a code `getVerificationCode` sends: four decimal digits,
      the first not '0'. */
  predicate IsOtpCode(s: string)
  {
    |s| == 4 && AllDigits(s) && s[0] != '0'
  }

  /** The code for the random draw: `Math.floor(1000 + Math.random() * 9000)`
      is the integer `1000 + draw` for a draw in [0, 9000), and the handler
      stores its decimal string. */
  function OtpCode(draw: int): (s: string)
    requires 0 <= draw < 9000
    ensures IsOtpCode(s)
    ensures ParseDecimal(s) == 1000 + draw
  {
    FourDigitDecimal(1000 + draw);
    ParseDecimalString(1000 + draw);
    DecimalString(1000 + draw)
  }

  /** The numbers from 1000 to 9999 are written with four digits. */
  lemma FourDigitDecimal(n: nat)
    requires 1000 <= n <= 9999
    ensures |DecimalString(n)| == 4
  {
    assert |DecimalString(n / 1000)| == 1;
    assert (n / 10) / 10 == n / 100 && (n / 100) / 10 == n / 1000;
    assert |DecimalString(n / 100)| == 2;
    assert |DecimalString(n / 10)| == 3;
  }

  /** The codes the handler can send are exactly the four-digit strings
      without a leading zero: every draw gives one, and each of them comes
      from exactly one draw. */
  lemma OtpCodesAreFourDigitStrings(s: string)
    ensures IsOtpCode(s) <==> exists draw :: 0 <= draw < 9000 && OtpCode(draw) == s
  {
    if IsOtpCode(s) {
      ParseBounds(s);
      DecimalStringOfParse(s);
      var draw := ParseDecimal(s) - 1000;
      assert OtpCode(draw) == s;
    }
  }

  /** Different draws give different codes. */
  lemma OtpCodeInjective(a: int, b: int)
    requires 0 <= a < 9000 && 0 <= b < 9000
    requires OtpCode(a) == OtpCode(b)
    ensures a == b
  {
  }

  /** Record `r` matches the query `{ email: q }`. */
  predicate RecordMatches(r: OtpRecord, q: Value)
  {
    Matches(Some(r.email), q)
  }

  /** The record `findOne({ email }, { sort: { timestamp: -1 } })` returns,
      as an index into the collection in insertion order: none when no
      record matches; otherwise a matching record with the greatest
      timestamp, the later one of records with equal timestamps. */
  function Latest(otps: seq<OtpRecord>, q: Value): (r: Option<nat>)
    ensures r.None? <==> forall i :: 0 <= i < |otps| ==> !RecordMatches(otps[i], q)
    ensures r.Some? ==> r.value < |otps| && RecordMatches(otps[r.value], q)
    ensures r.Some? ==> forall i :: 0 <= i < |otps| && RecordMatches(otps[i], q) ==>
      otps[i].timestamp <= otps[r.value].timestamp
    ensures r.Some? ==> forall i :: r.value < i < |otps| && RecordMatches(otps[i], q) ==>
      otps[i].timestamp < otps[r.value].timestamp
    decreases |otps|
  {
    if |otps| == 0 then None
    else
      var last := otps[|otps| - 1];
      var prev := Latest(otps[..|otps| - 1], q);
      if !RecordMatches(last, q) then prev
      else if prev.Some? && otps[prev.value].timestamp > last.timestamp then prev
      else Some(|otps| - 1)
  }

  /** The three answers of `verifyOTP`. */
  datatype VerifyReply = NoOtpFound | Verified | InvalidOtp
  {
    /** The `status` the handler puts in its JSON reply. */
    function Status(): int
    {
      match this
      case NoOtpFound => 404
      case Verified => 200
      case InvalidOtp => 400
    }
  }

  /** The `verifyOTP` handler: 404 when no code was stored for the email;
      otherwise 200 exactly when the candidate is strictly equal (`===`) to
      the latest stored code, a string, and 400 when it is not. */
  function VerifyOtp(otps: seq<OtpRecord>, email: Field, userOtp: Field): (r: VerifyReply)
    ensures r == NoOtpFound <==> forall i :: 0 <= i < |otps| ==> !RecordMatches(otps[i], Stored(email))
    ensures r == Verified ==>
      exists i :: && 0 <= i < |otps| && RecordMatches(otps[i], Stored(email))
                  && userOtp == Some(Str(otps[i].otp))
                  && forall j :: 0 <= j < |otps| && RecordMatches(otps[j], Stored(email)) ==>
                       otps[j].timestamp <= otps[i].timestamp
  {
    match Latest(otps, Stored(email))
    case None => NoOtpFound
    case Some(i) => if userOtp == Some(Str(otps[i].otp)) then Verified else InvalidOtp
  }

  /** When one matching record has a strictly greater timestamp than every
      other matching record, its code and no other decides the reply. */
  lemma NewestRecordDecides(otps: seq<OtpRecord>, email: Field, userOtp: Field, i: nat)
    requires i < |otps| && RecordMatches(otps[i], Stored(email))
    requires forall j :: 0 <= j < |otps| && j != i && RecordMatches(otps[j], Stored(email)) ==>
      otps[j].timestamp < otps[i].timestamp
    ensures VerifyOtp(otps, email, userOtp) == if userOtp == Some(Str(otps[i].otp)) then Verified else InvalidOtp
  {
    var r := Latest(otps, Stored(email));
    assert r.Some?;
    assert r.value == i;
  }

  /** Requesting a new code for an email, at a time no earlier than that of
      the codes stored for it, supersedes them: the new code verifies and any
      other older code is rejected with 400. */
  lemma NewerCodeSupersedes(otps: seq<OtpRecord>, email: Field, code: string, now: int, candidate: string)
    requires forall j :: 0 <= j < |otps| && RecordMatches(otps[j], Stored(email)) ==> otps[j].timestamp <= now
    ensures var otps' := otps + [OtpRecord(Stored(email), code, now)];
      VerifyOtp(otps', email, Some(Str(candidate))) == if candidate == code then Verified else InvalidOtp
  {
    var otps' := otps + [OtpRecord(Stored(email), code, now)];
    assert otps'[..|otps'| - 1] == otps;
    assert RecordMatches(otps'[|otps|], Stored(email));
    assert Latest(otps', Stored(email)) == Some(|otps|);
  }

  /** A record stored for an email the query does not match leaves the
      reply unchanged. */
  lemma OtherEmailIrrelevant(otps: seq<OtpRecord>, email: Field, userOtp: Field, r: OtpRecord)
    requires !RecordMatches(r, Stored(email))
    ensures VerifyOtp(otps + [r], email, userOtp) == VerifyOtp(otps, email, userOtp)
  {
    assert (otps + [r])[..|otps|] == otps;
  }

  /** Strict equality: a candidate sent as a number, or not sent, is never
      accepted, even when its digits are those of the stored code. */
  lemma NonStringCandidateRejected(otps: seq<OtpRecord>, email: Field, userOtp: Field)
    requires userOtp.None? || !userOtp.value.Str?
    ensures VerifyOtp(otps, email, userOtp) != Verified
  {
  }
}
