/**
 Which signature headers are accepted, and which error every other one gets, said on the text of the
 header (Verify in internal/ingestion/signature.go).
 */
module SignatureAcceptance {
  import opened Common
  import opened Decimal
  import opened Text
  import opened Base16
  import opened Signature

  /** The trimmed part reads key=value. */
  ghost predicate ReadsAs(part: string, key: string, value: string) {
    key != "" && '=' !in key && TrimSpace(part) == key + "=" + value
  }

  /** No part after part i gives the key a value. */
  ghost predicate NoneAfter(parts: seq<string>, i: int, key: string) {
    forall j, v :: 0 <= j < |parts| && i < j ==> !ReadsAs(parts[j], key, v)
  }

  /** Among the parts that give key a value, the last one gives it this value. */
  ghost predicate LastGives(parts: seq<string>, i: int, key: string, value: string) {
    0 <= i < |parts| && ReadsAs(parts[i], key, value) && NoneAfter(parts, i, key)
  }

  ghost predicate Gives(parts: seq<string>, key: string, value: string) {
    exists i :: LastGives(parts, i, key, value)
  }

  lemma ReadsAsParts(part: string, key: string, value: string)
    requires ReadsAs(part, key, value)
    ensures ParsePart(part) == Some((key, value))
  {
    var p := TrimSpace(part);
    assert p[..|key|] == key && p[|key|] == '=' && p[|key| + 1..] == value;
    IndexOfUnique(p, '=', |key|);
  }

  lemma CutAt(p: string, i: nat)
    requires i < |p|
    ensures p == p[..i] + [p[i]] + p[i + 1..]
  {
  }

  lemma PartsReadAs(part: string, key: string, value: string)
    requires ParsePart(part) == Some((key, value))
    ensures ReadsAs(part, key, value)
  {
    var p := TrimSpace(part);
    CutAt(p, IndexOf(p, '='));
  }

  lemma ParsePartIff(part: string, key: string, value: string)
    ensures ParsePart(part) == Some((key, value)) <==> ReadsAs(part, key, value)
  {
    if ParsePart(part) == Some((key, value)) {
      PartsReadAs(part, key, value);
    }
    if ReadsAs(part, key, value) {
      ReadsAsParts(part, key, value);
    }
  }

  lemma {:induction false} LastValueGives(parts: seq<string>, key: string, value: string)
    requires value != ""
    ensures LastValue(ParseParts(parts), key) == value <==> Gives(parts, key, value)
  {
    if parts != [] {
      var before, last := Front(parts), Last(parts);
      assert Front(ParseParts(parts)) == ParseParts(before);
      assert Last(ParseParts(parts)) == ParsePart(last);
      LastValueGives(before, key, value);
      if HasKey(ParsePart(last), key) {
        var v := ParsePart(last).value.1;
        ParsePartIff(last, key, v);
        GivesNow(parts, key, v, value);
      } else {
        forall v
          ensures !ReadsAs(last, key, v)
        {
          ParsePartIff(last, key, v);
        }
        GivesBefore(parts, key, value);
      }
    }
  }

  lemma GivesNow(parts: seq<string>, key: string, v: string, value: string)
    requires parts != [] && ReadsAs(Last(parts), key, v)
    ensures Gives(parts, key, value) <==> v == value
  {
    var n := |parts| - 1;
    ParsePartIff(parts[n], key, v);
    ParsePartIff(parts[n], key, value);
    if v == value {
      assert LastGives(parts, n, key, value);
    }
    if i :| LastGives(parts, i, key, value) {
      assert ReadsAs(parts[n], key, v);
      assert i == n;
    }
  }

  lemma NoneAfterFront(parts: seq<string>, i: int, key: string)
    requires parts != [] && forall v :: !ReadsAs(Last(parts), key, v)
    ensures NoneAfter(parts, i, key) <==> NoneAfter(Front(parts), i, key)
  {
    var before := Front(parts);
    if NoneAfter(before, i, key) {
      forall j, v | 0 <= j < |parts| && i < j
        ensures !ReadsAs(parts[j], key, v)
      {
        assert j < |before| ==> parts[j] == before[j];
        assert j == |before| ==> parts[j] == Last(parts);
      }
    }
    if NoneAfter(parts, i, key) {
      forall j, v | 0 <= j < |before| && i < j
        ensures !ReadsAs(before[j], key, v)
      {
        assert parts[j] == before[j];
      }
    }
  }

  lemma LastGivesBefore(parts: seq<string>, i: int, key: string, value: string)
    requires parts != [] && forall v :: !ReadsAs(Last(parts), key, v)
    ensures LastGives(parts, i, key, value) <==> LastGives(Front(parts), i, key, value)
  {
    NoneAfterFront(parts, i, key);
    assert i == |parts| - 1 ==> parts[i] == Last(parts);
    assert 0 <= i < |parts| - 1 ==> Front(parts)[i] == parts[i];
  }

  lemma GivesBefore(parts: seq<string>, key: string, value: string)
    requires parts != [] && forall v :: !ReadsAs(Last(parts), key, v)
    ensures Gives(parts, key, value) <==> Gives(Front(parts), key, value)
  {
    forall i
      ensures LastGives(parts, i, key, value) <==> LastGives(Front(parts), i, key, value)
    {
      LastGivesBefore(parts, i, key, value);
    }
  }

  /** The header gives non-empty values ts for t and sig for v1. */
  ghost predicate HeaderGives(header: string, ts: string, sig: string) {
    exists parts ::
      IsSplit(parts, header, ',') && ts != "" && sig != "" && Gives(parts, "t", ts) && Gives(parts, "v1", sig)
  }

  lemma ParseHeaderIff(header: string, ts: string, sig: string)
    ensures ParseHeader(header) == Some(Header(ts, sig)) <==> HeaderGives(header, ts, sig)
  {
    var parts := Split(header, ',');
    SplitIsSplit(header, ',');
    if ts != "" {
      LastValueGives(parts, "t", ts);
    }
    if sig != "" {
      LastValueGives(parts, "v1", sig);
    }
    if HeaderGives(header, ts, sig) {
      var ps :| IsSplit(ps, header, ',') && ts != "" && sig != "" && Gives(ps, "t", ts) && Gives(ps, "v1", sig);
      SplitUnique(ps, header, ',');
    }
  }

  /** The signing time u, in seconds, is fresh: not further from now than maxAge, as 64 bits have it. */
  ghost predicate Fresh(now: int, u: int, maxAge: int) {
    var d := now - u * 1_000_000_000;
    -maxAge <= d <= maxAge || d <= INT64_MIN || maxAge == INT64_MAX
  }

  /** The whole outcome of verification, for every header, in terms of what the header says. */
  lemma VerifyOutcome(mac: Mac, secret: string, header: string, body: string, now: int, maxAge: int,
                      ts: string, sig: string, u: int, provided: seq<Byte>)
    requires INT64_MIN <= maxAge <= INT64_MAX
    ensures var r := Verify(mac, secret, header, body, now, maxAge);
            && (secret == "" ==> r == Some(InvalidSecret))
            && (secret != "" && header == "" ==> r == Some(MissingHeader))
            && (secret != "" && header != "" ==>
                  && ((forall t, v :: !HeaderGives(header, t, v)) ==> r == Some(MalformedHeader))
                  && (HeaderGives(header, ts, sig) ==>
                        && ((forall n :: INT64_MIN <= n <= INT64_MAX ==> !NumeralOf(ts, n)) ==>
                              r == Some(MalformedHeader))
                        && (NumeralOf(ts, u) && INT64_MIN <= u <= INT64_MAX ==>
                              && (!Fresh(now, u, maxAge) ==> r == Some(StaleTimestamp))
                              && (Fresh(now, u, maxAge) ==>
                                    && ((forall bs :: !HexText(sig, bs)) ==> r == Some(MalformedHeader))
                                    && (HexText(sig, provided) ==>
                                          r == if provided == mac(secret, ts + "." + body) then None
                                               else Some(SignatureMismatch))))))
  {
    if secret != "" && header != "" {
      var h := ParseHeader(header);
      if h.Some? {
        ParseHeaderIff(header, h.value.ts, h.value.sig);
      }
      ParseHeaderIff(header, ts, sig);
      if HeaderGives(header, ts, sig) {
        VerifyRead(mac, secret, header, body, now, maxAge, ts, sig, u, provided);
      }
    }
  }

  /** What is left to do once the header is read. */
  lemma VerifyRest(mac: Mac, secret: string, header: string, body: string, now: int, maxAge: int,
                   ts: string, sig: string)
    requires secret != "" && header != "" && ParseHeader(header) == Some(Header(ts, sig))
    ensures var r, time, code := Verify(mac, secret, header, body, now, maxAge), ParseInt(ts), HexDecode(sig);
            && (time == None ==> r == Some(MalformedHeader))
            && (time.Some? && Abs(Sub(now, time.value * SECOND)) > maxAge ==> r == Some(StaleTimestamp))
            && (time.Some? && Abs(Sub(now, time.value * SECOND)) <= maxAge ==>
                  && (code == None ==> r == Some(MalformedHeader))
                  && (code.Some? ==>
                        r == if code.value == mac(secret, ts + "." + body) then None else Some(SignatureMismatch)))
  {
  }

  lemma VerifyCode(sig: string, provided: seq<Byte>)
    ensures (forall bs :: !HexText(sig, bs)) ==> HexDecode(sig) == None
    ensures HexText(sig, provided) ==> HexDecode(sig) == Some(provided)
  {
    HexDecodeIff(sig, provided);
    if HexDecode(sig).Some? {
      HexDecodeIff(sig, HexDecode(sig).value);
    }
  }

  lemma VerifyTime(ts: string, u: int)
    ensures (forall n :: INT64_MIN <= n <= INT64_MAX ==> !NumeralOf(ts, n)) ==> ParseInt(ts) == None
    ensures NumeralOf(ts, u) && INT64_MIN <= u <= INT64_MAX ==> ParseInt(ts) == Some(u)
  {
    ParseIntIff(ts, u);
    if ParseInt(ts).Some? {
      ParseIntIff(ts, ParseInt(ts).value);
    }
  }

  lemma VerifyRead(mac: Mac, secret: string, header: string, body: string, now: int, maxAge: int,
                   ts: string, sig: string, u: int, provided: seq<Byte>)
    requires INT64_MIN <= maxAge <= INT64_MAX && secret != "" && header != ""
    requires ParseHeader(header) == Some(Header(ts, sig))
    ensures var r := Verify(mac, secret, header, body, now, maxAge);
            && ((forall n :: INT64_MIN <= n <= INT64_MAX ==> !NumeralOf(ts, n)) ==> r == Some(MalformedHeader))
            && (NumeralOf(ts, u) && INT64_MIN <= u <= INT64_MAX ==>
                  && (!Fresh(now, u, maxAge) ==> r == Some(StaleTimestamp))
                  && (Fresh(now, u, maxAge) ==>
                        && ((forall bs :: !HexText(sig, bs)) ==> r == Some(MalformedHeader))
                        && (HexText(sig, provided) ==>
                              r == if provided == mac(secret, ts + "." + body) then None else Some(SignatureMismatch))))
  {
    VerifyRest(mac, secret, header, body, now, maxAge, ts, sig);
    VerifyTime(ts, u);
    VerifyCode(sig, provided);
    WindowTest(now, u, maxAge);
  }

  /**
   The header gives ts for t and sig for v1, ts is the numeral of the fresh time u, and sig is
   hexadecimal text for exactly the code of ts, a dot and the body.
   */
  ghost predicate Proves(mac: Mac, secret: string, header: string, body: string, now: int, maxAge: int,
                         ts: string, sig: string, u: int)
  {
    && HeaderGives(header, ts, sig)
    && NumeralOf(ts, u) && INT64_MIN <= u <= INT64_MAX && Fresh(now, u, maxAge)
    && HexText(sig, mac(secret, ts + "." + body))
  }

  /** What an accepted header was read as. */
  lemma AcceptedReads(mac: Mac, secret: string, header: string, body: string, now: int, maxAge: int)
    returns (ts: string, sig: string, u: int)
    ensures Verify(mac, secret, header, body, now, maxAge) == None ==>
              && secret != "" && header != ""
              && ParseHeader(header) == Some(Header(ts, sig)) && ParseInt(ts) == Some(u)
              && Abs(Sub(now, u * SECOND)) <= maxAge
              && HexDecode(sig) == Some(mac(secret, ts + "." + body))
  {
    ts, sig, u := "", "", 0;
    if Verify(mac, secret, header, body, now, maxAge) == None {
      var h := ParseHeader(header).value;
      ts, sig := h.ts, h.sig;
      u := ParseInt(ts).value;
    }
  }

  lemma AcceptedProves(mac: Mac, secret: string, header: string, body: string, now: int, maxAge: int)
    returns (ts: string, sig: string, u: int)
    requires INT64_MIN <= maxAge <= INT64_MAX
    ensures Verify(mac, secret, header, body, now, maxAge) == None ==>
              secret != "" && header != "" && Proves(mac, secret, header, body, now, maxAge, ts, sig, u)
  {
    ts, sig, u := AcceptedReads(mac, secret, header, body, now, maxAge);
    if Verify(mac, secret, header, body, now, maxAge) == None {
      ParseHeaderIff(header, ts, sig);
      ParseIntIff(ts, u);
      HexDecodeIff(sig, mac(secret, ts + "." + body));
      WindowTest(now, u, maxAge);
    }
  }

  lemma ProvesAccepted(mac: Mac, secret: string, header: string, body: string, now: int, maxAge: int,
                       ts: string, sig: string, u: int)
    requires INT64_MIN <= maxAge <= INT64_MAX && secret != "" && header != ""
    ensures Proves(mac, secret, header, body, now, maxAge, ts, sig, u) ==>
              Verify(mac, secret, header, body, now, maxAge) == None
  {
    VerifyOutcome(mac, secret, header, body, now, maxAge, ts, sig, u, mac(secret, ts + "." + body));
  }

  /** Accepted, whatever the header, if and only if secret and header are there and the header proves itself. */
  lemma AcceptedIff(mac: Mac, secret: string, header: string, body: string, now: int, maxAge: int)
    requires INT64_MIN <= maxAge <= INT64_MAX
    ensures Verify(mac, secret, header, body, now, maxAge) == None <==>
            && secret != "" && header != ""
            && exists ts, sig, u :: Proves(mac, secret, header, body, now, maxAge, ts, sig, u)
  {
    if Verify(mac, secret, header, body, now, maxAge) == None {
      var ts, sig, u := AcceptedProves(mac, secret, header, body, now, maxAge);
    } else if secret != "" && header != "" {
      if ts, sig, u :| Proves(mac, secret, header, body, now, maxAge, ts, sig, u) {
        ProvesAccepted(mac, secret, header, body, now, maxAge, ts, sig, u);
      }
    }
  }
}
