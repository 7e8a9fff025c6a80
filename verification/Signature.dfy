/** The signature header and its verification (internal/ingestion/signature.go). */
module Signature {
  import opened Common
  import opened Decimal
  import opened Text
  import opened Base16

  // ---------- The header ----------

  /** A key and its value, or nothing for a part that is skipped. */
  type Pair = Option<(string, string)>

  /** key=value after trimming; a part without '=' or with an empty key is skipped. */
  function ParsePart(part: string): Pair {
    var p := TrimSpace(part);
    var eq := IndexOf(p, '=');
    if eq == 0 || eq == |p| then None else Some((p[..eq], p[eq + 1..]))
  }

  function ParseParts(parts: seq<string>): seq<Pair> {
    seq(|parts|, i requires 0 <= i < |parts| => ParsePart(parts[i]))
  }

  predicate HasKey(pair: Pair, key: string) {
    pair.Some? && pair.value.0 == key
  }

  /** The value of the last pair with this key, "" when there is none. */
  function LastValue(pairs: seq<Pair>, key: string): string {
    if pairs == [] then ""
    else if HasKey(Last(pairs), key) then Last(pairs).value.1
    else LastValue(Front(pairs), key)
  }

  const TIME_KEY := "t"
  const CODE_KEY := "v1"

  datatype Error = InvalidSecret | MissingHeader | MalformedHeader | StaleTimestamp | SignatureMismatch

  datatype Header = Header(ts: string, sig: string)

  function HeaderOf(pairs: seq<Pair>): Option<Header> {
    var ts, sig := LastValue(pairs, TIME_KEY), LastValue(pairs, CODE_KEY);
    if ts == "" || sig == "" then None else Some(Header(ts, sig))
  }

  function ParseHeader(h: string): Option<Header> {
    HeaderOf(ParseParts(Split(h, ',')))
  }

  lemma LastValueStep(pairs: seq<Pair>, i: nat, key: string)
    requires i < |pairs|
    ensures LastValue(pairs[..i + 1], key) ==
            if HasKey(pairs[i], key) then pairs[i].value.1 else LastValue(pairs[..i], key)
  {
    assert Front(pairs[..i + 1]) == pairs[..i] && Last(pairs[..i + 1]) == pairs[i];
  }

  /** The loop body up to the switch: trim, find '=', split. */
  method ReadPart(part: string) returns (r: Option<(string, string)>)
    ensures r == ParsePart(part)
  {
    var p := TrimSpace(part);
    var eq := IndexOf(p, '=');
    if eq == 0 || eq == |p| {
      return None;
    }
    r := Some((p[..eq], p[eq + 1..]));
  }

  method ParseSignatureHeader(h: string) returns (r: Option<Header>)
    ensures r == ParseHeader(h)
  {
    var parts := Split(h, ',');
    var ts, sig := "", "";
    ghost var pairs := ParseParts(parts);
    for i := 0 to |parts|
      invariant ts == LastValue(pairs[..i], TIME_KEY) && sig == LastValue(pairs[..i], CODE_KEY)
    {
      LastValueStep(pairs, i, TIME_KEY);
      LastValueStep(pairs, i, CODE_KEY);
      var pair := ReadPart(parts[i]);
      if pair.None? {
        continue;
      }
      if pair.value.0 == TIME_KEY {
        ts := pair.value.1;
      } else if pair.value.0 == CODE_KEY {
        sig := pair.value.1;
      }
    }
    assert pairs[..|parts|] == pairs;
    if ts == "" || sig == "" {
      return None;
    }
    r := Some(Header(ts, sig));
  }

  // ---------- Signing and verifying ----------

  const SECOND: int := 1_000_000_000

  /** time.Duration: nanoseconds in 64 bits; Sub saturates and negating the minimum wraps. */
  function Sub(now: int, then_: int): int {
    var d := now - then_;
    if d < INT64_MIN then INT64_MIN else if d > INT64_MAX then INT64_MAX else d
  }

  function Abs(d: int): int {
    if d >= 0 || d == INT64_MIN then d else -d
  }

  type Mac = (string, string) -> seq<Byte>

  function ComputeSignature(mac: Mac, secret: string, ts: string, body: string): seq<Byte> {
    mac(secret, ts + "." + body)
  }

  function SignForTest(mac: Mac, secret: string, body: string, unix: int): string {
    var ts := FormatInt(unix);
    "t=" + ts + ",v1=" + HexEncode(ComputeSignature(mac, secret, ts, body))
  }

  /** None means the signature is accepted; now and maxAge are in nanoseconds. */
  function Verify(mac: Mac, secret: string, header: string, body: string, now: int, maxAge: int): Option<Error> {
    if secret == "" then Some(InvalidSecret)
    else if header == "" then Some(MissingHeader)
    else
      match ParseHeader(header)
      case None => Some(MalformedHeader)
      case Some(Header(ts, sig)) =>
        match ParseInt(ts)
        case None => Some(MalformedHeader)
        case Some(unix) =>
          if Abs(Sub(now, unix * SECOND)) > maxAge then Some(StaleTimestamp)
          else
            match HexDecode(sig)
            case None => Some(MalformedHeader)
            case Some(provided) =>
              if provided != ComputeSignature(mac, secret, ts, body) then Some(SignatureMismatch) else None
  }

  predicate PlainChar(c: char) {
    !IsSpace(c) && c != ',' && c != '='
  }

  lemma FormatIntPlain(n: int)
    ensures Plain(FormatInt(n))
  {
    var d := FormatNat(if n < 0 then -n else n);
    assert AllDigits(d);
  }

  lemma HexPlain(s: string)
    requires s != "" && IsHex(s)
    ensures Plain(s)
  {
  }

  lemma ParsePartAt(p: string, eq: nat)
    requires Trimmed(p) && 0 < eq < |p| && p[eq] == '=' && '=' !in p[..eq]
    ensures ParsePart(p) == Some((p[..eq], p[eq + 1..]))
  {
    TrimTrimmed(p);
    IndexOfUnique(p, '=', eq);
  }

  ghost predicate Plain(s: string) {
    s != "" && forall i :: 0 <= i < |s| ==> PlainChar(s[i])
  }

  lemma ParseTimePart(ts: string)
    requires Plain(ts)
    ensures ParsePart("t=" + ts) == Some(("t", ts)) && ',' !in "t=" + ts
  {
    var p := "t=" + ts;
    assert p[0] == 't' && p[1] == '=' && Last(p) == Last(ts);
    assert p[..1] == "t" && p[2..] == ts;
    ParsePartAt(p, 1);
    assert forall i :: 2 <= i < |p| ==> p[i] == ts[i - 2];
  }

  lemma ParseCodePart(sig: string)
    requires Plain(sig)
    ensures ParsePart("v1=" + sig) == Some(("v1", sig)) && ',' !in "v1=" + sig
  {
    var p := "v1=" + sig;
    assert p[0] == 'v' && p[1] == '1' && p[2] == '=' && Last(p) == Last(sig);
    assert p[..2] == "v1" && p[3..] == sig;
    ParsePartAt(p, 2);
    assert forall i :: 3 <= i < |p| ==> p[i] == sig[i - 3];
  }

  lemma HeaderText(ts: string, sig: string)
    ensures Join(["t=" + ts, "v1=" + sig], ',') == "t=" + ts + ",v1=" + sig
  {
    var a, b := "t=" + ts, "v1=" + sig;
    assert [a, b][1..] == [b];
    assert [','] + "v1=" == ",v1=";
    assert (a + [',']) + b == a + ([','] + "v1=") + sig;
  }

  lemma HeaderOfTwo(ts: string, sig: string)
    requires ts != "" && sig != ""
    ensures HeaderOf([Some((TIME_KEY, ts)), Some((CODE_KEY, sig))]) == Some(Header(ts, sig))
  {
    var pairs := [Some((TIME_KEY, ts)), Some((CODE_KEY, sig))];
    assert |TIME_KEY| != |CODE_KEY|;
    LastValueOnce(pairs, TIME_KEY, 0);
    LastValueOnce(pairs, CODE_KEY, 1);
  }

  lemma ParsePartsAt(parts: seq<string>, i: nat)
    requires i < |parts|
    ensures ParseParts(parts)[i] == ParsePart(parts[i])
  {
  }

  lemma ParseBoth(a: string, b: string)
    ensures ParseParts([a, b]) == [ParsePart(a), ParsePart(b)]
  {
    var pairs := ParseParts([a, b]);
    ParsePartsAt([a, b], 0);
    ParsePartsAt([a, b], 1);
    assert pairs == [pairs[0], pairs[1]];
  }

  lemma ParseSigned(ts: string, sig: string)
    requires Plain(ts) && Plain(sig)
    ensures ParseHeader("t=" + ts + ",v1=" + sig) == Some(Header(ts, sig))
  {
    var a, b := "t=" + ts, "v1=" + sig;
    ParseTimePart(ts);
    ParseCodePart(sig);
    HeaderText(ts, sig);
    SplitJoin([a, b], ',');
    ParseBoth(a, b);
    HeaderOfTwo(ts, sig);
  }

  /** The 64-bit age test fires: a limit of the maximum never does, and a time too far ahead saturates. */
  predicate Stale(now: int, unix: int, maxAge: int) {
    var d := now - unix * SECOND;
    d > INT64_MIN && maxAge != INT64_MAX && (d > maxAge || -d > maxAge)
  }

  lemma WindowTest(now: int, unix: int, maxAge: int)
    requires INT64_MIN <= maxAge <= INT64_MAX
    ensures Abs(Sub(now, unix * SECOND)) > maxAge <==> Stale(now, unix, maxAge)
  {
  }

  /** Within the range of a duration the test is the intended one. */
  lemma WindowIntended(now: int, unix: int, maxAge: int)
    requires 0 <= maxAge < INT64_MAX
    ensures Stale(now, unix, maxAge) <==>
            now - unix * SECOND > INT64_MIN && !(-maxAge <= now - unix * SECOND <= maxAge)
  {
  }

  /** A signing time more than 292 years ahead passes for fresh: negating the least duration gives it back. */
  lemma FarFutureNotStale()
    ensures Abs(Sub(0, 9_300_000_000 * SECOND)) <= 300 * SECOND
  {
  }

  /**
   A signed header is verified as intended, for every secret, body and time: it is stale, or else
   it is accepted exactly when both sides compute the same code.
   */
  lemma VerifySigned(mac: Mac, secret: string, signer: string, body: string, signed: string,
                     unix: int, now: int, maxAge: int)
    requires secret != ""
    requires INT64_MIN <= unix <= INT64_MAX && INT64_MIN <= maxAge <= INT64_MAX
    requires ComputeSignature(mac, signer, FormatInt(unix), signed) != []
    ensures var ts := FormatInt(unix);
            Verify(mac, secret, SignForTest(mac, signer, signed, unix), body, now, maxAge) ==
            if Stale(now, unix, maxAge) then Some(StaleTimestamp)
            else if ComputeSignature(mac, signer, ts, signed) != ComputeSignature(mac, secret, ts, body)
            then Some(SignatureMismatch)
            else None
  {
    var ts := FormatInt(unix);
    var code := ComputeSignature(mac, signer, ts, signed);
    FormatIntPlain(unix);
    HexPlain(HexEncode(code));
    ParseSigned(ts, HexEncode(code));
    ParseFormatInt(unix);
    HexDecodeEncode(code);
    WindowTest(now, unix, maxAge);
  }

  /** Signing then verifying succeeds exactly within the allowed age. */
  lemma SignThenVerify(mac: Mac, secret: string, body: string, unix: int, now: int, maxAge: int)
    requires secret != ""
    requires INT64_MIN <= unix <= INT64_MAX && INT64_MIN <= maxAge <= INT64_MAX
    requires ComputeSignature(mac, secret, FormatInt(unix), body) != []
    ensures Verify(mac, secret, SignForTest(mac, secret, body, unix), body, now, maxAge) ==
            if Stale(now, unix, maxAge) then Some(StaleTimestamp) else None
  {
    VerifySigned(mac, secret, secret, body, body, unix, now, maxAge);
  }

  // ---------- Order of the parts, and other keys ----------

  predicate Relevant(pair: Pair) {
    HasKey(pair, TIME_KEY) || HasKey(pair, CODE_KEY)
  }

  /** Exactly one pair has the key. */
  ghost predicate OccursOnce(pairs: seq<Pair>, key: string, i: nat) {
    i < |pairs| && HasKey(pairs[i], key) && forall j :: 0 <= j < |pairs| && j != i ==> !HasKey(pairs[j], key)
  }

  lemma {:induction false} LastValueOnce(pairs: seq<Pair>, key: string, i: nat)
    requires OccursOnce(pairs, key, i)
    ensures LastValue(pairs, key) == pairs[i].value.1
  {
    if i < |pairs| - 1 {
      LastValueOnce(Front(pairs), key, i);
    }
  }

  /** Pairs with the two known keys occur equally often; others are free. */
  ghost predicate SameRelevantPairs(ps: seq<Pair>, qs: seq<Pair>) {
    forall p :: Relevant(p) ==> multiset(ps)[p] == multiset(qs)[p]
  }

  lemma CountedTwice(pairs: seq<Pair>, i: nat, j: nat)
    requires i < j < |pairs| && pairs[i] == pairs[j]
    ensures multiset(pairs)[pairs[i]] >= 2
  {
    assert pairs == pairs[..j] + pairs[j..];
    assert pairs[..j][i] == pairs[i] && pairs[j..][0] == pairs[j];
  }

  lemma CountedOnce(pairs: seq<Pair>, key: string, i: nat)
    requires OccursOnce(pairs, key, i)
    ensures multiset(pairs)[pairs[i]] == 1
    ensures forall p :: HasKey(p, key) && p != pairs[i] ==> multiset(pairs)[p] == 0
  {
    var before, after := pairs[..i], pairs[i + 1..];
    assert pairs == before + [pairs[i]] + after;
    assert forall p :: HasKey(p, key) ==> p !in before && p !in after;
    assert pairs[i] !in multiset(before) && pairs[i] !in multiset(after);
  }

  lemma OnceElsewhere(ps: seq<Pair>, qs: seq<Pair>, key: string, i: nat) returns (j: nat)
    requires (key == TIME_KEY || key == CODE_KEY) && OccursOnce(ps, key, i) && SameRelevantPairs(ps, qs)
    ensures OccursOnce(qs, key, j) && qs[j] == ps[i]
  {
    CountedOnce(ps, key, i);
    assert Relevant(ps[i]) && multiset(qs)[ps[i]] == 1;
    assert ps[i] in qs;
    j :| 0 <= j < |qs| && qs[j] == ps[i];
    forall k | 0 <= k < |qs| && k != j
      ensures !HasKey(qs[k], key)
    {
      if HasKey(qs[k], key) {
        assert Relevant(qs[k]) && qs[k] in multiset(qs);
        assert qs[k] == ps[i];
        if k < j {
          CountedTwice(qs, k, j);
        } else {
          CountedTwice(qs, j, k);
        }
      }
    }
  }

  lemma SamePairsSameValue(ps: seq<Pair>, qs: seq<Pair>, key: string, i: nat)
    requires (key == TIME_KEY || key == CODE_KEY) && OccursOnce(ps, key, i) && SameRelevantPairs(ps, qs)
    ensures LastValue(ps, key) == LastValue(qs, key)
  {
    var j := OnceElsewhere(ps, qs, key, i);
    LastValueOnce(ps, key, i);
    LastValueOnce(qs, key, j);
  }

  /**
   When t and v1 each occur once, reordering the parts, changing white space around them and adding
   or dropping parts with other keys does not change what is parsed.
   */
  lemma PartOrderIrrelevant(ps: seq<string>, qs: seq<string>, i: nat, j: nat)
    requires ps != [] && qs != []
    requires (forall k :: 0 <= k < |ps| ==> ',' !in ps[k]) && (forall k :: 0 <= k < |qs| ==> ',' !in qs[k])
    requires OccursOnce(ParseParts(ps), TIME_KEY, i) && OccursOnce(ParseParts(ps), CODE_KEY, j)
    requires SameRelevantPairs(ParseParts(ps), ParseParts(qs))
    ensures ParseHeader(Join(ps, ',')) == ParseHeader(Join(qs, ','))
  {
    SplitJoin(ps, ',');
    SplitJoin(qs, ',');
    SamePairsSameValue(ParseParts(ps), ParseParts(qs), TIME_KEY, i);
    SamePairsSameValue(ParseParts(ps), ParseParts(qs), CODE_KEY, j);
  }
}
