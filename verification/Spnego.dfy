/** The DER subset used to carry NTLM messages inside SPNEGO: tag-length-value triples (section
    8.1.3 of X.690) and the two negotiation tokens of sections 4.2.1 and 4.2.2 of RFC 4178. */
module Spnego {
  import opened Options
  import opened Sequences

  type Byte = b: int | 0 <= b < 256

  type Bytes = seq<Byte>

  const MAX_TOKEN := 16 * 1024

  datatype Tlv = Tlv(tag: Byte, content: Bytes, rest: Bytes)

  // ---- Reading and writing one triple ----

  /** `readDERTLV`: short form, or long form with one or two length bytes. */
  function ReadTlv(data: Bytes): Option<Tlv> {
    if |data| < 2 || |data| > MAX_TOKEN then None
    else if data[1] < 128 then Slice(data, 2, data[1])
    else
      var count := data[1] - 128;
      if count == 0 || count > 2 || |data| < 2 + count then None
      else Slice(data, 2 + count, BigEndianValue(data[2..2 + count]))
  }

  /** The number that big-endian digits in base 256 denote. */
  function BigEndianValue(digits: Bytes): nat {
    if digits == [] then 0 else BigEndianValue(digits[..|digits| - 1]) * 256 + digits[|digits| - 1]
  }

  lemma SmallValues(digits: Bytes)
    requires |digits| <= 2
    ensures |digits| == 1 ==> BigEndianValue(digits) == digits[0]
    ensures |digits| == 2 ==> BigEndianValue(digits) == digits[0] as int * 256 + digits[1]
  {
    if |digits| == 1 {
      assert digits[..0] == [];
    } else if |digits| == 2 {
      assert digits[..1] == [digits[0]] && digits[..1][..0] == [];
    }
  }

  function Slice(data: Bytes, offset: nat, length: nat): Option<Tlv>
    requires 1 <= offset <= |data|
  {
    if length > |data| - offset then None
    else Some(Tlv(data[0], data[offset..offset + length], data[offset + length..]))
  }

  /** Big-endian digits in base 256, no leading zero. */
  function BigEndian(n: nat): Bytes {
    if n == 0 then [] else BigEndian(n / 256) + [n % 256]
  }

  /** `derLength`: the shortest length encoding. */
  function DerLength(n: nat): Bytes
    requires n < 0x1_0000_0000
  {
    if n < 128 then [n]
    else
      BigEndianSize(n, 4);
      [128 + |BigEndian(n)|] + BigEndian(n)
  }

  lemma {:induction false} BigEndianSize(n: nat, k: nat)
    requires n < Pow256(k)
    ensures |BigEndian(n)| <= k
  {
    if n > 0 {
      BigEndianSize(n / 256, k - 1);
    }
  }

  function Pow256(k: nat): nat { if k == 0 then 1 else 256 * Pow256(k - 1) }

  /** `derTLV`. */
  function DerTlv(tag: Byte, content: Bytes): Bytes
    requires |content| < 0x1_0000_0000
  {
    [tag] + DerLength(|content|) + content
  }

  lemma ShortLengths(n: nat)
    requires n < 65536
    ensures n < 128 ==> DerLength(n) == [n]
    ensures 128 <= n < 256 ==> DerLength(n) == [129, n]
    ensures 256 <= n ==> DerLength(n) == [130, n / 256, n % 256]
  {
    assert BigEndian(0) == [];
    if 128 <= n < 256 {
      assert n / 256 == 0 && n % 256 == n;
      assert BigEndian(n) == [n];
    } else if 256 <= n {
      var h := n / 256;
      assert h < 256 && h / 256 == 0 && h % 256 == h;
      assert BigEndian(h) == [h];
      assert BigEndian(n) == [h, n % 256];
    }
  }

  /** Reading what was written, with anything behind it: the tag, the content and the rest come
      back exactly, as long as the whole input is within the size limit. */
  lemma {:induction false} ReadWritten(tag: Byte, content: Bytes, rest: Bytes)
    requires |content| <= MAX_TOKEN && |DerTlv(tag, content) + rest| <= MAX_TOKEN
    ensures ReadTlv(DerTlv(tag, content) + rest) == Some(Tlv(tag, content, rest))
  {
    var n := |content|;
    ShortLengths(n);
    var data := DerTlv(tag, content) + rest;
    var offset := 1 + |DerLength(n)|;
    assert data[0] == tag && data[1] == DerLength(n)[0];
    assert data[offset..offset + n] == content;
    assert data[offset + n..] == rest;
    if n >= 256 {
      assert data[2..4] == [n / 256, n % 256];
      SmallValues(data[2..4]);
    } else if n >= 128 {
      assert data[2..3] == [n];
      SmallValues(data[2..3]);
    }
  }

  /** Size of the tag and length bytes of an accepted triple. */
  function HeaderSize(data: Bytes): nat
    requires |data| >= 2
  {
    if data[1] < 128 then 2 else data[1] - 126
  }

  /** The length bytes of an accepted triple are the shortest possible. */
  predicate ShortestLength(data: Bytes)
    requires |data| >= 4 || (|data| >= 2 && data[1] < 128) || (|data| >= 3 && data[1] == 129)
  {
    data[1] < 128 || (data[1] == 129 && data[2] >= 128) || (data[1] > 129 && data[2] != 0)
  }

  /** Every accepted triple cuts its input into header, content and rest without loss, and it is
      the one `derTLV` would have written exactly when its length bytes are the shortest. */
  lemma {:induction false} AcceptedSplits(data: Bytes)
    requires ReadTlv(data).Some?
    ensures var t, h := ReadTlv(data).value, HeaderSize(data);
            && 2 <= h <= 4 && h <= |data|
            && data == data[..h] + t.content + t.rest && data[0] == t.tag
            && |t.content| < 65536
            && (DerTlv(t.tag, t.content) + t.rest == data <==> ShortestLength(data))
  {
    var t, h := ReadTlv(data).value, HeaderSize(data);
    var n := |t.content|;
    ShortLengths(n);
    var written := DerTlv(t.tag, t.content) + t.rest;
    assert data == data[..h] + t.content + t.rest;
    SmallValues(data[2..h]);
    if ShortestLength(data) {
      assert data[..h] == [t.tag] + DerLength(n);
    } else {
      assert |written| != |data|;
    }
  }

  // ---- Negotiation tokens ----

  const NTLM_OID: Bytes := [0x2b, 0x06, 0x01, 0x04, 0x01, 0x82, 0x37, 0x02, 0x02, 0x0a]
  const SPNEGO_OID: Bytes := [0x2b, 0x06, 0x01, 0x05, 0x05, 0x02]
  const NTLM_MAGIC: Bytes := [0x4e, 0x54, 0x4c, 0x4d, 0x53, 0x53, 0x50, 0x00]

  predicate IsNtlm(token: Bytes) { |token| >= 12 && token[..8] == NTLM_MAGIC }

  /** Largest token both wrappers are defined for: the nested lengths stay within four bytes. */
  const MAX_WRAPPED := 0xFFFF_FF00

  const MECH_LIST: Bytes := [0xa0, 14, 0x30, 12, 0x06, 10] + NTLM_OID

  function MechToken(token: Bytes): (r: Bytes)
    requires |token| <= MAX_WRAPPED
    ensures |token| + 4 <= |r| <= |token| + 12
  {
    LengthSize(|token|);
    LengthSize(|DerTlv(0x04, token)|);
    DerTlv(0xa2, DerTlv(0x04, token))
  }

  lemma LengthSize(n: nat)
    requires n < 0x1_0000_0000
    ensures 1 <= |DerLength(n)| <= 5
  {
    if n >= 128 {
      BigEndianSize(n, 4);
    }
  }

  /** `spnegoNegTokenInit`. */
  function NegTokenInit(token: Bytes): Bytes
    requires |token| <= MAX_WRAPPED
  {
    var inner := MECH_LIST + MechToken(token);
    LengthSize(|inner|);
    var negotiation := DerTlv(0xa0, DerTlv(0x30, inner));
    LengthSize(|DerTlv(0x30, inner)|);
    DerTlv(0x60, DerTlv(0x06, SPNEGO_OID) + negotiation)
  }

  const NEG_STATE: Bytes := [0xa0, 3, 0x0a, 1, 0x01]
  const SUPPORTED_MECH: Bytes := [0xa1, 12, 0x06, 10] + NTLM_OID

  /** `spnegoNegTokenResp`. */
  function NegTokenResp(token: Bytes): Bytes
    requires |token| <= MAX_WRAPPED
  {
    var inner := NEG_STATE + SUPPORTED_MECH + MechToken(token);
    LengthSize(|inner|);
    DerTlv(0xa1, DerTlv(0x30, inner))
  }

  /** The constant parts are what the encoder writes for them. */
  lemma ConstantParts()
    ensures MECH_LIST == DerTlv(0xa0, DerTlv(0x30, DerTlv(0x06, NTLM_OID)))
    ensures NEG_STATE == DerTlv(0xa0, DerTlv(0x0a, [0x01]))
    ensures SUPPORTED_MECH == DerTlv(0xa1, DerTlv(0x06, NTLM_OID))
  {
    var oid := DerTlv(0x06, NTLM_OID);
    assert oid == [0x06, 10] + NTLM_OID;
    assert DerTlv(0x30, oid) == [0x30, 12] + oid;
  }

  /** `findSPNEGONTLMToken`: the first element tagged 0xa2 decides. */
  function Find(items: Bytes): Option<Bytes>
    decreases |items|
  {
    if items == [] then None
    else match ReadTlv(items)
      case None => None
      case Some(t) =>
        AcceptedSplits(items);
        if t.tag != 0xa2 then Find(t.rest)
        else match ReadTlv(t.content)
          case None => None
          case Some(o) =>
            if o.tag != 0x04 || o.rest != [] || !IsNtlm(o.content) then None else Some(o.content)
  }

  /** The part of `unwrapSPNEGONTLMToken` after an optional outer wrapper. */
  function UnwrapInner(token: Bytes): Option<Bytes> {
    match ReadTlv(token)
    case None => None
    case Some(t) =>
      if t.rest != [] || (t.tag != 0xa0 && t.tag != 0xa1) then None
      else match ReadTlv(t.content)
        case None => None
        case Some(s) => if s.tag != 0x30 || s.rest != [] then None else Find(s.content)
  }

  /** `unwrapSPNEGONTLMToken`. */
  function Unwrap(token: Bytes): Option<Bytes> {
    if IsNtlm(token) then Some(token)
    else match ReadTlv(token)
      case Some(t) =>
        if t.tag == 0x60 && t.rest == [] then
          match ReadTlv(t.content)
          case None => None
          case Some(o) => if o.tag != 0x06 || o.content != SPNEGO_OID then None else UnwrapInner(o.rest)
        else UnwrapInner(token)
      case None => UnwrapInner(token)
  }

  // ---- Round trip ----

  lemma SkipElement(tag: Byte, content: Bytes, rest: Bytes)
    requires tag != 0xa2 && |content| <= MAX_TOKEN && |DerTlv(tag, content) + rest| <= MAX_TOKEN
    ensures Find(DerTlv(tag, content) + rest) == Find(rest)
  {
    ReadWritten(tag, content, rest);
  }

  lemma {:induction false} FindMechToken(token: Bytes)
    requires |token| <= MAX_WRAPPED && |MechToken(token)| <= MAX_TOKEN
    ensures Find(MechToken(token)) == if IsNtlm(token) then Some(token) else None
  {
    var octets := DerTlv(0x04, token);
    assert DerTlv(0xa2, octets) + [] == DerTlv(0xa2, octets);
    assert octets + [] == octets;
    ReadWritten(0xa2, octets, []);
    ReadWritten(0x04, token, []);
  }

  lemma {:induction false} UnwrapNegotiation(tag: Byte, items: Bytes)
    requires (tag == 0xa0 || tag == 0xa1) && |items| <= MAX_TOKEN
    requires |DerTlv(0x30, items)| <= MAX_TOKEN && |DerTlv(tag, DerTlv(0x30, items))| <= MAX_TOKEN
    ensures UnwrapInner(DerTlv(tag, DerTlv(0x30, items))) == Find(items)
  {
    var s := DerTlv(0x30, items);
    assert DerTlv(tag, s) + [] == DerTlv(tag, s) && s + [] == s;
    ReadWritten(tag, s, []);
    ReadWritten(0x30, items, []);
  }

  /** Elements written one after the other. */
  function Written(es: seq<(Byte, Bytes)>): Bytes
    requires forall i :: 0 <= i < |es| ==> |es[i].1| <= MAX_TOKEN
  {
    if es == [] then [] else DerTlv(es[0].0, es[0].1) + Written(es[1..])
  }

  predicate NoToken(es: seq<(Byte, Bytes)>) {
    forall i :: 0 <= i < |es| ==> |es[i].1| <= MAX_TOKEN && es[i].0 != 0xa2
  }

  /** Whatever elements stand before it and whatever bytes behind, the first token field decides; without
      one there is no message. */
  lemma {:induction false} FirstTokenDecides(es: seq<(Byte, Bytes)>, token: Bytes, rest: Bytes)
    requires NoToken(es) && |token| <= MAX_TOKEN && |Written(es) + (MechToken(token) + rest)| <= MAX_TOKEN
    ensures Find(Written(es) + (MechToken(token) + rest)) == if IsNtlm(token) then Some(token) else None
    ensures Find(Written(es)) == None
    decreases |es|
  {
    var tail := MechToken(token) + rest;
    if es == [] {
      assert Written(es) + tail == tail;
      var octets := DerTlv(0x04, token);
      ReadWritten(0xa2, octets, rest);
      assert octets + [] == octets;
      ReadWritten(0x04, token, []);
    } else {
      var first := DerTlv(es[0].0, es[0].1);
      ConcatAssoc(first, Written(es[1..]), tail);
      FirstTokenDecides(es[1..], token, rest);
      SkipElement(es[0].0, es[0].1, Written(es[1..]) + tail);
      SkipElement(es[0].0, es[0].1, Written(es[1..]));
    }
  }

  /** An NTLM message needs no unwrapping: it begins with the eight bytes NTLMSSP and zero. */
  lemma RawMessage(token: Bytes)
    requires |token| >= 12 && token[..8] == [0x4e, 0x54, 0x4c, 0x4d, 0x53, 0x53, 0x50, 0x00]
    ensures Unwrap(token) == Some(token)
  {
  }

  lemma TooLongIsRefused(token: Bytes)
    requires |token| > MAX_TOKEN && !IsNtlm(token)
    ensures Unwrap(token) == None
  {
  }

  /** Unwrapping a wrapped initial token returns the original message exactly when that message is
      an NTLM message and the encoding is at most 16 KiB; otherwise nothing is returned. */
  lemma {:induction false} InitRoundTrip(token: Bytes)
    requires |token| <= MAX_WRAPPED
    ensures Unwrap(NegTokenInit(token))
            == if IsNtlm(token) && |NegTokenInit(token)| <= MAX_TOKEN then Some(token) else None
  {
    var inner := MECH_LIST + MechToken(token);
    LengthSize(|inner|);
    LengthSize(|DerTlv(0x30, inner)|);
    var negotiation := DerTlv(0xa0, DerTlv(0x30, inner));
    var oid := DerTlv(0x06, SPNEGO_OID);
    var whole := NegTokenInit(token);
    assert whole == DerTlv(0x60, oid + negotiation);
    assert whole[0] == 0x60 && !IsNtlm(whole);
    if |whole| > MAX_TOKEN {
      TooLongIsRefused(whole);
    } else {
      ConstantParts();
      assert whole + [] == whole;
      ReadWritten(0x60, oid + negotiation, []);
      ReadWritten(0x06, SPNEGO_OID, negotiation);
      UnwrapNegotiation(0xa0, inner);
      SkipElement(0xa0, DerTlv(0x30, DerTlv(0x06, NTLM_OID)), MechToken(token));
      FindMechToken(token);
    }
  }

  /** The two elements before the token are skipped. */
  lemma FindInResponse(token: Bytes)
    requires |token| <= MAX_WRAPPED && |NEG_STATE + SUPPORTED_MECH + MechToken(token)| <= MAX_TOKEN
    ensures Find(NEG_STATE + SUPPORTED_MECH + MechToken(token)) == if IsNtlm(token) then Some(token) else None
  {
    var mech := MechToken(token);
    ConstantParts();
    assert NEG_STATE + SUPPORTED_MECH + mech == NEG_STATE + (SUPPORTED_MECH + mech);
    SkipElement(0xa0, DerTlv(0x0a, [0x01]), SUPPORTED_MECH + mech);
    SkipElement(0xa1, DerTlv(0x06, NTLM_OID), mech);
    FindMechToken(token);
  }

  /** The same for a response token. */
  lemma {:induction false} RespRoundTrip(token: Bytes)
    requires |token| <= MAX_WRAPPED
    ensures Unwrap(NegTokenResp(token))
            == if IsNtlm(token) && |NegTokenResp(token)| <= MAX_TOKEN then Some(token) else None
  {
    var mech := MechToken(token);
    var inner := NEG_STATE + SUPPORTED_MECH + mech;
    LengthSize(|inner|);
    var whole := NegTokenResp(token);
    assert whole == DerTlv(0xa1, DerTlv(0x30, inner));
    assert whole[0] == 0xa1 && !IsNtlm(whole);
    if |whole| > MAX_TOKEN {
      TooLongIsRefused(whole);
    } else {
      ConstantParts();
      assert whole + [] == whole;
      ReadWritten(0xa1, DerTlv(0x30, inner), []);
      UnwrapNegotiation(0xa1, inner);
      FindInResponse(token);
    }
  }

  // ---- What the tokens hold ----

  /** The elements of a sequence, read one after the other. */
  function Elements(data: Bytes): Option<seq<(Byte, Bytes)>>
    decreases |data|
  {
    if data == [] then Some([])
    else match ReadTlv(data)
      case None => None
      case Some(t) =>
        AcceptedSplits(data);
        match Elements(t.rest) case None => None case Some(es) => Some([(t.tag, t.content)] + es)
  }

  lemma ElementsOne(tag: Byte, content: Bytes)
    requires |content| <= MAX_TOKEN && |DerTlv(tag, content)| <= MAX_TOKEN
    ensures Elements(DerTlv(tag, content)) == Some([(tag, content)])
  {
    assert DerTlv(tag, content) + [] == DerTlv(tag, content);
    ReadWritten(tag, content, []);
    assert [(tag, content)] + [] == [(tag, content)];
  }

  lemma ElementsMore(tag: Byte, content: Bytes, rest: Bytes, es: seq<(Byte, Bytes)>)
    requires |content| <= MAX_TOKEN && |DerTlv(tag, content) + rest| <= MAX_TOKEN && Elements(rest) == Some(es)
    ensures Elements(DerTlv(tag, content) + rest) == Some([(tag, content)] + es)
  {
    ReadWritten(tag, content, rest);
  }

  /** `data` is one element with this tag and content. */
  predicate IsElement(data: Bytes, tag: Byte, content: Bytes) { Elements(data) == Some([(tag, content)]) }

  /** The numbers of an object identifier (section 8.19 of X.690). */
  function Arcs(oid: Bytes): seq<nat> {
    if oid == [] then [] else [oid[0] / 40, oid[0] % 40] + Base128(oid[1..], 0)
  }

  function Base128(digits: Bytes, n: nat): seq<nat> {
    if digits == [] then []
    else if digits[0] >= 128 then Base128(digits[1..], n * 128 + digits[0] as int - 128)
    else [n * 128 + digits[0] as int] + Base128(digits[1..], 0)
  }

  /** One arc in one byte, or in two. */
  lemma ShortArc(oid: Bytes, i: nat)
    requires i < |oid| && oid[i] < 128
    ensures Base128(oid[i..], 0) == [oid[i]] + Base128(oid[i + 1..], 0)
  {
    assert oid[i..][1..] == oid[i + 1..];
  }

  lemma LongArc(oid: Bytes, i: nat)
    requires i + 1 < |oid| && oid[i] >= 128 && oid[i + 1] < 128
    ensures Base128(oid[i..], 0) == [(oid[i] as int - 128) * 128 + oid[i + 1]] + Base128(oid[i + 2..], 0)
  {
    assert oid[i..][1..] == oid[i + 1..] && oid[i + 1..][1..] == oid[i + 2..];
  }

  /** The identifier of SPNEGO. */
  lemma SpnegoArcs(oid: Bytes)
    requires oid == SPNEGO_OID
    ensures Arcs(oid) == [1, 3, 6, 1, 5, 5, 2]
  {
    ShortArc(oid, 1);
    ShortArc(oid, 2);
    ShortArc(oid, 3);
    ShortArc(oid, 4);
    ShortArc(oid, 5);
    assert oid[6..] == [];
  }

  /** The identifier of NTLM, of which one arc takes two bytes. */
  lemma NtlmArcs(oid: Bytes)
    requires oid == NTLM_OID
    ensures Arcs(oid) == [1, 3, 6, 1, 4, 1, 311, 2, 2, 10]
  {
    NtlmArcsFrom5(oid);
    var tail := Base128(oid[5..], 0);
    ShortArc(oid, 1);
    ShortArc(oid, 2);
    ShortArc(oid, 3);
    ShortArc(oid, 4);
    assert [6] + ([1] + ([4] + ([1] + tail))) == [6, 1, 4, 1] + tail;
  }

  lemma NtlmArcsFrom5(oid: Bytes)
    requires |oid| == 10 && oid[5] == 0x82 && oid[6] == 0x37 && oid[7] == 0x02 && oid[8] == 0x02 && oid[9] == 0x0a
    ensures Base128(oid[5..], 0) == [311, 2, 2, 10]
  {
    LongArc(oid, 5);
    ShortArc(oid, 7);
    ShortArc(oid, 8);
    ShortArc(oid, 9);
    assert oid[10..] == [];
  }

  /** The last field of both tokens: the message as an octet string. */
  lemma MechTokenHolds(token: Bytes)
    requires |token| <= MAX_WRAPPED && |MechToken(token)| <= MAX_TOKEN
    ensures |DerTlv(0x04, token)| <= MAX_TOKEN
    ensures IsElement(MechToken(token), 0xa2, DerTlv(0x04, token)) && IsElement(DerTlv(0x04, token), 0x04, token)
  {
    ElementsOne(0x04, token);
    ElementsOne(0xa2, DerTlv(0x04, token));
  }

  /** A response token, decoded (section 4.2.2 of RFC 4178): a sequence of the state accept-incomplete,
      the mechanism NTLM and the message. */
  predicate RespFields(token: Bytes, list: Bytes, fields: Bytes, state: Bytes, mech: Bytes, message: Bytes) {
    && IsElement(list, 0x30, fields) && Elements(fields) == Some([(0xa0, state), (0xa1, mech), (0xa2, message)])
    && IsElement(state, 0x0a, [1]) && IsElement(mech, 0x06, NTLM_OID) && IsElement(message, 0x04, token)
  }

  lemma {:induction false} RespHolds(token: Bytes)
    requires |token| <= MAX_WRAPPED && |NegTokenResp(token)| <= MAX_TOKEN
    ensures exists list: Bytes, fields: Bytes, state: Bytes, mech: Bytes, message: Bytes ::
      IsElement(NegTokenResp(token), 0xa1, list) && RespFields(token, list, fields, state, mech, message)
  {
    var state, mech, message := DerTlv(0x0a, [0x01]), DerTlv(0x06, NTLM_OID), DerTlv(0x04, token);
    var fields := NEG_STATE + SUPPORTED_MECH + MechToken(token);
    LengthSize(|fields|);
    ConstantParts();
    ConcatAssoc(NEG_STATE, SUPPORTED_MECH, MechToken(token));
    MechTokenHolds(token);
    ThreeElements(state, mech, MechToken(token), message);
    ElementsOne(0x30, fields);
    ElementsOne(0xa1, DerTlv(0x30, fields));
    ElementsOne(0x0a, [0x01]);
    ElementsOne(0x06, NTLM_OID);
    assert RespFields(token, DerTlv(0x30, fields), fields, state, mech, message);
  }

  lemma ThreeElements(state: Bytes, mech: Bytes, last: Bytes, message: Bytes)
    requires |state| <= MAX_TOKEN && |mech| <= MAX_TOKEN && IsElement(last, 0xa2, message)
    requires |DerTlv(0xa0, state) + (DerTlv(0xa1, mech) + last)| <= MAX_TOKEN
    ensures Elements(DerTlv(0xa0, state) + (DerTlv(0xa1, mech) + last))
      == Some([(0xa0, state), (0xa1, mech), (0xa2, message)])
  {
    ElementsMore(0xa1, mech, last, [(0xa2, message)]);
    ElementsMore(0xa0, state, DerTlv(0xa1, mech) + last, [(0xa1, mech)] + [(0xa2, message)]);
    assert [(0xa0, state)] + ([(0xa1, mech)] + [(0xa2, message)]) == [(0xa0, state), (0xa1, mech), (0xa2, message)];
  }

  /** An initial token, decoded (section 4.2.1 of RFC 4178 in the framing of section 3.1 of RFC 2743): the
      identifier of SPNEGO and a sequence of the mechanism list, NTLM alone, and the message. */
  predicate InitFields(token: Bytes, list: Bytes, fields: Bytes, mechs: Bytes, mech: Bytes, message: Bytes) {
    && IsElement(list, 0x30, fields) && Elements(fields) == Some([(0xa0, mechs), (0xa2, message)])
    && IsElement(mechs, 0x30, mech) && IsElement(mech, 0x06, NTLM_OID) && IsElement(message, 0x04, token)
  }

  lemma {:induction false} InitHolds(token: Bytes)
    requires |token| <= MAX_WRAPPED && |NegTokenInit(token)| <= MAX_TOKEN
    ensures exists body: Bytes, list: Bytes, fields: Bytes, mechs: Bytes, mech: Bytes, message: Bytes ::
      && IsElement(NegTokenInit(token), 0x60, body) && Elements(body) == Some([(0x06, SPNEGO_OID), (0xa0, list)])
      && InitFields(token, list, fields, mechs, mech, message)
  {
    var mech, message := DerTlv(0x06, NTLM_OID), DerTlv(0x04, token);
    var fields := MECH_LIST + MechToken(token);
    LengthSize(|fields|);
    LengthSize(|DerTlv(0x30, fields)|);
    var list := DerTlv(0x30, fields);
    var body := DerTlv(0x06, SPNEGO_OID) + DerTlv(0xa0, list);
    assert NegTokenInit(token) == DerTlv(0x60, body);
    InitElements(token, DerTlv(0x30, mech), fields);
    ElementsOne(0x06, NTLM_OID);
    ElementsOne(0x30, mech);
    ElementsOne(0x30, fields);
    MechTokenHolds(token);
    assert InitFields(token, list, fields, DerTlv(0x30, mech), mech, message);
    InitBody(list);
    ElementsOne(0x60, body);
  }

  lemma InitBody(list: Bytes)
    requires |list| <= MAX_TOKEN && |DerTlv(0x06, SPNEGO_OID) + DerTlv(0xa0, list)| <= MAX_TOKEN
    ensures Elements(DerTlv(0x06, SPNEGO_OID) + DerTlv(0xa0, list)) == Some([(0x06, SPNEGO_OID), (0xa0, list)])
  {
    ElementsOne(0xa0, list);
    TwoElements(0x06, SPNEGO_OID, DerTlv(0xa0, list), 0xa0, list);
  }

  lemma InitElements(token: Bytes, mechs: Bytes, fields: Bytes)
    requires |token| <= MAX_WRAPPED && fields == MECH_LIST + MechToken(token)
    requires mechs == DerTlv(0x30, DerTlv(0x06, NTLM_OID)) && |fields| <= MAX_TOKEN
    ensures |MechToken(token)| <= MAX_TOKEN
    ensures Elements(fields) == Some([(0xa0, mechs), (0xa2, DerTlv(0x04, token))])
  {
    ConstantParts();
    MechTokenHolds(token);
    TwoElements(0xa0, mechs, MechToken(token), 0xa2, DerTlv(0x04, token));
  }

  lemma TwoElements(tag: Byte, content: Bytes, last: Bytes, lastTag: Byte, lastContent: Bytes)
    requires |content| <= MAX_TOKEN && IsElement(last, lastTag, lastContent)
    requires |DerTlv(tag, content) + last| <= MAX_TOKEN
    ensures Elements(DerTlv(tag, content) + last) == Some([(tag, content), (lastTag, lastContent)])
  {
    ElementsMore(tag, content, last, [(lastTag, lastContent)]);
    assert [(tag, content)] + [(lastTag, lastContent)] == [(tag, content), (lastTag, lastContent)];
  }

  // ---- Nothing is made up ----

  /** `part` occurs in `whole` as one piece. */
  ghost predicate Within(part: Bytes, whole: Bytes) {
    exists i, j :: 0 <= i <= j <= |whole| && part == whole[i..j]
  }

  lemma WithinTransitive(a: Bytes, b: Bytes, c: Bytes)
    requires Within(a, b) && Within(b, c)
    ensures Within(a, c)
  {
    var i, j :| 0 <= i <= j <= |b| && a == b[i..j];
    var k, l :| 0 <= k <= l <= |c| && b == c[k..l];
    var d := c[k + i..k + j];
    assert forall x :: 0 <= x < |a| ==> a[x] == b[i + x] == c[k + i + x] == d[x];
    assert a == d;
  }

  lemma PartsWithin(data: Bytes)
    requires ReadTlv(data).Some?
    ensures Within(ReadTlv(data).value.content, data) && Within(ReadTlv(data).value.rest, data)
  {
    var t, h := ReadTlv(data).value, HeaderSize(data);
    AcceptedSplits(data);
    assert t.content == data[h..h + |t.content|];
    assert t.rest == data[h + |t.content|..|data|];
  }

  lemma {:induction false} FindWithin(items: Bytes)
    requires Find(items).Some?
    ensures Within(Find(items).value, items) && IsNtlm(Find(items).value)
    decreases |items|
  {
    var t := ReadTlv(items).value;
    AcceptedSplits(items);
    PartsWithin(items);
    if t.tag != 0xa2 {
      FindWithin(t.rest);
      WithinTransitive(Find(items).value, t.rest, items);
    } else {
      PartsWithin(t.content);
      WithinTransitive(Find(items).value, t.content, items);
    }
  }

  lemma {:induction false} UnwrapInnerWithin(token: Bytes)
    requires UnwrapInner(token).Some?
    ensures Within(UnwrapInner(token).value, token) && IsNtlm(UnwrapInner(token).value)
  {
    var t := ReadTlv(token).value;
    var s := ReadTlv(t.content).value;
    var r := UnwrapInner(token).value;
    PartsWithin(token);
    PartsWithin(t.content);
    FindWithin(s.content);
    WithinTransitive(r, s.content, t.content);
    WithinTransitive(r, t.content, token);
  }

  /** Whatever is unwrapped is an NTLM message and a contiguous piece of the input. */
  lemma {:induction false} UnwrapWithin(token: Bytes)
    requires Unwrap(token).Some?
    ensures Within(Unwrap(token).value, token) && IsNtlm(Unwrap(token).value)
  {
    var r := Unwrap(token).value;
    if IsNtlm(token) {
      assert r == token[0..|token|];
    } else if ReadTlv(token).Some? && ReadTlv(token).value.tag == 0x60 && ReadTlv(token).value.rest == [] {
      var t := ReadTlv(token).value;
      var o := ReadTlv(t.content).value;
      PartsWithin(token);
      PartsWithin(t.content);
      UnwrapInnerWithin(o.rest);
      WithinTransitive(r, o.rest, t.content);
      WithinTransitive(r, t.content, token);
    } else {
      UnwrapInnerWithin(token);
    }
  }

  // ---- The code's own loops ----

  /** `derLength`, filling a four-byte buffer from the end. */
  method EncodeLength(length: nat) returns (out: Bytes)
    requires length < 0x1_0000_0000
    ensures out == DerLength(length)
  {
    if length < 0x80 {
      return [length];
    }
    BigEndianSize(length, 4);
    var digits: Bytes := [];
    var n := length;
    while n > 0
      invariant BigEndian(n) + digits == BigEndian(length)
    {
      digits := [n % 256] + digits;
      n := n / 256;
    }
    out := [128 + |digits|] + digits;
  }

  /** `readDERTLV`, accumulating the long-form length byte by byte. */
  method DecodeTlv(data: Bytes) returns (t: Option<Tlv>)
    ensures t == ReadTlv(data)
  {
    if |data| < 2 || |data| > MAX_TOKEN {
      return None;
    }
    var offset, length: nat := 2, data[1];
    if data[1] >= 0x80 {
      var count := data[1] - 0x80;
      if count == 0 || count > 2 || |data| < offset + count {
        return None;
      }
      length := 0;
      for i := 0 to count
        invariant length == BigEndianValue(data[offset..offset + i])
      {
        assert data[offset..offset + i + 1][..i] == data[offset..offset + i];
        length := length * 256 + data[offset + i];
      }
      offset := offset + count;
    }
    if length > |data| - offset {
      return None;
    }
    t := Some(Tlv(data[0], data[offset..offset + length], data[offset + length..]));
  }

  /** `findSPNEGONTLMToken`. */
  method FindToken(items: Bytes) returns (token: Option<Bytes>)
    ensures token == Find(items)
  {
    var seq_ := items;
    while |seq_| > 0
      invariant Find(seq_) == Find(items)
      decreases |seq_|
    {
      var t := ReadTlv(seq_);
      if t.None? {
        return None;
      }
      AcceptedSplits(seq_);
      seq_ := t.value.rest;
      if t.value.tag == 0xa2 {
        var o := ReadTlv(t.value.content);
        if o.None? || o.value.tag != 0x04 || o.value.rest != [] || !IsNtlm(o.value.content) {
          return None;
        }
        return Some(o.value.content);
      }
    }
    return None;
  }
}
