/** The vault payload of an OP_RETURN output (pkg/btc/parser.go, sizes from pkg/btc/types.go). */
module VaultPayload {
  import opened Basics
  import opened Text
  import opened ChainInfoCodec

  const TAG_SIZE: nat := 6
  const HEADER_SIZE: nat := 9     // tag, version, network id, flags
  const SERVICE_TAG_SIZE: nat := 5
  const SESSION_SIZE: nat := 8
  const UID_SIZE: nat := 32
  const ADDRESS_SIZE: nat := 20

  const POOL_REDEEM: byte := 0x41
  const UPC_REDEEM: byte := 0x81
  const OP_RETURN: byte := 0x6a

  datatype Config = Config(tag: Bytes, version: byte)

  datatype TxType = Redeem | Staking

  datatype Output = Output(
    tag: Bytes, version: byte, networkID: byte, flags: byte, serviceTag: Bytes, txType: TxType,
    custodianQuorum: byte, destChainType: byte, destChainID: u64,
    tokenAddress: Bytes, recipientAddress: Bytes, scriptPubkey: Bytes,
    sessionSequence: u64, custodianGroupUID: Bytes)

  datatype ParseError = TooShort | TagMismatch | VersionMismatch | LayoutTooShort | BadChainInfo

  function Zeros(n: nat): (z: Bytes)
    ensures |z| == n
  {
    seq(n, _ => 0)
  }

  /** The record as it stands once the common header has been read. */
  function Blank(data: Bytes): Output
    requires |data| >= HEADER_SIZE
  {
    Output(data[..TAG_SIZE], data[6], data[7], data[8], Zeros(SERVICE_TAG_SIZE), Redeem, 0, 0, 0,
           Zeros(ADDRESS_SIZE), Zeros(ADDRESS_SIZE), [], 0, Zeros(UID_SIZE))
  }

  /** How many bytes the layout selected by the flags occupies. */
  function PayloadSize(flags: byte): nat {
    if flags == POOL_REDEEM then 54 else if flags == UPC_REDEEM then 14 else 63
  }

  lemma {:induction false} SessionBound(bs: Bytes)
    requires |bs| == SESSION_SIZE
    ensures BigEndian(bs) < TWO_64
  {
    BigEndianBound(bs);
    WordSizes();
  }

  /** The record at fixed places of the payload; `Accepts` says when it is produced. */
  function Fields(data: Bytes): Output
    requires |data| >= HEADER_SIZE && |data| >= PayloadSize(data[8])
  {
    var o := Blank(data).(serviceTag := data[9..14]);
    if data[8] == POOL_REDEEM then
      SessionBound(data[14..22]);
      o.(sessionSequence := BigEndian(data[14..22]), custodianGroupUID := data[22..54])
    else if data[8] == UPC_REDEEM then o
    else
      o.(txType := Staking, custodianQuorum := data[14], destChainType := data[15], destChainID := ChainID(data[15..23]),
         tokenAddress := data[23..43], recipientAddress := data[43..63])
  }

  predicate Accepts(cfg: Config, data: Bytes) {
    && |data| >= 14
    && data[..TAG_SIZE] == cfg.tag && data[6] == cfg.version
    && |data| >= PayloadSize(data[8])
    && (data[8] != POOL_REDEEM && data[8] != UPC_REDEEM ==> data[15] <= LAST_CHAIN_TYPE)
  }

  /** Which payloads are refused, and with which error: the first rule that is not met. */
  predicate RefusedWith(cfg: Config, data: Bytes, e: ParseError) {
    match e
    case TooShort => |data| < 14
    case TagMismatch => |data| >= 14 && data[..TAG_SIZE] != cfg.tag
    case VersionMismatch => |data| >= 14 && data[..TAG_SIZE] == cfg.tag && data[6] != cfg.version
    case LayoutTooShort =>
      |data| >= 14 && data[..TAG_SIZE] == cfg.tag && data[6] == cfg.version && |data| < PayloadSize(data[8])
    case BadChainInfo =>
      && |data| >= 63 && data[..TAG_SIZE] == cfg.tag && data[6] == cfg.version
      && data[8] != POOL_REDEEM && data[8] != UPC_REDEEM && data[15] > LAST_CHAIN_TYPE
  }

  // ---------------------------------------------------------------------------------------------
  // The code: an offset moves through the data and fills the record

  method ParsePoolRedeem(data: Bytes, blank: Output) returns (r: Result<Output, ParseError>)
    ensures r.Ok? <==> |data| >= 45
    ensures r.Err? ==> r.error == LayoutTooShort
    ensures r.Ok? ==>
      && BigEndian(data[5..13]) < TWO_64
      && r.value == blank.(txType := Redeem, serviceTag := data[..5], sessionSequence := BigEndian(data[5..13]),
                           custodianGroupUID := data[13..45])
  {
    var out := blank.(txType := Redeem);
    if |data| < SERVICE_TAG_SIZE + SESSION_SIZE + UID_SIZE {
      return Err(LayoutTooShort);
    }
    var offset := 0;
    out := out.(serviceTag := data[offset..offset + SERVICE_TAG_SIZE]);
    offset := offset + SERVICE_TAG_SIZE;
    SessionBound(data[offset..offset + SESSION_SIZE]);
    out := out.(sessionSequence := BigEndian(data[offset..offset + SESSION_SIZE]));
    offset := offset + SESSION_SIZE;
    out := out.(custodianGroupUID := data[offset..offset + UID_SIZE]);
    return Ok(out);
  }

  method ParseUpcRedeem(data: Bytes, blank: Output) returns (r: Result<Output, ParseError>)
    ensures r.Ok? <==> |data| >= SERVICE_TAG_SIZE
    ensures r.Err? ==> r.error == LayoutTooShort
    ensures r.Ok? ==> r.value == blank.(txType := Redeem, serviceTag := data[..5])
  {
    if |data| < SERVICE_TAG_SIZE {
      return Err(LayoutTooShort);
    }
    var out := blank.(txType := Redeem);
    var offset := 0;
    out := out.(serviceTag := data[offset..offset + SERVICE_TAG_SIZE]);
    return Ok(out);
  }

  method ParseStaking(data: Bytes, blank: Output) returns (r: Result<Output, ParseError>)
    ensures r.Ok? <==> |data| >= 54 && data[6] <= LAST_CHAIN_TYPE
    ensures r.Err? ==> r.error == if |data| < 54 then LayoutTooShort else BadChainInfo
    ensures r.Ok? ==>
      r.value == blank.(txType := Staking, serviceTag := data[..5], custodianQuorum := data[5], destChainType := data[6],
                        destChainID := ChainID(data[6..14]), tokenAddress := data[14..34], recipientAddress := data[34..54])
  {
    var out := blank.(txType := Staking);
    var offset := 0;
    if |data| < SERVICE_TAG_SIZE + 1 + CHAIN_INFO_SIZE + ADDRESS_SIZE + ADDRESS_SIZE {
      return Err(LayoutTooShort);
    }
    out := out.(serviceTag := data[offset..offset + SERVICE_TAG_SIZE]);
    offset := offset + SERVICE_TAG_SIZE;
    out := out.(custodianQuorum := data[offset]);
    offset := offset + 1;
    var chainInfo := NewChainInfoFromBytes(data[offset..offset + CHAIN_INFO_SIZE]);
    if chainInfo.None? {
      return Err(BadChainInfo);
    }
    out := out.(destChainType := chainInfo.value.chainType, destChainID := chainInfo.value.chainID);
    offset := offset + CHAIN_INFO_SIZE;
    out := out.(tokenAddress := data[offset..offset + ADDRESS_SIZE]);
    offset := offset + ADDRESS_SIZE;
    out := out.(recipientAddress := data[offset..offset + ADDRESS_SIZE]);
    return Ok(out);
  }

  lemma {:induction false} SliceOfRest(data: Bytes, from: nat, a: nat, b: nat)
    requires a <= b && from + b <= |data|
    ensures data[from..][a..b] == data[from + a..from + b]
  {
  }

  /** Accepts exactly the payloads that meet the tag, version, length and chain-type rules, and says why not. */
  method ParseVaultReturnTxOutput(cfg: Config, data: Bytes) returns (r: Result<Output, ParseError>)
    ensures r.Ok? <==> Accepts(cfg, data)
    ensures r.Ok? ==> r.value == Fields(data)
    ensures forall e :: r == Err(e) <==> RefusedWith(cfg, data, e)
    ensures r == Err(TooShort) <==> |data| < 14
    ensures r == Err(TagMismatch) <==> |data| >= 14 && data[..6] != cfg.tag
    ensures r == Err(VersionMismatch) <==> |data| >= 14 && data[..6] == cfg.tag && data[6] != cfg.version
    ensures r.Ok? || r == Err(LayoutTooShort) || r == Err(BadChainInfo) <==>
      |data| >= 14 && data[..6] == cfg.tag && data[6] == cfg.version
    ensures r.Ok? && data[8] == 0x41 ==>
      && |data| >= 54 && r.value.txType == Redeem && r.value.serviceTag == data[9..14]
      && r.value.sessionSequence == BigEndian(data[14..22]) && r.value.custodianGroupUID == data[22..54]
    ensures r.Ok? && data[8] == 0x81 ==> r.value.txType == Redeem && r.value.serviceTag == data[9..14]
    ensures r.Ok? && data[8] != 0x41 && data[8] != 0x81 ==>
      && |data| >= 63 && r.value.txType == Staking && r.value.serviceTag == data[9..14] && r.value.custodianQuorum == data[14]
      && r.value.destChainType == data[15] <= 3 && r.value.destChainID == BigEndian([0] + data[16..23])
      && r.value.tokenAddress == data[23..43] && r.value.recipientAddress == data[43..63]
  {
    if |data| < TAG_SIZE + 1 + 1 + 1 + SERVICE_TAG_SIZE {
      return Err(TooShort);
    }
    var offset := 0;
    var tag := data[offset..offset + TAG_SIZE];
    if tag != cfg.tag {
      return Err(TagMismatch);
    }
    offset := offset + TAG_SIZE;
    var version := data[offset];
    offset := offset + 1;
    if version != cfg.version {
      return Err(VersionMismatch);
    }
    var networkID := data[offset];
    offset := offset + 1;
    var flags := data[offset];
    offset := offset + 1;
    var rest := data[offset..];
    var blank := Output(tag, version, networkID, flags, Zeros(SERVICE_TAG_SIZE), Redeem, 0, 0, 0,
                        Zeros(ADDRESS_SIZE), Zeros(ADDRESS_SIZE), [], 0, Zeros(UID_SIZE));
    if flags == POOL_REDEEM {
      r := ParsePoolRedeem(rest, blank);
      if r.Ok? {
        SliceOfRest(data, 9, 0, 5);
        SliceOfRest(data, 9, 5, 13);
        SliceOfRest(data, 9, 13, 45);
      }
    } else if flags == UPC_REDEEM {
      r := ParseUpcRedeem(rest, blank);
      SliceOfRest(data, 9, 0, 5);
    } else {
      r := ParseStaking(rest, blank);
      if r.Ok? {
        SliceOfRest(data, 9, 0, 5);
        SliceOfRest(data, 9, 6, 14);
        SliceOfRest(data, 9, 14, 34);
        SliceOfRest(data, 9, 34, 54);
      }
    }
  }

  // ---------------------------------------------------------------------------------------------
  // The reference encoder

  function Head(o: Output): Bytes {
    o.tag + [o.version, o.networkID, o.flags] + o.serviceTag
  }

  function Encode(o: Output): Bytes {
    if o.flags == POOL_REDEEM then
      Head(o) + ToBigEndian(o.sessionSequence, SESSION_SIZE) + o.custodianGroupUID
    else if o.flags == UPC_REDEEM then
      Head(o)
    else
      Head(o) + [o.custodianQuorum] + ToBytes(ChainInfo(o.destChainType, o.destChainID)) + o.tokenAddress + o.recipientAddress
  }

  /** A record of the given configuration whose fields fit its layout; fields outside the layout are zero. */
  predicate WellFormed(cfg: Config, o: Output) {
    && o.tag == cfg.tag && |o.tag| == TAG_SIZE && o.version == cfg.version
    && |o.serviceTag| == SERVICE_TAG_SIZE && o.scriptPubkey == []
    && (o.txType == Redeem <==> o.flags == POOL_REDEEM || o.flags == UPC_REDEEM)
    && (if o.flags == POOL_REDEEM then |o.custodianGroupUID| == UID_SIZE
        else o.sessionSequence == 0 && o.custodianGroupUID == Zeros(UID_SIZE))
    && (if o.txType == Staking then
          && |o.tokenAddress| == ADDRESS_SIZE && |o.recipientAddress| == ADDRESS_SIZE
          && o.destChainType <= LAST_CHAIN_TYPE && o.destChainID < TWO_56
        else
          && o.custodianQuorum == 0 && o.destChainType == 0 && o.destChainID == 0
          && o.tokenAddress == Zeros(ADDRESS_SIZE) && o.recipientAddress == Zeros(ADDRESS_SIZE))
  }

  lemma {:induction false} HeadSlices(o: Output, data: Bytes)
    requires |o.tag| == TAG_SIZE && |o.serviceTag| == SERVICE_TAG_SIZE && Head(o) <= data
    ensures |data| >= 14 && data[..TAG_SIZE] == o.tag && data[6] == o.version && data[7] == o.networkID && data[8] == o.flags
    ensures data[9..14] == o.serviceTag
  {
    assert data[..14] == Head(o);
    assert data[..TAG_SIZE] == Head(o)[..TAG_SIZE] == o.tag;
    assert data[9..14] == Head(o)[9..14] == o.serviceTag;
    assert data[6] == Head(o)[6] && data[7] == Head(o)[7] && data[8] == Head(o)[8];
  }

  lemma {:induction false} EncodedHead(o: Output, data: Bytes)
    requires |o.tag| == TAG_SIZE && |o.serviceTag| == SERVICE_TAG_SIZE && Encode(o) <= data
    ensures |data| >= 14 && data[..TAG_SIZE] == o.tag && data[6] == o.version && data[7] == o.networkID && data[8] == o.flags
    ensures data[9..14] == o.serviceTag
  {
    assert Head(o) <= Encode(o);
    HeadSlices(o, data);
  }

  lemma {:induction false} PoolRoundTrip(cfg: Config, o: Output, data: Bytes)
    requires WellFormed(cfg, o) && o.flags == POOL_REDEEM && Encode(o) <= data
    ensures Accepts(cfg, data) && Fields(data) == o
  {
    EncodedHead(o, data);
    var session := ToBigEndian(o.sessionSequence, SESSION_SIZE);
    assert data[14..22] == Encode(o)[14..22] == session;
    assert data[22..54] == Encode(o)[22..54] == o.custodianGroupUID;
    WordSizes();
    NumberToBytes(o.sessionSequence, SESSION_SIZE);
  }

  lemma {:induction false} StakingSlices(o: Output, data: Bytes)
    requires |o.tag| == TAG_SIZE && |o.serviceTag| == SERVICE_TAG_SIZE
    requires |o.tokenAddress| == ADDRESS_SIZE && |o.recipientAddress| == ADDRESS_SIZE
    requires o.flags != POOL_REDEEM && o.flags != UPC_REDEEM && Encode(o) <= data
    ensures |data| >= 63 && data[14] == o.custodianQuorum
    ensures data[15..23] == ToBytes(ChainInfo(o.destChainType, o.destChainID))
    ensures data[23..43] == o.tokenAddress && data[43..63] == o.recipientAddress
  {
    var e := Encode(o);
    assert |e| == 63 && data[..63] == e;
    assert e[14] == o.custodianQuorum;
    assert e[15..23] == ToBytes(ChainInfo(o.destChainType, o.destChainID));
    assert e[23..43] == o.tokenAddress;
    assert e[43..63] == o.recipientAddress;
    SliceOfPrefix(data, e, 15, 23);
    SliceOfPrefix(data, e, 23, 43);
    SliceOfPrefix(data, e, 43, 63);
  }

  lemma {:induction false} SliceOfPrefix(data: Bytes, prefix: Bytes, a: nat, b: nat)
    requires prefix <= data && a <= b <= |prefix|
    ensures data[a..b] == prefix[a..b]
  {
    assert data[..|prefix|] == prefix;
  }

  /** A payload whose pieces are the record's fields is parsed to that record. */
  lemma {:induction false} StakingPieces(cfg: Config, o: Output, data: Bytes, chain: Bytes)
    requires WellFormed(cfg, o) && o.txType == Staking && |data| >= 63
    requires data[..TAG_SIZE] == o.tag && data[6] == o.version && data[7] == o.networkID && data[8] == o.flags
    requires data[9..14] == o.serviceTag && data[14] == o.custodianQuorum && data[15..23] == chain
    requires |chain| == CHAIN_INFO_SIZE && chain[0] == o.destChainType && ChainID(chain) == o.destChainID
    requires data[23..43] == o.tokenAddress && data[43..63] == o.recipientAddress
    ensures Accepts(cfg, data) && Fields(data) == o
  {
    assert data[15] == data[15..23][0];
  }

  lemma {:induction false} StakingRoundTrip(cfg: Config, o: Output, data: Bytes)
    requires WellFormed(cfg, o) && o.txType == Staking && Encode(o) <= data
    ensures Accepts(cfg, data) && Fields(data) == o
  {
    var c := ChainInfo(o.destChainType, o.destChainID);
    EncodedHead(o, data);
    StakingSlices(o, data);
    ToBytesExact(c);
    StakingPieces(cfg, o, data, ToBytes(c));
  }

  /** The parser inverts the encoder for each layout, whatever follows the payload. */
  lemma {:induction false} DecodeEncoded(cfg: Config, o: Output, trailing: Bytes)
    requires WellFormed(cfg, o)
    ensures Accepts(cfg, Encode(o) + trailing) && Fields(Encode(o) + trailing) == o
  {
    var data := Encode(o) + trailing;
    if o.flags == POOL_REDEEM {
      PoolRoundTrip(cfg, o, data);
    } else if o.flags == UPC_REDEEM {
      HeadSlices(o, data);
    } else {
      StakingRoundTrip(cfg, o, data);
    }
  }

  /** The other way: the accepted record encodes back to exactly the bytes that were read. */
  lemma {:induction false} EncodeDecoded(cfg: Config, data: Bytes)
    requires Accepts(cfg, data)
    ensures WellFormed(cfg, Fields(data)) && Encode(Fields(data)) == data[..PayloadSize(data[8])]
  {
    var o := Fields(data);
    assert Head(o) == data[..14];
    if data[8] == POOL_REDEEM {
      BytesToNumber(data[14..22]);
      assert data[..54] == data[..14] + data[14..22] + data[22..54];
    } else if data[8] != UPC_REDEEM {
      BytesRoundTrip(data[15..23]);
      assert data[..63] == data[..14] + [data[14]] + data[15..23] + data[23..43] + data[43..63];
    }
  }

  /** So nothing that was read is forgotten, and nothing after it matters. */
  lemma {:induction false} ReadBytesDetermined(cfg: Config, d1: Bytes, d2: Bytes)
    requires Accepts(cfg, d1) && Accepts(cfg, d2)
    ensures Fields(d1) == Fields(d2) <==> d1[..PayloadSize(d1[8])] == d2[..PayloadSize(d2[8])]
  {
    EncodeDecoded(cfg, d1);
    EncodeDecoded(cfg, d2);
    var p1, p2 := d1[..PayloadSize(d1[8])], d2[..PayloadSize(d2[8])];
    DecodeEncoded(cfg, Fields(d1), d1[PayloadSize(d1[8])..]);
    if p1 == p2 {
      DecodeEncoded(cfg, Fields(d1), d2[|p2|..]);
      assert p1 + d2[|p2|..] == d2;
    }
  }

  // ---------------------------------------------------------------------------------------------
  // The caller's check

  datatype TxError = FewOutputs | BadPayload(error: ParseError) | UnsupportedChain

  /** `scripts` are the output scripts of a transaction. No result means it is not a vault transaction. */
  method ParseVaultMsgTx(cfg: Config, scripts: seq<Bytes>) returns (r: Result<Option<Output>, TxError>)
    ensures r == Err(FewOutputs) <==> |scripts| < 2
    ensures r == Ok(None) <==> |scripts| >= 2 && (|scripts[0]| < 2 || scripts[0][0] != OP_RETURN)
    ensures (r.Ok? && r.value.Some?) <==>
      && |scripts| >= 2 && |scripts[0]| >= 2 && scripts[0][0] == OP_RETURN
      && Accepts(cfg, scripts[0][2..]) && Fields(scripts[0][2..]).destChainID > 0
    ensures |scripts| >= 2 && |scripts[0]| >= 2 && scripts[0][0] == OP_RETURN ==>
      forall e :: r == Err(BadPayload(e)) <==> RefusedWith(cfg, scripts[0][2..], e)
    ensures r == Err(UnsupportedChain) <==>
      && |scripts| >= 2 && |scripts[0]| >= 2 && scripts[0][0] == OP_RETURN
      && Accepts(cfg, scripts[0][2..]) && Fields(scripts[0][2..]).destChainID == 0
    ensures r.Ok? && r.value.Some? ==>
      r.value.value == Fields(scripts[0][2..]).(scriptPubkey := scripts[0])
  {
    if |scripts| < 2 {
      return Err(FewOutputs);
    }
    var first := scripts[0];
    if |first| < 2 || first[0] != OP_RETURN {
      return Ok(None);
    }
    var parsed := ParseVaultReturnTxOutput(cfg, first[2..]);
    if parsed.Err? {
      return Err(BadPayload(parsed.error));
    }
    if parsed.value.destChainID <= 0 {
      return Err(UnsupportedChain);
    }
    return Ok(Some(parsed.value.(scriptPubkey := first)));
  }

  /**
   * What the id check lets through: a staking record with a known chain type and 0 < id < 2^56. Both redeem layouts
   * carry no chain, so no redeem payload ever passes.
   */
  lemma {:induction false} OnlyStakingPasses(cfg: Config, data: Bytes)
    requires Accepts(cfg, data)
    ensures var o := Fields(data);
      && (o.destChainID > 0 ==>
            && o.txType == Staking && data[8] != POOL_REDEEM && data[8] != UPC_REDEEM
            && o.destChainType <= LAST_CHAIN_TYPE && o.destChainID < TWO_56)
      && (o.destChainID > 0 <==> o.txType == Staking && exists i :: 16 <= i < 23 && data[i] != 0)
  {
    if data[8] != POOL_REDEEM && data[8] != UPC_REDEEM {
      LeadingZero(data[15..23][1..]);
      assert data[15..23][1..] == data[16..23];
      ZeroOnly(data[16..23]);
      if i :| 0 <= i < 7 && data[16..23][i] != 0 {
        assert data[16 + i] != 0;
      }
      if i :| 16 <= i < 23 && data[i] != 0 {
        assert data[16..23][i - 16] != 0;
      }
    }
  }

  lemma {:induction false} ZeroOnly(bs: Bytes)
    ensures BigEndian(bs) > 0 <==> exists i :: 0 <= i < |bs| && bs[i] != 0
  {
    if bs == [] {
    } else {
      var n := |bs| - 1;
      ZeroOnly(bs[..n]);
      assert forall i :: 0 <= i < n ==> bs[..n][i] == bs[i];
      assert bs[n] != 0 ==> exists i :: 0 <= i < |bs| && bs[i] != 0;
    }
  }
}
