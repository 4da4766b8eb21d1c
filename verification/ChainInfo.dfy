/** The 8-byte chain identifier and its text form (pkg/types/chain_info.go). */
module ChainInfoCodec {
  import opened Basics
  import opened Text

  const CHAIN_INFO_SIZE: nat := 8
  const SEPARATOR: char := '|'
  const LAST_CHAIN_TYPE: byte := 3

  datatype ChainInfo = ChainInfo(chainType: byte, chainID: u64)

  predicate ValidateChainType(t: byte) {
    t <= LAST_CHAIN_TYPE
  }

  /** An unknown type prints as nothing. */
  function TypeName(t: byte): string {
    if t == 0 then "bitcoin" else if t == 1 then "evm" else if t == 2 then "solana" else if t == 3 then "cosmos" else ""
  }

  function TypeFromName(s: string): Option<byte> {
    if s == "bitcoin" then Some(0) else if s == "evm" then Some(1) else if s == "solana" then Some(2)
    else if s == "cosmos" then Some(3) else None
  }

  /** The id is what remains of the eight bytes once the first is cleared. */
  function ChainID(bs: Bytes): (id: u64)
    requires |bs| == CHAIN_INFO_SIZE
    ensures id < TWO_56
  {
    LeadingZero(bs[1..]);
    BigEndianBound(bs[1..]);
    WordSizes();
    BigEndian([0] + bs[1..])
  }

  function NewChainInfoFromBytes(bs: Bytes): Option<ChainInfo> {
    if |bs| != CHAIN_INFO_SIZE then None
    else if !ValidateChainType(bs[0]) then None
    else Some(ChainInfo(bs[0], ChainID(bs)))
  }

  function ToBytes(c: ChainInfo): (bs: Bytes)
    ensures |bs| == CHAIN_INFO_SIZE
  {
    [c.chainType] + ToBigEndian(c.chainID, CHAIN_INFO_SIZE)[1..]
  }

  function Print(bs: Bytes): string
    requires |bs| == CHAIN_INFO_SIZE
  {
    TypeName(bs[0]) + [SEPARATOR] + Decimal(ChainID(bs))
  }

  function Parse(s: string): Option<Bytes> {
    var parts := Split(s, SEPARATOR);
    if |parts| != 2 then None
    else if TypeFromName(parts[0]).None? then None
    else if ParseUint(parts[1]).None? then None
    else Some(ToBytes(ChainInfo(TypeFromName(parts[0]).value, ParseUint(parts[1]).value)))
  }

  /** ChainInfoBytes.FromString: the array is written only when the whole text is valid. */
  method FromString(c: array<byte>, s: string) returns (ok: bool)
    requires c.Length == CHAIN_INFO_SIZE
    modifies c
    ensures ok <==> Parse(s).Some?
    ensures c[..] == if ok then Parse(s).value else old(c[..])
    ensures ok ==> (c[0] == 0 && "bitcoin|" <= s) || (c[0] == 1 && "evm|" <= s) || (c[0] == 2 && "solana|" <= s)
                   || (c[0] == 3 && "cosmos|" <= s)
  {
    var parts := Split(s, SEPARATOR);
    if |parts| != 2 {
      return false;
    }
    var chainType := TypeFromName(parts[0]);
    if chainType.None? {
      return false;
    }
    var chainID := ParseUint(parts[1]);
    if chainID.None? {
      return false;
    }
    c[0] := chainType.value;
    var chainIDBytes := ToBigEndian(chainID.value, CHAIN_INFO_SIZE);
    for i := 1 to CHAIN_INFO_SIZE
      invariant c[0] == chainType.value
      invariant forall j :: 1 <= j < i ==> c[j] == chainIDBytes[j]
    {
      c[i] := chainIDBytes[i];
    }
    assert c[..] == Parse(s).value;
    SplitInTwo(s, SEPARATOR);
    return true;
  }

  // ---------------------------------------------------------------------------------------------
  // Round trips

  lemma {:induction false} LowSeven(n: nat)
    ensures ToBigEndian(n, 7) == ToBigEndian(n % TWO_56, 7) && BigEndian(ToBigEndian(n % TWO_56, 7)) == n % TWO_56
  {
    WordSizes();
    assert n / TWO_56 * TWO_56 + n % TWO_56 == n;
    LowBytes(n % TWO_56, n / TWO_56, 7);
    NumberToBytes(n % TWO_56, 7);
  }

  lemma {:induction false} ToBytesLow(c: ChainInfo)
    ensures ToBytes(c) == [c.chainType] + ToBigEndian(c.chainID % TWO_56, 7)
    ensures ChainID(ToBytes(c)) == c.chainID % TWO_56
  {
    DropLeading(c.chainID, 7);
    LowSeven(c.chainID);
    LeadingZero(ToBigEndian(c.chainID % TWO_56, 7));
    assert ToBytes(c)[1..] == ToBigEndian(c.chainID % TWO_56, 7);
  }

  lemma {:induction false} SmallMod(x: nat, m: nat)
    requires x < m
    ensures x % m == x
  {
  }

  /** For an id below 2^56 nothing is lost. */
  lemma {:induction false} ToBytesExact(c: ChainInfo)
    requires c.chainID < TWO_56
    ensures ToBytes(c)[0] == c.chainType && ChainID(ToBytes(c)) == c.chainID
  {
    ToBytesLow(c);
    SmallMod(c.chainID, TWO_56);
  }

  /** Bytes to struct to bytes. */
  lemma {:induction false} BytesRoundTrip(bs: Bytes)
    requires |bs| == CHAIN_INFO_SIZE
    ensures NewChainInfoFromBytes(bs).Some? <==> bs[0] <= LAST_CHAIN_TYPE
    ensures NewChainInfoFromBytes(bs).Some? ==> ToBytes(NewChainInfoFromBytes(bs).value) == bs
  {
    LeadingZero(bs[1..]);
    BytesToNumber(bs[1..]);
    DropLeading(ChainID(bs), 7);
    assert bs == [bs[0]] + bs[1..];
  }

  /** Struct to bytes to struct, exactly for valid types and ids below 2^56. */
  lemma {:induction false} StructRoundTrip(c: ChainInfo)
    ensures NewChainInfoFromBytes(ToBytes(c)) == Some(c) <==> c.chainType <= LAST_CHAIN_TYPE && c.chainID < TWO_56
  {
    ToBytesLow(c);
  }

  lemma {:induction false} NamesRoundTrip(t: byte)
    ensures TypeFromName(TypeName(t)) == if t <= LAST_CHAIN_TYPE then Some(t) else None
    ensures SEPARATOR !in TypeName(t)
    ensures TypeName(0) == "bitcoin" && TypeName(1) == "evm" && TypeName(2) == "solana" && TypeName(3) == "cosmos"
  {
  }

  /** Any number below 2^64 is accepted in the text, and its low 56 bits are kept. */
  lemma {:induction false} ParseTruncates(t: byte, n: nat)
    requires t <= LAST_CHAIN_TYPE
    ensures Parse(TypeName(t) + [SEPARATOR] + Decimal(n))
         == if n < TWO_64 then Some([t] + ToBigEndian(n % TWO_56, 7)) else None
  {
    NamesRoundTrip(t);
    ParsePrinted(n);
    SplitJoined(TypeName(t), SEPARATOR, Decimal(n));
    if n < TWO_64 {
      ToBytesLow(ChainInfo(t, n));
    }
  }

  /** Printing and parsing, exactly on bytes with a valid type. */
  lemma {:induction false} TextRoundTrip(bs: Bytes)
    requires |bs| == CHAIN_INFO_SIZE
    ensures Parse(Print(bs)) == Some(bs) <==> bs[0] <= LAST_CHAIN_TYPE
  {
    NamesRoundTrip(bs[0]);
    if bs[0] <= LAST_CHAIN_TYPE {
      ParseTruncates(bs[0], ChainID(bs));
      BytesRoundTrip(bs);
      ToBytesLow(ChainInfo(bs[0], ChainID(bs)));
    } else {
      SplitJoined(TypeName(bs[0]), SEPARATOR, Decimal(ChainID(bs)));
    }
  }

  /** What the parser accepts: a known name, one separator, and decimal digits of a number below 2^64. */
  lemma {:induction false} ParseAccepts(s: string)
    ensures Parse(s).Some? <==> exists t: byte, digits: string ::
      t <= 3 && s == ["bitcoin", "evm", "solana", "cosmos"][t] + "|" + digits && ParseUint(digits).Some?
  {
    if Parse(s).Some? {
      SplitInTwo(s, SEPARATOR);
      var parts := Split(s, SEPARATOR);
      var t := TypeFromName(parts[0]).value;
      assert s == ["bitcoin", "evm", "solana", "cosmos"][t] + "|" + parts[1];
    }
    forall t: byte, digits: string |
      t <= 3 && s == ["bitcoin", "evm", "solana", "cosmos"][t] + "|" + digits && ParseUint(digits).Some?
      ensures Parse(s).Some?
    {
      assert TypeName(t) == ["bitcoin", "evm", "solana", "cosmos"][t];
      NamesRoundTrip(t);
      SplitJoined(TypeName(t), SEPARATOR, digits);
    }
  }
}
