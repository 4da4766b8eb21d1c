/** Number and text encodings used by the codecs: big-endian bytes, decimal digits, hex, splitting. */
module Text {
  import opened Basics

  function Pow256(n: nat): (p: nat)
    ensures p >= 1
  {
    if n == 0 then 1 else 256 * Pow256(n - 1)
  }

  function BigEndian(bs: Bytes): nat {
    if bs == [] then 0 else 256 * BigEndian(bs[..|bs| - 1]) + bs[|bs| - 1] as int
  }

  /** The low `len` bytes of `n`, most significant first. */
  function ToBigEndian(n: nat, len: nat): (bs: Bytes)
    ensures |bs| == len
  {
    if len == 0 then [] else ToBigEndian(n / 256, len - 1) + [(n % 256) as byte]
  }

  lemma {:induction false} BigEndianBound(bs: Bytes)
    ensures BigEndian(bs) < Pow256(|bs|)
  {
    if bs == [] {
    } else {
      BigEndianBound(bs[..|bs| - 1]);
    }
  }

  lemma {:induction false} SplitByte(high: nat, low: byte)
    ensures (256 * high + low as int) / 256 == high && (256 * high + low as int) % 256 == low as int
  {
  }

  lemma {:induction false} BytesToNumber(bs: Bytes)
    ensures ToBigEndian(BigEndian(bs), |bs|) == bs
  {
    if bs == [] {
    } else {
      BytesToNumber(bs[..|bs| - 1]);
      SplitByte(BigEndian(bs[..|bs| - 1]), bs[|bs| - 1]);
      assert bs == bs[..|bs| - 1] + [bs[|bs| - 1]];
    }
  }

  lemma {:induction false} BigEndianAppend(high: Bytes, low: byte)
    ensures BigEndian(high + [low]) == 256 * BigEndian(high) + low as int
  {
    assert (high + [low])[..|high|] == high;
  }

  lemma {:induction false} OneMoreByte(high: nat, low: byte, len: nat)
    requires BigEndian(ToBigEndian(high, len)) == high
    ensures BigEndian(ToBigEndian(256 * high + low as int, len + 1)) == 256 * high + low as int
  {
    SplitByte(high, low);
    BigEndianAppend(ToBigEndian(high, len), low);
  }

  lemma {:induction false} Decompose(n: nat) returns (high: nat, low: byte)
    ensures n == 256 * high + low as int
  {
    high, low := n / 256, (n % 256) as byte;
  }

  lemma {:induction false} NumberToBytes(n: nat, len: nat)
    requires n < Pow256(len)
    ensures BigEndian(ToBigEndian(n, len)) == n
    decreases len
  {
    if len == 0 {
    } else {
      var high, low := Decompose(n);
      NumberToBytes(high, len - 1);
      OneMoreByte(high, low, len - 1);
    }
  }

  /** Dropping the leading byte of a big-endian number keeps the rest of its bytes. */
  lemma {:induction false} DropLeading(n: nat, len: nat)
    ensures ToBigEndian(n, len + 1)[1..] == ToBigEndian(n, len)
  {
    if len == 0 {
    } else {
      DropLeading(n / 256, len - 1);
      assert ToBigEndian(n, len + 1)[1..] == ToBigEndian(n / 256, len)[1..] + [(n % 256) as byte];
    }
  }

  /** Only the low bytes of a number reach its encoding. */
  lemma {:induction false} LowBytes(n: nat, hi: nat, len: nat)
    ensures ToBigEndian(hi * Pow256(len) + n, len) == ToBigEndian(n, len)
  {
    if len == 0 {
    } else {
      var p := Pow256(len - 1);
      assert hi * (256 * p) == 256 * (hi * p);
      LowBytes(n / 256, hi, len - 1);
      assert (hi * Pow256(len) + n) / 256 == hi * p + n / 256;
    }
  }

  lemma {:induction false} LeadingZero(bs: Bytes)
    ensures BigEndian([0] + bs) == BigEndian(bs)
  {
    if bs == [] {
      assert [0] + bs == [0] && [0 as byte][..0] == [];
    } else {
      LeadingZero(bs[..|bs| - 1]);
      assert ([0] + bs)[..|bs|] == [0] + bs[..|bs| - 1];
    }
  }

  /** The first byte counts most. */
  lemma {:induction false} MostSignificantFirst(first: byte, rest: Bytes)
    ensures BigEndian([first] + rest) == first as int * Pow256(|rest|) + BigEndian(rest)
  {
    if rest == [] {
      assert [first] + rest == [first] && [first][..0] == [];
    } else {
      var n := |rest| - 1;
      MostSignificantFirst(first, rest[..n]);
      assert ([first] + rest)[..n + 1] == [first] + rest[..n];
      assert first as int * (256 * Pow256(n)) == 256 * (first as int * Pow256(n));
    }
  }

  lemma {:induction false} WordSizes()
    ensures Pow256(7) == TWO_56 && Pow256(8) == TWO_64
  {
    assert Pow256(4) == 0x1_0000_0000;
  }

  // ---------------------------------------------------------------------------------------------
  // Decimal

  predicate IsDigit(c: char) {
    '0' <= c <= '9'
  }

  function DigitValue(c: char): nat
    requires IsDigit(c)
  {
    c as int - '0' as int
  }

  function DigitChar(d: nat): (c: char)
    requires d < 10
    ensures IsDigit(c) && DigitValue(c) == d
  {
    (d + '0' as int) as char
  }

  predicate AllDigits(s: string) {
    forall c :: c in s ==> IsDigit(c)
  }

  /** A number printed in base 10. */
  function Decimal(n: nat): (s: string)
    ensures s != "" && AllDigits(s)
  {
    if n < 10 then [DigitChar(n)] else Decimal(n / 10) + [DigitChar(n % 10)]
  }

  function DigitsValue(s: string): nat
    requires AllDigits(s)
  {
    if s == "" then 0 else 10 * DigitsValue(s[..|s| - 1]) + DigitValue(s[|s| - 1])
  }

  /** strconv.ParseUint(s, 10, 64). */
  function ParseUint(s: string): Option<u64> {
    if s == "" || !AllDigits(s) then None
    else if DigitsValue(s) < TWO_64 then Some(DigitsValue(s)) else None
  }

  lemma {:induction false} DecimalValue(n: nat)
    ensures DigitsValue(Decimal(n)) == n
  {
    var s := Decimal(n);
    if n < 10 {
      assert s[..0] == "";
    } else {
      DecimalValue(n / 10);
      assert s[..|s| - 1] == Decimal(n / 10);
    }
  }

  lemma {:induction false} ParsePrinted(n: nat)
    ensures ParseUint(Decimal(n)) == if n < TWO_64 then Some(n) else None
  {
    DecimalValue(n);
  }

  function Zeroes(k: nat): (s: string)
    ensures |s| == k && AllDigits(s)
  {
    seq(k, _ => '0')
  }

  lemma {:induction false} LeadingZeroes(k: nat, s: string)
    requires AllDigits(s)
    ensures DigitsValue(Zeroes(k) + s) == DigitsValue(s)
    decreases k, |s|
  {
    var whole := Zeroes(k) + s;
    if |whole| == 0 {
    } else if s == "" {
      assert whole[..k - 1] == Zeroes(k - 1) + "";
      LeadingZeroes(k - 1, "");
    } else {
      assert whole[..|whole| - 1] == Zeroes(k) + s[..|s| - 1];
      LeadingZeroes(k, s[..|s| - 1]);
    }
  }

  /** Digits are the number they stand for in base 10, behind zeroes. */
  lemma {:induction false} DigitsAreDecimal(s: string) returns (k: nat)
    requires s != "" && AllDigits(s)
    ensures s == Zeroes(k) + Decimal(DigitsValue(s))
    decreases |s|
  {
    var n := |s| - 1;
    if n == 0 {
      assert s[..0] == "" && s == [s[0]];
      k := 0;
    } else {
      k := DigitsAreDecimal(s[..n]);
      assert s == s[..n] + [s[n]];
      k := OneMoreDigit(k, DigitsValue(s[..n]), s[n]);
    }
  }

  lemma {:induction false} OneMoreDigit(k: nat, v: nat, c: char) returns (k': nat)
    requires IsDigit(c)
    ensures Zeroes(k) + Decimal(v) + [c] == Zeroes(k') + Decimal(10 * v + DigitValue(c))
  {
    var d := DigitValue(c);
    assert DigitChar(d) == c;
    if v == 0 {
      k' := k + 1;
      assert Decimal(0) == "0" && Zeroes(k) + "0" == Zeroes(k + 1);
    } else {
      k' := k;
      SplitDigit(v, d);
      assert Zeroes(k) + Decimal(v) + [c] == Zeroes(k) + (Decimal(v) + [c]);
    }
  }

  lemma {:induction false} SplitDigit(v: nat, d: nat)
    requires v > 0 && d < 10
    ensures Decimal(10 * v + d) == Decimal(v) + [DigitChar(d)]
  {
    assert (10 * v + d) / 10 == v && (10 * v + d) % 10 == d;
  }

  /** The texts of a number: its decimal digits behind any number of zeroes, if it fits 64 bits. */
  lemma {:induction false} ParseUintMeaning(s: string, n: u64)
    ensures ParseUint(s) == Some(n) <==> exists k: nat :: s == Zeroes(k) + Decimal(n)
  {
    if ParseUint(s) == Some(n) {
      var k := DigitsAreDecimal(s);
    }
    if k: nat :| s == Zeroes(k) + Decimal(n) {
      LeadingZeroes(k, Decimal(n));
      DecimalValue(n);
    }
  }

  /** A number's last digit stands for its remainder by ten, and the digits before it for the rest. */
  lemma {:induction false} LastDigit(n: nat)
    ensures Decimal(n) == (if n < 10 then "" else Decimal(n / 10)) + ["0123456789"[n % 10]]
  {
    assert DigitChar(n % 10) == "0123456789"[n % 10];
  }

  // ---------------------------------------------------------------------------------------------
  // Hex

  function HexDigit(d: nat): (c: char)
    requires d < 16
    ensures c != '-'
  {
    "0123456789abcdef"[d]
  }

  function Hex(bs: Bytes): (s: string)
    ensures |s| == 2 * |bs|
  {
    if bs == [] then "" else
      Hex(bs[..|bs| - 1]) + [HexDigit(bs[|bs| - 1] as int / 16), HexDigit(bs[|bs| - 1] as int % 16)]
  }

  /** Each byte is two hex digits, the high one first. */
  lemma {:induction false} HexAt(bs: Bytes, i: nat)
    requires i < |bs|
    ensures Hex(bs)[2 * i] == "0123456789abcdef"[bs[i] as int / 16] && Hex(bs)[2 * i + 1] == "0123456789abcdef"[bs[i] as int % 16]
  {
    var n := |bs| - 1;
    if i == n {
    } else {
      HexAt(bs[..n], i);
    }
  }

  lemma {:induction false} HexDigitInjective(a: nat, b: nat)
    requires a < 16 && b < 16 && HexDigit(a) == HexDigit(b)
    ensures a == b
  {
  }

  lemma {:induction false} NibblesDetermine(a: byte, b: byte)
    requires HexDigit(a as int / 16) == HexDigit(b as int / 16) && HexDigit(a as int % 16) == HexDigit(b as int % 16)
    ensures a == b
  {
    HexDigitInjective(a as int / 16, b as int / 16);
    HexDigitInjective(a as int % 16, b as int % 16);
  }

  lemma {:induction false} HexInjective(a: Bytes, b: Bytes)
    requires Hex(a) == Hex(b)
    ensures a == b
    decreases |a|
  {
    assert |Hex(a)| == |Hex(b)|;
    if a == [] {
    } else {
      var n := |a| - 1;
      var ha, hb := Hex(a), Hex(b);
      assert ha[..2 * n] == Hex(a[..n]) && hb[..2 * n] == Hex(b[..n]);
      HexInjective(a[..n], b[..n]);
      assert ha[2 * n] == hb[2 * n] && ha[2 * n + 1] == hb[2 * n + 1];
      NibblesDetermine(a[n], b[n]);
      assert a == a[..n] + [a[n]] && b == b[..n] + [b[n]];
    }
  }

  // ---------------------------------------------------------------------------------------------
  // Splitting

  /** strings.Split with a one-character separator. */
  function Split(s: string, sep: char): (parts: seq<string>)
    ensures |parts| >= 1
  {
    if s == "" then [""]
    else
      var rest := Split(s[1..], sep);
      if s[0] == sep then [""] + rest else [[s[0]] + rest[0]] + rest[1..]
  }

  lemma {:induction false} SplitNone(s: string, sep: char)
    ensures |Split(s, sep)| == 1 <==> sep !in s
    ensures |Split(s, sep)| == 1 ==> Split(s, sep) == [s]
  {
    if s == "" {
    } else {
      SplitNone(s[1..], sep);
      assert s == [s[0]] + s[1..];
    }
  }

  lemma {:induction false} SplitJoined(a: string, sep: char, b: string)
    requires sep !in a && sep !in b
    ensures Split(a + [sep] + b, sep) == [a, b]
  {
    var s := a + [sep] + b;
    if a == "" {
      SplitNone(b, sep);
      assert s[0] == sep && s[1..] == b;
    } else {
      SplitJoined(a[1..], sep, b);
      assert s[0] == a[0] && s[1..] == a[1..] + [sep] + b;
      assert [a[0]] + a[1..] == a;
    }
  }

  lemma {:induction false} SplitInTwo(s: string, sep: char)
    requires |Split(s, sep)| == 2
    ensures var parts := Split(s, sep);
      s == parts[0] + [sep] + parts[1] && sep !in parts[0] && sep !in parts[1]
  {
    assert s == [s[0]] + s[1..];
    var rest := Split(s[1..], sep);
    if s[0] == sep {
      SplitNone(s[1..], sep);
      assert Split(s, sep) == ["", s[1..]];
    } else {
      assert Split(s, sep)[1..] == rest[1..];
      SplitInTwo(s[1..], sep);
    }
  }
}
