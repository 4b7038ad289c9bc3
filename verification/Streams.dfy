/** PropWriteStream and PropStream: numbers and strings as bytes in a growing buffer. */
module Streams {
  import opened Wrappers
  import opened NodeFormat

  /** 256 to the power of w. */
  function Radix(w: nat): (r: nat)
    ensures r >= 1
  {
    if w == 0 then 1 else 256 * Radix(w - 1)
  }

  /** The w low bytes of a number, lowest first. */
  function Le(n: nat, w: nat): (s: seq<byte>)
    ensures |s| == w
  {
    if w == 0 then [] else [n % 256] + Le(n / 256, w - 1)
  }

  /** The number some bytes stand for. */
  function Val(s: seq<byte>): nat {
    if s == [] then 0 else s[0] + 256 * Val(s[1..])
  }

  /** Writing a number with w bytes keeps it modulo 256 to the power of w. */
  lemma {:induction false} ValOfLe(n: nat, w: nat)
    ensures Val(Le(n, w)) == n % Radix(w)
  {
    if w > 0 {
      ValOfLe(n / 256, w - 1);
      ModOfDigits(n, Radix(w - 1));
    }
  }

  lemma ModOfDigits(n: nat, r: nat)
    requires r >= 1
    ensures n % 256 + 256 * (n / 256 % r) == n % (256 * r)
  {
    var k := n / 256 / r;
    var low := n % 256 + 256 * (n / 256 % r);
    assert n / 256 == k * r + n / 256 % r;
    assert n == 256 * r * k + low by {
      assert n == 256 * (n / 256) + n % 256;
      assert 256 * (k * r) == 256 * r * k;
    }
    assert low < 256 * r by {
      assert n / 256 % r <= r - 1;
    }
    ModIs(n, 256 * r, k, low);
  }

  lemma ModIs(n: nat, m: nat, k: nat, low: nat)
    requires m >= 1 && n == m * k + low && low < m
    ensures n % m == low
  {
    var q, r := n / m, n % m;
    assert n == m * q + r;
    assert m * (q - k) == m * q - m * k;
    SmallMultiple(m, q - k);
  }

  lemma SmallMultiple(m: int, d: int)
    requires m >= 1 && -m < m * d < m
    ensures d == 0
  {
    assert d >= 1 ==> m * d >= m * 1;
    assert d <= -1 ==> m * d <= m * -1;
  }

  /** What ADD_STRING keeps of a string: its length is written in 16 bits, and so many bytes follow. */
  function Cut(s: seq<byte>): (r: seq<byte>)
    ensures |s| < 65536 ==> r == s
    ensures |r| < 65536
  {
    s[..|s| % 65536]
  }

  function StringBytes(s: seq<byte>): seq<byte> {
    Le(|s|, 2) + Cut(s)
  }

  class PropWriteStream {
    var buffer: array<byte>
    var size: nat

    ghost predicate Valid()
      reads this
    {
      size <= buffer.Length
    }

    ghost function Contents(): seq<byte>
      reads this, buffer
      requires Valid()
    {
      buffer[..size]
    }

    constructor ()
      ensures Valid() && fresh(buffer) && Contents() == []
    {
      buffer := new byte[32](_ => 0);
      size := 0;
    }

    /** Makes room for n more bytes. */
    method Reserve(n: nat)
      requires Valid()
      modifies this`buffer
      ensures Valid() && size + n <= buffer.Length && Contents() == old(Contents())
      ensures buffer == old(buffer) || fresh(buffer)
    {
      if buffer.Length - size < n {
        var bigger := new byte[buffer.Length + n + 0x1F](_ => 0);
        for i := 0 to size
          invariant buffer == old(buffer) && bigger[..i] == buffer[..i]
        {
          bigger[i] := buffer[i];
        }
        buffer := bigger;
      }
    }

    /** Appends raw bytes. */
    method AddBytes(s: seq<byte>)
      requires Valid()
      modifies this, buffer
      ensures Valid() && Contents() == old(Contents()) + s
      ensures buffer == old(buffer) || fresh(buffer)
    {
      Reserve(|s|);
      ghost var before, room := Contents(), buffer;
      for i := 0 to |s|
        invariant buffer == room && size == |before| && size + |s| <= buffer.Length
        invariant buffer[..size + i] == before + s[..i]
      {
        buffer[size + i] := s[i];
        assert buffer[..size + i] == before + s[..i];
        assert buffer[..size + i + 1] == buffer[..size + i] + [s[i]];
      }
      size := size + |s|;
    }

    /** ADD_UINT8, ADD_UINT16 and ADD_UINT32 for w = 1, 2, 4. */
    method AddValue(n: nat, w: nat)
      requires Valid()
      modifies this, buffer
      ensures Valid() && Contents() == old(Contents()) + Le(n, w)
      ensures buffer == old(buffer) || fresh(buffer)
    {
      AddBytes(Le(n, w));
    }

    method AddString(s: seq<byte>)
      requires Valid()
      modifies this, buffer
      ensures Valid() && Contents() == old(Contents()) + StringBytes(s)
      ensures buffer == old(buffer) || fresh(buffer)
    {
      var strLen := |s| % 65536;
      AddValue(strLen, 2);
      AddBytes(s[..strLen]);
      LeWraps(|s|);
      assert old(Contents()) + Le(|s|, 2) + Cut(s) == old(Contents()) + (Le(|s|, 2) + Cut(s));
    }
  }

  lemma LeWraps(n: nat)
    ensures Le(n % 65536, 2) == Le(n, 2)
  {
    hide Le;
    TwoBytes(n);
    TwoBytes(n % 65536);
    LowBytes(n / 65536, n % 65536);
  }

  lemma LowBytes(q: nat, m: nat)
    requires m < 65536
    ensures (65536 * q + m) % 256 == m % 256 && (65536 * q + m) / 256 % 256 == m / 256 % 256
  {
    assert 65536 * q + m == 256 * (256 * q + m / 256) + m % 256;
    assert (65536 * q + m) / 256 == 256 * q + m / 256;
  }

  lemma TwoBytes(n: nat)
    ensures Le(n, 2) == [n % 256, n / 256 % 256]
  {
    assert Le(n / 256, 1) == [n / 256 % 256] + Le(n / 256 / 256, 0);
  }

  class PropStream {
    const data: seq<byte>
    var p: nat

    ghost predicate Valid()
      reads this
    {
      p <= |data|
    }

    constructor (data: seq<byte>)
      ensures this.data == data && p == 0 && Valid()
    {
      this.data := data;
      p := 0;
    }

    /** GET_UINT8, GET_UINT16 and GET_UINT32 for w = 1, 2, 4. */
    method GetValue(w: nat) returns (ok: bool, ret: nat)
      requires Valid()
      modifies this
      ensures Valid()
      ensures ok <==> old(p) + w <= |data|
      ensures ok ==> p == old(p) + w && ret == Val(data[old(p)..p])
      ensures !ok ==> p == old(p)
    {
      if |data| - p < w {
        return false, 0;
      }
      ok, ret := true, Val(data[p..p + w]);
      p := p + w;
    }

    method GetString() returns (ok: bool, ret: seq<byte>)
      requires Valid()
      modifies this
      ensures Valid() && p >= old(p)
      ensures ok <==> old(p) + 2 <= |data| && old(p) + 2 + Val(data[old(p)..old(p) + 2]) <= |data|
      ensures ok ==> p == old(p) + 2 + |ret| && |ret| == Val(data[old(p)..old(p) + 2])
                     && ret == data[old(p) + 2..p]
    {
      ret := [];
      var strLen;
      ok, strLen := GetValue(2);
      if !ok {
        return;
      }
      if |data| - p < strLen {
        return false, ret;
      }
      ret := data[p..p + strLen];
      p := p + strLen;
    }
  }

  lemma NumberRoundTrip(data: seq<byte>, p: nat, n: nat, w: nat)
    requires Stands(data, p, Le(n, w))
    ensures p + w <= |data| && Val(data[p..p + w]) == n % Radix(w)
  {
    ValOfLe(n, w);
  }

  lemma StringRoundTrip(data: seq<byte>, p: nat, s: seq<byte>)
    requires Stands(data, p, StringBytes(s))
    ensures p + 2 <= |data| && Val(data[p..p + 2]) == |Cut(s)| && p + 2 + |Cut(s)| <= |data|
    ensures data[p + 2..p + 2 + |Cut(s)|] == Cut(s) && |StringBytes(s)| == 2 + |Cut(s)|
  {
    StandsParts(data, p, Le(|s|, 2), Cut(s));
    NumberRoundTrip(data, p, |s|, 2);
    assert Radix(2) == 256 * Radix(1) && Radix(1) == 256 * Radix(0);
  }
}
