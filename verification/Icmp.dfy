/** The in-place ICMP echo reply, and when its checksum verifies. */
module Icmp {
  import opened Base
  import opened Checksum
  import opened Packets
  import opened Tunnel
  import opened XdpProgram

  /** swap_mac: destination and source of the Ethernet header. */
  function SwapMacs(f: seq<Byte>): seq<Byte>
    requires |f| >= 14
  {
    f[6..12] + f[..6] + f[12..]
  }

  /** swap_ip: source and destination of the IPv4 header at position ip. */
  function SwapIps(f: seq<Byte>, ip: nat): seq<Byte>
    requires ip + 20 <= |f|
  {
    f[..ip + 12] + f[ip + 16..ip + 20] + f[ip + 12..ip + 16] + f[ip + 20..]
  }

  /** The ICMP message turned into a reply: type and code 0, checksum updated incrementally. */
  function Reply(m: seq<Byte>): seq<Byte>
    requires |m| >= 8
  {
    var sum := Replaced(m[2] + 0x100 * (m[3] as int), m[0] + 0x100 * (m[1] as int), 0);
    [0, 0, sum % 0x100, sum / 0x100] + m[4..]
  }

  /** The frame prepare_icmp_echo_reply leaves, and whether it reports success. */
  function EchoReply(f: seq<Byte>, ip: nat): (seq<Byte>, bool)
    requires 14 <= ip && ip + 20 <= |f|
  {
    var swapped := SwapIps(SwapMacs(f), ip);
    if ip + 28 > |f| || f[ip + 20] != 8 then (swapped, false)
    else (swapped[..ip + 20] + Reply(f[ip + 20..]), true)
  }

  /** swap_mac on the buffer. */
  method SwapMac(buf: XdpBuffer)
    requires buf.Valid() && buf.end - buf.data >= 14
    modifies buf.mem
    ensures buf.Frame() == SwapMacs(old(buf.Frame()))
  {
    ghost var f := buf.Frame();
    var dest := buf.Slice(0, 6);
    var source := buf.Slice(6, 12);
    buf.Write(0, source + dest);
    assert f[..0] + (source + dest) + f[12..] == SwapMacs(f);
  }

  /** swap_ip on the buffer. */
  method SwapIp(buf: XdpBuffer, ip: nat)
    requires buf.Valid() && ip + 20 <= buf.end - buf.data
    modifies buf.mem
    ensures buf.Frame() == SwapIps(old(buf.Frame()), ip)
  {
    var source := buf.Slice(ip + 12, ip + 16);
    var dest := buf.Slice(ip + 16, ip + 20);
    SwapIpsIsPatch(buf.Frame(), ip, source, dest);
    buf.Write(ip + 12, dest + source);
  }

  lemma SwapIpsIsPatch(f: seq<Byte>, ip: nat, source: seq<Byte>, dest: seq<Byte>)
    requires ip + 20 <= |f| && source == f[ip + 12..ip + 16] && dest == f[ip + 16..ip + 20]
    ensures f[..ip + 12] + (dest + source) + f[ip + 12 + |dest + source|..] == SwapIps(f, ip)
  {
  }

  lemma SwapsKeepMessage(f: seq<Byte>, ip: nat)
    requires 14 <= ip && ip + 20 <= |f|
    ensures var g := SwapIps(SwapMacs(f), ip); |g| == |f| && g[ip + 20..] == f[ip + 20..]
  {
    var g := SwapMacs(f);
    assert SwapIps(g, ip)[ip + 20..] == g[ip + 20..];
    assert g[ip + 20..] == f[ip + 20..];
  }

  /** The swapped frame with its message turned into a reply, if it is an echo request. */
  function Answered(g: seq<Byte>, ip: nat): (seq<Byte>, bool)
    requires ip + 20 <= |g|
  {
    if ip + 28 > |g| || g[ip + 20] != 8 then (g, false) else (g[..ip + 20] + Reply(g[ip + 20..]), true)
  }

  lemma AnsweredSwapped(f: seq<Byte>, ip: nat)
    requires 14 <= ip && ip + 20 <= |f|
    ensures var g := SwapIps(SwapMacs(f), ip); |g| == |f| && EchoReply(f, ip) == Answered(g, ip)
  {
    var g := SwapIps(SwapMacs(f), ip);
    SwapsKeepMessage(f, ip);
    if ip + 28 <= |f| { assert g[ip + 20] == g[ip + 20..][0] == f[ip + 20..][0] == f[ip + 20]; }
  }

  /** prepare_icmp_echo_reply; the swaps happen before the message is looked at. */
  method PrepareIcmpEchoReply(ctx: PacketContext) returns (ok: bool)
    requires ctx.Valid()
    modifies ctx.buf.mem
    ensures ctx.Valid()
    ensures match ctx.ip4
            case None => !ok && ctx.Frame() == old(ctx.Frame())
            case Some(ip) => (ctx.Frame(), ok) == EchoReply(old(ctx.Frame()), ip)
  {
    if ctx.ip4.None? {
      return false;
    }
    AnsweredSwapped(ctx.Frame(), ctx.ip4.value);
    SwapMac(ctx.buf);
    SwapIp(ctx.buf, ctx.ip4.value);
    ok := ReplyInPlace(ctx.buf, ctx.ip4.value);
  }

  /** The ICMP part: type, code and checksum of an echo request. */
  method ReplyInPlace(buf: XdpBuffer, ip: nat) returns (ok: bool)
    requires buf.Valid() && ip + 20 <= buf.end - buf.data
    modifies buf.mem
    ensures (buf.Frame(), ok) == Answered(old(buf.Frame()), ip)
  {
    ok := false;
    ghost var f := buf.Frame();
    if ip + 28 <= buf.end - buf.data {
      var m := buf.Slice(ip + 20, ip + 24);
      assert m[0] == f[ip + 20];
      if m[0] == 8 {
        var sum := CsumReplace(m[2] + 0x100 * (m[3] as int), m[0] + 0x100 * (m[1] as int), 0);
        buf.Write(ip + 20, [0, 0, sum % 0x100, sum / 0x100]);
        assert f[ip + 20..][4..] == f[ip + 24..];
        assert buf.Frame() == f[..ip + 20] + Reply(f[ip + 20..]);
        ok := true;
      }
    }
  }

  // ---------------------------------------------------------------- checksums

  lemma {:induction false} ZeroBytesZeroSum(b: seq<Byte>)
    requires |b| % 2 == 0
    ensures PlainSum(HostWords(b)) == 0 <==> forall i :: 0 <= i < |b| ==> b[i] == 0
  {
    if b != [] {
      ZeroBytesZeroSum(b[2..]);
      var w := HostWords(b)[0];
      assert PlainSum(HostWords(b)) == w + PlainSum(HostWords(b[2..]));
      if forall i :: 0 <= i < |b| ==> b[i] == 0 {
        assert forall i :: 0 <= i < |b[2..]| ==> b[2..][i] == b[i + 2];
      }
      if PlainSum(HostWords(b)) == 0 {
        forall i | 0 <= i < |b| ensures b[i] == 0 {
          if i >= 2 { assert b[i] == b[2..][i - 2]; }
        }
      }
    }
  }

  /** The first two words apart from the rest. */
  lemma TwoWords(m: seq<Byte>)
    requires |m| >= 4 && |m| % 2 == 0
    ensures HostWords(m) == [m[0] + 0x100 * (m[1] as int), m[2] + 0x100 * (m[3] as int)] + HostWords(m[4..])
  {
    assert m[2..][2..] == m[4..];
  }

  lemma SumOfTwoAndRest(a: Word, b: Word, rest: seq<Word>)
    ensures PlainSum([a, b] + rest) == (a as int) + b + PlainSum(rest)
  {
    assert ([a, b] + rest)[1..] == [b] + rest && ([b] + rest)[1..] == rest;
  }

  lemma RequestSum(m: seq<Byte>)
    requires |m| >= 8 && |m| % 2 == 0
    ensures var words := HostWords(m);
      |words| >= 2 && PlainSum(words) == words[0] + (words[1] as int) + PlainSum(HostWords(m[4..]))
  {
    WordsLength(m);
    TwoWords(m);
    SumOfTwoAndRest(HostWords(m)[0], HostWords(m)[1], HostWords(m[4..]));
  }

  lemma SetTwoWords(a: Word, b: Word, rest: seq<Word>, x: Word, y: Word)
    ensures ([a, b] + rest)[0 := x][1 := y] == [x, y] + rest
  {
  }

  lemma ReplyTail(m: seq<Byte>)
    requires |m| >= 8
    ensures |Reply(m)| == |m| && Reply(m)[4..] == m[4..]
    ensures var r := Reply(m);
      r[0] == r[1] == 0 && r[2] + 0x100 * (r[3] as int)
                          == Replaced(m[2] + 0x100 * (m[3] as int), m[0] + 0x100 * (m[1] as int), 0)
  {
  }

  lemma WordsWithSum(m: seq<Byte>, r: seq<Byte>, sum: Word)
    requires |m| == |r| >= 4 && |m| % 2 == 0
    requires r[0] == r[1] == 0 && r[2] + 0x100 * (r[3] as int) == sum && r[4..] == m[4..]
    ensures |HostWords(m)| >= 2 && HostWords(r) == HostWords(m)[0 := 0][1 := sum]
  {
    WordsLength(m);
    TwoWords(m);
    TwoWords(r);
    SetTwoWords(HostWords(m)[0], HostWords(m)[1], HostWords(m[4..]), 0, sum);
  }

  /** The reply's words are the request's with the first two replaced. */
  lemma ReplyWords(m: seq<Byte>)
    requires |m| >= 8 && |m| % 2 == 0
    ensures var words := HostWords(m);
      && |words| >= 4
      && HostWords(Reply(m)) == words[0 := 0][1 := Replaced(words[1], words[0], 0)]
  {
    WordsLength(m);
    TwoWords(m);
    ReplyTail(m);
    WordsWithSum(m, Reply(m), Replaced(HostWords(m)[1], HostWords(m)[0], 0));
  }

  lemma EvenReplyVerifiesIff(m: seq<Byte>)
    requires |m| >= 8 && |m| % 2 == 0 && m[0] == 8 && Verifies(HostWords(m))
    ensures Verifies(HostWords(Reply(m))) <==> PlainSum(HostWords(m[4..])) != 0
  {
    ReplyWords(m);
    RequestSum(m);
    EchoRequestWord(m);
    ReplyOnWords(HostWords(m), PlainSum(HostWords(m[4..])));
  }

  lemma ReplyOnWords(words: seq<Word>, rest: nat)
    requires |words| >= 2 && words[0] % 0x100 == 8 && Verifies(words)
    requires PlainSum(words) == words[0] + (words[1] as int) + rest
    ensures Verifies(words[0 := 0][1 := Replaced(words[1], words[0], 0)]) <==> rest != 0
  {
    ReplaceVerifiesIff(words, 0, 1, 0);
    VerifiesIff(words);
    ReplyArithmetic(words[0], words[1], rest);
  }

  lemma EchoRequestWord(m: seq<Byte>)
    requires |m| >= 8 && |m| % 2 == 0 && m[0] == 8
    ensures |HostWords(m)| >= 2 && HostWords(m)[0] % 0x100 == 8
  {
    TwoWords(m);
  }

  lemma ReplyArithmetic(first: Word, sum: Word, rest: nat)
    requires first % 0x100 == 8 && ((first as int) + sum + rest) % 0xFFFF == 0
    ensures (rest == 0 && (first as int) + sum == 0xFFFF) <==> rest == 0
  {
  }

  lemma TailIsZeroIff(m: seq<Byte>)
    requires |m| >= 8 && |m| % 2 == 0
    ensures PlainSum(HostWords(m[4..])) != 0 <==> exists i :: 4 <= i < |m| && m[i] != 0
  {
    ZeroBytesZeroSum(m[4..]);
    if i :| 4 <= i < |m| && m[i] != 0 { assert m[4..][i - 4] != 0; }
    if i :| 0 <= i < |m[4..]| && m[4..][i] != 0 { assert m[i + 4] != 0; }
  }

  /** The reply leaves the padding where it is. */
  lemma PaddedReply(m: seq<Byte>)
    requires |m| >= 8
    ensures |Padded(m)| >= 8 && Padded(Reply(m)) == Reply(Padded(m))
    ensures (exists i :: 4 <= i < |m| && m[i] != 0) <==> exists i :: 4 <= i < |Padded(m)| && Padded(m)[i] != 0
  {
    if |m| % 2 != 0 { assert (m + [0])[4..] == m[4..] + [0]; }
    if i :| 4 <= i < |m| && m[i] != 0 { assert Padded(m)[i] != 0; }
    if i :| 4 <= i < |Padded(m)| && Padded(m)[i] != 0 { assert m[i] != 0; }
  }

  /**
   * The reply to a verifying echo request, of even or odd length, verifies exactly when the request
   * has a nonzero byte behind its checksum.  A request with identifier, sequence number and data all
   * zero becomes an all-zero message, whose checksum field 0 no receiver accepts.
   */
  lemma ReplyVerifiesIff(m: seq<Byte>)
    requires |m| >= 8 && m[0] == 8 && Verifies(HostWords(Padded(m)))
    ensures Verifies(HostWords(Padded(Reply(m)))) <==> exists i :: 4 <= i < |m| && m[i] != 0
  {
    PaddedReply(m);
    EvenReplyVerifiesIff(Padded(m));
    TailIsZeroIff(Padded(m));
  }

  lemma SwappedWords(h: seq<Byte>)
    requires |h| == 20
    ensures var v := HostWords(h);
      |v| == 10 && HostWords(SwapIps(h, 0)) == v[..6] + [v[8], v[9], v[6], v[7]]
  {
    var g := SwapIps(h, 0);
    WordsLength(h);
    WordsLength(g);
    var v, w := HostWords(h), HostWords(g);
    forall i | 0 <= i < 10 ensures w[i] == (v[..6] + [v[8], v[9], v[6], v[7]])[i] {
      assert w[i] == g[2 * i] + 0x100 * (g[2 * i + 1] as int);
    }
  }

  lemma SumOfFour(a: Word, b: Word, c: Word, d: Word)
    ensures PlainSum([a, b, c, d]) == (a as int) + b + c + d
  {
    assert PlainSum([d]) == d by { assert [d][1..] == []; }
    assert PlainSum([c, d]) == (c as int) + d by { assert [c, d][1..] == [d]; }
    assert PlainSum([b, c, d]) == (b as int) + c + d by { assert [b, c, d][1..] == [c, d]; }
    assert [a, b, c, d][1..] == [b, c, d];
  }

  lemma SwappedPairsSum(v: seq<Word>)
    requires |v| == 10
    ensures PlainSum(v[..6] + [v[8], v[9], v[6], v[7]]) == PlainSum(v)
  {
    assert v == v[..6] + [v[6], v[7], v[8], v[9]];
    PlainSumConcat(v[..6], [v[6], v[7], v[8], v[9]]);
    PlainSumConcat(v[..6], [v[8], v[9], v[6], v[7]]);
    SumOfFour(v[6], v[7], v[8], v[9]);
    SumOfFour(v[8], v[9], v[6], v[7]);
  }

  /** Swapping the addresses does not disturb the IPv4 header checksum. */
  lemma SwapKeepsHeaderSum(h: seq<Byte>)
    requires |h| == 20
    ensures Verifies(HostWords(SwapIps(h, 0))) <==> Verifies(HostWords(h))
  {
    SwappedWords(h);
    SwappedPairsSum(HostWords(h));
    VerifiesIff(HostWords(h));
    VerifiesIff(HostWords(SwapIps(h, 0)));
  }
}
