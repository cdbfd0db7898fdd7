/** ARP frames over Ethernet, laid out as in the "Packet format" section of RFC
    826. An IPv4 address is its four octets. */
module Arp {
  import opened Options

  type Byte = b: int | 0 <= b < 256
  type Octets = seq<Byte>

  const ETH_P_ARP: Octets := [0x08, 0x06]
  const OP_REQUEST: Byte := 1
  const OP_REPLY: Byte := 2
  const FRAME_LEN: nat := 42

  // ---- MAC addresses as text ----------------------------------------------------------

  predicate IsHex(c: char) {
    '0' <= c <= '9' || 'a' <= c <= 'f' || 'A' <= c <= 'F'
  }

  function HexValue(c: char): (v: int)
    requires IsHex(c)
    ensures 0 <= v < 16
  {
    if '0' <= c <= '9' then c as int - '0' as int
    else if 'a' <= c <= 'f' then c as int - 'a' as int + 10
    else c as int - 'A' as int + 10
  }

  function HexDigit(v: int): (c: char)
    requires 0 <= v < 16
    ensures IsHex(c) && HexValue(c) == v
  {
    if v < 10 then '0' + v as char else 'a' + (v - 10) as char
  }

  /** Six pairs of hexadecimal digits, separated by colons or dashes. */
  predicate IsMac(s: string) {
    && |s| == 17
    && forall k | 0 <= k < 17 :: if k % 3 == 2 then s[k] == ':' || s[k] == '-' else IsHex(s[k])
  }

  function LowerHex(c: char): char {
    if 'A' <= c <= 'F' then 'a' + (c as int - 'A' as int) as char else c
  }

  // _normalize_mac, on a well-formed address
  function NormalizeMac(s: string): (r: string)
    requires IsMac(s)
    ensures IsMac(r)
  {
    seq(17, k requires 0 <= k < 17 => if k % 3 == 2 then ':' else LowerHex(s[k]))
  }

  // _mac_to_bytes
  function MacToBytes(s: string): (b: Octets)
    requires IsMac(s)
    ensures |b| == 6
  {
    var n := NormalizeMac(s);
    seq(6, i requires 0 <= i < 6 => (16 * HexValue(n[3 * i]) + HexValue(n[3 * i + 1])) as Byte)
  }

  // _mac_to_str
  function MacToStr(b: Octets): (s: string)
    requires |b| == 6
    ensures |s| == 17
  {
    seq(17, k requires 0 <= k < 17 =>
      if k % 3 == 2 then ':'
      else if k % 3 == 0 then HexDigit(b[k / 3] / 16)
      else HexDigit(b[k / 3] % 16))
  }

  /** Reading the text of a MAC and writing it again normalizes it. */
  lemma MacRoundTrip(s: string)
    requires IsMac(s)
    ensures MacToStr(MacToBytes(s)) == NormalizeMac(s)
  {
    forall k | 0 <= k < 17 ensures MacToStr(MacToBytes(s))[k] == NormalizeMac(s)[k] {
      if k % 3 != 2 {
        PairRoundTrip(s, k / 3);
      }
    }
  }

  lemma PairRoundTrip(s: string, i: int)
    requires IsMac(s) && 0 <= i < 6
    ensures var n, b := NormalizeMac(s), MacToBytes(s)[i];
            HexDigit(b / 16) == n[3 * i] && HexDigit(b % 16) == n[3 * i + 1]
  {
    LowerHexIsCanonical(s[3 * i]);
    LowerHexIsCanonical(s[3 * i + 1]);
    PairParts(HexValue(NormalizeMac(s)[3 * i]), HexValue(NormalizeMac(s)[3 * i + 1]));
  }

  lemma PairParts(hi: int, lo: int)
    requires 0 <= hi < 16 && 0 <= lo < 16
    ensures (16 * hi + lo) / 16 == hi && (16 * hi + lo) % 16 == lo
  {
  }

  lemma LowerHexIsCanonical(c: char)
    requires IsHex(c)
    ensures IsHex(LowerHex(c)) && HexDigit(HexValue(LowerHex(c))) == LowerHex(c)
  {
  }

  // ---- Frames --------------------------------------------------------------------------

  /** Ethernet header, ARP header with its operation, and the four addresses. */
  function Frame(dst: Octets, op: Byte, sha: Octets, spa: Octets, tha: Octets, tpa: Octets): Octets {
    dst + sha + ETH_P_ARP + [0, 1, 0x08, 0, 6, 4, 0, op] + sha + spa + tha + tpa
  }

  function Broadcast(): Octets { [0xff, 0xff, 0xff, 0xff, 0xff, 0xff] }
  function Unknown(): Octets { [0, 0, 0, 0, 0, 0] }

  function RequestFrame(srcMac: string, srcIp: Octets, dstIp: Octets): Octets
    requires IsMac(srcMac) && |srcIp| == 4 && |dstIp| == 4
  {
    Frame(Broadcast(), OP_REQUEST, MacToBytes(srcMac), srcIp, Unknown(), dstIp)
  }

  function ReplyFrame(srcMac: string, srcIp: Octets, dstMac: string, dstIp: Octets): Octets
    requires IsMac(srcMac) && IsMac(dstMac) && |srcIp| == 4 && |dstIp| == 4
  {
    Frame(MacToBytes(dstMac), OP_REPLY, MacToBytes(srcMac), srcIp, MacToBytes(dstMac), dstIp)
  }

  function Operation(frame: Octets): int
    requires |frame| >= FRAME_LEN
  {
    var arp := frame[14..];
    256 * (arp[6] as int) + (arp[7] as int)
  }

  // parse_arp_reply: (ip, mac)
  function ParseReply(frame: Octets): Option<(Octets, string)> {
    if |frame| < FRAME_LEN || frame[12..14] != ETH_P_ARP then None
    else
      var arp := frame[14..];
      if Operation(frame) != 2 then None else Some((arp[14..18], MacToStr(arp[8..14])))
  }

  // parse_arp_request: (spa, sha, tpa)
  function ParseRequest(frame: Octets): Option<(Octets, string, Octets)> {
    if |frame| < FRAME_LEN || frame[12..14] != ETH_P_ARP then None
    else
      var arp := frame[14..];
      if Operation(frame) != 1 then None else Some((arp[14..18], MacToStr(arp[8..14]), arp[24..28]))
  }

  lemma FrameFields(dst: Octets, op: Byte, sha: Octets, spa: Octets, tha: Octets, tpa: Octets, padding: Octets)
    requires |dst| == |sha| == |tha| == 6 && |spa| == |tpa| == 4
    ensures var f := Frame(dst, op, sha, spa, tha, tpa) + padding;
            && |f| >= FRAME_LEN
            && f[12..14] == ETH_P_ARP
            && Operation(f) == op
            && f[14..][8..14] == sha && f[14..][14..18] == spa && f[14..][24..28] == tpa
  {
    var f := Frame(dst, op, sha, spa, tha, tpa) + padding;
    var head := dst + sha;
    var arp: Octets := [0, 1, 0x08, 0, 6, 4, 0, op];
    assert f == head + (ETH_P_ARP + (arp + (sha + (spa + (tha + (tpa + padding))))));
    assert f[14..] == arp + (sha + (spa + (tha + (tpa + padding))));
  }

  /** The request parser undoes the request builder, whatever pads the frame, and
      the reply parser refuses it. */
  lemma RequestRoundTrip(srcMac: string, srcIp: Octets, dstIp: Octets, padding: Octets)
    requires IsMac(srcMac) && |srcIp| == 4 && |dstIp| == 4
    ensures var f := RequestFrame(srcMac, srcIp, dstIp) + padding;
            && ParseRequest(f) == Some((srcIp, NormalizeMac(srcMac), dstIp))
            && ParseReply(f) == None
  {
    FrameFields(Broadcast(), OP_REQUEST, MacToBytes(srcMac), srcIp, Unknown(), dstIp, padding);
    MacRoundTrip(srcMac);
  }

  lemma ReplyRoundTrip(srcMac: string, srcIp: Octets, dstMac: string, dstIp: Octets, padding: Octets)
    requires IsMac(srcMac) && IsMac(dstMac) && |srcIp| == 4 && |dstIp| == 4
    ensures var f := ReplyFrame(srcMac, srcIp, dstMac, dstIp) + padding;
            && ParseReply(f) == Some((srcIp, NormalizeMac(srcMac)))
            && ParseRequest(f) == None
  {
    FrameFields(MacToBytes(dstMac), OP_REPLY, MacToBytes(srcMac), srcIp, MacToBytes(dstMac), dstIp, padding);
    MacRoundTrip(srcMac);
  }
}
