// net.IP values as the sentinel sees them, and the fixed-size keys it derives.
module Addresses {
  import opened Option
  import opened Digits

  // A net.IP: four bytes, sixteen bytes, or something malformed.
  type IP = seq<Byte>

  // A [4]byte.
  type IPKey = k: seq<Byte> | |k| == 4 witness [0, 0, 0, 0]

  predicate Mapped(ip: IP) {
    |ip| == 16 && (forall i :: 0 <= i < 10 ==> ip[i] == 0) && ip[10] == 255 && ip[11] == 255
  }

  // net.IP.To4
  function To4(ip: IP): (r: Option<IP>)
    ensures r.Some? ==> |r.value| == 4
  {
    if |ip| == 4 then Some(ip)
    else if Mapped(ip) then Some(ip[12..])
    else None
  }

  // The sixteen-byte form net.ParseIP returns for an IPv4 address.
  function To16(ip: IP): IP
    requires |ip| == 4
  {
    [0, 0, 0, 0, 0, 0, 0, 0, 0, 0, 255, 255] + ip
  }

  lemma To16To4(ip: IP)
    requires |ip| == 4
    ensures To4(To16(ip)) == Some(ip) && |To16(ip)| == 16
  {
    assert To16(ip)[12..] == ip;
  }

  // ipKey: the IPv4 bytes, or the first four bytes of anything else, zero-padded.
  function Key4(ip: IP): IPKey {
    match To4(ip)
    case Some(v4) => v4
    case None => if |ip| >= 4 then ip[..4] else ip + seq(4 - |ip|, _ => 0)
  }

  // OutboundConn.CompactKey
  function CompactKey(ip: IP, port: nat): (k: seq<Byte>)
    requires port < 0x1_0000
    ensures |k| == 6
  {
    Key4(ip) + [port / 256, port % 256]
  }

  // A compact key stands for its four address bytes and its port, no more and no less.
  lemma CompactKeyMeans(ip: IP, port: nat, ip': IP, port': nat)
    requires port < 0x1_0000 && port' < 0x1_0000
    ensures CompactKey(ip, port) == CompactKey(ip', port') <==> Key4(ip) == Key4(ip') && port == port'
  {
    var k, k' := CompactKey(ip, port), CompactKey(ip', port');
    assert k[..4] == Key4(ip) && k'[..4] == Key4(ip');
    assert k[4] == port / 256 && k[5] == port % 256;
    assert k'[4] == port' / 256 && k'[5] == port' % 256;
  }

  // Among IPv4 connections the key is unique.
  lemma CompactKeyInjective(ip: IP, port: nat, ip': IP, port': nat)
    requires To4(ip).Some? && To4(ip').Some? && port < 0x1_0000 && port' < 0x1_0000
    ensures CompactKey(ip, port) == CompactKey(ip', port') <==> To4(ip) == To4(ip') && port == port'
  {
    CompactKeyMeans(ip, port, ip', port');
  }

  // Other sixteen-byte peers are told apart by their first four bytes only.
  lemma CompactKeyIPv6(ip: IP, port: nat, ip': IP, port': nat)
    requires |ip| == |ip'| == 16 && To4(ip).None? && To4(ip').None? && port < 0x1_0000 && port' < 0x1_0000
    ensures CompactKey(ip, port) == CompactKey(ip', port') <==> ip[..4] == ip'[..4] && port == port'
  {
    CompactKeyMeans(ip, port, ip', port');
  }

  // Among IPv6 connections it is not unique: 2001:db8::1 and 2001:db8::2 share one.
  lemma CompactKeyCollides()
    ensures var a: IP := [0x20, 0x01, 0x0d, 0xb8, 0, 0, 0, 0, 0, 0, 0, 0, 0, 0, 0, 1];
            var b: IP := [0x20, 0x01, 0x0d, 0xb8, 0, 0, 0, 0, 0, 0, 0, 0, 0, 0, 0, 2];
            a != b && CompactKey(a, 443) == CompactKey(b, 443)
  {
    var a: IP := [0x20, 0x01, 0x0d, 0xb8, 0, 0, 0, 0, 0, 0, 0, 0, 0, 0, 0, 1];
    var b: IP := [0x20, 0x01, 0x0d, 0xb8, 0, 0, 0, 0, 0, 0, 0, 0, 0, 0, 0, 2];
    assert a[15] != b[15];
    assert a[..4] == b[..4];
  }
}
