/**
 * The values of Go's `net` package that the device search inspects: IP
 * addresses as byte strings, the `net.Addr` values an interface reports, and
 * the `net.Interface` descriptor itself.
 */
module Net {

  newtype byte = x: int | 0 <= x < 256

  /** `net.IP`: 4 bytes for IPv4, 16 for IPv6, though any length can occur. */
  type IP = seq<byte>

  /** The 12-byte prefix that embeds an IPv4 address in the IPv6 space (::ffff:a.b.c.d). */
  const V4InV6Prefix: seq<byte> := [0, 0, 0, 0, 0, 0, 0, 0, 0, 0, 0xff, 0xff]

  /**
   * `net.IP.Equal`: same bytes when the lengths agree; a 4-byte and a 16-byte
   * address are equal when the long one is the short one behind the v4-in-v6 prefix.
   */
  function IPEqual(ip: IP, x: IP): (r: bool)
    ensures |ip| == |x| ==> (r <==> ip == x)
    ensures r && |ip| != |x| ==> {|ip|, |x|} == {4, 16}
    ensures |ip| == 4 && |x| == 16 ==> (r <==> x == V4InV6Prefix + ip)
    ensures |ip| == 16 && |x| == 4 ==> (r <==> ip == V4InV6Prefix + x)
  {
    if |ip| == |x| then ip == x
    else if |ip| == 4 && |x| == 16 then x[..12] == V4InV6Prefix && ip == x[12..]
    else if |ip| == 16 && |x| == 4 then ip[..12] == V4InV6Prefix && ip[12..] == x
    else false
  }

  /** Which side calls `Equal` does not matter. */
  lemma IPEqualSymmetric(a: IP, b: IP)
    ensures IPEqual(a, b) == IPEqual(b, a)
  {
  }

  /** An IPv4 address equals its v4-in-v6 form, in both directions. */
  lemma IPEqualMapped(v4: IP)
    requires |v4| == 4
    ensures IPEqual(v4, V4InV6Prefix + v4) && IPEqual(V4InV6Prefix + v4, v4)
  {
    var v6 := V4InV6Prefix + v4;
    assert v6[..12] == V4InV6Prefix;
    assert v6[12..] == v4;
  }

  /**
   * A `net.Addr` returned by `(*net.Interface).Addrs`: an `*net.IPNet`, or any
   * other implementation (such as `*net.IPAddr`), which the device search skips.
   */
  datatype Addr = IPNet(ip: IP) | OtherAddr(ip: IP)

  /**
   * `net.Interface` as far as the device search uses it: the OS name, the
   * string form of the hardware address (`HardwareAddr.String()`) and the index.
   */
  datatype Interface = Interface(name: string, mac: string, index: int)
}
