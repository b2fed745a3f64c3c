/** Socket addresses as values: the bytes that matter of `sockaddr_storage`. */
module Addresses {
  datatype Address =
    | Unspecified                              // any family but AF_INET and AF_INET6
    | V4(ip: nat, port: nat)
    | V6(ip6: nat, port: nat, scope: nat)

  /** Equality of resolved endpoints: an address of an unknown family equals nothing. */
  predicate SockaddrEqual(a: Address, b: Address) { !a.Unspecified? && a == b }

  datatype Family = Inet | Inet6 | OtherFamily

  function FamilyOf(a: Address): (f: Family) {
    match a case V4(_, _) => Inet case V6(_, _, _) => Inet6 case Unspecified => OtherFamily
  }

  predicate IsWildcard(a: Address) { (a.V4? && a.ip == 0) || (a.V6? && a.ip6 == 0) }

  datatype Scope = Loopback | LinkLocal | OtherScope

  /** 127.0.0.0/8 and ::1 are loopback, 169.254.0.0/16 and fe80::/10 link-local. */
  function ScopeOf(a: Address): (s: Scope) {
    match a
    case V4(ip, _) =>
      if ip / 0x100_0000 == 0x7F then Loopback else if ip / 0x1_0000 == 0xA9FE then LinkLocal else OtherScope
    case V6(ip6, _, _) =>
      if ip6 == 1 then Loopback
      else if ip6 / 0x40_0000_0000_0000_0000_0000_0000_0000 == 0x3FA then LinkLocal else OtherScope
    case Unspecified => OtherScope
  }
}
