/**
 * The `NLM_CONNECTIVITY` bitmask reported by the Windows Network List
 * Manager, with the single-bit flag values of the Windows SDK
 * (netlistmgr.h). Both the Rust and the native monitor read it.
 */
module Nlm {

  type Connectivity = bv32

  const DISCONNECTED: Connectivity := 0x0000
  const IPV4_NOTRAFFIC: Connectivity := 0x0001
  const IPV6_NOTRAFFIC: Connectivity := 0x0002
  const IPV4_SUBNET: Connectivity := 0x0010
  const IPV4_LOCALNETWORK: Connectivity := 0x0020
  const IPV4_INTERNET: Connectivity := 0x0040
  const IPV6_SUBNET: Connectivity := 0x0100
  const IPV6_LOCALNETWORK: Connectivity := 0x0200
  const IPV6_INTERNET: Connectivity := 0x0400

  /** Every flag that reports connectivity short of the internet. */
  const LOCAL_ONLY_FLAGS: Connectivity :=
    IPV4_NOTRAFFIC | IPV6_NOTRAFFIC | IPV4_SUBNET | IPV4_LOCALNETWORK | IPV6_SUBNET | IPV6_LOCALNETWORK

  predicate HasIpv4Internet(c: Connectivity) {
    c & IPV4_INTERNET != 0
  }

  predicate HasIpv6Internet(c: Connectivity) {
    c & IPV6_INTERNET != 0
  }

  /** Internet-level connectivity over either protocol (a logical OR). */
  predicate HasInternet(c: Connectivity) {
    HasIpv4Internet(c) || HasIpv6Internet(c)
  }

  /** The same test written as one mask: some bit of 0x440 is set. */
  lemma HasInternetIsMask(c: Connectivity)
    ensures HasInternet(c) <==> c & 0x0440 != 0
  {
    assert c & 0x0440 == (c & IPV4_INTERNET) | (c & IPV6_INTERNET);
  }

  /** A mask made only of local-network flags never counts as internet. */
  lemma LocalOnlyIsNotInternet(c: Connectivity)
    requires c & LOCAL_ONLY_FLAGS == c
    ensures !HasInternet(c)
  {
  }
}
