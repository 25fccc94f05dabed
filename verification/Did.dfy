/** Addresses and the DIDs that carry them. */
module Did {
  import opened Text

  const DID := "did:ethr:besu:"

  /** The address inside a DID: `did.replace('did:ethr:besu:', '')`. */
  function DidAddress(did: string): string {
    DropFirst(did, DID)
  }

  /** Addresses are compared without regard to case. */
  predicate SameAddress(a: string, b: string) {
    Lower(a) == Lower(b)
  }

  /** Two addresses are the same exactly when they differ, if at all, in the case of letters. */
  lemma SameAddressIff(a: string, b: string)
    ensures SameAddress(a, b) <==> SameUpToCase(a, b)
  {
    LowerEqualIff(a, b);
  }

  /** The DID of an address gives the address back; a text without the prefix stays as it is. */
  lemma DidAddressReads(address: string)
    ensures DidAddress("did:ethr:besu:" + address) == address
    ensures !OccursBefore(address, "did:ethr:besu:", |address| + 1) ==> DidAddress(address) == address
  {
    DropPrefix("did:ethr:besu:", address);
    if !OccursBefore(address, "did:ethr:besu:", |address| + 1) {
      DropFirstAbsent(address, "did:ethr:besu:");
    }
  }
}
