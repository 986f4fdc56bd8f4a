/**
 * `SharePageRequest`: a confidential VM asks to share one page of its memory
 * with the hypervisor. An immutable value built from a guest address, with two
 * accessors.
 */
module SharePageRequests {
  import opened Wrappers

  /** The page sizes of the memory protector; sharing always uses the smallest. */
  datatype PageSize = Size4KiB | Size2MiB | Size1GiB | Size512GiB | Size128TiB

  /**
   * An address in a confidential VM's physical address space. Its constructor
   * keeps the raw address it is given.
   */
  datatype ConfidentialVmPhysicalAddress = ConfidentialVmPhysicalAddress(address: bv64)

  /** The crate-wide error type; `SharePageRequest::new` never produces one. */
  datatype Error = Error(reason: string)

  datatype SharePageRequest = SharePageRequest(address: ConfidentialVmPhysicalAddress, size: PageSize)
  {
    /** The guest address the request was built from. */
    function ConfidentialVmVirtualAddress(): ConfidentialVmPhysicalAddress {
      address
    }

    /** The size of the page to share. */
    function PageSize(): PageSize {
      size
    }
  }

  /**
   * `SharePageRequest::new`: every address is accepted; the request records
   * the address and a 4 KiB page.
   */
  function New(address: bv64): (r: Result<SharePageRequest, Error>)
    ensures r.Ok?
    ensures r.value.ConfidentialVmVirtualAddress() == ConfidentialVmPhysicalAddress(address)
    ensures r.value.PageSize() == Size4KiB
  {
    Ok(SharePageRequest(ConfidentialVmPhysicalAddress(address), Size4KiB))
  }

  /** The two accessors between them recover the whole request. */
  lemma AccessorsDetermineRequest(p: SharePageRequest, q: SharePageRequest)
    ensures p == q <==> p.ConfidentialVmVirtualAddress() == q.ConfidentialVmVirtualAddress() && p.PageSize() == q.PageSize()
  {
  }

  /** Requests built from the same address are equal, and only those. */
  lemma NewIsInjective(a: bv64, b: bv64)
    ensures New(a) == New(b) <==> a == b
  {
  }
}
