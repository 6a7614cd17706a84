/** The ACME client (CertMagicClient.ObtainCert of pkg/ssl/certmagic.go) as an oracle: for
    each name it either issues a certificate and key or fails. The client remembers
    which names it was asked for, so that the pipelines' contracts can say when they
    request a certificate. */
module Acme {
  import opened Common

  datatype Issued = Issued(certPem: string, keyPem: string)

  class CertMagicClient {
    /** What the certificate authority answers for a name. */
    const issue: string -> Option<Issued>
    /** Every name requested so far, in order. */
    var requested: seq<string>

    constructor(issue: string -> Option<Issued>)
      ensures this.issue == issue && requested == []
    {
      this.issue := issue;
      requested := [];
    }

    method ObtainCert(name: string) returns (r: Result<Issued>)
      modifies this
      ensures requested == old(requested) + [name]
      ensures issue(name).None? ==> r == Err(ObtainFault)
      ensures issue(name).Some? ==> r == Ok(issue(name).value)
    {
      requested := requested + [name];
      var answer := issue(name);
      if answer.None? {
        return Err(ObtainFault);
      }
      r := Ok(answer.value);
    }
  }
}
