/** The CDN provider behind QiniuClient (pkg/qiniu/qiniu.go), seen only through its effect:
    the account's hostnames, the certificates uploaded so far, which certificate each
    hostname serves, and how it treats each request. The HTTP exchange itself is not
    modelled. newReq (pkg/qiniu/type.go:140-151) hands back the response body whatever the
    HTTP status, and the callers decode that body without reading its error code, so a
    request the provider refuses still reports success to the caller; only a request
    that gets no answer at all reports an error. Every request can go unanswered on its
    own: the lookup for one certificate, the upload for one parent, the switch of one
    hostname. */
module QiniuProvider {
  import opened Common

  /** An uploaded certificate as the provider reports it. */
  datatype Cert = Cert(name: string, certPem: string, keyPem: string, notAfter: int)

  /** What decoding an error body yields: every field at its zero value. */
  const ZeroCert: Cert := Cert("", "", "", 0)

  /** The requests the client sends, each identified by what it asks for. */
  datatype Call =
    | ListDomains                      // GET /domain
    | Upload(name: string)             // POST /sslcert for the certificate of `name`
    | LookupCert(id: string)           // GET /sslcert/<id>
    | RemoveCert(id: string)           // POST /sslcert/<id>
    | Switch(host: string, id: string) // PUT /domain/<host>/sslize with certificate `id`

  /** How the provider treats requests, which the core cannot change: the account's
      hostnames, the requests that get no answer (network failure, rate limit, expired
      credentials), the hostnames whose switch to HTTPS it refuses, the certificates it
      does not remove, and the expiry it reads from an uploaded certificate PEM. */
  datatype Policy = Policy(hostnames: seq<string>, unanswered: set<Call>, refused: set<string>,
                           undeletable: set<string>, expiryOf: string -> int)

  /** Whether switching `host` to certificate `id` takes effect: the request is answered,
      the hostname belongs to the account and is not refused, and the certificate exists. */
  predicate Binds(p: Policy, certs: map<string, Cert>, host: string, id: string) {
    Switch(host, id) !in p.unanswered && host in p.hostnames && host !in p.refused && id in certs
  }

  /** The hostnames among `hosts` that the provider switches to certificate `id`. */
  function Bindable(p: Policy, certs: map<string, Cert>, hosts: seq<string>, id: string): set<string> {
    set h | h in hosts && Binds(p, certs, h, id)
  }

  /** The hostnames among `hosts` whose switch to certificate `id` gets no answer. */
  function Unanswered(p: Policy, hosts: seq<string>, id: string): set<string> {
    set h | h in hosts && Switch(h, id) in p.unanswered
  }

  /** A listed hostname is in either set exactly when its own switch request is. */
  lemma SwitchSets(p: Policy, certs: map<string, Cert>, hosts: seq<string>, i: nat, id: string)
    requires i < |hosts|
    ensures hosts[i] in Bindable(p, certs, hosts, id) <==> Binds(p, certs, hosts[i], id)
    ensures hosts[i] in Unanswered(p, hosts, id) <==> Switch(hosts[i], id) in p.unanswered
  {
    assert hosts[i] in hosts;
  }

  /** The certificate a lookup of `id` decodes when it is answered: the stored one, or the
      zero value that the provider's error body decodes to. */
  function LookupIn(certs: map<string, Cert>, id: string): (c: Cert)
    ensures id in certs ==> c == certs[id]
    ensures id !in certs ==> c.notAfter == 0
  {
    if id in certs then certs[id] else ZeroCert
  }

  class QiniuClient {
    /** How the provider treats requests. */
    const policy: Policy
    /** Uploaded certificates by the id the provider gave them. */
    var certs: map<string, Cert>
    /** The certificate id each hostname serves over HTTPS. */
    var https: map<string, string>

    constructor(policy: Policy)
      ensures this.policy == policy && certs == map[] && https == map[]
    {
      this.policy := policy;
      certs, https := map[], map[];
    }

    /** Whether the request `c` gets no answer. */
    predicate Fails(c: Call) {
      c in policy.unanswered
    }

    /** GetDomainList (pkg/qiniu/qiniu.go:23-35). */
    method GetDomainList() returns (r: Result<seq<string>>)
      ensures Fails(ListDomains) ==> r == Err(ProviderFault)
      ensures !Fails(ListDomains) ==> r == Ok(policy.hostnames)
    {
      if Fails(ListDomains) {
        return Err(ProviderFault);
      }
      r := Ok(policy.hostnames);
    }

    /** UPSSLCert (pkg/qiniu/qiniu.go:38-50): stores the certificate under a new, non-empty id. */
    method UpSslCert(pri: string, ca: string, name: string) returns (r: Result<string>)
      modifies this
      ensures https == old(https)
      ensures Fails(Upload(name)) ==> r == Err(ProviderFault) && certs == old(certs)
      ensures !Fails(Upload(name)) ==>
        && r.Ok? && r.value != "" && r.value !in old(certs)
        && certs == old(certs)[r.value := Cert(name, ca, pri, policy.expiryOf(ca))]
    {
      if Fails(Upload(name)) {
        return Err(ProviderFault);
      }
      FreshIdExists(certs.Keys);
      var id :| id != "" && id !in certs;
      certs := certs[id := Cert(name, ca, pri, policy.expiryOf(ca))];
      r := Ok(id);
    }

    /** GETSSLCertById (pkg/qiniu/qiniu.go:68-81). An unknown id is not an error: the error
        body decodes to the zero certificate. */
    method GetSslCertById(id: string) returns (r: Result<Cert>)
      ensures Fails(LookupCert(id)) ==> r == Err(ProviderFault)
      ensures !Fails(LookupCert(id)) ==> r == Ok(LookupIn(certs, id))
    {
      if Fails(LookupCert(id)) {
        return Err(ProviderFault);
      }
      r := Ok(LookupIn(certs, id));
    }

    /** RemoveSSLCert (pkg/qiniu/qiniu.go:84-90). A refused removal is not an error either. */
    method RemoveSslCert(id: string) returns (err: Option<Error>)
      modifies this
      ensures https == old(https)
      ensures Fails(RemoveCert(id)) ==> err == Some(ProviderFault) && certs == old(certs)
      ensures !Fails(RemoveCert(id)) ==> err == None
      ensures !Fails(RemoveCert(id)) && id !in policy.undeletable ==> id !in certs && certs == old(certs) - {id}
      ensures id in policy.undeletable ==> certs == old(certs)
    {
      if Fails(RemoveCert(id)) {
        return Some(ProviderFault);
      }
      if id !in policy.undeletable {
        certs := certs - {id};
      }
      err := None;
    }

    /** ForceHTTPS (pkg/qiniu/qiniu.go:93-103): serve `name` with certificate `certId`. A
        refused switch is not an error; only the binding tells it apart. */
    method ForceHttps(name: string, certId: string) returns (err: Option<Error>)
      modifies this
      ensures certs == old(certs)
      ensures err.Some? <==> Fails(Switch(name, certId))
      ensures err.Some? ==> err.value == ProviderFault
      ensures Binds(policy, certs, name, certId) ==> https == old(https)[name := certId]
      ensures !Binds(policy, certs, name, certId) ==> https == old(https)
    {
      if Fails(Switch(name, certId)) {
        return Some(ProviderFault);
      }
      if Binds(policy, certs, name, certId) {
        https := https[name := certId];
      }
      err := None;
    }
  }

  /** An upper bound on the lengths of the strings in `s`. */
  ghost function MaxLen(s: set<string>): (n: nat)
    ensures forall x :: x in s ==> |x| <= n
    decreases s
  {
    if s == {} then 0
    else
      var x :| x in s;
      var m := MaxLen(s - {x});
      if |x| > m then |x| else m
  }

  /** However many certificates exist, a non-empty id is still free. */
  lemma FreshIdExists(used: set<string>)
    ensures exists id: string :: id != "" && id !in used
  {
    var id := seq(MaxLen(used) + 1, _ => 'c');
    assert |id| > MaxLen(used) && id != "";
  }
}
