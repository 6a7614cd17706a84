/** The second reconciliation pipeline, cron/handler.go: a chain of six handlers that each
    update one unit of work (a parent domain with its certificate and hostnames), stop
    at the first failure with that step's code, and can be restarted at any step by its
    code. */
module Handler {
  import opened Common
  import opened SslModel
  import opened Dao
  import opened QiniuProvider
  import opened Acme
  import Upssl

  // ---------------------------------------------------------------------------
  // Steps and resume codes (cron/handler.go:24-32)

  const CheckLocalErrCode: int := 0
  const CheckQiniuCertErrCode: int := 1
  const ObtainCertErrCode: int := 2
  const UploadCertErrCode: int := 3
  const ForceHttpsErrCode: int := 4
  const RemoveOldCertErrCode: int := 5
  /** Restarting from the beginning is restarting at the first step. */
  const StartAll: int := 0
  /** What HandleNext returns past the last handler. */
  const Finished: int := -1

  datatype Step = CheckLocal | CheckQiniuCert | ObtainCert | UploadCert | ForceHttps | RemoveOldCert

  /** The six handlers in the order of the full chain. */
  const Steps: seq<Step> := [CheckLocal, CheckQiniuCert, ObtainCert, UploadCert, ForceHttps, RemoveOldCert]

  /** The code a step fails with, which is also the code that resumes at it. */
  function ErrCode(s: Step): (code: int)
    ensures 0 <= code < |Steps| && Steps[code] == s
  {
    match s
    case CheckLocal => CheckLocalErrCode
    case CheckQiniuCert => CheckQiniuCertErrCode
    case ObtainCert => ObtainCertErrCode
    case UploadCert => UploadCertErrCode
    case ForceHttps => ForceHttpsErrCode
    case RemoveOldCert => RemoveOldCertErrCode
  }

  /** NewStrategyMap (cron/handler.go:235-275), each chain as the list of its handlers. */
  function NewStrategyMap(): (m: map<int, seq<Step>>)
    ensures m.Keys == {0, 1, 2, 3, 4, 5}
    ensures forall k :: 0 <= k < |Steps| ==> m[k] == Steps[k..]
  {
    var m := map[
      CheckLocalErrCode := [CheckLocal, CheckQiniuCert, ObtainCert, UploadCert, ForceHttps, RemoveOldCert],
      CheckQiniuCertErrCode := [CheckQiniuCert, ObtainCert, UploadCert, ForceHttps, RemoveOldCert],
      ObtainCertErrCode := [ObtainCert, UploadCert, ForceHttps, RemoveOldCert],
      UploadCertErrCode := [UploadCert, ForceHttps, RemoveOldCert],
      ForceHttpsErrCode := [ForceHttps, RemoveOldCert],
      RemoveOldCertErrCode := [RemoveOldCert]];
    assert m.Keys == {0, 1, 2, 3, 4, 5};
    assert Steps[1..] == m[1] && Steps[2..] == m[2] && Steps[3..] == m[3];
    assert Steps[4..] == m[4] && Steps[5..] == m[5];
    m
  }

  // ---------------------------------------------------------------------------
  // Running a chain, abstractly

  /** The code a run returns and the steps it ran. */
  datatype Trace = Trace(code: int, ran: seq<Step>)

  /** A run of `chain` in which step i succeeds exactly when oks[i]: every handler calls the
      next one only after succeeding (cron/handler.go:61-66). */
  function Dispatch(chain: seq<Step>, oks: seq<bool>): (t: Trace)
    requires |oks| == |chain|
    ensures |t.ran| <= |chain|
  {
    if chain == [] then Trace(Finished, [])
    else if !oks[0] then Trace(ErrCode(chain[0]), [chain[0]])
    else
      var rest := Dispatch(chain[1..], oks[1..]);
      Trace(rest.code, [chain[0]] + rest.ran)
  }

  /** A run executes a prefix of its chain and stops at the first failing step with that
      step's code; it returns Finished exactly when every step succeeded. */
  lemma {:induction false} DispatchStopsAtFirstFailure(chain: seq<Step>, oks: seq<bool>)
    requires |oks| == |chain|
    ensures var t := Dispatch(chain, oks);
      && t.ran == chain[..|t.ran|]
      && (t.code == Finished <==> forall i :: 0 <= i < |oks| ==> oks[i])
      && (t.code == Finished ==> t.ran == chain)
      && (t.code != Finished ==>
            && 0 < |t.ran| && !oks[|t.ran| - 1] && t.code == ErrCode(chain[|t.ran| - 1])
            && forall i :: 0 <= i < |t.ran| - 1 ==> oks[i])
  {
    if chain != [] && oks[0] {
      var tail, flags := chain[1..], oks[1..];
      DispatchStopsAtFirstFailure(tail, flags);
      var rest := Dispatch(tail, flags);
      var m := |rest.ran|;
      assert chain[..m + 1] == [chain[0]] + tail[..m];
      assert forall i :: 0 < i < |oks| ==> oks[i] == flags[i - 1];
      if rest.code != Finished {
        assert chain[m] == tail[m - 1];
      }
    }
  }

  /** The code of the step at index i of the full chain is i. */
  lemma CodeOfStep(i: int)
    requires 0 <= i < |Steps|
    ensures ErrCode(Steps[i]) == i
  {
    assert Steps[0] == CheckLocal && Steps[1] == CheckQiniuCert && Steps[2] == ObtainCert;
    assert Steps[3] == UploadCert && Steps[4] == ForceHttps && Steps[5] == RemoveOldCert;
  }

  /** A run of a chain whose steps carry consecutive codes from k on executes a prefix of
      those steps and fails, if at all, with one of their codes. */
  lemma RunCodes(chain: seq<Step>, oks: seq<bool>, k: int)
    requires |oks| == |chain|
    requires forall i :: 0 <= i < |chain| ==> ErrCode(chain[i]) == k + i
    ensures var t := Dispatch(chain, oks);
      && t.ran == chain[..|t.ran|]
      && (forall i :: 0 <= i < |t.ran| ==> ErrCode(t.ran[i]) == k + i)
      && (t.code == Finished || k <= t.code < k + |chain|)
  {
    DispatchStopsAtFirstFailure(chain, oks);
    var t := Dispatch(chain, oks);
    forall i | 0 <= i < |t.ran| ensures ErrCode(t.ran[i]) == k + i {
      assert t.ran[i] == chain[i];
    }
  }

  /** The chain of code k (NewStrategyMap()[k], which is Steps[k..]) runs the steps from
      index k on, in order, and never a step before k; the code it fails with is at least k. */
  lemma ResumeRunsSuffix(k: int, oks: seq<bool>)
    requires 0 <= k < |Steps| && |oks| == |Steps| - k
    ensures var t := Dispatch(Steps[k..], oks);
      && k + |t.ran| <= |Steps| && t.ran == Steps[k..k + |t.ran|]
      && (forall i :: 0 <= i < |t.ran| ==> ErrCode(t.ran[i]) == k + i)
      && (t.code == Finished || k <= t.code < |Steps|)
  {
    var chain := Steps[k..];
    SuffixCodes(k);
    RunCodes(chain, oks, k);
    var m := |Dispatch(chain, oks).ran|;
    assert chain[..m] == Steps[k..k + m];
  }

  /** The steps from index k on carry the consecutive codes k, k+1, ... */
  lemma SuffixCodes(k: int)
    requires 0 <= k < |Steps|
    ensures forall i :: 0 <= i < |Steps| - k ==> ErrCode(Steps[k..][i]) == k + i
  {
    forall i | 0 <= i < |Steps| - k ensures ErrCode(Steps[k..][i]) == k + i {
      CodeOfStep(k + i);
    }
  }

  /** The code a run fails with restarts exactly at the failed step: the chain it selects
      begins with that step and is the rest of the interrupted chain. */
  lemma RetryResumesAtFailedStep(k: int, oks: seq<bool>)
    requires 0 <= k < |Steps| && |oks| == |Steps| - k
    requires Dispatch(Steps[k..], oks).code != Finished
    ensures var t := Dispatch(Steps[k..], oks);
      && 0 < |t.ran| && k <= t.code < |Steps|
      && Steps[t.code..][0] == t.ran[|t.ran| - 1]
      && Steps[t.code..] == Steps[k..][|t.ran| - 1..]
  {
    var chain := Steps[k..];
    DispatchStopsAtFirstFailure(chain, oks);
    var t := Dispatch(chain, oks);
    var j := k + |t.ran| - 1;
    assert t.ran[|t.ran| - 1] == Steps[j];
    CodeOfStep(j);
  }

  // ---------------------------------------------------------------------------
  // The handler objects and their linking (cron/handler.go:45-66, 220-233)

  /** One concrete handler: its step and the BaseHandler `next` it embeds. */
  class StepHandler {
    const step: Step
    var next: StepHandler?

    constructor(step: Step)
      ensures this.step == step && next == null
    {
      this.step := step;
      next := null;
    }

    /** SetNext (cron/handler.go:55-58), promoted from the embedded BaseHandler. */
    method SetNext(handler: StepHandler) returns (r: StepHandler)
      modifies this
      ensures next == handler && r == handler
    {
      next := handler;
      r := handler;
    }
  }

  /** The head of a chain: a BaseHandler that is not itself a step. */
  class BaseHandler {
    var next: StepHandler?

    constructor()
      ensures next == null
    {
      next := null;
    }

    method SetNext(handler: StepHandler) returns (r: StepHandler)
      modifies this
      ensures next == handler && r == handler
    {
      next := handler;
      r := handler;
    }
  }

  /** buildHandlerChain (cron/handler.go:220-233): a new head whose `next` pointers run
      through the handlers in argument order, or null for no handlers. The last handler's
      own `next` is left as it was. */
  method BuildHandlerChain(handlers: seq<StepHandler>) returns (base: BaseHandler?)
    requires Distinct(handlers)
    modifies set h | h in handlers
    ensures |handlers| == 0 <==> base == null
    ensures base != null ==> fresh(base) && base.next == handlers[0]
    ensures forall i :: 0 <= i < |handlers| - 1 ==> handlers[i].next == handlers[i + 1]
    ensures |handlers| > 0 ==> handlers[|handlers| - 1].next == old(handlers[|handlers| - 1].next)
  {
    if |handlers| == 0 {
      return null;
    }
    base := new BaseHandler();
    var current := base.SetNext(handlers[0]);
    for i := 1 to |handlers|
      invariant current == handlers[i - 1]
      invariant base.next == handlers[0]
      invariant forall j :: 0 <= j < i - 1 ==> handlers[j].next == handlers[j + 1]
      invariant forall j :: i - 1 <= j < |handlers| ==> handlers[j].next == old(handlers[j].next)
    {
      current := current.SetNext(handlers[i]);
    }
  }

  // ---------------------------------------------------------------------------
  // The unit of work and the steps (cron/handler.go:68-214, 277-279)

  /** The unit a chain updates. Its type is not declared in the repository; the fields are
      the ones the handlers read and write. */
  class DomainWithCert {
    var fatherDomain: string
    var certId: string
    var oldCertId: string
    var certPem: string
    var keyPem: string
    /** The hostnames still to be switched to HTTPS. */
    var domains: seq<string>

    constructor(fatherDomain: string, domains: seq<string>)
      ensures this.fatherDomain == fatherDomain && this.domains == domains
      ensures certId == "" && oldCertId == "" && certPem == "" && keyPem == ""
    {
      this.fatherDomain, this.domains := fatherDomain, domains;
      certId, oldCertId, certPem, keyPem := "", "", "", "";
    }
  }

  /** checkIfPass (cron/handler.go:277-279): the certificate is treated as due for renewal
      when less than the threshold has passed since `t`. */
  function CheckIfPass(now: int, t: int): (due: bool)
    ensures due <==> t > now - 1_728_000
  {
    now - t < Upssl.ExpirationThreshold * Upssl.SecondsPerDay
  }

  /** The handler's test has the opposite orientation to the one in cron/upssl.go: every
      certificate that one keeps because it is comfortably valid, this one renews, and it
      keeps only certificates that expired at least the threshold ago. */
  lemma ThresholdsDisagree(now: int, t: int)
    ensures Upssl.CheckIfPass(now, t) ==> CheckIfPass(now, t)
    ensures !CheckIfPass(now, t) <==> t <= now - Upssl.ExpirationThreshold * Upssl.SecondsPerDay
    ensures !CheckIfPass(now, t) ==> !Upssl.CheckIfPass(now, t)
  {
  }

  /** What ForceHTTPS asks of the store after binding: add the bound hostnames to the
      record stored for the parent, or create that record with every hostname the unit
      held (with no expiry set); any other lookup error is passed on. */
  function Persist(t: Tables, fatherDomain: string, certId: string, certPem: string, keyPem: string,
                   domains: seq<string>, success: seq<string>): Outcome<Option<Error>>
  {
    match StoredDomains(t, fatherDomain)
    case Ok(found) => Update(t, certId, found.1 + success)
    case Err(e) =>
      if e == RecordNotFound then
        var c := Create(t, NewSsl(fatherDomain, certId, certPem, keyPem, ZeroTimeUnix, domains));
        Outcome(if c.result.Ok? then None else Some(c.result.error), c.tables)
      else Outcome(Some(e), t)
  }

  /** Once the parent's record holds hostnames, ForceHTTPS can never persist: the stored
      names are passed back to UpdateSSL, whose soft delete keeps them under the unique
      index, so the insert always collides and the transaction rolls back. */
  lemma ForceHttpsPersistFailsWhenStored(t: Tables, fatherDomain: string, certId: string,
                                         certPem: string, keyPem: string,
                                         domains: seq<string>, success: seq<string>)
    requires StoredDomains(t, fatherDomain).Ok? && StoredDomains(t, fatherDomain).value.1 != []
    ensures var o := Persist(t, fatherDomain, certId, certPem, keyPem, domains, success);
      o.result.Some? && o.tables == t
  {
    var k := First(t.ssls, ByDomainName(fatherDomain)).value;
    var stored := StoredDomains(t, fatherDomain).value.1;
    StoredNamesAreTaken(t, t.ssls[k].id, stored[0]);
    UpdateRejectsKnownName(t, certId, stored + success, 0);
  }

  /** In the pipeline the CertID handed to ForceHTTPS is the id the upload just returned.
      While no record holds that CertID, UpdateSSL finds no record to update, so a
      parent with a record fails to persist whatever hostnames it holds. */
  lemma ForceHttpsPersistFailsForNewCertId(t: Tables, fatherDomain: string, certId: string,
                                           certPem: string, keyPem: string,
                                           domains: seq<string>, success: seq<string>)
    requires StoredDomains(t, fatherDomain).Ok?
    requires forall i :: 0 <= i < |t.ssls| ==> t.ssls[i].certId != certId
    ensures Persist(t, fatherDomain, certId, certPem, keyPem, domains, success)
              == Outcome(Some(RecordNotFound), t)
  {
    UpdateUnknownCertId(t, certId, StoredDomains(t, fatherDomain).value.1 + success);
  }

  /** The package-level clients and clock of cron/handler.go:14-22, with a log of the steps
      run so far and of whether each of them succeeded. */
  class Pipeline {
    const qiniuClient: QiniuClient
    const sslDao: SslDao
    const cmClient: CertMagicClient
    /** The package variable `now`; nothing in the repository assigns it. */
    const now: int
    ghost var executed: seq<Step>
    /** succeeded[i] holds exactly when executed[i] returned no error. */
    ghost var succeeded: seq<bool>

    constructor(qiniuClient: QiniuClient, sslDao: SslDao, cmClient: CertMagicClient, now: int)
      ensures this.qiniuClient == qiniuClient && this.sslDao == sslDao
      ensures this.cmClient == cmClient && this.now == now && executed == [] && succeeded == []
    {
      this.qiniuClient, this.sslDao, this.cmClient, this.now := qiniuClient, sslDao, cmClient, now;
      executed, succeeded := [], [];
    }

    /** CheckLocalCertHandler (cron/handler.go:74-86). The lookup uses Find, so a parent
        without a record reads as the zero record and its empty CertID. */
    method CheckLocalCert(unit: DomainWithCert) returns (err: Option<Error>)
      modifies unit
      ensures unit.fatherDomain == old(unit.fatherDomain) && unit.oldCertId == old(unit.oldCertId)
      ensures unit.certPem == old(unit.certPem) && unit.keyPem == old(unit.keyPem)
      ensures unit.domains == old(unit.domains)
      ensures sslDao.unavailable ==> err == Some(EngineFault) && unit.certId == old(unit.certId)
      ensures !sslDao.unavailable ==>
        err == None && unit.certId == FindByName(sslDao.State(), unit.fatherDomain).certId
    {
      var found := sslDao.GetSslByName(unit.fatherDomain);
      if found.Err? && found.error != RecordNotFound {
        return Some(found.error);
      }
      unit.certId := if found.Ok? then found.value.certId else "";
      err := None;
    }

    /** CheckQiniuCertHandler (cron/handler.go:93-114). Only a lookup the provider leaves
        unanswered fails; an unknown id reads as the zero certificate, whose expiry 0 the
        handler's test keeps. */
    method CheckQiniuCert(unit: DomainWithCert) returns (err: Option<Error>)
      requires sslDao.Valid()
      modifies unit, sslDao
      ensures sslDao.Valid() && sslDao.unavailable == old(sslDao.unavailable)
      ensures unit.fatherDomain == old(unit.fatherDomain) && unit.domains == old(unit.domains)
      ensures unit.certPem == old(unit.certPem) && unit.keyPem == old(unit.keyPem)
      ensures var id := old(unit.certId);
        id == "" || !qiniuClient.Fails(LookupCert(id)) ==> err == None && sslDao.State() == old(sslDao.State())
      ensures var id := old(unit.certId);
        id == "" || (!qiniuClient.Fails(LookupCert(id)) && !CheckIfPass(now, LookupIn(qiniuClient.certs, id).notAfter)) ==>
          unit.certId == id && unit.oldCertId == old(unit.oldCertId)
      ensures var id := old(unit.certId);
        id != "" && !qiniuClient.Fails(LookupCert(id)) && CheckIfPass(now, LookupIn(qiniuClient.certs, id).notAfter) ==>
          unit.certId == "" && unit.oldCertId == id
      ensures var id := old(unit.certId);
        id != "" && qiniuClient.Fails(LookupCert(id)) ==>
          && (old(sslDao.unavailable) ==> err == Some(EngineFault) && sslDao.State() == old(sslDao.State()))
          && (!old(sslDao.unavailable) ==> Outcome(err, sslDao.State()) == Delete(old(sslDao.State()), id))
          && unit.oldCertId == old(unit.oldCertId)
          && unit.certId == (if err.None? then "" else id)
    {
      if unit.certId != "" {
        var resp := qiniuClient.GetSslCertById(unit.certId);
        if resp.Err? {
          var e := sslDao.DeleteSsl(unit.certId);
          if e.Some? {
            return e;
          }
          unit.certId := "";
        } else if CheckIfPass(now, resp.value.notAfter) {
          unit.oldCertId := unit.certId;
          unit.certId := "";
        }
      }
      err := None;
    }

    /** ObtainCertHandler (cron/handler.go:121-134): a certificate is requested only when the
        unit holds none. */
    method ObtainCert(unit: DomainWithCert) returns (err: Option<Error>)
      modifies unit, cmClient
      ensures unit.fatherDomain == old(unit.fatherDomain) && unit.domains == old(unit.domains)
      ensures unit.certId == old(unit.certId) && unit.oldCertId == old(unit.oldCertId)
      ensures old(unit.certId) != "" ==>
        && err == None && cmClient.requested == old(cmClient.requested)
        && unit.certPem == old(unit.certPem) && unit.keyPem == old(unit.keyPem)
      ensures var answer := cmClient.issue(Upssl.Wildcard(unit.fatherDomain));
        old(unit.certId) == "" ==>
          && cmClient.requested == old(cmClient.requested) + [Upssl.Wildcard(unit.fatherDomain)]
          && (answer.None? ==> err == Some(ObtainFault)
                                && unit.certPem == old(unit.certPem) && unit.keyPem == old(unit.keyPem))
          && (answer.Some? ==> err == None
                                && unit.certPem == answer.value.certPem && unit.keyPem == answer.value.keyPem)
    {
      if unit.certId == "" {
        var obtained := cmClient.ObtainCert(Upssl.Wildcard(unit.fatherDomain));
        if obtained.Err? {
          return Some(obtained.error);
        }
        unit.certPem, unit.keyPem := obtained.value.certPem, obtained.value.keyPem;
      }
      err := None;
    }

    /** UploadCertHandler (cron/handler.go:141-150): uploads whatever PEMs the unit holds, also
        when the unit still has a certificate, and takes the provider's new id. */
    method UploadCert(unit: DomainWithCert) returns (err: Option<Error>)
      modifies unit, qiniuClient
      ensures unit.fatherDomain == old(unit.fatherDomain) && unit.domains == old(unit.domains)
      ensures unit.oldCertId == old(unit.oldCertId)
      ensures unit.certPem == old(unit.certPem) && unit.keyPem == old(unit.keyPem)
      ensures qiniuClient.https == old(qiniuClient.https)
      ensures qiniuClient.Fails(Upload(unit.fatherDomain)) ==>
        err == Some(ProviderFault) && unit.certId == old(unit.certId) && qiniuClient.certs == old(qiniuClient.certs)
      ensures !qiniuClient.Fails(Upload(unit.fatherDomain)) ==>
        && err == None && unit.certId != "" && unit.certId !in old(qiniuClient.certs)
        && qiniuClient.certs == old(qiniuClient.certs)[unit.certId :=
             Cert(unit.fatherDomain, unit.certPem, unit.keyPem, qiniuClient.policy.expiryOf(unit.certPem))]
    {
      var uploaded := qiniuClient.UpSslCert(unit.keyPem, unit.certPem, unit.fatherDomain);
      if uploaded.Err? {
        return Some(uploaded.error);
      }
      unit.certId := uploaded.value;
      err := None;
    }

    /** The loop of ForceHttpsHandler (cron/handler.go:159-172): every domain is asked for
        HTTPS in turn and sorted by the error of its call. Only a switch the provider leaves
        unanswered is an error, so `fails` holds exactly those hostnames and `success` the
        rest, each in list order; the bindings change only for the hostnames the provider
        accepts. */
    method BindEach(domains: seq<string>, certId: string) returns (success: seq<string>, fails: seq<string>)
      modifies qiniuClient
      ensures qiniuClient.certs == old(qiniuClient.certs)
      ensures var u := Unanswered(qiniuClient.policy, domains, certId);
        success == Without(domains, u) && fails == Within(domains, u)
      ensures qiniuClient.https
           == Upssl.BindAll(old(qiniuClient.https),
                            Within(domains, Bindable(qiniuClient.policy, qiniuClient.certs, domains, certId)), certId)
    {
      ghost var ok := Bindable(qiniuClient.policy, qiniuClient.certs, domains, certId);
      ghost var u := Unanswered(qiniuClient.policy, domains, certId);
      fails, success := [], [];
      for i := 0 to |domains|
        invariant qiniuClient.certs == old(qiniuClient.certs)
        invariant success == Without(domains[..i], u) && fails == Within(domains[..i], u)
        invariant qiniuClient.https == Upssl.BindAll(old(qiniuClient.https), Within(domains[..i], ok), certId)
      {
        assert domains[..i + 1][..i] == domains[..i];
        SwitchSets(qiniuClient.policy, qiniuClient.certs, domains, i, certId);
        var e := qiniuClient.ForceHttps(domains[i], certId);
        Upssl.BindStep(old(qiniuClient.https), domains, i, ok, certId);
        if e.Some? {
          fails := fails + [domains[i]];
        } else {
          success := success + [domains[i]];
        }
      }
      assert domains[..|domains|] == domains;
    }

    /** ForceHTTPSHandler (cron/handler.go:157-199): switch every hostname of the unit to its
        certificate, record the ones whose call succeeded, and keep only the failures in the
        unit. A hostname the provider refuses counts as switched; one whose switch goes
        unanswered stays in the unit for the next pass. */
    method ForceHttps(unit: DomainWithCert) returns (err: Option<Error>)
      requires sslDao.Valid()
      modifies unit, qiniuClient, sslDao
      ensures sslDao.Valid() && sslDao.unavailable == old(sslDao.unavailable)
      ensures unit.fatherDomain == old(unit.fatherDomain) && unit.certId == old(unit.certId)
      ensures unit.oldCertId == old(unit.oldCertId)
      ensures unit.certPem == old(unit.certPem) && unit.keyPem == old(unit.keyPem)
      ensures qiniuClient.certs == old(qiniuClient.certs)
      ensures var ok := Bindable(qiniuClient.policy, qiniuClient.certs, old(unit.domains), unit.certId);
        qiniuClient.https == Upssl.BindAll(old(qiniuClient.https), Within(old(unit.domains), ok), unit.certId)
      ensures old(sslDao.unavailable) ==> err == Some(EngineFault) && sslDao.State() == old(sslDao.State())
      ensures var u := Unanswered(qiniuClient.policy, old(unit.domains), unit.certId);
        !old(sslDao.unavailable) ==>
          Outcome(err, sslDao.State())
            == Persist(old(sslDao.State()), unit.fatherDomain, unit.certId, unit.certPem, unit.keyPem,
                       old(unit.domains), Without(old(unit.domains), u))
      ensures var u := Unanswered(qiniuClient.policy, old(unit.domains), unit.certId);
        unit.domains == if err.None? then Within(old(unit.domains), u) else old(unit.domains)
    {
      var success, fails := BindEach(unit.domains, unit.certId);
      err := Record(unit.fatherDomain, unit.certId, unit.certPem, unit.keyPem, unit.domains, success);
      if err.None? {
        unit.domains := fails;
      }
    }

    /** The store half of ForceHTTPSHandler (cron/handler.go:174-193): add the switched
        hostnames to the parent's record, or create the record with all the unit's hostnames
        when the parent has none. */
    method Record(fatherDomain: string, certId: string, certPem: string, keyPem: string,
                  domains: seq<string>, success: seq<string>) returns (err: Option<Error>)
      requires sslDao.Valid()
      modifies sslDao
      ensures sslDao.Valid() && sslDao.unavailable == old(sslDao.unavailable)
      ensures old(sslDao.unavailable) ==> err == Some(EngineFault) && sslDao.State() == old(sslDao.State())
      ensures !old(sslDao.unavailable) ==>
        Outcome(err, sslDao.State()) == Persist(old(sslDao.State()), fatherDomain, certId, certPem, keyPem, domains, success)
    {
      var stored := sslDao.GetDomains(fatherDomain);
      if stored.Ok? {
        err := sslDao.UpdateSsl(certId, stored.value.1 + success);
      } else if stored.error == RecordNotFound {
        var created := sslDao.CreateSsl(NewSsl(fatherDomain, certId, certPem, keyPem, ZeroTimeUnix, domains));
        err := if created.Ok? then None else Some(created.error);
      } else {
        err := Some(stored.error);
      }
    }

    /** RemoveOldCertHandler (cron/handler.go:206-214). The old id is not cleared afterwards. */
    method RemoveOldCert(unit: DomainWithCert) returns (err: Option<Error>)
      modifies qiniuClient
      ensures qiniuClient.https == old(qiniuClient.https)
      ensures unit.oldCertId == "" ==> err == None && qiniuClient.certs == old(qiniuClient.certs)
      ensures unit.oldCertId != "" && qiniuClient.Fails(RemoveCert(unit.oldCertId)) ==>
        err == Some(ProviderFault) && qiniuClient.certs == old(qiniuClient.certs)
      ensures unit.oldCertId != "" && !qiniuClient.Fails(RemoveCert(unit.oldCertId)) ==> err == None
      ensures var id := unit.oldCertId;
        id != "" && !qiniuClient.Fails(RemoveCert(id)) && id !in qiniuClient.policy.undeletable ==>
          id !in qiniuClient.certs && qiniuClient.certs == old(qiniuClient.certs) - {id}
      ensures unit.oldCertId in qiniuClient.policy.undeletable ==> qiniuClient.certs == old(qiniuClient.certs)
    {
      if unit.oldCertId != "" {
        var e := qiniuClient.RemoveSslCert(unit.oldCertId);
        if e.Some? {
          return e;
        }
      }
      err := None;
    }

    /** The Handle method of the handler for step `s`, without its call to the next one. */
    method RunStep(s: Step, unit: DomainWithCert) returns (err: Option<Error>)
      requires sslDao.Valid()
      modifies this, unit, qiniuClient, sslDao, cmClient
      ensures sslDao.Valid() && sslDao.unavailable == old(sslDao.unavailable)
      ensures executed == old(executed) + [s] && succeeded == old(succeeded) + [err.None?]
    {
      match s {
        case CheckLocal => err := CheckLocalCert(unit);
        case CheckQiniuCert => err := CheckQiniuCert(unit);
        case ObtainCert => err := ObtainCert(unit);
        case UploadCert => err := UploadCert(unit);
        case ForceHttps => err := ForceHttps(unit);
        case RemoveOldCert => err := RemoveOldCert(unit);
      }
      executed, succeeded := executed + [s], succeeded + [err.None?];
    }

    /** HandleNext from a handler whose remaining chain is `chain` (cron/handler.go:61-66):
        each step runs and, on success, hands over to the next; the first failure returns its
        step's code and error; past the last step the answer is (-1, nil). `oks` says which
        steps succeeded: for the steps that ran it is what the log records, and the steps
        after a failure, which never run, count as successes. */
    method HandleFrom(chain: seq<Step>, unit: DomainWithCert) returns (code: int, err: Option<Error>, ghost oks: seq<bool>)
      requires sslDao.Valid()
      modifies this, unit, qiniuClient, sslDao, cmClient
      ensures sslDao.Valid() && sslDao.unavailable == old(sslDao.unavailable)
      ensures |oks| == |chain|
      ensures code == Dispatch(chain, oks).code
      ensures executed == old(executed) + Dispatch(chain, oks).ran
      ensures succeeded == old(succeeded) + oks[..|Dispatch(chain, oks).ran|]
      ensures err.None? <==> code == Finished
      decreases |chain|
    {
      if chain == [] {
        return Finished, None, [];
      }
      var e := RunStep(chain[0], unit);
      if e.Some? {
        code, err := ErrCode(chain[0]), e;
        oks := [false] + seq(|chain| - 1, _ => true);
        return;
      }
      ghost var rest;
      code, err, rest := HandleFrom(chain[1..], unit);
      oks := [true] + rest;
      assert oks[1..] == rest;
      assert oks[..|Dispatch(chain, oks).ran|] == [true] + rest[..|Dispatch(chain[1..], rest).ran|];
    }

    /** StartStrategy (cron/handler.go:216-218): run the chain the strategy map holds for
        `code`. Codes outside 0..5 select no chain, and the call on the missing chain
        panics, so they are excluded. */
    method StartStrategy(code: int, unit: DomainWithCert) returns (r: int, err: Option<Error>, ghost oks: seq<bool>)
      requires 0 <= code < |Steps|
      requires sslDao.Valid()
      modifies this, unit, qiniuClient, sslDao, cmClient
      ensures sslDao.Valid() && sslDao.unavailable == old(sslDao.unavailable)
      ensures |oks| == |Steps| - code
      ensures r == Dispatch(Steps[code..], oks).code
      ensures executed == old(executed) + Dispatch(Steps[code..], oks).ran
      ensures succeeded == old(succeeded) + oks[..|Dispatch(Steps[code..], oks).ran|]
      ensures err.None? <==> r == Finished
      ensures r == Finished || code <= r < |Steps|
      ensures exists n :: code <= n <= |Steps| && executed == old(executed) + Steps[code..n]
    {
      var chain := NewStrategyMap()[code];
      r, err, oks := HandleFrom(chain, unit);
      ResumeRunsSuffix(code, oks);
      ghost var n := code + |Dispatch(Steps[code..], oks).ran|;
      assert executed == old(executed) + Steps[code..n];
    }
  }
}
