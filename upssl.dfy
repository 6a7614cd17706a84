/** The first reconciliation pipeline, cron/upssl.go: group the CDN's hostnames by parent
    domain, drop the hostnames a still-valid stored certificate already covers, then for
    each parent make sure a valid certificate exists (locally and at the provider) and
    switch every hostname of the group to it. */
module Upssl {
  import opened Common
  import opened SslModel
  import opened Dao
  import opened QiniuProvider
  import opened Acme

  /** Days of validity a certificate must have left to be kept. */
  const ExpirationThreshold: int := 20
  const SecondsPerDay: int := 24 * 60 * 60

  /** checkIfPass (cron/upssl.go:229-232): more than the threshold is left before `t`. */
  function CheckIfPass(now: int, t: int): (pass: bool)
    ensures pass <==> t > now + 1_728_000
  {
    t - now > ExpirationThreshold * SecondsPerDay
  }

  // ---------------------------------------------------------------------------
  // Hostname strings

  function HasPrefix(s: string, prefix: string): bool {
    |prefix| <= |s| && s[..|prefix|] == prefix
  }

  function TrimPrefix(s: string, prefix: string): string {
    if HasPrefix(s, prefix) then s[|prefix|..] else s
  }

  /** The position of the first `c` in `s`. */
  function IndexOf(s: string, c: char): (i: nat)
    requires c in s
    ensures i < |s| && s[i] == c && c !in s[..i]
  {
    if s[0] == c then 0
    else
      var j := IndexOf(s[1..], c);
      assert s[..j + 1] == [s[0]] + s[1..][..j];
      j + 1
  }

  /** strings.Split(s, "."): the pieces between the dots, one more than there are dots. */
  function Split(s: string): (parts: seq<string>)
    ensures |parts| >= 1
    ensures |parts| >= 2 <==> '.' in s
    decreases |s|
  {
    if '.' !in s then [s]
    else
      var i := IndexOf(s, '.');
      [s[..i]] + Split(s[i + 1..])
  }

  /** strings.Join(parts, "."). */
  function Join(parts: seq<string>): string {
    if parts == [] then ""
    else if |parts| == 1 then parts[0]
    else parts[0] + "." + Join(parts[1..])
  }

  /** Joining the pieces of a split gives the string back. */
  lemma {:induction false} JoinSplit(s: string)
    ensures Join(Split(s)) == s
    decreases |s|
  {
    if '.' in s {
      var i := IndexOf(s, '.');
      var rest := s[i + 1..];
      JoinSplit(rest);
      var parts := Split(s);
      assert parts == [s[..i]] + Split(rest);
      assert parts[0] == s[..i] && parts[1..] == Split(rest);
      assert Join(parts) == s[..i] + "." + Join(Split(rest));
      assert s == s[..i] + [s[i]] + rest;
    }
  }

  /** getParentDomain (cron/upssl.go:290-306). */
  function GetParentDomain(domain: string): (r: Result<string>)
    ensures r.Err? ==> r.error == NoParentDomain
  {
    if HasPrefix(domain, ".") then Ok(TrimPrefix(domain, "."))
    else
      var parts := Split(domain);
      if |parts| < 2 then Err(NoParentDomain)
      else Ok(Join(parts[1..]))
  }

  /** A hostname has a parent exactly when it holds a dot, and the parent is everything after
      its first dot; a leading dot is simply dropped, once. */
  lemma ParentIsSuffixAfterFirstDot(domain: string)
    ensures GetParentDomain(domain).Err? <==> '.' !in domain
    ensures HasPrefix(domain, ".") ==> GetParentDomain(domain) == Ok(domain[1..])
    ensures GetParentDomain(domain).Ok? ==>
      var p := GetParentDomain(domain).value;
      var k := |domain| - |p| - 1;
      && 0 <= k && domain[k] == '.' && domain[k + 1..] == p && '.' !in domain[..k]
  {
    if HasPrefix(domain, ".") {
      assert domain[0] == '.';
    } else if '.' in domain {
      var i := IndexOf(domain, '.');
      var rest := domain[i + 1..];
      assert Split(domain)[1..] == Split(rest);
      JoinSplit(rest);
    }
  }

  /** The parent of a nested name drops exactly its first label. */
  lemma ParentOfNested()
    ensures GetParentDomain("a.b.c") == Ok("b.c")
  {
    var d := "a.b.c";
    ParentIsSuffixAfterFirstDot(d);
    var p := GetParentDomain(d).value;
    var k := |d| - |p| - 1;
    assert d[1] == '.' && d[0] != '.';
    assert k == 1;
    assert d[2..] == "b.c";
  }

  /** A name without a dot has no parent. */
  lemma NoParentWithoutDot()
    ensures GetParentDomain("localhost") == Err(NoParentDomain)
  {
    ParentIsSuffixAfterFirstDot("localhost");
    assert forall i :: 0 <= i < |"localhost"| ==> "localhost"[i] != '.';
  }

  // ---------------------------------------------------------------------------
  // Filtering and grouping

  /** The hostnames of `all` that `stored` does not hold, in order, duplicates kept. */
  function Unstored(all: seq<string>, stored: seq<string>): seq<string> {
    Without(all, set d | d in stored)
  }

  /** filterUnstoredDomains (cron/upssl.go:275-288). */
  method FilterUnstoredDomains(allDomains: seq<string>, storedDomains: seq<string>)
    returns (result: seq<string>)
    ensures result == Unstored(allDomains, storedDomains)
  {
    var storedSet: set<string> := {};
    for i := 0 to |storedDomains|
      invariant storedSet == set j | 0 <= j < i :: storedDomains[j]
    {
      storedSet := storedSet + {storedDomains[i]};
    }
    assert storedSet == set d | d in storedDomains by {
      forall d | d in storedDomains ensures d in storedSet {
        var j :| 0 <= j < |storedDomains| && storedDomains[j] == d;
      }
    }
    result := [];
    for i := 0 to |allDomains|
      invariant result == Without(allDomains[..i], storedSet)
    {
      assert allDomains[..i + 1][..i] == allDomains[..i];
      if allDomains[i] !in storedSet {
        result := result + [allDomains[i]];
      }
    }
    assert allDomains[..|allDomains|] == allDomains;
  }

  /** What filterUnstoredDomains keeps: every hostname not stored, as often as it occurs,
      and nothing else; the order of a concatenation is kept part by part. */
  lemma UnstoredKeeps(all: seq<string>, stored: seq<string>, x: string)
    ensures x in Unstored(all, stored) <==> x in all && x !in stored
    ensures multiset(Unstored(all, stored))[x] == if x in stored then 0 else multiset(all)[x]
    ensures forall a, b :: all == a + b ==> Unstored(all, stored) == Unstored(a, stored) + Unstored(b, stored)
  {
    var bad := set d | d in stored;
    FiltersMembers(all, bad, x);
    FilterCounts(all, bad, x);
    forall a, b | all == a + b ensures Unstored(all, stored) == Unstored(a, stored) + Unstored(b, stored) {
      FiltersAppend(a, b, bad);
    }
  }

  /** The first loop of getDomainGroups (cron/upssl.go:243-250). */
  function Group(names: seq<string>): map<string, seq<string>> {
    if names == [] then map[]
    else
      var g := Group(names[..|names| - 1]);
      var n := names[|names| - 1];
      match GetParentDomain(n)
      case Err(_) => g
      case Ok(p) => g[p := (if p in g then g[p] else []) + [n]]
  }

  /** The hostnames of `names` whose parent is `p`, in order. */
  function Members(names: seq<string>, p: string): seq<string> {
    if names == [] then []
    else
      var n := names[|names| - 1];
      Members(names[..|names| - 1], p) + (if GetParentDomain(n) == Ok(p) then [n] else [])
  }

  /** Each parent's group holds exactly its hostnames, in list order, each occurrence once;
      a parent has a group only if one of its hostnames is listed. */
  lemma {:induction false} GroupIsMembers(names: seq<string>, p: string)
    ensures p in Group(names) <==> Members(names, p) != []
    ensures p in Group(names) ==> Group(names)[p] == Members(names, p)
    decreases |names|
  {
    if names != [] {
      GroupIsMembers(names[..|names| - 1], p);
    }
  }

  /** A hostname is in its parent's group exactly as often as it is listed; a hostname
      without a parent is in no group. */
  lemma {:induction false} MembersCount(names: seq<string>, p: string, x: string)
    ensures multiset(Members(names, p))[x] == if GetParentDomain(x) == Ok(p) then multiset(names)[x] else 0
    decreases |names|
  {
    if names != [] {
      var init := names[..|names| - 1];
      assert names == init + [names[|names| - 1]];
      MembersCount(init, p, x);
    }
  }

  /** One group after the staleness filter, given what the store answered for its parent:
      a still valid record strips the hostnames it holds, anything else keeps the group. */
  function RefreshGroup(group: seq<string>, stored: Result<(int, seq<string>)>, now: int): seq<string> {
    match stored
    case Ok((notAfter, names)) => if CheckIfPass(now, notAfter) then Unstored(group, names) else group
    case Err(_) => group
  }

  /** The second loop of getDomainGroups (cron/upssl.go:253-269), given that the store
      answers every lookup: a parent whose first record is still valid loses the hostnames
      that record holds, every other group stays as it is, and no key is removed. */
  function Refresh(groups: map<string, seq<string>>, t: Tables, now: int): (r: map<string, seq<string>>)
    ensures r.Keys == groups.Keys
  {
    map p | p in groups :: RefreshGroup(groups[p], StoredDomains(t, p), now)
  }

  /** The groups getDomainGroups returns, or the error it fails with. */
  function DomainGroups(hostnames: seq<string>, providerDown: bool, t: Tables, storeDown: bool, now: int)
    : Result<map<string, seq<string>>>
  {
    if providerDown then Err(ProviderFault)
    else if storeDown && Group(hostnames) != map[] then Err(EngineFault)
    else Ok(Refresh(Group(hostnames), t, now))
  }

  /** What getDomainGroups hands to the strategy: a hostname is in the group of `p` exactly
      when it is listed, its parent is `p`, and the first record for `p` is not both still
      valid and already holding it. A fully covered parent keeps an empty group. */
  lemma GroupsToRenew(hostnames: seq<string>, t: Tables, now: int, p: string, x: string)
    requires Valid(t)
    ensures var r := Refresh(Group(hostnames), t, now);
      && (p in r <==> Members(hostnames, p) != [])
      && (p in r ==> (x in r[p] <==>
            && x in hostnames && GetParentDomain(x) == Ok(p)
            && !(StoredDomains(t, p).Ok? && CheckIfPass(now, StoredDomains(t, p).value.0)
                 && x in StoredDomains(t, p).value.1)))
  {
    GroupIsMembers(hostnames, p);
    if p in Group(hostnames) {
      var g := Group(hostnames)[p];
      var s := StoredDomains(t, p);
      assert Refresh(Group(hostnames), t, now)[p] == RefreshGroup(g, s, now);
      assert x in g <==> x in hostnames && GetParentDomain(x) == Ok(p) by {
        MembersCount(hostnames, p, x);
        assert x in g <==> multiset(g)[x] > 0;
        assert x in hostnames <==> multiset(hostnames)[x] > 0;
      }
      if s.Ok? {
        UnstoredKeeps(g, s.value.1, x);
      }
    }
  }

  // ---------------------------------------------------------------------------
  // Binding hostnames

  /** The provider's HTTPS bindings after `hosts` are switched to `id` one after another. */
  function BindAll(https: map<string, string>, hosts: seq<string>, id: string): map<string, string> {
    if hosts == [] then https
    else BindAll(https, hosts[..|hosts| - 1], id)[hosts[|hosts| - 1] := id]
  }

  /** After binding, every listed hostname serves `id` and every other keeps its binding. */
  lemma {:induction false} BindAllServes(https: map<string, string>, hosts: seq<string>, id: string, h: string)
    ensures h in hosts ==> h in BindAll(https, hosts, id) && BindAll(https, hosts, id)[h] == id
    ensures h !in hosts ==> (h in BindAll(https, hosts, id) <==> h in https)
    ensures h !in hosts && h in https ==> BindAll(https, hosts, id)[h] == https[h]
    decreases |hosts|
  {
    if hosts != [] {
      var init := hosts[..|hosts| - 1];
      assert hosts == init + [hosts[|hosts| - 1]];
      BindAllServes(https, init, id, h);
    }
  }

  /** The name a certificate is requested for: the wildcard under the parent. */
  function Wildcard(fatherDomain: string): string {
    "*." + fatherDomain
  }

  /** What getSSLCredit reports once CreateSSL has answered for `s`. */
  function StoreAnswer(created: Result<nat>, s: NewSsl): Result<Ssl> {
    match created
    case Ok(id) => Ok(Created(s, id))
    case Err(e) => Err(e)
  }

  /** Whether getSSLCredit gets as far as a successful upload: a certificate is issued, its
      PEM parses, and the provider answers. */
  predicate Uploads(issued: Option<Issued>, parse: string -> Option<int>, providerDown: bool) {
    issued.Some? && parse(issued.value.certPem).Some? && !providerDown
  }

  /** What getSSLCredit (cron/upssl.go:184-227) answers and leaves in the store `t`, given
      what the certificate authority issued, how the PEM parses, whether the provider and
      the store answer, and the id `id` the provider gives the upload. */
  function Credit(t: Tables, storeDown: bool, providerDown: bool, issued: Option<Issued>,
                  parse: string -> Option<int>, fatherDomain: string, domains: seq<string>, id: string)
    : (o: Outcome<Result<Ssl>>)
    ensures o.result.Err? ==> o.tables == t
    ensures o.result.Ok? ==> Uploads(issued, parse, providerDown) && !storeDown
    ensures o.result.Ok? ==>
      && o.result.value.certId == id && o.result.value.domainName == fatherDomain
      && o.result.value.domains == domains && o.result.value.notAfter == parse(issued.value.certPem).value
  {
    if issued.None? then Outcome(Err(ObtainFault), t)
    else if parse(issued.value.certPem).None? then Outcome(Err(PemParseFault), t)
    else if providerDown then Outcome(Err(ProviderFault), t)
    else if storeDown then Outcome(Err(EngineFault), t)
    else
      var s := NewSsl(fatherDomain, id, issued.value.certPem, issued.value.keyPem,
                      parse(issued.value.certPem).value, domains);
      var c := Create(t, s);
      Outcome(StoreAnswer(c.result, s), c.tables)
  }

  /** A certificate getSSLCredit reports is the one the store now holds under its id, and
      the store keeps every other record's hostnames. */
  lemma CreditStores(t: Tables, storeDown: bool, providerDown: bool, issued: Option<Issued>,
                     parse: string -> Option<int>, fatherDomain: string, domains: seq<string>, id: string,
                     other: nat)
    requires Valid(t)
    requires Credit(t, storeDown, providerDown, issued, parse, fatherDomain, domains, id).result.Ok?
    ensures var o := Credit(t, storeDown, providerDown, issued, parse, fatherDomain, domains, id);
      && Valid(o.tables)
      && FirstByCertId(o.tables, id) == Ok(o.result.value)
      && (other != o.result.value.id ==> ActiveDomains(o.tables.rows, other) == ActiveDomains(t.rows, other))
  {
    var s := NewSsl(fatherDomain, id, issued.value.certPem, issued.value.keyPem,
                    parse(issued.value.certPem).value, domains);
    CreateStoresRecord(t, s, other);
    CreateKeepsValid(t, s);
  }

  /** The provider's certificates after getSSLCredit: the issued certificate under the new
      id when the upload took place (`id` is not ""), the same certificates otherwise. */
  predicate UploadedAs(before: map<string, Cert>, after: map<string, Cert>, id: string,
                       fatherDomain: string, issued: Option<Issued>, expiryOf: string -> int)
  {
    if id == "" then after == before
    else
      && issued.Some? && id !in before
      && after == before[id := Cert(fatherDomain, issued.value.certPem, issued.value.keyPem,
                                    expiryOf(issued.value.certPem))]
  }

  /** The bindings after `hosts` are switched to `id` one by one by a provider that
      accepts exactly the hostnames in `ok`: the first |hosts| - 1 switches, then the
      last one if it is accepted. */
  lemma BindNext(https: map<string, string>, hosts: seq<string>, ok: set<string>, id: string)
    requires hosts != []
    ensures var init, x := hosts[..|hosts| - 1], hosts[|hosts| - 1];
      BindAll(https, Within(hosts, ok), id)
        == if x in ok then BindAll(https, Within(init, ok), id)[x := id] else BindAll(https, Within(init, ok), id)
  {
    var init, x := hosts[..|hosts| - 1], hosts[|hosts| - 1];
    var bound := Within(init, ok);
    if x in ok {
      var w := bound + [x];
      assert Within(hosts, ok) == w;
      assert w[..|w| - 1] == bound && w[|w| - 1] == x;
    } else {
      assert Within(hosts, ok) == bound;
    }
  }

  /** Switching the hostname at `i` after those before it. */
  lemma BindStep(https: map<string, string>, hosts: seq<string>, i: nat, ok: set<string>, id: string)
    requires i < |hosts|
    ensures var b := BindAll(https, Within(hosts[..i], ok), id);
      BindAll(https, Within(hosts[..i + 1], ok), id) == if hosts[i] in ok then b[hosts[i] := id] else b
  {
    assert hosts[..i + 1][..i] == hosts[..i];
    BindNext(https, hosts[..i + 1], ok, id);
  }

  /** How many hostnames come before the first one in `failing`: how far a loop that
      stops at the first failure gets. */
  function FirstIn(hosts: seq<string>, failing: set<string>): (k: nat)
    ensures k <= |hosts|
    ensures forall i :: 0 <= i < k ==> hosts[i] !in failing
    ensures k < |hosts| ==> hosts[k] in failing
  {
    if hosts == [] || hosts[0] in failing then 0 else 1 + FirstIn(hosts[1..], failing)
  }

  /** A loop that got to `i` without meeting a hostname in `failing`, and stops there
      because `hosts[i]` is in it or the hostnames are exhausted, stopped at FirstIn. */
  lemma FirstInAt(hosts: seq<string>, failing: set<string>, i: nat)
    requires i <= |hosts| && forall j :: 0 <= j < i ==> hosts[j] !in failing
    requires i < |hosts| ==> hosts[i] in failing
    ensures FirstIn(hosts, failing) == i
  {
  }

  /** The switching loop (cron/upssl.go:171-179) over `hosts`, against a provider that
      accepts the switches of the hostnames in `ok` and leaves those in `failing`
      unanswered: the hostnames before the first unanswered switch are switched in order,
      that switch's error is returned, and the hostnames after it are not attempted. */
  predicate SwitchedUntilFailure(https0: map<string, string>, hosts: seq<string>, id: string,
                                 ok: set<string>, failing: set<string>, err: Option<Error>,
                                 https1: map<string, string>)
  {
    var k := FirstIn(hosts, failing);
    && https1 == BindAll(https0, Within(hosts[..k], ok), id)
    && (err.Some? <==> k < |hosts|)
    && (err.Some? ==> err.value == ProviderFault)
  }

  /** What the switching loop leaves, hostname by hostname: a hostname the loop reached
      and the provider accepts serves `id`; every other hostname keeps its binding, the
      failing one and those after it included unless the loop reached them earlier.
      Without an unanswered switch the loop reaches every hostname. */
  lemma SwitchReaches(https0: map<string, string>, hosts: seq<string>, id: string,
                      ok: set<string>, failing: set<string>, h: string)
    ensures var k := FirstIn(hosts, failing);
      var https1 := BindAll(https0, Within(hosts[..k], ok), id);
      && (h in hosts[..k] && h in ok ==> h in https1 && https1[h] == id)
      && (!(h in hosts[..k] && h in ok) ==> (h in https1 <==> h in https0))
      && (!(h in hosts[..k] && h in ok) && h in https0 ==> https1[h] == https0[h])
      && ((forall x :: x in hosts ==> x !in failing) ==> k == |hosts|)
  {
    var k := FirstIn(hosts, failing);
    FiltersMembers(hosts[..k], ok, h);
    BindAllServes(https0, Within(hosts[..k], ok), id, h);
    if k < |hosts| {
      assert hosts[k] in hosts && hosts[k] in failing;
    }
  }

  // ---------------------------------------------------------------------------
  // The strategy for one parent, as a relation between the states before and after

  /** What the strategy cannot change: how the provider treats each request, what the
      certificate authority issues for each name, and the expiry read from a PEM. */
  datatype Env = Env(provider: Policy, issue: string -> Option<Issued>, parse: string -> Option<int>)

  /** What the strategy changes besides the bindings: the store's tables, the provider's
      certificates, and the names requested from the certificate authority. */
  datatype Snapshot = Snapshot(tables: Tables, certs: map<string, Cert>, requested: seq<string>)

  /** What one getSSLCredit call answered, and the id the provider gave its upload ("" when
      nothing was uploaded). */
  datatype CreditAnswer = CreditAnswer(result: Result<Ssl>, uploaded: string)

  /** getSSLCredit (cron/upssl.go:184-227) from `s0` to `s1`: the wildcard is requested
      once, the answer and the store are as Credit says, with the upload failing exactly
      when the provider leaves it unanswered, and the provider gains the upload if there
      was one. */
  predicate Credited(env: Env, fatherDomain: string, domains: seq<string>, storeDown: bool,
                     s0: Snapshot, a: CreditAnswer, s1: Snapshot)
  {
    var issued := env.issue(Wildcard(fatherDomain));
    var uploadFails := Upload(fatherDomain) in env.provider.unanswered;
    && s1.requested == s0.requested + [Wildcard(fatherDomain)]
    && (a.uploaded != "" <==> Uploads(issued, env.parse, uploadFails))
    && Outcome(a.result, s1.tables)
         == Credit(s0.tables, storeDown, uploadFails, issued, env.parse, fatherDomain, domains, a.uploaded)
    && UploadedAs(s0.certs, s1.certs, a.uploaded, fatherDomain, issued, env.provider.expiryOf)
  }

  /** A renewal of the record with CertID `certId` (cron/upssl.go:141-148 and 160-167):
      when the store's delete fails nothing else happens; when it succeeds a certificate
      is obtained as getSSLCredit does, on the store without the old record. */
  predicate Renewed(env: Env, certId: string, fatherDomain: string, domains: seq<string>,
                    storeDown: bool, s0: Snapshot, a: CreditAnswer, s1: Snapshot)
  {
    var d := Delete(s0.tables, certId);
    if storeDown || d.result.Some? then
      && a == CreditAnswer(Err(if storeDown then EngineFault else d.result.value), "")
      && s1 == s0
    else
      Credited(env, fatherDomain, domains, false, Snapshot(d.tables, s0.certs, s0.requested), a, s1)
  }

  /** Renewing the record `certId` exactly when its expiry `notAfter` is due at `now`;
      `renewal` is what the renewal answered, None when it did not run. */
  predicate RenewedIfDue(env: Env, certId: string, notAfter: int, now: int, fatherDomain: string,
                         domains: seq<string>, storeDown: bool, s0: Snapshot,
                         renewal: Option<CreditAnswer>, s1: Snapshot)
  {
    if CheckIfPass(now, notAfter) then renewal == None && s1 == s0
    else renewal.Some? && Renewed(env, certId, fatherDomain, domains, storeDown, s0, renewal.value, s1)
  }

  /** The record startStrategy goes on with: the one in hand, or what renewing it answered. */
  function Kept(credit: Ssl, renewal: Option<CreditAnswer>): (r: Result<Ssl>)
    ensures renewal.None? ==> r == Ok(credit)
    ensures renewal.Some? ==> r == renewal.value.result
  {
    if renewal.None? then Ok(credit) else renewal.value.result
  }

  /** The CertID of a record, or the error in its place. */
  function IdOf(r: Result<Ssl>): (id: Result<string>)
    ensures id.Ok? <==> r.Ok?
    ensures r.Ok? ==> id.value == r.value.certId
    ensures r.Err? ==> id.error == r.error
  {
    match r
    case Ok(s) => Ok(s.certId)
    case Err(e) => Err(e)
  }

  /** The intermediate answers of startStrategy's local checks: what getSSLCredit answered
      when the parent had no record, the state after that, and what a renewal answered. */
  datatype LocalRun = LocalRun(firstCredit: Option<CreditAnswer>, mid: Snapshot, renewal: Option<CreditAnswer>)

  /** startStrategy's local checks (cron/upssl.go:125-149) from `s0` to `s1`, answering
      `r`: the parent's record is looked up; without one a certificate is obtained; the
      record in hand, found or just obtained, is renewed when its expiry is due. */
  predicate LocallyCredited(env: Env, fatherDomain: string, domains: seq<string>, now: int,
                            storeDown: bool, s0: Snapshot, r: Result<Ssl>, w: LocalRun, s1: Snapshot)
  {
    var f := FindByName(s0.tables, fatherDomain);
    if storeDown then
      r == Err(EngineFault) && w.firstCredit == None && w.renewal == None && s1 == s0
    else if f.id != 0 then
      && w.firstCredit == None && w.mid == s0
      && RenewedIfDue(env, f.certId, f.notAfter, now, fatherDomain, domains, false, s0, w.renewal, s1)
      && r == Kept(f, w.renewal)
    else
      && w.firstCredit.Some?
      && Credited(env, fatherDomain, domains, false, s0, w.firstCredit.value, w.mid)
      && match w.firstCredit.value.result
         case Err(e) => r == Err(e) && w.renewal == None && s1 == w.mid
         case Ok(c) =>
           && RenewedIfDue(env, c.certId, c.notAfter, now, fatherDomain, domains, false, w.mid, w.renewal, s1)
           && r == Kept(c, w.renewal)
  }

  /** startStrategy's check at the provider (cron/upssl.go:151-168) from `s0` to `s1`: the
      certificate of `credit` is looked up, failing when the lookup goes unanswered, and
      renewed when the expiry the provider reports is due; `r` is the CertID the
      hostnames are then switched to. */
  predicate CheckedRemotely(env: Env, credit: Ssl, fatherDomain: string, domains: seq<string>,
                            now: int, storeDown: bool, s0: Snapshot, r: Result<string>,
                            renewal: Option<CreditAnswer>, s1: Snapshot)
  {
    if LookupCert(credit.certId) in env.provider.unanswered then
      r == Err(ProviderFault) && renewal == None && s1 == s0
    else
      && RenewedIfDue(env, credit.certId, LookupIn(s0.certs, credit.certId).notAfter, now,
                      fatherDomain, domains, storeDown, s0, renewal, s1)
      && r == IdOf(Kept(credit, renewal))
  }

  /** The bindings after startStrategy's switching loop for `target`: an error in place of
      a certificate switches nothing; a certificate is switched to as SwitchedUntilFailure
      says, against what the provider accepts and leaves unanswered for it. */
  predicate SwitchedTo(p: Policy, certs: map<string, Cert>, domains: seq<string>, target: Result<string>,
                       err: Option<Error>, https0: map<string, string>, https1: map<string, string>)
  {
    match target
    case Err(e) => err == Some(e) && https1 == https0
    case Ok(id) =>
      SwitchedUntilFailure(https0, domains, id, Bindable(p, certs, domains, id), Unanswered(p, domains, id),
                           err, https1)
  }

  /** The intermediate answers of one startStrategy call: what the local checks answered,
      with their own intermediate answers and the state after them, and what the check
      at the provider answered. */
  datatype StrategyRun = StrategyRun(local: Result<Ssl>, localRun: LocalRun, afterLocal: Snapshot,
                                     target: Result<string>, renewal: Option<CreditAnswer>)

  /** startStrategy (cron/upssl.go:120-182) from `s0` and the bindings `https0` to `s1` and
      `https1`, returning `err`: the local checks, then, when they produced a record, the
      check at the provider, then, when that produced a certificate, the switching loop. */
  predicate Strategy(env: Env, fatherDomain: string, domains: seq<string>, now: int, storeDown: bool,
                     s0: Snapshot, https0: map<string, string>, err: Option<Error>, t: StrategyRun,
                     s1: Snapshot, https1: map<string, string>)
  {
    && LocallyCredited(env, fatherDomain, domains, now, storeDown, s0, t.local, t.localRun, t.afterLocal)
    && match t.local
       case Err(e) => err == Some(e) && s1 == t.afterLocal && https1 == https0
       case Ok(c) =>
         && CheckedRemotely(env, c, fatherDomain, domains, now, storeDown, t.afterLocal, t.target, t.renewal, s1)
         && SwitchedTo(env.provider, s1.certs, domains, t.target, err, https0, https1)
  }

  // ---------------------------------------------------------------------------
  // What the strategy's steps promise

  /** From `s0` to `s1` only `name` was requested, and the store or the provider's
      certificates change only when something was requested. */
  predicate RequestedFor(s0: Snapshot, s1: Snapshot, name: string) {
    && RequestedOnly(s0.requested, s1.requested, name)
    && (s1.tables != s0.tables || s1.certs != s0.certs ==> |s1.requested| > |s0.requested|)
  }

  /** Requests for the same name compose. */
  lemma RequestedForTrans(s0: Snapshot, s1: Snapshot, s2: Snapshot, name: string)
    requires RequestedFor(s0, s1, name) && RequestedFor(s1, s2, name)
    ensures RequestedFor(s0, s2, name)
  {
    forall i | |s0.requested| <= i < |s2.requested|
      ensures s2.requested[i] == name
    {
      if i < |s1.requested| {
        assert s2.requested[i] == s1.requested[i];
      }
    }
  }

  /** A renewal, when it gets past the delete, requests exactly one certificate for the
      wildcard, and changes nothing when it does not. */
  lemma RenewedRequests(env: Env, certId: string, fatherDomain: string, domains: seq<string>,
                        storeDown: bool, s0: Snapshot, a: CreditAnswer, s1: Snapshot)
    requires Renewed(env, certId, fatherDomain, domains, storeDown, s0, a, s1)
    ensures RequestedFor(s0, s1, Wildcard(fatherDomain))
    ensures !storeDown && Delete(s0.tables, certId).result.None? ==> |s1.requested| == |s0.requested| + 1
  {
  }

  /** The local checks request only the wildcard, and request it whenever the store
      answers and the parent has no record or a due one. */
  lemma LocallyCreditedRequests(env: Env, fatherDomain: string, domains: seq<string>, now: int,
                                storeDown: bool, s0: Snapshot, r: Result<Ssl>, w: LocalRun, s1: Snapshot)
    requires LocallyCredited(env, fatherDomain, domains, now, storeDown, s0, r, w, s1)
    ensures RequestedFor(s0, s1, Wildcard(fatherDomain))
    ensures var f := FindByName(s0.tables, fatherDomain);
      !storeDown && (f.id == 0 || !CheckIfPass(now, f.notAfter)) ==> |s1.requested| > |s0.requested|
  {
    var f := FindByName(s0.tables, fatherDomain);
    if !storeDown {
      if f.id != 0 {
        if !CheckIfPass(now, f.notAfter) {
          RenewedRequests(env, f.certId, fatherDomain, domains, false, s0, w.renewal.value, s1);
          FoundIsStored(s0.tables, fatherDomain);
        }
      } else {
        var mid := w.mid;
        assert RequestedFor(s0, mid, Wildcard(fatherDomain));
        if w.firstCredit.value.result.Ok? {
          var c := w.firstCredit.value.result.value;
          if !CheckIfPass(now, c.notAfter) {
            RenewedRequests(env, c.certId, fatherDomain, domains, false, mid, w.renewal.value, s1);
          }
          RequestedForTrans(s0, mid, s1, Wildcard(fatherDomain));
        }
      }
    }
  }

  /** The whole strategy requests only the wildcard of its parent, and changes the store
      or the provider's certificates only when it requested one. */
  lemma StrategyRequests(env: Env, fatherDomain: string, domains: seq<string>, now: int, storeDown: bool,
                         s0: Snapshot, https0: map<string, string>, err: Option<Error>, t: StrategyRun,
                         s1: Snapshot, https1: map<string, string>)
    requires Strategy(env, fatherDomain, domains, now, storeDown, s0, https0, err, t, s1, https1)
    ensures RequestedFor(s0, s1, Wildcard(fatherDomain))
    ensures var f := FindByName(s0.tables, fatherDomain);
      !storeDown && (f.id == 0 || !CheckIfPass(now, f.notAfter)) ==> |s1.requested| > |s0.requested|
  {
    LocallyCreditedRequests(env, fatherDomain, domains, now, storeDown, s0, t.local, t.localRun, t.afterLocal);
    if t.local.Ok? && t.renewal.Some? {
      var c := t.local.value;
      RenewedRequests(env, c.certId, fatherDomain, domains, storeDown, t.afterLocal, t.renewal.value, s1);
      RequestedForTrans(s0, t.afterLocal, s1, Wildcard(fatherDomain));
    }
  }

  /** The record Find returns for a parent is a stored record, so deleting it by its
      CertID finds it. */
  lemma FoundIsStored(t: Tables, fatherDomain: string)
    requires FindByName(t, fatherDomain).id != 0
    ensures Delete(t, FindByName(t, fatherDomain).certId).result.None?
  {
    var k := First(t.ssls, ByDomainName(fatherDomain)).value;
    assert Matches(t.ssls[k], ByCertId(t.ssls[k].certId));
  }

  /** In a valid store, the record Find returns for a parent is also what the lookup by its
      CertID returns, since CertIDs are unique. */
  lemma FoundByCertId(t: Tables, fatherDomain: string)
    requires Valid(t) && FindByName(t, fatherDomain).id != 0
    ensures FirstByCertId(t, FindByName(t, fatherDomain).certId) == Ok(FindByName(t, fatherDomain))
  {
    var k := First(t.ssls, ByDomainName(fatherDomain)).value;
    assert Matches(t.ssls[k], ByCertId(t.ssls[k].certId));
  }

  /** getSSLCredit keeps the store valid, and the certificate it reports is the record the
      store now holds under that CertID. */
  lemma CreditedStored(env: Env, fatherDomain: string, domains: seq<string>, storeDown: bool,
                       s0: Snapshot, a: CreditAnswer, s1: Snapshot)
    requires Valid(s0.tables)
    requires Credited(env, fatherDomain, domains, storeDown, s0, a, s1)
    ensures Valid(s1.tables)
    ensures a.result.Ok? ==> FirstByCertId(s1.tables, a.result.value.certId) == Ok(a.result.value)
  {
    if a.result.Ok? {
      var issued := env.issue(Wildcard(fatherDomain));
      var uploadFails := Upload(fatherDomain) in env.provider.unanswered;
      CreditStores(s0.tables, storeDown, uploadFails, issued, env.parse, fatherDomain, domains, a.uploaded, 0);
    }
  }

  /** A renewal keeps the store valid, and the certificate it reports is the record the
      store now holds under that CertID. */
  lemma RenewedStored(env: Env, certId: string, fatherDomain: string, domains: seq<string>,
                      storeDown: bool, s0: Snapshot, a: CreditAnswer, s1: Snapshot)
    requires Valid(s0.tables)
    requires Renewed(env, certId, fatherDomain, domains, storeDown, s0, a, s1)
    ensures Valid(s1.tables)
    ensures a.result.Ok? ==> FirstByCertId(s1.tables, a.result.value.certId) == Ok(a.result.value)
  {
    var d := Delete(s0.tables, certId);
    if !storeDown && d.result.None? {
      DeleteKeepsValid(s0.tables, certId);
      CreditedStored(env, fatherDomain, domains, false, Snapshot(d.tables, s0.certs, s0.requested), a, s1);
    }
  }

  /** The local checks keep the store valid, and the record they hand on is the one the
      store holds under its CertID: the parent's record, or the certificate just
      obtained or renewed. */
  lemma LocallyCreditedStored(env: Env, fatherDomain: string, domains: seq<string>, now: int,
                              storeDown: bool, s0: Snapshot, r: Result<Ssl>, w: LocalRun, s1: Snapshot)
    requires Valid(s0.tables)
    requires LocallyCredited(env, fatherDomain, domains, now, storeDown, s0, r, w, s1)
    ensures Valid(s1.tables)
    ensures r.Ok? ==> FirstByCertId(s1.tables, r.value.certId) == Ok(r.value)
  {
    var f := FindByName(s0.tables, fatherDomain);
    if storeDown {
    } else if f.id != 0 {
      if w.renewal.Some? {
        RenewedStored(env, f.certId, fatherDomain, domains, false, s0, w.renewal.value, s1);
      } else {
        FoundByCertId(s0.tables, fatherDomain);
      }
    } else {
      CreditedStored(env, fatherDomain, domains, false, s0, w.firstCredit.value, w.mid);
      if w.firstCredit.value.result.Ok? && w.renewal.Some? {
        var c := w.firstCredit.value.result.value;
        RenewedStored(env, c.certId, fatherDomain, domains, false, w.mid, w.renewal.value, s1);
      }
    }
  }

  /** The check at the provider keeps the store valid, and when it starts from the record
      the store holds for `credit`, the CertID it hands on is one the store holds. */
  lemma CheckedRemotelyStored(env: Env, credit: Ssl, fatherDomain: string, domains: seq<string>,
                              now: int, storeDown: bool, s0: Snapshot, r: Result<string>,
                              renewal: Option<CreditAnswer>, s1: Snapshot)
    requires Valid(s0.tables) && FirstByCertId(s0.tables, credit.certId) == Ok(credit)
    requires CheckedRemotely(env, credit, fatherDomain, domains, now, storeDown, s0, r, renewal, s1)
    ensures Valid(s1.tables)
    ensures r.Ok? ==> FirstByCertId(s1.tables, r.value).Ok?
  {
    if renewal.Some? {
      RenewedStored(env, credit.certId, fatherDomain, domains, storeDown, s0, renewal.value, s1);
    }
  }

  /** The certificate the strategy switches the hostnames to is one the store holds under
      that CertID after the call, and the store stays valid. */
  lemma StrategyStored(env: Env, fatherDomain: string, domains: seq<string>, now: int, storeDown: bool,
                       s0: Snapshot, https0: map<string, string>, err: Option<Error>, t: StrategyRun,
                       s1: Snapshot, https1: map<string, string>)
    requires Valid(s0.tables)
    requires Strategy(env, fatherDomain, domains, now, storeDown, s0, https0, err, t, s1, https1)
    ensures Valid(s1.tables)
    ensures t.local.Ok? && t.target.Ok? ==> FirstByCertId(s1.tables, t.target.value).Ok?
  {
    LocallyCreditedStored(env, fatherDomain, domains, now, storeDown, s0, t.local, t.localRun, t.afterLocal);
    if t.local.Ok? {
      CheckedRemotelyStored(env, t.local.value, fatherDomain, domains, now, storeDown, t.afterLocal,
                            t.target, t.renewal, s1);
    }
  }

  // ---------------------------------------------------------------------------
  // Runs and alerts

  /** One run of startStrategy: the parent, the hostnames it was given, its error, the
      state and bindings before and after it, and its intermediate answers. */
  datatype Run = Run(parent: string, group: seq<string>, err: Option<Error>,
                     before: Snapshot, httpsBefore: map<string, string>,
                     after: Snapshot, httpsAfter: map<string, string>, detail: StrategyRun)

  /** `runs` is one pass of Start's loop from `s0` and `h0` to `s1` and `h1`: every run is a
      run of startStrategy from its own state before to its own state after, the first
      starts from `s0` and `h0`, each later one starts where the one before it ended, and
      the last ends at `s1` and `h1`; without runs nothing changes. */
  ghost predicate Pass(env: Env, now: int, storeDown: bool, runs: seq<Run>,
                 s0: Snapshot, h0: map<string, string>, s1: Snapshot, h1: map<string, string>)
  {
    && (runs == [] ==> s1 == s0 && h1 == h0)
    && (runs != [] ==>
          && runs[0].before == s0 && runs[0].httpsBefore == h0
          && runs[|runs| - 1].after == s1 && runs[|runs| - 1].httpsAfter == h1)
    && (forall i {:trigger runs[i].detail} :: 0 <= i < |runs| ==>
          Strategy(env, runs[i].parent, runs[i].group, now, storeDown, runs[i].before,
                   runs[i].httpsBefore, runs[i].err, runs[i].detail, runs[i].after, runs[i].httpsAfter))
    && (forall i, j :: 0 <= i && j == i + 1 && j < |runs| ==>
          runs[j].before == runs[i].after && runs[j].httpsBefore == runs[i].httpsAfter)
  }

  /** The runs logged since `start` stay a pass when one more run of startStrategy follows
      from where they ended. */
  lemma PassStep(env: Env, now: int, storeDown: bool, start: seq<Run>, prev: seq<Run>,
                 s0: Snapshot, h0: map<string, string>, r: Run)
    requires start <= prev && Pass(env, now, storeDown, prev[|start|..], s0, h0, r.before, r.httpsBefore)
    requires Pass(env, now, storeDown, [r], r.before, r.httpsBefore, r.after, r.httpsAfter)
    ensures Pass(env, now, storeDown, (prev + [r])[|start|..], s0, h0, r.after, r.httpsAfter)
  {
    var before, runs := prev[|start|..], (prev + [r])[|start|..];
    assert runs == before + [r];
    assert [r][0] == r;
    forall i, j | 0 <= i && j == i + 1 && j < |runs|
      ensures runs[j].before == runs[i].after && runs[j].httpsBefore == runs[i].httpsAfter
    {
      if j == |before| {
        assert runs[i] == before[|before| - 1];
      } else {
        assert runs[i] == before[i] && runs[j] == before[j];
      }
    }
  }

  /** A pass that has runs begins with a run of startStrategy from where it starts, and
      the remaining runs are a pass from where that run ended. */
  lemma PassTail(env: Env, now: int, storeDown: bool, runs: seq<Run>,
                 s0: Snapshot, h0: map<string, string>, s1: Snapshot, h1: map<string, string>)
    requires runs != [] && Pass(env, now, storeDown, runs, s0, h0, s1, h1)
    ensures Strategy(env, runs[0].parent, runs[0].group, now, storeDown, s0, h0, runs[0].err,
                     runs[0].detail, runs[0].after, runs[0].httpsAfter)
    ensures Pass(env, now, storeDown, runs[1..], runs[0].after, runs[0].httpsAfter, s1, h1)
  {
    var rest := runs[1..];
    forall i | 0 <= i < |rest|
      ensures Strategy(env, rest[i].parent, rest[i].group, now, storeDown, rest[i].before,
                       rest[i].httpsBefore, rest[i].err, rest[i].detail, rest[i].after, rest[i].httpsAfter)
    {
      assert rest[i] == runs[i + 1] && runs[i + 1].detail == rest[i].detail;
    }
    forall i, j | 0 <= i && j == i + 1 && j < |rest|
      ensures rest[j].before == rest[i].after && rest[j].httpsBefore == rest[i].httpsAfter
    {
      assert rest[i] == runs[i + 1] && rest[j] == runs[j + 1];
    }
    if rest != [] {
      assert rest[0] == runs[1] && rest[|rest| - 1] == runs[|runs| - 1];
    }
  }

  /** The wildcards of the parents that `runs` ran the strategy for. */
  function Wildcards(runs: seq<Run>): set<string> {
    set r | r in runs :: Wildcard(r.parent)
  }

  /** Across a pass from a valid store, the certificate authority is asked only for the
      wildcards of the parents the pass ran for, the store stays valid, and the provider's
      certificates and the store change only when something was requested. */
  lemma {:induction false} PassRequests(env: Env, now: int, storeDown: bool, runs: seq<Run>,
                                        s0: Snapshot, h0: map<string, string>,
                                        s1: Snapshot, h1: map<string, string>)
    requires Valid(s0.tables) && Pass(env, now, storeDown, runs, s0, h0, s1, h1)
    ensures Valid(s1.tables)
    ensures s0.requested <= s1.requested
    ensures forall k :: |s0.requested| <= k < |s1.requested| ==> s1.requested[k] in Wildcards(runs)
    ensures s1.tables != s0.tables || s1.certs != s0.certs ==> |s1.requested| > |s0.requested|
    decreases |runs|
  {
    if runs != [] {
      var r := runs[0];
      PassTail(env, now, storeDown, runs, s0, h0, s1, h1);
      StrategyRequests(env, r.parent, r.group, now, storeDown, s0, h0, r.err, r.detail, r.after, r.httpsAfter);
      StrategyStored(env, r.parent, r.group, now, storeDown, s0, h0, r.err, r.detail, r.after, r.httpsAfter);
      PassRequests(env, now, storeDown, runs[1..], r.after, r.httpsAfter, s1, h1);
      forall k | |s0.requested| <= k < |s1.requested|
        ensures s1.requested[k] in Wildcards(runs)
      {
        if k < |r.after.requested| {
          assert s1.requested[k] == r.after.requested[k] == Wildcard(r.parent);
        } else {
          var q :| q in runs[1..] && s1.requested[k] == Wildcard(q.parent);
          assert q in runs;
        }
      }
    }
  }

  /** Where Start's loop stands after the runs since `start`: the parents done are
      `groups`' keys not in `todo`, one run each on its own group, the runs form a pass from
      `s0`, `h0` to `s1`, `h1`, and the mail since `sent0` holds exactly their alerts. */
  ghost predicate Progress(env: Env, now: int, storeDown: bool, groups: map<string, seq<string>>,
                     todo: set<string>, start: seq<Run>, runs: seq<Run>, sent0: seq<Alert>,
                     sent: seq<Alert>, s0: Snapshot, h0: map<string, string>,
                     s1: Snapshot, h1: map<string, string>)
  {
    && todo <= groups.Keys && start <= runs
    && Parents(runs[|start|..]) == groups.Keys - todo
    && |runs| - |start| == |groups.Keys - todo|
    && RanOn(runs[|start|..], groups)
    && Pass(env, now, storeDown, runs[|start|..], s0, h0, s1, h1)
    && sent == sent0 + Alerts(runs[|start|..])
  }

  /** One turn of Start's loop: a run of startStrategy for a parent still to do, on its
      group and from where the loop stands, moves that parent to the done ones. */
  lemma ProgressStep(env: Env, now: int, storeDown: bool, groups: map<string, seq<string>>,
                     todo: set<string>, start: seq<Run>, prev: seq<Run>, sent0: seq<Alert>,
                     mailed: seq<Alert>, s0: Snapshot, h0: map<string, string>, r: Run)
    requires Progress(env, now, storeDown, groups, todo, start, prev, sent0, mailed, s0, h0,
                      r.before, r.httpsBefore)
    requires r.parent in todo && r.group == groups[r.parent]
    requires Pass(env, now, storeDown, [r], r.before, r.httpsBefore, r.after, r.httpsAfter)
    ensures Progress(env, now, storeDown, groups, todo - {r.parent}, start, prev + [r], sent0,
                     mailed + (if r.err.Some? then [StrategyFailed(r.parent, r.err.value)] else []),
                     s0, h0, r.after, r.httpsAfter)
  {
    RunsStep(start, prev, sent0, mailed, groups.Keys, todo, r);
    RanOnStep(start, prev, groups, r);
    PassStep(env, now, storeDown, start, prev, s0, h0, r);
  }

  /** An alert e-mailed to the receiver. */
  datatype Alert = GroupingFailed(error: Error) | StrategyFailed(parent: string, error: Error)

  /** The alerts mailed for a sequence of strategy runs: one per failed run, in order. */
  function Alerts(runs: seq<Run>): seq<Alert> {
    if runs == [] then []
    else
      var last := runs[|runs| - 1];
      Alerts(runs[..|runs| - 1]) + (if last.err.Some? then [StrategyFailed(last.parent, last.err.value)] else [])
  }

  /** An alert names a parent and an error exactly when a run for that parent failed with
      that error, and every alert is a strategy alert. */
  lemma {:induction false} AlertsForFailures(runs: seq<Run>, p: string, e: Error)
    ensures StrategyFailed(p, e) in Alerts(runs) <==> exists r :: r in runs && r.parent == p && r.err == Some(e)
    ensures forall a :: a in Alerts(runs) ==> a.StrategyFailed?
    ensures |Alerts(runs)| <= |runs|
    decreases |runs|
  {
    if runs != [] {
      var init, last := runs[..|runs| - 1], runs[|runs| - 1];
      assert runs == init + [last];
      AlertsForFailures(init, p, e);
      if exists r :: r in runs && r.parent == p && r.err == Some(e) {
        var r :| r in runs && r.parent == p && r.err == Some(e);
        assert r in init || r == last;
      }
    }
  }

  /** `after` extends `before` with requests for `name` only. */
  predicate RequestedOnly(before: seq<string>, after: seq<string>, name: string) {
    before <= after && forall i :: |before| <= i < |after| ==> after[i] == name
  }

  /** The parents that `runs` ran the strategy for. */
  function Parents(runs: seq<Run>): set<string> {
    set r | r in runs :: r.parent
  }

  /** Every run in `runs` was given its parent's group from `groups`. */
  predicate RanOn(runs: seq<Run>, groups: map<string, seq<string>>) {
    forall r :: r in runs ==> r.parent in groups && r.group == groups[r.parent]
  }

  /** One more run adds its parent and, when it failed, its alert at the end. */
  lemma RunsAppend(runs: seq<Run>, r: Run)
    ensures Parents(runs + [r]) == Parents(runs) + {r.parent}
    ensures Alerts(runs + [r]) == Alerts(runs) + if r.err.Some? then [StrategyFailed(r.parent, r.err.value)] else []
  {
    var all := runs + [r];
    assert all[..|all| - 1] == runs && all[|all| - 1] == r;
  }

  /** The bookkeeping of one turn of Start's loop: running the strategy for a parent still
      to do extends the runs by that run and the mail by its alert, if any. */
  lemma RunsStep(start: seq<Run>, prev: seq<Run>, sent0: seq<Alert>, mailed: seq<Alert>,
                 keys: set<string>, todo: set<string>, r: Run)
    requires todo <= keys && r.parent in todo && start <= prev
    requires Parents(prev[|start|..]) == keys - todo && |prev| - |start| == |keys - todo|
    requires mailed == sent0 + Alerts(prev[|start|..])
    ensures var runs := prev + [r];
      && start <= runs
      && Parents(runs[|start|..]) == keys - (todo - {r.parent})
      && |runs| - |start| == |keys - (todo - {r.parent})|
      && mailed + (if r.err.Some? then [StrategyFailed(r.parent, r.err.value)] else [])
           == sent0 + Alerts(runs[|start|..])
  {
    var before := prev[|start|..];
    var runs := prev + [r];
    assert runs[|start|..] == before + [r];
    RunsAppend(before, r);
    DoneGrows(keys, todo, r.parent);
  }

  /** A run on its parent's group keeps the new runs on `groups`. */
  lemma RanOnStep(start: seq<Run>, prev: seq<Run>, groups: map<string, seq<string>>, r: Run)
    requires start <= prev && r.parent in groups && r.group == groups[r.parent]
    requires RanOn(prev[|start|..], groups)
    ensures start <= prev + [r]
    ensures RanOn((prev + [r])[|start|..], groups)
  {
    var runs := (prev + [r])[|start|..];
    assert runs == prev[|start|..] + [r];
    forall x | x in runs
      ensures x.parent in groups && x.group == groups[x.parent]
    {
      assert x in prev[|start|..] || x == r;
    }
  }

  /** Moving `p` from the parents still to do to those done adds one to the count. */
  lemma DoneGrows(keys: set<string>, todo: set<string>, p: string)
    requires todo <= keys && p in todo
    ensures keys - (todo - {p}) == (keys - todo) + {p}
    ensures |keys - (todo - {p})| == |keys - todo| + 1
  {
    assert p !in keys - todo;
  }

  /** QiniuSSL (cron/upssl.go:24-31) with its collaborators. */
  class QiniuSsl {
    const qiniuClient: QiniuClient
    const sslDao: SslDao
    const cmClient: CertMagicClient
    /** The expiry pem.Decode and x509.ParseCertificate read from a certificate PEM, or None
        when either fails. */
    const parseNotAfter: string -> Option<int>
    /** Alerts e-mailed so far. */
    var sent: seq<Alert>
    /** Every run of startStrategy so far. */
    ghost var runs: seq<Run>

    /** NewQiniuSSL (cron/upssl.go:33-77) once its configuration produced the clients. */
    constructor(qiniuClient: QiniuClient, sslDao: SslDao, cmClient: CertMagicClient,
                parseNotAfter: string -> Option<int>)
      ensures this.qiniuClient == qiniuClient && this.sslDao == sslDao
      ensures this.cmClient == cmClient && this.parseNotAfter == parseNotAfter
      ensures sent == [] && runs == []
    {
      this.qiniuClient := qiniuClient;
      this.sslDao := sslDao;
      this.cmClient := cmClient;
      this.parseNotAfter := parseNotAfter;
      sent, runs := [], [];
    }

    /** What the collaborators do that the strategy cannot change. */
    ghost function Environment(): Env {
      Env(qiniuClient.policy, cmClient.issue, parseNotAfter)
    }

    /** The store, the provider's certificates and the requested names, now. */
    ghost function Current(): Snapshot
      reads sslDao, qiniuClient, cmClient
    {
      Snapshot(sslDao.State(), qiniuClient.certs, cmClient.requested)
    }

    /** getDomainGroups (cron/upssl.go:235-272), with one clock reading for the whole call. */
    method GetDomainGroups(now: int) returns (r: Result<map<string, seq<string>>>)
      ensures r == DomainGroups(qiniuClient.policy.hostnames, qiniuClient.Fails(ListDomains),
                                sslDao.State(), sslDao.unavailable, now)
    {
      var list := qiniuClient.GetDomainList();
      if list.Err? {
        return Err(list.error);
      }
      var domainGroups := GroupByParent(list.value);
      r := StripStored(domainGroups, now);
    }
    /** The first loop of getDomainGroups (cron/upssl.go:243-250). */
    method GroupByParent(names: seq<string>) returns (domainGroups: map<string, seq<string>>)
      ensures domainGroups == Group(names)
    {
      domainGroups := map[];
      for i := 0 to |names|
        invariant domainGroups == Group(names[..i])
      {
        assert names[..i + 1][..i] == names[..i];
        var parent := GetParentDomain(names[i]);
        if parent.Ok? {
          var p := parent.value;
          domainGroups := domainGroups[p := (if p in domainGroups then domainGroups[p] else []) + [names[i]]];
        }
      }
      assert names[..|names|] == names;
    }

    /** The second loop of getDomainGroups (cron/upssl.go:253-269): the first store error
        other than not-found ends the call. */
    method StripStored(grouped: map<string, seq<string>>, now: int) returns (r: Result<map<string, seq<string>>>)
      ensures sslDao.unavailable && grouped != map[] ==> r == Err(EngineFault)
      ensures !sslDao.unavailable || grouped == map[] ==> r == Ok(Refresh(grouped, sslDao.State(), now))
    {
      var domainGroups := grouped;
      var todo := domainGroups.Keys;
      while todo != {}
        invariant todo <= grouped.Keys && domainGroups.Keys == grouped.Keys
        invariant forall p :: p in todo ==> domainGroups[p] == grouped[p]
        invariant forall p :: p in grouped.Keys - todo ==>
          domainGroups[p] == RefreshGroup(grouped[p], StoredDomains(sslDao.State(), p), now)
        invariant todo != grouped.Keys ==> !sslDao.unavailable
        decreases todo
      {
        var p :| p in todo;
        var stored := sslDao.GetDomains(p);
        if stored.Err? {
          if stored.error != RecordNotFound {
            return Err(stored.error);
          }
        } else if CheckIfPass(now, stored.value.0) {
          var kept := FilterUnstoredDomains(domainGroups[p], stored.value.1);
          domainGroups := domainGroups[p := kept];
        }
        todo := todo - {p};
      }
      assert domainGroups == Refresh(grouped, sslDao.State(), now);
      r := Ok(domainGroups);
    }


    /** getSSLCredit (cron/upssl.go:184-227): obtain a certificate for the wildcard, read its
        expiry, upload it, and store it with the group's hostnames. `uploaded` is the id the
        provider gave the certificate, or "" when nothing was uploaded. */
    method GetSslCredit(fatherDomain: string, domains: seq<string>)
      returns (r: Result<Ssl>, ghost uploaded: string)
      requires sslDao.Valid()
      modifies sslDao, qiniuClient, cmClient
      ensures sslDao.Valid() && sslDao.unavailable == old(sslDao.unavailable)
      ensures qiniuClient.https == old(qiniuClient.https)
      ensures Credited(Environment(), fatherDomain, domains, sslDao.unavailable, old(Current()),
                       CreditAnswer(r, uploaded), Current())
    {
      uploaded := "";
      var obtained := cmClient.ObtainCert(Wildcard(fatherDomain));
      if obtained.Err? {
        return Err(obtained.error), uploaded;
      }
      var certPem, keyPem := obtained.value.certPem, obtained.value.keyPem;
      var notAfter := parseNotAfter(certPem);
      if notAfter.None? {
        return Err(PemParseFault), uploaded;
      }
      var resp := qiniuClient.UpSslCert(keyPem, certPem, fatherDomain);
      if resp.Err? {
        return Err(resp.error), uploaded;
      }
      uploaded := resp.value;
      var hostnames: seq<string> := [];
      for i := 0 to |domains|
        invariant hostnames == domains[..i]
      {
        hostnames := hostnames + [domains[i]];
      }
      assert domains[..|domains|] == domains;
      var s := NewSsl(fatherDomain, resp.value, certPem, keyPem, notAfter.value, hostnames);
      var created := sslDao.CreateSsl(s);
      r := StoreAnswer(created, s);
    }

    /** Delete the stored record of a certificate and obtain a fresh one, as both renewal
        branches of startStrategy do (cron/upssl.go:141-148 and 160-167). */
    method Renew(certId: string, fatherDomain: string, domains: seq<string>)
      returns (r: Result<Ssl>, ghost uploaded: string)
      requires sslDao.Valid()
      modifies sslDao, qiniuClient, cmClient
      ensures sslDao.Valid() && sslDao.unavailable == old(sslDao.unavailable)
      ensures qiniuClient.https == old(qiniuClient.https)
      ensures Renewed(Environment(), certId, fatherDomain, domains, sslDao.unavailable, old(Current()),
                      CreditAnswer(r, uploaded), Current())
    {
      uploaded := "";
      var e := sslDao.DeleteSsl(certId);
      if e.Some? {
        return Err(e.value), uploaded;
      }
      r, uploaded := GetSslCredit(fatherDomain, domains);
    }

    /** The first half of startStrategy (cron/upssl.go:125-149): look the parent up, obtain a
        certificate when there is no record, and renew the record in hand when it is due.
        `w` holds the intermediate answers. */
    method LocalCredit(fatherDomain: string, domains: seq<string>, now: int)
      returns (r: Result<Ssl>, ghost w: LocalRun)
      requires sslDao.Valid()
      modifies sslDao, qiniuClient, cmClient
      ensures sslDao.Valid() && sslDao.unavailable == old(sslDao.unavailable)
      ensures qiniuClient.https == old(qiniuClient.https)
      ensures LocallyCredited(Environment(), fatherDomain, domains, now, sslDao.unavailable,
                              old(Current()), r, w, Current())
    {
      var found := sslDao.GetSslByName(fatherDomain);
      if found.Err? {
        return Err(found.error), LocalRun(None, Current(), None);
      }
      var credit := found.value;
      ghost var firstCredit: Option<CreditAnswer> := None;
      if credit.id == 0 {
        var obtained;
        ghost var uploaded;
        obtained, uploaded := GetSslCredit(fatherDomain, domains);
        firstCredit := Some(CreditAnswer(obtained, uploaded));
        if obtained.Err? {
          return obtained, LocalRun(firstCredit, Current(), None);
        }
        credit := obtained.value;
      }
      ghost var mid := Current();
      ghost var renewal;
      r, renewal := RenewIfDue(credit, credit.notAfter, fatherDomain, domains, now);
      w := LocalRun(firstCredit, mid, renewal);
    }

    /** Both renewal branches of startStrategy (cron/upssl.go:139-148 and 158-167): renew the
        record `credit` when the expiry `notAfter` is due at `now`, and answer the record to
        go on with. */
    method RenewIfDue(credit: Ssl, notAfter: int, fatherDomain: string, domains: seq<string>, now: int)
      returns (r: Result<Ssl>, ghost renewal: Option<CreditAnswer>)
      requires sslDao.Valid()
      modifies sslDao, qiniuClient, cmClient
      ensures sslDao.Valid() && sslDao.unavailable == old(sslDao.unavailable)
      ensures qiniuClient.https == old(qiniuClient.https)
      ensures RenewedIfDue(Environment(), credit.certId, notAfter, now, fatherDomain, domains,
                           sslDao.unavailable, old(Current()), renewal, Current())
      ensures r == Kept(credit, renewal)
    {
      renewal := None;
      r := Ok(credit);
      if !CheckIfPass(now, notAfter) {
        ghost var uploaded;
        r, uploaded := Renew(credit.certId, fatherDomain, domains);
        renewal := Some(CreditAnswer(r, uploaded));
      }
    }

    /** The second half of startStrategy's checks (cron/upssl.go:152-168): ask the provider
        for the certificate and renew it when the provider's expiry is due. The result is
        the CertID to switch the hostnames to; `renewal` is what the renewal answered. */
    method RemoteCredit(credit: Ssl, fatherDomain: string, domains: seq<string>, now: int)
      returns (r: Result<string>, ghost renewal: Option<CreditAnswer>)
      requires sslDao.Valid()
      modifies sslDao, qiniuClient, cmClient
      ensures sslDao.Valid() && sslDao.unavailable == old(sslDao.unavailable)
      ensures qiniuClient.https == old(qiniuClient.https)
      ensures CheckedRemotely(Environment(), credit, fatherDomain, domains, now, sslDao.unavailable,
                              old(Current()), r, renewal, Current())
    {
      renewal := None;
      var resp := qiniuClient.GetSslCertById(credit.certId);
      if resp.Err? {
        return Err(resp.error), renewal;
      }
      var kept;
      kept, renewal := RenewIfDue(credit, resp.value.notAfter, fatherDomain, domains, now);
      r := IdOf(kept);
    }

    /** The switching loop of startStrategy (cron/upssl.go:171-179): switch the hostnames to
        `id` in order. The first switch the provider leaves unanswered ends the loop with
        its error; a switch the provider refuses leaves that hostname's binding as it was. */
    method BindHostnames(domains: seq<string>, id: string) returns (err: Option<Error>)
      modifies qiniuClient
      ensures qiniuClient.certs == old(qiniuClient.certs)
      ensures SwitchedUntilFailure(old(qiniuClient.https), domains, id,
                                   Bindable(qiniuClient.policy, qiniuClient.certs, domains, id),
                                   Unanswered(qiniuClient.policy, domains, id), err, qiniuClient.https)
    {
      ghost var ok := Bindable(qiniuClient.policy, qiniuClient.certs, domains, id);
      ghost var failing := Unanswered(qiniuClient.policy, domains, id);
      var i := 0;
      while i < |domains|
        invariant 0 <= i <= |domains|
        invariant qiniuClient.certs == old(qiniuClient.certs)
        invariant forall j :: 0 <= j < i ==> domains[j] !in failing
        invariant qiniuClient.https == BindAll(old(qiniuClient.https), Within(domains[..i], ok), id)
      {
        SwitchSets(qiniuClient.policy, qiniuClient.certs, domains, i, id);
        var e := qiniuClient.ForceHttps(domains[i], id);
        if e.Some? {
          FirstInAt(domains, failing, i);
          return e;
        }
        BindStep(old(qiniuClient.https), domains, i, ok, id);
        i := i + 1;
      }
      assert domains[..i] == domains;
      FirstInAt(domains, failing, i);
      err := None;
    }

    /** The part of startStrategy after the local checks (cron/upssl.go:151-181): check the
        certificate at the provider, renewing it when due there, then switch the hostnames
        to the certificate in hand. `target` is that certificate's CertID or the error in
        its place; `renewal` is what a renewal answered. */
    method CheckAndBind(credit: Ssl, fatherDomain: string, domains: seq<string>, now: int)
      returns (err: Option<Error>, ghost target: Result<string>, ghost renewal: Option<CreditAnswer>)
      requires sslDao.Valid()
      modifies sslDao, qiniuClient, cmClient
      ensures sslDao.Valid() && sslDao.unavailable == old(sslDao.unavailable)
      ensures CheckedRemotely(Environment(), credit, fatherDomain, domains, now, sslDao.unavailable,
                              old(Current()), target, renewal, Current())
      ensures SwitchedTo(qiniuClient.policy, qiniuClient.certs, domains, target, err,
                         old(qiniuClient.https), qiniuClient.https)
    {
      var id;
      id, renewal := RemoteCredit(credit, fatherDomain, domains, now);
      target := id;
      if id.Err? {
        return Some(id.error), target, renewal;
      }
      err := BindHostnames(domains, id.value);
    }

    /** startStrategy (cron/upssl.go:120-182) with the clock reading `now`; `run` holds the
        intermediate answers. The run, with its states before and after, is appended to
        `runs`. */
    method StartStrategy(fatherDomain: string, domains: seq<string>, now: int)
      returns (err: Option<Error>, ghost run: StrategyRun)
      requires sslDao.Valid()
      modifies this, sslDao, qiniuClient, cmClient
      ensures sslDao.Valid() && sslDao.unavailable == old(sslDao.unavailable)
      ensures Strategy(Environment(), fatherDomain, domains, now, sslDao.unavailable, old(Current()),
                       old(qiniuClient.https), err, run, Current(), qiniuClient.https)
      ensures sent == old(sent)
      ensures runs == old(runs) + [Run(fatherDomain, domains, err, old(Current()), old(qiniuClient.https),
                                       Current(), qiniuClient.https, run)]
    {
      ghost var s0, h0 := Current(), qiniuClient.https;
      var credit;
      ghost var w;
      credit, w := LocalCredit(fatherDomain, domains, now);
      ghost var afterLocal := Current();
      ghost var target: Result<string> := Err(ProviderFault);
      ghost var renewal: Option<CreditAnswer> := None;
      if credit.Err? {
        err := Some(credit.error);
      } else {
        err, target, renewal := CheckAndBind(credit.value, fatherDomain, domains, now);
      }
      run := StrategyRun(credit, w, afterLocal, target, renewal);
      runs := runs + [Run(fatherDomain, domains, err, s0, h0, Current(), qiniuClient.https, run)];
    }

    /** The body of Start's loop over the groups (cron/upssl.go:93-101): run the strategy for
        one parent and mail an alert when it fails. */
    method RunFor(parent: string, group: seq<string>, now: int) returns (ghost r: Run)
      requires sslDao.Valid()
      modifies this, sslDao, qiniuClient, cmClient
      ensures sslDao.Valid() && sslDao.unavailable == old(sslDao.unavailable)
      ensures r.parent == parent && r.group == group
      ensures r.before == old(Current()) && r.httpsBefore == old(qiniuClient.https)
      ensures r.after == Current() && r.httpsAfter == qiniuClient.https
      ensures Pass(Environment(), now, sslDao.unavailable, [r], old(Current()), old(qiniuClient.https),
                   Current(), qiniuClient.https)
      ensures runs == old(runs) + [r]
      ensures sent == old(sent) + if r.err.Some? then [StrategyFailed(parent, r.err.value)] else []
    {
      ghost var s0, h0 := Current(), qiniuClient.https;
      var e;
      ghost var run;
      e, run := StartStrategy(parent, group, now);
      r := Run(parent, group, e, s0, h0, Current(), qiniuClient.https, run);
      assert [r][0] == r;
      if e.Some? {
        sent := sent + [StrategyFailed(parent, e.value)];
      }
    }

    /** One turn of Start's loop: RunFor for a parent still to do moves the loop's
        `Progress` on by that parent. */
    method RunNext(domainGroups: map<string, seq<string>>, todo: set<string>, p: string, now: int,
                   ghost start: seq<Run>, ghost sent0: seq<Alert>, ghost s0: Snapshot,
                   ghost h0: map<string, string>)
      requires sslDao.Valid() && p in todo
      requires Progress(Environment(), now, sslDao.unavailable, domainGroups, todo, start, runs, sent0,
                        sent, s0, h0, Current(), qiniuClient.https)
      modifies this, sslDao, qiniuClient, cmClient
      ensures sslDao.Valid() && sslDao.unavailable == old(sslDao.unavailable)
      ensures Progress(Environment(), now, sslDao.unavailable, domainGroups, todo - {p}, start, runs,
                       sent0, sent, s0, h0, Current(), qiniuClient.https)
    {
      ghost var prev, mailed := runs, sent;
      ghost var r := RunFor(p, domainGroups[p], now);
      ProgressStep(Environment(), now, sslDao.unavailable, domainGroups, todo, start, prev,
                   sent0, mailed, s0, h0, r);
    }

    /** Start's loop over the groups (cron/upssl.go:92-102): the strategy runs once for
        every parent, on that parent's group, in whatever order the map yields them, each
        run starting from the state the previous one left. */
    method RunAll(domainGroups: map<string, seq<string>>, now: int)
      requires sslDao.Valid()
      modifies this, sslDao, qiniuClient, cmClient
      ensures sslDao.Valid() && sslDao.unavailable == old(sslDao.unavailable)
      ensures Progress(Environment(), now, sslDao.unavailable, domainGroups, {}, old(runs), runs,
                       old(sent), sent, old(Current()), old(qiniuClient.https), Current(),
                       qiniuClient.https)
    {
      ghost var env, s0, h0 := Environment(), Current(), qiniuClient.https;
      var todo := domainGroups.Keys;
      while todo != {}
        invariant sslDao.Valid() && sslDao.unavailable == old(sslDao.unavailable)
        invariant Progress(env, now, sslDao.unavailable, domainGroups, todo, old(runs), runs,
                           old(sent), sent, s0, h0, Current(), qiniuClient.https)
        decreases todo
      {
        var p :| p in todo;
        RunNext(domainGroups, todo, p, now, old(runs), old(sent), s0, h0);
        todo := todo - {p};
      }
    }

    /** One pass of the `run` closure of Start (cron/upssl.go:80-104): group the hostnames,
        then run the strategy once for every parent on its group, mailing an alert for each
        failure. `groups` is what the grouping returned. */
    method RunOnce(now: int) returns (ghost groups: Result<map<string, seq<string>>>)
      requires sslDao.Valid()
      modifies this, sslDao, qiniuClient, cmClient
      ensures sslDao.Valid()
      ensures groups == DomainGroups(qiniuClient.policy.hostnames, qiniuClient.Fails(ListDomains),
                                     old(sslDao.State()), old(sslDao.unavailable), now)
      ensures groups.Err? ==>
        && sent == old(sent) + [GroupingFailed(groups.error)] && runs == old(runs)
        && Current() == old(Current()) && qiniuClient.https == old(qiniuClient.https)
      ensures groups.Ok? ==>
        Progress(Environment(), now, sslDao.unavailable, groups.value, {}, old(runs), runs,
                 old(sent), sent, old(Current()), old(qiniuClient.https), Current(), qiniuClient.https)
    {
      var r := GetDomainGroups(now);
      groups := r;
      if r.Err? {
        sent := sent + [GroupingFailed(r.error)];
        return;
      }
      RunAll(r.value, now);
    }
  }
}
