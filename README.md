# autossl-qiniuyun: certificate reconciliation, modelled in Dafny

This project models the certificate reconciliation core of autossl-qiniuyun. That service keeps the
hostnames of a Qiniu CDN account on HTTPS. It groups the hostnames by parent domain, obtains
a wildcard certificate for each parent from an ACME authority, uploads the certificate to the
CDN, switches every hostname to it, and records the result in a SQLite store. The model
covers these parts:

- **The certificate store** (`dao/model.go`, `dao/dao.go`). Module `SslModel` describes the
  `ssls` and `domains` tables as values. It states the schema's constraints as `Valid`: ids
  increase, CertID is unique, Domain.Name is unique and every row points at a record. Each
  DAO operation is a function on the tables. Class `Dao.SslDao` runs those operations in
  place, with loops where the Go code loops, and proves every method against its function.
  UpdateSSL's delete is a soft delete, and the unique index still sees soft-deleted rows.
  DeleteSSL is a hard cascade. GetSSLByName uses `Find`, so a missing parent reads as the
  zero record. The lookups by CertID use `First` and report a missing record.
- **The CDN and the ACME authority** (`QiniuProvider`, `Acme`). These are abstract state:
  - the account's hostnames;
  - the uploaded certificates by id;
  - the HTTPS binding of each hostname;
  - a fixed `Policy` for how it treats each request: which requests go unanswered, each
    on its own (the listing, the upload for one parent, the lookup of one certificate,
    the switch of one hostname to one certificate), which hostnames it refuses to switch
    and which certificates it refuses to remove;
  - an oracle that issues or refuses a certificate for a name, plus a log of requests.
- **Request parameters** (`pkg/qiniu/type.go`, module `QiniuRequest`). `structToMap`
  flattens a struct into a map. `newReq` puts that map in the query of a GET, or puts the
  struct's JSON in the body for any other verb.
- **The first pipeline** (`cron/upssl.go`, module `Upssl`). This covers:
  - parent-domain derivation;
  - grouping, and the staleness filter against the store;
  - `startStrategy` (look up, obtain or renew, check remotely, bind in order);
  - `getSSLCredit`;
  - one pass of `Start`.
- **The second pipeline** (`cron/handler.go`, module `Handler`). This is a chain of six
  handlers over one unit of work (`DomainWithCert`), with resume codes 0..5. The strategy
  map, the abstract run of a chain (`Dispatch`) and the handler objects are modelled.
  Each step is a method of `Pipeline` that updates the unit, the CDN and the store.

The two pipeline files were written against different versions of the store and client API.
They are kept in separate modules and are not unified:

- handler.go calls a five-argument CreateSSL, while dao.go takes one record. The model
  creates the record with the unit's fields and no expiry, which is the Go zero time.
- handler.go reads `NotAfter` directly from the certificate response. The model reads the
  certificate's expiry.
- handler.go's `now` is a package variable that nothing assigns. It is a constant of
  `Pipeline`.

The model follows the code in these details:

- Parents whose group becomes empty after filtering are not dropped. The map keeps the key
  with an empty list (`Upssl.Refresh`, `Upssl.GroupsToRenew`).
- One pass of `Start` sends one alert per failing parent and retries nothing. No shown code
  calls `StartStrategy` of handler.go, so no retry loop is modelled.
- UploadCert uploads even when the unit still holds a usable certificate id.
- CheckLocal's switch has a not-found branch, but GetSSLByName uses `Find` and never
  reports not found. A parent without a record reads as the zero record, whose CertID is
  empty. The outcome is the same.
- The two `checkIfPass` functions point in opposite directions. upssl.go keeps a
  certificate when more than 20 days remain. handler.go treats a certificate as due when
  fewer than 20 days have passed since its expiry, so it renews every valid certificate
  (`Handler.ThresholdsDisagree`).

The proofs also show these consequences of the code as written:

- In handler.go's ForceHTTPS, once the parent's record holds any hostname, persisting
  always fails. The stored names are written back through UpdateSSL, and its soft delete
  leaves them under the unique index (`Handler.ForceHttpsPersistFailsWhenStored`).
- In the pipeline it fails earlier still, whenever the parent has a record. The CertID
  handed to ForceHTTPS is the id the upload step just returned, and UpdateSSL looks the
  record up by that CertID (dao/dao.go:110-113). While no record holds the new id, the
  update reports not found and changes nothing
  (`Handler.ForceHttpsPersistFailsForNewCertId`).
- In the same way, UpdateSSL refuses any hostname that some Domain row still holds,
  soft-deleted rows included (`SslModel.UpdateRejectsKnownName`).
- The Qiniu client never reads a response's status. newReq (pkg/qiniu/type.go:140-151)
  returns the body of any answer, and the callers decode it into their response type. A
  request the provider refuses therefore reports success:
  - a lookup of an unknown certificate id gives the zero certificate, whose expiry is 0;
  - a refused removal or a refused switch to HTTPS returns no error.
  Only a request that gets no answer fails, and each request can go unanswered on its
  own. So:
  - CheckQiniuCertHandler deletes the record only when its lookup goes unanswered;
  - ForceHTTPSHandler's failures are exactly the hostnames whose switch goes unanswered,
    and every other hostname counts as a success, a refused one included;
  - upssl.go's switching loop passes over a refused hostname, stops at the first switch
    that goes unanswered and returns its error; the hostnames before it are switched and
    the ones after it are not attempted;
  - an answered lookup can be followed by an unanswered upload, or the reverse.

## Model

| member | source | states |
|---|---|---|
| Common.FiltersPartition | cron/handler.go:159-172 | splitting a hostname list into kept and dropped parts loses and duplicates nothing: the two parts together hold every hostname exactly as often as the list |
| Common.FiltersAppend | cron/handler.go:161-171 | the split keeps the list's order: filtering a concatenation filters each part |
| Common.FilterCounts | cron/upssl.go:275-288 | each value survives a filter with all of its copies or with none |
| SslModel.First | dao/dao.go:71-78 | `First` yields the earliest matching row, no earlier row matches, and it yields nothing exactly when no row matches |
| SslModel.NewRows | dao/dao.go:123-128 | inserting the new names gives one live row per name, in order, each pointing at the record |
| SslModel.SoftDelete | dao/dao.go:117 | the non-Unscoped delete keeps every row with its name and record, and a row is marked deleted exactly when it already was or belongs to that record |
| SslModel.AllNamesSoftDelete | dao/dao.go:117 | after the soft delete every name is still taken in the unique index |
| SslModel.ActiveDomainsSoftDelete | dao/dao.go:117 | after the soft delete the record holds no hostname and every other record keeps its hostnames |
| SslModel.HardDeleteRows | dao/dao.go:141 | the Unscoped delete leaves no row of the record, soft-deleted ones included, and keeps every other record's hostnames |
| SslModel.HardDeleteKeepsNamesUnique | dao/dao.go:141 | removing rows keeps Domain.Name unique |
| SslModel.ActiveNamesFromRows | dao/model.go:16 | a hostname a record holds comes from a live Domain row whose SSLID is the record's id |
| SslModel.HostnameInOneRecord | dao/model.go:22 | the unique index on Domain.Name puts a hostname in at most one record |
| SslModel.StoredNamesAreTaken | dao/model.go:22 | every hostname a record holds is taken in the name index |
| SslModel.NoRowsForUnusedId | dao/model.go:16-23 | no Domain row belongs to an id that no record has |
| SslModel.SharedParentAllowed | dao/model.go:11 | DomainName is not unique: the schema admits two valid records for one parent domain |
| SslModel.InsertKeepsNamesUnique | dao/model.go:22 | inserting rows for names that pass the uniqueness test keeps every domain name in at most one row |
| SslModel.InsertCollides | dao/dao.go:123-127 | an insert that meets a name already present (stored or inserted earlier in the same loop) means the whole insert is refused |
| SslModel.CreateKeepsValid | dao/dao.go:37-39 | CreateSSL keeps every schema constraint, whether it commits or rolls back |
| SslModel.CreateStoresRecord | dao/dao.go:37-39 | a successful create assigns the next id, a lookup by its CertID then returns exactly the record with its hostnames in order, and every other record keeps its hostnames |
| SslModel.CreateRejectsTaken | dao/model.go:12 | creating a record whose CertID is taken fails and changes nothing |
| SslModel.UpdateKeepsValid | dao/dao.go:98-131 | UpdateSSL keeps every schema constraint |
| SslModel.UpdateReplacesDomains | dao/dao.go:98-131 | UpdateSSL is all-or-nothing: on failure the tables are unchanged; on success the record holds exactly the new names and every other record keeps its own |
| SslModel.UpdateUnknownCertId | dao/dao.go:110-113 | an unknown CertID is reported as not found and nothing changes |
| SslModel.UpdateRejectsKnownName | dao/dao.go:117-127 | because the delete is soft, inserting any name that some Domain row still holds, soft-deleted rows included, fails and rolls back |
| SslModel.DeleteKeepsValid | dao/dao.go:134-147 | DeleteSSL keeps every schema constraint |
| SslModel.RemoveRecord | dao/dao.go:146 | removing one record keeps ids increasing and CertIDs unique, and frees exactly its id |
| SslModel.DeleteCascades | dao/dao.go:134-147 | DeleteSSL fails exactly for an unknown CertID, then changing nothing; otherwise the record and all its rows are gone and every other record keeps its hostnames |
| Dao.SslDao.constructor | dao/dao.go:17-34 | opening the store over valid tables gives those tables |
| Dao.SslDao.CreateSsl | dao/dao.go:37-39 | the insert and its rollback leave exactly the tables and the answer of the create specification, or an engine fault with nothing changed |
| Dao.SslDao.GetSslByName | dao/dao.go:52-59 | `Find` answers the first record with that parent and its hostnames, or the zero record without an error |
| Dao.SslDao.GetSslByCertId | dao/dao.go:71-78 | `First` answers the record with that CertID, or not found |
| Dao.SslDao.GetSsls | dao/dao.go:61-68 | every record with its preloaded hostnames, in table order |
| Dao.SslDao.GetDomains | dao/dao.go:80-95 | the first record of the parent as its expiry and hostnames, or not found |
| Dao.SslDao.UpdateSsl | dao/dao.go:98-131 | the transaction (soft delete, then the insert loop that stops at the first collision, then the rollback) leaves exactly the tables of the update specification |
| Dao.SslDao.InsertDomains | dao/dao.go:122-127 | the insert loop succeeds exactly when the names are distinct and none is taken, and then appends one live row per name, in order, for the record; it never touches the records |
| Dao.SslDao.DeleteSsl | dao/dao.go:134-147 | the two hard deletes leave exactly the tables of the delete specification |
| QiniuProvider.QiniuClient.constructor | pkg/qiniu/qiniu.go:9-14 | a new client starts with no certificates and no bindings |
| QiniuProvider.QiniuClient.GetDomainList | pkg/qiniu/qiniu.go:23-35 | the account's hostnames, or a provider error exactly when the listing goes unanswered |
| QiniuProvider.QiniuClient.UpSslCert | pkg/qiniu/qiniu.go:38-50 | an unanswered upload fails and changes nothing; an answered one stores the certificate under a new, non-empty id and changes nothing else |
| QiniuProvider.FreshIdExists | pkg/qiniu/qiniu.go:38-50 | however many certificates exist, a fresh non-empty id is available |
| QiniuProvider.QiniuClient.GetSslCertById | pkg/qiniu/qiniu.go:68-81 | fails exactly when the lookup of that id goes unanswered; otherwise it answers the stored certificate, or for an unknown id the zero certificate with expiry 0, since the error body is decoded without reading the status |
| QiniuProvider.LookupIn | pkg/qiniu/type.go:140-151 | an answered lookup decodes to the stored certificate, or for an unknown id to a certificate with expiry 0 |
| QiniuProvider.QiniuClient.RemoveSslCert | pkg/qiniu/qiniu.go:84-90 | fails exactly when the removal of that id goes unanswered, and then changes nothing; otherwise it reports success and removes exactly that certificate, unless the provider refuses, which leaves every certificate in place |
| QiniuProvider.QiniuClient.ForceHttps | pkg/qiniu/qiniu.go:93-103 | fails exactly when the switch of that hostname to that certificate goes unanswered; the hostname is switched exactly when the switch is answered, the hostname is the account's and not refused, and the certificate exists; a refusal also reports success, and no other binding changes |
| QiniuRequest.StructToMap | pkg/qiniu/type.go:154-183 | a non-struct is refused; the loop over the fields builds exactly the fold of the non-zero fields |
| QiniuRequest.FieldsToMapKeys | pkg/qiniu/type.go:163-180 | a key is present exactly when some non-zero field carries it as json tag or, without a tag, as field name |
| QiniuRequest.FieldsToMapLastWins | pkg/qiniu/type.go:173-179 | the value under a key is the rendering of the last non-zero field with that key |
| QiniuRequest.NewReq | pkg/qiniu/type.go:94-132 | copying the map into the query parameters gives exactly the specified request |
| QiniuRequest.BuildByMethod | pkg/qiniu/type.go:99-132 | only a non-struct fails, for every verb; a GET with a struct has a query and no body; other verbs have the JSON body and no query; nil data has neither; the Content-Type is the form type exactly for GET |
| QiniuRequest.DomainListQuery | pkg/qiniu/qiniu.go:25 | the domain listing asks for `limit=1000` in the query |
| QiniuRequest.ForceHttpsFlagsDropped | pkg/qiniu/qiniu.go:94-98 | as a query map the two false flags of the ForceHTTPS request vanish and only the certificate id remains |
| Acme.CertMagicClient.ObtainCert | pkg/ssl/certmagic.go:40-58 | logs the request; returns the issued PEM pair, or an error when the authority refuses |
| Upssl.CheckIfPass | cron/upssl.go:229-232 | a certificate is kept exactly when its expiry lies more than 20 days (1 728 000 seconds) after `now`, strictly: `t - now > 20*86400` |
| Upssl.Split | cron/upssl.go:298-302 | a split has at least one part, and two or more exactly when the name contains a dot |
| Upssl.JoinSplit | cron/upssl.go:298-305 | joining the parts of a split with dots gives the name back |
| Upssl.GetParentDomain | cron/upssl.go:290-306 | the only error is the missing parent |
| Upssl.ParentIsSuffixAfterFirstDot | cron/upssl.go:290-306 | a leading dot is stripped once and never fails; otherwise the call fails exactly when there is no dot, and on success answers the suffix after the first dot |
| Upssl.ParentOfNested | cron/upssl.go:298-305 | `a.b.c` has parent `b.c` |
| Upssl.NoParentWithoutDot | cron/upssl.go:300-302 | a name without a dot has no parent |
| Upssl.FilterUnstoredDomains | cron/upssl.go:275-288 | the loops give exactly the names not stored, in order |
| Upssl.UnstoredKeeps | cron/upssl.go:275-288 | a name survives exactly when it is not stored, with all its copies, and the filter keeps the order |
| Upssl.GroupIsMembers | cron/upssl.go:243-250 | a parent has a group exactly when some listed hostname has that parent, and the group is those hostnames in list order |
| Upssl.MembersCount | cron/upssl.go:243-250 | each hostname appears in its parent's group as often as in the list, and in no other group |
| Upssl.Refresh | cron/upssl.go:253-271 | the staleness filter never adds or removes a parent |
| Upssl.GroupsToRenew | cron/upssl.go:235-272 | a hostname is handed on exactly when it is listed under that parent and the parent's first record is not both still valid and holding it |
| Upssl.BindAllServes | cron/upssl.go:171-179 | after binding, every bound hostname serves the certificate and every other hostname keeps its binding |
| Upssl.BindNext | cron/upssl.go:171-179 | the bindings after switching a list one by one are those after its prefix, plus the last hostname exactly when the provider accepts it |
| Upssl.FirstIn | cron/upssl.go:171-179 | the count of hostnames a loop that stops at the first failure gets through: none of them fails, and the next one, if any, does |
| Upssl.FirstInAt | cron/upssl.go:171-175 | a loop that reached a hostname without meeting a failure, and stops there at a failure or at the end, stopped where `FirstIn` says |
| Upssl.SwitchReaches | cron/upssl.go:171-179 | after the switching loop a hostname it reached that the provider accepts serves the certificate, every other hostname keeps its binding, the failing one and those after it included, and without an unanswered switch every hostname is reached |
| Upssl.Credit | cron/upssl.go:184-227 | a failure at any stage leaves the store as it was; success needs an issued certificate, a parsed expiry, an answering provider and store, and answers a record with the parent, the provider's id, the hostnames in order and the parsed expiry |
| Upssl.CreditStores | cron/upssl.go:210-226 | a certificate getSSLCredit reports is the record the store now holds under its CertID, the store stays valid, and every other record keeps its hostnames |
| Upssl.RenewedRequests | cron/upssl.go:139-148 | a renewal requests only the wildcard, changes the store or the provider only after requesting, and requests exactly once when the delete succeeds |
| Upssl.LocallyCreditedRequests | cron/upssl.go:125-149 | the local checks request only the wildcard, change the store or the provider only after requesting, and request whenever the store answers and the parent has no record or a due one |
| Upssl.StrategyRequests | cron/upssl.go:120-182 | the whole strategy requests only the parent's wildcard, changes the store or the provider's certificates only after requesting, and requests whenever the store answers and the parent has no record or a due one |
| Upssl.FoundByCertId | dao/model.go:12 | in a valid store the record found for a parent is also what the lookup by its CertID answers, since CertIDs are unique |
| Upssl.CreditedStored | cron/upssl.go:210-226 | getSSLCredit keeps the store valid, and a certificate it reports is the record the store holds under that CertID |
| Upssl.RenewedStored | cron/upssl.go:139-148 | a renewal keeps the store valid, and a certificate it reports is the record the store holds under that CertID |
| Upssl.LocallyCreditedStored | cron/upssl.go:125-149 | the local checks keep the store valid, and the record they hand on, found, obtained or renewed, is the one the store holds under its CertID |
| Upssl.CheckedRemotelyStored | cron/upssl.go:151-168 | starting from a stored record, the check at the provider keeps the store valid and hands on a CertID the store holds |
| Upssl.StrategyStored | cron/upssl.go:120-182 | the store stays valid, and the certificate the hostnames are switched to is one the store holds under that CertID after the call |
| Upssl.AlertsForFailures | cron/upssl.go:92-101 | an alert names a parent and an error exactly when a run for that parent failed with that error; every alert is a strategy alert, and there are no more alerts than runs |
| Upssl.RunsAppend | cron/upssl.go:92-101 | one more run adds its parent and, when it failed, its alert at the end |
| Upssl.RunsStep | cron/upssl.go:92-102 | a turn of the loop for a parent not yet done keeps one run per parent done and the mail equal to the alerts of those runs |
| Upssl.RanOnStep | cron/upssl.go:92-95 | a run on its parent's group keeps every new run on its parent's group |
| Upssl.PassStep | cron/upssl.go:92-102 | the runs logged since the loop began stay a `Pass` when one more run of the strategy follows from the state where they ended |
| Upssl.PassTail | cron/upssl.go:92-102 | a pass with runs starts with a run of `Strategy` from the pass's first state, and its other runs form a pass from where that run ended |
| Upssl.PassRequests | cron/upssl.go:92-102 | across a whole pass from a valid store the store stays valid, the certificate authority is asked only for the wildcards of the parents the pass ran for, and the store and the provider's certificates change only when something was requested |
| Upssl.ProgressStep | cron/upssl.go:92-102 | a run of the strategy for a parent still to do, on its group and from where the loop stands, moves that parent to the done ones, extends the pass and adds the run's alert, if any, to the mail |
| Upssl.QiniuSsl.GroupByParent | cron/upssl.go:243-250 | the grouping loop files every listed hostname that has a parent domain under that parent, in listing order, and skips the others |
| Upssl.QiniuSsl.StripStored | cron/upssl.go:253-269 | the filtering loop removes from each group the names already stored under a record with more than 20 days before its expiry, leaves a group whole when the record has 20 days or fewer left, keeps every parent, and reports a store fault |
| Upssl.QiniuSsl.GetDomainGroups | cron/upssl.go:235-272 | the two loops answer the grouping and filtering specification, a provider error, or a store error |
| Upssl.QiniuSsl.GetSslCredit | cron/upssl.go:184-227 | `Credited`: requests the wildcard once; the answer and the store are what `Credit` gives, with the upload failing exactly when it goes unanswered; the provider gains the certificate under a fresh id exactly when issue, parse and upload succeed, and nothing else changes |
| Upssl.QiniuSsl.Renew | cron/upssl.go:141-148 | `Renewed`: when the store's delete fails nothing else happens; once it succeeds the answer, the store, the provider and the request log are those of `Credited` run on the store without the old record |
| Upssl.QiniuSsl.RenewIfDue | cron/upssl.go:139-149 | `RenewedIfDue`: the record is renewed as `Renewed` states exactly when its expiry is due, and nothing changes otherwise; the answer is the record in hand or the renewal's answer |
| Upssl.QiniuSsl.LocalCredit | cron/upssl.go:125-149 | `LocallyCredited`: a store fault fails with nothing changed; a found record is renewed as `Renewed` states exactly when it is due, and is used as it is otherwise; without a record a certificate is obtained as `Credited` states, and when that certificate is itself due it is renewed at once; the answer is the record in hand or the renewal's answer |
| Upssl.QiniuSsl.RemoteCredit | cron/upssl.go:151-168 | `CheckedRemotely`: an unanswered lookup fails the call and nothing changes; a certificate still valid at the provider is kept and nothing is requested; one due there (an unknown id reads as expiry 0) is renewed as `Renewed` states, and the result is the new certificate's CertID or the renewal's error |
| Upssl.QiniuSsl.BindHostnames | cron/upssl.go:171-179 | `SwitchedUntilFailure`: the hostnames before the first unanswered switch are switched in order, each accepted one now serving the certificate; that switch's error is returned and the hostnames after it are not attempted; with no unanswered switch the call succeeds |
| Upssl.QiniuSsl.CheckAndBind | cron/upssl.go:151-181 | the check at the provider is `CheckedRemotely`; an error in place of a certificate is returned with no binding changed, and a certificate is switched to as `SwitchedUntilFailure` states, against what the provider accepts and leaves unanswered for it |
| Upssl.QiniuSsl.StartStrategy | cron/upssl.go:120-182 | `Strategy`: the local checks as `LocallyCredited` states; on their error nothing further happens; otherwise the check at the provider as `CheckedRemotely` states, then the switching loop to the CertID it answers as `SwitchedUntilFailure` states; the run, its group and its error are logged and nothing is mailed |
| Upssl.QiniuSsl.RunFor | cron/upssl.go:93-101 | runs the strategy for one parent on its group; the run it logs holds the parent, the group, the error, the store, certificates, requests and bindings before and after, and the intermediate answers, and forms a one-run `Pass`, so `Strategy` holds between the states before and after the call; one alert is mailed exactly when the run failed |
| Upssl.QiniuSsl.RunNext | cron/upssl.go:93-101 | one turn of the loop: running the strategy for a parent still to do moves `Progress` on by that parent, with the new run starting from the state the loop stood in |
| Upssl.QiniuSsl.RunAll | cron/upssl.go:92-102 | `Progress` with no parent left: the strategy ran once for every parent of the map, on that parent's group, and for no other; the logged runs form a `Pass` from the state before the call to the state after it, each run satisfying `Strategy` from the state the previous one left; the mail gained exactly the alerts of the failed runs, in order |
| Upssl.QiniuSsl.RunOnce | cron/upssl.go:80-104 | the groups are those of the grouping specification; a grouping error mails one alert and changes nothing else; otherwise `Progress` with no parent left over those groups, as for `RunAll`: one run of `Strategy` per parent on its group, chained from the state before the call to the state after it, and exactly the alerts of the failed runs |
| Upssl.FoundIsStored | cron/upssl.go:139-143 | the record found for a parent is stored, so deleting it by its CertID succeeds |
| Handler.ErrCode | cron/handler.go:24-32 | each step's code lies in 0..5 and selects that step in the step order |
| Handler.CodeOfStep | cron/handler.go:24-32 | the step at index i fails with code i |
| Handler.NewStrategyMap | cron/handler.go:235-275 | the map has exactly the codes 0..5, and code k holds the steps from index k on |
| Handler.Dispatch | cron/handler.go:61-66 | a run never executes more steps than its chain holds |
| Handler.DispatchStopsAtFirstFailure | cron/handler.go:61-66 | a run executes a prefix of its chain, stops at the first failing step with that step's code, and returns -1 exactly when every step succeeded |
| Handler.RunCodes | cron/handler.go:61-66 | a chain whose steps carry consecutive codes from k runs a prefix of itself, and its failure code lies among those codes |
| Handler.ResumeRunsSuffix | cron/handler.go:235-275 | the chain of code k runs steps k, k+1, ... in order and never one before k |
| Handler.RetryResumesAtFailedStep | cron/handler.go:216-218 | the code a failed run returns selects a chain that starts at the failed step and is the rest of the interrupted chain |
| Handler.StepHandler.SetNext | cron/handler.go:55-58 | links the handler and returns it |
| Handler.BaseHandler.SetNext | cron/handler.go:55-58 | links the handler and returns it |
| Handler.BuildHandlerChain | cron/handler.go:220-233 | nil for no handlers; otherwise a new head whose `next` pointers visit the handlers in argument order |
| Handler.CheckIfPass | cron/handler.go:277-279 | a certificate is due exactly when fewer than 20 days (1 728 000 seconds) have passed since its expiry, strictly: `now - t < 20*86400` |
| Handler.ThresholdsDisagree | cron/handler.go:277-279 | every certificate upssl.go keeps as valid is due for handler.go, which keeps only certificates at least 20 days past expiry |
| Handler.ForceHttpsPersistFailsWhenStored | cron/handler.go:175-183 | once the parent's record holds a hostname, persisting always fails and leaves the store unchanged |
| Handler.ForceHttpsPersistFailsForNewCertId | dao/dao.go:110-113 | for a parent with a record, persisting under a CertID no record holds, as the one just uploaded, reports not found and leaves the store unchanged |
| Handler.Pipeline.CheckLocalCert | cron/handler.go:74-86 | takes the stored CertID, "" when there is no record; a store error returns without touching the unit |
| Handler.Pipeline.CheckQiniuCert | cron/handler.go:93-114 | does nothing without a CertId; when the lookup is answered, the store is untouched and a certificate the test passes (an unknown id reads as expiry 0) moves from CertId to OldCertId; only an unanswered lookup makes it delete the record and clear CertId, or fail when the delete fails |
| Handler.Pipeline.ObtainCert | cron/handler.go:121-134 | requests the parent's wildcard only when CertId is empty, and on success sets the PEMs |
| Handler.Pipeline.UploadCert | cron/handler.go:141-150 | always uploads; an unanswered upload fails with nothing changed; otherwise CertId becomes the provider's new, fresh id and the provider holds the unit's certificate under it |
| Handler.Pipeline.BindEach | cron/handler.go:159-172 | the failures are exactly the hostnames whose switch goes unanswered and the successes all the others, each in list order, so together they split the list; the bindings change exactly for the hostnames the provider accepts |
| Handler.Pipeline.ForceHttps | cron/handler.go:157-199 | the bindings change exactly for the hostnames the provider accepts; the hostnames whose switch was answered are persisted by update or create as `Persist` states; on success the unit keeps exactly the hostnames whose switch went unanswered; on failure its hostnames are unchanged |
| Handler.Pipeline.Record | cron/handler.go:174-193 | an update with the stored hostnames plus the switched ones when the parent has a record, a create with all the unit's hostnames when it has none, and the store's error otherwise, exactly as `Persist` states |
| Handler.Pipeline.RemoveOldCert | cron/handler.go:206-214 | without an OldCertId nothing happens; with one, the step fails exactly when the removal goes unanswered, and otherwise removes that certificate unless the provider refuses; OldCertId is not cleared |
| Handler.Pipeline.RunStep | cron/handler.go:74-214 | runs exactly the handler of the step, and logs the step and whether it returned no error |
| Handler.Pipeline.HandleFrom | cron/handler.go:61-66 | runs the chain as `Dispatch` describes for outcomes `oks` that are exactly the logged outcomes of the steps that ran; the error is nil exactly when the code is -1 |
| Handler.Pipeline.StartStrategy | cron/handler.go:216-218 | for code k the steps run are exactly k..n-1 for some n, with their logged outcomes as `Dispatch` uses them; the result is -1 or a code of at least k |

## Left out

- Network I/O, request signing and sending, and JSON decoding of responses are not
  modelled. The provider and the ACME authority are abstract state and oracles. The
  client reads no response status, and neither does the model: a refusal decodes to the
  zero response and reports success.
- QiniuProvider.QiniuClient.UpSslCert: does not model a rejected upload, which the client
  reports as success with an empty CertID because the status is not read. The model's
  provider always stores an answered upload under a fresh, non-empty id.
- QiniuProvider.QiniuClient.GetDomainList: does not model a refused listing, which would
  decode to an empty list. The model answers the account's hostnames.
- Email (pkg/email) is not part of this model. An alert is an entry appended to `sent`. A
  failed send, and the early return of `run` when the grouping alert cannot be sent, are
  not modelled.
- PEM decoding and x509 parsing are a parameter `parseNotAfter` that returns an expiry or
  nothing. How the provider reads an uploaded certificate's expiry is the function
  `expiryOf`.
- `time.Sleep`, the endless loop of `Start` and the clock are not modelled. One pass is
  modelled, and the clock is a parameter `now`. upssl.go reads the clock once per
  `startStrategy` call and once per group in `getDomainGroups`. The model uses one `now`
  for the whole pass.
- Go map iteration order is arbitrary. `RunOnce` and `GetDomainGroups` pick parents with
  `:|`, and no contract depends on the order.
- Integers are unbounded. Unix seconds in int64 never come near wrap-around for real
  dates.
- The database engine's own failures are one `unavailable` flag. Every operation then
  answers an engine fault and changes nothing. So DeleteSSL, whose two deletes are not one
  transaction, is never modelled as failing between them.
- GetSSLByID is the same query as GetSSLByCertID. `GetSslByCertId` models both.
- NewSSLDao's file-system errors and config/conf.go are not modelled. Neither are main.go
  and wire.go, which are wiring.
- The order of URL query parameters and their encoding are not modelled. The query is a
  map.
- structToMap's panic on unexported fields and `json` tag options after a comma are not
  modelled. The tag is taken whole. `json.Marshal` and `http.NewRequest` failures are not
  modelled either.
- The ACME client is a fixed function of the requested name. A retried request answers
  the same as the first one.
- The provider's treatment of requests is a fixed `Policy`. A request is identified by
  what it asks, so the same request made twice gets the same answer, and a provider that
  starts or stops answering during a pass is not modelled.
- Handler.Pipeline.RunStep: it does not repeat each handler's effect in its own
  contract. Each step's effect is stated on the step method it calls.
- Handler.Pipeline.HandleFrom: the chain is executed over its list of steps, not by
  following the `next` pointers that `BuildHandlerChain` sets up. Its ghost list `oks`
  holds the logged outcome of each step that ran, and `true` for the steps after a
  failure, which never run.
- Handler.Pipeline.StartStrategy: it requires a code in 0..5. Any other code finds no
  chain in the map, and the call on the missing chain panics.
- GETSSLCertList (pkg/qiniu/qiniu.go:53-65) is not used by the core and is not modelled.
