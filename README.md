# TPlanet multi-tenant core in Dafny

This project models the multi-tenant routing and configuration core of the TPlanet
platform, and proves properties of that model. The platform serves several local
government and partner sites from one code base. Each site is a *tenant*.

- **Backend tenant middleware** (`TenantMiddleware`). It builds lookup tables from
  the static tenant file. It then resolves each request's tenant through a fixed
  precedence chain:
  1. a trusted tenant-id header (the static file first, then an active database row);
  2. the full domain;
  3. the first host label;
  4. an active database row named by that label;
  5. the default tenant.

  It also covers the proxy's original-host rewrite, the anti-spoofing rule for
  `*.sechome.cc`, DB-only tenants borrowing the default tenant's database, and the
  request-scoped tenant context.
- **Tenant admin views** (`TenantValidation`, `TenantViews`). These are the
  validators, the public config merge and the admin editor. They also include the
  tenant list, which merges the static file with the `TenantConfig` table, id
  availability, creation with reactivation, and per-tenant GET/PUT/DELETE with soft
  deletion and suppression rows. The table is the `rows` field of a
  `TenantDirectory` object, and the views that change it are methods on that object.
- **Hoster upkeep** (`UserCrud`). A tenant's hosters list holds the site owner at
  index 0, then its members. Accounts are added to and removed from this list.
- **Edge worker** (`EnvRouter`). It extracts the tenant from the host and serves an
  authorised binding API over a key-value table. It then picks the dev or stable
  stack from a stored binding, a health-check auto-detection or the default.
- **Browser helpers**:
  - access-level classification (`AccessLevel`);
  - tenant detection from the host name (`TenantDetector`);
  - reply normalisation (`ApiResponse`);
  - the CMS wizard's page navigation (`CmsAgent`);
  - the upload-task list (`UploadTasks`);
  - the KPI project list filters and pager (`ProjectList`);
  - the SDG landing page filter and period text (`KpiFilter`);
  - attachment de-duplication (`Attachments`);
  - the account list's filter, pager and selection (`AccountList`);
  - the translation cache's keys, hash and expiry (`TranslateApi`);
  - the bubble map's check tree (`BubbleMap`);
  - KPI aggregation (`KpiList`);
  - the reset-password and add-account form checks (`ResetPw`, `AddAccount`).

The shared pieces are:

- `Common`: Option, Python and JavaScript whitespace, strip/trim, ASCII lower-casing,
  split, and JavaScript's `slice` and `parseInt`.
- `JsonData`: JSON values, with Python and JavaScript truthiness.
- `TenantData`: static tenants, table rows and the resolved tenant identity.

Code that changes state step by step is written as methods with loop invariants:
`Middleware.BuildLookupTables`, the `TenantDirectory` views, the hoster list,
`Attachments.NormalizeAttachments`, the pagination window, `TranslateApi.Hash` and the KPI sums.
Each such method is proved against a specification function. Pure code is written
as functions, and lemmas state what the source promises about them.

I/O is handled as follows. The database, the key-value store, the browser storage,
`fetch`, clocks and outside services are parameters or map-valued state. A method
receives the outcome of such a call instead of making it.

## Model

| member | source | states |
|---|---|---|
| TenantMiddleware.TenantPairs | apps/tplanet-daemon/backend/django_multi_tenant/middleware/tenant_middleware.py:39-40 | each domain of a tenant is paired with that tenant's id, one pair per domain, in the file's order |
| TenantMiddleware.DomainTableKeysLowerCase | apps/tplanet-daemon/backend/django_multi_tenant/middleware/tenant_middleware.py:40 | every key of the full-domain table is lower case |
| TenantMiddleware.DomainTableLastWriterWins | apps/tplanet-daemon/backend/django_multi_tenant/middleware/tenant_middleware.py:38-40 | a domain maps to the tenant of its last listing (case-insensitively): later tenants overwrite earlier ones |
| TenantMiddleware.DomainTableValuesFromPairs | apps/tplanet-daemon/backend/django_multi_tenant/middleware/tenant_middleware.py:38-40 | every tenant named by the full-domain table is the owner of some listed domain |
| TenantMiddleware.SubdomainTableKeys | apps/tplanet-daemon/backend/django_multi_tenant/middleware/tenant_middleware.py:41-45 | the first-label table never holds "www" or "api", and its keys are lower case and contain no dot |
| TenantMiddleware.SubdomainTableLastWriterWins | apps/tplanet-daemon/backend/django_multi_tenant/middleware/tenant_middleware.py:41-45 | a first label maps to the tenant of the last domain with that label |
| TenantMiddleware.SubdomainTableValuesFromPairs | apps/tplanet-daemon/backend/django_multi_tenant/middleware/tenant_middleware.py:41-45 | every tenant named by the first-label table owns some listed domain |
| TenantMiddleware.DomainPairsOwners | apps/tplanet-daemon/backend/django_multi_tenant/middleware/tenant_middleware.py:38-39 | every pair built from the static file names a tenant id of the file |
| TenantMiddleware.TablesSnoc | apps/tplanet-daemon/backend/django_multi_tenant/middleware/tenant_middleware.py:40-45 | one more domain updates the full-domain entry for its lower-cased name, and the first-label entry only when the domain has at least two labels and a label other than www/api |
| TenantMiddleware.HostOf | apps/tplanet-daemon/backend/django_multi_tenant/middleware/tenant_middleware.py:60 | the host is the raw Host header's text before its first colon, lower-cased: no colon remains, and it is no longer than the raw header |
| TenantMiddleware.EffectiveHost | apps/tplanet-daemon/backend/django_multi_tenant/middleware/tenant_middleware.py:60-70 | the host worked with has no port; it differs from the request's own host only when the request reached a *.4impact.cc origin host on behalf of a *.sechome.cc tenant host, and then it is that original host |
| TenantMiddleware.TrustedHeader | apps/tplanet-daemon/backend/django_multi_tenant/middleware/tenant_middleware.py:74-80 | a kept header id is non-empty and is the header stripped and lower-cased |
| TenantMiddleware.Middleware.constructor | apps/tplanet-daemon/backend/django_multi_tenant/middleware/tenant_middleware.py:17-31 | the middleware starts with its tables built from the static file, its default tenant id and an empty tenant context |
| TenantMiddleware.Middleware.BuildLookupTables | apps/tplanet-daemon/backend/django_multi_tenant/middleware/tenant_middleware.py:33-45 | the loop over tenants leaves exactly the tables given by folding all (domain, tenant) pairs in file order |
| TenantMiddleware.Middleware.AddTenantDomains | apps/tplanet-daemon/backend/django_multi_tenant/middleware/tenant_middleware.py:39-45 | the inner loop over one tenant's domains extends both tables by exactly that tenant's pairs |
| TenantMiddleware.Middleware.StaticInfo | apps/tplanet-daemon/backend/django_multi_tenant/middleware/tenant_middleware.py:148-158 | a static tenant's identity has its own id, the file's config (empty when missing), the configured name or else the id, and the database alias or else the id |
| TenantMiddleware.Middleware.TemplateConfig | apps/tplanet-daemon/backend/django_multi_tenant/middleware/tenant_middleware.py:128-133 | a DB-only tenant's template is "multi-tenant" when the file has it, else the default tenant's config, else empty |
| TenantMiddleware.Middleware.DefaultDatabase | apps/tplanet-daemon/backend/django_multi_tenant/middleware/tenant_middleware.py:123-124 | a DB-only tenant's database is the default tenant's alias, or the default id when there is no alias |
| TenantMiddleware.Middleware.DbTenant | apps/tplanet-daemon/backend/django_multi_tenant/middleware/tenant_middleware.py:113-143 | an identity exists exactly when an active row has the id; it keeps the id and the row's name, uses the default database, and has the row's hosters when they are truthy, else the template's |
| TenantMiddleware.Middleware.Handle | apps/tplanet-daemon/backend/django_multi_tenant/middleware/tenant_middleware.py:47-56 | the handler sees the resolved tenant, and afterwards the tenant context is None again |
| TenantMiddleware.Middleware.ProxyRewrite | apps/tplanet-daemon/backend/django_multi_tenant/middleware/tenant_middleware.py:66-70 | the original host counts only when the host ends ".4impact.cc" and the original host ends ".sechome.cc": then the request resolves as a direct request to the original host, otherwise as if the hint were absent |
| TenantMiddleware.Middleware.HeaderSpoofIgnored | apps/tplanet-daemon/backend/django_multi_tenant/middleware/tenant_middleware.py:74-80 | on a ".sechome.cc" host, a header id that differs from the first host label changes nothing |
| TenantMiddleware.Middleware.TrustedHeaderWins | apps/tplanet-daemon/backend/django_multi_tenant/middleware/tenant_middleware.py:82-85 | a trusted header naming a tenant of the static file wins over every other rule |
| TenantMiddleware.Middleware.FullDomainBeforeSubdomain | apps/tplanet-daemon/backend/django_multi_tenant/middleware/tenant_middleware.py:91-93 | without a trusted header, a full-domain match decides, before any first-label rule, and names a tenant of the file |
| TenantMiddleware.Middleware.DefaultMakesResolutionTotal | apps/tplanet-daemon/backend/django_multi_tenant/middleware/tenant_middleware.py:106-108 | when the default tenant is in the static file, every request resolves to some tenant |
| TenantMiddleware.Middleware.NoTenantMeansEveryRuleFailed | apps/tplanet-daemon/backend/django_multi_tenant/middleware/tenant_middleware.py:91-111 | no tenant means the full domain, the first label, the DB row of that label and the default all failed |
| TenantMiddleware.Middleware.ResolvedTenantIsKnown | apps/tplanet-daemon/backend/django_multi_tenant/middleware/tenant_middleware.py:82-108 | a resolved tenant is in the static file or has an active row |
| TenantMiddleware.Middleware.Resolve | apps/tplanet-daemon/backend/django_multi_tenant/middleware/tenant_middleware.py:58-111 | with a configured default tenant that the static file defines, every request resolves to a tenant |
| TenantMiddleware.Middleware.ResolveHost | apps/tplanet-daemon/backend/django_multi_tenant/middleware/tenant_middleware.py:72-111 | with a usable default tenant resolution never fails, and it fails only when no trusted header names a static tenant |
| TenantData.FindRow | apps/tplanet-daemon/backend/django_multi_tenant/views.py:82 | the first row with the id: present exactly when some row has it, and it is a row of the table with that id |
| TenantData.FindActiveRow | apps/tplanet-daemon/backend/django_multi_tenant/middleware/tenant_middleware.py:117-119 | the first active row with the id; none means every row with that id is inactive |
| TenantData.FindActiveIsActiveFind | apps/tplanet-daemon/backend/django_multi_tenant/middleware/tenant_middleware.py:117-121 | with unique ids, the active lookup is the plain lookup when that row is active, else none |
| TenantValidation.HexColorAcceptsTrailingNewline | apps/tplanet-daemon/backend/django_multi_tenant/views.py:21-26 | as written, the colour check accepts "#1976d2\n", which is not a colour |
| TenantValidation.HexColorAsWrittenDiffers | apps/tplanet-daemon/backend/django_multi_tenant/views.py:21-26 | the check as written accepts exactly the colours plus a colour followed by one newline |
| TenantValidation.ValidateHexColor | apps/tplanet-daemon/backend/django_multi_tenant/views.py:21-26 | a string passes exactly when it is "#" and six hex digits; a non-string raises |
| TenantValidation.ValidateUrl | apps/tplanet-daemon/backend/django_multi_tenant/views.py:29-37 | None, "", "/…", "http://…" and "https://…" pass, any other string fails, and any other value raises |
| TenantValidation.Take | apps/tplanet-daemon/backend/django_multi_tenant/views.py:46 | a prefix of the string of length min(length, n) |
| TenantValidation.Sanitize | apps/tplanet-daemon/backend/django_multi_tenant/views.py:40-46 | None exactly for non-strings; otherwise a prefix of the stripped string of at most maxLength characters, the whole stripped string when it fits, never starting with whitespace |
| TenantValidation.TenantIdCheckGaps | apps/tplanet-daemon/backend/django_multi_tenant/views.py:343-348 | as written, the id check accepts "A_" (short ids are never checked) and "abc\n" ($ matches before a final newline) |
| TenantValidation.ValidTenantIdCharacters | apps/tplanet-daemon/backend/django_multi_tenant/views.py:343-348 | an id is valid exactly when it is non-empty, made of lower-case letters, digits and hyphens, and starts and ends with a letter or digit |
| TenantValidation.TenantIdCheckAgreesOtherwise | apps/tplanet-daemon/backend/django_multi_tenant/views.py:343-348 | for ids longer than two characters that do not end in a newline, the check as written agrees with the intended rule |
| TenantViews.OptStr | apps/tplanet-daemon/backend/django_multi_tenant/views.py:128 | a missing text column becomes JSON null, and a present one a string |
| TenantViews.Upsert | apps/tplanet-daemon/backend/django_multi_tenant/views.py:241 | saving a row with a known id keeps the table's size, and a new id is appended |
| TenantViews.RowIndex | apps/tplanet-daemon/backend/django_multi_tenant/views.py:82 | the position of the first row with the id, which is the row the lookup finds |
| TenantViews.UpsertFacts | apps/tplanet-daemon/backend/django_multi_tenant/views.py:241 | saving keeps ids unique, makes the saved row the one found for its id, and leaves every other id's row as it was |
| TenantViews.FindRowFirst | apps/tplanet-daemon/backend/django_multi_tenant/views.py:82 | with unique ids, looking up a row's own id finds that row |
| TenantViews.TenantConfigView | apps/tplanet-daemon/backend/django_multi_tenant/views.py:63-103 | without a tenant the stock public config; with one, the config carries the tenant's id |
| TenantViews.EmptyRowOnlyRenames | apps/tplanet-daemon/backend/django_multi_tenant/views.py:84-97 | a row whose overridable columns are all falsy changes nothing in the public config except the name |
| TenantViews.TruthyColumnsOverride | apps/tplanet-daemon/backend/django_multi_tenant/views.py:89-97 | a row's features, settings, hosters and departments replace the static values exactly when they are truthy |
| TenantViews.ThemeOverrideOnlyColours | apps/tplanet-daemon/backend/django_multi_tenant/views.py:90-94 | the theme keeps every static key; the two colours come from the row, together, exactly when its primary colour is set |
| TenantViews.MergedTheme | apps/tplanet-daemon/backend/django_multi_tenant/views.py:90-94 | the public theme keeps every key of the static theme |
| TenantViews.AdminConfigGet | apps/tplanet-daemon/backend/django_multi_tenant/views.py:115-167 | without a tenant the editor answers 400; with one it answers 200 for that tenant id |
| TenantViews.AdminGetShowsRowColours | apps/tplanet-daemon/backend/django_multi_tenant/views.py:129-138 | with a row, the editor shows the row's colours, even when they are empty |
| TenantViews.AdminFieldChecks | apps/tplanet-daemon/backend/django_multi_tenant/views.py:176-207 | an admin PUT runs the same nine field checks, in order, on every body; the colour checks are the corrected ones of the first Findings row |
| TenantViews.FailedMessagesExact | apps/tplanet-daemon/backend/django_multi_tenant/views.py:176-210 | a message is reported exactly when one of the checks carrying it failed |
| TenantViews.AdminPutKeepsAbsentKeys | apps/tplanet-daemon/backend/django_multi_tenant/views.py:217-239 | keys absent from the body leave their columns as they were; id and activity never change; a name that sanitises to nothing or None keeps the old name |
| TenantViews.ApplyAdminPut | apps/tplanet-daemon/backend/django_multi_tenant/views.py:217-239 | an accepted admin PUT never changes the tenant id or the active flag, and a hosters value in the body becomes the column |
| TenantViews.AdminPutEmptyBody | apps/tplanet-daemon/backend/django_multi_tenant/views.py:217-241 | an empty PUT body leaves the row unchanged |
| TenantViews.NoFailureReported | apps/tplanet-daemon/backend/django_multi_tenant/views.py:209 | an empty error list means that no check failed |
| TenantViews.CheckOutcome | apps/tplanet-daemon/backend/django_multi_tenant/views.py:176-210 | the checks' verdict is a server error exactly when some check raised |
| TenantViews.CollectErrors | apps/tplanet-daemon/backend/django_multi_tenant/views.py:176-210 | the loop over the checks collects exactly the failed checks' messages, in order, and stops at a check that raises |
| TenantViews.StrLeTotal | apps/tplanet-daemon/backend/django_multi_tenant/views.py:297 | code-point order compares any two ids |
| TenantViews.StrLeTransitive | apps/tplanet-daemon/backend/django_multi_tenant/views.py:297 | code-point order is transitive |
| TenantViews.StrLeAntisymmetric | apps/tplanet-daemon/backend/django_multi_tenant/views.py:297 | ids that are each at most the other are equal |
| TenantViews.InsertByIdPermutes | apps/tplanet-daemon/backend/django_multi_tenant/views.py:297 | inserting into the sorted list adds exactly that entry |
| TenantViews.InsertByIdFacts | apps/tplanet-daemon/backend/django_multi_tenant/views.py:297 | inserting into a list sorted by id keeps it sorted and adds exactly the entry |
| TenantViews.BelowLast | apps/tplanet-daemon/backend/django_multi_tenant/views.py:297 | an entry that sorts before the last one keeps every inserted entry below it |
| TenantViews.SortByIdFacts | apps/tplanet-daemon/backend/django_multi_tenant/views.py:297 | the sort by tenant id yields a sorted permutation of its input |
| TenantViews.InsertById | apps/tplanet-daemon/backend/django_multi_tenant/views.py:297 | inserting one entry lengthens the list by one |
| TenantViews.SortById | apps/tplanet-daemon/backend/django_multi_tenant/views.py:297 | sorting keeps the number of entries |
| TenantViews.ActiveEntries | apps/tplanet-daemon/backend/django_multi_tenant/views.py:266-271 | the database part of the list holds exactly one entry per active row, and nothing else |
| TenantViews.YamlEntries | apps/tplanet-daemon/backend/django_multi_tenant/views.py:273-293 | the static part holds exactly the file's tenants other than "default" that have no row at all, active or not |
| TenantViews.TenantList | apps/tplanet-daemon/backend/django_multi_tenant/views.py:297-302 | the list answers 200, and its count is the number of listed tenants |
| TenantViews.YamlDict | apps/tplanet-daemon/backend/django_multi_tenant/views.py:279-293 | a static tenant is listed with its id, as active, from the static file, under exactly the listed keys, with its id standing in for a missing name or database alias |
| TenantViews.TenantListContents | apps/tplanet-daemon/backend/django_multi_tenant/views.py:265-297 | an id is listed exactly when it has an active row, or it is in the file, is not "default" and has no row |
| TenantViews.ListedComesFromRowOrFile | apps/tplanet-daemon/backend/django_multi_tenant/views.py:266-293 | every listed entry comes from an active row or from a file tenant with no row |
| TenantViews.ActiveRowListed | apps/tplanet-daemon/backend/django_multi_tenant/views.py:266-271 | every active row is listed |
| TenantViews.StaticTenantListed | apps/tplanet-daemon/backend/django_multi_tenant/views.py:279-293 | every file tenant other than "default" that has no row is listed |
| TenantViews.ListedTenantsSorted | apps/tplanet-daemon/backend/django_multi_tenant/views.py:297 | the list is sorted by tenant id |
| TenantViews.ListedMembers | apps/tplanet-daemon/backend/django_multi_tenant/views.py:265-297 | the sorted list holds exactly the database entries and the static entries |
| TenantViews.ValidateTenantIdView | apps/tplanet-daemon/backend/django_multi_tenant/views.py:307-315 | the id is reported available exactly when no row with it is active |
| TenantViews.CreateRejection | apps/tplanet-daemon/backend/django_multi_tenant/views.py:330-370 | a creation passes only with a JSON body whose id is a valid string (by the corrected check of the second Findings row), whose name is truthy, whose id has no active row, and whose hosters (when truthy) are a list |
| TenantViews.DeleteCleaned | apps/tplanet-daemon/backend/django_multi_tenant/views.py:518-550 | the reported clean-up always includes the deactivation, and includes the DNS record, the hoster detach and the env-router unbinding exactly when each happened |
| TenantViews.Deactivated | apps/tplanet-daemon/backend/django_multi_tenant/views.py:531-533 | a soft-deleted row keeps its id, is inactive and has no hosters |
| TenantViews.DetailPut | apps/tplanet-daemon/backend/django_multi_tenant/views.py:472-513 | an accepted per-tenant PUT keeps the row's id, and a hosters column that was empty or a list stays empty or a list |
| TenantViews.DetailPutEffects | apps/tplanet-daemon/backend/django_multi_tenant/views.py:479-506 | primaryColor is checked first, then secondaryColor, then hosters, and the first failure decides the answer; a body is accepted exactly when all three pass; an accepted body applies each present key (the name only when it sanitises to something, isActive by truthiness, hosters always a list), keeps every absent one and never touches the section columns |
| TenantViews.TenantDirectory.constructor | apps/tplanet-daemon/backend/django_multi_tenant/views.py:82 | the directory holds the given table, with unique ids and well-formed hosters |
| TenantViews.TenantDirectory.GetOrCreate | apps/tplanet-daemon/backend/django_multi_tenant/views.py:212-215 | the row to edit is the tenant's own row when it has one, else a new row for that id |
| TenantViews.TenantDirectory.AdminConfig | apps/tplanet-daemon/backend/django_multi_tenant/views.py:108-249 | the admin editor answers and changes the table exactly as its specification says, keeping ids unique |
| TenantViews.TenantDirectory.AdminPut | apps/tplanet-daemon/backend/django_multi_tenant/views.py:169-249 | an admin PUT either refuses with every failing message and writes nothing, or applies the body to the tenant's row (or a new one) and saves it |
| TenantViews.TenantDirectory.CreatedRow | apps/tplanet-daemon/backend/django_multi_tenant/views.py:372-401 | a creation writes a row for the requested id, or overwrites the existing inactive row |
| TenantViews.TenantDirectory.TenantCreate | apps/tplanet-daemon/backend/django_multi_tenant/views.py:320-417 | creation refuses in check order, or writes the new or reactivated row and answers 201 with it and the binding outcome |
| TenantViews.TenantDirectory.SuppressionRow | apps/tplanet-daemon/backend/django_multi_tenant/views.py:455-457 | a suppression row carries the id, is inactive and has no hosters |
| TenantViews.TenantDirectory.TenantDetail | apps/tplanet-daemon/backend/django_multi_tenant/views.py:422-551 | the per-tenant endpoint answers and changes the table exactly as its specification says: protected and current tenants are refused, a missing id is suppressed on DELETE or 404 otherwise, and a deleted row gives 404 except on DELETE |
| TenantViews.TenantDirectory.Found | apps/tplanet-daemon/backend/django_multi_tenant/views.py:466-551 | with the row found, GET returns it, PUT updates it, and DELETE soft-deletes it |
| TenantViews.TenantDirectory.Suppress | apps/tplanet-daemon/backend/django_multi_tenant/views.py:448-464 | deleting an id with no row appends one inactive suppression row and reports success |
| TenantViews.TenantDirectory.UpdateRow | apps/tplanet-daemon/backend/django_multi_tenant/views.py:472-513 | a per-tenant PUT either refuses at the first bad field with the table unchanged, or saves the updated row |
| TenantViews.TenantDirectory.Save | apps/tplanet-daemon/backend/django_multi_tenant/views.py:241 | saving a row replaces the row with its id, or appends it, and keeps the table's invariant |
| TenantViews.TenantDirectory.DeleteRow | apps/tplanet-daemon/backend/django_multi_tenant/views.py:515-551 | a DELETE of an existing row leaves it in the table, inactive and with no hosters, and reports the clean-up steps taken |
| TenantViews.TenantDirectory.AdminColourRoundTrip | apps/tplanet-daemon/backend/django_multi_tenant/views.py:217-223 | after an accepted admin PUT, the editor reads back the colours the body set |
| TenantViews.TenantDirectory.AdminPutRejectsBeforeWriting | apps/tplanet-daemon/backend/django_multi_tenant/views.py:209-210 | a PUT with a failing field leaves the table unchanged and answers 400 with the messages of exactly the failing fields |
| TenantViews.TenantDirectory.ReactivationForgetsOldValues | apps/tplanet-daemon/backend/django_multi_tenant/views.py:372-386 | reactivation overwrites every column the request can carry; only the section images and descriptions survive from the old row |
| TenantViews.TenantDirectory.CreatedTenantIsTaken | apps/tplanet-daemon/backend/django_multi_tenant/views.py:350-353 | after a successful creation the id is reported unavailable, and the same request is refused as a duplicate |
| TenantViews.TenantDirectory.DeletedTenantStaysHidden | apps/tplanet-daemon/backend/django_multi_tenant/views.py:448-551 | after a successful DELETE, whether of a row or of a file-only tenant, the id is not in the tenant list |
| TenantViews.TenantDirectory.SuppressionHides | apps/tplanet-daemon/backend/django_multi_tenant/views.py:448-464 | after a suppression row is added, the id has a row but no active row |
| TenantViews.TenantDirectory.DeactivationHides | apps/tplanet-daemon/backend/django_multi_tenant/views.py:530-533 | after a soft delete, the id has a row but no active row |
| UserCrud.HosterItems | apps/tplanet-daemon/backend/accounts/services/user_crud.py:34 | a missing or empty hosters value reads as the empty list, otherwise its items |
| UserCrud.WithHoster | apps/tplanet-daemon/backend/accounts/services/user_crud.py:35-37 | after adding, the email is listed; the old list is a prefix of the new one, which has at most one more entry; an email already listed leaves the list unchanged |
| UserCrud.WithHosterNoDuplicates | apps/tplanet-daemon/backend/accounts/services/user_crud.py:35-36 | adding never introduces a duplicate |
| UserCrud.RemoveFirst | apps/tplanet-daemon/backend/accounts/services/user_crud.py:49 | removal drops exactly one occurrence of the email |
| UserCrud.WithoutHoster | apps/tplanet-daemon/backend/accounts/services/user_crud.py:48-50 | the entry at index 0 is never removed; an absent email leaves the list unchanged; a listed member loses exactly one occurrence |
| UserCrud.WithoutHosterRemovesMember | apps/tplanet-daemon/backend/accounts/services/user_crud.py:48-49 | in a list without duplicates, removing a member (not the owner) deletes exactly its entry, keeps the others in order and leaves no copy |
| UserCrud.DroppingOneKeepsDistinct | apps/tplanet-daemon/backend/accounts/services/user_crud.py:49 | deleting one entry of a duplicate-free list removes that value and keeps the list duplicate-free |
| UserCrud.AddThenRemove | apps/tplanet-daemon/backend/accounts/services/user_crud.py:29-52 | adding a new member to a non-empty list and then removing it restores the list |
| UserCrud.IndexOfAppended | apps/tplanet-daemon/backend/accounts/services/user_crud.py:36 | an appended new email sits at the end of the list |
| UserCrud.AddHosterRows | apps/tplanet-daemon/backend/accounts/services/user_crud.py:29-39 | adding keeps every tenant's hosters a list of strings |
| UserCrud.RemoveHosterRows | apps/tplanet-daemon/backend/accounts/services/user_crud.py:42-52 | removing keeps every tenant's hosters a list of strings |
| UserCrud.AddHosterStaysLocal | apps/tplanet-daemon/backend/accounts/services/user_crud.py:29-39 | adding changes only the current tenant's row, whose hosters become the list with the email added |
| UserCrud.AddHosterUpdates | apps/tplanet-daemon/backend/accounts/services/user_crud.py:35-38 | adding an email that is not yet listed changes only the current tenant's row, whose hosters become the list with the email added |
| UserCrud.RemoveHosterStaysLocal | apps/tplanet-daemon/backend/accounts/services/user_crud.py:42-52 | removing changes only the current tenant's row, whose hosters become the list with the email removed |
| UserCrud.RemoveHosterUpdates | apps/tplanet-daemon/backend/accounts/services/user_crud.py:48-51 | removing a listed member other than the owner changes only the current tenant's row, whose hosters become the list without it |
| UserCrud.AddToHosters | apps/tplanet-daemon/backend/accounts/services/user_crud.py:29-39 | the table afterwards is the table with the email added to the current tenant's hosters; with no tenant or no row nothing changes |
| UserCrud.RemoveFromHosters | apps/tplanet-daemon/backend/accounts/services/user_crud.py:42-52 | the table afterwards is the table with the email removed from the current tenant's hosters; with no tenant or no row nothing changes |
| UserCrud.Position | apps/tplanet-daemon/backend/accounts/services/user_crud.py:48 | the search loop finds the first position of the email, or -1 exactly when it is absent |
| UserCrud.IndexOfFirst | apps/tplanet-daemon/backend/accounts/services/user_crud.py:48 | the first occurrence of a value is its index |
| UserCrud.RequiredValue | apps/tplanet-daemon/backend/accounts/services/user_crud.py:58 | a required value, once read, has no leading whitespace |
| UserCrud.BlankKeys | apps/tplanet-daemon/backend/accounts/services/user_crud.py:59 | the missing list holds exactly the fields whose value is blank |
| UserCrud.MissingFields | apps/tplanet-daemon/backend/accounts/services/user_crud.py:58-59 | a field is listed as missing exactly when it is required and its stripped value is blank |
| UserCrud.CheckAddUser | apps/tplanet-daemon/backend/accounts/services/user_crud.py:57-61 | the check fails on an unreadable value; a readable request is accepted exactly when none of the four required fields is blank after stripping, and then carries the four stripped values; a refusal means some required field is blank |
| UserCrud.BlankFieldIsNamed | apps/tplanet-daemon/backend/accounts/services/user_crud.py:58-61 | a request with a blank required field is refused with a message listing exactly the blank fields, that field among them |
| UserCrud.AddUser | apps/tplanet-daemon/backend/accounts/services/user_crud.py:55-101 | a refused or unreadable request changes nothing. An accepted one adds the email to the current tenant's hosters and succeeds. If an account write fails before the hosters update, it answers "Internal error: …" with nothing changed. If the mail fails after the update, it answers "Internal error: …" with the email already listed |
| UserCrud.RemoveMember | apps/tplanet-daemon/backend/accounts/services/user_crud.py:112-118 | a blank email is refused with nothing changed; otherwise the email is removed from the hosters and the reply is OK |
| EnvRouter.OrDefault | cloudflare/tenant-env-router/src/index.ts:106 | an unset or empty setting falls back to its default, and any other setting is used as it is |
| EnvRouter.IsTruthy | cloudflare/tenant-env-router/src/index.ts:19-22 | a flag is on exactly when, trimmed and lower-cased, it is 1, true, yes, y or on; an unset flag is off |
| EnvRouter.LineRun | cloudflare/tenant-env-router/src/index.ts:26 | the credential's run stops at the first line terminator and contains none |
| EnvRouter.LastNonTerminator | cloudflare/tenant-env-router/src/index.ts:26 | the last character after "Bearer" that is not a line terminator, which the backtracking match settles on |
| EnvRouter.BearerToken | cloudflare/tenant-env-router/src/index.ts:24-28 | a credential exists only after "Bearer" (any case) and a whitespace character; it is non-empty and spans no line terminator |
| EnvRouter.BearerCredential | cloudflare/tenant-env-router/src/index.ts:24-28 | "Bearer", one space and a credential without whitespace yield exactly that credential (section 2.1 of RFC 6750) |
| EnvRouter.LineRunNoTerminator | cloudflare/tenant-env-router/src/index.ts:26 | a credential without whitespace is taken whole |
| EnvRouter.NoBearerNoToken | cloudflare/tenant-env-router/src/index.ts:24-28 | a header that does not start with "Bearer" and whitespace gives no credential |
| EnvRouter.ExtractTenantId | cloudflare/tenant-env-router/src/index.ts:30-39 | the base domain gives "default"; a result other than that is a non-empty label without dots that, with the base domain, makes up the host (case-insensitively) |
| EnvRouter.ExtractTenantRefuses | cloudflare/tenant-env-router/src/index.ts:33-37 | a host is refused exactly when it is neither the base domain nor a single label in front of it |
| EnvRouter.ExtractTenantRoundTrip | cloudflare/tenant-env-router/src/index.ts:30-39 | a lower-case single label in front of the base domain is extracted unchanged |
| EnvRouter.DetectEnv | cloudflare/tenant-env-router/src/index.ts:41-56 | auto-detection yields an env exactly when one origin is healthy and the other is not, and that env is the healthy origin's |
| EnvRouter.Segments | cloudflare/tenant-env-router/src/index.ts:60 | the path segments kept are the non-empty ones |
| EnvRouter.NonEmpty | cloudflare/tenant-env-router/src/index.ts:60 | filtering keeps exactly the non-empty parts |
| EnvRouter.UnauthorizedChangesNothing | cloudflare/tenant-env-router/src/index.ts:63-66 | without a configured token, or with a different bearer credential, every request gets 401 and the table is untouched |
| EnvRouter.BindingEffects | cloudflare/tenant-env-router/src/index.ts:68-95 | GET and refused requests leave the table alone; a successful PUT binds the tenant to "dev" or "stable" and changes nothing else; a successful DELETE removes exactly that tenant's binding; a table of dev/stable bindings stays one |
| EnvRouter.RequestedEnv | cloudflare/tenant-env-router/src/index.ts:82 | a requested env comes only from the body's env member, and a string env is taken as it is |
| EnvRouter.TargetEnv | cloudflare/tenant-env-router/src/index.ts:116-130 | the target is the stored binding, else the auto-detect result when the flag is on, else DEFAULT_ENV or "stable" |
| EnvRouter.RouteFacts | cloudflare/tenant-env-router/src/index.ts:102-134 | only tenant hosts are proxied, to the dev host exactly when the target is "dev"; the table changes only when auto-detection settled a missing binding, and then it stores that env |
| EnvRouter.Worker.constructor | cloudflare/tenant-env-router/src/index.ts:98-99 | the worker starts with its settings and the current binding table |
| EnvRouter.Worker.Fetch | cloudflare/tenant-env-router/src/index.ts:98-151 | one request routes and changes the binding table exactly as the routing specification says |
| EnvRouter.Worker.HandleBindingApi | cloudflare/tenant-env-router/src/index.ts:58-96 | the binding API answers and changes the table exactly as its specification says |
| AccessLevel.Classify | apps/tplanet-AI/src/utils/multi-tenant/useAccessLevel.jsx:27-78 | while loading, the level is none, every flag is off and loading is reported; without an email or hosters, none with every flag off, even for superusers; backend access is admin or member |
| AccessLevel.RolesOfLoadedUser | apps/tplanet-AI/src/utils/multi-tenant/useAccessLevel.jsx:51-59 | superusers and hosters[0] are admins and members, the other hosters are members only, nobody else has a flag, and every admin is a member |
| AccessLevel.LevelIsHighestRole | apps/tplanet-AI/src/utils/multi-tenant/useAccessLevel.jsx:61-68 | the level is the highest role held: superuser over admin over member over none |
| TenantDetector.FromHostname | apps/tplanet-AI/src/utils/multi-tenant/tenantDetector.js:16-41 | a host name with a single label gives "default" |
| TenantDetector.FromHostnameCases | apps/tplanet-AI/src/utils/multi-tenant/tenantDetector.js:6-40 | with two labels or more: www, api, localhost and 127 give "default", nantou/newtaipei/taichung give their tenant ids, and any other first label is returned lower-cased |
| TenantDetector.TenantHostDetected | apps/tplanet-AI/src/utils/multi-tenant/tenantDetector.js:20-36 | a host {t}.{domain} with an ordinary lower-case label t is detected as t |
| TenantDetector.FirstPieceOfLabel | apps/tplanet-AI/src/utils/multi-tenant/tenantDetector.js:20-22 | the first label of {t}.{rest} is t |
| TenantDetector.Detect | apps/tplanet-AI/src/utils/multi-tenant/tenantDetector.js:69-75 | the injected id wins, then the stored override, then the host name |
| TenantDetector.LocalStorage.constructor | apps/tplanet-AI/src/utils/multi-tenant/tenantDetector.js:56-61 | the storage starts with the given items and availability |
| TenantDetector.LocalStorage.StoredTenant | apps/tplanet-AI/src/utils/multi-tenant/tenantDetector.js:56-61 | an override is read exactly when storage works and holds the key, and it is the stored value |
| TenantDetector.LocalStorage.SetTenantOverride | apps/tplanet-AI/src/utils/multi-tenant/tenantDetector.js:81-91 | a non-empty id is stored and read back; an empty or missing id removes the override; unavailable storage is left alone; afterwards, without an injected id, detection gives the new id, or the host name's tenant once the override is removed |
| TenantDetector.StoredOverrideDecidesDetection | apps/tplanet-AI/src/utils/multi-tenant/tenantDetector.js:56-75 | over the browser's storage: without an injected id, a non-empty stored override is the tenant, and without one (or with storage refused) the host name decides |
| ApiResponse.OrNull | apps/tplanet-AI/src/utils/api.js:35-37 | a truthy member is kept, and anything else becomes null |
| ApiResponse.Pick | apps/tplanet-AI/src/utils/api.js:51-61 | the picked object holds exactly the listed keys the reply has, with the reply's values |
| ApiResponse.Normalize | apps/tplanet-AI/src/utils/api.js:30-102 | a "success" member is passed through, and data, message and error are the reply's members when truthy and null otherwise; without one, success is a boolean and message is null; with neither flag the reply succeeds without error |
| ApiResponse.SuccessBeatsResult | apps/tplanet-AI/src/utils/api.js:32-39 | with both "success" and "result", the new format decides |
| ApiResponse.LegacySuccess | apps/tplanet-AI/src/utils/api.js:42-73 | in the old format, success holds exactly when result is true or "true", error is null exactly on success, and data is the legacy payload |
| ApiResponse.LegacyDataOrder | apps/tplanet-AI/src/utils/api.js:46-66 | the payload is the first present of content, token, group, accounts, user_list, stats and login_records; otherwise the other members, or null when only "result" is there |
| ApiResponse.BareReply | apps/tplanet-AI/src/utils/api.js:76-101 | a reply with neither flag succeeds without error; its token or group forms the data, else the whole reply does |
| CmsAgent.PageIndex | apps/tplanet-AI/src/utils/CmsAgent.jsx:13-18 | the support pages are at step 3, a submit page at its position, and anything else at -1 |
| CmsAgent.PreviousTarget | apps/tplanet-AI/src/utils/CmsAgent.jsx:44-58 | Previous goes from the missions page to the impact page, from a later step to the step before it, and otherwise to the first step |
| CmsAgent.TaskSubmissions | apps/tplanet-AI/src/utils/CmsAgent.jsx:73-119 | parent tasks are submitted exactly on the impact page, and child tasks exactly on the participation page |
| CmsAgent.NextTarget | apps/tplanet-AI/src/utils/CmsAgent.jsx:77-93 | Next goes from the participation page to the impact page, from the contact page to the public page /content/id, and otherwise to the next step, never past the last |
| CmsAgent.NextPage | apps/tplanet-AI/src/utils/CmsAgent.jsx:61-98 | Next makes the submissions its page calls for, and navigates exactly when every submission succeeded |
| CmsAgent.NextWalksTheSteps | apps/tplanet-AI/src/utils/CmsAgent.jsx:4-93 | Next walks plan info, SDG settings, impact and contact in order, the missions page goes on to the contact step, and an unknown page goes to the first step |
| CmsAgent.PreviousUndoesNext | apps/tplanet-AI/src/utils/CmsAgent.jsx:44-88 | between consecutive submit steps, Previous undoes Next |
| UploadTasks.Clamp | apps/tplanet-AI/src/pages/hooks/useUploadTasks.js:60-62 | a patched progress is clamped to [0, 1] |
| UploadTasks.Patched | apps/tplanet-AI/src/pages/hooks/useUploadTasks.js:46-63 | a patch keeps the id and start; its members override; stage "done" forces done; another stage takes the patch's done flag or keeps the old one; "done" and "error" clear the timer; a patched progress is clamped |
| UploadTasks.UpdateById | apps/tplanet-AI/src/pages/hooks/useUploadTasks.js:43-66 | exactly the uploads carrying the id are patched, and the list keeps its length and order |
| UploadTasks.CompleteById | apps/tplanet-AI/src/pages/hooks/useUploadTasks.js:27-33 | exactly the uploads carrying the id get progress 1, stage "ready", done and no timer |
| UploadTasks.Cancel | apps/tplanet-AI/src/pages/hooks/useUploadTasks.js:35-41 | cancelling keeps exactly the uploads with other ids, in order |
| UploadTasks.Start | apps/tplanet-AI/src/pages/hooks/useUploadTasks.js:8-25 | a new task is appended with the row's id (else a generated one), progress 0 and not done |
| UploadTasks.UpdateStaysLocal | apps/tplanet-AI/src/pages/hooks/useUploadTasks.js:43-66 | patching one id leaves every other task alone, and every progress stays in [0, 1] |
| UploadTasks.CancelRemovesExactly | apps/tplanet-AI/src/pages/hooks/useUploadTasks.js:35-41 | cancelling is the filter on other ids, and cancelling twice is cancelling once |
| ProjectList.RemoveFirst | apps/tplanet-AI/src/pages/kpi/components/ProjectList.jsx:71 | the first occurrence of "SDG" is removed: a string without it is unchanged, and a leading one is dropped |
| ProjectList.FiltersCompose | apps/tplanet-AI/src/pages/kpi/components/ProjectList.jsx:47-77 | the year, department and SDG filters compose: a project is shown exactly when it passes every active filter, and the list keeps the input's order |
| ProjectList.InYear | apps/tplanet-AI/src/pages/kpi/components/ProjectList.jsx:51-57 | the year filter keeps only projects with a non-empty period, and only for a numeric year |
| ProjectList.HasSdg | apps/tplanet-AI/src/pages/kpi/components/ProjectList.jsx:67-74 | the SDG filter keeps only projects with a non-empty weight |
| ProjectList.SdgSelection | apps/tplanet-AI/src/pages/kpi/components/ProjectList.jsx:67-74 | the selection "SDGk" keeps exactly the projects with a non-empty weight whose k-th entry is "1"; projects without a weight are dropped |
| ProjectList.CeilDiv | apps/tplanet-AI/src/pages/kpi/components/ProjectList.jsx:156 | the quotient rounded up: the smallest q with q*b >= a |
| ProjectList.TotalPages | apps/tplanet-AI/src/pages/kpi/components/ProjectList.jsx:153-156 | one page for up to three projects; otherwise exactly the page of the last project, so there is at least one page and the last page is never empty |
| ProjectList.PageItems | apps/tplanet-AI/src/pages/kpi/components/ProjectList.jsx:158-168 | page 1 shows at most 3 cards and every later page at most 9 |
| ProjectList.PageOf | apps/tplanet-AI/src/pages/kpi/components/ProjectList.jsx:158-166 | an item's page number is at least 1 |
| ProjectList.PagesPartitionItems | apps/tplanet-AI/src/pages/kpi/components/ProjectList.jsx:148-168 | pages 1 to totalPages cover every item exactly once: each item lies on its own page and on no other |
| ProjectList.SameBlock | apps/tplanet-AI/src/pages/kpi/components/ProjectList.jsx:161 | two blocks of nine that share a position are the same block |
| ProjectList.ItemOnItsPage | apps/tplanet-AI/src/pages/kpi/components/ProjectList.jsx:158-168 | every item is shown on its page, at its offset from the page's start |
| KpiFilter.SdgIndex | apps/tplanet-AI/src/pages/kpi/KpiFilter.jsx:87-89 | an SDG id gives no index exactly when it is missing, empty or not a number |
| KpiFilter.FilterBySdg | apps/tplanet-AI/src/pages/kpi/KpiFilter.jsx:86-95 | without a usable id every project is kept; with one, a project is kept exactly when it marks that SDG; the result is an order-preserving subsequence |
| KpiFilter.FilterMarked | apps/tplanet-AI/src/pages/kpi/KpiFilter.jsx:90-94 | a project is kept exactly when its weight is a non-empty string, the index is in range and the trimmed entry is "1", in input order |
| KpiFilter.MarksSdg | apps/tplanet-AI/src/pages/kpi/KpiFilter.jsx:90-93 | a project marks an SDG only when it has a string weight and the index is not negative |
| KpiFilter.SdgIndexOfNat | apps/tplanet-AI/src/pages/kpi/KpiFilter.jsx:88 | the decimal id k names the SDG at index k - 1 |
| KpiFilter.FilterBySdgKeeps | apps/tplanet-AI/src/pages/kpi/KpiFilter.jsx:86-94 | with the id k, a project is kept exactly when it marks SDG k |
| KpiFilter.DashMatch | apps/tplanet-AI/src/pages/kpi/KpiFilter.jsx:47 | a match of whitespace, a dash and whitespace is non-empty and within the text |
| KpiFilter.NoDashShown | apps/tplanet-AI/src/pages/kpi/KpiFilter.jsx:46-47 | no dash survives the replacement |
| KpiFilter.DisplayPeriod | apps/tplanet-AI/src/pages/kpi/KpiFilter.jsx:46-47 | anything but a string is shown as "", and the text shown has no dash |
| KpiFilter.NoDashUnchanged | apps/tplanet-AI/src/pages/kpi/KpiFilter.jsx:47 | text without a dash is shown as it is |
| KpiFilter.PeriodShown | apps/tplanet-AI/src/pages/kpi/KpiFilter.jsx:45-47 | a period "a - b" whose parts have no dash and no whitespace next to it is shown as "a ~ b" |
| KpiFilter.PrefixKept | apps/tplanet-AI/src/pages/kpi/KpiFilter.jsx:47 | a dash-free prefix ending in a non-whitespace character is kept, whatever follows |
| KpiFilter.DashShown | apps/tplanet-AI/src/pages/kpi/KpiFilter.jsx:47 | " - b" becomes " ~ b" |
| KpiFilter.KeptFirst | apps/tplanet-AI/src/pages/kpi/KpiFilter.jsx:47 | when a non-whitespace character comes before any dash, the first character is kept |
| Attachments.BuildUrl | apps/tplanet-AI/src/pages/NewContent.jsx:9-13 | an empty path gives no link, an absolute http(s) URL (in any letter case) is kept as it is, and any other path is put behind the media base; a non-empty path always gives a non-empty link |
| Attachments.FirstStr | apps/tplanet-AI/src/pages/NewContent.jsx:34-37 | the first of the listed members that is a non-empty string, so a chosen value is never empty |
| Attachments.FromEntry | apps/tplanet-AI/src/pages/NewContent.jsx:32-42 | an entry gives at most one attachment, and none exactly when it is not an object or has no non-empty url, href or path; its link is never empty |
| Attachments.FromEntries | apps/tplanet-AI/src/pages/NewContent.jsx:43 | every attachment taken from the array has a non-empty link |
| Attachments.MatchingExt | apps/tplanet-AI/src/pages/NewContent.jsx:51-57 | the extension reported is the first listed one the lower-cased value ends with, and none is reported exactly when it ends with none of them |
| Attachments.FromStatic | apps/tplanet-AI/src/pages/NewContent.jsx:47-59 | a static file becomes an attachment exactly when its value is a non-empty string under a key that is neither "banner" nor "img_<digits>" and ends in a document extension; it has a link and no size |
| Attachments.FromStatics | apps/tplanet-AI/src/pages/NewContent.jsx:46-61 | every attachment taken from the static files has a non-empty link |
| Attachments.UrlsAppend | apps/tplanet-AI/src/pages/NewContent.jsx:66 | appending an attachment adds just its link to the links seen |
| Attachments.Dedup | apps/tplanet-AI/src/pages/NewContent.jsx:63-67 | the deduplicated list has exactly the non-empty links of the collected one, each once, and none empty |
| Attachments.DedupKeepsFirst | apps/tplanet-AI/src/pages/NewContent.jsx:65-67 | every attachment kept is the first one collected with its link |
| Attachments.DedupKeepsOrder | apps/tplanet-AI/src/pages/NewContent.jsx:63-68 | the kept attachments appear in the order they were collected |
| Attachments.CollectEntries | apps/tplanet-AI/src/pages/NewContent.jsx:43-44 | an array contributes its entries in order, a single object contributes itself, anything else contributes nothing |
| Attachments.CollectStatics | apps/tplanet-AI/src/pages/NewContent.jsx:46-61 | the static files contribute their document-like entries in enumeration order |
| Attachments.DropRepeatedLinks | apps/tplanet-AI/src/pages/NewContent.jsx:63-68 | the loop with its set of seen links computes the deduplicated list |
| Attachments.NormalizeAttachments | apps/tplanet-AI/src/pages/NewContent.jsx:30-69 | the attachment list is the deduplication of the data's entries followed by the static files' |
| AccountList.OrDash | apps/tplanet-AI/src/pages/backend/AccountList.jsx:271-272 | a missing or null value is shown as "-", any other value as it is |
| AccountList.Normalize | apps/tplanet-AI/src/pages/backend/AccountList.jsx:259-274 | the id is kept, the status is left open, missing email, host and organization become "", the old administrator role name (after trimming) becomes the current one and any other role is kept, and missing login data is shown as "-" |
| AccountList.NoOldAdminRole | apps/tplanet-AI/src/pages/backend/AccountList.jsx:260-261 | no normalized account carries the old administrator role name |
| AccountList.FilteredAccounts | apps/tplanet-AI/src/pages/backend/AccountList.jsx:512-522 | an account is listed exactly when its email or host contains the search text (ignoring case) and it passes the status and role filters; the list keeps the input's order |
| AccountList.NoFilterShowsAll | apps/tplanet-AI/src/pages/backend/AccountList.jsx:512-522 | with an empty search and the "all" status and role, every account is listed, in order |
| AccountList.PaginatedData | apps/tplanet-AI/src/pages/backend/AccountList.jsx:525-528 | a page holds at most twenty accounts |
| AccountList.TotalPages | apps/tplanet-AI/src/pages/backend/AccountList.jsx:530 | the page count is the number of accounts divided by twenty, rounded up |
| AccountList.PagesPartitionAccounts | apps/tplanet-AI/src/pages/backend/AccountList.jsx:525-530 | every account lies on exactly one page between 1 and the page count, at its offset on that page |
| AccountList.Window | apps/tplanet-AI/src/pages/backend/AccountList.jsx:597-600 | the numbered buttons run between 1 and the page count, at most five of them, exactly min(5, pages) when there is a page, and include the current page when it exists |
| AccountList.Numbered | apps/tplanet-AI/src/pages/backend/AccountList.jsx:614-621 | one button per page from start to end, in order, highlighted exactly on the current page |
| AccountList.PushPageButtons | apps/tplanet-AI/src/pages/backend/AccountList.jsx:614-621 | the loop appends exactly the numbered buttons |
| AccountList.RenderPaginationButtons | apps/tplanet-AI/src/pages/backend/AccountList.jsx:595-638 | the buttons are Previous (disabled on page 1), the first page and a gap when the window starts later, the window's pages, a gap and the last page when it ends earlier, and Next (disabled on the last page) |
| AccountList.WindowShowsCurrent | apps/tplanet-AI/src/pages/backend/AccountList.jsx:597-621 | when the current page exists, between one and five existing pages are shown and the current one is among them, highlighted |
| AccountList.Unique | apps/tplanet-AI/src/pages/backend/AccountList.jsx:538 | each value once, with the same values as the input |
| AccountList.SelectAll | apps/tplanet-AI/src/pages/backend/AccountList.jsx:535-542 | checking adds the page's ids to the selection, each once; unchecking removes exactly the page's ids and keeps the rest in order |
| AccountList.SelectAllKeepsSelection | apps/tplanet-AI/src/pages/backend/AccountList.jsx:538 | checking keeps an existing selection as the prefix of the new one |
| AccountList.UniqueOfDistinct | apps/tplanet-AI/src/pages/backend/AccountList.jsx:538 | a list without repeats is unchanged by removing repeats |
| TranslateApi.HashValue | apps/tplanet-AI/src/utils/translateApi.jsx:9-11 | the rolling hash over the UTF-16 code units stays an unsigned 32-bit value |
| TranslateApi.HexDigit | apps/tplanet-AI/src/utils/translateApi.jsx:12 | a digit below 16 is written as a lower-case hexadecimal digit |
| TranslateApi.ToHex | apps/tplanet-AI/src/utils/translateApi.jsx:12 | the hexadecimal rendering is non-empty, made of hexadecimal digits, without a leading zero |
| TranslateApi.HexRoundTrip | apps/tplanet-AI/src/utils/translateApi.jsx:12 | reading the hexadecimal rendering back gives the number: distinct hashes give distinct renderings |
| TranslateApi.Hash | apps/tplanet-AI/src/utils/translateApi.jsx:9-13 | the loop computes the hexadecimal rendering of the 32-bit hash of the text's code units |
| TranslateApi.KeysSeparate | apps/tplanet-AI/src/utils/translateApi.jsx:14-16 | a cache key determines its language, its kind and its hash, so different languages or kinds never share an entry |
| TranslateApi.KindFollowsLanguage | apps/tplanet-AI/src/utils/translateApi.jsx:14-16 | the character after the language's ':' is 'h' for an HTML key and 't' for a text key |
| TranslateApi.HashColonFree | apps/tplanet-AI/src/utils/translateApi.jsx:15 | a hash has no ":", so the key's separators sit right after the language and right before the hash |
| TranslateApi.KeyOf | apps/tplanet-AI/src/utils/translateApi.jsx:14-16 | a key starts with the language and a ':' and ends with a ':' and the hash, with the kind between them |
| TranslateApi.Find | apps/tplanet-AI/src/utils/translateApi.jsx:17-31 | a value found is either the live memory entry or the live stored entry of the key |
| TranslateApi.FindDropsExpired | apps/tplanet-AI/src/utils/translateApi.jsx:24-28 | with no live memory entry, an expired stored entry is not returned and is removed, and no other stored item is touched |
| TranslateApi.StoredThenFound | apps/tplanet-AI/src/utils/translateApi.jsx:17-38 | a value just cached is found for seven days, and afterwards it is not found and is gone from storage |
| TranslateApi.TranslationCache.constructor | apps/tplanet-AI/src/utils/translateApi.jsx:1-2 | the cache starts with empty memory over the given storage |
| TranslateApi.TranslationCache.GetCache | apps/tplanet-AI/src/utils/translateApi.jsx:17-31 | the lookup returns the value and leaves memory and storage as the lookup function says |
| TranslateApi.TranslationCache.SetCache | apps/tplanet-AI/src/utils/translateApi.jsx:32-38 | the value is stored in memory and, when storage is available, under the prefixed key, both expiring seven days on |
| TranslateApi.TranslationCache.TranslateOne | apps/tplanet-AI/src/utils/translateApi.jsx:46-78 | empty text gives "" without asking the service or touching the cache; a cached translation is returned without asking, leaving the cache as the lookup left it; otherwise the service is asked and its answer (the text itself on failure) is returned, the cache after the lookup is kept on failure and gets the answer for seven days on success |
| TranslateApi.TranslationCache.TranslateBatch | apps/tplanet-AI/src/utils/translateApi.jsx:83-104 | one result per text, in input order: "" for empty text, the service's answer for every text it was asked about, and every result and the final cache are those of translating the texts one after the other |
| TranslateApi.Step | apps/tplanet-AI/src/utils/translateApi.jsx:46-78 | one text: empty text is not asked about, an asked text gets the service's answer and, on success, a seven-day memory entry under its key, and a text not asked about gets the value its lookup found |
| TranslateApi.LiveEntryKept | apps/tplanet-AI/src/utils/translateApi.jsx:17-38 | a memory entry cached at the current time survives translating any other text then, and answers a text with its key without asking the service |
| TranslateApi.BatchUpTo | apps/tplanet-AI/src/utils/translateApi.jsx:83-104 | after the first n texts there are exactly n results and n asked flags, and result i is text i translated against the cache the texts before it left behind |
| TranslateApi.BatchAnswers | apps/tplanet-AI/src/utils/translateApi.jsx:83-104 | in a batch, empty text gets "" without asking, and every text asked about gets the service's answer |
| TranslateApi.BatchResultsStable | apps/tplanet-AI/src/utils/translateApi.jsx:83-104 | a text's result and asked flag do not change as later texts are translated |
| TranslateApi.BatchPrefix | apps/tplanet-AI/src/utils/translateApi.jsx:83-104 | the first m results and asked flags of a batch are those of a batch over its first m texts |
| TranslateApi.BatchSnoc | apps/tplanet-AI/src/utils/translateApi.jsx:83-104 | one more text appends its result and asked flag to the earlier ones and moves the cache on by that text's translation |
| TranslateApi.BatchKeepsEntry | apps/tplanet-AI/src/utils/translateApi.jsx:17-38 | a translation cached during a batch stays in memory for the rest of the batch |
| TranslateApi.NextTextKeepsEntry | apps/tplanet-AI/src/utils/translateApi.jsx:17-38 | a translation cached during a batch survives the next text |
| TranslateApi.RepeatedTextHitsCache | apps/tplanet-AI/src/utils/translateApi.jsx:46-104 | a text the service translated earlier in a batch is not asked for again, and a later copy of it gets the same translation |
| BubbleMap.Assign | apps/tplanet-AI/src/pages/kpi/components/BubbleMap.jsx:155-156 | the names given get the state, every other entry keeps its value, and no other entry appears |
| BubbleMap.AssignTwice | apps/tplanet-AI/src/pages/kpi/components/BubbleMap.jsx:155-160 | setting two groups of names one after the other is setting their union |
| BubbleMap.AssignOne | apps/tplanet-AI/src/pages/kpi/components/BubbleMap.jsx:156 | setting one entry is assigning that single name |
| BubbleMap.NamesOfSnoc | apps/tplanet-AI/src/pages/kpi/components/BubbleMap.jsx:158 | the names under a list of nodes grow by the names under each node appended |
| BubbleMap.SetNodeCheck | apps/tplanet-AI/src/pages/kpi/components/BubbleMap.jsx:155-160 | the recursive walk sets the node and every node below it, and nothing else |
| BubbleMap.SetChildrenCheck | apps/tplanet-AI/src/pages/kpi/components/BubbleMap.jsx:157-159 | walking the children sets exactly the names below them |
| BubbleMap.HandleCheck | apps/tplanet-AI/src/pages/kpi/components/BubbleMap.jsx:153-163 | ticking or unticking a node gives it and all its descendants that state and leaves every other entry as it was |
| BubbleMap.CheckAllStep | apps/tplanet-AI/src/pages/kpi/components/BubbleMap.jsx:86-92 | ticking a node and then its children is ticking every name under the node |
| BubbleMap.SetAllChecked | apps/tplanet-AI/src/pages/kpi/components/BubbleMap.jsx:86-93 | the recursive walk ticks exactly the names under the given nodes |
| BubbleMap.InitialChecks | apps/tplanet-AI/src/pages/kpi/components/BubbleMap.jsx:85-95 | after loading, every county and town is ticked and nothing else has an entry |
| BubbleMap.ExtractTowns | apps/tplanet-AI/src/pages/kpi/components/BubbleMap.jsx:166-170 | the towns shown are exactly the counties' children that have coordinates |
| BubbleMap.CheckedTowns | apps/tplanet-AI/src/pages/kpi/components/BubbleMap.jsx:183-187 | the towns kept are exactly the extracted towns that are ticked |
| BubbleMap.ShownTowns | apps/tplanet-AI/src/pages/kpi/components/BubbleMap.jsx:173-190 | with nothing ticked every town is shown; otherwise the shown list is the extracted towns with the unticked ones dropped, in the same order and with the same repetitions |
| BubbleMap.ExtractTownsAppend | apps/tplanet-AI/src/pages/kpi/components/BubbleMap.jsx:166-170 | the towns follow the counties' order: the towns of two runs of counties are those of the first run followed by those of the second |
| BubbleMap.ExtractTownsSnoc | apps/tplanet-AI/src/pages/kpi/components/BubbleMap.jsx:166-170 | adding a county at the end adds its towns with coordinates at the end |
| BubbleMap.ExtractTownsOne | apps/tplanet-AI/src/pages/kpi/components/BubbleMap.jsx:166-170 | one county contributes exactly its children with coordinates, in their order and with their repetitions |
| BubbleMap.CheckedTownsFilterTowns | apps/tplanet-AI/src/pages/kpi/components/BubbleMap.jsx:183-187 | the ticked towns are the extracted towns with the unticked ones dropped, in the same order and with the same repetitions |
| BubbleMap.TownNamed | apps/tplanet-AI/src/pages/kpi/components/BubbleMap.jsx:85-95 | every town of a county has its name among the names under the counties |
| BubbleMap.ChildNamed | apps/tplanet-AI/src/pages/kpi/components/BubbleMap.jsx:86-92 | every node of a list has its name among the names under the list |
| BubbleMap.AllCheckedShowsEveryTown | apps/tplanet-AI/src/pages/kpi/components/BubbleMap.jsx:85-190 | right after loading, with everything ticked, every town with coordinates is shown |
| BubbleMap.Departments | apps/tplanet-AI/src/pages/kpi/components/BubbleMap.jsx:35-40 | one department per name, in order, coloured from the eleven default colours in turn |
| BubbleMap.ColoursRepeatEveryEleven | apps/tplanet-AI/src/pages/kpi/components/BubbleMap.jsx:9-40 | departments fewer than eleven places apart get different colours, and ones exactly eleven apart share a colour |
| KpiList.Hosters | apps/tplanet-AI/src/pages/kpi/components/KpiList.jsx:27-29 | with more than one hoster the first is dropped, otherwise the list is kept |
| KpiList.TopSdg | apps/tplanet-AI/src/pages/kpi/components/KpiList.jsx:43-55 | the reported count is the largest count (at least 0); no SDG is reported exactly when no count is positive, and otherwise the first SDG that reaches the largest count |
| KpiList.SdgSumAdditive | apps/tplanet-AI/src/pages/kpi/components/KpiList.jsx:86-95 | sums over the replies add up across the lists of replies, and a failed reply adds nothing |
| KpiList.SumSdgs | apps/tplanet-AI/src/pages/kpi/components/KpiList.jsx:83-100 | the loops give, for each SDG 1 to 17, the sum of its counts over the replies, and the sum of the project totals |
| KpiList.SdgEntries | apps/tplanet-AI/src/pages/kpi/components/KpiList.jsx:97-98 | the counts are listed as the pairs (1, n1) to (17, n17), in order |
| KpiList.BudgetSummary | apps/tplanet-AI/src/pages/kpi/components/KpiList.jsx:133-175 | the table has exactly the configured departments, each with its tallies over the replies, and the total is the sum of the replies' totals |
| KpiList.AddRowKeys | apps/tplanet-AI/src/pages/kpi/components/KpiList.jsx:164 | adding a row never adds a department to the table |
| KpiList.AddRowAt | apps/tplanet-AI/src/pages/kpi/components/KpiList.jsx:164-167 | adding a row adds its budget and project count to the department it names |
| KpiList.AddRowStep | apps/tplanet-AI/src/pages/kpi/components/KpiList.jsx:152-168 | one more row keeps the table equal to the start plus the tallies of the rows so far |
| KpiList.AddRows | apps/tplanet-AI/src/pages/kpi/components/KpiList.jsx:152-168 | the loop over a reply's rows adds each department's tallies of those rows |
| KpiList.UnnamedRowsIgnored | apps/tplanet-AI/src/pages/kpi/components/KpiList.jsx:153-160 | a row without a usable department name changes no tally |
| ResetPw.SpecialMeansNotAlnum | apps/tplanet-AI/src/pages/ResetPw.jsx:52 | a character counts as special exactly when it is not an ASCII letter or digit (the underscore included) |
| ResetPw.Test | apps/tplanet-AI/src/pages/ResetPw.jsx:49-52 | a character-class test holds exactly when some character of the password is in the class |
| ResetPw.Validate | apps/tplanet-AI/src/pages/ResetPw.jsx:34-57 | an empty password fails every rule; otherwise each rule holds exactly when its condition does (length counted in UTF-16 code units), and the password is valid exactly when all five hold |
| ResetPw.ValidIff | apps/tplanet-AI/src/pages/ResetPw.jsx:47-55 | a password is accepted exactly when it has at least eight code units, a lower-case letter, an upper-case letter, a digit and a character that is none of these |
| ResetPw.CodeUnitsSnoc | apps/tplanet-AI/src/pages/ResetPw.jsx:48 | a character adds one code unit, or two outside the basic plane |
| ResetPw.LengthInCodeUnits | apps/tplanet-AI/src/pages/ResetPw.jsx:48 | eight characters always meet the length rule, and so do four characters outside the basic plane |
| ResetPw.PasswordMatch | apps/tplanet-AI/src/pages/ResetPw.jsx:60-66 | no verdict while the confirmation is empty; otherwise a match exactly when the two are equal |
| ResetPw.Submit | apps/tplanet-AI/src/pages/ResetPw.jsx:68-76 | an invalid password is refused first, then a confirmation that differs, and the request is sent exactly when the password is valid and confirmed |
| ResetPw.SentPasswordsAreNonEmpty | apps/tplanet-AI/src/pages/ResetPw.jsx:68-78 | a password that is sent is non-empty and equal to its confirmation |
| AddAccount.ValidateFindsFirstFailure | apps/tplanet-AI/src/pages/backend/AddAccount.jsx:33-43 | the form passes exactly when no check fails, and otherwise the message is that of the first failing check in the order written |
| AddAccount.EmailMatchInside | apps/tplanet-AI/src/pages/backend/AddAccount.jsx:36-56 | a match of the e-mail pattern survives cutting blanks off both ends |
| AddAccount.StripKeepsEmailShape | apps/tplanet-AI/src/pages/backend/AddAccount.jsx:36-56 | an address of the right shape keeps its shape once trimmed |
| AddAccount.PayloadOfValidForm | apps/tplanet-AI/src/pages/backend/AddAccount.jsx:33-63 | what passes validation is sent with a non-blank handler and email, an email of the right shape, a department and a role, and a trimmed phone number of at most twenty allowed characters |
| AddAccount.PassesEveryCheck | apps/tplanet-AI/src/pages/backend/AddAccount.jsx:33-43 | a form that passes validation fails none of the seven checks |
| AddAccount.ValidEmailSent | apps/tplanet-AI/src/pages/backend/AddAccount.jsx:36-56 | the trimmed address sent still has the e-mail shape |
| AddAccount.ValidPhoneSent | apps/tplanet-AI/src/pages/backend/AddAccount.jsx:39-61 | the trimmed phone number sent is non-empty, at most twenty characters long and made of digits, "-", "+", parentheses and spaces |
| AddAccount.TrimmedEndsNotSpace | apps/tplanet-AI/src/pages/backend/AddAccount.jsx:61 | a non-empty trimmed text neither starts nor ends with a space |
| AddAccount.StripKeepsPhoneChars | apps/tplanet-AI/src/pages/backend/AddAccount.jsx:41-61 | trimming a phone number of the allowed shape keeps it short and within the allowed characters |
| AddAccount.PhoneCharsInside | apps/tplanet-AI/src/pages/backend/AddAccount.jsx:41 | a piece of a phone number uses only the allowed characters |
| AddAccount.TrimmedPhoneMayBeShort | apps/tplanet-AI/src/pages/backend/AddAccount.jsx:39-61 | the length check runs before trimming: "  1234  " passes and four digits are sent |
| AddAccount.ExampleEmail | apps/tplanet-AI/src/pages/backend/AddAccount.jsx:36 | "a@b.c" has the e-mail shape and is unchanged by trimming |
| AddAccount.ExamplePhone | apps/tplanet-AI/src/pages/backend/AddAccount.jsx:41-61 | "  1234  " has the phone shape and trims to "1234" |
| AddAccount.Submit | apps/tplanet-AI/src/pages/backend/AddAccount.jsx:45-89 | a failing form keeps its fields and shows the first problem's message without sending; a passing form is sent as its payload, and is cleared (keeping the enabled choice) with the service's message on success, or kept with a non-empty error message on failure |
| AddAccount.ClearedFormIsRejected | apps/tplanet-AI/src/pages/backend/AddAccount.jsx:76-83 | the cleared form would be refused for its missing handler, and keeps the enabled choice |
| Common.SpaceRun | apps/tplanet-AI/src/pages/kpi/KpiFilter.jsx:47 | the leading run of whitespace stops at the first non-whitespace character |
| Common.SpaceRunStops | apps/tplanet-AI/src/pages/kpi/KpiFilter.jsx:47 | the leading run of whitespace ends no later than the first non-whitespace character |
| Common.LeadingSpace | apps/tplanet-daemon/backend/django_multi_tenant/views.py:46 | the whitespace cut from the front is all whitespace and stops at the first other character |
| Common.TrailingSpace | apps/tplanet-daemon/backend/django_multi_tenant/views.py:46 | the whitespace cut from the back is all whitespace and stops at the last other character |
| Common.StripStart | apps/tplanet-AI/src/pages/kpi/KpiFilter.jsx:88 | the text left after skipping leading whitespace starts with a non-whitespace character, if any |
| Common.Strip | apps/tplanet-daemon/backend/django_multi_tenant/views.py:46 | the stripped text is no longer than the input and neither starts nor ends with whitespace |
| Common.StripSlice | apps/tplanet-daemon/backend/django_multi_tenant/views.py:46 | the stripped text is a slice of the input with only whitespace before and after it |
| Common.StripUnchanged | apps/tplanet-AI/src/pages/backend/AccountList.jsx:261 | text with no whitespace at either end is unchanged by stripping |
| Common.LowerChar | apps/tplanet-daemon/backend/django_multi_tenant/middleware/tenant_middleware.py:60 | a lower-cased character is not an upper-case ASCII letter, and only upper-case ASCII letters change |
| Common.Lower | apps/tplanet-daemon/backend/django_multi_tenant/middleware/tenant_middleware.py:60 | lower-casing keeps the length and lower-cases each character |
| Common.LowerIdempotent | apps/tplanet-daemon/backend/django_multi_tenant/middleware/tenant_middleware.py:68-77 | lower-casing twice is lower-casing once |
| Common.IndexOf | apps/tplanet-daemon/backend/django_multi_tenant/middleware/tenant_middleware.py:43 | the position found holds the value and is its first occurrence |
| Common.Split | apps/tplanet-AI/src/pages/kpi/KpiFilter.jsx:92 | the pieces contain no separator and joined back with it give the input |
| Common.FirstPiece | apps/tplanet-daemon/backend/django_multi_tenant/middleware/tenant_middleware.py:60 | the text before the first separator: the whole text when there is none |
| Common.SubsequenceReflexive | apps/tplanet-AI/src/pages/kpi/KpiFilter.jsx:86-95 | every list is a subsequence of itself, in order |
| Common.SubsequenceTransitive | apps/tplanet-AI/src/pages/backend/AccountList.jsx:512-522 | a subsequence of a subsequence is a subsequence |
| Common.Filter | apps/tplanet-AI/src/pages/backend/AccountList.jsx:513-521 | the kept elements are exactly those that pass, each passing, in input order |
| Common.FilterAppend | apps/tplanet-AI/src/pages/kpi/components/BubbleMap.jsx:166-170 | filtering a concatenation filters each part and concatenates the results |
| Common.FilterOfFilter | apps/tplanet-AI/src/pages/kpi/components/BubbleMap.jsx:183-187 | filtering by one test and then another is filtering once by both |
| Common.SliceIndex | apps/tplanet-AI/src/pages/backend/AccountList.jsx:527 | a slice bound is clamped into the list, and one already inside is kept |
| Common.JsSlice | apps/tplanet-AI/src/pages/backend/AccountList.jsx:527 | within bounds the slice is the ordinary subsequence |
| Common.DigitChar | apps/tplanet-AI/src/pages/kpi/KpiFilter.jsx:88 | a digit below ten is written as an ASCII digit |
| Common.NatToString | apps/tplanet-AI/src/pages/kpi/KpiFilter.jsx:88 | the decimal rendering is non-empty and made of ASCII digits |
| Common.DigitRun | apps/tplanet-AI/src/pages/kpi/KpiFilter.jsx:88 | the leading run of digits stops at the first non-digit |
| Common.DigitsValueOfNatToString | apps/tplanet-AI/src/pages/kpi/KpiFilter.jsx:88 | reading the decimal rendering back gives the number |
| Common.ParseIntJs | apps/tplanet-AI/src/pages/kpi/KpiFilter.jsx:88 | parseInt gives NaN exactly when, after leading whitespace and an optional sign, no digit follows |
| Common.ParseIntJsOfNatToString | apps/tplanet-AI/src/pages/kpi/KpiFilter.jsx:88 | parseInt of a decimal rendering gives the number back |
| Common.DigitRunAll | apps/tplanet-AI/src/pages/kpi/KpiFilter.jsx:88 | a text made of digits is one run of digits |
| Common.CodeUnits | apps/tplanet-AI/src/pages/ResetPw.jsx:48 | the UTF-16 code units are at least as many as the characters, each below 0x10000 |
| JsonData.PyOr | apps/tplanet-daemon/backend/django_multi_tenant/middleware/tenant_middleware.py:141 | Python's or gives the first operand when it is true and the second otherwise |

## Left out

- Database, key-value store, browser storage, `fetch`, clocks and random numbers: each is a parameter or a map-valued field, and the model never performs the call itself.
- Concurrency: the worker's parallel health probes, the KPI page's parallel requests, the translation batch's six concurrent workers and its in-flight request sharing are all modelled as one request after another.
- Logging, DOM rendering, alerts, redirects, toast messages and translation keys: these have no effect on the state modelled. A message key stands for the translated text.
- Case folding is ASCII-only. Python's `str.lower` and JavaScript's `toLowerCase` also fold non-ASCII letters; the host names and role names involved are ASCII.
- Request bodies are JSON objects only. A body that parses to another JSON value is treated as malformed.
- The 405 answer of the `require_http_methods` decorators is modelled for `admin_config` and `tenant_detail`, which take several verbs. The single-verb views (`tenant_config`, `tenant_list` and `validate_tenant_id` for GET, `tenant_create` for POST) are modelled only for their one verb.
- `upload_image`, `create_subdomain`, `delete_subdomain` and `check_subdomain` in views.py (lines 554-698) are left out. They are file storage and Cloudflare DNS calls outside the tenant configuration logic.
- `delete` in user_crud.py is left out: it removes a Django user account, which this model does not hold. Its hoster-list effect is the same as `remove_member`'s, which is modelled.
- User accounts, profiles, groups, passwords and mail in user_crud.py are left out. Only the hosters list is state here.
- UserCrud.AddUser: the success value is `Done(true, "")`, not the user object. The account, profile, group and mail writes are an outcome parameter (`AccountWrite`), not performed. A value that cannot be stripped answers "Internal error" without the exception's text. A failure of the hosters update itself is not modelled.
- TenantViews: a database exception inside the tenant config lookup is not modelled. Lookups over the table always succeed.
- TenantMiddleware.Middleware.Handle: the downstream handler is a function parameter. An exception it raises is folded into its result type, so the `finally` clause is modelled only as the context being cleared after the call.
- The order of the static tenant file's entries is its listing order. Python dictionaries keep insertion order, so this matches the file as loaded.
- UploadTasks: progress is an exact number rather than a float, and a patch that sets progress to a value that is not a number is not modelled. Only the name, progress, stage and done members of a patch are modelled.
- UploadTasks.Start: the simulated progress timer and the identifier built from the date and a random number are left out. The identifier is a parameter.
- ProjectList: the year of a period is read by a date parser that is a parameter (`yearOf`), since JavaScript's `Date` parsing is not modelled.
- CmsAgent.NextPage: the page's form submissions are collapsed into one success flag.
- EnvRouter: the two origins' health answers are the parameters `devOk` and `stableOk`. Proxying the request to the chosen origin is left out.
- TenantDetector: the subdomain table is modelled without the properties JavaScript objects inherit (a host label such as `constructor` is treated as absent).
- Attachments: a member value that is truthy but not a string (for example a number given as `url`) is treated as absent. The browser would use it, or fail when it splits it.
- KpiList: departments are given by their names, with `dept.name || dept` already applied. The reply's numbers are integers; a value that `Number` turns into NaN is not modelled.
- TranslateApi: the translation service is a parameter (`Reply`), and text that is not a string is not converted with `toString`. Hash collisions between two texts are possible, as in the source.
- ResetPw: the reset request itself and the redirect after it are left out. Only the checks that decide whether it is sent are modelled.
- AddAccount: the account service is a parameter (`Reply`), and its exceptions are folded into a failure reply.
- TenantViews.AdminFieldChecks: the two colour checks use the corrected hex-colour check of the first Findings row, so `"#1976d2\n"` is refused here although views.py lines 21-26 accept it (TenantValidation.HexColorAcceptsTrailingNewline shows the difference).
- TenantViews.CreateColourChecks: uses the corrected hex-colour check of the first Findings row, as AdminFieldChecks does.
- TenantViews.DetailPut: its colour checks use the corrected hex-colour check of the first Findings row, as AdminFieldChecks does.
- TenantViews.CreateRejection: uses the corrected tenant-id check of the second Findings row, so ids such as `"A_"` and `"abc\n"` are refused here although views.py lines 343-348 accept them (TenantValidation.TenantIdCheckGaps shows the difference).
- TenantViews.TenantDirectory.AdminPut: inherits the corrected hex-colour check through AdminFieldChecks.
- TenantViews.TenantDirectory.TenantCreate: inherits the corrected checks through CreateRejection and CreateColourChecks.
- TenantViews.TenantDirectory.UpdateRow: inherits the corrected hex-colour check through DetailPut.
- TenantMiddleware.Middleware.DbTenant: the `except Exception` branch of the database lookup (tenant_middleware.py lines 143-145), which answers "no tenant" when the query fails, is not modelled; the table of rows is always readable.
- TranslateApi.TranslationCache.TranslateOne: a `fetch` that throws or a reply body that is not JSON makes the source's promise reject (translateApi.jsx lines 57-66); the model has no rejected outcome, only the `Failed` and `Answered` replies.
- TranslateApi.TranslationCache.TranslateBatch: one rejected translation makes the source's `Promise.all` reject the whole batch (translateApi.jsx lines 98-100); the model has no rejected outcome and always returns one result per text.
- ProjectList.InYear: the year is read by `parseInt` without a radix (ProjectList.jsx line 55), so a year such as "0x7e8" would be read as hexadecimal; the model's ParseIntJs reads decimal digits only.
- ProjectList.HasSdg: the SDG number is read by `parseInt` without a radix (ProjectList.jsx line 71), with the same hexadecimal case left out.
- BubbleMap.Departments: the department list is given by names; the source also accepts department objects and takes their name member, a step the model leaves to the caller.

## Findings

| source | as written | input that shows it | evidently intended | confidence | as-written member | corrected member |
|---|---|---|---|---|---|---|
| apps/tplanet-daemon/backend/django_multi_tenant/views.py:21-26 | `re.match` with `^...$` lets `$` match before a final newline, so a colour followed by a newline passes the hex-colour check | `"#1976d2\n"` | exactly `#` and six hexadecimal digits | not executed | TenantValidation.HexColorAcceptsTrailingNewline | TenantValidation.ValidateHexColor |
| apps/tplanet-daemon/backend/django_multi_tenant/views.py:343-348 | the id check rejects only ids longer than two characters, and `$` lets a final newline through | `"A_"` (two characters, never checked) and `"abc\n"` | lower-case letters, digits and hyphens, starting and ending with a letter or digit, at any length | not executed | TenantValidation.TenantIdCheckGaps | TenantValidation.ValidTenantIdCharacters |
