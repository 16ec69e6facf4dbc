/** The account service's upkeep of the current tenant's hosters list (the
    site's owner first, then its members), and the request checks of adding a
    user and removing a member. User accounts, profiles, groups and mail are not
    part of this model: only the hosters column of the TenantConfig table is. */
module UserCrud {
  import opened Common
  import opened JsonData
  import opened TenantData
  import opened TenantViews

  /** The hosters column as a list: an empty column reads as the empty list. */
  function HosterItems(j: Json): (items: seq<Json>)
    requires HosterShape(j)
    ensures PyTruthy(j) ==> items == j.items
    ensures !PyTruthy(j) ==> items == []
  {
    if PyTruthy(j) then j.items else []
  }

  predicate NoDuplicates<T(==)>(s: seq<T>) {
    forall i, j :: 0 <= i < j < |s| ==> s[i] != s[j]
  }

  /** The list after adding an email: appended when absent, otherwise untouched. */
  function WithHoster(items: seq<Json>, email: string): (r: seq<Json>)
    ensures JStr(email) in r
    ensures items <= r && |r| <= |items| + 1
    ensures JStr(email) in items ==> r == items
  {
    if JStr(email) in items then items else items + [JStr(email)]
  }

  /** Adding never introduces a duplicate. */
  lemma WithHosterNoDuplicates(items: seq<Json>, email: string)
    requires NoDuplicates(items)
    ensures NoDuplicates(WithHoster(items, email))
  {
  }

  /** The list after removing the first occurrence of x. */
  function RemoveFirst<T(==)>(s: seq<T>, x: T): (r: seq<T>)
    requires x in s
    ensures |r| == |s| - 1
    ensures multiset(r) == multiset(s) - multiset{x}
  {
    var i := IndexOf(s, x);
    assert s == s[..i] + [x] + s[i + 1..];
    s[..i] + s[i + 1..]
  }

  /** The list after removing an email: the first occurrence goes, unless it is the
      owner's entry at index 0 or the email is absent. */
  function WithoutHoster(items: seq<Json>, email: string): (r: seq<Json>)
    ensures items != [] ==> r != [] && r[0] == items[0]
    ensures JStr(email) !in items ==> r == items
    ensures JStr(email) in items && items[0] != JStr(email) ==> multiset(r) == multiset(items) - multiset{JStr(email)}
    ensures items != [] && items[0] == JStr(email) ==> r == items
  {
    if JStr(email) in items && IndexOf(items, JStr(email)) != 0 then
      var i := IndexOf(items, JStr(email));
      assert RemoveFirst(items, JStr(email))[0] == items[0];
      RemoveFirst(items, JStr(email))
    else items
  }

  /** On a list without duplicates, removing an email that is not the owner's takes it
      out entirely and keeps the rest in order. */
  lemma WithoutHosterRemovesMember(items: seq<Json>, email: string)
    requires NoDuplicates(items) && JStr(email) in items && items[0] != JStr(email)
    ensures JStr(email) !in WithoutHoster(items, email)
    ensures NoDuplicates(WithoutHoster(items, email))
    ensures WithoutHoster(items, email) == items[..IndexOf(items, JStr(email))] + items[IndexOf(items, JStr(email)) + 1..]
  {
    var i := IndexOf(items, JStr(email));
    assert WithoutHoster(items, email) == items[..i] + items[i + 1..];
    DroppingOneKeepsDistinct(items, i);
  }

  /** Leaving out the element at i from a list without duplicates leaves no copy of it
      and no duplicates. */
  lemma DroppingOneKeepsDistinct<T>(s: seq<T>, i: nat)
    requires i < |s| && NoDuplicates(s)
    ensures s[i] !in s[..i] + s[i + 1..]
    ensures NoDuplicates(s[..i] + s[i + 1..])
  {
    var r := s[..i] + s[i + 1..];
    forall k | 0 <= k < |r| ensures r[k] != s[i] {
      if k >= i {
        assert r[k] == s[k + 1];
      }
    }
    forall a, b | 0 <= a < b < |r| ensures r[a] != r[b] {
      var a' := if a < i then a else a + 1;
      var b' := if b < i then b else b + 1;
      assert r[a] == s[a'] && r[b] == s[b'];
    }
  }

  /** Adding a new member and removing it again gives the list back. */
  lemma {:induction false} AddThenRemove(items: seq<Json>, email: string)
    requires items != [] && JStr(email) !in items
    ensures WithoutHoster(WithHoster(items, email), email) == items
  {
    var added := items + [JStr(email)];
    assert IndexOf(added, JStr(email)) == |items| by {
      IndexOfAppended(items, JStr(email));
    }
    assert added[..|items|] == items;
  }

  lemma {:induction false} IndexOfAppended<T>(s: seq<T>, x: T)
    requires x !in s
    ensures IndexOf(s + [x], x) == |s|
  {
    if s != [] {
      assert (s + [x])[1..] == s[1..] + [x];
      IndexOfAppended(s[1..], x);
    }
  }

  /** The hosters list of the tenant with the given id. */
  function TenantHosters(rows: seq<TenantRow>, id: string): seq<Json>
    requires HostersWellFormed(rows) && FindRow(rows, id).Some?
  {
    FoundHosterShape(rows, id);
    HosterItems(FindRow(rows, id).value.hosters)
  }

  /** The table after adding an email to the current tenant's hosters: nothing changes
      without a tenant, without a row for it, or when the email is already listed. */
  function AddHosterRows(rows: seq<TenantRow>, tenant: Option<TenantInfo>, email: string): (r: seq<TenantRow>)
    requires HostersWellFormed(rows)
    ensures HostersWellFormed(r)
  {
    if tenant.None? || FindRow(rows, tenant.value.tenantId).None? then rows
    else
      var row := FindRow(rows, tenant.value.tenantId).value;
      var items := TenantHosters(rows, tenant.value.tenantId);
      UpsertKeepsHosterShape(rows, row.(hosters := JArr(items + [JStr(email)])));
      if JStr(email) in items then rows else Upsert(rows, row.(hosters := JArr(items + [JStr(email)])))
  }

  /** The table after removing an email from the current tenant's hosters. */
  function RemoveHosterRows(rows: seq<TenantRow>, tenant: Option<TenantInfo>, email: string): (r: seq<TenantRow>)
    requires HostersWellFormed(rows)
    ensures HostersWellFormed(r)
  {
    if tenant.None? || FindRow(rows, tenant.value.tenantId).None? then rows
    else
      var row := FindRow(rows, tenant.value.tenantId).value;
      var items := TenantHosters(rows, tenant.value.tenantId);
      UpsertKeepsHosterShape(rows, row.(hosters := JArr(WithoutHoster(items, email))));
      if JStr(email) in items && IndexOf(items, JStr(email)) != 0
      then Upsert(rows, row.(hosters := JArr(WithoutHoster(items, email))))
      else rows
  }

  /** Adding touches only the current tenant's row, whose list becomes the added list. */
  lemma {:induction false} AddHosterStaysLocal(rows: seq<TenantRow>, t: TenantInfo, email: string)
    requires DistinctIds(rows) && HostersWellFormed(rows) && FindRow(rows, t.tenantId).Some?
    ensures forall id :: id != t.tenantId ==> FindRow(AddHosterRows(rows, Some(t), email), id) == FindRow(rows, id)
    ensures FindRow(AddHosterRows(rows, Some(t), email), t.tenantId).Some?
    ensures TenantHosters(AddHosterRows(rows, Some(t), email), t.tenantId)
            == WithHoster(TenantHosters(rows, t.tenantId), email)
  {
    if JStr(email) !in TenantHosters(rows, t.tenantId) {
      AddHosterUpdates(rows, t, email);
    }
  }

  /** The case where the email is new: the row is replaced. */
  lemma AddHosterUpdates(rows: seq<TenantRow>, t: TenantInfo, email: string)
    requires DistinctIds(rows) && HostersWellFormed(rows) && FindRow(rows, t.tenantId).Some?
    requires JStr(email) !in TenantHosters(rows, t.tenantId)
    ensures forall id :: id != t.tenantId ==> FindRow(AddHosterRows(rows, Some(t), email), id) == FindRow(rows, id)
    ensures FindRow(AddHosterRows(rows, Some(t), email), t.tenantId).Some?
    ensures TenantHosters(AddHosterRows(rows, Some(t), email), t.tenantId)
            == WithHoster(TenantHosters(rows, t.tenantId), email)
  {
    var row := FindRow(rows, t.tenantId).value;
    var items := TenantHosters(rows, t.tenantId);
    var updated := row.(hosters := JArr(items + [JStr(email)]));
    UpsertFacts(rows, updated);
    assert AddHosterRows(rows, Some(t), email) == Upsert(rows, updated);
  }

  /** Removing touches only the current tenant's row, whose list becomes the reduced list. */
  lemma {:induction false} RemoveHosterStaysLocal(rows: seq<TenantRow>, t: TenantInfo, email: string)
    requires DistinctIds(rows) && HostersWellFormed(rows) && FindRow(rows, t.tenantId).Some?
    ensures forall id :: id != t.tenantId ==> FindRow(RemoveHosterRows(rows, Some(t), email), id) == FindRow(rows, id)
    ensures FindRow(RemoveHosterRows(rows, Some(t), email), t.tenantId).Some?
    ensures TenantHosters(RemoveHosterRows(rows, Some(t), email), t.tenantId)
            == WithoutHoster(TenantHosters(rows, t.tenantId), email)
  {
    var items := TenantHosters(rows, t.tenantId);
    if JStr(email) in items && IndexOf(items, JStr(email)) != 0 {
      RemoveHosterUpdates(rows, t, email);
    } else {
      assert RemoveHosterRows(rows, Some(t), email) == rows;
      assert WithoutHoster(items, email) == items;
    }
  }

  /** The case where the email is a member: the row is replaced. */
  lemma RemoveHosterUpdates(rows: seq<TenantRow>, t: TenantInfo, email: string)
    requires DistinctIds(rows) && HostersWellFormed(rows) && FindRow(rows, t.tenantId).Some?
    requires var items := TenantHosters(rows, t.tenantId);
             JStr(email) in items && IndexOf(items, JStr(email)) != 0
    ensures forall id :: id != t.tenantId ==> FindRow(RemoveHosterRows(rows, Some(t), email), id) == FindRow(rows, id)
    ensures FindRow(RemoveHosterRows(rows, Some(t), email), t.tenantId).Some?
    ensures TenantHosters(RemoveHosterRows(rows, Some(t), email), t.tenantId)
            == WithoutHoster(TenantHosters(rows, t.tenantId), email)
  {
    var row := FindRow(rows, t.tenantId).value;
    var items := TenantHosters(rows, t.tenantId);
    var reduced := WithoutHoster(items, email);
    var updated := row.(hosters := JArr(reduced));
    UpsertFacts(rows, updated);
    assert RemoveHosterRows(rows, Some(t), email) == Upsert(rows, updated);
    assert reduced != [];
  }

  /** Adds an email to the current tenant's hosters (the add-user path). */
  method AddToHosters(dir: TenantDirectory, tenant: Option<TenantInfo>, email: string)
    requires dir.Valid()
    modifies dir`rows
    ensures dir.Valid()
    ensures dir.rows == AddHosterRows(old(dir.rows), tenant, email)
  {
    if tenant.None? {
      return;
    }
    var config := FindRow(dir.rows, tenant.value.tenantId);
    if config.None? {
      return;
    }
    var hosters := TenantHosters(dir.rows, tenant.value.tenantId);
    var listed := Position(hosters, JStr(email));
    if listed < 0 {
      hosters := hosters + [JStr(email)];
      var row := config.value.(hosters := JArr(hosters));
      UpsertFacts(dir.rows, row);
      UpsertKeepsHosterShape(dir.rows, row);
      dir.rows := Upsert(dir.rows, row);
    }
  }

  /** Removes an email from the current tenant's hosters, never the entry at index 0. */
  method RemoveFromHosters(dir: TenantDirectory, tenant: Option<TenantInfo>, email: string)
    requires dir.Valid()
    modifies dir`rows
    ensures dir.Valid()
    ensures dir.rows == RemoveHosterRows(old(dir.rows), tenant, email)
  {
    if tenant.None? {
      return;
    }
    var config := FindRow(dir.rows, tenant.value.tenantId);
    if config.None? {
      return;
    }
    var hosters := TenantHosters(dir.rows, tenant.value.tenantId);
    var at := Position(hosters, JStr(email));
    if at > 0 {
      hosters := hosters[..at] + hosters[at + 1..];
      var row := config.value.(hosters := JArr(hosters));
      UpsertFacts(dir.rows, row);
      UpsertKeepsHosterShape(dir.rows, row);
      dir.rows := Upsert(dir.rows, row);
    }
  }

  /** `list.index`, answering -1 instead of raising when x is absent. */
  method Position<T(==)>(s: seq<T>, x: T) returns (i: int)
    ensures x !in s <==> i == -1
    ensures x in s ==> i == IndexOf(s, x)
  {
    i := 0;
    while i < |s|
      invariant 0 <= i <= |s|
      invariant x !in s[..i]
    {
      if s[i] == x {
        IndexOfFirst(s, x, i);
        return;
      }
      assert s[..i + 1] == s[..i] + [s[i]];
      i := i + 1;
    }
    assert s[..i] == s;
    i := -1;
  }

  lemma {:induction false} IndexOfFirst<T>(s: seq<T>, x: T, i: nat)
    requires i < |s| && s[i] == x && x !in s[..i]
    ensures IndexOf(s, x) == i
  {
    if i > 0 {
      assert s[0] == s[..i][0];
      assert s[1..][..i - 1] == s[..i][1..];
      IndexOfFirst(s[1..], x, i - 1);
    }
  }

  // ---------------------------------------------------------------------------
  // Request checks
  // ---------------------------------------------------------------------------

  /** What one of the service calls answers: a flag and a message, or an exception that
      escapes to the view. */
  datatype ServiceResult = Done(ok: bool, message: string) | Raised

  const RequiredUserFields: seq<string> := ["email", "undertake", "hoster", "role"]

  /** A required request value, stripped; a missing or empty value reads as "". None
      when the value is not a string, where stripping raises. */
  function RequiredValue(req: map<string, Json>, key: string): (r: Option<string>)
    ensures r.Some? ==> !(r.value != [] && IsSpace(Py, r.value[0]))
  {
    var v := Lookup(req, key, JNull);
    if !PyTruthy(v) then Some("")
    else if v.JStr? then Some(Strip(Py, v.s))
    else None
  }

  /** The keys whose value is blank, in key order. */
  function BlankKeys(keys: seq<string>, values: seq<string>): (r: seq<string>)
    requires |keys| == |values|
    ensures forall k :: k in r ==> exists i :: 0 <= i < |keys| && keys[i] == k && values[i] == ""
    ensures forall i :: 0 <= i < |keys| && values[i] == "" ==> keys[i] in r
  {
    if keys == [] then []
    else (if values[0] == "" then [keys[0]] else []) + BlankKeys(keys[1..], values[1..])
  }

  datatype AddUserCheck = Accepted(email: string, undertake: string, hoster: string, role: string)
                        | Refused(message: string)
                        | Unreadable

  predicate Readable(req: map<string, Json>) {
    forall k :: k in RequiredUserFields ==> RequiredValue(req, k).Some?
  }

  /** The required fields whose stripped value is blank, in field order. */
  function MissingFields(req: map<string, Json>): (missing: seq<string>)
    requires Readable(req)
    ensures forall k :: k in missing <==> k in RequiredUserFields && RequiredValue(req, k) == Some("")
  {
    var stripped := seq(4, i requires 0 <= i < 4 => RequiredValue(req, RequiredUserFields[i]).value);
    BlankKeys(RequiredUserFields, stripped)
  }

  /** The field check that opens add_user: every blank required field is named. */
  function CheckAddUser(req: map<string, Json>): (r: AddUserCheck)
    ensures r.Unreadable? <==> !Readable(req)
    ensures r.Accepted? ==> r.email != "" && r.undertake != "" && r.hoster != "" && r.role != ""
    ensures r.Accepted? ==> Some(r.email) == RequiredValue(req, "email")
                            && Some(r.undertake) == RequiredValue(req, "undertake")
                            && Some(r.hoster) == RequiredValue(req, "hoster")
                            && Some(r.role) == RequiredValue(req, "role")
    ensures Readable(req) && (forall k :: k in RequiredUserFields ==> RequiredValue(req, k) != Some("")) ==> r.Accepted?
    ensures r.Refused? ==> Readable(req) && exists k :: k in RequiredUserFields && RequiredValue(req, k) == Some("")
  {
    if !Readable(req) then Unreadable
    else
      var missing := MissingFields(req);
      if missing != [] then
        assert missing[0] in missing;
        Refused("Missing required fields: " + JoinWith(missing, ", "))
      else
        var stripped := seq(4, i requires 0 <= i < 4 => RequiredValue(req, RequiredUserFields[i]).value);
        assert forall i :: 0 <= i < 4 ==> stripped[i] != "" by {
          forall i | 0 <= i < 4 ensures stripped[i] != "" {
            assert RequiredUserFields[i] in RequiredUserFields;
          }
        }
        Accepted(stripped[0], stripped[1], stripped[2], stripped[3])
  }

  /** A readable request with a blank required field is refused, and the message lists
      exactly the blank fields. */
  lemma BlankFieldIsNamed(req: map<string, Json>, key: string)
    requires Readable(req) && key in RequiredUserFields && RequiredValue(req, key) == Some("")
    ensures key in MissingFields(req)
    ensures CheckAddUser(req) == Refused("Missing required fields: " + JoinWith(MissingFields(req), ", "))
  {
  }

  /** How the account writes of an accepted add_user end. The profile, group and account
      writes come before the hosters update; the password mail to a new account comes after
      it. A failure carries the exception's text. */
  datatype AccountWrite = Written | FailsBeforeHosters(detail: string) | FailsAfterHosters(detail: string)

  /** add_user as far as the tenant is concerned: a rejected request changes nothing; an
      accepted one (the account being created or already present) lists the email among the
      tenant's hosters, unless an account write fails first. A mail failure after that still
      answers "Internal error", with the email already listed. */
  method AddUser(dir: TenantDirectory, tenant: Option<TenantInfo>, req: map<string, Json>, write: AccountWrite)
    returns (result: ServiceResult)
    requires dir.Valid()
    modifies dir`rows
    ensures dir.Valid()
    ensures match CheckAddUser(req)
            case Accepted(email, _, _, _) =>
              (match write
               case Written => result == Done(true, "") && dir.rows == AddHosterRows(old(dir.rows), tenant, email)
               case FailsBeforeHosters(detail) => result == Done(false, "Internal error: " + detail) && dir.rows == old(dir.rows)
               case FailsAfterHosters(detail) =>
                 result == Done(false, "Internal error: " + detail) && dir.rows == AddHosterRows(old(dir.rows), tenant, email))
            case Refused(message) => result == Done(false, message) && dir.rows == old(dir.rows)
            case Unreadable => result == Done(false, "Internal error") && dir.rows == old(dir.rows)
  {
    var check := CheckAddUser(req);
    match check
    case Unreadable =>
      return Done(false, "Internal error");
    case Refused(message) =>
      return Done(false, message);
    case Accepted(email, _, _, _) =>
      if write.FailsBeforeHosters? {
        return Done(false, "Internal error: " + write.detail);
      }
      AddToHosters(dir, tenant, email);
      if write.FailsAfterHosters? {
        return Done(false, "Internal error: " + write.detail);
      }
      return Done(true, "");
  }

  /** remove_member: a blank email is refused; otherwise the email leaves the hosters
      (unless it is the owner's) and the account is kept. */
  method RemoveMember(dir: TenantDirectory, tenant: Option<TenantInfo>, req: map<string, Json>) returns (result: ServiceResult)
    requires dir.Valid()
    modifies dir`rows
    ensures dir.Valid()
    ensures RequiredValue(req, "email").None? ==> result == Raised && dir.rows == old(dir.rows)
    ensures RequiredValue(req, "email") == Some("") ==> result == Done(false, "Email is required") && dir.rows == old(dir.rows)
    ensures RequiredValue(req, "email").Some? && RequiredValue(req, "email") != Some("") ==>
              result == Done(true, "OK") && dir.rows == RemoveHosterRows(old(dir.rows), tenant, RequiredValue(req, "email").value)
  {
    var email := RequiredValue(req, "email");
    if email.None? {
      return Raised;
    }
    if email.value == "" {
      return Done(false, "Email is required");
    }
    RemoveFromHosters(dir, tenant, email.value);
    return Done(true, "OK");
  }
}
