/** The browser's classification of the signed-in user against the tenant's
    hoster list: hosters[0] administers the site, the other hosters are members,
    and superusers hold every right. */
module AccessLevel {

  datatype Level = NoAccess | Member | Admin | Superuser

  datatype Access = Access(
    level: Level,
    isAdmin: bool,
    isMember: bool,
    isSuperuser: bool,
    hasBackendAccess: bool,
    loading: bool)

  const Denied: Access := Access(NoAccess, false, false, false, false, false)

  /** The access record for `email` (the stored e-mail, "" when none). */
  function Classify(loading: bool, email: string, hosters: seq<string>, superusers: seq<string>): (a: Access)
    ensures loading ==> a == Denied.(loading := true)
    ensures !loading && (email == "" || hosters == []) ==> a == Denied
    ensures a.hasBackendAccess == (a.isAdmin || a.isMember)
    ensures a.loading == loading
  {
    if loading then Denied.(loading := true)
    else if email == "" || hosters == [] then Denied
    else
      var isSuperuser := email in superusers;
      var isHostersAdmin := email == hosters[0];
      var isMemberOnly := email in hosters[1..];
      var isAdmin := isSuperuser || isHostersAdmin;
      var isMember := isSuperuser || isHostersAdmin || isMemberOnly;
      var level :=
        if isSuperuser then Superuser
        else if isHostersAdmin then Admin
        else if isMemberOnly then Member
        else NoAccess;
      Access(level, isAdmin, isMember, isSuperuser, isAdmin || isMember, false)
  }

  /** Once loaded and with an e-mail and a hoster list, the flags follow the user's
      roles: superusers and hosters[0] are admins and members, the other hosters are
      members only, and nobody else has a flag. */
  lemma RolesOfLoadedUser(email: string, hosters: seq<string>, superusers: seq<string>)
    requires email != "" && hosters != []
    ensures var a := Classify(false, email, hosters, superusers);
            (a.isSuperuser <==> email in superusers)
            && (a.isAdmin <==> email in superusers || email == hosters[0])
            && (a.isMember <==> email in superusers || email in hosters)
            && (a.isAdmin ==> a.isMember)
  {
    assert hosters == [hosters[0]] + hosters[1..];
  }

  function Rank(l: Level): nat {
    match l
    case NoAccess => 0
    case Member => 1
    case Admin => 2
    case Superuser => 3
  }

  /** The level is the highest role the user holds: superuser over admin over member
      over none. */
  lemma LevelIsHighestRole(loading: bool, email: string, hosters: seq<string>, superusers: seq<string>)
    ensures var a := Classify(loading, email, hosters, superusers);
            (a.level == Superuser <==> a.isSuperuser)
            && (a.level == Admin <==> a.isAdmin && !a.isSuperuser)
            && (a.level == Member <==> a.isMember && !a.isAdmin)
            && (a.level == NoAccess <==> !a.isMember)
  {
  }
}
