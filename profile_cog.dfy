/** The profile commands of cogs/profile.py: looking a student up in the school directory,
    choosing the class role their directory title gives, handing roles out to every member of
    the guild, and creating or editing the profile the store keeps for a member.

    The directory is a parameter: the entries it answers for a search filter. The Discord
    side effects (deleting the command message, replying, adding the role) are left out; the
    role to add is returned instead. */
module ProfileCog {
  import opened Wrappers
  import opened Builtins
  import Storage

  /** The attributes of a directory entry that `get_login_info` reads. */
  datatype DirEntry = DirEntry(mail: string, givenName: string, sn: string, uid: string, title: string)

  /** The dict `get_login_info` returns. */
  datatype LoginInfo = LoginInfo(mail: string, displayName: string, firstName: string, lastName: string,
                                 uid: string, title: string)

  /** The attribute a login is searched by: an address (with '@') by "mail", a login by "uid". */
  function SearchAttribute(login: string): (a: string)
    ensures a == "mail" || a == "uid"
    ensures a == "mail" <==> '@' in login
  {
    if '@' in login then "mail" else "uid"
  }

  /** The LDAP filter of the search: `(mail=login)` for an address, `(uid=login)` otherwise,
      the login inserted as it is. */
  function SearchFilter(login: string): (f: string)
    ensures '@' in login ==> f == "(mail=" + login + ")"
    ensures '@' !in login ==> f == "(uid=" + login + ")"
  {
    "(" + SearchAttribute(login) + "=" + login + ")"
  }

  /** The fields of the first entry found: the display name is the given name and the
      surname, separated by a space. */
  function InfoOf(e: DirEntry): (info: LoginInfo)
    ensures info.displayName == info.firstName + " " + info.lastName
    ensures info.firstName == e.givenName && info.lastName == e.sn
    ensures info.mail == e.mail && info.uid == e.uid && info.title == e.title
  {
    LoginInfo(e.mail, e.givenName + " " + e.sn, e.givenName, e.sn, e.uid, e.title)
  }

  /** `get_login_info(login)`: the first entry the search finds, None when it finds none. */
  function GetLoginInfo(login: string, directory: string -> seq<DirEntry>): (r: Option<LoginInfo>)
    ensures r.None? <==> directory(SearchFilter(login)) == []
    ensures r.Some? ==> r.value == InfoOf(directory(SearchFilter(login))[0])
  {
    var found := directory(SearchFilter(login));
    if found == [] then None else Some(InfoOf(found[0]))
  }

  /** `ROLES_NAMES`, in its declared order: a directory group to the id of its class role. */
  const RoleNames: seq<(string, nat)> := [
    ("CL_FI-EI1", 742452544802127875),
    ("CL_FI-EI2", 742452566356656168),
    ("CL_FI-EI3", 742452585390407681),
    ("CL_FI-EI4", 742452604197535955),
    ("CL_FE", 673315006259003393)
  ]

  /** The role of the first group, in order, whose name starts with the title. */
  function FirstMatch(names: seq<(string, nat)>, title: string): (r: Option<nat>)
    ensures r.None? <==> forall k :: 0 <= k < |names| ==> !(title <= names[k].0)
    decreases |names|
  {
    if names == [] then None
    else if title <= names[0].0 then Some(names[0].1)
    else FirstMatch(names[1..], title)
  }

  /** FirstMatch picks the first group whose name starts with the title: every earlier group's
      name does not. */
  lemma {:induction false} FirstMatchIsFirst(names: seq<(string, nat)>, title: string)
    requires FirstMatch(names, title).Some?
    ensures exists k :: 0 <= k < |names| && title <= names[k].0 && names[k].1 == FirstMatch(names, title).value &&
                        forall j :: 0 <= j < k ==> !(title <= names[j].0)
    decreases |names|
  {
    if !(title <= names[0].0) {
      var rest := names[1..];
      FirstMatchIsFirst(rest, title);
      var k :| 0 <= k < |rest| && title <= rest[k].0 && rest[k].1 == FirstMatch(rest, title).value &&
               forall j :: 0 <= j < k ==> !(title <= rest[j].0);
      assert rest[k] == names[k + 1];
      forall j | 0 <= j < k + 1
        ensures !(title <= names[j].0)
      {
        if j > 0 {
          assert names[j] == rest[j - 1];
        }
      }
    } else {
      assert 0 <= 0 < |names| && title <= names[0].0;
    }
  }

  /** The prefix test runs from the title to the group: an empty title starts every group name
      and so gets the first role, as does a truncated title such as "CL_FI-EI". */
  lemma ShortTitlesGetFirstRole()
    ensures FirstMatch(RoleNames, "") == Some(742452544802127875)
    ensures FirstMatch(RoleNames, "CL_FI-EI") == Some(742452544802127875)
  {
    assert "CL_FI-EI" <= RoleNames[0].0 by {
      assert RoleNames[0].0[..8] == "CL_FI-EI";
    }
  }

  /** The role a directory search for this login leads to, if any. */
  function RoleFor(login: string, directory: string -> seq<DirEntry>): Option<nat> {
    match GetLoginInfo(login, directory)
    case None => None
    case Some(info) => FirstMatch(RoleNames, info.title)
  }

  /** The `for ... else` loop of `set_user_roles`: stops at the first group whose name starts
      with the title. */
  method FindRole(title: string) returns (r: Option<nat>)
    ensures r == FirstMatch(RoleNames, title)
  {
    var i := 0;
    while i < |RoleNames|
      invariant 0 <= i <= |RoleNames|
      invariant FirstMatch(RoleNames, title) == FirstMatch(RoleNames[i..], title)
    {
      var (groupName, roleId) := RoleNames[i];
      if title <= groupName {
        return Some(roleId);
      }
      assert RoleNames[i..][1..] == RoleNames[i + 1..];
      i := i + 1;
    }
    return None;
  }

  /** `set_user_roles(member, login)`: whether a role is added, and which. */
  method SetUserRoles(login: string, directory: string -> seq<DirEntry>) returns (added: bool, role: Option<nat>)
    ensures role == RoleFor(login, directory)
    ensures added <==> role.Some?
  {
    var info := GetLoginInfo(login, directory);
    if info.None? {
      return false, None;
    }
    role := FindRole(info.value.title);
    added := role.Some?;
  }

  /** The roles `get_roles` hands out, in member order: for each member whose profile can be
      read, the role its login leads to. */
  function Grants(store: map<string, Storage.Record>, members: seq<nat>, directory: string -> seq<DirEntry>): seq<(nat, nat)>
    decreases |members|
  {
    if members == [] then []
    else
      var m := members[|members| - 1];
      var front := Grants(store, members[..|members| - 1], directory);
      match Storage.ProfileIn(store, m)
      case Err(_) => front
      case Ok(p) =>
        match RoleFor(p.tspUser, directory)
        case None => front
        case Some(id) => front + [(m, id)]
  }

  /** `set_user_roles` returns True for member m: its profile can be read and its login leads
      to a role. */
  predicate Granted(store: map<string, Storage.Record>, m: nat, directory: string -> seq<DirEntry>) {
    Storage.ProfileIn(store, m).Ok? && RoleFor(Storage.ProfileIn(store, m).value.tspUser, directory).Some?
  }

  /** The positions in the member list of the members that are given a role. */
  function GrantedPositions(store: map<string, Storage.Record>, members: seq<nat>, directory: string -> seq<DirEntry>): set<nat> {
    set i: nat | i < |members| && Granted(store, members[i], directory)
  }

  /** The roles handed out are exactly those of the members `set_user_roles` accepts: every
      one goes to a member of the guild with a readable profile and is the role that member's
      login leads to, every such member gets its role, and there is one per such member. */
  lemma {:induction false} GrantsSpec(store: map<string, Storage.Record>, members: seq<nat>, directory: string -> seq<DirEntry>)
    ensures |Grants(store, members, directory)| == |GrantedPositions(store, members, directory)| <= |members|
    ensures forall g :: g in Grants(store, members, directory) ==>
              g.0 in members && Storage.ProfileIn(store, g.0).Ok? &&
              RoleFor(Storage.ProfileIn(store, g.0).value.tspUser, directory) == Some(g.1)
    ensures forall i :: 0 <= i < |members| && Granted(store, members[i], directory) ==>
              (members[i], RoleFor(Storage.ProfileIn(store, members[i]).value.tspUser, directory).value)
                in Grants(store, members, directory)
    decreases |members|
  {
    if members != [] {
      var front := members[..|members| - 1];
      GrantsSpec(store, front, directory);
      assert forall x :: x in front ==> x in members;
    }
    GrantsCount(store, members, directory);
    GrantsComplete(store, members, directory);
  }

  /** The last member adds its role to those of the members before it exactly when
      `set_user_roles` accepts it. */
  lemma GrantsLast(store: map<string, Storage.Record>, members: seq<nat>, directory: string -> seq<DirEntry>)
    requires members != []
    ensures var m := members[|members| - 1];
            Grants(store, members, directory) ==
              Grants(store, members[..|members| - 1], directory) +
              (if Granted(store, m, directory)
               then [(m, RoleFor(Storage.ProfileIn(store, m).value.tspUser, directory).value)] else [])
  {
  }

  /** The accepted positions of a member list: those of the members before the last, and the
      last position when its member is accepted. */
  lemma PositionsLast(store: map<string, Storage.Record>, members: seq<nat>, directory: string -> seq<DirEntry>)
    requires members != []
    ensures var n := |members| - 1;
            n !in GrantedPositions(store, members[..n], directory) &&
            GrantedPositions(store, members, directory) ==
              GrantedPositions(store, members[..n], directory) + (if Granted(store, members[n], directory) then {n} else {})
  {
    var n := |members| - 1;
    var front := members[..n];
    forall i: nat | i < n ensures front[i] == members[i] { }
  }

  /** One role is handed out per member position that `set_user_roles` accepts. */
  lemma {:induction false} GrantsCount(store: map<string, Storage.Record>, members: seq<nat>, directory: string -> seq<DirEntry>)
    ensures |Grants(store, members, directory)| == |GrantedPositions(store, members, directory)|
    decreases |members|
  {
    if members == [] {
      assert GrantedPositions(store, members, directory) == {};
    } else {
      GrantsCount(store, members[..|members| - 1], directory);
      GrantsLast(store, members, directory);
      PositionsLast(store, members, directory);
    }
  }

  /** Every member that `set_user_roles` accepts is handed its role. */
  lemma {:induction false} GrantsComplete(store: map<string, Storage.Record>, members: seq<nat>, directory: string -> seq<DirEntry>)
    ensures forall i :: 0 <= i < |members| && Granted(store, members[i], directory) ==>
              (members[i], RoleFor(Storage.ProfileIn(store, members[i]).value.tspUser, directory).value)
                in Grants(store, members, directory)
    decreases |members|
  {
    if members != [] {
      var n := |members| - 1;
      var front := members[..n];
      GrantsComplete(store, front, directory);
      GrantsLast(store, members, directory);
      var all := Grants(store, members, directory);
      var before := Grants(store, front, directory);
      assert all[..|before|] == before;
      forall i | 0 <= i < |members| && Granted(store, members[i], directory)
        ensures (members[i], RoleFor(Storage.ProfileIn(store, members[i]).value.tspUser, directory).value) in all
      {
        if i < n {
          assert front[i] == members[i];
          var g := (members[i], RoleFor(Storage.ProfileIn(store, members[i]).value.tspUser, directory).value);
          var k :| 0 <= k < |before| && before[k] == g;
          assert all[k] == g;
        } else {
          assert all[|all| - 1] == (members[n], RoleFor(Storage.ProfileIn(store, members[n]).value.tspUser, directory).value);
        }
      }
    }
  }

  /** A member without a readable profile is skipped. */
  lemma {:induction false} NoProfileNoGrant(store: map<string, Storage.Record>, members: seq<nat>, directory: string -> seq<DirEntry>, m: nat)
    requires Storage.ProfileIn(store, m).Err?
    ensures forall g :: g in Grants(store, members, directory) ==> g.0 != m
  {
    GrantsSpec(store, members, directory);
  }

  /** The profile commands over the bot's profile store. */
  class Profiles {
    /** `self.bot.db`. */
    const db: Storage.Storage

    constructor (store: Storage.Storage)
      ensures db == store
    {
      db := store;
    }

    /** `get_roles`: the number of members given a role, and the roles given. */
    method GetRoles(members: seq<nat>, directory: string -> seq<DirEntry>) returns (countAdded: nat, given: seq<(nat, nat)>)
      ensures given == Grants(db.profiles, members, directory)
      ensures countAdded == |given| == |GrantedPositions(db.profiles, members, directory)| <= |members|
    {
      countAdded := 0;
      given := [];
      var i := 0;
      while i < |members|
        invariant 0 <= i <= |members|
        invariant given == Grants(db.profiles, members[..i], directory)
        invariant countAdded == |given|
      {
        var m := members[i];
        assert members[..i + 1][..i] == members[..i];
        var profile := db.GetProfile(m);
        if profile.Ok? {
          var added, role := SetUserRoles(profile.value.tspUser, directory);
          if added {
            countAdded := countAdded + 1;
            given := given + [(m, role.value)];
          }
        }
        i := i + 1;
      }
      assert members[..i] == members;
      GrantsSpec(db.profiles, members, directory);
    }

    /** `profile create user [password]`: creates the profile only when the member has none. */
    method Create(memberId: nat, tspUser: string, tspPassword: Option<string>) returns (created: bool)
      modifies db
      ensures created <==> !old(db.HasProfile(memberId))
      ensures !created ==> db.profiles == old(db.profiles)
      ensures created ==> db.profiles == old(db.profiles)[Storage.Key(memberId) :=
                Storage.ToDict(Storage.Profile(tspUser, Storage.PasswordText(tspPassword), true))]
      ensures created ==> db.GetProfile(memberId) == Ok(Storage.Profile(tspUser, Storage.PasswordText(tspPassword), true))
    {
      if db.HasProfile(memberId) {
        return false;
      }
      db.CreateProfile(memberId, tspUser, tspPassword);
      return true;
    }

    /** The `edit` group's check, then a subcommand: read the profile (KeyError when its record
        lacks a credential), change one field and save it. */
    method Edit(memberId: nat, change: Storage.Profile -> Storage.Profile) returns (r: Result<(), Error>)
      modifies db
      ensures !old(db.HasProfile(memberId)) ==> r == Err(NoProfileError) && db.profiles == old(db.profiles)
      ensures old(db.HasProfile(memberId)) && old(db.GetProfile(memberId)).Err? ==>
                r == Err(KeyError) && db.profiles == old(db.profiles)
      ensures old(db.GetProfile(memberId)).Ok? ==>
                r == Ok(()) &&
                db.profiles == old(db.profiles)[Storage.Key(memberId) := Storage.ToDict(change(old(db.GetProfile(memberId)).value))] &&
                db.GetProfile(memberId) == Ok(change(old(db.GetProfile(memberId)).value))
    {
      if !db.HasProfile(memberId) {
        return Err(NoProfileError);
      }
      var profile := db.GetProfile(memberId);
      if profile.Err? {
        return Err(KeyError);
      }
      db.SaveProfile(memberId, change(profile.value));
      return Ok(());
    }

    /** `edit user new_user`: only the login changes. */
    method EditUser(memberId: nat, newUser: string) returns (r: Result<(), Error>)
      modifies db
      ensures r.Err? ==> db.profiles == old(db.profiles) && r.error == (if old(db.HasProfile(memberId)) then KeyError else NoProfileError)
      ensures r.Ok? <==> old(db.GetProfile(memberId)).Ok?
      ensures r.Ok? ==> db.GetProfile(memberId) == Ok(old(db.GetProfile(memberId)).value.(tspUser := newUser))
      ensures r.Ok? ==> forall other :: other != memberId ==> db.GetProfile(other) == old(db.GetProfile(other))
    {
      r := Edit(memberId, (p: Storage.Profile) => p.(tspUser := newUser));
      forall other | other != memberId
        ensures Storage.Key(other) != Storage.Key(memberId)
      {
        Storage.KeysDistinct(other, memberId);
      }
    }

    /** `edit password new_password`: only the password changes. */
    method EditPassword(memberId: nat, newPassword: string) returns (r: Result<(), Error>)
      modifies db
      ensures r.Err? ==> db.profiles == old(db.profiles) && r.error == (if old(db.HasProfile(memberId)) then KeyError else NoProfileError)
      ensures r.Ok? <==> old(db.GetProfile(memberId)).Ok?
      ensures r.Ok? ==> db.GetProfile(memberId) == Ok(old(db.GetProfile(memberId)).value.(tspPassword := newPassword))
      ensures r.Ok? ==> forall other :: other != memberId ==> db.GetProfile(other) == old(db.GetProfile(other))
    {
      r := Edit(memberId, (p: Storage.Profile) => p.(tspPassword := newPassword));
      forall other | other != memberId
        ensures Storage.Key(other) != Storage.Key(memberId)
      {
        Storage.KeysDistinct(other, memberId);
      }
    }

    /** `edit affichage_rang yes|no`: only the rank preference changes. */
    method EditShowRang(memberId: nat, showRang: bool) returns (r: Result<(), Error>)
      modifies db
      ensures r.Err? ==> db.profiles == old(db.profiles) && r.error == (if old(db.HasProfile(memberId)) then KeyError else NoProfileError)
      ensures r.Ok? <==> old(db.GetProfile(memberId)).Ok?
      ensures r.Ok? ==> db.GetProfile(memberId) == Ok(old(db.GetProfile(memberId)).value.(showRang := showRang))
      ensures r.Ok? ==> forall other :: other != memberId ==> db.GetProfile(other) == old(db.GetProfile(other))
    {
      r := Edit(memberId, (p: Storage.Profile) => p.(showRang := showRang));
      forall other | other != memberId
        ensures Storage.Key(other) != Storage.Key(memberId)
      {
        Storage.KeysDistinct(other, memberId);
      }
    }
  }
}
