/** The profile store of utils/storage.py: a dictionary from the text of a member id to a
    profile record (the user's credentials for the grade portal and whether their rank is
    shown), and the conversions between a record and a `Profile`. Reading and writing
    profiles.json is not modelled: the dictionary is the store. */
module Storage {
  import opened Wrappers
  import opened Builtins

  /** A value in a stored profile record. The program only ever writes strings and booleans;
      `Null` is the None that the argument dict of `create_profile` holds for a missing
      password, or that a hand-edited file holds. */
  datatype Field = Text(s: string) | Flag(b: bool) | Null

  /** A profile record as kept in `_profiles`: field name to value. */
  type Record = map<string, Field>

  datatype Profile = Profile(tspUser: string, tspPassword: string, showRang: bool)

  /** `str(v)`. */
  function FieldStr(f: Field): string {
    match f
    case Text(s) => s
    case Flag(b) => if b then "True" else "False"
    case Null => "None"
  }

  /** `bool(v)`. */
  predicate FieldBool(f: Field) {
    match f
    case Text(s) => s != ""
    case Flag(b) => b
    case Null => false
  }

  /** `Profile(profile_dict)`: both credentials are required (KeyError otherwise) and
      converted to text; `show_rang` is read by Python truthiness and defaults to True. */
  function ProfileOf(d: Record): (r: Result<Profile, Error>)
    ensures r.Ok? <==> "tsp_user" in d && "tsp_password" in d
    ensures r.Err? ==> r.error == KeyError
    ensures r.Ok? && "show_rang" !in d ==> r.value.showRang
    ensures r.Ok? && "show_rang" in d ==>
              (r.value.showRang <==> d["show_rang"] == Flag(true) || (d["show_rang"].Text? && d["show_rang"].s != ""))
    ensures r.Ok? && d["tsp_user"].Text? ==> r.value.tspUser == d["tsp_user"].s
    ensures r.Ok? && d["tsp_password"].Text? ==> r.value.tspPassword == d["tsp_password"].s
  {
    if "tsp_user" !in d || "tsp_password" !in d then Err(KeyError)
    else
      var showRang := if "show_rang" in d then FieldBool(d["show_rang"]) else true;
      Ok(Profile(FieldStr(d["tsp_user"]), FieldStr(d["tsp_password"]), showRang))
  }

  /** `profile.to_dict()`. */
  function ToDict(p: Profile): (d: Record)
    ensures ProfileOf(d) == Ok(p)
  {
    map["tsp_user" := Text(p.tspUser), "tsp_password" := Text(p.tspPassword), "show_rang" := Flag(p.showRang)]
  }

  /** Reading a record and writing it back keeps both credentials' text and the rank preference;
      only fields the record does not need are dropped or normalised. */
  lemma {:induction false} RecordRoundTrip(d: Record)
    requires ProfileOf(d).Ok?
    ensures ProfileOf(ToDict(ProfileOf(d).value)) == ProfileOf(d)
    ensures ToDict(ProfileOf(d).value).Keys == {"tsp_user", "tsp_password", "show_rang"}
    ensures d["tsp_user"].Text? ==> ToDict(ProfileOf(d).value)["tsp_user"] == d["tsp_user"]
    ensures d["tsp_password"].Text? ==> ToDict(ProfileOf(d).value)["tsp_password"] == d["tsp_password"]
    ensures "show_rang" in d && d["show_rang"].Flag? ==> ToDict(ProfileOf(d).value)["show_rang"] == d["show_rang"]
    ensures "show_rang" !in d ==> ToDict(ProfileOf(d).value)["show_rang"] == Flag(true)
  {
    var p := ProfileOf(d).value;
    assert ToDict(p)["tsp_user"] == Text(p.tspUser);
  }

  /** The key of a member in the store: `str(member.id)`. */
  function Key(memberId: nat): string {
    Decimal(memberId)
  }

  /** A key reads back as its member's id: `int(str(member.id)) == member.id`. */
  lemma KeyParses(memberId: nat)
    ensures ParseInt(Key(memberId)) == Ok(memberId)
  {
    ParseIntOfDecimal(memberId);
  }

  /** Two members never share a key. */
  lemma KeysDistinct(a: nat, b: nat)
    requires a != b
    ensures Key(a) != Key(b)
  {
    DecimalInjective(a, b);
  }

  /** `str(member.id) in profiles`. */
  predicate HasProfileIn(profiles: map<string, Record>, memberId: nat) {
    Key(memberId) in profiles
  }

  /** `Profile(profiles[str(member.id)])`: KeyError for a member without a record or whose
      record lacks a credential. */
  function ProfileIn(profiles: map<string, Record>, memberId: nat): (r: Result<Profile, Error>)
    ensures r.Ok? ==> HasProfileIn(profiles, memberId)
    ensures r.Err? ==> r.error == KeyError
    ensures HasProfileIn(profiles, memberId) ==> r == ProfileOf(profiles[Key(memberId)])
  {
    if Key(memberId) in profiles then ProfileOf(profiles[Key(memberId)]) else Err(KeyError)
  }

  class Storage {
    /** `_profiles`: str(member id) to profile record. */
    var profiles: map<string, Record>

    /** The store as loaded from profiles.json. */
    constructor (loaded: map<string, Record>)
      ensures profiles == loaded
    {
      profiles := loaded;
    }

    /** `has_profile(member)`. */
    predicate HasProfile(memberId: nat)
      reads this
    {
      HasProfileIn(profiles, memberId)
    }

    /** `get_profile(member)`: KeyError for a member without a record or whose record lacks a credential. */
    function GetProfile(memberId: nat): (r: Result<Profile, Error>)
      reads this
      ensures r.Ok? ==> HasProfile(memberId)
      ensures r.Err? ==> r.error == KeyError
      ensures HasProfile(memberId) ==> r == ProfileOf(profiles[Key(memberId)])
    {
      ProfileIn(profiles, memberId)
    }

    /** `save_profile(member, profile)`: overwrites that member's record and no other. */
    method SaveProfile(memberId: nat, p: Profile)
      modifies this
      ensures profiles == old(profiles)[Key(memberId) := ToDict(p)]
      ensures GetProfile(memberId) == Ok(p)
      ensures forall other :: other != memberId ==>
                HasProfile(other) == old(HasProfile(other)) && GetProfile(other) == old(GetProfile(other))
    {
      profiles := profiles[Key(memberId) := ToDict(p)];
      forall other | other != memberId
        ensures Key(other) != Key(memberId)
      {
        KeysDistinct(other, memberId);
      }
    }

    /** `create_profile(member, user, password)`: stores the credentials as text (a missing
        password becomes the text "None") with the rank shown, under that member's key only. */
    method CreateProfile(memberId: nat, tspUser: string, tspPassword: Option<string>)
      modifies this
      ensures profiles == old(profiles)[Key(memberId) := ToDict(Profile(tspUser, PasswordText(tspPassword), true))]
      ensures GetProfile(memberId) == Ok(Profile(tspUser, PasswordText(tspPassword), true))
      ensures forall other :: other != memberId ==>
                HasProfile(other) == old(HasProfile(other)) && GetProfile(other) == old(GetProfile(other))
    {
      var given := map["tsp_user" := Text(tspUser),
                       "tsp_password" := if tspPassword.Some? then Text(tspPassword.value) else Null];
      var p := ProfileOf(given).value;
      assert p == Profile(tspUser, PasswordText(tspPassword), true);
      SaveProfile(memberId, p);
    }
  }

  /** `str(password)` for a password that may be None. */
  function PasswordText(password: Option<string>): (t: string)
    ensures password.Some? ==> t == password.value
    ensures password.None? ==> t == "None"
  {
    if password.Some? then password.value else FieldStr(Null)
  }
}
