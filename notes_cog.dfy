/** The `Notes` cog of cogs/notes.py:89-280: a per-member cache of fetched grade reports
    with a four-hour lifetime, the warm-up that fetches the reports of every member of a
    school's role with a growing delay between retries, and the change detection that
    compares a watched user's report with the previous one.

    The grade portal's reply to each request, the clock and the random delays are
    parameters: a fetch is the reply it gets (a JSON value or the exception the request
    raised), the clock is the number of seconds it reads, and each retry attempt of the
    warm-up is given the random factor it draws. The concurrent tasks of the warm-up are
    run one after the other in member order. */
module NotesCog {
  import opened Wrappers
  import opened Builtins
  import Storage
  import opened Bulletin

  /** Four hours, in seconds. */
  const CacheLifetime: int := 60 * 60 * 4

  /** The school name to the id of its Discord role. */
  const EcoleRoles: map<string, nat> :=
    map["Télécom SudParis" := 673315145421815848,
        "Institut Mines-Télécom Business School" := 673315006259003393]

  /** A cached report and the second (`int(time.time())`) it was fetched. */
  datatype CacheEntry = CacheEntry(creation: int, bulletin: Bulletin)

  /** `is_bulletin_in_cache` on the looked-up entry: there is one, its creation time is not 0
      (falsy), and its lifetime has not run out strictly before now. */
  predicate Fresh(entry: Option<CacheEntry>, now: real) {
    entry.Some? && entry.value.creation != 0 && !((entry.value.creation + CacheLifetime) as real < now)
  }

  /** An entry created at a non-zero second is fresh up to and including four hours later, and
      stale from then on. */
  lemma FreshUntilExpiry(entry: CacheEntry, now: real)
    requires entry.creation != 0
    ensures Fresh(Some(entry), now) <==> now <= (entry.creation + CacheLifetime) as real
    ensures entry.creation as real <= now <= entry.creation as real + 14400.0 ==> Fresh(Some(entry), now)
  {
  }

  /** `get_profile` followed by `get_bulletin_from_api`: the report of the member's profile,
      or the exception of the first of the two that raises. */
  function Fetch(profile: Result<Storage.Profile, Error>, reply: Result<Json, Error>): (r: Result<Bulletin, Error>)
    ensures r.Ok? <==> profile.Ok? && reply.Ok?
    ensures r.Ok? ==> r.value.profile == profile.value && r.value.report == reply.value
    ensures r.Err? ==> r.error == (if profile.Err? then profile.error else reply.error)
  {
    var p :- profile;
    var json :- reply;
    Ok(Bulletin(p, json))
  }

  // ---------------------------------------------------------------------------------------
  // One member's warm-up task: retry until a fetch does not fail with a retried exception
  // ---------------------------------------------------------------------------------------

  /** One attempt of the retry loop: the random factor drawn for its delay, the reply of its
      request and the clock reading that stamps the report it stores. */
  datatype Attempt = Attempt(jitter: int, reply: Result<Json, Error>, time: real)

  /** The exceptions `update_bulletin` catches and retries after. */
  predicate Retryable(e: Error) {
    e == TimeoutError || e == TypeError || e == JSONDecodeError
  }

  /** The outcome of a task: its report is stored, it raised, or it is still retrying when the
      attempts run out (the source retries forever). */
  datatype TaskOutcome = Done(entry: CacheEntry) | Raised(error: Error) | Pending

  /** An attempt that fails with a retried exception. */
  predicate Retries(profile: Result<Storage.Profile, Error>, a: Attempt) {
    var r := Fetch(profile, a.reply);
    r.Err? && Retryable(r.error)
  }

  /** What a task with these attempts ends in. */
  function TaskOutcomeOf(profile: Result<Storage.Profile, Error>, script: seq<Attempt>): TaskOutcome
    decreases |script|
  {
    if script == [] then Pending
    else
      var r := Fetch(profile, script[0].reply);
      if r.Ok? then Done(CacheEntry(Trunc(script[0].time), r.value))
      else if Retryable(r.error) then TaskOutcomeOf(profile, script[1..])
      else Raised(r.error)
  }

  /** How many attempts a task makes. */
  function AttemptsOf(profile: Result<Storage.Profile, Error>, script: seq<Attempt>): (n: nat)
    ensures n <= |script|
    decreases |script|
  {
    if script == [] then 0
    else if Retries(profile, script[0]) then 1 + AttemptsOf(profile, script[1..])
    else 1
  }

  /** A task goes on exactly while its attempts fail with retried exceptions: it is pending
      when all of them do, and otherwise it ends at the first that does not, storing that
      attempt's report or raising its exception. */
  lemma {:induction false} TaskSettlesAtFirst(profile: Result<Storage.Profile, Error>, script: seq<Attempt>)
    ensures var n := AttemptsOf(profile, script);
            forall j :: 0 <= j < n - 1 ==> Retries(profile, script[j])
    ensures TaskOutcomeOf(profile, script).Pending? <==> forall j :: 0 <= j < |script| ==> Retries(profile, script[j])
    ensures TaskOutcomeOf(profile, script).Pending? ==> AttemptsOf(profile, script) == |script|
    ensures !TaskOutcomeOf(profile, script).Pending? ==>
              var n := AttemptsOf(profile, script);
              var r := Fetch(profile, script[n - 1].reply);
              n >= 1 && !Retries(profile, script[n - 1]) &&
              TaskOutcomeOf(profile, script) ==
                (if r.Ok? then Done(CacheEntry(Trunc(script[n - 1].time), r.value)) else Raised(r.error))
    decreases |script|
  {
    if script != [] {
      var rest := script[1..];
      TaskSettlesAtFirst(profile, rest);
      assert forall j :: 0 <= j < |rest| ==> rest[j] == script[j + 1];
      if Retries(profile, script[0]) {
        forall j | 0 <= j < |script| && (forall k :: 0 <= k < |rest| ==> Retries(profile, rest[k]))
          ensures Retries(profile, script[j])
        {
          if j > 0 {
            assert script[j] == rest[j - 1];
          }
        }
      }
    }
  }

  /** A member without a usable profile is never retried: its task raises KeyError at once. */
  lemma NoProfileRaisesAtOnce(profile: Result<Storage.Profile, Error>, script: seq<Attempt>)
    requires profile.Err? && profile.error == KeyError && script != []
    ensures TaskOutcomeOf(profile, script) == Raised(KeyError)
    ensures AttemptsOf(profile, script) == 1
  {
  }

  /** The delays of the first n attempts: the k-th (from 0) waits its random factor times k + 1. */
  predicate DelaysGrow(sleeps: seq<int>, script: seq<Attempt>) {
    |sleeps| <= |script| && forall k :: 0 <= k < |sleeps| ==> sleeps[k] == script[k].jitter * (k + 1)
  }

  /** With factors drawn from [5, 20], attempt k + 1 sleeps between 5(k + 1) and 20(k + 1) seconds. */
  lemma DelayBounds(sleeps: seq<int>, script: seq<Attempt>)
    requires DelaysGrow(sleeps, script)
    requires forall k :: 0 <= k < |script| ==> 5 <= script[k].jitter <= 20
    ensures forall k :: 0 <= k < |sleeps| ==> 5 * (k + 1) <= sleeps[k] <= 20 * (k + 1)
  {
    forall k | 0 <= k < |sleeps|
      ensures 5 * (k + 1) <= sleeps[k] <= 20 * (k + 1)
    {
      var j := script[k].jitter;
      assert sleeps[k] == j * (k + 1);
      assert 5 * (k + 1) <= j * (k + 1) <= 20 * (k + 1);
    }
  }

  /** The cache after a task: a finished task stores its own entry under its member, and a
      task that raised or is still retrying leaves the cache as it was. */
  function Apply(cache: map<nat, CacheEntry>, memberId: nat, outcome: TaskOutcome): (c: map<nat, CacheEntry>)
    ensures c.Keys == cache.Keys + (if outcome.Done? then {memberId} else {})
    ensures forall m :: m in cache && m != memberId ==> c[m] == cache[m]
    ensures outcome.Done? ==> c[memberId] == outcome.entry
    ensures !outcome.Done? ==> c == cache
  {
    if outcome.Done? then cache[memberId := outcome.entry] else cache
  }

  // ---------------------------------------------------------------------------------------
  // The warm-up of a role: `asyncio.gather` over one task per member
  // ---------------------------------------------------------------------------------------

  /** What `cache_notes_for_role` ends in: the number of tasks once every task is done; the
      exception of a task that raised, which gather passes on; still waiting while a task retries. */
  datatype WarmOutcome = Warmed(count: nat) | WarmRaised(error: Error) | WarmPending

  /** gather's outcome once one more task is added: an exception wins over waiting. */
  function Combine(acc: WarmOutcome, o: TaskOutcome): (r: WarmOutcome)
    ensures acc.WarmRaised? ==> r == acc
    ensures r.WarmRaised? <==> acc.WarmRaised? || o.Raised?
    ensures r.Warmed? <==> acc.Warmed? && o.Done?
    ensures r.Warmed? ==> r.count == acc.count + 1
  {
    match acc
    case WarmRaised(e) => acc
    case Warmed(c) =>
      (match o
       case Done(_) => Warmed(c + 1)
       case Raised(e) => WarmRaised(e)
       case Pending => WarmPending)
    case WarmPending => if o.Raised? then WarmRaised(o.error) else WarmPending
  }

  /** A map from a member to its attempts; a member it does not mention makes none. */
  function ScriptFor(scripts: map<nat, seq<Attempt>>, memberId: nat): seq<Attempt> {
    if memberId in scripts then scripts[memberId] else []
  }

  /** The two guilds' roles the bot reads: a role and its members. */
  datatype Role = Role(id: nat, members: seq<nat>)

  /** A guild: its id, which is also the id of its default role, and the members of each role. */
  datatype Guild = Guild(id: nat, roles: map<nat, seq<nat>>)

  /** `guild.get_role(id)`. */
  function GetRole(g: Guild, id: nat): Option<Role> {
    if id in g.roles then Some(Role(id, g.roles[id])) else None
  }

  /** `guild.default_role`. */
  function DefaultRole(g: Guild): Role {
    Role(g.id, if g.id in g.roles then g.roles[g.id] else [])
  }

  /** `role.is_default()`. */
  predicate IsDefault(g: Guild, r: Role) {
    r.id == g.id
  }

  /** `self.ecole_roles[school]`: a text key is looked up (KeyError when absent); a list or a
      dict is not hashable (TypeError); any other value is simply not a key. */
  function SchoolRoleId(school: Json): (r: Result<nat, Error>)
    ensures r.Ok? <==> school.JStr? && school.s in EcoleRoles
    ensures r.Ok? ==> r.value == EcoleRoles[school.s]
    ensures r.Err? ==> r.error == (if school.JList? || school.JObj? then TypeError else KeyError)
  {
    match school
    case JStr(s) => if s in EcoleRoles then Ok(EcoleRoles[s]) else Err(KeyError)
    case JList(_) => Err(TypeError)
    case JObj(_) => Err(TypeError)
    case _ => Err(KeyError)
  }

  /** The role to alert: the school's role, or the default role when the guild has none with that id. */
  function AlertRole(g: Guild, roleId: nat): (r: Role)
    ensures GetRole(g, roleId).Some? ==> r.id == roleId && r == GetRole(g, roleId).value
    ensures GetRole(g, roleId).None? ==> r == DefaultRole(g)
    ensures IsDefault(g, r) <==> GetRole(g, roleId).None? || roleId == g.id
  {
    match GetRole(g, roleId)
    case Some(role) => role
    case None => DefaultRole(g)
  }

  /** The profile store's contents: `str(member id)` to profile record. */
  type Store = map<string, Storage.Record>

  /** The members of a role the warm-up fetches, in order: those with a profile that are
      not excepted. */
  function WarmTargets(store: Store, members: seq<nat>, exceptions: seq<nat>): seq<nat>
    decreases |members|
  {
    if members == [] then []
    else
      var m := members[|members| - 1];
      WarmTargets(store, members[..|members| - 1], exceptions) + (if Storage.HasProfileIn(store, m) && m !in exceptions then [m] else [])
  }

  /** A member is fetched exactly when it is in the role, has a profile and is not excepted. */
  lemma {:induction false} WarmTargetsMembers(store: Store, members: seq<nat>, exceptions: seq<nat>)
    ensures forall m :: m in WarmTargets(store, members, exceptions) <==> m in members && Storage.HasProfileIn(store, m) && m !in exceptions
    ensures |WarmTargets(store, members, exceptions)| <= |members|
    decreases |members|
  {
    if members != [] {
      var front := members[..|members| - 1];
      var last := members[|members| - 1];
      assert members == front + [last];
      WarmTargetsMembers(store, front, exceptions);
      var found := WarmTargets(store, members, exceptions);
      assert found == WarmTargets(store, front, exceptions) + (if Storage.HasProfileIn(store, last) && last !in exceptions then [last] else []);
    }
  }

  /** The warm-up keeps the role's order: filtering two stretches of members one after the
      other is filtering them together. */
  lemma {:induction false} WarmTargetsAppend(store: Store, a: seq<nat>, b: seq<nat>, exceptions: seq<nat>)
    ensures WarmTargets(store, a + b, exceptions) == WarmTargets(store, a, exceptions) + WarmTargets(store, b, exceptions)
    decreases |b|
  {
    if b == [] {
      assert a + b == a;
    } else {
      var front, last := b[..|b| - 1], b[|b| - 1];
      var ab := a + b;
      assert ab[..|ab| - 1] == a + front && ab[|ab| - 1] == last;
      WarmTargetsAppend(store, a, front, exceptions);
      var tail := if Storage.HasProfileIn(store, last) && last !in exceptions then [last] else [];
      assert WarmTargets(store, ab, exceptions) == WarmTargets(store, a + front, exceptions) + tail;
      assert WarmTargets(store, b, exceptions) == WarmTargets(store, front, exceptions) + tail;
    }
  }

  /** The outcome of the task for member t. */
  function OutcomeFor(store: Store, scripts: map<nat, seq<Attempt>>, t: nat): TaskOutcome {
    TaskOutcomeOf(Storage.ProfileIn(store, t), ScriptFor(scripts, t))
  }

  /** What the tasks for these members end in together. */
  function WarmResult(store: Store, targets: seq<nat>, scripts: map<nat, seq<Attempt>>): WarmOutcome
    decreases |targets|
  {
    if targets == [] then Warmed(0)
    else
      var t := targets[|targets| - 1];
      Combine(WarmResult(store, targets[..|targets| - 1], scripts), OutcomeFor(store, scripts, t))
  }

  /** The cache once the tasks for these members are over. */
  function WarmCache(store: Store, cache: map<nat, CacheEntry>, targets: seq<nat>, scripts: map<nat, seq<Attempt>>): map<nat, CacheEntry>
    decreases |targets|
  {
    if targets == [] then cache
    else
      var t := targets[|targets| - 1];
      Apply(WarmCache(store, cache, targets[..|targets| - 1], scripts), t, OutcomeFor(store, scripts, t))
  }

  /** The warm-up returns a count exactly when every task stored a report, and the count is
      then the number of members it fetched for. */
  lemma {:induction false} WarmedExactly(store: Store, targets: seq<nat>, scripts: map<nat, seq<Attempt>>)
    ensures WarmResult(store, targets, scripts).Warmed? <==>
              forall i :: 0 <= i < |targets| ==> OutcomeFor(store, scripts, targets[i]).Done?
    ensures WarmResult(store, targets, scripts).Warmed? ==> WarmResult(store, targets, scripts).count == |targets|
    decreases |targets|
  {
    if targets != [] {
      var front, t := targets[..|targets| - 1], targets[|targets| - 1];
      WarmedExactly(store, front, scripts);
      var o := OutcomeFor(store, scripts, t);
      var acc := WarmResult(store, front, scripts);
      assert WarmResult(store, targets, scripts) == Combine(acc, o);
      var allDone := forall i :: 0 <= i < |targets| ==> OutcomeFor(store, scripts, targets[i]).Done?;
      var frontDone := forall i :: 0 <= i < |front| ==> OutcomeFor(store, scripts, front[i]).Done?;
      if allDone {
        forall i | 0 <= i < |front|
          ensures OutcomeFor(store, scripts, front[i]).Done?
        {
          assert front[i] == targets[i];
        }
        assert targets[|targets| - 1] == t;
      }
      if frontDone && o.Done? {
        forall i | 0 <= i < |targets|
          ensures OutcomeFor(store, scripts, targets[i]).Done?
        {
          if i < |front| {
            assert targets[i] == front[i];
          }
        }
      }
    }
  }

  /** The warm-up raises exactly when one of its tasks raised. */
  lemma {:induction false} RaisesExactly(store: Store, targets: seq<nat>, scripts: map<nat, seq<Attempt>>)
    ensures WarmResult(store, targets, scripts).WarmRaised? <==>
              exists i :: 0 <= i < |targets| && OutcomeFor(store, scripts, targets[i]).Raised?
    decreases |targets|
  {
    if targets != [] {
      var last := |targets| - 1;
      var front := targets[..last];
      RaisesExactly(store, front, scripts);
      var o := OutcomeFor(store, scripts, targets[last]);
      var acc := WarmResult(store, front, scripts);
      assert WarmResult(store, targets, scripts) == Combine(acc, o);
      if o.Raised? {
        assert 0 <= last < |targets| && OutcomeFor(store, scripts, targets[last]).Raised?;
      } else if acc.WarmRaised? {
        var i :| 0 <= i < |front| && OutcomeFor(store, scripts, front[i]).Raised?;
        assert front[i] == targets[i];
      } else {
        forall i | 0 <= i < |targets|
          ensures !OutcomeFor(store, scripts, targets[i]).Raised?
        {
          if i < last {
            assert front[i] == targets[i];
          }
        }
      }
    }
  }

  /** Every member the warm-up fetched for whose task stored a report now has the entry its
      task stored; the entries of the other members, fetched for or not, are untouched. */
  lemma {:induction false} WarmCacheSpec(store: Store, cache: map<nat, CacheEntry>, targets: seq<nat>, scripts: map<nat, seq<Attempt>>)
    ensures forall m :: m in targets && OutcomeFor(store, scripts, m).Done? ==>
              m in WarmCache(store, cache, targets, scripts) && WarmCache(store, cache, targets, scripts)[m] == OutcomeFor(store, scripts, m).entry
    ensures forall m :: m in cache && (m !in targets || !OutcomeFor(store, scripts, m).Done?) ==>
              m in WarmCache(store, cache, targets, scripts) && WarmCache(store, cache, targets, scripts)[m] == cache[m]
    ensures WarmCache(store, cache, targets, scripts).Keys == cache.Keys + set m | m in targets && OutcomeFor(store, scripts, m).Done?
    decreases |targets|
  {
    if targets != [] {
      var front, t := targets[..|targets| - 1], targets[|targets| - 1];
      WarmCacheSpec(store, cache, front, scripts);
      assert targets == front + [t];
      assert forall m :: m in targets <==> m in front || m == t;
      var before := WarmCache(store, cache, front, scripts);
      assert WarmCache(store, cache, targets, scripts) == Apply(before, t, OutcomeFor(store, scripts, t));
    }
  }

  // ---------------------------------------------------------------------------------------
  // Change detection: `notify_notes_user`
  // ---------------------------------------------------------------------------------------

  /** `f"{n['code']} - {n['nom']}"`. */
  function Label(n: Note): string {
    n.code + " - " + n.name
  }

  /** The labels of the entries with a truthy grade. */
  function GradedLabels(ns: seq<Note>): set<string> {
    set n | n in ns && Graded(n.grade) :: Label(n)
  }

  function SymmetricDifference(a: set<string>, b: set<string>): (d: set<string>)
    ensures forall x :: x in d <==> (x in a) != (x in b)
  {
    (a - b) + (b - a)
  }

  /** A difference between the stored report and the new one: both counts and the labels
      that are in one but not both. */
  datatype Change = Change(oldCount: nat, newCount: nat, labels: set<string>)

  /** Comparing the counts, then (when they differ) the labels of the graded courses. */
  function CompareBulletins(previous: Bulletin, current: Bulletin): (r: Result<Option<Change>, Error>)
    ensures r.Ok? <==> NotesCountOf(previous).Ok? && NotesCountOf(current).Ok?
    ensures r.Ok? ==> (r.value.None? <==> NotesCountOf(previous).value == NotesCountOf(current).value)
    ensures r.Ok? && r.value.Some? ==>
              r.value.value.oldCount == NotesCountOf(previous).value &&
              r.value.value.newCount == NotesCountOf(current).value &&
              r.value.value.labels == SymmetricDifference(GradedLabels(NotesOf(current, false).value),
                                                          GradedLabels(NotesOf(previous, false).value))
  {
    var oldCount :- NotesCountOf(previous);
    var newCount :- NotesCountOf(current);
    if oldCount == newCount then Ok(None)
    else
      var oldNotes := GradedLabels(NotesOf(previous, false).value);
      var newNotes := GradedLabels(NotesOf(current, false).value);
      Ok(Some(Change(oldCount, newCount, SymmetricDifference(newNotes, oldNotes))))
  }

  /** What the change leads to: which role is alerted, whether it is an addition, and whether
      the role's members are warmed up. */
  datatype Plan = Plan(change: Change, school: Json, role: Role, addition: bool, warm: bool)

  /** Lines 147-165 once the counts are known: the report's school and that school's role
      (raising when the school is not one of the two), the kind of change and the warm-up
      decision. */
  function PlanFor(g: Guild, current: Bulletin, change: Change): (r: Result<Plan, Error>)
    ensures r.Ok? ==> r.value.change == change
    ensures r.Ok? ==> (r.value.addition <==> change.oldCount < change.newCount)
    ensures r.Ok? ==> (r.value.warm <==> r.value.addition && !IsDefault(g, r.value.role))
    ensures r.Ok? <==> School(current).Ok? && SchoolRoleId(School(current).value).Ok?
    ensures r.Ok? ==> r.value.school == School(current).value &&
                      r.value.role == AlertRole(g, SchoolRoleId(School(current).value).value)
  {
    var school :- School(current);
    var roleId :- SchoolRoleId(school);
    var role := AlertRole(g, roleId);
    var addition := change.oldCount < change.newCount;
    Ok(Plan(change, school, role, addition, addition && !IsDefault(g, role)))
  }

  /** What the alert channel is told. */
  datatype Notice =
    | Unchanged
    | Added(oldCount: nat, newCount: nat, role: Role, school: Json, labels: set<string>, cached: nat)
    | Removed(oldCount: nat, newCount: nat, school: Json, labels: set<string>)

  /** The outcome of `notify_notes_user`. */
  datatype NotifyOutcome = Notified(notice: Notice) | NotifyRaised(error: Error) | NotifyPending

  /** The notice sent for a plan, given how many reports were warmed. */
  function NoticeOf(plan: Plan, cached: nat): Notice {
    var ch := plan.change;
    if plan.addition then Added(ch.oldCount, ch.newCount, plan.role, plan.school, ch.labels, cached)
    else Removed(ch.oldCount, ch.newCount, plan.school, ch.labels)
  }

  /** The number of reports reported as cached: the warm-up's count, or 0 when it raised. */
  function CachedCount(w: WarmOutcome): nat {
    if w.Warmed? then w.count else 0
  }

  /** The cog: its cache of reports, the watched users' last reports and the profile store. */
  class Notes {
    /** `self.bulletins`: member id to cache entry. */
    var bulletins: map<nat, CacheEntry>
    /** `self.refresh_users`: watched user to the report last compared. */
    var refreshUsers: map<nat, Bulletin>
    /** `self.bot.db`. */
    const db: Storage.Storage

    constructor (store: Storage.Storage)
      ensures bulletins == map[] && refreshUsers == map[] && db == store
    {
      bulletins := map[];
      refreshUsers := map[];
      db := store;
    }

    /** `get_bulletin_from_cache(member)`. */
    function Cached(memberId: nat): (r: Option<CacheEntry>)
      reads this
      ensures r.Some? <==> memberId in bulletins
      ensures r.Some? ==> r.value == bulletins[memberId]
    {
      if memberId in bulletins then Some(bulletins[memberId]) else None
    }

    /** `is_bulletin_in_cache(member)` at clock reading now. */
    predicate IsBulletinInCache(memberId: nat, now: real)
      reads this
    {
      Fresh(Cached(memberId), now)
    }

    /** `get_bulletin(member, force_refresh)`: the clock reads now for the freshness check and
        fetchedAt for the stamp, and the portal answers reply. */
    method GetBulletin(memberId: nat, forceRefresh: bool, now: real, reply: Result<Json, Error>, fetchedAt: real)
      returns (r: Result<Bulletin, Error>)
      modifies this
      ensures !forceRefresh && old(IsBulletinInCache(memberId, now)) ==>
                r == Ok(old(bulletins)[memberId].bulletin) && bulletins == old(bulletins)
      ensures forceRefresh || !old(IsBulletinInCache(memberId, now)) ==>
                r == Fetch(db.GetProfile(memberId), reply) &&
                bulletins == (if r.Ok? then old(bulletins)[memberId := CacheEntry(Trunc(fetchedAt), r.value)]
                              else old(bulletins))
      ensures refreshUsers == old(refreshUsers)
    {
      if !forceRefresh && IsBulletinInCache(memberId, now) {
        return Ok(bulletins[memberId].bulletin);
      }
      r := Fetch(db.GetProfile(memberId), reply);
      if r.Ok? {
        bulletins := bulletins[memberId := CacheEntry(Trunc(fetchedAt), r.value)];
      }
    }

    /** `refresh`: evicts the member's entry, KeyError when there is none. */
    method Refresh(memberId: nat) returns (r: Result<(), Error>)
      modifies this
      ensures r.Ok? <==> memberId in old(bulletins)
      ensures r.Err? ==> r.error == KeyError
      ensures bulletins == old(bulletins) - {memberId}
      ensures refreshUsers == old(refreshUsers)
      ensures forall now :: !IsBulletinInCache(memberId, now)
    {
      if memberId !in bulletins {
        return Err(KeyError);
      }
      bulletins := bulletins - {memberId};
      return Ok(());
    }

    /** Lines 107-111: the loop that selects the members to fetch. */
    method MembersToWarm(members: seq<nat>, exceptions: seq<nat>) returns (targets: seq<nat>)
      ensures targets == WarmTargets(db.profiles, members, exceptions)
    {
      targets := [];
      var i := 0;
      while i < |members|
        invariant 0 <= i <= |members|
        invariant targets == WarmTargets(db.profiles, members[..i], exceptions)
      {
        assert members[..i + 1][..i] == members[..i];
        if db.HasProfile(members[i]) && members[i] !in exceptions {
          targets := targets + [members[i]];
        }
        i := i + 1;
      }
      assert members[..i] == members;
    }

    /** `update_bulletin(user)`: retry a forced fetch, sleeping the drawn factor times `backoff`
        before each attempt, with `backoff` starting at 1 and growing by 1 after each retried
        exception. Returns the outcome and the delays slept. */
    method UpdateBulletin(memberId: nat, script: seq<Attempt>) returns (outcome: TaskOutcome, sleeps: seq<int>)
      modifies this
      ensures outcome == TaskOutcomeOf(db.GetProfile(memberId), script)
      ensures |sleeps| == AttemptsOf(db.GetProfile(memberId), script) && DelaysGrow(sleeps, script)
      ensures bulletins == Apply(old(bulletins), memberId, outcome)
      ensures refreshUsers == old(refreshUsers)
    {
      var profile := db.GetProfile(memberId);
      var backoff := 1;
      sleeps := [];
      var i := 0;
      while i < |script|
        invariant 0 <= i <= |script|
        invariant backoff == i + 1
        invariant |sleeps| == i && DelaysGrow(sleeps, script)
        invariant TaskOutcomeOf(profile, script) == TaskOutcomeOf(profile, script[i..])
        invariant AttemptsOf(profile, script) == i + AttemptsOf(profile, script[i..])
        invariant bulletins == old(bulletins) && refreshUsers == old(refreshUsers)
      {
        var a := script[i];
        sleeps := sleeps + [a.jitter * backoff];
        var r := GetBulletin(memberId, true, a.time, a.reply, a.time);
        if r.Ok? {
          outcome := Done(CacheEntry(Trunc(a.time), r.value));
          return;
        }
        if !Retryable(r.error) {
          outcome := Raised(r.error);
          return;
        }
        backoff := backoff + 1;
        assert script[i..][1..] == script[i + 1..];
        i := i + 1;
      }
      outcome := Pending;
    }

    /** `cache_notes_for_role(role, exceptions)`: select the members, run one task each, and
        return how many were started once all are done. */
    method CacheNotesForRole(members: seq<nat>, exceptions: seq<nat>, scripts: map<nat, seq<Attempt>>)
      returns (r: WarmOutcome)
      modifies this
      ensures r == WarmResult(db.profiles, WarmTargets(db.profiles, members, exceptions), scripts)
      ensures bulletins == WarmCache(db.profiles, old(bulletins), WarmTargets(db.profiles, members, exceptions), scripts)
      ensures refreshUsers == old(refreshUsers)
    {
      var targets := MembersToWarm(members, exceptions);
      r := Warmed(0);
      var i := 0;
      while i < |targets|
        invariant 0 <= i <= |targets|
        invariant r == WarmResult(db.profiles, targets[..i], scripts)
        invariant bulletins == WarmCache(db.profiles, old(bulletins), targets[..i], scripts)
        invariant refreshUsers == old(refreshUsers)
      {
        var t := targets[i];
        var outcome, _ := UpdateBulletin(t, ScriptFor(scripts, t));
        assert targets[..i + 1][..i] == targets[..i];
        r := Combine(r, outcome);
        i := i + 1;
      }
      assert targets[..i] == targets;
    }

    /** `notify_notes_user(user)`: fetch the user's report afresh, compare it with the one last
        compared, and on a change in the count alert the school's role, warming up its other
        members on an addition. The portal answers reply to the user's own fetch and the
        warm-up attempts are scripts. */
    method NotifyNotesUser(user: nat, guild: Guild, reply: Result<Json, Error>, fetchedAt: real,
                           scripts: map<nat, seq<Attempt>>)
      returns (r: NotifyOutcome)
      modifies this
      ensures var fetched := Fetch(db.GetProfile(user), reply);
              var afterFetch := if fetched.Ok? then old(bulletins)[user := CacheEntry(Trunc(fetchedAt), fetched.value)]
                                else old(bulletins);
              if fetched.Err? then
                r == NotifyRaised(fetched.error) && bulletins == afterFetch && refreshUsers == old(refreshUsers)
              else if user !in old(refreshUsers) then
                r == NotifyRaised(KeyError) && bulletins == afterFetch && refreshUsers == old(refreshUsers)
              else
                var compared := CompareBulletins(old(refreshUsers)[user], fetched.value);
                if compared.Err? then
                  r == NotifyRaised(compared.error) && bulletins == afterFetch && refreshUsers == old(refreshUsers)
                else if compared.value.None? then
                  r == Notified(Unchanged) && bulletins == afterFetch && refreshUsers == old(refreshUsers)
                else
                  var plan := PlanFor(guild, fetched.value, compared.value.value);
                  if plan.Err? then
                    r == NotifyRaised(plan.error) && bulletins == afterFetch && refreshUsers == old(refreshUsers)
                  else if !plan.value.warm then
                    r == Notified(NoticeOf(plan.value, 0)) && bulletins == afterFetch &&
                    refreshUsers == old(refreshUsers)[user := fetched.value]
                  else
                    var targets := WarmTargets(db.profiles, plan.value.role.members, [user]);
                    var warmed := WarmResult(db.profiles, targets, scripts);
                    bulletins == WarmCache(db.profiles, afterFetch, targets, scripts) &&
                    if warmed.WarmPending? then
                      r == NotifyPending && refreshUsers == old(refreshUsers)
                    else
                      r == Notified(NoticeOf(plan.value, CachedCount(warmed))) &&
                      refreshUsers == old(refreshUsers)[user := fetched.value]
    {
      var current := GetBulletin(user, true, fetchedAt, reply, fetchedAt);
      if current.Err? {
        return NotifyRaised(current.error);
      }
      if user !in refreshUsers {
        return NotifyRaised(KeyError);
      }
      var previous := refreshUsers[user];
      var compared := CompareBulletins(previous, current.value);
      if compared.Err? {
        return NotifyRaised(compared.error);
      }
      if compared.value.None? {
        return Notified(Unchanged);
      }
      var plan := PlanFor(guild, current.value, compared.value.value);
      if plan.Err? {
        return NotifyRaised(plan.error);
      }
      var n := 0;
      if plan.value.warm {
        var warmed := CacheNotesForRole(plan.value.role.members, [user], scripts);
        if warmed.WarmPending? {
          return NotifyPending;
        }
        n := CachedCount(warmed);
      }
      refreshUsers := refreshUsers[user := current.value];
      return Notified(NoticeOf(plan.value, n));
    }
  }

  // ---------------------------------------------------------------------------------------
  // What the alert reports, on the course lists themselves
  // ---------------------------------------------------------------------------------------

  /** A graded course whose label is new adds one to the count and is the whole difference. */
  lemma AddedCourseIsReported(ns: seq<Note>, n: Note)
    requires Graded(n.grade) && Label(n) !in GradedLabels(ns)
    ensures CountGraded(ns + [n]) == CountGraded(ns) + 1
    ensures SymmetricDifference(GradedLabels(ns + [n]), GradedLabels(ns)) == {Label(n)}
  {
    assert (ns + [n])[..|ns|] == ns;
    assert GradedLabels(ns + [n]) == GradedLabels(ns) + {Label(n)};
  }

  /** Removing that course again is a removal with the same difference. */
  lemma RemovedCourseIsReported(ns: seq<Note>, n: Note)
    requires Graded(n.grade) && Label(n) !in GradedLabels(ns)
    ensures CountGraded(ns) < CountGraded(ns + [n])
    ensures SymmetricDifference(GradedLabels(ns), GradedLabels(ns + [n])) == {Label(n)}
  {
    AddedCourseIsReported(ns, n);
  }

  /** Replacing one graded course by another keeps the count, so nothing is reported even
      though the labels differ. */
  lemma SwapIsSilent(ns: seq<Note>, a: Note, b: Note)
    requires Graded(a.grade) && Graded(b.grade)
    ensures CountGraded(ns + [a]) == CountGraded(ns + [b])
  {
    assert (ns + [a])[..|ns|] == ns;
    assert (ns + [b])[..|ns|] == ns;
  }
}
