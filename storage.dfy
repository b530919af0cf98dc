/** The in-memory store of server/storage.ts: applications by id, open/closed
    settings by application type, and admin sessions by session id, each a `Map`
    updated in place. `randomUUID()` and `new Date()` are parameters: a fresh id and
    the clock reading, in milliseconds. */
module Storage {
  import opened Wrappers
  import opened Schema

  /** Ordered by `createdAt`, newest first. */
  predicate NewestFirst(apps: seq<Application>) {
    forall i, j :: 0 <= i < j < |apps| ==> apps[i].createdAt >= apps[j].createdAt
  }

  /** Puts `a` in front of the first record that is not newer than it. */
  function InsertNewestFirst(a: Application, sorted: seq<Application>): (r: seq<Application>)
    ensures |r| == |sorted| + 1
  {
    if sorted == [] || a.createdAt >= sorted[0].createdAt then [a] + sorted
    else [sorted[0]] + InsertNewestFirst(a, sorted[1..])
  }

  /** `sort((a, b) => b.createdAt.getTime() - a.createdAt.getTime())`: a stable sort,
      newest first, records with equal `createdAt` keeping their order. */
  function SortNewestFirst(apps: seq<Application>): (r: seq<Application>)
    ensures |r| == |apps|
  {
    if apps == [] then [] else InsertNewestFirst(apps[0], SortNewestFirst(apps[1..]))
  }

  lemma {:induction false} InsertNewestFirstCounts(a: Application, sorted: seq<Application>)
    ensures multiset(InsertNewestFirst(a, sorted)) == multiset(sorted) + multiset{a}
    decreases |sorted|
  {
    if sorted != [] && a.createdAt < sorted[0].createdAt {
      InsertNewestFirstCounts(a, sorted[1..]);
      assert sorted == [sorted[0]] + sorted[1..];
    }
  }

  /** No record of the insertion is newer than a bound that `a` and `sorted` respect. */
  lemma {:induction false} InsertNewestFirstBounded(a: Application, sorted: seq<Application>, bound: int)
    requires a.createdAt <= bound
    requires forall k :: 0 <= k < |sorted| ==> sorted[k].createdAt <= bound
    ensures forall k :: 0 <= k < |sorted| + 1 ==> InsertNewestFirst(a, sorted)[k].createdAt <= bound
    decreases |sorted|
  {
    if sorted != [] && a.createdAt < sorted[0].createdAt {
      InsertNewestFirstBounded(a, sorted[1..], bound);
    }
  }

  /** Inserting into a newest-first list keeps it newest first. */
  lemma {:induction false} InsertNewestFirstSorted(a: Application, sorted: seq<Application>)
    requires NewestFirst(sorted)
    ensures NewestFirst(InsertNewestFirst(a, sorted))
    decreases |sorted|
  {
    if sorted != [] && a.createdAt < sorted[0].createdAt {
      var rest := InsertNewestFirst(a, sorted[1..]);
      InsertNewestFirstSorted(a, sorted[1..]);
      InsertNewestFirstBounded(a, sorted[1..], sorted[0].createdAt);
      assert InsertNewestFirst(a, sorted) == [sorted[0]] + rest;
    }
  }

  /** The listing is ordered newest first. */
  lemma {:induction false} SortNewestFirstSorted(apps: seq<Application>)
    ensures NewestFirst(SortNewestFirst(apps))
    decreases |apps|
  {
    if apps != [] {
      SortNewestFirstSorted(apps[1..]);
      InsertNewestFirstSorted(apps[0], SortNewestFirst(apps[1..]));
    }
  }

  /** The listing holds exactly the records it was given, each as often. */
  lemma {:induction false} SortNewestFirstPermutes(apps: seq<Application>)
    ensures multiset(SortNewestFirst(apps)) == multiset(apps)
    decreases |apps|
  {
    if apps != [] {
      SortNewestFirstPermutes(apps[1..]);
      InsertNewestFirstCounts(apps[0], SortNewestFirst(apps[1..]));
      assert apps == [apps[0]] + apps[1..];
    }
  }

  /** The records created at `t`, in their order in `apps`. */
  function CreatedAt(apps: seq<Application>, t: int): seq<Application> {
    if apps == [] then []
    else (if apps[0].createdAt == t then [apps[0]] else []) + CreatedAt(apps[1..], t)
  }

  lemma {:induction false} InsertNewestFirstStable(a: Application, sorted: seq<Application>, t: int)
    ensures CreatedAt(InsertNewestFirst(a, sorted), t)
         == (if a.createdAt == t then [a] else []) + CreatedAt(sorted, t)
    decreases |sorted|
  {
    if sorted != [] && a.createdAt < sorted[0].createdAt {
      InsertNewestFirstStable(a, sorted[1..], t);
      var r := InsertNewestFirst(a, sorted);
      assert r[0] == sorted[0] && r[1..] == InsertNewestFirst(a, sorted[1..]);
    }
  }

  /** The sort is stable: records created at the same time keep their input order. */
  lemma {:induction false} SortNewestFirstStable(apps: seq<Application>, t: int)
    ensures CreatedAt(SortNewestFirst(apps), t) == CreatedAt(apps, t)
    decreases |apps|
  {
    if apps != [] {
      SortNewestFirstStable(apps[1..], t);
      InsertNewestFirstStable(apps[0], SortNewestFirst(apps[1..]), t);
    }
  }

  /** `updateApplicationStatus` on one record: status, reviewer and `updatedAt` are set
      in place. */
  function Reviewed(a: Application, status: Status, reviewedBy: string, now: int): (r: Application)
    ensures r.status == status && r.reviewedBy == Some(reviewedBy) && r.updatedAt == now
    ensures r.id == a.id && r.applicationType == a.applicationType && r.formData == a.formData
    ensures r.discordUsername == a.discordUsername && r.discordUserId == a.discordUserId
    ensures r.createdAt == a.createdAt
  {
    a.(status := status, reviewedBy := Some(reviewedBy), updatedAt := now)
  }

  /** Nothing guards against a second review: the last one wins. */
  lemma ReviewedTwice(a: Application, s1: Status, b1: string, t1: int, s2: Status, b2: string, t2: int)
    ensures Reviewed(Reviewed(a, s1, b1, t1), s2, b2, t2) == Reviewed(a, s2, b2, t2)
  {
  }

  /** The sessions that a sweep at time `now` keeps. */
  function Unexpired(sessions: map<string, AdminSession>, now: int): (r: map<string, AdminSession>)
    ensures forall k :: k in r <==> k in sessions && sessions[k].expiresAt >= now
    ensures forall k :: k in r ==> r[k] == sessions[k]
  {
    map k | k in sessions && sessions[k].expiresAt >= now :: sessions[k]
  }

  /** Two sweeps do what the later one alone does. */
  lemma UnexpiredTwice(sessions: map<string, AdminSession>, now: int, later: int)
    requires now <= later
    ensures Unexpired(Unexpired(sessions, now), later) == Unexpired(sessions, later)
  {
  }

  class InMemoryStorage {
    var applications: map<string, Application>
    /** The keys of `applications` in the order they were first set, the order in
        which a `Map` yields its values. */
    var order: seq<string>
    var applicationSettings: map<string, ApplicationSettings>
    var adminSessions: map<string, AdminSession>

    /** Every record sits under its own id, type or session id, and `order` lists each
        application id once. */
    predicate Valid()
      reads this
    {
      && (forall id :: id in applications ==> applications[id].id == id)
      && (forall i :: 0 <= i < |order| ==> order[i] in applications)
      && (forall id :: id in applications ==> id in order)
      && (forall i, j :: 0 <= i < j < |order| ==> order[i] != order[j])
      && (forall t :: t in applicationSettings ==> applicationSettings[t].applicationType == t)
      && (forall s :: s in adminSessions ==> adminSessions[s].sessionId == s)
    }

    constructor()
      ensures Valid()
      ensures applications == map[] && order == []
      ensures applicationSettings == map[] && adminSessions == map[]
    {
      applications := map[];
      order := [];
      applicationSettings := map[];
      adminSessions := map[];
    }

    /** `createApplication`: the input's fields, then a fresh id, status `pending`, no
        reviewer, and two clock readings; the input's own `status` is overridden. */
    method CreateApplication(insert: InsertApplication, id: string, createdAt: int, updatedAt: int)
      returns (a: Application)
      requires Valid()
      requires id !in applications
      requires createdAt <= updatedAt
      modifies this
      ensures Valid()
      ensures a.id == id && a.status == Pending && a.reviewedBy == None
      ensures a.applicationType == insert.applicationType && a.discordUsername == insert.discordUsername
      ensures a.discordUserId == insert.discordUserId && a.formData == insert.formData
      ensures a.createdAt == createdAt && a.updatedAt == updatedAt && a.createdAt <= a.updatedAt
      ensures applications == old(applications)[id := a]
      ensures order == old(order) + [id]
      ensures applicationSettings == old(applicationSettings) && adminSessions == old(adminSessions)
      ensures GetApplicationById(id) == Some(a)
    {
      a := Application(id, insert.applicationType, insert.discordUsername, insert.discordUserId,
                       insert.formData, Pending, None, createdAt, updatedAt);
      applications := applications[id := a];
      order := order + [id];
    }

    /** The stored applications in `Map` iteration order. */
    function InInsertionOrder(): (r: seq<Application>)
      reads this
      requires Valid()
      ensures |r| == |order|
      ensures forall i :: 0 <= i < |order| ==> r[i] == applications[order[i]]
    {
      ValuesAt(order)
    }

    function ValuesAt(keys: seq<string>): (r: seq<Application>)
      reads this
      requires forall i :: 0 <= i < |keys| ==> keys[i] in applications
      ensures |r| == |keys|
      ensures forall i :: 0 <= i < |keys| ==> r[i] == applications[keys[i]]
    {
      if keys == [] then [] else [applications[keys[0]]] + ValuesAt(keys[1..])
    }

    /** `getApplications`: every stored application exactly once, newest first. */
    function GetApplications(): (r: seq<Application>)
      reads this
      requires Valid()
      ensures NewestFirst(r)
      ensures multiset(r) == multiset(InInsertionOrder())
      ensures forall a :: a in r <==> a in applications.Values
    {
      var values := InInsertionOrder();
      SortNewestFirstSorted(values);
      SortNewestFirstPermutes(values);
      assert forall a :: a in values <==> a in applications.Values by {
        forall a | a in applications.Values ensures a in values {
          var id :| id in applications && applications[id] == a;
          var i :| 0 <= i < |order| && order[i] == id;
          assert values[i] == a;
        }
      }
      assert forall a :: a in SortNewestFirst(values) <==> a in multiset(values);
      SortNewestFirst(values)
    }

    /** `getApplicationById`. */
    function GetApplicationById(id: string): (r: Option<Application>)
      reads this
      ensures r.Some? <==> id in applications
      ensures r.Some? ==> r.value == applications[id]
    {
      if id in applications then Some(applications[id]) else None
    }

    /** `updateApplicationStatus`: an unknown id changes nothing; a known one has its
        record reviewed in place, and every other record is left alone. */
    method UpdateApplicationStatus(id: string, status: Status, reviewedBy: string, now: int)
      returns (r: Option<Application>)
      requires Valid()
      requires status != Pending
      modifies this
      ensures Valid()
      ensures id !in old(applications) ==> r == None && applications == old(applications)
      ensures id in old(applications) ==>
        && r == Some(Reviewed(old(applications)[id], status, reviewedBy, now))
        && applications == old(applications)[id := r.value]
      ensures order == old(order)
      ensures applicationSettings == old(applicationSettings) && adminSessions == old(adminSessions)
    {
      if id in applications {
        var application := Reviewed(applications[id], status, reviewedBy, now);
        applications := applications[id := application];
        r := Some(application);
      } else {
        r := None;
      }
    }

    /** `getApplicationSettings`. */
    function GetApplicationSettings(applicationType: string): (r: Option<ApplicationSettings>)
      reads this
      ensures r.Some? <==> applicationType in applicationSettings
      ensures r.Some? ==> r.value == applicationSettings[applicationType]
    {
      if applicationType in applicationSettings then Some(applicationSettings[applicationType]) else None
    }

    /** `updateApplicationSettings`: an existing record is updated in place and keeps its
        id; otherwise a new record is made with a fresh id. Other types are untouched. */
    method UpdateApplicationSettings(applicationType: string, isOpen: bool, freshId: string, now: int)
      returns (r: ApplicationSettings)
      requires Valid()
      modifies this
      ensures Valid()
      ensures r.applicationType == applicationType && r.isOpen == isOpen && r.updatedAt == now
      ensures applicationType in old(applicationSettings) ==>
        r.id == old(applicationSettings)[applicationType].id
      ensures applicationType !in old(applicationSettings) ==> r.id == freshId
      ensures applicationSettings == old(applicationSettings)[applicationType := r]
      ensures GetApplicationSettings(applicationType) == Some(r)
      ensures applications == old(applications) && order == old(order)
      ensures adminSessions == old(adminSessions)
    {
      if applicationType in applicationSettings {
        var existing := applicationSettings[applicationType];
        r := existing.(isOpen := isOpen, updatedAt := now);
      } else {
        r := ApplicationSettings(freshId, applicationType, isOpen, now);
      }
      applicationSettings := applicationSettings[applicationType := r];
    }

    /** `createAdminSession`: stored under its session id, replacing any session with
        the same session id. */
    method CreateAdminSession(insert: InsertAdminSession, id: string, now: int) returns (s: AdminSession)
      requires Valid()
      modifies this
      ensures Valid()
      ensures s == AdminSession(id, insert.sessionId, insert.expiresAt, now)
      ensures adminSessions == old(adminSessions)[insert.sessionId := s]
      ensures GetAdminSession(insert.sessionId) == Some(s)
      ensures applications == old(applications) && order == old(order)
      ensures applicationSettings == old(applicationSettings)
    {
      s := AdminSession(id, insert.sessionId, insert.expiresAt, now);
      adminSessions := adminSessions[insert.sessionId := s];
    }

    /** `getAdminSession`. */
    function GetAdminSession(sessionId: string): (r: Option<AdminSession>)
      reads this
      ensures r.Some? <==> sessionId in adminSessions
      ensures r.Some? ==> r.value == adminSessions[sessionId]
    {
      if sessionId in adminSessions then Some(adminSessions[sessionId]) else None
    }

    /** `deleteAdminSession`. */
    method DeleteAdminSession(sessionId: string)
      requires Valid()
      modifies this
      ensures Valid()
      ensures adminSessions == old(adminSessions) - {sessionId}
      ensures GetAdminSession(sessionId) == None
      ensures applications == old(applications) && order == old(order)
      ensures applicationSettings == old(applicationSettings)
    {
      adminSessions := adminSessions - {sessionId};
    }

    /** `cleanExpiredSessions`: walks a snapshot of the sessions and deletes each one
        whose expiry lies before `now`. */
    method CleanExpiredSessions(now: int)
      requires Valid()
      modifies this
      ensures Valid()
      ensures adminSessions == Unexpired(old(adminSessions), now)
      ensures applications == old(applications) && order == old(order)
      ensures applicationSettings == old(applicationSettings)
    {
      var snapshot := adminSessions;
      var pending := snapshot.Keys;
      while pending != {}
        invariant pending <= snapshot.Keys
        invariant forall k :: k in adminSessions <==>
          k in snapshot && (k in pending || snapshot[k].expiresAt >= now)
        invariant forall k :: k in adminSessions ==> adminSessions[k] == snapshot[k]
        invariant applications == old(applications) && order == old(order)
        invariant applicationSettings == old(applicationSettings)
        decreases |pending|
      {
        var sessionId :| sessionId in pending;
        if snapshot[sessionId].expiresAt < now {
          adminSessions := adminSessions - {sessionId};
        }
        pending := pending - {sessionId};
      }
    }
  }
}
