/**
 * The in-memory store of server/storage.ts (`MemStorage`): a table of users
 * keyed by id and a table of progress records keyed by visitor id.
 *
 * A JavaScript `Map` iterates in key insertion order, and `set` on a key that
 * is already present keeps its position; each table is therefore a Dafny map
 * together with the sequence of its keys in insertion order.
 * Identifiers (`randomUUID()`) and timestamps (`new Date().toISOString()`)
 * are parameters.
 */
module Storage {
  import opened Common
  import opened ProgressRecord

  datatype User = User(id: string, username: string, password: string)

  /** The fields a caller supplies when creating a user. */
  datatype InsertUser = InsertUser(username: string, password: string)

  /** `order` lists every key of `m` exactly once. */
  ghost predicate KeysInOrder<V>(order: seq<string>, m: map<string, V>)
  {
    Distinct(order) && forall k :: k in order <==> k in m
  }

  /** The key order after `Map.set(k, ...)`: a new key goes last, an old one stays put. */
  function OrderAfterSet<V>(order: seq<string>, m: map<string, V>, k: string): seq<string>
  {
    if k in m then order else order + [k]
  }

  /** The enrolled records, in key order (`Array.from(values()).filter(p => p.enrolledAt)`). */
  function Enrolled(order: seq<string>, m: map<string, UserProgress>): (r: seq<UserProgress>)
    requires forall k :: k in order ==> k in m
    ensures |r| <= |order|
    ensures forall i :: 0 <= i < |r| ==> IsEnrolled(r[i]) && r[i] in m.Values
  {
    if order == [] then []
    else (if IsEnrolled(m[order[0]]) then [m[order[0]]] else []) + Enrolled(order[1..], m)
  }

  /** `progress.get(visitorId)`. */
  function Stored(m: map<string, UserProgress>, visitorId: string): Option<UserProgress>
  {
    if visitorId in m then Some(m[visitorId]) else None
  }

  /** The visitor's record, or the zero record the store starts for an unknown visitor. */
  function StoredOrNew(m: map<string, UserProgress>, visitorId: string, freshId: string, now: string): UserProgress
  {
    if visitorId in m then m[visitorId] else NewProgress(freshId, visitorId, now)
  }

  /** How many entries of `s` belong to `visitorId`. */
  function CountFor(s: seq<UserProgress>, visitorId: string): nat
  {
    if s == [] then 0
    else (if s[0].visitorId == visitorId then 1 else 0) + CountFor(s[1..], visitorId)
  }

  /** The first user in insertion order whose username is `username` (`Array.find`). */
  function FindByUsername(order: seq<string>, users: map<string, User>, username: string): (r: Option<User>)
    requires forall k :: k in order ==> k in users
    ensures r.Some? ==> r.value.username == username
    ensures r.Some? <==> exists i :: 0 <= i < |order| && users[order[i]].username == username
    ensures r.Some? ==> exists i :: 0 <= i < |order| && users[order[i]] == r.value
                                 && forall j :: 0 <= j < i ==> users[order[j]].username != username
  {
    if order == [] then None
    else if users[order[0]].username == username then Some(users[order[0]])
    else
      var r := FindByUsername(order[1..], users, username);
      assert forall i :: 0 < i < |order| ==> order[i] == order[1..][i - 1];
      r
  }

  class MemStorage {
    var users: map<string, User>
    var userOrder: seq<string>
    var progress: map<string, UserProgress>
    var progressOrder: seq<string>

    /** Each table's key order is exact, and every entry is stored under its own id. */
    ghost predicate Valid()
      reads this
    {
      && KeysInOrder(userOrder, users)
      && KeysInOrder(progressOrder, progress)
      && (forall id :: id in users ==> users[id].id == id)
      && (forall v :: v in progress ==> progress[v].visitorId == v)
    }

    /** What `getAllEnrollments` returns. */
    function AllEnrollments(): seq<UserProgress>
      reads this
      requires Valid()
    {
      Enrolled(progressOrder, progress)
    }

    constructor ()
      ensures Valid()
      ensures users == map[] && userOrder == [] && progress == map[] && progressOrder == []
    {
      users, userOrder := map[], [];
      progress, progressOrder := map[], [];
    }

    method GetUser(id: string) returns (r: Option<User>)
      ensures id in users ==> r == Some(users[id])
      ensures id !in users ==> r == None
    {
      r := if id in users then Some(users[id]) else None;
    }

    method GetUserByUsername(username: string) returns (r: Option<User>)
      requires Valid()
      ensures r.Some? ==> r.value.username == username && r.value.id in users && users[r.value.id] == r.value
      ensures r.None? <==> forall id :: id in users ==> users[id].username != username
      ensures r == FindByUsername(userOrder, users, username)
    {
      r := FindByUsername(userOrder, users, username);
      if r.None? {
        forall id | id in users ensures users[id].username != username {
          var i :| 0 <= i < |userOrder| && userOrder[i] == id;
        }
      }
    }

    /** `createUser`, with the fresh identifier passed in. */
    method CreateUser(insertUser: InsertUser, id: string) returns (user: User)
      requires Valid()
      modifies this
      ensures Valid()
      ensures user == User(id, insertUser.username, insertUser.password)
      ensures users == old(users)[id := user]
      ensures userOrder == OrderAfterSet(old(userOrder), old(users), id)
      ensures progress == old(progress) && progressOrder == old(progressOrder)
    {
      user := User(id, insertUser.username, insertUser.password);
      userOrder := OrderAfterSet(userOrder, users, id);
      users := users[id := user];
    }

    method GetProgress(visitorId: string) returns (r: Option<UserProgress>)
      ensures visitorId in progress ==> r == Some(progress[visitorId])
      ensures visitorId !in progress ==> r == None
      ensures r == Stored(progress, visitorId)
    {
      r := if visitorId in progress then Some(progress[visitorId]) else None;
    }

    /**
     * `saveProgress`: the record replaces whatever was stored under its own
     * visitor id and is returned; every other entry is left alone.
     */
    method SaveProgress(p: UserProgress) returns (r: UserProgress)
      requires Valid()
      modifies this
      ensures Valid()
      ensures r == p
      ensures progress == old(progress)[p.visitorId := p]
      ensures progressOrder == OrderAfterSet(old(progressOrder), old(progress), p.visitorId)
      ensures users == old(users) && userOrder == old(userOrder)
    {
      progressOrder := OrderAfterSet(progressOrder, progress, p.visitorId);
      progress := progress[p.visitorId := p];
      r := p;
    }

    /**
     * `updateLessonCompletion`: fetch the visitor's record or start a zero
     * record, add the lesson if it is new (awarding `xpEarned` only then),
     * restamp the visit and store the record under the visitor's id.
     */
    method UpdateLessonCompletion(visitorId: string, lessonId: int, xpEarned: int, freshId: string, now: string)
      returns (r: UserProgress)
      requires Valid()
      modifies this
      ensures Valid()
      ensures r == WithLessonCompleted(old(StoredOrNew(progress, visitorId, freshId, now)), lessonId, xpEarned, now)
      ensures progress == old(progress)[visitorId := r]
      ensures progressOrder == OrderAfterSet(old(progressOrder), old(progress), visitorId)
      ensures users == old(users) && userOrder == old(userOrder)
    {
      var p: UserProgress;
      if visitorId in progress {
        p := progress[visitorId];
      } else {
        p := NewProgress(freshId, visitorId, now);
      }
      if lessonId !in p.completedLessons {
        p := p.(completedLessons := p.completedLessons + [lessonId]);
        p := p.(xp := p.xp + xpEarned);
      }
      p := p.(lastVisit := now);
      progressOrder := OrderAfterSet(progressOrder, progress, visitorId);
      progress := progress[visitorId := p];
      r := p;
    }

    /**
     * `saveEnrollment`: fetch the visitor's record or start a zero record,
     * set name, email and enrollment time, and store it. Afterwards the
     * enrollment listing holds exactly one entry for the visitor, and it has
     * grown by one exactly when the visitor was not enrolled before.
     */
    method SaveEnrollment(visitorId: string, name: string, email: string, freshId: string, now: string)
      returns (r: UserProgress)
      requires Valid()
      modifies this
      ensures Valid()
      ensures r == WithEnrollment(old(StoredOrNew(progress, visitorId, freshId, now)), name, email, now)
      ensures progress == old(progress)[visitorId := r]
      ensures progressOrder == OrderAfterSet(old(progressOrder), old(progress), visitorId)
      ensures users == old(users) && userOrder == old(userOrder)
      ensures now != "" ==> CountFor(AllEnrollments(), visitorId) == 1
      ensures now != "" ==>
                |AllEnrollments()| == |old(AllEnrollments())|
                                      + (if old(visitorId in progress && IsEnrolled(progress[visitorId])) then 0 else 1)
    {
      ghost var order0, m0 := progressOrder, progress;
      var p: UserProgress;
      if visitorId in progress {
        p := progress[visitorId];
      } else {
        p := NewProgress(freshId, visitorId, now);
      }
      p := p.(name := Some(name));
      p := p.(email := Some(email));
      p := p.(enrolledAt := Some(now));
      progressOrder := OrderAfterSet(progressOrder, progress, visitorId);
      progress := progress[visitorId := p];
      r := p;
      EnrolledOncePerVisitor(progressOrder, progress, visitorId);
      if now != "" {
        EnrolledAfterSet(order0, m0, visitorId, p);
      }
    }

    /**
     * `getAllEnrollments`: every stored record whose enrollment time is set,
     * each exactly once, in insertion order.
     */
    method GetAllEnrollments() returns (r: seq<UserProgress>)
      requires Valid()
      ensures r == AllEnrollments()
      ensures forall i :: 0 <= i < |r| ==>
                IsEnrolled(r[i]) && r[i].visitorId in progress && progress[r[i].visitorId] == r[i]
      ensures forall v :: v in progress ==> CountFor(r, v) == (if IsEnrolled(progress[v]) then 1 else 0)
    {
      r := Enrolled(progressOrder, progress);
      forall v | v in progress
        ensures CountFor(r, v) == (if IsEnrolled(progress[v]) then 1 else 0)
      {
        EnrolledOncePerVisitor(progressOrder, progress, v);
      }
    }
  }

  /**
   * A table whose listed keys are distinct and hold records stored under
   * their own visitor ids. Unlike the store's invariant it does not ask the
   * order to list every key, so it survives dropping the head of the order,
   * which the inductions below need.
   */
  ghost predicate WellKeyed(order: seq<string>, m: map<string, UserProgress>)
  {
    Distinct(order) && forall k :: k in order ==> k in m && m[k].visitorId == k
  }

  lemma DistinctTail<T>(s: seq<T>)
    requires Distinct(s) && s != []
    ensures Distinct(s[1..]) && s[0] !in s[1..]
  {
    assert forall i :: 0 <= i < |s[1..]| ==> s[1..][i] == s[i + 1];
  }

  /** The enrollment listing holds one entry for an enrolled visitor and none otherwise. */
  lemma {:induction false} EnrolledOncePerVisitor(order: seq<string>, m: map<string, UserProgress>, v: string)
    requires WellKeyed(order, m)
    ensures CountFor(Enrolled(order, m), v) == (if v in order && IsEnrolled(m[v]) then 1 else 0)
    decreases |order|
  {
    if order != [] {
      DistinctTail(order);
      var k := order[0];
      var head := if IsEnrolled(m[k]) then [m[k]] else [];
      EnrolledOncePerVisitor(order[1..], m, v);
      CountForAppend(head, Enrolled(order[1..], m), v);
      assert v in order <==> v == k || v in order[1..];
    }
  }

  lemma {:induction false} CountForAppend(a: seq<UserProgress>, b: seq<UserProgress>, v: string)
    ensures CountFor(a + b, v) == CountFor(a, v) + CountFor(b, v)
    decreases |a|
  {
    if a == [] {
      assert a + b == b;
    } else {
      assert (a + b)[0] == a[0] && (a + b)[1..] == a[1..] + b;
      CountForAppend(a[1..], b, v);
    }
  }

  /** Changing the record under a key the order does not list leaves the listing alone. */
  lemma {:induction false} EnrolledIgnoresOtherKeys(order: seq<string>, m: map<string, UserProgress>, v: string, p: UserProgress)
    requires forall k :: k in order ==> k in m
    requires v !in order
    ensures Enrolled(order, m[v := p]) == Enrolled(order, m)
    decreases |order|
  {
    if order != [] {
      EnrolledIgnoresOtherKeys(order[1..], m, v, p);
    }
  }

  lemma {:induction false} EnrolledAppend(order: seq<string>, m: map<string, UserProgress>, v: string)
    requires forall k :: k in order ==> k in m
    requires v in m
    ensures Enrolled(order + [v], m) == Enrolled(order, m) + (if IsEnrolled(m[v]) then [m[v]] else [])
    decreases |order|
  {
    if order == [] {
      assert order + [v] == [v];
    } else {
      assert (order + [v])[1..] == order[1..] + [v];
      EnrolledAppend(order[1..], m, v);
    }
  }

  /** Storing `p` under a listed key `v` swaps that key's contribution to the listing. */
  lemma {:induction false} EnrolledReplace(order: seq<string>, m: map<string, UserProgress>, v: string, p: UserProgress)
    requires forall k :: k in order ==> k in m
    requires Distinct(order) && v in order
    ensures |Enrolled(order, m[v := p])|
         == |Enrolled(order, m)| - (if IsEnrolled(m[v]) then 1 else 0) + (if IsEnrolled(p) then 1 else 0)
    decreases |order|
  {
    DistinctTail(order);
    if order[0] == v {
      EnrolledIgnoresOtherKeys(order[1..], m, v, p);
    } else {
      EnrolledReplace(order[1..], m, v, p);
    }
  }

  /** The listing's length after `Map.set(v, p)` with an enrolled `p`. */
  lemma EnrolledAfterSet(order: seq<string>, m: map<string, UserProgress>, v: string, p: UserProgress)
    requires KeysInOrder(order, m)
    requires IsEnrolled(p)
    ensures forall k :: k in OrderAfterSet(order, m, v) ==> k in m[v := p]
    ensures |Enrolled(OrderAfterSet(order, m, v), m[v := p])|
         == |Enrolled(order, m)| + (if v in m && IsEnrolled(m[v]) then 0 else 1)
  {
    if v in m {
      EnrolledReplace(order, m, v, p);
    } else {
      EnrolledAppend(order, m[v := p], v);
      EnrolledIgnoresOtherKeys(order, m, v, p);
    }
  }
}
