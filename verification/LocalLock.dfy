/**
 The in-process lock: a map from keys to reference-counted locks, each a channel with one token. Every method
 of LocalLocker is one atomic step of one goroutine; `Interleave` lets a scheduler take them in any order.
 */
module LocalLocks {

  datatype Phase = Waiting | Holding | Leaving

  /** A goroutine between the two critical sections: what it wants, the lock it looked up, and how far it is. */
  datatype User = User(key: string, lock: LocalLock, phase: Phase)

  type Users = map<nat, User>

  ghost function UsersOf(users: Users, key: string): set<nat> {
    set g | g in users && users[g].key == key
  }

  ghost function HoldersOf(users: Users, key: string): set<nat> {
    set g | g in users && users[g].key == key && users[g].phase.Holding?
  }

  /** `refs` counts the goroutines; the token is in the channel or with exactly one of them. */
  ghost predicate EntryOk(users: Users, key: string, token: bool, refs: int) {
    && refs == |UsersOf(users, key)| > 0
    && (if token then 1 else 0) + |HoldersOf(users, key)| == 1
  }

  lemma Entered(users: Users, g: nat, user: User)
    requires g !in users && user.phase.Waiting?
    ensures var users' := users[g := user];
      && (forall k, t, r {:trigger EntryOk(users', k, t, r)} ::
            k != user.key && EntryOk(users, k, t, r) ==> EntryOk(users', k, t, r))
      && (forall t, r :: EntryOk(users, user.key, t, r) ==> EntryOk(users', user.key, t, r + 1))
      && (UsersOf(users, user.key) == {} ==> EntryOk(users', user.key, true, 1))
  {
    var key, users' := user.key, users[g := user];
    assert users - {g} == users && users' - {g} == users;
    OthersStay(users, users', g, key);
    assert UsersOf(users', key) == UsersOf(users, key) + {g};
    assert HoldersOf(users', key) == HoldersOf(users, key);
    if UsersOf(users, key) == {} {
      forall x ensures x !in HoldersOf(users, key) { assert x !in UsersOf(users, key); }
    }
  }

  /** Nothing about another key depends on a goroutine that was never there. */
  lemma OthersStay(users: Users, users': Users, g: nat, key: string)
    requires users - {g} == users' - {g}
    requires (g in users ==> users[g].key == key) && (g in users' ==> users'[g].key == key)
    ensures forall k, t, r {:trigger EntryOk(users', k, t, r)} ::
      k != key && EntryOk(users, k, t, r) ==> EntryOk(users', k, t, r)
  {
    forall x | x != g
      ensures x in users <==> x in users'
      ensures x in users ==> users[x] == users'[x]
    {
      assert x in users - {g} <==> x in users' - {g};
      assert x in users ==> (users - {g})[x] == (users' - {g})[x];
    }
    forall k | k != key
      ensures UsersOf(users', k) == UsersOf(users, k) && HoldersOf(users', k) == HoldersOf(users, k)
    {
    }
  }

  lemma Moved(users: Users, g: nat, phase: Phase)
    requires g in users
    ensures var key, users' := users[g].key, users[g := users[g].(phase := phase)];
      && (forall k, t, r {:trigger EntryOk(users', k, t, r)} ::
            k != key && EntryOk(users, k, t, r) ==> EntryOk(users', k, t, r))
      && (forall t, r {:trigger EntryOk(users, key, t, r)} :: EntryOk(users, key, t, r) ==>
            && (users[g].phase.Waiting? && phase.Leaving? ==> EntryOk(users', key, t, r))
            && (users[g].phase.Waiting? && phase.Holding? && t ==> EntryOk(users', key, false, r))
            && (users[g].phase.Holding? && phase.Leaving? ==> !t && EntryOk(users', key, true, r)))
  {
    var key, users' := users[g].key, users[g := users[g].(phase := phase)];
    assert users - {g} == users' - {g};
    OthersStay(users, users', g, key);
    assert UsersOf(users', key) == UsersOf(users, key);
    assert HoldersOf(users', key) == if phase.Holding? then HoldersOf(users, key) + {g} else HoldersOf(users, key) - {g};
    if users[g].phase.Holding? {
      assert g in HoldersOf(users, key);
    }
  }

  lemma Left(users: Users, g: nat)
    requires g in users && users[g].phase.Leaving?
    ensures var key, users' := users[g].key, users - {g};
      && (forall k, t, r {:trigger EntryOk(users', k, t, r)} ::
            k != key && EntryOk(users, k, t, r) ==> EntryOk(users', k, t, r))
      && (forall t, r {:trigger EntryOk(users, key, t, r)} :: EntryOk(users, key, t, r) ==>
            && (r == 1 <==> UsersOf(users', key) == {})
            && (r != 1 ==> EntryOk(users', key, t, r - 1)))
  {
    var key, users' := users[g].key, users - {g};
    assert users - {g} == users' - {g};
    OthersStay(users, users', g, key);
    assert g in UsersOf(users, key);
    assert UsersOf(users', key) == UsersOf(users, key) - {g};
    assert |UsersOf(users', key)| == |UsersOf(users, key)| - 1;
    assert HoldersOf(users', key) == HoldersOf(users, key);
  }

  class LocalLock {
    ghost const key: string
    var token: bool
    var refs: int

    constructor (ghost key: string)
      ensures this.key == key && token && refs == 0
    {
      this.key := key;
      token := true;
      refs := 0;
    }
  }

  class LocalLocker {
    var locks: map<string, LocalLock>
    var users: Users

    constructor ()
      ensures Valid() && locks == map[] && users == map[]
    {
      locks := map[];
      users := map[];
    }

    ghost predicate Valid()
      reads this, locks.Values
    {
      && (forall key :: key in locks ==>
            locks[key].key == key && EntryOk(users, key, locks[key].token, locks[key].refs))
      && (forall g :: g in users ==> users[g].key in locks && users[g].lock == locks[users[g].key])
    }

    /** First critical section of Acquire: find or make the lock, and count this goroutine. */
    method Enter(g: nat, key: string)
      requires Valid() && g !in users
      modifies this, locks.Values
      ensures Valid()
      ensures key in locks && users == old(users)[g := User(key, locks[key], Waiting)]
      ensures forall k :: k != key ==> (k in locks <==> k in old(locks)) && (k in locks ==> locks[k] == old(locks)[k])
      ensures if key in old(locks) then locks[key] == old(locks)[key] else fresh(locks[key])
    {
      var lock;
      if key in locks {
        lock := locks[key];
      } else {
        assert UsersOf(users, key) == {};
        lock := new LocalLock(key);
        locks := locks[key := lock];
      }
      lock.refs := lock.refs + 1;
      Entered(users, g, User(key, lock, Waiting));
      users := users[g := User(key, lock, Waiting)];
    }

    /** The select takes the token: the goroutine has its guard. */
    method Take(g: nat)
      requires Valid() && g in users && users[g].phase.Waiting? && users[g].lock.token
      modifies this`users, users[g].lock`token
      ensures Valid() && users == old(users)[g := old(users[g]).(phase := Holding)]
      ensures !users[g].lock.token
    {
      Moved(users, g, Holding);
      users[g].lock.token := false;
      users := users[g := users[g].(phase := Holding)];
    }

    /** The select takes the cancellation instead. */
    method Cancel(g: nat)
      requires Valid() && g in users && users[g].phase.Waiting?
      modifies this`users
      ensures Valid() && users == old(users)[g := old(users[g]).(phase := Leaving)]
    {
      Moved(users, g, Leaving);
      users := users[g := users[g].(phase := Leaving)];
    }

    /** Release sends the token back. The channel has room for it, so the send does not block. */
    method PutBack(g: nat)
      requires Valid() && g in users && users[g].phase.Holding?
      modifies this`users, users[g].lock`token
      ensures Valid() && users == old(users)[g := old(users[g]).(phase := Leaving)]
      ensures !old(users[g].lock.token) && users[g].lock.token
    {
      Moved(users, g, Leaving);
      users[g].lock.token := true;
      users := users[g := users[g].(phase := Leaving)];
    }

    /** Second critical section: the last one to leave deletes the entry. */
    method DropRef(g: nat)
      requires Valid() && g in users && users[g].phase.Leaving?
      modifies this, users[g].lock`refs
      ensures Valid() && users == old(users) - {g}
      ensures locks == if UsersOf(users, old(users[g].key)) != {} then old(locks) else old(locks) - {old(users[g].key)}
    {
      var User(key, lock, _) := users[g];
      Left(users, g);
      lock.refs := lock.refs - 1;
      users := users - {g};
      if lock.refs == 0 {
        locks := locks - {key};
      }
    }

    predicate CanStep(step: Step)
      reads this, set g | g in users :: users[g].lock
    {
      match step
      case Enter(g, _) => g !in users
      case Take(g) => g in users && users[g].phase.Waiting? && users[g].lock.token
      case Cancel(g) => g in users && users[g].phase.Waiting?
      case PutBack(g) => g in users && users[g].phase.Holding?
      case DropRef(g) => g in users && users[g].phase.Leaving?
    }

    /** Any schedule: at each moment some goroutine takes its next step, or one that cannot is passed over. */
    method Interleave(schedule: seq<Step>)
      requires Valid()
      modifies this, locks.Values
      ensures Valid()
    {
      for i := 0 to |schedule|
        invariant Valid()
        invariant forall lock :: lock in locks.Values ==> lock in old(locks.Values) || fresh(lock)
      {
        if CanStep(schedule[i]) {
          match schedule[i] {
            case Enter(g, key) => Enter(g, key);
            case Take(g) => Take(g);
            case Cancel(g) => Cancel(g);
            case PutBack(g) => PutBack(g);
            case DropRef(g) => DropRef(g);
          }
        }
      }
    }
  }

  datatype Step =
    | Enter(goroutine: nat, key: string)
    | Take(goroutine: nat)
    | Cancel(goroutine: nat)
    | PutBack(goroutine: nat)
    | DropRef(goroutine: nat)

  /** At most one guard per key is held, and while it is, the channel has room for its token. */
  lemma AtMostOneGuard(l: LocalLocker, g1: nat, g2: nat)
    requires l.Valid() && g1 in l.users && g2 in l.users
    requires l.users[g1].phase.Holding? && l.users[g2].phase.Holding? && l.users[g1].key == l.users[g2].key
    ensures g1 == g2 && !l.users[g1].lock.token
  {
    OnlyMember(HoldersOf(l.users, l.users[g1].key), g1, g2);
  }

  lemma OnlyMember(s: set<nat>, a: nat, b: nat)
    requires |s| <= 1 && a in s && b in s
    ensures a == b && |s| == 1
  {
    assert |s - {a}| == |s| - 1;
    assert b !in s - {a};
  }

  /** The entry of a key exists exactly while some goroutine refers to its lock, and it is the lock they all have. */
  lemma EntryExactlyWhileUsed(l: LocalLocker, key: string)
    requires l.Valid()
    ensures key in l.locks <==> exists g :: g in l.users && l.users[g].key == key
    ensures key in l.locks ==>
      && l.locks[key].refs == |UsersOf(l.users, key)| > 0
      && forall g :: g in l.users && l.users[g].key == key ==> l.users[g].lock == l.locks[key]
  {
    if key in l.locks {
      var g :| g in UsersOf(l.users, key);
      assert g in l.users && l.users[g].key == key;
    }
  }

  /** The token is there to take exactly when nobody holds the guard. */
  lemma TokenOrHolder(l: LocalLocker, key: string)
    requires l.Valid() && key in l.locks
    ensures l.locks[key].token <==> forall g :: g in l.users && l.users[g].key == key ==> !l.users[g].phase.Holding?
  {
    assert l.locks[key].token <==> HoldersOf(l.users, key) == {};
    forall g | g in l.users && l.users[g].key == key && l.users[g].phase.Holding?
      ensures g in HoldersOf(l.users, key)
    {
    }
    if !l.locks[key].token {
      var g :| g in HoldersOf(l.users, key);
      assert l.users[g].phase.Holding?;
    }
  }
}
