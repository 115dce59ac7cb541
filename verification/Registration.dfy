/**
 * Registration by invite: the single-use transaction of the store, and any interleaving
 * of the handlers that register a user, count the users and grant the first one
 * administration. The database has one writer at a time and reads see committed rows.
 * Times are instants in nanoseconds.
 */
module Registration {
  import opened Prelude

  const SECOND: int := 1_000_000_000

  datatype User = User(name: string, admin: bool)

  datatype Use = Use(user: string, at: int)

  datatype Invite = Invite(expires: int, used: Option<Use>)

  /** Users in the order their rows were committed; invites by their unique code. */
  datatype Db = Db(users: seq<User>, invites: map<string, Invite>)

  datatype Error = UnknownOrUsed | Expired | AlreadyUsed | HashFailed | DuplicateUser | CommitFailed

  predicate Has(users: seq<User>, name: string)
  {
    exists i | 0 <= i < |users| :: users[i].name == name
  }

  /** The invite exists, is unused, and has not expired. */
  predicate Valid(invites: map<string, Invite>, code: string, now: int)
  {
    code in invites && invites[code].used == None && now < invites[code].expires
  }

  /** UPDATE users SET is_admin = 1 WHERE user = ? */
  function Granted(users: seq<User>, name: string): (granted: seq<User>)
    ensures |granted| == |users|
  {
    seq(|users|, i requires 0 <= i < |users| =>
      if users[i].name == name then users[i].(admin := true) else users[i])
  }

  /** The row update of a consumed invite. */
  function Consumed(invites: map<string, Invite>, code: string, use: Use): map<string, Invite>
    requires code in invites
  {
    invites[code := invites[code].(used := Some(use))]
  }

  /** The transaction as one atomic action, told whether hashing and the commit succeed. */
  function Registered(db: Db, code: string, user: string, checkedAt: int, usedAt: int,
                      hashed: bool, commits: bool): (Db, Option<Error>)
  {
    if code !in db.invites || db.invites[code].used.Some? then (db, Some(UnknownOrUsed))
    else if checkedAt >= db.invites[code].expires then (db, Some(Expired))
    else if !hashed then (db, Some(HashFailed))
    else if Has(db.users, user) then (db, Some(DuplicateUser))
    else if !commits then (db, Some(CommitFailed))
    else (Db(db.users + [User(user, false)], Consumed(db.invites, code, Use(user, usedAt))), None)
  }

  /** An expiry is stored as RFC 3339 text, to the second. */
  function Stored(expiresAt: int): (stored: int)
    ensures stored <= expiresAt < stored + 1_000_000_000 && stored % 1_000_000_000 == 0
  {
    expiresAt - expiresAt % SECOND
  }

  class Store {
    var users: seq<User>
    var invites: map<string, Invite>

    function View(): Db
      reads this
    {
      Db(users, invites)
    }

    constructor ()
      ensures View() == Db([], map[])
    {
      users, invites := [], map[];
    }

    method CreateInvite(code: string, expiresAt: int) returns (ok: bool)
      modifies this`invites
      ensures ok == (code !in old(invites))
      ensures invites == if ok then old(invites)[code := Invite(Stored(expiresAt), None)] else old(invites)
    {
      ok := code !in invites;
      if ok {
        invites := invites[code := Invite(Stored(expiresAt), None)];
      }
    }

    method CreateUserNoPassword(user: string) returns (ok: bool)
      modifies this`users
      ensures ok == !Has(old(users), user)
      ensures users == if ok then old(users) + [User(user, false)] else old(users)
    {
      ok := !Has(users, user);
      if ok {
        users := users + [User(user, false)];
      }
    }

    /**
     * The transaction works on its own copies of the two tables: an early return rolls
     * it back by dropping them, the commit puts them in place.
     */
    method RegisterWithInvite(code: string, user: string, checkedAt: int, usedAt: int, hashed: bool, commits: bool)
      returns (error: Option<Error>)
      modifies this
      ensures (View(), error) == Registered(old(View()), code, user, checkedAt, usedAt, hashed, commits)
    {
      var txUsers, txInvites := users, invites;
      if code !in txInvites || txInvites[code].used.Some? {
        return Some(UnknownOrUsed);
      }
      var expTime := txInvites[code].expires;
      if !(checkedAt < expTime) {
        return Some(Expired);
      }
      var rows := 0;
      if txInvites[code].used.None? {
        txInvites := txInvites[code := txInvites[code].(used := Some(Use(user, usedAt)))];
        rows := 1;
      }
      if rows != 1 {
        return Some(AlreadyUsed);
      }
      if !hashed {
        return Some(HashFailed);
      }
      if Has(txUsers, user) {
        return Some(DuplicateUser);
      }
      txUsers := txUsers + [User(user, false)];
      if !commits {
        return Some(CommitFailed);
      }
      users, invites := txUsers, txInvites;
      return None;
    }

    /** The register endpoint, run alone: the answer's status and the new tables. */
    method RegisterUser(code: string, user: string, password: string, checkedAt: int, usedAt: int,
                        hashed: bool, commits: bool) returns (status: int)
      requires Unique(users)
      modifies this
      ensures Unique(users)
      ensures status in {201, 400, 401, 409}
      ensures status == 400 <==> user == "" || password == ""
      ensures status == 409 <==>
        user != "" && password != "" && Valid(old(invites), code, checkedAt) && hashed && Has(old(users), user)
      ensures status == 201 <==>
        user != "" && password != "" && Valid(old(invites), code, checkedAt) && hashed && !Has(old(users), user) && commits
      ensures status != 201 ==> View() == old(View())
      ensures status == 201 ==>
        && users == old(users) + [User(user, old(users) == [])]
        && invites == old(invites)[code := Invite(old(invites)[code].expires, Some(Use(user, usedAt)))]
    {
      if user == "" || password == "" {
        return 400;
      }
      var error := RegisterWithInvite(code, user, checkedAt, usedAt, hashed, commits);
      if error.Some? {
        return if error.value.DuplicateUser? then 409 else 401;
      }
      var userCount := |users|;
      if userCount == 1 {
        users := Granted(users, user);
      }
      return 201;
    }
  }

  predicate Unique(users: seq<User>)
  {
    forall i, j | 0 <= i < j < |users| :: users[i].name != users[j].name
  }

  /**
   * Exactly when the transaction succeeds and when it fails with each error, and what each
   * outcome does to the tables. AlreadyUsed is for a code consumed between the query and
   * the update, which one writer at a time rules out.
   */
  lemma RegisteredExactly(db: Db, code: string, user: string, checkedAt: int, usedAt: int, hashed: bool, commits: bool)
    ensures var (after, error) := Registered(db, code, user, checkedAt, usedAt, hashed, commits);
            var open := code in db.invites && db.invites[code].used == None;
            var valid := Valid(db.invites, code, checkedAt);
            && (error == Some(UnknownOrUsed) <==> !open)
            && (error == Some(Expired) <==> open && checkedAt >= db.invites[code].expires)
            && error != Some(AlreadyUsed)
            && (error == Some(HashFailed) <==> valid && !hashed)
            && (error == Some(DuplicateUser) <==> valid && hashed && Has(db.users, user))
            && (error == Some(CommitFailed) <==> valid && hashed && !Has(db.users, user) && !commits)
            && (error == None <==> valid && hashed && !Has(db.users, user) && commits)
            && (error != None ==> after == db)
            && (error == None ==>
                  && after.users == db.users + [User(user, false)]
                  && after.invites == db.invites[code := Invite(db.invites[code].expires, Some(Use(user, usedAt)))])
  {
  }

  lemma RegisteredHas(db: Db, code: string, user: string, checkedAt: int, usedAt: int)
    requires Registered(db, code, user, checkedAt, usedAt, true, true).1 == None
    ensures Has(Registered(db, code, user, checkedAt, usedAt, true, true).0.users, user)
  {
    var after := Registered(db, code, user, checkedAt, usedAt, true, true).0;
    assert after.users[|db.users|].name == user;
  }

  // ---------------------------------------------------------------------------
  // Interleaved handlers
  // ---------------------------------------------------------------------------

  /**
   * Where a handler is. Marked and Inserted hold the write lock; Counted has read the
   * number of users and has yet to act on it; Done and Refused are its ends.
   */
  datatype Pc =
    | Started
    | Checked(checkedAt: int)
    | Marked(checkedAt: int, usedAt: int)
    | Inserted(checkedAt: int, usedAt: int)
    | Committed
    | Counted
    | Done
    | Refused

  datatype Handler = Handler(code: string, user: string, pc: Pc)

  /** The writes that took effect, in order. */
  datatype Effect =
    | Joined(h: nat, code: string, user: string, checkedAt: int, usedAt: int)
    | Invited(code: string, expiresAt: int)
    | Made(user: string)
    | Promoted(h: nat, user: string)

  /** `tx` is the private state of the transaction that holds the write lock. */
  datatype World = World(db: Db, writer: Option<nat>, tx: Db, handlers: map<nat, Handler>, log: seq<Effect>)

  const BEGIN: World := World(Db([], map[]), None, Db([], map[]), map[], [])

  /** A handler's steps; Fail is any error, Skip is a count or a grant that fails. */
  datatype Step =
    | Request(h: nat, code: string, user: string)
    | Check(h: nat, now: int)
    | Mark(h: nat, now: int)
    | Insert(h: nat)
    | Commit(h: nat)
    | Fail(h: nat)
    | Count(h: nat)
    | Grant(h: nat)
    | Skip(h: nat)
    | CreateInvite(code: string, expiresAt: int)
    | AdminCreate(user: string)

  predicate HasAdmin(db: Db)
  {
    exists i | 0 <= i < |db.users| :: db.users[i].admin
  }

  predicate Enabled(w: World, step: Step)
  {
    match step
    case Request(h, _, _) => h !in w.handlers
    case Check(h, _) => h in w.handlers && w.handlers[h].pc.Started?
    case Mark(h, _) => h in w.handlers && w.handlers[h].pc.Checked? && w.writer.None?
    case Insert(h) => h in w.handlers && w.handlers[h].pc.Marked?
    case Commit(h) => h in w.handlers && w.handlers[h].pc.Inserted?
    case Fail(h) => h in w.handlers && Open(w.handlers[h].pc)
    case Count(h) => h in w.handlers && w.handlers[h].pc.Committed?
    case Grant(h) => h in w.handlers && w.handlers[h].pc.Counted? && w.writer.None?
    case Skip(h) => h in w.handlers && (w.handlers[h].pc.Committed? || w.handlers[h].pc.Counted?)
    case CreateInvite(code, _) => w.writer.None? && code !in w.db.invites
    case AdminCreate(user) => w.writer.None? && HasAdmin(w.db) && !Has(w.db.users, user)
  }

  /** The transaction has not ended. */
  predicate Open(pc: Pc)
  {
    pc.Started? || pc.Checked? || pc.Marked? || pc.Inserted?
  }

  /** The transaction was committed. */
  predicate Landed(pc: Pc)
  {
    pc.Committed? || pc.Counted? || pc.Done?
  }

  function Goto(w: World, h: nat, pc: Pc): World
    requires h in w.handlers
  {
    w.(handlers := w.handlers[h := w.handlers[h].(pc := pc)])
  }

  /** The deferred rollback. */
  function Rollback(w: World, h: nat): World
    requires h in w.handlers
  {
    Goto(w, h, Refused).(writer := if w.writer == Some(h) then None else w.writer)
  }

  function Next(w: World, step: Step): World
  {
    if !Enabled(w, step) then w
    else match step
      case Request(h, code, user) => w.(handlers := w.handlers[h := Handler(code, user, Started)])
      case Check(h, now) =>
        var code := w.handlers[h].code;
        if code in w.db.invites && w.db.invites[code].used.None? && now < w.db.invites[code].expires
        then Goto(w, h, Checked(now)) else Rollback(w, h)
      case Mark(h, now) =>
        var c := w.handlers[h];
        if c.code in w.db.invites && w.db.invites[c.code].used.None?
        then Goto(w, h, Marked(c.pc.checkedAt, now)).(writer := Some(h),
          tx := w.db.(invites := Consumed(w.db.invites, c.code, Use(c.user, now))))
        else Rollback(w, h)
      case Insert(h) =>
        var c := w.handlers[h];
        if Has(w.tx.users, c.user) then Rollback(w, h)
        else Goto(w, h, Inserted(c.pc.checkedAt, c.pc.usedAt)).(tx := w.tx.(users := w.tx.users + [User(c.user, false)]))
      case Commit(h) =>
        var c := w.handlers[h];
        Goto(w, h, Committed).(db := w.tx, writer := None,
          log := w.log + [Joined(h, c.code, c.user, c.pc.checkedAt, c.pc.usedAt)])
      case Fail(h) => Rollback(w, h)
      case Count(h) => Goto(w, h, if |w.db.users| == 1 then Counted else Done)
      case Grant(h) =>
        Goto(w, h, Done).(db := w.db.(users := Granted(w.db.users, w.handlers[h].user)),
          log := w.log + [Promoted(h, w.handlers[h].user)])
      case Skip(h) => Goto(w, h, Done)
      case CreateInvite(code, expiresAt) =>
        w.(db := w.db.(invites := w.db.invites[code := Invite(Stored(expiresAt), None)]), log := w.log + [Invited(code, expiresAt)])
      case AdminCreate(user) =>
        w.(db := w.db.(users := w.db.users + [User(user, false)]), log := w.log + [Made(user)])
  }

  function Resume(w: World, steps: seq<Step>): World
  {
    if steps == [] then w else Next(Resume(w, steps[..|steps| - 1]), steps[|steps| - 1])
  }

  function Exec(steps: seq<Step>): World
  {
    Resume(BEGIN, steps)
  }

  // ---------------------------------------------------------------------------
  // The writes in order
  // ---------------------------------------------------------------------------

  /** One write as an atomic action on the tables. */
  function Apply(db: Db, e: Effect): Db
  {
    match e
    case Joined(_, code, user, checkedAt, usedAt) => Registered(db, code, user, checkedAt, usedAt, true, true).0
    case Invited(code, expiresAt) =>
      if code in db.invites then db else db.(invites := db.invites[code := Invite(Stored(expiresAt), None)])
    case Made(user) => if Has(db.users, user) then db else db.(users := db.users + [User(user, false)])
    case Promoted(_, user) => db.(users := Granted(db.users, user))
  }

  /** The write meets what it asks of the tables. */
  predicate Succeeds(db: Db, e: Effect)
  {
    match e
    case Joined(_, code, user, checkedAt, usedAt) =>
      Registered(db, code, user, checkedAt, usedAt, true, true).1.None?
    case Invited(code, _) => code !in db.invites
    case Made(user) => !Has(db.users, user) && HasAdmin(db)
    case Promoted(_, user) => |db.users| > 0 && db.users[0].name == user
  }

  function Replay(log: seq<Effect>): Db
  {
    if log == [] then BEGIN.db else Apply(Replay(log[..|log| - 1]), log[|log| - 1])
  }

  /** Every write of the log succeeds on the tables the writes before it leave. */
  predicate Sound(log: seq<Effect>)
  {
    log == [] || (Sound(log[..|log| - 1]) && Succeeds(Replay(log[..|log| - 1]), log[|log| - 1]))
  }

  lemma LogMore(log: seq<Effect>, e: Effect)
    ensures Replay(log + [e]) == Apply(Replay(log), e)
    ensures Sound(log + [e]) <==> Sound(log) && Succeeds(Replay(log), e)
  {
    assert (log + [e])[..|log|] == log;
  }

  // ---------------------------------------------------------------------------
  // What every step keeps
  // ---------------------------------------------------------------------------

  /** The invite exists and the check came before its expiry. */
  predicate InTime(db: Db, code: string, checkedAt: int)
  {
    code in db.invites && checkedAt < db.invites[code].expires
  }

  predicate FirstIs(db: Db, user: string)
  {
    |db.users| > 0 && db.users[0].name == user
  }

  predicate HandlerOk(w: World, h: nat, c: Handler)
  {
    match c.pc
    case Checked(checkedAt) => InTime(w.db, c.code, checkedAt)
    case Marked(checkedAt, usedAt) =>
      && w.writer == Some(h) && InTime(w.db, c.code, checkedAt) && w.db.invites[c.code].used.None?
      && w.tx == w.db.(invites := Consumed(w.db.invites, c.code, Use(c.user, usedAt)))
    case Inserted(checkedAt, usedAt) =>
      w.writer == Some(h) && Registered(w.db, c.code, c.user, checkedAt, usedAt, true, true) == (w.tx, None)
    case Committed => Has(w.db.users, c.user)
    case Counted => FirstIs(w.db, c.user)
    case _ => true
  }

  predicate Writing(w: World, h: nat)
  {
    h in w.handlers && (w.handlers[h].pc.Marked? || w.handlers[h].pc.Inserted?)
  }

  predicate Inv(w: World)
  {
    && (forall h <- w.handlers :: HandlerOk(w, h, w.handlers[h]))
    && (w.writer.Some? ==> Writing(w, w.writer.value))
    && Sound(w.log) && w.db == Replay(w.log)
  }

  /** Rows are never removed, and invites keep their expiry. */
  predicate Grows(before: Db, after: Db)
  {
    && |before.users| <= |after.users|
    && (forall i | 0 <= i < |before.users| :: after.users[i].name == before.users[i].name)
    && before.invites.Keys <= after.invites.Keys
    && (forall code <- before.invites :: after.invites[code].expires == before.invites[code].expires)
  }

  lemma HasGrows(before: Db, after: Db, user: string)
    requires Grows(before, after) && Has(before.users, user)
    ensures Has(after.users, user)
  {
    var i :| 0 <= i < |before.users| && before.users[i].name == user;
    assert after.users[i].name == user;
  }

  lemma OtherOk(w: World, t: World, h: nat, c: Handler)
    requires HandlerOk(w, h, c) && Grows(w.db, t.db)
    requires c.pc.Marked? || c.pc.Inserted? ==> w.db == t.db && w.tx == t.tx && w.writer == t.writer
    ensures HandlerOk(t, h, c)
  {
    if c.pc.Committed? {
      HasGrows(w.db, t.db, c.user);
    }
  }

  lemma ApplyGrows(db: Db, e: Effect)
    requires Succeeds(db, e)
    ensures Grows(db, Apply(db, e))
  {
  }

  /** The effect a step adds to the log, if any. */
  function EffectOf(w: World, step: Step): seq<Effect>
  {
    if !Enabled(w, step) then []
    else match step
      case Commit(h) =>
        var c := w.handlers[h];
        [Joined(h, c.code, c.user, c.pc.checkedAt, c.pc.usedAt)]
      case Grant(h) => [Promoted(h, w.handlers[h].user)]
      case CreateInvite(code, expiresAt) => [Invited(code, expiresAt)]
      case AdminCreate(user) => [Made(user)]
      case _ => []
  }

  /** Each write takes effect as the atomic action it stands for. */
  lemma StepEffect(w: World, step: Step)
    requires Inv(w)
    ensures var t, e := Next(w, step), EffectOf(w, step);
            && t.log == w.log + e
            && (e == [] ==> t.db == w.db)
            && (e != [] ==> Succeeds(w.db, e[0]) && t.db == Apply(w.db, e[0]))
  {
    if step.Commit? || step.Grant? {
      if step.h in w.handlers {
        assert HandlerOk(w, step.h, w.handlers[step.h]);
      }
    }
    hide Sound, Replay, Has, HasAdmin;
  }

  lemma StepHandlers(w: World, step: Step)
    requires Inv(w)
    ensures forall h <- Next(w, step).handlers :: HandlerOk(Next(w, step), h, Next(w, step).handlers[h])
  {
    var t := Next(w, step);
    StepGrows(w, step);
    forall h <- t.handlers
      ensures HandlerOk(t, h, t.handlers[h])
    {
      if h in w.handlers {
        assert HandlerOk(w, h, w.handlers[h]);
        if t.handlers[h] == w.handlers[h] {
          if Writing(w, h) {
            OthersKeep(w, step, h);
          }
          OtherOk(w, t, h, t.handlers[h]);
        } else {
          MovedOk(w, step, h);
        }
      }
    }
  }

  lemma StepGrows(w: World, step: Step)
    requires Inv(w)
    ensures Grows(w.db, Next(w, step).db)
  {
    StepEffect(w, step);
    var e := EffectOf(w, step);
    if e != [] {
      ApplyGrows(w.db, e[0]);
    }
  }

  /** A transaction that holds the write lock sees no change by others. */
  lemma OthersKeep(w: World, step: Step, h: nat)
    requires Inv(w) && Writing(w, h) && Next(w, step).handlers[h] == w.handlers[h]
    ensures var t := Next(w, step); w.db == t.db && w.tx == t.tx && w.writer == t.writer
  {
  }

  lemma MovedOk(w: World, step: Step, h: nat)
    requires Inv(w) && h in w.handlers && Next(w, step).handlers[h] != w.handlers[h]
    ensures HandlerOk(Next(w, step), h, Next(w, step).handlers[h])
  {
    var c := w.handlers[h];
    assert HandlerOk(w, h, c);
    if step.Commit? {
      RegisteredHas(w.db, c.code, c.user, c.pc.checkedAt, c.pc.usedAt);
    }
  }

  lemma NextInv(w: World, step: Step)
    requires Inv(w)
    ensures Inv(Next(w, step))
  {
    StepHandlers(w, step);
    StepEffect(w, step);
    var e := EffectOf(w, step);
    if e != [] {
      LogMore(w.log, e[0]);
    }
  }

  lemma {:induction false} ResumeInv(w: World, steps: seq<Step>)
    requires Inv(w)
    ensures Inv(Resume(w, steps))
  {
    if steps != [] {
      ResumeInv(w, steps[..|steps| - 1]);
      NextInv(Resume(w, steps[..|steps| - 1]), steps[|steps| - 1]);
    }
  }

  lemma ExecInv(steps: seq<Step>)
    ensures Inv(Exec(steps))
  {
    assert Inv(BEGIN);
    ResumeInv(BEGIN, steps);
  }

  // ---------------------------------------------------------------------------
  // What the order of writes gives
  // ---------------------------------------------------------------------------

  /** The users created through invites, and those made by an administrator. */
  function Through(log: seq<Effect>): seq<Effect>
  {
    if log == [] then []
    else Through(log[..|log| - 1]) + if log[|log| - 1].Joined? then [log[|log| - 1]] else []
  }

  function MadeCount(log: seq<Effect>): nat
  {
    if log == [] then 0 else MadeCount(log[..|log| - 1]) + if log[|log| - 1].Made? then 1 else 0
  }

  function UsedCodes(db: Db): set<string>
  {
    set code | code in db.invites && db.invites[code].used.Some?
  }

  /** The invite was consumed by this user, who exists, after a check before its expiry. */
  predicate Honoured(db: Db, e: Effect)
  {
    e.Joined? ==>
      && InTime(db, e.code, e.checkedAt)
      && db.invites[e.code].used == Some(Use(e.user, e.usedAt)) && Has(db.users, e.user)
  }

  lemma UsedStep(db: Db, e: Effect)
    requires Succeeds(db, e)
    ensures UsedCodes(Apply(db, e)) == UsedCodes(db) + if e.Joined? then {e.code} else {}
    ensures e.Joined? ==> e.code !in UsedCodes(db) && Honoured(Apply(db, e), e)
  {
    if e.Joined? {
      RegisteredHas(db, e.code, e.user, e.checkedAt, e.usedAt);
    }
    hide Has, HasAdmin;
  }

  /** As many invites are consumed as users were created through invites. */
  lemma {:induction false} InvitesBalance(log: seq<Effect>)
    requires Sound(log)
    ensures |UsedCodes(Replay(log))| == |Through(log)|
    ensures |Replay(log).users| == |Through(log)| + MadeCount(log)
  {
    if log != [] {
      var before, e := log[..|log| - 1], log[|log| - 1];
      InvitesBalance(before);
      UsedStep(Replay(before), e);
    }
  }

  lemma HonouredStep(db: Db, e: Effect, past: Effect)
    requires Succeeds(db, e) && Honoured(db, past)
    ensures Honoured(Apply(db, e), past)
    ensures e.Joined? && past.Joined? ==> e.code != past.code && e.user != past.user
  {
    if past.Joined? {
      ApplyGrows(db, e);
      HasGrows(db, Apply(db, e), past.user);
    }
  }

  /** No invite is consumed twice and no user created twice. */
  lemma {:induction false} InvitesUsedOnce(log: seq<Effect>)
    requires Sound(log)
    ensures forall i | 0 <= i < |log| :: Honoured(Replay(log), log[i])
    ensures forall i, j | 0 <= i < j < |log| && log[i].Joined? && log[j].Joined? ::
              log[i].code != log[j].code && log[i].user != log[j].user
  {
    if log != [] {
      var before, e := log[..|log| - 1], log[|log| - 1];
      InvitesUsedOnce(before);
      UsedStep(Replay(before), e);
      forall i | 0 <= i < |before|
        ensures Honoured(Replay(log), log[i])
        ensures e.Joined? && log[i].Joined? ==> log[i].code != e.code && log[i].user != e.user
      {
        assert log[i] == before[i];
        HonouredStep(Replay(before), e, before[i]);
      }
      hide Honoured, Replay;
      assert forall i | 0 <= i < |before| :: log[i] == before[i];
    }
  }

  lemma {:induction false} NamesUnique(log: seq<Effect>)
    requires Sound(log)
    ensures Unique(Replay(log).users)
  {
    if log != [] {
      NamesUnique(log[..|log| - 1]);
    }
  }

  predicate OnlyFirst(users: seq<User>)
  {
    forall i | 0 <= i < |users| :: users[i].admin ==> i == 0
  }

  lemma {:induction false} OnlyFirstIsAdmin(log: seq<Effect>)
    requires Sound(log)
    ensures OnlyFirst(Replay(log).users)
  {
    if log != [] {
      OnlyFirstIsAdmin(log[..|log| - 1]);
      NamesUnique(log[..|log| - 1]);
    }
  }

  // ---------------------------------------------------------------------------
  // Every interleaving
  // ---------------------------------------------------------------------------

  /** The log has exactly one entry for each handler that committed, none for the others. */
  predicate Logged(w: World)
  {
    && (forall i | 0 <= i < |w.log| && w.log[i].Joined? ::
          LoggedAs(w, w.log[i]))
    && (forall i, j | 0 <= i < j < |w.log| && w.log[i].Joined? && w.log[j].Joined? :: w.log[i].h != w.log[j].h)
    && (forall h <- w.handlers | Landed(w.handlers[h].pc) :: InLog(w.log, h))
  }

  predicate LoggedAs(w: World, e: Effect)
    requires e.Joined?
  {
    e.h in w.handlers && Landed(w.handlers[e.h].pc) && w.handlers[e.h].code == e.code && w.handlers[e.h].user == e.user
  }

  predicate InLog(log: seq<Effect>, h: nat)
  {
    exists i | 0 <= i < |log| :: log[i].Joined? && log[i].h == h
  }

  /** A handler keeps its request, and once committed stays so. */
  lemma HandlersStep(w: World, step: Step, h: nat)
    requires h in w.handlers
    ensures var t := Next(w, step);
            && h in t.handlers && t.handlers[h].code == w.handlers[h].code && t.handlers[h].user == w.handlers[h].user
            && (Landed(w.handlers[h].pc) ==> Landed(t.handlers[h].pc))
            && (Landed(t.handlers[h].pc) ==> Landed(w.handlers[h].pc) || (step == Commit(h) && Enabled(w, step)))
            && (step == Commit(h) && Enabled(w, step) ==> !Landed(w.handlers[h].pc) && Landed(t.handlers[h].pc))
  {
  }

  lemma InLogMore(log: seq<Effect>, more: seq<Effect>, h: nat)
    ensures InLog(log, h) ==> InLog(log + more, h)
    ensures |more| == 1 && more[0].Joined? && more[0].h == h ==> InLog(log + more, h)
  {
    if InLog(log, h) {
      var i :| 0 <= i < |log| && log[i].Joined? && log[i].h == h;
      assert (log + more)[i] == log[i];
    }
    if |more| == 1 {
      assert (log + more)[|log|] == more[0];
    }
  }

  lemma LoggedStep(w: World, step: Step)
    requires Inv(w) && Logged(w)
    ensures Logged(Next(w, step))
  {
    var t, e := Next(w, step), EffectOf(w, step);
    StepEffect(w, step);
    NewHandlers(w, step);
    hide Next, Inv, HandlerOk;
    forall h <- w.handlers
      ensures h in t.handlers
      ensures Landed(t.handlers[h].pc) ==> InLog(t.log, h)
    {
      HandlersStep(w, step, h);
      InLogMore(w.log, e, h);
    }
    forall i | 0 <= i < |t.log| && t.log[i].Joined?
      ensures LoggedAs(t, t.log[i])
      ensures i < |w.log| ==> e != [] && e[0].Joined? ==> t.log[i].h != e[0].h
    {
      if i < |w.log| {
        assert LoggedAs(w, w.log[i]);
        HandlersStep(w, step, w.log[i].h);
      }
    }
    hide LoggedAs, InLog, Landed;
  }

  lemma NewHandlers(w: World, step: Step)
    ensures forall h <- Next(w, step).handlers :: h !in w.handlers ==> !Landed(Next(w, step).handlers[h].pc)
  {
  }

  /**
   * Every interleaving is equal to running its committed registrations, invites and
   * grants one after the other: each takes effect as its atomic action at its commit,
   * on the tables as they are then. A handler that is refused, or has not committed,
   * appears nowhere in that order, so it leaves users and invites unchanged.
   */
  lemma {:induction false} Linearizes(steps: seq<Step>)
    ensures var w := Exec(steps); w.db == Replay(w.log) && Sound(w.log) && Logged(w)
  {
    if steps == [] {
      assert Inv(BEGIN);
    } else {
      var before, step := steps[..|steps| - 1], steps[|steps| - 1];
      Linearizes(before);
      ExecInv(before);
      ExecInv(steps);
      LoggedStep(Exec(before), step);
    }
  }

  /**
   * Under every interleaving an invite is consumed by at most one user, who exists and
   * whose check came before the expiry; and the consumed invites are as many as the
   * users created through invites.
   */
  lemma InvitesSingleUse(steps: seq<Step>)
    ensures var w := Exec(steps);
            && (forall i | 0 <= i < |w.log| :: Honoured(w.db, w.log[i]))
            && (forall i, j | 0 <= i < j < |w.log| && w.log[i].Joined? && w.log[j].Joined? ::
                  w.log[i].code != w.log[j].code && w.log[i].user != w.log[j].user)
            && |UsedCodes(w.db)| == |Through(w.log)|
            && |w.db.users| == |Through(w.log)| + MadeCount(w.log)
            && Unique(w.db.users)
  {
    Linearizes(steps);
    hide *;
    InvitesUsedOnce(Exec(steps).log);
    InvitesBalance(Exec(steps).log);
    NamesUnique(Exec(steps).log);
  }

  /** Under every interleaving nobody but the first user ever committed is an administrator. */
  lemma AdminIsFirst(steps: seq<Step>)
    ensures OnlyFirst(Exec(steps).db.users)
  {
    Linearizes(steps);
    OnlyFirstIsAdmin(Exec(steps).log);
  }

  /** When nothing comes between the first commit, its count and its grant, the first user is the one administrator. */
  lemma UndisturbedFirstIsAdmin(steps: seq<Step>, h: nat)
    requires Exec(steps).db.users == [] && h in Exec(steps).handlers && Exec(steps).handlers[h].pc.Inserted?
    ensures Resume(Exec(steps), [Commit(h), Count(h), Grant(h)]).db.users == [User(Exec(steps).handlers[h].user, true)]
  {
    ExecInv(steps);
    var w := Exec(steps);
    assert HandlerOk(w, h, w.handlers[h]);
    hide Exec, Inv;
    var w1 := Next(w, Commit(h));
    assert w1.db.users == [User(w.handlers[h].user, false)];
    var w2 := Next(w1, Count(h));
    var w3 := Next(w2, Grant(h));
    assert w3.db.users == [User(w.handlers[h].user, true)];
    ResumeThree(w, Commit(h), Count(h), Grant(h));
  }

  lemma ResumeMore(w: World, steps: seq<Step>, step: Step)
    ensures Resume(w, steps + [step]) == Next(Resume(w, steps), step)
  {
    assert (steps + [step])[..|steps|] == steps;
  }

  lemma ResumeThree(w: World, a: Step, b: Step, c: Step)
    ensures Resume(w, [a, b, c]) == Next(Next(Next(w, a), b), c)
  {
    ResumeMore(w, [], a);
    ResumeMore(w, [a], b);
    ResumeMore(w, [a, b], c);
    assert [] + [a] == [a] && [a] + [b] == [a, b] && [a, b] + [c] == [a, b, c];
  }

  // ---------------------------------------------------------------------------
  // No administrator
  // ---------------------------------------------------------------------------

  /** There are users, none is an administrator, and no handler can still grant it. */
  predicate LockedOut(w: World)
  {
    && w.db.users != [] && !HasAdmin(w.db)
    && forall h <- w.handlers :: !w.handlers[h].pc.Counted? && !(w.handlers[h].pc.Committed? && |w.db.users| == 1)
  }

  lemma LockedOutStep(w: World, step: Step)
    requires Inv(w) && LockedOut(w)
    ensures LockedOut(Next(w, step))
  {
    StepEffect(w, step);
    StepGrows(w, step);
    hide Inv, Has;
    assert !step.Grant? || !Enabled(w, step);
    var t := Next(w, step);
    if step.Commit? && Enabled(w, step) {
      assert |t.db.users| >= 2;
    }
  }

  lemma {:induction false} LockedOutForever(w: World, steps: seq<Step>)
    requires Inv(w) && LockedOut(w)
    ensures LockedOut(Resume(w, steps))
  {
    if steps != [] {
      LockedOutForever(w, steps[..|steps| - 1]);
      ResumeInv(w, steps[..|steps| - 1]);
      LockedOutStep(Resume(w, steps[..|steps| - 1]), steps[|steps| - 1]);
    }
  }

  /** Roll back the transaction in progress, if any; then count if need be, and grant. */
  function Rescue(w: World, h: nat): seq<Step>
    requires h in w.handlers
  {
    if w.writer.Some? then [Fail(w.writer.value), Count(h), Grant(h)] else [Count(h), Grant(h)]
  }

  lemma FreedForGrant(w: World, h: nat)
    requires Inv(w) && h in w.handlers && w.db.users != []
    requires w.handlers[h].pc.Counted? || (w.handlers[h].pc.Committed? && |w.db.users| == 1)
    ensures var t := if w.writer.Some? then Next(w, Fail(w.writer.value)) else w;
            t.writer.None? && t.db == w.db && h in t.handlers && t.handlers[h] == w.handlers[h] && FirstIs(w.db, w.handlers[h].user)
  {
    assert HandlerOk(w, h, w.handlers[h]);
  }

  lemma GrantNow(w: World, h: nat)
    requires h in w.handlers && w.writer.None? && FirstIs(w.db, w.handlers[h].user)
    requires w.handlers[h].pc.Counted? || (w.handlers[h].pc.Committed? && |w.db.users| == 1)
    ensures HasAdmin(Next(Next(w, Count(h)), Grant(h)).db)
  {
    var t := Next(Next(w, Count(h)), Grant(h));
    assert t.db.users[0].admin;
  }

  lemma RescueGrants(w: World, h: nat)
    requires Inv(w) && h in w.handlers && w.db.users != []
    requires w.handlers[h].pc.Counted? || (w.handlers[h].pc.Committed? && |w.db.users| == 1)
    ensures HasAdmin(Resume(w, Rescue(w, h)).db)
  {
    FreedForGrant(w, h);
    hide Next, Inv, HasAdmin, FirstIs;
    if w.writer.Some? {
      GrantNow(Next(w, Fail(w.writer.value)), h);
      ResumeThree(w, Fail(w.writer.value), Count(h), Grant(h));
    } else {
      GrantNow(w, h);
      ResumeMore(w, [], Count(h));
      ResumeMore(w, [Count(h)], Grant(h));
      assert [] + [Count(h)] == [Count(h)] && [Count(h)] + [Grant(h)] == [Count(h), Grant(h)];
    }
  }

  /** Some further steps lead to an administrator. */
  ghost predicate AdminPossible(w: World)
  {
    exists more :: AdminAfter(w, more)
  }

  predicate AdminAfter(w: World, more: seq<Step>)
  {
    HasAdmin(Resume(w, more).db)
  }

  /**
   * Once there are users, exactly when there can still be an administrator, now or after
   * any further steps: unless the system is locked out.
   */
  lemma AdminPossibleExactly(steps: seq<Step>)
    requires Exec(steps).db.users != []
    ensures AdminPossible(Exec(steps)) <==> !LockedOut(Exec(steps))
  {
    ExecInv(steps);
    var w := Exec(steps);
    if LockedOut(w) {
      forall more
        ensures !AdminAfter(w, more)
      {
        LockedOutForever(w, more);
      }
    } else if HasAdmin(w.db) {
      ResumeNone(w);
      assert AdminAfter(w, NoSteps());
    } else {
      var h :| h in w.handlers && (w.handlers[h].pc.Counted? || (w.handlers[h].pc.Committed? && |w.db.users| == 1));
      RescueGrants(w, h);
      assert AdminAfter(w, Rescue(w, h));
    }
  }

  function NoSteps(): seq<Step> {
    []
  }

  lemma ResumeNone(w: World)
    ensures Resume(w, NoSteps()) == w
  {
  }

  /** One registration from request to commit, with nothing in between. */
  function Alone(h: nat, code: string, user: string, checkedAt: int, usedAt: int): seq<Step>
  {
    [Request(h, code, user), Check(h, checkedAt), Mark(h, usedAt), Insert(h), Commit(h)]
  }

  /**
   * Undisturbed, the steps of a handler commit exactly when the invite is valid and the name
   * is free, and then do what the transaction does; otherwise they end refused and change
   * no table.
   */
  lemma AloneExactly(w: World, h: nat, code: string, user: string, checkedAt: int, usedAt: int)
    requires w.writer.None? && h !in w.handlers
    ensures var t := Resume(w, Alone(h, code, user, checkedAt, usedAt));
            && t.writer.None?
            && if Valid(w.db.invites, code, checkedAt) && !Has(w.db.users, user) then
                 t.handlers == w.handlers[h := Handler(code, user, Committed)]
                 && t.db == Db(w.db.users + [User(user, false)],
                               w.db.invites[code := Invite(w.db.invites[code].expires, Some(Use(user, usedAt)))])
               else t.handlers == w.handlers[h := Handler(code, user, Refused)] && t.db == w.db
  {
    var w1 := Next(w, Request(h, code, user));
    var w2 := Next(w1, Check(h, checkedAt));
    var w3 := Next(w2, Mark(h, usedAt));
    var w4 := Next(w3, Insert(h));
    ResumeFive(w, Request(h, code, user), Check(h, checkedAt), Mark(h, usedAt), Insert(h), Commit(h));
    if !Valid(w.db.invites, code, checkedAt) {
      var refused := w.(handlers := w.handlers[h := Handler(code, user, Refused)]);
      assert w2 == refused && w3 == refused && w4 == refused;
    } else {
      AloneInserts(w, h, code, user, checkedAt, usedAt);
    }
  }

  lemma AloneInserts(w: World, h: nat, code: string, user: string, checkedAt: int, usedAt: int)
    requires w.writer.None? && h !in w.handlers && Valid(w.db.invites, code, checkedAt)
    ensures var w3 := Next(Next(Next(w, Request(h, code, user)), Check(h, checkedAt)), Mark(h, usedAt));
            var t := Next(Next(w3, Insert(h)), Commit(h));
            && t.writer.None?
            && if !Has(w.db.users, user) then
                 t.handlers == w.handlers[h := Handler(code, user, Committed)]
                 && t.db == Db(w.db.users + [User(user, false)],
                               w.db.invites[code := Invite(w.db.invites[code].expires, Some(Use(user, usedAt)))])
               else t.handlers == w.handlers[h := Handler(code, user, Refused)] && t.db == w.db
  {
    var w2 := Next(Next(w, Request(h, code, user)), Check(h, checkedAt));
    assert w2 == w.(handlers := w.handlers[h := Handler(code, user, Checked(checkedAt))]);
    var w3 := Next(w2, Mark(h, usedAt));
    assert w3 == w.(handlers := w.handlers[h := Handler(code, user, Marked(checkedAt, usedAt))], writer := Some(h),
      tx := w.db.(invites := Consumed(w.db.invites, code, Use(user, usedAt))));
    var w4 := Next(w3, Insert(h));
    hide Has;
    if Has(w.db.users, user) {
      assert w4.handlers == w.handlers[h := Handler(code, user, Refused)];
    } else {
      assert w4.handlers == w.handlers[h := Handler(code, user, Inserted(checkedAt, usedAt))];
      assert Next(w4, Commit(h)).handlers == w.handlers[h := Handler(code, user, Committed)];
    }
  }

  lemma ResumeFive(w: World, a: Step, b: Step, c: Step, d: Step, e: Step)
    ensures Resume(w, [a, b, c, d, e]) == Next(Next(Next(Next(Next(w, a), b), c), d), e)
  {
    hide Next;
    ResumeThree(w, a, b, c);
    ResumeMore(w, [a, b, c], d);
    ResumeMore(w, [a, b, c, d], e);
    assert [a, b, c] + [d] == [a, b, c, d] && [a, b, c, d] + [e] == [a, b, c, d, e];
  }

  lemma {:induction false} ResumeAppend(w: World, a: seq<Step>, b: seq<Step>)
    ensures Resume(w, a + b) == Resume(Resume(w, a), b)
  {
    if b == [] {
      assert a + b == a;
    } else {
      assert (a + b)[..|a + b| - 1] == a + b[..|b| - 1];
      ResumeAppend(w, a, b[..|b| - 1]);
    }
  }

  /**
   * Two registrations that both commit before either counts the users leave the system
   * without an administrator for good: both counts read two.
   */
  lemma NoAdminRun()
    ensures var invited := [CreateInvite("a", 600 * SECOND), CreateInvite("b", 600 * SECOND)];
            LockedOut(Exec(invited + Alone(1, "a", "ann", 0, 0) + Alone(2, "b", "bob", 0, 0)))
  {
    var invited := [CreateInvite("a", 600 * SECOND), CreateInvite("b", 600 * SECOND)];
    TwoInvited();
    hide *;
    ResumeAppend(BEGIN, invited, Alone(1, "a", "ann", 0, 0));
    ResumeAppend(BEGIN, invited + Alone(1, "a", "ann", 0, 0), Alone(2, "b", "bob", 0, 0));
    BothCommit(Resume(BEGIN, invited));
    ExecIs(invited + Alone(1, "a", "ann", 0, 0) + Alone(2, "b", "bob", 0, 0));
  }

  lemma ExecIs(steps: seq<Step>)
    ensures Exec(steps) == Resume(BEGIN, steps)
  {
  }

  predicate HasTwoInvites(w: World)
  {
    var open := Invite(600 * SECOND, None);
    w.db == Db([], map["a" := open, "b" := open]) && w.writer.None? && w.handlers == map[]
  }

  lemma TwoInvited()
    ensures HasTwoInvites(Resume(BEGIN, [CreateInvite("a", 600 * SECOND), CreateInvite("b", 600 * SECOND)]))
  {
    assert "a" != "b" by { assert "a"[0] != "b"[0]; }
    InviteTwo("a", "b");
  }

  lemma InviteTwo(x: string, y: string)
    requires x != y
    ensures var open := Invite(600 * SECOND, None);
            var w := Resume(BEGIN, [CreateInvite(x, 600 * SECOND), CreateInvite(y, 600 * SECOND)]);
            w.db == Db([], map[x := open, y := open]) && w.writer.None? && w.handlers == map[]
  {
    var open := Invite(600 * SECOND, None);
    ResumeTwo(BEGIN, CreateInvite(x, 600 * SECOND), CreateInvite(y, 600 * SECOND));
    hide Resume, Next;
    InviteStep(BEGIN, x);
    var w := Next(BEGIN, CreateInvite(x, 600 * SECOND));
    assert y !in w.db.invites;
    InviteStep(w, y);
  }

  lemma InviteStep(w: World, code: string)
    requires w.writer.None? && code !in w.db.invites
    ensures var t := Next(w, CreateInvite(code, 600 * SECOND));
            && t.db == Db(w.db.users, w.db.invites[code := Invite(600 * SECOND, None)])
            && t.writer.None? && t.handlers == w.handlers
  {
    assert Stored(600 * SECOND) == 600 * SECOND;
  }

  lemma ResumeTwo(w: World, a: Step, b: Step)
    ensures Resume(w, [a, b]) == Next(Next(w, a), b)
  {
    ResumeMore(w, [], a);
    ResumeMore(w, [a], b);
    assert [] + [a] == [a] && [a] + [b] == [a, b];
    hide Next;
  }

  lemma BothCommit(w: World)
    requires HasTwoInvites(w)
    ensures LockedOut(Resume(Resume(w, Alone(1, "a", "ann", 0, 0)), Alone(2, "b", "bob", 0, 0)))
  {
    hide Resume, Alone, Next;
    assert "a" != "b" by { assert "a"[0] != "b"[0]; }
    AloneExactly(w, 1, "a", "ann", 0, 0);
    var w1 := Resume(w, Alone(1, "a", "ann", 0, 0));
    assert !Has(w1.db.users, "bob") by { assert "ann"[0] != "bob"[0]; }
    AloneExactly(w1, 2, "b", "bob", 0, 0);
    var w2 := Resume(w1, Alone(2, "b", "bob", 0, 0));
    assert |w2.db.users| == 2 && w2.handlers == map[1 := Handler("a", "ann", Committed), 2 := Handler("b", "bob", Committed)];
  }
}
