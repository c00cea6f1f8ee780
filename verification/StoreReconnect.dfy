/** The database handle: when a dead connection may be replaced without losing a write. */
module StoreReconnect {
  import opened SqlText

  // ---------------------------------------------------------------------------
  // Reads and writes

  /** `_is_read`. `selects` says whether six characters, upper-cased, are SELECT. */
  predicate IsRead(al: Alphabet, selects: string -> bool, sql: string) {
    var head := LStrip(al, sql);
    var first := head[..if |head| < 6 then |head| else 6];
    selects(first) && (|head| <= 6 || !al.Word(head[6]))
  }

  /** Only a statement whose whole first word is SELECT counts as a read. */
  lemma IsReadIsFirstWord(al: Alphabet, selects: string -> bool, sql: string)
    requires forall w :: selects(w) ==> |w| == 6 && forall k :: 0 <= k < 6 ==> al.Word(w[k])
    ensures var head := LStrip(al, sql);
            IsRead(al, selects, sql) <==> selects(head[..RunLength(al, head)])
  {
    var head := LStrip(al, sql);
    var n := RunLength(al, head);
    if IsRead(al, selects, sql) {
      var first := head[..if |head| < 6 then |head| else 6];
      assert selects(first);
      forall k | 0 <= k < 6 ensures al.Word(head[k]) {
        assert head[k] == first[k];
      }
      RunLengthIs(al, head, 6);
    }
    if selects(head[..n]) {
      assert |head[..n]| == 6;
    }
  }

  // ---------------------------------------------------------------------------
  // One connection, as its driver and its server behave

  /** `closed` is what the driver knows, `alive` whether the server still serves it. `pending` is what
      a COMMIT would make durable; a connection that dies or aborts has nothing pending. */
  datatype Conn = Conn(closed: bool, alive: bool, begun: bool, aborted: bool, pending: seq<string>)

  const FRESH := Conn(false, true, false, false, [])

  /** How a message to the server ends, if there is a connection to carry it. */
  datatype Luck = Works | Fails(operational: bool) | Dies

  datatype Reply = Done | InterfaceError | OperationalError | OtherError

  function Dead(c: Conn): Conn {
    c.(closed := true, alive := false, pending := [])
  }

  /** `cursor()` and `cursor.execute` */
  function Send(c: Conn, sql: string, writes: bool, luck: Luck): (Conn, Reply) {
    if c.closed then (c, InterfaceError)
    else if !c.alive || luck.Dies? then (Dead(c), OperationalError)
    else if c.aborted then (c, OtherError)
    else match luck
      case Works => (c.(begun := true, pending := if writes then c.pending + [sql] else c.pending), Done)
      case Fails(operational) =>
        (c.(begun := true, aborted := true, pending := []), if operational then OperationalError else OtherError)
  }

  /** `conn.commit()`: the connection after it, what became durable, and whether it returned. A commit
      whose connection dies may or may not have `landed`. */
  function CommitConn(c: Conn, luck: Luck, landed: bool): (Conn, seq<string>, bool) {
    if c.closed then (c, [], false)
    else if !c.begun then (c, [], true)
    else if !c.alive || luck.Dies? then (Dead(c), if c.alive && landed then c.pending else [], false)
    else if luck.Fails? then (c.(begun := false, aborted := false, pending := []), [], false)
    else (c.(begun := false, aborted := false, pending := []), c.pending, true)
  }

  function RollbackConn(c: Conn, luck: Luck): (Conn, bool) {
    if c.closed then (c, false)
    else if !c.begun then (c, true)
    else if !c.alive || !luck.Works? then (Dead(c), false)
    else (c.(begun := false, aborted := false, pending := []), true)
  }

  // ---------------------------------------------------------------------------
  // The handle

  datatype Config = Config(postgres: bool, url: bool, isRead: string -> bool)

  /** The handle's three fields and the database, and what its caller has been told: the writes
      acknowledged and whether an error surfaced since the last commit or rollback, and over the
      whole run the acknowledged writes of every commit that returned. */
  datatype State = State(
    conn: Conn, mid: bool, held: bool,
    durable: seq<string>,
    acked: seq<string>, surfaced: bool,
    ledger: seq<string>, doubtful: bool)

  const INITIAL := State(FRESH, false, false, [], [], false, [], false)

  function ExecuteOnce(cfg: Config, s: State, sql: string, luck: Luck): (State, Reply) {
    var (c, r) := Send(s.conn, sql, !cfg.isRead(sql), luck);
    (s.(conn := c, mid := s.mid || (r == Done && !cfg.isRead(sql))), r)
  }

  /** What the caller learns from a reply. */
  function Told(cfg: Config, s: State, sql: string, r: Reply): State {
    if r != Done then s.(surfaced := true)
    else if cfg.isRead(sql) then s
    else s.(acked := s.acked + [sql])
  }

  predicate IsDead(c: Conn, r: Reply) {
    r == InterfaceError || (r == OperationalError && c.closed)
  }

  predicate MayReconnect(cfg: Config, s: State) {
    !(s.mid || s.held || !cfg.url)
  }

  /** The first attempt left a dead connection that is replaced. */
  predicate Reconnects(cfg: Config, s: State, sql: string, luck: Luck, reopens: bool) {
    var (s1, r) := ExecuteOnce(cfg, s, sql, luck);
    r != Done && cfg.postgres && IsDead(s1.conn, r) && MayReconnect(cfg, s1) && reopens
  }

  /** `execute` */
  function Execute(cfg: Config, s: State, sql: string, luck: Luck, reopens: bool, again: Luck): (State, Reply) {
    var (s1, r) := ExecuteOnce(cfg, s, sql, luck);
    if !Reconnects(cfg, s, sql, luck, reopens) then (Told(cfg, s1, sql, r), r)
    else
      var (s2, r2) := ExecuteOnce(cfg, s1.(conn := FRESH), sql, again);
      (Told(cfg, s2, sql, r2), r2)
  }

  /** `commit` */
  function Commit(s: State, luck: Luck, landed: bool): (State, bool) {
    var (c, wrote, ok) := CommitConn(s.conn, luck, landed);
    if ok then
      (State(c, false, s.held, s.durable + wrote, [], false, s.ledger + s.acked, s.doubtful || s.surfaced), true)
    else (s.(conn := c, durable := s.durable + wrote, surfaced := true, doubtful := true), false)
  }

  /** `rollback` */
  function Rollback(s: State, luck: Luck): (State, bool) {
    var (c, ok) := RollbackConn(s.conn, luck);
    if ok then (s.(conn := c, mid := false, acked := [], surfaced := false), true)
    else (s.(conn := c, surfaced := true), false)
  }

  /** `close` */
  function Close(s: State): State {
    s.(conn := Dead(s.conn), mid := false, acked := [], surfaced := false)
  }

  /** `_run_script`: straight to the cursor, without the flag and without a reconnect. */
  function RunScript(cfg: Config, s: State, sql: string, luck: Luck): (State, Reply)
  {
    var (c, r) := Send(s.conn, sql, true, luck);
    (if r == Done then s.(conn := c, acked := s.acked + [sql]) else s.(conn := c, surfaced := true), r)
  }

  /** Taking the session lock: nothing is held until the statement has returned. */
  function TakeLock(cfg: Config, s: State, sql: string, luck: Luck, reopens: bool, again: Luck): (State, Reply) {
    var (s1, r) := Execute(cfg, s, sql, luck, reopens, again);
    (if r == Done then s1.(held := true) else s1, r)
  }

  /** The release after a failure: roll back, unlock, commit, each only if the last one worked. */
  function DropLock(cfg: Config, s: State, sql: string, l0: Luck, l1: Luck, l2: Luck, landed: bool): State {
    var (s1, rolled) := Rollback(s, l0);
    if !rolled then s1.(held := false)
    else
      var (s2, r) := Execute(cfg, s1, sql, l1, false, l1);
      if r != Done then s2.(held := false)
      else Commit(s2, l2, landed).0.(held := false)
  }

  /** The release after success: it lets an error through, and the lock stays marked then. */
  function GiveLock(cfg: Config, s: State, sql: string, luck: Luck, l1: Luck, landed: bool): State {
    var (s1, r) := Execute(cfg, s, sql, luck, false, luck);
    if r != Done then s1
    else
      var (s2, ok) := Commit(s1, l1, landed);
      if ok then s2.(held := false) else s2
  }

  class Store {
    const cfg: Config
    var conn: Conn
    var midTransaction: bool
    var sessionStateHeld: bool
    var durable: seq<string>
    ghost var acked: seq<string>
    ghost var surfaced: bool
    ghost var ledger: seq<string>
    ghost var doubtful: bool

    constructor (cfg: Config)
      ensures this.cfg == cfg && Value() == INITIAL
    {
      this.cfg, conn, midTransaction, sessionStateHeld, durable := cfg, FRESH, false, false, [];
      acked, surfaced, ledger, doubtful := [], false, [], false;
    }

    ghost function Value(): State
      reads this
    {
      State(conn, midTransaction, sessionStateHeld, durable, acked, surfaced, ledger, doubtful)
    }

    method AttemptOnce(sql: string, luck: Luck) returns (r: Reply)
      modifies `conn, `midTransaction
      ensures (Value(), r) == ExecuteOnce(cfg, old(Value()), sql, luck)
    {
      var sent := Send(conn, sql, !cfg.isRead(sql), luck);
      conn, r := sent.0, sent.1;
      if r == Done && !cfg.isRead(sql) {
        midTransaction := true;
      }
    }

    method Reconnected(reopens: bool) returns (ok: bool)
      modifies `conn
      ensures ok <==> MayReconnect(cfg, old(Value())) && reopens
      ensures conn == if ok then FRESH else old(conn)
    {
      if midTransaction || sessionStateHeld || !cfg.url {
        return false;
      }
      if reopens {
        conn := FRESH;
      }
      ok := reopens;
    }

    method Run(sql: string, luck: Luck, reopens: bool, again: Luck) returns (r: Reply)
      modifies this
      ensures (Value(), r) == Execute(cfg, old(Value()), sql, luck, reopens, again)
    {
      r := AttemptOnce(sql, luck);
      if r != Done && cfg.postgres && IsDead(conn, r) {
        var ok := Reconnected(reopens);
        if ok {
          r := AttemptOnce(sql, again);
        }
      }
      if r != Done {
        surfaced := true;
      } else if !cfg.isRead(sql) {
        acked := acked + [sql];
      }
    }

    method CommitUnit(luck: Luck, landed: bool) returns (ok: bool)
      modifies this
      ensures (Value(), ok) == Commit(old(Value()), luck, landed)
    {
      var done := CommitConn(conn, luck, landed);
      conn, durable, ok := done.0, durable + done.1, done.2;
      if ok {
        midTransaction := false;
        ledger, acked, doubtful, surfaced := ledger + acked, [], doubtful || surfaced, false;
      } else {
        surfaced, doubtful := true, true;
      }
    }

    method RollbackUnit(luck: Luck) returns (ok: bool)
      modifies this
      ensures (Value(), ok) == Rollback(old(Value()), luck)
    {
      var done := RollbackConn(conn, luck);
      conn, ok := done.0, done.1;
      if ok {
        midTransaction := false;
        acked, surfaced := [], false;
      } else {
        surfaced := true;
      }
    }
  }

  // ---------------------------------------------------------------------------
  // Runs

  datatype Step =
    | DoExecute(sql: string, luck: Luck, reopens: bool, again: Luck)
    | DoCommit(luck: Luck, landed: bool)
    | DoRollback(luck: Luck)
    | DoClose
    | ServerDrops
    | DoTakeLock(sql: string, luck: Luck, reopens: bool, again: Luck)
    | DoScript(sql: string, luck: Luck)
    | DoDropLock(sql: string, l0: Luck, l1: Luck, l2: Luck, landed: bool)
    | DoGiveLock(sql: string, luck: Luck, l1: Luck, landed: bool)

  /** Scripts run, and the lock is given back, only while it is held. */
  predicate Can(s: State, step: Step) {
    (step.DoScript? || step.DoDropLock? || step.DoGiveLock?) ==> s.held
  }

  function Do(cfg: Config, s: State, step: Step): State
    requires Can(s, step)
  {
    match step
    case DoExecute(sql, luck, reopens, again) => Execute(cfg, s, sql, luck, reopens, again).0
    case DoCommit(luck, landed) => Commit(s, luck, landed).0
    case DoRollback(luck) => Rollback(s, luck).0
    case DoClose => Close(s)
    case ServerDrops => s.(conn := s.conn.(alive := false, pending := []))
    case DoTakeLock(sql, luck, reopens, again) => TakeLock(cfg, s, sql, luck, reopens, again).0
    case DoScript(sql, luck) => RunScript(cfg, s, sql, luck).0
    case DoDropLock(sql, l0, l1, l2, landed) => DropLock(cfg, s, sql, l0, l1, l2, landed)
    case DoGiveLock(sql, luck, l1, landed) => GiveLock(cfg, s, sql, luck, l1, landed)
  }

  predicate Legal(cfg: Config, s: State, steps: seq<Step>)
    decreases |steps|
  {
    steps != [] ==> Can(s, steps[0]) && Legal(cfg, Do(cfg, s, steps[0]), steps[1..])
  }

  function After(cfg: Config, s: State, steps: seq<Step>): State
    requires Legal(cfg, s, steps)
    decreases |steps|
  {
    if steps == [] then s else After(cfg, Do(cfg, s, steps[0]), steps[1..])
  }

  predicate ConnValid(c: Conn) {
    && (c.closed || !c.alive || c.aborted ==> c.pending == [])
    && (c.closed ==> !c.alive)
    && (c.pending != [] || c.aborted ==> c.begun)
  }

  predicate Inv(s: State) {
    && ConnValid(s.conn)
    // an uncommitted write is marked
    && (s.conn.pending != [] ==> s.mid || s.held)
    // what the caller was told is what would be committed
    && (!s.surfaced && s.acked != [] ==> (s.mid || s.held) && s.conn.begun && !s.conn.closed)
    && (!s.surfaced && s.conn.alive ==> s.conn.pending == s.acked && !s.conn.aborted)
    && (!s.doubtful ==> s.durable == s.ledger)
  }

  lemma ExecuteKeeps(cfg: Config, s: State, sql: string, luck: Luck, reopens: bool, again: Luck)
    requires Inv(s)
    ensures Inv(Execute(cfg, s, sql, luck, reopens, again).0)
    ensures Execute(cfg, s, sql, luck, reopens, again).0.held == s.held
    ensures var (t, r) := Execute(cfg, s, sql, luck, reopens, again);
            r != Done ==> t.surfaced && t.conn.pending in {s.conn.pending, []}
  {
  }

  lemma CommitKeeps(s: State, luck: Luck, landed: bool)
    requires Inv(s)
    ensures Inv(Commit(s, luck, landed).0) && Commit(s, luck, landed).0.conn.pending == []
    ensures !Commit(s, luck, landed).1 ==> Commit(s, luck, landed).0.surfaced
    ensures Commit(s, luck, landed).1 ==> Commit(s, luck, landed).0.acked == []
  {
  }

  lemma RollbackKeeps(s: State, luck: Luck)
    requires Inv(s)
    ensures Inv(Rollback(s, luck).0) && Rollback(s, luck).0.conn.pending == []
    ensures !Rollback(s, luck).1 ==> Rollback(s, luck).0.surfaced
    ensures Rollback(s, luck).1 ==> Rollback(s, luck).0.acked == []
  {
  }

  lemma Unlocked(s: State)
    requires Inv(s) && s.conn.pending == [] && (s.surfaced || s.acked == [])
    ensures Inv(s.(held := false))
  {
  }

  lemma DropLockKeeps(cfg: Config, s: State, sql: string, l0: Luck, l1: Luck, l2: Luck, landed: bool)
    requires Inv(s)
    ensures Inv(DropLock(cfg, s, sql, l0, l1, l2, landed))
  {
    hide Inv, Execute, Commit, Rollback;
    RollbackKeeps(s, l0);
    var (s1, rolled) := Rollback(s, l0);
    if !rolled {
      Unlocked(s1);
    } else {
      ExecuteKeeps(cfg, s1, sql, l1, false, l1);
      var (s2, r) := Execute(cfg, s1, sql, l1, false, l1);
      if r != Done {
        Unlocked(s2);
      } else {
        CommitKeeps(s2, l2, landed);
        Unlocked(Commit(s2, l2, landed).0);
      }
    }
  }

  lemma GiveLockKeeps(cfg: Config, s: State, sql: string, luck: Luck, l1: Luck, landed: bool)
    requires Inv(s)
    ensures Inv(GiveLock(cfg, s, sql, luck, l1, landed))
  {
    hide Inv, Execute, Commit;
    ExecuteKeeps(cfg, s, sql, luck, false, luck);
    var (s1, r) := Execute(cfg, s, sql, luck, false, luck);
    if r == Done {
      CommitKeeps(s1, l1, landed);
      var (s2, ok) := Commit(s1, l1, landed);
      if ok {
        Unlocked(s2);
      }
    }
  }

  lemma StepKeeps(cfg: Config, s: State, step: Step)
    requires Inv(s) && Can(s, step)
    ensures Inv(Do(cfg, s, step))
  {
    hide Execute, Commit, Rollback, DropLock, GiveLock;
    match step
    case DoExecute(sql, luck, reopens, again) => ExecuteKeeps(cfg, s, sql, luck, reopens, again);
    case DoCommit(luck, landed) => CommitKeeps(s, luck, landed);
    case DoRollback(luck) => RollbackKeeps(s, luck);
    case DoTakeLock(sql, luck, reopens, again) => ExecuteKeeps(cfg, s, sql, luck, reopens, again);
    case DoDropLock(sql, l0, l1, l2, landed) => DropLockKeeps(cfg, s, sql, l0, l1, l2, landed);
    case DoGiveLock(sql, luck, l1, landed) => GiveLockKeeps(cfg, s, sql, luck, l1, landed);
    case _ =>
  }

  lemma InitialHolds()
    ensures Inv(INITIAL)
  {
  }

  lemma {:induction false} RunKeeps(cfg: Config, s: State, steps: seq<Step>)
    requires Inv(s) && Legal(cfg, s, steps)
    ensures Inv(After(cfg, s, steps))
    decreases |steps|
  {
    if steps != [] {
      StepKeeps(cfg, s, steps[0]);
      RunKeeps(cfg, Do(cfg, s, steps[0]), steps[1..]);
    }
  }

  // ---------------------------------------------------------------------------
  // Main results

  /** **An uncommitted write implies mid-transaction or held session state, and a reconnect happens in
      neither**: it loses no write, no acknowledgement and no lock. */
  lemma ReconnectSafe(cfg: Config, steps: seq<Step>, sql: string, luck: Luck, reopens: bool)
    requires Legal(cfg, INITIAL, steps)
    ensures var s := After(cfg, INITIAL, steps);
            && (s.conn.pending != [] ==> s.mid || s.held)
            && (Reconnects(cfg, s, sql, luck, reopens) ==>
                 s.conn.pending == [] && !s.mid && !s.held && (!s.surfaced ==> s.acked == []))
  {
    RunKeeps(cfg, INITIAL, steps);
  }

  /** **A commit that returns after a unit of work without a surfaced error makes durable exactly the
      acknowledged writes, each once and in order**, across any reconnect in between. */
  lemma CommitExact(cfg: Config, steps: seq<Step>, luck: Luck, landed: bool)
    requires Legal(cfg, INITIAL, steps)
    ensures var s := After(cfg, INITIAL, steps);
            var (t, ok) := Commit(s, luck, landed);
            ok && !s.surfaced ==> t.durable == s.durable + s.acked && t.conn.pending == []
  {
    RunKeeps(cfg, INITIAL, steps);
  }

  /** **Over a whole run**: while no commit has raised and none has closed a unit with a surfaced
      error, the database holds exactly the acknowledged writes of the commits that returned. */
  lemma DurableIsLedger(cfg: Config, steps: seq<Step>)
    requires Legal(cfg, INITIAL, steps)
    ensures var s := After(cfg, INITIAL, steps); !s.doubtful ==> s.durable == s.ledger
  {
    RunKeeps(cfg, INITIAL, steps);
  }

  /** A statement answered `Done` ran once, on the connection the handle now has; one that raised
      left nothing new to commit. */
  lemma ExecuteOnceOnly(cfg: Config, s: State, sql: string, luck: Luck, reopens: bool, again: Luck)
    requires Inv(s)
    ensures var (t, r) := Execute(cfg, s, sql, luck, reopens, again);
            && t.durable == s.durable
            && (r == Done && !cfg.isRead(sql) ==> t.conn.pending == s.conn.pending + [sql] && t.mid)
            && (r == Done && cfg.isRead(sql) ==> t.conn.pending == s.conn.pending && t.mid == s.mid)
            && (r != Done ==> t.conn.pending in {s.conn.pending, []} && t.mid == s.mid)
  {
  }

  // ---------------------------------------------------------------------------
  // A run in which nothing raised

  /** A database behind a connection that never fails: what is committed, and what a commit would add. */
  datatype Plain = Plain(durable: seq<string>, pending: seq<string>)

  function Wrote(cfg: Config, p: Plain, sql: string): Plain {
    if cfg.isRead(sql) then p else p.(pending := p.pending + [sql])
  }

  function Saved(p: Plain): Plain {
    Plain(p.durable + p.pending, [])
  }

  function PlainStep(cfg: Config, p: Plain, step: Step): Plain {
    match step
    case DoExecute(sql, _, _, _) => Wrote(cfg, p, sql)
    case DoCommit(_, _) => Saved(p)
    case DoRollback(_) => p.(pending := [])
    case DoClose => p.(pending := [])
    case ServerDrops => p
    case DoTakeLock(sql, _, _, _) => Wrote(cfg, p, sql)
    case DoScript(sql, _) => p.(pending := p.pending + [sql])
    case DoDropLock(sql, _, _, _, _) => Saved(Wrote(cfg, p.(pending := []), sql))
    case DoGiveLock(sql, _, _, _) => Saved(Wrote(cfg, p, sql))
  }

  function PlainRun(cfg: Config, p: Plain, steps: seq<Step>): Plain
    decreases |steps|
  {
    if steps == [] then p else PlainRun(cfg, PlainStep(cfg, p, steps[0]), steps[1..])
  }

  /** Nothing in the step raised. */
  predicate Returns(cfg: Config, s: State, step: Step) {
    match step
    case DoExecute(sql, luck, reopens, again) => Execute(cfg, s, sql, luck, reopens, again).1 == Done
    case DoCommit(luck, landed) => Commit(s, luck, landed).1
    case DoRollback(luck) => Rollback(s, luck).1
    case DoClose => true
    case ServerDrops => true
    case DoTakeLock(sql, luck, reopens, again) => TakeLock(cfg, s, sql, luck, reopens, again).1 == Done
    case DoScript(sql, luck) => RunScript(cfg, s, sql, luck).1 == Done
    case DoDropLock(sql, l0, l1, l2, landed) =>
      && Rollback(s, l0).1
      && var (s2, r) := Execute(cfg, Rollback(s, l0).0, sql, l1, false, l1); r == Done && Commit(s2, l2, landed).1
    case DoGiveLock(sql, luck, l1, landed) =>
      var (s1, r) := Execute(cfg, s, sql, luck, false, luck); r == Done && Commit(s1, l1, landed).1
  }

  predicate AllReturn(cfg: Config, s: State, steps: seq<Step>)
    requires Legal(cfg, s, steps)
    decreases |steps|
  {
    steps != [] ==> Returns(cfg, s, steps[0]) && AllReturn(cfg, Do(cfg, s, steps[0]), steps[1..])
  }

  /** The handle stands for the plain database: a connection that is gone took nothing with it that can
      still be acknowledged. */
  predicate StandsFor(s: State, p: Plain) {
    && ConnValid(s.conn) && s.durable == p.durable
    && (s.conn.alive ==> s.conn.pending == p.pending && !s.conn.aborted)
    && (p.pending != [] ==> (s.mid || s.held) && s.conn.begun && !s.conn.closed)
    && s.acked == p.pending && s.ledger == p.durable && !s.surfaced && !s.doubtful
  }

  lemma ExecuteStands(cfg: Config, s: State, p: Plain, sql: string, luck: Luck, reopens: bool, again: Luck)
    requires StandsFor(s, p) && Execute(cfg, s, sql, luck, reopens, again).1 == Done
    ensures StandsFor(Execute(cfg, s, sql, luck, reopens, again).0, Wrote(cfg, p, sql))
    ensures Execute(cfg, s, sql, luck, reopens, again).0.held == s.held
    ensures Execute(cfg, s, sql, luck, reopens, again).0.mid == (s.mid || !cfg.isRead(sql))
  {
  }

  lemma CommitStands(s: State, p: Plain, luck: Luck, landed: bool)
    requires StandsFor(s, p) && Commit(s, luck, landed).1
    ensures StandsFor(Commit(s, luck, landed).0, Saved(p))
  {
  }

  lemma RollbackStands(s: State, p: Plain, luck: Luck)
    requires StandsFor(s, p) && Rollback(s, luck).1
    ensures StandsFor(Rollback(s, luck).0, p.(pending := []))
  {
  }

  lemma HeldStands(s: State, p: Plain, held: bool)
    requires StandsFor(s, p) && (held || p.pending == [])
    ensures StandsFor(s.(held := held), p)
  {
  }

  lemma ScriptStands(cfg: Config, s: State, p: Plain, sql: string, luck: Luck)
    requires StandsFor(s, p) && s.held && RunScript(cfg, s, sql, luck).1 == Done
    ensures StandsFor(RunScript(cfg, s, sql, luck).0, p.(pending := p.pending + [sql]))
  {
  }

  lemma GoneStands(s: State, p: Plain)
    requires StandsFor(s, p)
    ensures StandsFor(Close(s), p.(pending := []))
    ensures StandsFor(s.(conn := s.conn.(alive := false, pending := [])), p)
  {
  }

  lemma StepStands(cfg: Config, s: State, p: Plain, step: Step)
    requires StandsFor(s, p) && Can(s, step) && Returns(cfg, s, step)
    ensures StandsFor(Do(cfg, s, step), PlainStep(cfg, p, step))
  {
    hide StandsFor, Execute, Commit, Rollback, RunScript, Close, Wrote;
    match step
    case DoExecute(sql, luck, reopens, again) => ExecuteStands(cfg, s, p, sql, luck, reopens, again);
    case DoCommit(luck, landed) => CommitStands(s, p, luck, landed);
    case DoRollback(luck) => RollbackStands(s, p, luck);
    case DoClose => GoneStands(s, p);
    case ServerDrops => GoneStands(s, p);
    case DoTakeLock(sql, luck, reopens, again) =>
      ExecuteStands(cfg, s, p, sql, luck, reopens, again);
      HeldStands(Execute(cfg, s, sql, luck, reopens, again).0, Wrote(cfg, p, sql), true);
    case DoScript(sql, luck) => ScriptStands(cfg, s, p, sql, luck);
    case DoDropLock(sql, l0, l1, l2, landed) =>
      var s1 := Rollback(s, l0).0;
      var s2 := Execute(cfg, s1, sql, l1, false, l1).0;
      var p2 := Wrote(cfg, p.(pending := []), sql);
      RollbackStands(s, p, l0);
      ExecuteStands(cfg, s1, p.(pending := []), sql, l1, false, l1);
      CommitStands(s2, p2, l2, landed);
      HeldStands(Commit(s2, l2, landed).0, Saved(p2), false);
    case DoGiveLock(sql, luck, l1, landed) =>
      var s1 := Execute(cfg, s, sql, luck, false, luck).0;
      ExecuteStands(cfg, s, p, sql, luck, false, luck);
      CommitStands(s1, Wrote(cfg, p, sql), l1, landed);
      HeldStands(Commit(s1, l1, landed).0, Saved(Wrote(cfg, p, sql)), false);
  }

  lemma {:induction false} RunStands(cfg: Config, s: State, p: Plain, steps: seq<Step>)
    requires StandsFor(s, p) && Legal(cfg, s, steps) && AllReturn(cfg, s, steps)
    ensures StandsFor(After(cfg, s, steps), PlainRun(cfg, p, steps))
    decreases |steps|
  {
    hide StandsFor, Returns, PlainStep, Do, Can;
    if steps != [] {
      StepStands(cfg, s, p, steps[0]);
      RunStands(cfg, Do(cfg, s, steps[0]), PlainStep(cfg, p, steps[0]), steps[1..]);
    }
  }

  /** **Unless something raised, connection deaths cannot be told**: after any run in which every call
      returned, however often connections died and were replaced, the database holds exactly what one
      behind a connection that never fails would hold, and a commit that returns adds exactly what
      that one's would. */
  lemma DeathsUnseen(cfg: Config, steps: seq<Step>, luck: Luck, landed: bool)
    requires Legal(cfg, INITIAL, steps) && AllReturn(cfg, INITIAL, steps)
    ensures var s := After(cfg, INITIAL, steps);
            var p := PlainRun(cfg, Plain([], []), steps);
            && s.durable == p.durable
            && (s.conn.alive ==> s.conn.pending == p.pending)
            && (Commit(s, luck, landed).1 ==> Commit(s, luck, landed).0.durable == p.durable + p.pending)
            && !s.surfaced && !s.doubtful && s.acked == p.pending && s.ledger == p.durable
  {
    hide Legal, After, AllReturn, PlainRun;
    RunStands(cfg, INITIAL, Plain([], []), steps);
  }

  // ---------------------------------------------------------------------------
  // When a connection is replaced

  /** **A connection is replaced exactly when** it is dead or dies under the statement, on Postgres with a
      URL that answers, with no write outstanding and no session state held. */
  lemma ReplacedIff(cfg: Config, steps: seq<Step>, sql: string, luck: Luck, reopens: bool)
    requires Legal(cfg, INITIAL, steps)
    ensures var s := After(cfg, INITIAL, steps);
            Reconnects(cfg, s, sql, luck, reopens) <==>
            && (!s.conn.alive || luck == Dies)
            && cfg.postgres && cfg.url && reopens && !s.mid && !s.held
  {
    hide Legal, After;
    InitialHolds();
    RunKeeps(cfg, INITIAL, steps);
  }

  /** **A connection that died with nothing outstanding costs no statement**: whatever is run next gets
      its answer from a new connection, where it runs once. */
  lemma IdleDeathHealed(cfg: Config, steps: seq<Step>, sql: string, luck: Luck)
    requires Legal(cfg, INITIAL, steps)
    ensures var s := After(cfg, INITIAL, steps);
            cfg.postgres && cfg.url && !s.mid && !s.held && !s.conn.alive ==>
              var (t, r) := Execute(cfg, s, sql, luck, true, Works);
              && r == Done && t.conn.alive && !t.conn.closed
              && t.conn.pending == if cfg.isRead(sql) then [] else [sql]
  {
    hide Legal, After;
    InitialHolds();
    RunKeeps(cfg, INITIAL, steps);
  }

  /** How a statement is answered by the connection it is first sent on. */
  function FirstReply(c: Conn, luck: Luck): Reply {
    if c.closed then InterfaceError
    else if !c.alive || luck == Dies then OperationalError
    else if c.aborted then OtherError
    else match luck
      case Works => Done
      case Fails(operational) => if operational then OperationalError else OtherError
      case Dies => OperationalError
  }

  /** **A statement is sent once and answered by its own connection in every other case**: one that fails
      on a living connection gets its own error, and one that works is not run again. */
  lemma SentOnce(cfg: Config, steps: seq<Step>, sql: string, luck: Luck, reopens: bool, again: Luck)
    requires Legal(cfg, INITIAL, steps)
    ensures var s := After(cfg, INITIAL, steps);
            var (t, r) := Execute(cfg, s, sql, luck, reopens, again);
            && ((s.conn.alive && luck != Dies) || s.mid || s.held || !cfg.postgres || !cfg.url || !reopens ==>
                  && r == FirstReply(s.conn, luck)
                  && t.conn.pending ==
                     (if r != Done then []
                      else if cfg.isRead(sql) then s.conn.pending
                      else s.conn.pending + [sql])
                  && (s.conn.alive && luck != Dies ==> t.conn.alive && !t.conn.closed))
            && t.mid == (s.mid || (r == Done && !cfg.isRead(sql)))
  {
    hide Legal, After;
    InitialHolds();
    RunKeeps(cfg, INITIAL, steps);
  }

  // ---------------------------------------------------------------------------
  // A handle that only `close` can free

  /** The connection is gone, known to the driver or to be found out by the next message, and no
      statement may replace it: a write was outstanding, or the handle never reconnects at all. */
  predicate Lost(cfg: Config, s: State) {
    && (s.conn.closed || (s.conn.begun && !s.conn.alive))
    && (s.mid || !cfg.postgres || !cfg.url)
  }

  ghost predicate NothingWorks(cfg: Config, s: State) {
    && (forall sql, luck, reopens, again :: Execute(cfg, s, sql, luck, reopens, again).1 != Done)
    && (forall luck, landed :: !Commit(s, luck, landed).1)
    && (forall luck :: !Rollback(s, luck).1)
  }

  predicate NoClose(steps: seq<Step>) {
    forall k :: 0 <= k < |steps| ==> !steps[k].DoClose?
  }

  /** No run that does not close the handle gets a statement, a commit or a rollback through. */
  ghost predicate FreedOnlyByClose(cfg: Config, s: State) {
    forall steps :: Legal(cfg, s, steps) && NoClose(steps) ==> NothingWorks(cfg, After(cfg, s, steps))
  }

  lemma LostFails(cfg: Config, s: State)
    requires Inv(s) && Lost(cfg, s)
    ensures NothingWorks(cfg, s)
  {
  }

  lemma ExecuteLost(cfg: Config, s: State, sql: string, luck: Luck, reopens: bool, again: Luck)
    requires Inv(s) && Lost(cfg, s)
    ensures var (t, r) := Execute(cfg, s, sql, luck, reopens, again);
            r != Done && Lost(cfg, t) && t.held == s.held && t.durable == s.durable
  {
  }

  lemma CommitLost(cfg: Config, s: State, luck: Luck, landed: bool)
    requires Inv(s) && Lost(cfg, s)
    ensures var (t, ok) := Commit(s, luck, landed); !ok && Lost(cfg, t) && t.durable == s.durable
  {
  }

  lemma RollbackLost(cfg: Config, s: State, luck: Luck)
    requires Inv(s) && Lost(cfg, s)
    ensures var (t, ok) := Rollback(s, luck); !ok && Lost(cfg, t) && t.durable == s.durable
  {
  }

  lemma ScriptLost(cfg: Config, s: State, sql: string, luck: Luck)
    requires Inv(s) && Lost(cfg, s)
    ensures var (t, r) := RunScript(cfg, s, sql, luck); Lost(cfg, t) && t.durable == s.durable
  {
  }

  lemma HeldAside(cfg: Config, s: State, held: bool)
    requires Lost(cfg, s)
    ensures Lost(cfg, s.(held := held))
  {
  }

  lemma DropsLost(cfg: Config, s: State)
    requires Inv(s) && Lost(cfg, s)
    ensures Lost(cfg, s.(conn := s.conn.(alive := false, pending := [])))
  {
  }

  lemma LostStep(cfg: Config, s: State, step: Step)
    requires Inv(s) && Lost(cfg, s) && Can(s, step) && !step.DoClose?
    ensures Lost(cfg, Do(cfg, s, step)) && Do(cfg, s, step).durable == s.durable
  {
    hide Inv, Lost, Execute, Commit, Rollback, RunScript, Can;
    match step
    case DoExecute(sql, luck, reopens, again) => ExecuteLost(cfg, s, sql, luck, reopens, again);
    case DoCommit(luck, landed) => CommitLost(cfg, s, luck, landed);
    case DoRollback(luck) => RollbackLost(cfg, s, luck);
    case ServerDrops => DropsLost(cfg, s);
    case DoTakeLock(sql, luck, reopens, again) => ExecuteLost(cfg, s, sql, luck, reopens, again);
    case DoScript(sql, luck) => ScriptLost(cfg, s, sql, luck);
    case DoDropLock(sql, l0, l1, l2, landed) =>
      RollbackLost(cfg, s, l0);
      HeldAside(cfg, Rollback(s, l0).0, false);
    case DoGiveLock(sql, luck, l1, landed) => ExecuteLost(cfg, s, sql, luck, false, luck);
  }

  lemma {:induction false} StaysLost(cfg: Config, s: State, steps: seq<Step>)
    requires Inv(s) && Lost(cfg, s) && Legal(cfg, s, steps) && NoClose(steps)
    ensures var t := After(cfg, s, steps); Inv(t) && Lost(cfg, t) && t.durable == s.durable
    decreases |steps|
  {
    hide Inv, Lost, Do, Can;
    if steps != [] {
      StepKeeps(cfg, s, steps[0]);
      LostStep(cfg, s, steps[0]);
      StaysLost(cfg, Do(cfg, s, steps[0]), steps[1..]);
    }
  }

  /** A handle that is not lost: something works at once, or does once the session lock is dropped. */
  lemma NotLostWorks(cfg: Config, s: State) returns (steps: seq<Step>)
    requires Inv(s) && !Lost(cfg, s)
    ensures Legal(cfg, s, steps) && NoClose(steps) && !NothingWorks(cfg, After(cfg, s, steps))
  {
    if !s.conn.closed && (s.conn.alive || !s.conn.begun) {
      steps := [];
      assert Rollback(s, Works).1;
    } else if !s.held {
      steps := [];
      assert Execute(cfg, s, "", Works, true, Works).1 == Done;
    } else {
      var drop := DoDropLock("", Works, Works, Works, false);
      steps := [drop];
      assert steps[1..] == [];
      var t := Do(cfg, s, drop);
      assert After(cfg, s, steps) == t;
      assert Execute(cfg, t, "", Works, true, Works).1 == Done;
    }
  }

  /** **A handle works again only after `close` exactly when it is lost**: no statement, commit or
      rollback gets through, however the run goes on, since rolling back raises before it clears the
      flag. */
  lemma LostIff(cfg: Config, steps: seq<Step>)
    requires Legal(cfg, INITIAL, steps)
    ensures var s := After(cfg, INITIAL, steps); FreedOnlyByClose(cfg, s) <==> Lost(cfg, s)
  {
    hide Inv, Lost, NothingWorks, NoClose, Legal, After;
    InitialHolds();
    RunKeeps(cfg, INITIAL, steps);
    var s := After(cfg, INITIAL, steps);
    if Lost(cfg, s) {
      forall more | Legal(cfg, s, more) && NoClose(more)
        ensures NothingWorks(cfg, After(cfg, s, more))
      {
        StaysLost(cfg, s, more);
        LostFails(cfg, After(cfg, s, more));
      }
    } else {
      var more := NotLostWorks(cfg, s);
    }
  }

  /** Such handles are reached: the connection dies between a write and its commit. Closing the handle
      frees it exactly where it can reconnect. */
  lemma LostReached(cfg: Config, sql: string)
    requires !cfg.isRead(sql)
    ensures var steps := [DoExecute(sql, Works, false, Works), ServerDrops];
            && Legal(cfg, INITIAL, steps) && Lost(cfg, After(cfg, INITIAL, steps))
            && (!Lost(cfg, Close(After(cfg, INITIAL, steps))) <==> cfg.postgres && cfg.url)
  {
    var steps := [DoExecute(sql, Works, false, Works), ServerDrops];
    assert steps[1..] == [ServerDrops] && steps[1..][1..] == [];
    var s1 := Do(cfg, INITIAL, steps[0]);
    assert After(cfg, s1, steps[1..]) == Do(cfg, s1, ServerDrops);
  }

  /** A rollback returns exactly when the driver still takes the connection for open and either nothing
      was begun on it or the message gets through; only then is the flag cleared. */
  lemma RollbackReturnsIff(cfg: Config, steps: seq<Step>, luck: Luck)
    requires Legal(cfg, INITIAL, steps)
    ensures var s := After(cfg, INITIAL, steps);
            var (t, ok) := Rollback(s, luck);
            && (ok <==> !s.conn.closed && (!s.conn.begun || (s.conn.alive && luck.Works?)))
            && (ok ==> !Lost(cfg, s) && !t.mid && t.conn.pending == [])
            && (!ok ==> t.mid == s.mid && t.conn.closed)
  {
    RunKeeps(cfg, INITIAL, steps);
    RollbackKeeps(After(cfg, INITIAL, steps), luck);
  }

  /** A commit returns exactly when a rollback would; it then makes everything pending durable and clears
      the flag. One that raises makes nothing durable, unless the connection died under it. */
  lemma CommitReturnsIff(cfg: Config, steps: seq<Step>, luck: Luck, landed: bool)
    requires Legal(cfg, INITIAL, steps)
    ensures var s := After(cfg, INITIAL, steps);
            var (t, ok) := Commit(s, luck, landed);
            && (ok <==> !s.conn.closed && (!s.conn.begun || (s.conn.alive && luck.Works?)))
            && (ok ==> t.durable == s.durable + s.conn.pending && t.conn.pending == [] && !t.mid && t.held == s.held)
            && (!ok ==> t.mid == s.mid && t.held == s.held && t.conn.pending == []
                        && t.durable == if luck == Dies && landed then s.durable + s.conn.pending else s.durable)
  {
    hide Legal, After;
    InitialHolds();
    RunKeeps(cfg, INITIAL, steps);
  }

  /** The lock is marked exactly from the statement that took it to the release that went through, or to
      the end of the clean-up after a failure, whatever came of that. */
  lemma LockMarked(cfg: Config, s: State, sql: string, luck: Luck, reopens: bool, again: Luck, l2: Luck, landed: bool)
    ensures var (t, r) := TakeLock(cfg, s, sql, luck, reopens, again); t.held <==> s.held || r == Done
    ensures !DropLock(cfg, s, sql, luck, again, l2, landed).held
    ensures var t := GiveLock(cfg, s, sql, luck, again, landed);
            var (s1, r) := Execute(cfg, s, sql, luck, false, luck);
            t.held <==> s.held && (r != Done || !Commit(s1, again, landed).1)
  {
  }
}
