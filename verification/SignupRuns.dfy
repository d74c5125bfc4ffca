/** Sequences of signup operations on one table: redelivered webhooks, and runs mixing leads, webhooks and
    resends with their uniqueness of active signups and their rescue cap. */
module SignupRuns {
  import opened Common
  import opened State
  import opened Table
  import opened Signup

  // ----- Uniqueness -----

  /** No two non-terminal rows share an email. */
  ghost predicate Unique(rows: seq<Row>) {
    forall i, j, email :: 0 <= i < j < |rows| ==> !(ActiveFor(rows[i], email) && ActiveFor(rows[j], email))
  }

  /** Row `i` is the only active one of the email. */
  ghost predicate OnlyActive(rows: seq<Row>, email: string, i: nat) {
    i < |rows| && ActiveFor(rows[i], email) && forall j :: 0 <= j < |rows| && j != i ==> !ActiveFor(rows[j], email)
  }

  lemma NewSignupActive(env: LeadEnv)
    ensures forall email :: ActiveFor(Inserted(env), email) <==> email == env.email
  {
  }

  lemma LinkKeepsActive(row: Row, id: string, url: string, now: int, email: string)
    requires !Terminal(row)
    ensures ActiveFor(row + Link(id, url, now), email) <==> ActiveFor(row, email)
  {
  }

  /** The link step rewrites one active row and leaves every row's activity as it was. */
  lemma LinkStep(rows: seq<Row>, env: LeadEnv)
    requires Keyed(rows) && FreshId(rows, env.newId)
    ensures
      var (created, at) := AfterCreate(rows, env);
      && |AfterLead(rows, env)| == |created| >= |rows| && Keyed(AfterLead(rows, env))
      && (forall i, email :: 0 <= i < |created| ==>
            (ActiveFor(AfterLead(rows, env)[i], email) <==> ActiveFor(created[i], email)))
  {
    var (created, at) := AfterCreate(rows, env);
    CreateKeepsKeyed(rows, env);
    NewSignupActive(env);
    forall email | at.Some?
      ensures ActiveFor(created[at.value] + Link(IdCell(created[at.value]).s, env.url, env.now), email)
         <==> ActiveFor(created[at.value], email)
    {
      LinkKeepsActive(created[at.value], IdCell(created[at.value]).s, env.url, env.now, email);
    }
  }

  /** Create-then-link keeps uniqueness if and only if its read works, or there was nothing to find, or
      the insert fails. A failed read hides the existing signup and a second one is inserted. */
  lemma LeadKeepsUniqueIff(rows: seq<Row>, env: LeadEnv)
    requires Keyed(rows) && FreshId(rows, env.newId) && Unique(rows)
    ensures Unique(AfterLead(rows, env)) <==> env.readOk || !env.insertOk || FirstActive(rows, env.email).None?
  {
    var (created, at) := AfterCreate(rows, env);
    LinkStep(rows, env);
    NewSignupActive(env);
    var after := AfterLead(rows, env);
    if env.readOk || !env.insertOk || FirstActive(rows, env.email).None? {
      assert forall i :: 0 <= i < |rows| ==> created[i] == rows[i];
      assert Unique(created);
    } else {
      var i := FirstActive(rows, env.email).value;
      assert created[i] == rows[i];
      assert ActiveFor(after[i], env.email) && ActiveFor(after[|rows|], env.email);
    }
  }

  /** With a working read, a create step that does not raise ends with exactly one active signup of the
      email, and that row's id is in the flow's own signup, on the fresh and the duplicate path. */
  lemma LeadEndsWithOne(rows: seq<Row>, env: LeadEnv, s: FlowSignup)
    requires Keyed(rows) && FreshId(rows, env.newId) && Unique(rows) && env.readOk
    ensures
      var (created, at) := AfterCreate(rows, env);
      var after := AfterLead(rows, env);
      at.Some? ==>
        && OnlyActive(after, env.email, at.value)
        && Some(IdCell(after[at.value]).s) == SignupAfter(s, rows, env).id
        && (env.checkoutOk && env.linkOk ==>
              Holds(after[at.value], Status, Enum(LinkSent)) && Holds(after[at.value], CheckoutLink, Text(env.url)))
  {
    var (created, at) := AfterCreate(rows, env);
    LinkStep(rows, env);
    LeadKeepsUniqueIff(rows, env);
    NewSignupActive(env);
    CreateKeepsKeyed(rows, env);
    if at.Some? {
      var after := AfterLead(rows, env);
      assert ActiveFor(created[at.value], env.email);
      assert ActiveFor(after[at.value], env.email);
    }
  }

  /** A lead for an email with an active signup sets that signup back to link_sent, also when its checkout
      was already completed; this is exactly when a lead takes a completed checkout back. */
  lemma LeadRewindsCheckoutIff(rows: seq<Row>, env: LeadEnv, i: nat)
    requires i < |rows| && Completed(rows[i])
    ensures i < |AfterLead(rows, env)|
    ensures !Completed(AfterLead(rows, env)[i])
       <==> env.readOk && FirstActive(rows, env.email) == Some(i) && env.checkoutOk && env.linkOk
    ensures !Completed(AfterLead(rows, env)[i]) ==> Holds(AfterLead(rows, env)[i], Status, Enum(LinkSent))
  {
  }

  // ----- Redelivered webhooks -----

  predicate Effective(d: Delivery) {
    d.readOk && d.writeOk
  }

  function Target(rows: seq<Row>, session: string): Option<nat> {
    First(rows, SessionId, Text(session))
  }

  function DeliverAll(rows: seq<Row>, ds: seq<Delivery>): seq<Row>
    decreases |ds|
  {
    if ds == [] then rows else DeliverAll(Delivered(rows, ds[0]), ds[1..])
  }

  /** When the first delivery that works reached row `i`, if any did. */
  function FirstTime(rows: seq<Row>, ds: seq<Delivery>, i: nat): Option<int>
    decreases |ds|
  {
    if ds == [] then None
    else if Effective(ds[0]) && Target(rows, ds[0].session) == Some(i) then Some(ds[0].now)
    else FirstTime(rows, ds[1..], i)
  }

  /** The reference: what row `i` becomes, read off the original table and the deliveries. */
  function Settled(rows: seq<Row>, ds: seq<Delivery>, i: nat): Row
    requires i < |rows| && Id in rows[i]
  {
    var t := FirstTime(rows, ds, i);
    if Status !in rows[i] || Completed(rows[i]) || t.None? then rows[i] else rows[i] + Completion(rows[i][Id], t.value)
  }

  /** The two tables agree on which rows hold `cell` in `col`. */
  ghost predicate SameHolders(a: seq<Row>, b: seq<Row>, col: Column, cell: Cell) {
    |a| == |b| && forall i :: 0 <= i < |a| ==> (Holds(a[i], col, cell) <==> Holds(b[i], col, cell))
  }

  lemma FirstPointwise(a: seq<Row>, b: seq<Row>, col: Column, cell: Cell)
    requires SameHolders(a, b, col, cell)
    ensures First(a, col, cell) == First(b, col, cell)
  {
    var i, j := First(a, col, cell), First(b, col, cell);
    if i.Some? {
      assert Holds(b[i.value], col, cell);
    }
    if j.Some? {
      assert Holds(a[j.value], col, cell);
    }
  }

  /** A delivery moves no row to another session or id. */
  lemma TargetStable(rows: seq<Row>, d: Delivery, session: string)
    ensures Target(Delivered(rows, d), session) == Target(rows, session)
  {
    FirstPointwise(Delivered(rows, d), rows, SessionId, Text(session));
  }

  lemma DeliveredKeyed(rows: seq<Row>, d: Delivery)
    requires Keyed(rows)
    ensures Keyed(Delivered(rows, d)) && |Delivered(rows, d)| == |rows|
  {
    var after := Delivered(rows, d);
    assert forall j :: 0 <= j < |rows| ==> Id in after[j] && after[j][Id] == rows[j][Id];
  }

  lemma {:induction false} FirstTimeStable(rows: seq<Row>, rows': seq<Row>, ds: seq<Delivery>, i: nat)
    requires forall session :: Target(rows', session) == Target(rows, session)
    ensures FirstTime(rows', ds, i) == FirstTime(rows, ds, i)
    decreases |ds|
  {
    if ds != [] {
      FirstTimeStable(rows, rows', ds[1..], i);
    }
  }

  lemma DeliveredTimes(rows: seq<Row>, d: Delivery, ds: seq<Delivery>, i: nat)
    ensures FirstTime(Delivered(rows, d), ds, i) == FirstTime(rows, ds, i)
  {
    hide Delivered, Target;
    forall session
      ensures Target(Delivered(rows, d), session) == Target(rows, session)
    {
      TargetStable(rows, d, session);
    }
    FirstTimeStable(rows, Delivered(rows, d), ds, i);
  }

  lemma SettleStep(rows: seq<Row>, ds: seq<Delivery>, i: nat)
    requires Keyed(rows) && i < |rows| && ds != []
    ensures Keyed(Delivered(rows, ds[0])) && |Delivered(rows, ds[0])| == |rows|
    ensures Settled(Delivered(rows, ds[0]), ds[1..], i) == Settled(rows, ds, i)
  {
    DeliveredKeyed(rows, ds[0]);
    DeliveredTimes(rows, ds[0], ds[1..], i);
    if Target(rows, ds[0].session) != Some(i) {
      assert Delivered(rows, ds[0])[i] == rows[i];
    }
  }

  /** After any sequence of deliveries, duplicated and in any order, with any failing reads and writes,
      every row is what the reference says: completed by its first working delivery, else untouched. */
  lemma {:induction false} DeliveriesSettle(rows: seq<Row>, ds: seq<Delivery>, i: nat)
    requires Keyed(rows) && i < |rows|
    ensures |DeliverAll(rows, ds)| == |rows| && DeliverAll(rows, ds)[i] == Settled(rows, ds, i)
    decreases |ds|
  {
    if ds != [] {
      SettleStep(rows, ds, i);
      DeliveriesSettle(Delivered(rows, ds[0]), ds[1..], i);
    }
  }

  /** The sequence holds a working delivery of the session. */
  ghost predicate Reaches(ds: seq<Delivery>, session: string) {
    exists k :: 0 <= k < |ds| && Effective(ds[k]) && ds[k].session == session
  }

  lemma {:induction false} FirstTimeReaches(rows: seq<Row>, ds: seq<Delivery>, i: nat)
    ensures FirstTime(rows, ds, i).Some? <==>
              exists k :: 0 <= k < |ds| && Effective(ds[k]) && Target(rows, ds[k].session) == Some(i)
    decreases |ds|
  {
    if ds != [] {
      FirstTimeReaches(rows, ds[1..], i);
      var hit := Effective(ds[0]) && Target(rows, ds[0].session) == Some(i);
      if !hit && FirstTime(rows, ds, i).Some? {
        var k :| 0 <= k < |ds[1..]| && Effective(ds[1..][k]) && Target(rows, ds[1..][k].session) == Some(i);
        assert ds[k + 1] == ds[1..][k];
      }
      if k :| 0 <= k < |ds| && Effective(ds[k]) && Target(rows, ds[k].session) == Some(i) {
        assert k > 0 ==> ds[1..][k - 1] == ds[k];
      }
    }
  }

  lemma CompletionTimeErased(row: Row, id: Cell, t: int, u: int)
    ensures row + Completion(id, t) - {CompletedAt} == row + Completion(id, u) - {CompletedAt}
  {
  }

  lemma FirstTimeSameSessions(rows: seq<Row>, ds: seq<Delivery>, es: seq<Delivery>, i: nat)
    requires forall session :: Reaches(ds, session) ==> Reaches(es, session)
    ensures FirstTime(rows, ds, i).Some? ==> FirstTime(rows, es, i).Some?
  {
    FirstTimeReaches(rows, ds, i);
    FirstTimeReaches(rows, es, i);
    if k :| 0 <= k < |ds| && Effective(ds[k]) && Target(rows, ds[k].session) == Some(i) {
      assert Reaches(ds, ds[k].session);
    }
  }

  /** Confluence: two sequences that deliver the same sessions leave the same table up to the recorded
      completion times. In particular duplicates and order do not matter. */
  lemma DeliveriesConfluent(rows: seq<Row>, ds: seq<Delivery>, es: seq<Delivery>, i: nat)
    requires Keyed(rows) && i < |rows| && forall session :: Reaches(ds, session) <==> Reaches(es, session)
    ensures |DeliverAll(rows, ds)| == |DeliverAll(rows, es)| == |rows|
    ensures DeliverAll(rows, ds)[i] - {CompletedAt} == DeliverAll(rows, es)[i] - {CompletedAt}
  {
    DeliveriesSettle(rows, ds, i);
    DeliveriesSettle(rows, es, i);
    FirstTimeSameSessions(rows, ds, es, i);
    FirstTimeSameSessions(rows, es, ds, i);
    var t, u := FirstTime(rows, ds, i).GetOr(0), FirstTime(rows, es, i).GetOr(0);
    CompletionTimeErased(rows[i], rows[i][Id], t, u);
  }

  /** Repeating a working delivery with nothing in between changes nothing, not even the time. */
  lemma DuplicateIsNoop(rows: seq<Row>, d: Delivery, again: Delivery)
    requires Effective(d) && again.session == d.session && Keyed(rows)
    ensures Delivered(Delivered(rows, d), again) == Delivered(rows, d)
  {
    TargetStable(rows, d, d.session);
  }

  /** A working delivery completes its row whatever its status was, so a terminal signup is reopened; only
      a row without any status is left alone. No other row changes. */
  lemma DeliveryOverwritesStatus(rows: seq<Row>, d: Delivery)
    requires Keyed(rows) && Effective(d) && Target(rows, d.session).Some?
    ensures
      var i := Target(rows, d.session).value;
      && (Holds(Delivered(rows, d)[i], Status, Enum(CheckoutCompleted)) <==> Status in rows[i])
      && !Terminal(Delivered(rows, d)[i])
      && forall j :: 0 <= j < |rows| && j != i ==> Delivered(rows, d)[j] == rows[j]
  {
  }

  /** A working delivery whose row is terminal while another row of its email is active. */
  ghost predicate Reopens(rows: seq<Row>, d: Delivery) {
    var first := Target(rows, d.session);
    && Effective(d) && first.Some? && Terminal(rows[first.value])
    && exists email :: Holds(rows[first.value], ContactEmail, Text(email)) && FirstActive(rows, email).Some?
  }

  /** A delivery breaks uniqueness exactly when it reopens a terminal signup whose email has an active one. */
  lemma DeliveryKeepsUniqueIff(rows: seq<Row>, d: Delivery)
    requires Keyed(rows) && Unique(rows)
    ensures Unique(Delivered(rows, d)) <==> !Reopens(rows, d)
  {
    var first := Target(rows, d.session);
    var after := Delivered(rows, d);
    if Effective(d) && first.Some? {
      var i := first.value;
      DeliveryOverwritesStatus(rows, d);
      assert forall email :: Holds(after[i], ContactEmail, Text(email)) <==> Holds(rows[i], ContactEmail, Text(email));
      if email :| Terminal(rows[i]) && Holds(rows[i], ContactEmail, Text(email)) && FirstActive(rows, email).Some? {
        var j := FirstActive(rows, email).value;
        assert ActiveFor(after[i], email) && ActiveFor(after[j], email);
      }
    }
  }

  // ----- Runs mixing all three -----

  datatype Op = LeadOp(lead: LeadEnv) | DeliverOp(delivery: Delivery) | ResendOp(resend: Resend)

  function Step(rows: seq<Row>, cap: int, op: Op): seq<Row> {
    match op
    case LeadOp(env) => AfterLead(rows, env)
    case DeliverOp(d) => Delivered(rows, d)
    case ResendOp(r) => AfterResend(rows, cap, r)
  }

  function At(rows: seq<Row>, cap: int, ops: seq<Op>, n: nat): seq<Row>
    requires n <= |ops|
  {
    if n == 0 then rows else Step(At(rows, cap, ops, n - 1), cap, ops[n - 1])
  }

  /** The database hands out an id no row has. */
  ghost predicate Supplied(rows: seq<Row>, op: Op) {
    op.LeadOp? ==> FreshId(rows, op.lead.newId)
  }

  ghost predicate SuppliedAt(rows: seq<Row>, cap: int, ops: seq<Op>, i: nat)
    requires i < |ops|
  {
    Supplied(At(rows, cap, ops, i), ops[i])
  }

  ghost predicate SuppliedRun(rows: seq<Row>, cap: int, ops: seq<Op>, n: nat)
    requires n <= |ops|
  {
    forall i: nat | i < n :: SuppliedAt(rows, cap, ops, i)
  }

  /** The rows of `rows` are still there, in place and by id. */
  ghost predicate Extends(rows: seq<Row>, after: seq<Row>) {
    && Keyed(rows) && Keyed(after) && |rows| <= |after|
    && forall j :: 0 <= j < |rows| ==> after[j][Id] == rows[j][Id]
  }

  lemma LeadExtends(rows: seq<Row>, env: LeadEnv)
    requires Keyed(rows) && FreshId(rows, env.newId)
    ensures Extends(rows, AfterLead(rows, env))
  {
    LinkStep(rows, env);
    var (created, at) := AfterCreate(rows, env);
    var after := AfterLead(rows, env);
    forall j | 0 <= j < |rows|
      ensures after[j][Id] == rows[j][Id]
    {
      assert created[j] == rows[j];
    }
  }

  lemma ResendExtends(rows: seq<Row>, cap: int, r: Resend)
    requires Keyed(rows)
    ensures Extends(rows, AfterResend(rows, cap, r))
  {
    var after := AfterResend(rows, cap, r);
    assert |after| == |rows| && forall j :: 0 <= j < |rows| ==> Id in after[j] && after[j][Id] == rows[j][Id];
  }

  lemma StepExtends(rows: seq<Row>, cap: int, op: Op)
    requires Keyed(rows) && Supplied(rows, op)
    ensures Extends(rows, Step(rows, cap, op))
  {
    match op
    case LeadOp(env) => LeadExtends(rows, env);
    case DeliverOp(d) =>
      DeliveredKeyed(rows, d);
      assert forall j :: 0 <= j < |rows| ==> Delivered(rows, d)[j][Id] == rows[j][Id];
    case ResendOp(r) => ResendExtends(rows, cap, r);
  }

  lemma {:induction false} RunExtends(rows: seq<Row>, cap: int, ops: seq<Op>, n: nat)
    requires n <= |ops| && Keyed(rows) && SuppliedRun(rows, cap, ops, n)
    ensures Extends(rows, At(rows, cap, ops, n))
  {
    if n > 0 {
      RunExtends(rows, cap, ops, n - 1);
      assert SuppliedAt(rows, cap, ops, n - 1);
      StepExtends(At(rows, cap, ops, n - 1), cap, ops[n - 1]);
    }
  }

  /** The two ways to end up with two active signups of one email: a lead whose failed read hides the
      first, and a delivery that reopens a terminal one beside it. */
  ghost predicate Breaks(rows: seq<Row>, op: Op) {
    match op
    case LeadOp(env) => !env.readOk && env.insertOk && FirstActive(rows, env.email).Some?
    case DeliverOp(d) => Reopens(rows, d)
    case ResendOp(_) => false
  }

  lemma ResendKeepsUnique(rows: seq<Row>, cap: int, r: Resend)
    requires Unique(rows)
    ensures Unique(AfterResend(rows, cap, r))
  {
    var after := AfterResend(rows, cap, r);
    assert forall i, email :: 0 <= i < |rows| ==> (ActiveFor(after[i], email) <==> ActiveFor(rows[i], email));
  }

  lemma StepKeepsUniqueIff(rows: seq<Row>, cap: int, op: Op)
    requires Keyed(rows) && Unique(rows) && Supplied(rows, op)
    ensures Unique(Step(rows, cap, op)) <==> !Breaks(rows, op)
  {
    match op
    case LeadOp(env) => LeadKeepsUniqueIff(rows, env);
    case DeliverOp(d) => DeliveryKeepsUniqueIff(rows, d);
    case ResendOp(r) => ResendKeepsUnique(rows, cap, r);
  }

  ghost predicate UniqueAt(rows: seq<Row>, cap: int, ops: seq<Op>, i: nat)
    requires i <= |ops|
  {
    Unique(At(rows, cap, ops, i))
  }

  ghost predicate BreaksAt(rows: seq<Row>, cap: int, ops: seq<Op>, i: nat)
    requires i < |ops|
  {
    Breaks(At(rows, cap, ops, i), ops[i])
  }

  /** The first steps of a supplied run are one, and it starts where it should. */
  lemma RunBegins(rows: seq<Row>, cap: int, ops: seq<Op>, n: nat)
    requires n <= |ops| && SuppliedRun(rows, cap, ops, n)
    ensures n > 0 ==> SuppliedRun(rows, cap, ops, n - 1)
    ensures Unique(rows) ==> UniqueAt(rows, cap, ops, 0)
  {
    assert forall i: nat | i < n :: SuppliedAt(rows, cap, ops, i);
  }

  lemma UniqueOneMore(rows: seq<Row>, cap: int, ops: seq<Op>, n: nat)
    requires n < |ops| && Keyed(rows) && SuppliedRun(rows, cap, ops, n + 1) && UniqueAt(rows, cap, ops, n)
    ensures UniqueAt(rows, cap, ops, n + 1) <==> !BreaksAt(rows, cap, ops, n)
  {
    RunExtends(rows, cap, ops, n);
    assert SuppliedAt(rows, cap, ops, n);
    StepKeepsUniqueIff(At(rows, cap, ops, n), cap, ops[n]);
  }

  /** A run of leads, deliveries and resends with any failing reads and writes keeps at most one active
      signup per email throughout if and only if none of its steps is one of the two breaking ones. */
  lemma {:induction false} RunKeepsUniqueIff(rows: seq<Row>, cap: int, ops: seq<Op>, n: nat)
    requires n <= |ops| && Keyed(rows) && Unique(rows) && SuppliedRun(rows, cap, ops, n)
    ensures (forall i: nat | i <= n :: UniqueAt(rows, cap, ops, i))
       <==> (forall i: nat | i < n :: !BreaksAt(rows, cap, ops, i))
  {
    hide *;
    RunBegins(rows, cap, ops, n);
    if n > 0 {
      RunKeepsUniqueIff(rows, cap, ops, n - 1);
      if UniqueAt(rows, cap, ops, n - 1) {
        UniqueOneMore(rows, cap, ops, n - 1);
      }
    }
  }

  /** Leads with working reads, mixed with resends, keep at most one active signup per email whatever
      writes fail. */
  lemma LeadRunKeepsUnique(rows: seq<Row>, cap: int, ops: seq<Op>, n: nat)
    requires n <= |ops| && Keyed(rows) && Unique(rows) && SuppliedRun(rows, cap, ops, n)
    requires forall i | 0 <= i < n :: !ops[i].DeliverOp? && (ops[i].LeadOp? ==> ops[i].lead.readOk)
    ensures Keyed(At(rows, cap, ops, n)) && Unique(At(rows, cap, ops, n))
  {
    RunExtends(rows, cap, ops, n);
    RunKeepsUniqueIff(rows, cap, ops, n);
    assert UniqueAt(rows, cap, ops, n);
  }

  // ----- The rescue cap -----

  predicate Aims(rows: seq<Row>, op: Op, i: nat) {
    op.ResendOp? && i < |rows| && Holds(rows[i], Id, Text(op.resend.id))
  }

  /** The step is a resend of row `i` that reports success on the current table. */
  function Gain(rows: seq<Row>, current: seq<Row>, cap: int, op: Op, i: nat): nat {
    if Aims(rows, op, i) && ResendOutcomeOf(current, cap, op.resend) == Resent then 1 else 0
  }

  /** Resends of row `i` that reported success. */
  function Rescued(rows: seq<Row>, cap: int, ops: seq<Op>, i: nat, n: nat): nat
    requires n <= |ops|
  {
    if n == 0 then 0
    else Rescued(rows, cap, ops, i, n - 1) + Gain(rows, At(rows, cap, ops, n - 1), cap, ops[n - 1], i)
  }

  function MessageOf(rows: seq<Row>, current: seq<Row>, cap: int, op: Op, i: nat): nat {
    if Aims(rows, op, i) && MessageSent(current, cap, op.resend) then 1 else 0
  }

  /** Messages that went out for row `i`, recorded or not. */
  function Messages(rows: seq<Row>, cap: int, ops: seq<Op>, i: nat, n: nat): nat
    requires n <= |ops|
  {
    if n == 0 then 0
    else Messages(rows, cap, ops, i, n - 1) + MessageOf(rows, At(rows, cap, ops, n - 1), cap, ops[n - 1], i)
  }

  /** Resends of row `i` whose write failed. */
  function FailedWrites(rows: seq<Row>, ops: seq<Op>, i: nat, n: nat): nat
    requires n <= |ops|
  {
    if n == 0 then 0
    else FailedWrites(rows, ops, i, n - 1) + if Aims(rows, ops[n - 1], i) && !ops[n - 1].resend.writeOk then 1 else 0
  }

  /** A message goes out for every successful resend, and besides those only when its write fails. */
  lemma SentOrLost(rows: seq<Row>, current: seq<Row>, cap: int, op: Op, i: nat)
    ensures Gain(rows, current, cap, op, i) <= MessageOf(rows, current, cap, op, i)
    ensures MessageOf(rows, current, cap, op, i)
            <= Gain(rows, current, cap, op, i) + if Aims(rows, op, i) && !op.resend.writeOk then 1 else 0
  {
  }

  /** Messages exceed the successful resends by at most the failed writes. */
  lemma {:induction false} MessagesBounded(rows: seq<Row>, cap: int, ops: seq<Op>, i: nat, n: nat)
    requires n <= |ops|
    ensures Rescued(rows, cap, ops, i, n) <= Messages(rows, cap, ops, i, n)
            <= Rescued(rows, cap, ops, i, n) + FailedWrites(rows, ops, i, n)
  {
    if n > 0 {
      MessagesBounded(rows, cap, ops, i, n - 1);
      SentOrLost(rows, At(rows, cap, ops, n - 1), cap, ops[n - 1], i);
    }
  }

  /** Row `i` gained exactly `k` attempts and did not pass the cap. */
  predicate Conserved(rows: seq<Row>, after: seq<Row>, cap: int, i: nat, k: nat)
    requires i < |rows| && Attempts(rows[i]).Some?
  {
    var a0 := Attempts(rows[i]).value;
    i < |after| && Attempts(after[i]) == Some(a0 + k) && a0 + k <= Max(a0, cap)
  }

  /** Only a resend touches the attempts of a row. */
  lemma OthersKeepAttempts(rows: seq<Row>, cap: int, op: Op, i: nat)
    requires i < |rows| && !op.ResendOp?
    ensures i < |Step(rows, cap, op)| && Attempts(Step(rows, cap, op)[i]) == Attempts(rows[i])
  {
  }

  lemma ResendStep(rows: seq<Row>, cap: int, r: Resend, i: nat)
    requires Keyed(rows) && i < |rows|
    ensures
      var after := AfterResend(rows, cap, r);
      var resent := Holds(rows[i], Id, Text(r.id)) && ResendOutcomeOf(rows, cap, r) == Resent;
      && |after| == |rows|
      && (resent ==> Attempts(rows[i]).Some? && Attempts(rows[i]).value < cap
                     && Attempts(after[i]) == Some(Attempts(rows[i]).value + 1))
      && (!resent ==> after[i] == rows[i])
  {
    OwnId(rows, i);
  }

  lemma RescueStep(rows: seq<Row>, before: seq<Row>, cap: int, op: Op, i: nat, k: nat)
    requires Extends(rows, before) && i < |rows| && Attempts(rows[i]).Some?
    requires Conserved(rows, before, cap, i, k)
    ensures Conserved(rows, Step(before, cap, op), cap, i, k + Gain(rows, before, cap, op, i))
  {
    match op
    case ResendOp(r) => ResendStep(before, cap, r, i);
    case _ => OthersKeepAttempts(before, cap, op, i);
  }

  lemma RescueStart(rows: seq<Row>, cap: int, ops: seq<Op>, i: nat)
    requires i < |rows| && Attempts(rows[i]).Some?
    ensures Conserved(rows, At(rows, cap, ops, 0), cap, i, Rescued(rows, cap, ops, i, 0))
  {
  }

  lemma RescueOneMore(rows: seq<Row>, cap: int, ops: seq<Op>, i: nat, n: nat)
    requires Keyed(rows) && n < |ops| && SuppliedRun(rows, cap, ops, n)
    requires i < |rows| && Attempts(rows[i]).Some?
    requires Conserved(rows, At(rows, cap, ops, n), cap, i, Rescued(rows, cap, ops, i, n))
    ensures Conserved(rows, At(rows, cap, ops, n + 1), cap, i, Rescued(rows, cap, ops, i, n + 1))
  {
    hide Conserved, Extends, SuppliedRun, Keyed, Gain, Step, Attempts;
    RunExtends(rows, cap, ops, n);
    RescueStep(rows, At(rows, cap, ops, n), cap, ops[n], i, Rescued(rows, cap, ops, i, n));
  }

  /** Conservation: after any mix of leads, deliveries and resends with any failing reads and writes, a
      row's attempts are its initial attempts plus its successful resends, and never rise past the cap. */
  lemma {:induction false} RescueConserved(rows: seq<Row>, cap: int, ops: seq<Op>, i: nat, n: nat)
    requires Keyed(rows) && i < |rows| && n <= |ops| && Attempts(rows[i]).Some? && SuppliedRun(rows, cap, ops, n)
    ensures Conserved(rows, At(rows, cap, ops, n), cap, i, Rescued(rows, cap, ops, i, n))
  {
    hide *;
    if n > 0 {
      RunBegins(rows, cap, ops, n);
      RescueConserved(rows, cap, ops, i, n - 1);
      RescueOneMore(rows, cap, ops, i, n - 1);
    } else {
      RescueStart(rows, cap, ops, i);
    }
  }

  /** Without a failed write the cap bounds the messages too. */
  lemma RescueMessagesCapped(rows: seq<Row>, cap: int, ops: seq<Op>, i: nat)
    requires Keyed(rows) && i < |rows| && Attempts(rows[i]).Some? && SuppliedRun(rows, cap, ops, |ops|)
    ensures Attempts(rows[i]).value + Messages(rows, cap, ops, i, |ops|)
            <= Max(Attempts(rows[i]).value, cap) + FailedWrites(rows, ops, i, |ops|)
  {
    RescueConserved(rows, cap, ops, i, |ops|);
    MessagesBounded(rows, cap, ops, i, |ops|);
  }
}
