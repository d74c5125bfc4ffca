/** The pending-signup handler over the table. A missing adapter behaves like a stub one. */
module Signup {
  import opened Common
  import opened State
  import opened Table

  /** Rows carry distinct nonempty text ids. */
  ghost predicate Keyed(rows: seq<Row>) {
    (forall i :: 0 <= i < |rows| ==> Id in rows[i] && rows[i][Id].Text? && rows[i][Id].s != "")
    && forall i, j :: 0 <= i < j < |rows| ==> rows[i][Id] != rows[j][Id]
  }

  /** The database hands out an id no row has. */
  ghost predicate FreshId(rows: seq<Row>, id: string) {
    id != "" && forall i :: 0 <= i < |rows| ==> !Holds(rows[i], Id, Text(id))
  }

  predicate Terminal(row: Row) {
    Holds(row, Status, Enum(Activated)) || Holds(row, Status, Enum(Expired)) || Holds(row, Status, Enum(Failed))
  }

  predicate ActiveFor(row: Row, email: string) {
    Holds(row, ContactEmail, Text(email)) && !Terminal(row)
  }

  /** The first non-terminal row of an email. */
  function FirstActive(rows: seq<Row>, email: string): (r: Option<nat>)
    ensures r.Some? ==> r.value < |rows| && ActiveFor(rows[r.value], email)
                        && forall j :: 0 <= j < r.value ==> !ActiveFor(rows[j], email)
    ensures r.None? ==> forall j :: 0 <= j < |rows| ==> !ActiveFor(rows[j], email)
  {
    if rows == [] then None
    else if ActiveFor(rows[0], email) then Some(0)
    else match FirstActive(rows[1..], email) case Some(i) => Some(i + 1) case None => None
  }

  /** The first row of a query result that is not terminal. */
  function FirstLive(found: seq<Row>): Option<Row> {
    if found == [] then None
    else if !Terminal(found[0]) then Some(found[0])
    else FirstLive(found[1..])
  }

  function EqualTo(col: Column, v: string): seq<Condition> {
    [Condition(col, "eq." + v)]
  }

  lemma EqualToMatches(row: Row, col: Column, v: string, le: Order)
    ensures MatchesAll(row, EqualTo(col, v), le) <==> Holds(row, col, Text(v))
  {
    EqRoundTrip(v);
    assert EqualTo(col, v)[0] == Condition(col, "eq." + v);
  }

  /** The first row an equality query returns is the first row of the table holding the value. */
  lemma {:induction false} SelectFirst(rows: seq<Row>, col: Column, v: string, le: Order)
    ensures First(rows, col, Text(v)).Some? <==> Select(rows, EqualTo(col, v), le) != []
    ensures First(rows, col, Text(v)).Some? ==>
              Select(rows, EqualTo(col, v), le)[0] == rows[First(rows, col, Text(v)).value]
  {
    if rows != [] {
      EqualToMatches(rows[0], col, v, le);
      SelectFirst(rows[1..], col, v, le);
    }
  }

  /** Querying by email and taking the first non-terminal result finds the table's first active row:
      one is found exactly when one exists. */
  lemma {:induction false} SelectFirstActive(rows: seq<Row>, email: string, le: Order)
    ensures
      var live := FirstLive(Select(rows, EqualTo(ContactEmail, email), le));
      match FirstActive(rows, email)
      case Some(i) => live == Some(rows[i])
      case None => live == None && forall j :: 0 <= j < |rows| ==> !ActiveFor(rows[j], email)
  {
    if rows != [] {
      EqualToMatches(rows[0], ContactEmail, email, le);
      SelectFirstActive(rows[1..], email, le);
      var rest := Select(rows[1..], EqualTo(ContactEmail, email), le);
      if Holds(rows[0], ContactEmail, Text(email)) {
        assert ([rows[0]] + rest)[1..] == rest;
      } else {
        assert [] + rest == rest;
      }
    }
  }

  lemma OwnId(rows: seq<Row>, i: nat)
    requires Keyed(rows) && i < |rows|
    ensures First(rows, Id, rows[i][Id]) == Some(i)
  {
    var r := First(rows, Id, rows[i][Id]);
    assert Holds(rows[i], Id, rows[i][Id]);
    assert r.Some? && Holds(rows[r.value], Id, rows[i][Id]);
  }

  // ----- What each operation leaves behind -----

  /** One redelivered webhook: the session it names, the clock, and whether its read and write work. */
  datatype Delivery = Delivery(session: string, now: int, readOk: bool, writeOk: bool)

  function Completion(id: Cell, now: int): Row {
    map[Id := id, Status := Enum(CheckoutCompleted), CompletedAt := Number(now)]
  }

  /** What a stub handler makes up. */
  function StubSignup(uuid: string, session: string): Row {
    map[Id := Text(uuid), SessionId := Text(session), Status := Enum(CheckoutCompleted)]
  }

  predicate Completed(row: Row) {
    Holds(row, Status, Enum(CheckoutCompleted))
  }

  /** A row without a status column makes the handler raise. */
  function Delivered(rows: seq<Row>, d: Delivery): seq<Row> {
    var first := First(rows, SessionId, Text(d.session));
    if !d.readOk || first.None? then rows
    else
      var row := rows[first.value];
      if Status !in row || Completed(row) || !d.writeOk || Id !in row then rows
      else rows[first.value := row + Completion(row[Id], d.now)]
  }

  /** The handler raises: the row lacks its status, or a write it needs fails. */
  predicate DeliveryRaises(rows: seq<Row>, d: Delivery) {
    var first := First(rows, SessionId, Text(d.session));
    && d.readOk && first.Some?
    && (Status !in rows[first.value] || (!Completed(rows[first.value]) && !d.writeOk))
  }

  /** Rescue attempts of a row; a column holding anything but a number makes the comparison raise. */
  function Attempts(row: Row): Option<int> {
    if RescueAttempts !in row then Some(0)
    else if row[RescueAttempts].Number? then Some(row[RescueAttempts].n)
    else None
  }

  /** The columns a resend reads are there; a missing one makes it raise. */
  predicate Sendable(row: Row) {
    ContactPhone in row && ContactEmail in row && CheckoutLink in row && ContactName in row
  }

  /** One resend of the checkout link; `sent` is whether any channel took the message. */
  datatype Resend = Resend(id: string, sent: bool, readOk: bool, writeOk: bool)

  datatype ResendOutcome = NotSent | Resent | SendRaised

  function ResendOutcomeOf(rows: seq<Row>, cap: int, r: Resend): ResendOutcome {
    var first := First(rows, Id, Text(r.id));
    if !r.readOk || first.None? then NotSent
    else
      var attempts := Attempts(rows[first.value]);
      if attempts.None? then SendRaised
      else if attempts.value >= cap then NotSent
      else if !Sendable(rows[first.value]) then SendRaised
      else if !r.sent then NotSent
      else if r.writeOk then Resent
      else SendRaised
  }

  /** The message went out: also when recording the attempt failed. */
  predicate MessageSent(rows: seq<Row>, cap: int, r: Resend) {
    var first := First(rows, Id, Text(r.id));
    && r.readOk && first.Some? && Attempts(rows[first.value]).Some? && Attempts(rows[first.value]).value < cap
    && Sendable(rows[first.value]) && r.sent
  }

  function AfterResend(rows: seq<Row>, cap: int, r: Resend): seq<Row> {
    if ResendOutcomeOf(rows, cap, r) != Resent then rows
    else
      var i := First(rows, Id, Text(r.id)).value;
      rows[i := rows[i] + map[Id := Text(r.id), RescueAttempts := Number(Attempts(rows[i]).value + 1)]]
  }

  /** What one run of the sales flow's create-then-link steps meets. `details` are the other columns of the
      record and what the database fills in for the columns the record leaves out. */
  datatype LeadEnv = LeadEnv(
    email: string,
    details: Row,
    expiresAt: int,
    readOk: bool,
    insertOk: bool,
    newId: string,
    checkoutOk: bool,
    url: string,
    linkOk: bool,
    now: int)

  function NewSignup(env: LeadEnv): Row {
    env.details + map[ContactEmail := Text(env.email), Status := Enum(Qualified), ExpiresAt := Number(env.expiresAt)]
  }

  /** The new row as the database stores it. */
  function Inserted(env: LeadEnv): Row {
    NewSignup(env)[Id := Text(env.newId)]
  }

  /** The record carries no id. */
  predicate PlainDetails(env: LeadEnv) {
    Id !in env.details
  }

  function Link(id: string, url: string, now: int): Row {
    map[Id := Text(id), Status := Enum(LinkSent), CheckoutLink := Text(url), LinkSentAt := Number(now)]
  }

  /** The rows after the create step, and the row the flow goes on with; None when the insert raised. */
  function AfterCreate(rows: seq<Row>, env: LeadEnv): (r: (seq<Row>, Option<nat>))
    ensures r.1.Some? ==> r.1.value < |r.0|
  {
    var existing := if env.readOk then FirstActive(rows, env.email) else None;
    if existing.Some? then (rows, existing)
    else if env.insertOk then (rows + [Inserted(env)], Some(|rows|))
    else (rows, None)
  }

  /** The text id of a row (an empty one when it has none). */
  function IdCell(row: Row): (c: Cell)
    ensures c.Text?
  {
    if Id in row && row[Id].Text? then row[Id] else Text("")
  }

  function AfterLead(rows: seq<Row>, env: LeadEnv): seq<Row> {
    var (created, at) := AfterCreate(rows, env);
    if at.Some? && env.checkoutOk && env.linkOk
    then created[at.value := created[at.value] + Link(IdCell(created[at.value]).s, env.url, env.now)]
    else created
  }

  /** The flow's copy of the signup after the create step: a new signup replaces it, a duplicate only
      changes its id. */
  function SignupCreated(s: FlowSignup, rows: seq<Row>, env: LeadEnv): FlowSignup {
    var (created, at) := AfterCreate(rows, env);
    if at.None? then s
    else
      var id := Some(IdCell(created[at.value]).s);
      if at.value == |rows| then FlowSignup(id, None, Qualified) else s.(id := id)
  }

  /** The flow's copy after create-then-link: the link comes last. */
  function SignupAfter(s: FlowSignup, rows: seq<Row>, env: LeadEnv): FlowSignup {
    var own := SignupCreated(s, rows, env);
    if AfterCreate(rows, env).1.Some? && env.checkoutOk && env.linkOk then own.(link := Some(env.url)) else own
  }

  datatype CreateError = Duplicate(existingId: string) | InsertFailed

  class SignupHandler {
    const db: DbTable

    constructor (db: DbTable)
      ensures this.db == db
    {
      this.db := db;
    }

    /** `_find_active_by_email`: query by email, then search the result. */
    method FindActiveByEmail(email: string, readOk: bool) returns (r: Option<Row>)
      ensures db.stub || !readOk ==> r.None?
      ensures !db.stub && readOk ==>
        r == match FirstActive(db.rows, email) case Some(i) => Some(db.rows[i]) case None => None
    {
      var found := db.Query(EqualTo(ContactEmail, email), readOk);
      SelectFirstActive(db.rows, email, db.le);
      for i := 0 to |found|
        invariant FirstLive(found) == FirstLive(found[i..])
      {
        if !Terminal(found[i]) {
          return Some(found[i]);
        }
        assert found[i..][1..] == found[i + 1..];
      }
      return None;
    }

    method CreatePendingSignup(env: LeadEnv, uuid: string) returns (r: Result<string, CreateError>)
      requires PlainDetails(env)
      modifies db
      ensures db.stub ==> db.rows == old(db.rows) && r == Ok(uuid)
      ensures !db.stub ==>
        var (created, at) := AfterCreate(old(db.rows), env);
        && db.rows == created
        && r == (if at.None? then Err(InsertFailed)
                 else if at.value < |old(db.rows)| then Err(Duplicate(IdCell(created[at.value]).s))
                 else Ok(env.newId))
    {
      var existing := FindActiveByEmail(env.email, env.readOk);
      if existing.Some? {
        return Err(Duplicate(IdCell(existing.value).s));
      }
      var record := NewSignup(env);
      if db.stub {
        return Ok(uuid);
      }
      var stored := db.Upsert(record, env.insertOk, env.newId);
      if stored.Err? {
        return Err(InsertFailed);
      }
      return Ok(env.newId);
    }

    /** `_update_status` with the extra columns of the caller. */
    method UpdateStatus(data: Row, writeOk: bool) returns (raised: bool)
      requires Id in data
      modifies db
      ensures db.stub ==> db.rows == old(db.rows) && !raised
      ensures !db.stub ==> raised == !writeOk
                           && db.rows == if writeOk then Upserted(old(db.rows), data, "") else old(db.rows)
    {
      raised := false;
      if !db.stub {
        var r := db.Upsert(data, writeOk, "");
        raised := r.Err?;
      }
    }

    method HandleCheckoutCompleted(d: Delivery, uuid: string) returns (r: Result<Option<Row>, ()>)
      requires Keyed(db.rows)
      modifies db
      ensures db.stub ==>
        && db.rows == old(db.rows) && r.Ok? && r.value.Some?
        && r.value.value == map[Id := Text(uuid), SessionId := Text(d.session), Status := Enum(CheckoutCompleted)]
      ensures !db.stub ==> db.rows == Delivered(old(db.rows), d)
      ensures !db.stub ==>
        var first := First(old(db.rows), SessionId, Text(d.session));
        if DeliveryRaises(old(db.rows), d) then r.Err?
        else if !d.readOk || first.None? then r == Ok(None)
        else r == Ok(Some(old(db.rows)[first.value]))
    {
      if db.stub {
        return Ok(Some(StubSignup(uuid, d.session)));
      }
      var found := db.Query(EqualTo(SessionId, d.session), d.readOk);
      SelectFirst(db.rows, SessionId, d.session, db.le);
      if found == [] {
        return Ok(None);
      }
      var row := found[0];
      if Status !in row {
        return Err(());
      }
      if !Completed(row) {
        ghost var i := First(db.rows, SessionId, Text(d.session)).value;
        OwnId(db.rows, i);
        var raised := UpdateStatus(Completion(row[Id], d.now), d.writeOk);
        if raised {
          return Err(());
        }
      }
      return Ok(Some(row));
    }

    /** `resend_checkout_link`; a stub reports success and does nothing. */
    method ResendCheckoutLink(cap: int, r: Resend) returns (outcome: ResendOutcome)
      requires Keyed(db.rows)
      modifies db
      ensures outcome == if db.stub then Resent else ResendOutcomeOf(old(db.rows), cap, r)
      ensures db.rows == if db.stub then old(db.rows) else AfterResend(old(db.rows), cap, r)
    {
      if db.stub {
        return Resent;
      }
      var found := db.Query(EqualTo(Id, r.id), r.readOk);
      SelectFirst(db.rows, Id, r.id, db.le);
      if found == [] {
        return NotSent;
      }
      var row := found[0];
      var attempts := Attempts(row);
      if attempts.None? {
        return SendRaised;
      }
      if attempts.value >= cap {
        return NotSent;
      }
      if !Sendable(row) {
        return SendRaised;
      }
      if !r.sent {
        return NotSent;
      }
      var stored := db.Upsert(map[Id := Text(r.id), RescueAttempts := Number(attempts.value + 1)], r.writeOk, "");
      return if stored.Err? then SendRaised else Resent;
    }
  }

  lemma CreateKeepsKeyed(rows: seq<Row>, env: LeadEnv)
    requires Keyed(rows) && FreshId(rows, env.newId)
    ensures Keyed(AfterCreate(rows, env).0)
  {
  }

  /** Storing the link under the id the flow goes on with rewrites exactly that row. */
  lemma LinkReachesOwnRow(rows: seq<Row>, env: LeadEnv)
    requires Keyed(rows) && FreshId(rows, env.newId) && AfterCreate(rows, env).1.Some?
    ensures
      var (created, at) := AfterCreate(rows, env);
      var id := IdCell(created[at.value]).s;
      && id != ""
      && (env.checkoutOk && env.linkOk ==> Upserted(created, Link(id, env.url, env.now), "") == AfterLead(rows, env))
  {
    var (created, at) := AfterCreate(rows, env);
    CreateKeepsKeyed(rows, env);
    OwnId(created, at.value);
    assert created[at.value][Id] == IdCell(created[at.value]);
  }

  // ----- What the operations amount to, column by column -----

  /** A signup is active for an email unless its status is activated, expired or failed. */
  lemma ActiveExactly(row: Row, email: string)
    ensures ActiveFor(row, email) <==>
      && ContactEmail in row && row[ContactEmail] == Text(email)
      && (Status in row ==> row[Status] !in {Enum(Activated), Enum(Expired), Enum(Failed)})
  {
  }

  /** Of the nine statuses the search skips exactly these three. */
  lemma SkippedExactly(row: Row, status: SignupStatus, email: string)
    requires Holds(row, Status, Enum(status)) && Holds(row, ContactEmail, Text(email))
    ensures ActiveFor(row, email)
       <==> status in {Qualified, LinkSent, CheckoutOpened, CheckoutCompleted, AccountCreated, Provisioned}
  {
  }

  /** The row a lead inserts: qualified, for its email, under the new id, and otherwise its details. */
  lemma InsertedExactly(env: LeadEnv, col: Column)
    ensures
      var row := Inserted(env);
      && Holds(row, Id, Text(env.newId)) && Holds(row, ContactEmail, Text(env.email))
      && Holds(row, Status, Enum(Qualified)) && Holds(row, ExpiresAt, Number(env.expiresAt))
      && (col !in {Id, ContactEmail, Status, ExpiresAt} ==>
            (col in row <==> col in env.details) && (col in row ==> row[col] == env.details[col]))
  {
  }

  /** The first active row of an email, as the read finds it. */
  ghost predicate Finds(rows: seq<Row>, env: LeadEnv, i: nat) {
    && env.readOk && i < |rows| && ActiveFor(rows[i], env.email)
    && forall j :: 0 <= j < i ==> !ActiveFor(rows[j], env.email)
  }

  /** A lead goes on with the signup it finds, else with the one it inserts, else with none. */
  lemma CreateExactly(rows: seq<Row>, env: LeadEnv, i: nat)
    ensures Finds(rows, env, i) ==> AfterCreate(rows, env) == (rows, Some(i))
    ensures (forall k: nat :: !Finds(rows, env, k)) ==>
      AfterCreate(rows, env) == if env.insertOk then (rows + [Inserted(env)], Some(|rows|)) else (rows, None)
  {
    if FirstActive(rows, env.email).Some? && env.readOk {
      assert Finds(rows, env, FirstActive(rows, env.email).value);
    }
  }

  /** Storing the link sets status, link and time of the row the lead goes on with, and nothing else; it
      happens when there is such a row, the checkout session is there and the write works. */
  lemma LeadExactly(rows: seq<Row>, env: LeadEnv, i: nat)
    requires AfterCreate(rows, env).1 == Some(i) && Id in AfterCreate(rows, env).0[i]
    requires AfterCreate(rows, env).0[i][Id].Text?
    ensures
      var created, after := AfterCreate(rows, env).0, AfterLead(rows, env);
      && |after| == |created| && (forall j :: 0 <= j < |created| && j != i ==> after[j] == created[j])
      && (!(env.checkoutOk && env.linkOk) ==> after[i] == created[i])
      && (env.checkoutOk && env.linkOk ==>
            Overwritten(created[i], map[Status := Enum(LinkSent), CheckoutLink := Text(env.url),
                                        LinkSentAt := Number(env.now)], after[i]))
  {
  }

  lemma NoLeadNoLink(rows: seq<Row>, env: LeadEnv)
    requires AfterCreate(rows, env).1 == None
    ensures AfterLead(rows, env) == rows
  {
  }

  /** The flow's own signup afterwards: on the fresh path a new one, qualified, under the new id; on the
      duplicate path the old one under the id found; with the link in both cases when it was stored. */
  lemma CopyExactly(s: FlowSignup, rows: seq<Row>, env: LeadEnv, i: nat)
    ensures
      var copy, stored := SignupAfter(s, rows, env), env.checkoutOk && env.linkOk;
      && (Finds(rows, env, i) && Holds(rows[i], Id, Text(IdCell(rows[i]).s)) ==>
            && Holds(rows[i], Id, Text(copy.id.GetOr(""))) && copy.status == s.status
            && copy.link == if stored then Some(env.url) else s.link)
      && ((forall k: nat :: !Finds(rows, env, k)) && env.insertOk ==>
            copy == FlowSignup(Some(env.newId), if stored then Some(env.url) else None, Qualified))
      && ((forall k: nat :: !Finds(rows, env, k)) && !env.insertOk ==> copy == s)
  {
    CreateExactly(rows, env, i);
    InsertedExactly(env, Id);
  }

  /** Row `i` is the first one with the session. */
  ghost predicate HasSession(rows: seq<Row>, session: string, i: nat) {
    && i < |rows| && Holds(rows[i], SessionId, Text(session))
    && forall j :: 0 <= j < i ==> !Holds(rows[j], SessionId, Text(session))
  }

  /** A delivery completes the first row with its session, and writes its time, exactly when its read and
      write work and the row has a status other than completed; nothing else ever changes. It raises exactly
      when it found a row that has no status, or one it had to complete and could not. */
  lemma DeliveryExactly(rows: seq<Row>, d: Delivery, i: nat)
    requires Keyed(rows)
    ensures (forall k: nat :: !HasSession(rows, d.session, k)) ==>
      Delivered(rows, d) == rows && !DeliveryRaises(rows, d)
    ensures HasSession(rows, d.session, i) ==>
      var after := Delivered(rows, d);
      var open := Status in rows[i] && rows[i][Status] != Enum(CheckoutCompleted);
      && |after| == |rows| && (forall j :: 0 <= j < |rows| && j != i ==> after[j] == rows[j])
      && (if d.readOk && d.writeOk && open
          then Overwritten(rows[i], map[Status := Enum(CheckoutCompleted), CompletedAt := Number(d.now)], after[i])
          else after[i] == rows[i])
      && (DeliveryRaises(rows, d) <==> d.readOk && (Status !in rows[i] || (open && !d.writeOk)))
  {
    var first := First(rows, SessionId, Text(d.session));
    if first.Some? {
      assert HasSession(rows, d.session, first.value);
    }
    if HasSession(rows, d.session, i) {
      assert first == Some(i);
    }
  }

  /** The row has made `n` rescue attempts; without the column it has made none. */
  predicate Attempted(row: Row, n: int) {
    if RescueAttempts in row then row[RescueAttempts] == Number(n) else n == 0
  }

  /** One resend to the row with its id: it succeeds exactly when the read works, the attempts are below the
      cap, the columns it needs are there, some channel takes the message and the write works, and then it
      adds one attempt and changes nothing else. */
  lemma ResendExactly(rows: seq<Row>, cap: int, r: Resend, i: nat, n: int)
    requires Keyed(rows) && i < |rows| && rows[i][Id] == Text(r.id) && Attempted(rows[i], n)
    ensures
      var outcome, after := ResendOutcomeOf(rows, cap, r), AfterResend(rows, cap, r);
      var tried := r.readOk && n < cap;
      var complete := {ContactPhone, ContactEmail, CheckoutLink, ContactName} <= rows[i].Keys;
      && (outcome == Resent <==> tried && complete && r.sent && r.writeOk)
      && (outcome == SendRaised <==> tried && (!complete || (r.sent && !r.writeOk)))
      && (MessageSent(rows, cap, r) <==> tried && complete && r.sent)
      && |after| == |rows| && (forall j :: 0 <= j < |rows| && j != i ==> after[j] == rows[j])
      && (if outcome == Resent then Overwritten(rows[i], map[RescueAttempts := Number(n + 1)], after[i])
          else after[i] == rows[i])
  {
    OwnId(rows, i);
    assert {ContactPhone, ContactEmail, CheckoutLink, ContactName} <= rows[i].Keys <==> Sendable(rows[i]);
  }

  /** A resend whose row is not found does nothing; one whose row counts no number of attempts raises. */
  lemma ResendOtherwise(rows: seq<Row>, cap: int, r: Resend)
    ensures (forall j :: 0 <= j < |rows| ==> !Holds(rows[j], Id, Text(r.id))) || !r.readOk ==>
      ResendOutcomeOf(rows, cap, r) == NotSent && !MessageSent(rows, cap, r)
    ensures forall i :: r.readOk && First(rows, Id, Text(r.id)) == Some(i) && (forall n :: !Attempted(rows[i], n)) ==>
      ResendOutcomeOf(rows, cap, r) == SendRaised && !MessageSent(rows, cap, r)
    ensures ResendOutcomeOf(rows, cap, r) != Resent ==> AfterResend(rows, cap, r) == rows
  {
    var first := First(rows, Id, Text(r.id));
    if first.Some? && Attempts(rows[first.value]).Some? {
      assert Attempted(rows[first.value], Attempts(rows[first.value]).value);
    }
  }
}
