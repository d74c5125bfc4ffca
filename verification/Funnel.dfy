/** The funnel tracker: a status histogram of the signup rows, conversion rates and the safe-mode
    recommendation. Rates and thresholds are reals. */
module Funnel {
  import opened State
  import opened Table

  function StatusOf(row: Row): Cell {
    if Status in row then row[Status] else Text("unknown")
  }

  function Get(counts: map<Cell, nat>, s: Cell): nat {
    if s in counts then counts[s] else 0
  }

  function Bumped(counts: map<Cell, nat>, s: Cell): map<Cell, nat> {
    counts[s := Get(counts, s) + 1]
  }

  /** The histogram the loop builds, one row at a time. */
  function Histogram(rows: seq<Row>): map<Cell, nat>
    decreases |rows|
  {
    if rows == [] then map[] else Bumped(Histogram(rows[..|rows| - 1]), StatusOf(rows[|rows| - 1]))
  }

  const STUB_COUNTS: map<Cell, nat> :=
    map[Enum(Qualified) := 5, Enum(LinkSent) := 4, Enum(CheckoutCompleted) := 3, Enum(Activated) := 2]

  lemma HistogramNext(rows: seq<Row>, i: nat)
    requires i < |rows|
    ensures Histogram(rows[..i + 1]) == Bumped(Histogram(rows[..i]), StatusOf(rows[i]))
  {
    assert rows[..i + 1][..i] == rows[..i];
  }

  /** The counting loop. */
  method CountStatuses(rows: seq<Row>) returns (counts: map<Cell, nat>)
    ensures counts == Histogram(rows)
  {
    counts := map[];
    for i := 0 to |rows|
      invariant counts == Histogram(rows[..i])
    {
      HistogramNext(rows, i);
      var status := StatusOf(rows[i]);
      counts := counts[status := (if status in counts then counts[status] else 0) + 1];
    }
    assert rows[..|rows|] == rows;
  }

  function CreatedSince(since: string): seq<Condition> {
    [Condition(CreatedAt, "gte." + since)]
  }

  /** `get_breakpoints`: the histogram of the rows created since a given time. */
  method GetBreakpoints(db: DbTable, since: string, readOk: bool) returns (counts: map<Cell, nat>)
    ensures db.stub ==> counts == STUB_COUNTS
    ensures !db.stub ==> counts == Histogram(if readOk then Select(db.rows, CreatedSince(since), db.le) else [])
  {
    if db.stub {
      return STUB_COUNTS;
    }
    var rows := db.Query(CreatedSince(since), readOk);
    counts := CountStatuses(rows);
  }

  // ----- Conservation -----

  /** A row counts for the status it holds, or for unknown when it has none. */
  predicate CountsFor(row: Row, s: Cell) {
    if Status in row then row[Status] == s else s == Text("unknown")
  }

  /** The reference: rows with status `s`. */
  function Count(rows: seq<Row>, s: Cell): nat
    decreases |rows|
  {
    if rows == [] then 0
    else Count(rows[1..], s) + if CountsFor(rows[0], s) then 1 else 0
  }

  lemma {:induction false} CountAppend(a: seq<Row>, b: seq<Row>, s: Cell)
    ensures Count(a + b, s) == Count(a, s) + Count(b, s)
    decreases |a|
  {
    if a == [] {
      assert a + b == b;
    } else {
      CountAppend(a[1..], b, s);
      assert (a + b)[1..] == a[1..] + b;
    }
  }

  /** Each count is the number of rows with that status, and no other status is a key. */
  lemma {:induction false} HistogramCounts(rows: seq<Row>, s: Cell)
    ensures Get(Histogram(rows), s) == Count(rows, s)
    ensures s in Histogram(rows) <==> Count(rows, s) > 0
    decreases |rows|
  {
    if rows != [] {
      var n := |rows| - 1;
      HistogramCounts(rows[..n], s);
      CountAppend(rows[..n], [rows[n]], s);
      assert rows == rows[..n] + [rows[n]];
    }
  }

  /** The rows since a time with status `s`: those with a creation time that does not compare before it. */
  function CountSince(rows: seq<Row>, since: string, s: Cell, le: Order): nat
    decreases |rows|
  {
    if rows == [] then 0
    else
      var row := rows[0];
      var recent := CreatedAt in row && row[CreatedAt].Text? && le(since, row[CreatedAt].s);
      CountSince(rows[1..], since, s, le) + if recent && CountsFor(row, s) then 1 else 0
  }

  lemma RecentExactly(row: Row, since: string, le: Order)
    ensures MatchesAll(row, CreatedSince(since), le)
       <==> CreatedAt in row && row[CreatedAt].Text? && le(since, row[CreatedAt].s)
  {
    ComparisonRoundTrip(since);
    assert CreatedSince(since)[0] == Condition(CreatedAt, "gte." + since);
  }

  lemma {:induction false} SelectedCount(rows: seq<Row>, since: string, s: Cell, le: Order)
    ensures Count(Select(rows, CreatedSince(since), le), s) == CountSince(rows, since, s, le)
    decreases |rows|
  {
    if rows != [] {
      RecentExactly(rows[0], since, le);
      SelectedCount(rows[1..], since, s, le);
      var rest := Select(rows[1..], CreatedSince(since), le);
      CountAppend([rows[0]], rest, s);
      assert Count([rows[0]], s) == if CountsFor(rows[0], s) then 1 else 0;
      assert [] + rest == rest;
    }
  }

  /** The breakpoints of a live table count, for each status, the rows created since the given time. */
  lemma BreakpointsExactly(rows: seq<Row>, since: string, s: Cell, le: Order)
    ensures Get(Histogram(Select(rows, CreatedSince(since), le)), s) == CountSince(rows, since, s, le)
  {
    HistogramCounts(Select(rows, CreatedSince(since), le), s);
    SelectedCount(rows, since, s, le);
  }

  /** `sum(counts.values())`, over the keys in any order. */
  ghost function Sum(counts: map<Cell, nat>, keys: set<Cell>): nat
    requires keys <= counts.Keys
  {
    if keys == {} then 0
    else
      var k :| k in keys;
      counts[k] + Sum(counts, keys - {k})
  }

  lemma {:induction false} SumPick(counts: map<Cell, nat>, keys: set<Cell>, k: Cell)
    requires keys <= counts.Keys && k in keys
    ensures Sum(counts, keys) == counts[k] + Sum(counts, keys - {k})
    decreases keys
  {
    var first :| first in keys && Sum(counts, keys) == counts[first] + Sum(counts, keys - {first});
    if first != k {
      SumPick(counts, keys - {first}, k);
      SumPick(counts, keys - {k}, first);
      assert keys - {first} - {k} == keys - {k} - {first};
    }
  }

  lemma {:induction false} SumSame(a: map<Cell, nat>, b: map<Cell, nat>, keys: set<Cell>)
    requires keys <= a.Keys && keys <= b.Keys && forall k :: k in keys ==> a[k] == b[k]
    ensures Sum(a, keys) == Sum(b, keys)
    decreases keys
  {
    if keys != {} {
      var k :| k in keys;
      SumPick(a, keys, k);
      SumPick(b, keys, k);
      SumSame(a, b, keys - {k});
    }
  }

  method TotalStarted(counts: map<Cell, nat>) returns (total: nat)
    ensures total == Sum(counts, counts.Keys)
  {
    total := 0;
    var keys := counts.Keys;
    while keys != {}
      invariant keys <= counts.Keys
      invariant total + Sum(counts, keys) == Sum(counts, counts.Keys)
      decreases keys
    {
      var k :| k in keys;
      SumPick(counts, keys, k);
      total := total + counts[k];
      keys := keys - {k};
    }
  }

  /** Bumping one status raises the total by one. */
  lemma SumBumped(counts: map<Cell, nat>, s: Cell)
    ensures Sum(Bumped(counts, s), Bumped(counts, s).Keys) == Sum(counts, counts.Keys) + 1
  {
    var after := Bumped(counts, s);
    SumPick(after, after.Keys, s);
    SumSame(after, counts, after.Keys - {s});
    if s in counts {
      SumPick(counts, counts.Keys, s);
      assert after.Keys - {s} == counts.Keys - {s};
    } else {
      assert after.Keys - {s} == counts.Keys;
    }
  }

  /** The total over all keys is the number of rows. */
  lemma {:induction false} TotalIsRows(rows: seq<Row>)
    ensures Sum(Histogram(rows), Histogram(rows).Keys) == |rows|
    decreases |rows|
  {
    if rows != [] {
      var n := |rows| - 1;
      TotalIsRows(rows[..n]);
      SumBumped(Histogram(rows[..n]), StatusOf(rows[n]));
    }
  }

  function Without(b: seq<Row>, j: nat): seq<Row>
    requires j < |b|
  {
    b[..j] + b[j + 1..]
  }

  lemma CountWithout(b: seq<Row>, j: nat, s: Cell)
    requires j < |b|
    ensures Count(b, s) == Count(Without(b, j), s) + Count([b[j]], s)
  {
    CountAppend(b[..j], b[j + 1..], s);
    CountAppend(b[..j], [b[j]], s);
    CountAppend(b[..j] + [b[j]], b[j + 1..], s);
    assert b == b[..j] + [b[j]] + b[j + 1..];
  }

  lemma MultisetWithout(b: seq<Row>, j: nat)
    requires j < |b|
    ensures multiset(Without(b, j)) == multiset(b) - multiset{b[j]}
  {
    assert b == b[..j] + [b[j]] + b[j + 1..];
  }

  lemma {:induction false} CountPermuted(a: seq<Row>, b: seq<Row>, s: Cell)
    requires multiset(a) == multiset(b)
    ensures Count(a, s) == Count(b, s)
    decreases |a|
  {
    if a == [] {
      assert |multiset(b)| == |b| == 0;
    } else {
      assert a[0] in multiset(b);
      var j :| 0 <= j < |b| && b[j] == a[0];
      MultisetWithout(a, 0);
      MultisetWithout(b, j);
      CountPermuted(Without(a, 0), Without(b, j), s);
      CountWithout(a, 0, s);
      CountWithout(b, j, s);
    }
  }

  /** The histogram does not depend on the order of the rows. */
  lemma HistogramOrderFree(a: seq<Row>, b: seq<Row>)
    requires multiset(a) == multiset(b)
    ensures Histogram(a) == Histogram(b)
  {
    forall s
      ensures s in Histogram(a) <==> s in Histogram(b)
      ensures Get(Histogram(a), s) == Get(Histogram(b), s)
    {
      HistogramCounts(a, s);
      HistogramCounts(b, s);
      CountPermuted(a, b, s);
    }
    assert forall s :: s in Histogram(a) ==> Histogram(a)[s] == Get(Histogram(a), s) == Histogram(b)[s];
  }

  // ----- Rates and the recommendation -----

  /** A conversion rate; without data it counts as healthy. */
  function Rate(part: nat, whole: nat): real {
    if whole == 0 then 1.0
    else
      var r := part as real / whole as real;
      if r < 1.0 then r else 1.0
  }

  datatype Thresholds = Thresholds(checkout: real, activationFailure: real, provisioningFailure: real)

  function Of(counts: map<Cell, nat>, s: SignupStatus): nat {
    Get(counts, Enum(s))
  }

  predicate CheckoutBelow(counts: map<Cell, nat>, t: Thresholds) {
    Rate(Of(counts, CheckoutCompleted), Of(counts, LinkSent)) < t.checkout
  }

  predicate ActivationBelow(counts: map<Cell, nat>, t: Thresholds) {
    Rate(Of(counts, Activated), Of(counts, CheckoutCompleted)) < 1.0 - t.activationFailure
  }

  predicate ProvisioningBelow(counts: map<Cell, nat>, t: Thresholds) {
    Rate(Of(counts, Provisioned), Of(counts, AccountCreated)) < 1.0 - t.provisioningFailure
  }

  predicate ShouldActivateSafeMode(counts: map<Cell, nat>, t: Thresholds) {
    CheckoutBelow(counts, t) || ActivationBelow(counts, t) || ProvisioningBelow(counts, t)
  }

  lemma RateInRange(part: nat, whole: nat)
    ensures 0.0 <= Rate(part, whole) <= 1.0
  {
    if whole > 0 {
      var w, r := whole as real, part as real / whole as real;
      assert r * w == part as real;
      assert r < 0.0 ==> r * w < 0.0;
    }
  }

  lemma CrossMultiply(x: real, w: real, y: real, z: real)
    requires w > 0.0 && z > 0.0
    ensures x / w < y / z <==> x * z < y * w
  {
    var a, b := x / w, y / z;
    assert x * z == a * (w * z) && y * w == b * (w * z);
    var m := w * z;
    assert m > 0.0;
    assert a < b ==> a * m < b * m;
    assert a >= b ==> a * m >= b * m;
  }

  /** Comparing a rate with a threshold p/q of at most one is an integer comparison. */
  lemma BelowIsCrossProduct(part: nat, whole: nat, p: nat, q: nat)
    requires q > 0 && p <= q
    ensures Rate(part, whole) < p as real / q as real <==> whole > 0 && part * q < p * whole
  {
    var t := p as real / q as real;
    assert t <= 1.0;
    if whole > 0 {
      var x, w, y, z := part as real, whole as real, p as real, q as real;
      assert x / w < y / z <==> x * z < y * w by {
        CrossMultiply(x, w, y, z);
      }
      assert (part * q) as real == x * z && (p * whole) as real == y * w;
    }
  }

  /** A rational threshold p/q between 0 and 1. */
  datatype Ratio = Ratio(p: nat, q: nat) {
    predicate Valid() { q > 0 && p <= q }
    function Value(): real requires Valid() { p as real / q as real }
  }

  lemma QuotientsOfWhole(x: real, z: real)
    requires z > 0.0
    ensures x / z + (z - x) / z == 1.0
  {
    var a, b := x / z, (z - x) / z;
    assert a * z == x && b * z == z - x;
    var e := a + b - 1.0;
    assert e * z == a * z + b * z - z == 0.0;
    assert e > 0.0 ==> e * z > 0.0;
    assert e < 0.0 ==> e * z < 0.0;
  }

  lemma ComplementOf(r: Ratio)
    requires r.Valid()
    ensures 1.0 - r.Value() == Ratio(r.q - r.p, r.q).Value()
  {
    QuotientsOfWhole(r.p as real, r.q as real);
  }

  /** With rational thresholds the recommendation is an integer test on the counts. */
  lemma SafeModeOnCounts(h: map<Cell, nat>, checkout: Ratio, activation: Ratio, provisioning: Ratio)
    requires checkout.Valid() && activation.Valid() && provisioning.Valid()
    ensures
      var t := Thresholds(checkout.Value(), activation.Value(), provisioning.Value());
      && (CheckoutBelow(h, t) <==>
            Of(h, LinkSent) > 0 && Of(h, CheckoutCompleted) * checkout.q < checkout.p * Of(h, LinkSent))
      && (ActivationBelow(h, t) <==>
            Of(h, CheckoutCompleted) > 0
            && Of(h, Activated) * activation.q < (activation.q - activation.p) * Of(h, CheckoutCompleted))
      && (ProvisioningBelow(h, t) <==>
            Of(h, AccountCreated) > 0
            && Of(h, Provisioned) * provisioning.q < (provisioning.q - provisioning.p) * Of(h, AccountCreated))
  {
    ComplementOf(activation);
    ComplementOf(provisioning);
    BelowIsCrossProduct(Of(h, CheckoutCompleted), Of(h, LinkSent), checkout.p, checkout.q);
    BelowIsCrossProduct(Of(h, Activated), Of(h, CheckoutCompleted), activation.q - activation.p, activation.q);
    BelowIsCrossProduct(Of(h, Provisioned), Of(h, AccountCreated), provisioning.q - provisioning.p, provisioning.q);
  }

  /** From rows to decision: with rational thresholds the recommendation is an integer test on how many
      rows have each status. */
  lemma SafeModeIsIntegerTest(rows: seq<Row>, checkout: Ratio, activation: Ratio, provisioning: Ratio)
    requires checkout.Valid() && activation.Valid() && provisioning.Valid()
    ensures
      var sent, completed := Count(rows, Enum(LinkSent)), Count(rows, Enum(CheckoutCompleted));
      var activated := Count(rows, Enum(Activated));
      var created, provisioned := Count(rows, Enum(AccountCreated)), Count(rows, Enum(Provisioned));
      ShouldActivateSafeMode(Histogram(rows), Thresholds(checkout.Value(), activation.Value(), provisioning.Value()))
      <==>
      || (sent > 0 && completed * checkout.q < checkout.p * sent)
      || (completed > 0 && activated * activation.q < (activation.q - activation.p) * completed)
      || (created > 0 && provisioned * provisioning.q < (provisioning.q - provisioning.p) * created)
  {
    forall s | s in {LinkSent, CheckoutCompleted, Activated, AccountCreated, Provisioned}
      ensures Of(Histogram(rows), s) == Count(rows, Enum(s))
    {
      HistogramCounts(rows, Enum(s));
    }
    SafeModeOnCounts(Histogram(rows), checkout, activation, provisioning);
  }

  lemma RateGrowsWithPart(part: nat, whole: nat)
    ensures Rate(part, whole) <= Rate(part + 1, whole)
  {
    if whole > 0 {
      var w := whole as real;
      assert (part as real + 1.0) / w == part as real / w + 1.0 / w;
      assert 1.0 / w > 0.0;
    }
  }

  lemma RateFallsWithWhole(part: nat, whole: nat)
    ensures Rate(part, whole + 1) <= Rate(part, whole)
  {
    if whole > 0 {
      var x, w, w' := part as real, whole as real, whole as real + 1.0;
      CrossMultiply(x, w, x, w');
      assert x * w' >= x * w;
    } else {
      RateInRange(part, 1);
    }
  }

  /** With the recommendation off, one more completed checkout turns it on exactly when the activation
      rate it leaves is below the threshold. */
  predicate CompletedTurnsOn(counts: map<Cell, nat>, t: Thresholds) {
    Rate(Of(counts, Activated), Of(counts, CheckoutCompleted) + 1) < 1.0 - t.activationFailure
  }

  /** With the recommendation on, one more completed checkout turns it off exactly when provisioning is
      healthy and both rates it leaves are. */
  predicate CompletedTurnsOff(counts: map<Cell, nat>, t: Thresholds) {
    && !ProvisioningBelow(counts, t)
    && Rate(Of(counts, CheckoutCompleted) + 1, Of(counts, LinkSent)) >= t.checkout
    && Rate(Of(counts, Activated), Of(counts, CheckoutCompleted) + 1) >= 1.0 - t.activationFailure
  }

  lemma HistogramAppend(rows: seq<Row>, row: Row)
    ensures Histogram(rows + [row]) == Bumped(Histogram(rows), StatusOf(row))
  {
    assert (rows + [row])[..|rows|] == rows;
  }

  /** What one more row of the given status can do to the recommendation. */
  predicate Moves(h: map<Cell, nat>, status: Cell, t: Thresholds) {
    var before, after := ShouldActivateSafeMode(h, t), ShouldActivateSafeMode(Bumped(h, status), t);
    match status
    case Enum(Activated) => after ==> before
    case Enum(Provisioned) => after ==> before
    case Enum(LinkSent) => before ==> after
    case Enum(AccountCreated) => before ==> after
    case Enum(CheckoutCompleted) => after <==> if before then !CompletedTurnsOff(h, t) else CompletedTurnsOn(h, t)
    case _ => before == after
  }

  /** A success raises its rate. */
  lemma SuccessMoves(h: map<Cell, nat>, t: Thresholds)
    ensures Moves(h, Enum(Activated), t) && Moves(h, Enum(Provisioned), t)
  {
    RateGrowsWithPart(Of(h, Activated), Of(h, CheckoutCompleted));
    RateGrowsWithPart(Of(h, Provisioned), Of(h, AccountCreated));
  }

  /** One more to succeed lowers it. */
  lemma TrialMoves(h: map<Cell, nat>, t: Thresholds)
    ensures Moves(h, Enum(LinkSent), t) && Moves(h, Enum(AccountCreated), t)
  {
    RateFallsWithWhole(Of(h, CheckoutCompleted), Of(h, LinkSent));
    RateFallsWithWhole(Of(h, Provisioned), Of(h, AccountCreated));
  }

  /** A completed checkout is both, and moves the recommendation exactly as `CompletedTurnsOn` and
      `CompletedTurnsOff` say. */
  lemma CompletedMoves(h: map<Cell, nat>, t: Thresholds)
    ensures Moves(h, Enum(CheckoutCompleted), t)
  {
    RateGrowsWithPart(Of(h, CheckoutCompleted), Of(h, LinkSent));
    RateFallsWithWhole(Of(h, Activated), Of(h, CheckoutCompleted));
  }

  lemma OtherMoves(h: map<Cell, nat>, status: Cell, t: Thresholds)
    requires forall s :: status == Enum(s) ==>
               s !in {Activated, Provisioned, LinkSent, AccountCreated, CheckoutCompleted}
    ensures Moves(h, status, t)
  {
    assert forall s :: s in {Activated, Provisioned, LinkSent, AccountCreated, CheckoutCompleted} ==>
        Of(Bumped(h, status), s) == Of(h, s);
  }

  /** What adding one row of each status can do to the recommendation: activated and provisioned rows
      never turn it on, link-sent and account-created rows never turn it off, a completed checkout can do
      both (exactly when is said), and every other row leaves it alone. */
  lemma SafeModeMonotone(rows: seq<Row>, row: Row, t: Thresholds)
    ensures Histogram(rows + [row]) == Bumped(Histogram(rows), StatusOf(row))
    ensures Moves(Histogram(rows), StatusOf(row), t)
  {
    var h := Histogram(rows);
    HistogramAppend(rows, row);
    match StatusOf(row)
    case Enum(Activated) => SuccessMoves(h, t);
    case Enum(Provisioned) => SuccessMoves(h, t);
    case Enum(LinkSent) => TrialMoves(h, t);
    case Enum(AccountCreated) => TrialMoves(h, t);
    case Enum(CheckoutCompleted) => CompletedMoves(h, t);
    case _ => OtherMoves(h, StatusOf(row), t);
  }

  /** A completed checkout is the one status that can move the recommendation both ways. With it off, the
      row turns it on exactly when the activation rate it leaves is below the threshold; with it on, the row
      turns it off exactly when provisioning is healthy and so are the two rates it leaves. */
  lemma CompletedRowMoves(rows: seq<Row>, row: Row, t: Thresholds)
    requires StatusOf(row) == Enum(CheckoutCompleted)
    ensures
      var h := Histogram(rows);
      var before, after := ShouldActivateSafeMode(h, t), ShouldActivateSafeMode(Histogram(rows + [row]), t);
      && (!before ==> (after <==> CompletedTurnsOn(h, t)))
      && (before ==> (!after <==> CompletedTurnsOff(h, t)))
  {
    HistogramAppend(rows, row);
    CompletedMoves(Histogram(rows), t);
  }

  /** The made-up data of a stub has three completed checkouts for four links and two activations for three
      checkouts; with an activation failure threshold below one third, the recommendation is on. */
  lemma StubRecommends(t: Thresholds)
    ensures ShouldActivateSafeMode(STUB_COUNTS, t)
       <==> t.checkout > 0.75 || t.activationFailure * 3.0 < 1.0 || t.provisioningFailure < 0.0
  {
    assert Rate(3, 4) == 0.75 && Rate(2, 3) * 3.0 == 2.0 && Rate(0, 0) == 1.0;
  }

  /** Both ways happen: on an empty table it turns the recommendation on (nobody
      activated), and after one link sent and one activation it turns it off. */
  lemma CompletedRowCutsBothWays(t: Thresholds)
    requires 0.0 < t.checkout <= 1.0 && 0.0 <= t.activationFailure < 1.0 && 0.0 <= t.provisioningFailure
    ensures
      var completed: Row := map[Status := Enum(CheckoutCompleted)];
      var healthy: seq<Row> := [map[Status := Enum(LinkSent)], map[Status := Enum(Activated)]];
      && !ShouldActivateSafeMode(Histogram([]), t) && ShouldActivateSafeMode(Histogram([completed]), t)
      && ShouldActivateSafeMode(Histogram(healthy), t) && !ShouldActivateSafeMode(Histogram(healthy + [completed]), t)
  {
    var completed: Row := map[Status := Enum(CheckoutCompleted)];
    var sent: Row := map[Status := Enum(LinkSent)];
    var activated: Row := map[Status := Enum(Activated)];
    assert [completed][..0] == [] && [sent][..0] == [];
    assert [sent, activated][..1] == [sent];
    assert ([sent, activated] + [completed])[..2] == [sent, activated];
    assert Histogram([sent]) == map[Enum(LinkSent) := 1];
    assert Histogram([sent, activated]) == map[Enum(LinkSent) := 1, Enum(Activated) := 1];
    assert Histogram([sent, activated] + [completed])
        == map[Enum(LinkSent) := 1, Enum(Activated) := 1, Enum(CheckoutCompleted) := 1];
    assert Histogram([completed]) == map[Enum(CheckoutCompleted) := 1];
  }
}
