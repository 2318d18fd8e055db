/** Local hours and days, and the rebuild of the node-level rollups. */
module ConsumptionRollup {
  import opened Options

  // Integer division of the database: toward zero.
  function TruncDiv(x: int, unit: nat): int
    requires unit > 0
  {
    if x >= 0 then x / unit else -(-x / unit)
  }

  // ((t + offset) / unit) * unit - offset, as the queries compute it.
  function Start(t: int, offset: int, unit: nat): int
    requires unit > 0
  {
    TruncDiv(t + offset, unit) * unit - offset
  }

  const HOUR := 3600
  const DAY := 86400

  // The same with the floor division of the program text; % and / by a positive number
  // round down here.
  function LocalDayStart(t: int, offset: int): int {
    (t + offset) / DAY * DAY - offset
  }

  lemma DayOfHourNonNegative(x: int)
    requires x >= 0
    ensures x / HOUR * HOUR / DAY == x / DAY
  {
    var hours := x / HOUR;
    assert DAY == 24 * HOUR;
    assert x == hours * HOUR + x % HOUR;
    assert hours == hours / 24 * 24 + hours % 24;
    var days, rest := hours / 24, hours % 24 * HOUR + x % HOUR;
    assert x == days * DAY + rest && 0 <= rest < DAY;
  }

  // The local day of a local hour is the local day of every moment in it, for any offset.
  lemma DayOfHour(t: int, offset: int)
    ensures Start(Start(t, offset, HOUR), offset, DAY) == Start(t, offset, DAY)
  {
    var x := t + offset;
    if x >= 0 {
      DayOfHourNonNegative(x);
    } else {
      DayOfHourNonNegative(-x);
    }
  }

  // The two divisions agree exactly when the local time is not negative or falls on midnight.
  lemma DayStartsAgreeExactly(t: int, offset: int)
    ensures Start(t, offset, DAY) == LocalDayStart(t, offset) <==> t + offset >= 0 || (t + offset) % DAY == 0
  {
    var x := t + offset;
    if x < 0 {
      assert -x == -x / DAY * DAY + -x % DAY;
      assert x == x / DAY * DAY + x % DAY;
    }
  }

  // ---------------------------------------------------------------- grouping

  // The measures of a raw row, and of a group of them.
  datatype Moved = Moved(
    publicRx: int, publicTx: int, privateRx: int, privateTx: int, coverage: int, samples: int, lastPush: int)

  function Later(a: int, b: int): int {
    if a < b then b else a
  }

  function Plus(a: Moved, b: Moved): Moved {
    Moved(a.publicRx + b.publicRx, a.publicTx + b.publicTx, a.privateRx + b.privateRx, a.privateTx + b.privateTx,
          a.coverage + b.coverage, a.samples + b.samples, Later(a.lastPush, b.lastPush))
  }

  // The sum over no rows at all is NULL.
  function Add(a: Option<Moved>, b: Option<Moved>): Option<Moved> {
    if a.None? then b else if b.None? then a else Some(Plus(a.value, b.value))
  }

  lemma AddLaws(a: Option<Moved>, b: Option<Moved>, c: Option<Moved>)
    ensures Add(Add(a, b), c) == Add(a, Add(b, c)) && Add(a, b) == Add(b, a)
    ensures Add(a, None) == a && Add(None, a) == a
  {
  }

  datatype Reading = Reading(start: int, node: string, moved: Moved)

  predicate Same(a: Reading, b: Reading) {
    a.start == b.start && a.node == b.node
  }

  // Adds a reading to the group of its node and start.
  function AddTo(table: seq<Reading>, r: Reading): seq<Reading> {
    if table == [] then [r]
    else if Same(table[0], r) then [table[0].(moved := Plus(table[0].moved, r.moved))] + table[1..]
    else [table[0]] + AddTo(table[1..], r)
  }

  // SELECT start, node, SUM(...), MAX(last_push) ... GROUP BY start, node
  function Grouped(rs: seq<Reading>): seq<Reading> {
    if rs == [] then [] else AddTo(Grouped(rs[..|rs| - 1]), rs[|rs| - 1])
  }

  function AtDay(r: Reading, offset: int): Reading {
    r.(start := Start(r.start, offset, DAY))
  }

  function AtDays(rs: seq<Reading>, offset: int): seq<Reading> {
    seq(|rs|, i requires 0 <= i < |rs| => AtDay(rs[i], offset))
  }

  // LEAST(bound, SUM(coverage))
  function Cap(m: Moved, bound: int): Moved {
    m.(coverage := if m.coverage < bound then m.coverage else bound)
  }

  function Capped(table: seq<Reading>, bound: int): seq<Reading> {
    seq(|table|, i requires 0 <= i < |table| => table[i].(moved := Cap(table[i].moved, bound)))
  }

  // The hourly query on the rows of its inner query, and the daily query on hourly rows.
  function Hours(slots: seq<Reading>): seq<Reading> {
    Capped(Grouped(slots), HOUR)
  }

  function Days(rs: seq<Reading>, offset: int): seq<Reading> {
    Capped(Grouped(AtDays(rs, offset)), DAY)
  }

  // The group of a node and start, if there is one.
  function Found(table: seq<Reading>, node: string, start: int): Option<Moved> {
    if table == [] then None
    else if table[0].node == node && table[0].start == start then Some(table[0].moved)
    else Found(table[1..], node, start)
  }

  // What a reading adds to a node's local day.
  function Share(r: Reading, node: string, day: int, offset: int): Option<Moved> {
    if r.node == node && Start(r.start, offset, DAY) == day then Some(r.moved) else None
  }

  // What a node moved on a local day.
  function DayTotal(rs: seq<Reading>, node: string, day: int, offset: int): Option<Moved> {
    if rs == [] then None else Add(Share(rs[0], node, day, offset), DayTotal(rs[1..], node, day, offset))
  }

  lemma {:induction false} DayTotalAdds(a: seq<Reading>, b: seq<Reading>, node: string, day: int, offset: int)
    ensures DayTotal(a + b, node, day, offset)
         == Add(DayTotal(a, node, day, offset), DayTotal(b, node, day, offset))
  {
    hide Add, Share;
    if a == [] {
      assert a + b == b;
      AddLaws(DayTotal(b, node, day, offset), None, None);
    } else {
      assert (a + b)[1..] == a[1..] + b;
      DayTotalAdds(a[1..], b, node, day, offset);
      AddLaws(Share(a[0], node, day, offset), DayTotal(a[1..], node, day, offset), DayTotal(b, node, day, offset));
    }
  }

  lemma {:induction false} DayTotalLast(rs: seq<Reading>, node: string, day: int, offset: int)
    requires rs != []
    ensures DayTotal(rs, node, day, offset)
         == Add(DayTotal(rs[..|rs| - 1], node, day, offset), Share(rs[|rs| - 1], node, day, offset))
  {
    hide Add, Share;
    var init, r := rs[..|rs| - 1], rs[|rs| - 1];
    assert rs == init + [r];
    DayTotalAdds(init, [r], node, day, offset);
    AddLaws(Share(r, node, day, offset), None, None);
  }

  // What is added to a group is added to the group's day.
  lemma {:induction false} DayTotalAddTo(table: seq<Reading>, r: Reading, node: string, day: int, offset: int)
    ensures DayTotal(AddTo(table, r), node, day, offset)
         == Add(DayTotal(table, node, day, offset), Share(r, node, day, offset))
  {
    hide Add, Start;
    var share := Share(r, node, day, offset);
    if table == [] {
      AddLaws(share, None, None);
    } else {
      var rest := table[1..];
      var head, tail := Share(table[0], node, day, offset), DayTotal(rest, node, day, offset);
      AddLaws(head, tail, share);
      if Same(table[0], r) {
        assert AddTo(table, r)[1..] == rest;
        ShareMerged(table[0], r, node, day, offset);
        AddLaws(head, share, tail);
        AddLaws(tail, share, None);
      } else {
        DayTotalAddTo(rest, r, node, day, offset);
        assert AddTo(table, r)[1..] == AddTo(rest, r);
      }
    }
  }

  lemma ShareMerged(a: Reading, r: Reading, node: string, day: int, offset: int)
    requires Same(a, r)
    ensures Share(a.(moved := Plus(a.moved, r.moved)), node, day, offset)
         == Add(Share(a, node, day, offset), Share(r, node, day, offset))
  {
    hide Start;
  }

  // Grouping keeps what every node moved on every local day.
  lemma {:induction false} GroupsKeepDays(rs: seq<Reading>, node: string, day: int, offset: int)
    ensures DayTotal(Grouped(rs), node, day, offset) == DayTotal(rs, node, day, offset)
  {
    hide Start, Add, Share, AddTo;
    if rs != [] {
      var init, r := rs[..|rs| - 1], rs[|rs| - 1];
      GroupsKeepDays(init, node, day, offset);
      DayTotalAddTo(Grouped(init), r, node, day, offset);
      DayTotalLast(rs, node, day, offset);
    }
  }

  lemma {:induction false} FoundAddTo(table: seq<Reading>, r: Reading, node: string, start: int)
    ensures Found(AddTo(table, r), node, start)
         == Add(Found(table, node, start), if r.node == node && r.start == start then Some(r.moved) else None)
  {
    if table == [] {
    } else if Same(table[0], r) {
      assert AddTo(table, r)[1..] == table[1..];
    } else {
      FoundAddTo(table[1..], r, node, start);
      assert AddTo(table, r)[1..] == AddTo(table[1..], r);
    }
  }

  // A daily group holds what the node moved on that local day, and exists if anything did.
  lemma {:induction false} DayGroup(rs: seq<Reading>, node: string, day: int, offset: int)
    ensures Found(Grouped(AtDays(rs, offset)), node, day) == DayTotal(rs, node, day, offset)
  {
    hide Start, Add, AddTo;
    var at := AtDays(rs, offset);
    if rs != [] {
      var init, r := rs[..|rs| - 1], rs[|rs| - 1];
      assert at[..|at| - 1] == AtDays(init, offset);
      DayGroup(init, node, day, offset);
      FoundAddTo(Grouped(AtDays(init, offset)), AtDay(r, offset), node, day);
      DayTotalLast(rs, node, day, offset);
    }
  }

  lemma {:induction false} FoundCapped(table: seq<Reading>, bound: int, node: string, start: int)
    ensures Found(Capped(table, bound), node, start)
         == (match Found(table, node, start) case None => None case Some(m) => Some(Cap(m, bound)))
  {
    hide Cap;
    if table != [] {
      assert Capped(table, bound)[1..] == Capped(table[1..], bound);
      FoundCapped(table[1..], bound, node, start);
    }
  }

  // All columns but the coverage.
  function Traffic(m: Moved): Moved {
    m.(coverage := 0)
  }

  // An hour of that day is covered more than it is long.
  predicate Overfull(table: seq<Reading>, bound: int, node: string, day: int, offset: int) {
    exists i :: 0 <= i < |table| && Share(table[i], node, day, offset).Some? && table[i].moved.coverage > bound
  }

  // Capping groups takes coverage from a day exactly when it holds an overfull one.
  lemma {:induction false} CappedDay(table: seq<Reading>, bound: int, node: string, day: int, offset: int)
    ensures var now, was := DayTotal(Capped(table, bound), node, day, offset), DayTotal(table, node, day, offset);
            && (now.Some? <==> was.Some?)
            && (was.Some? ==>
                  && Traffic(now.value) == Traffic(was.value) && now.value.coverage <= was.value.coverage
                  && (now.value.coverage < was.value.coverage <==> Overfull(table, bound, node, day, offset)))
            && (was.None? ==> !Overfull(table, bound, node, day, offset))
  {
    hide Start;
    if table != [] {
      var rest := table[1..];
      assert Capped(table, bound)[1..] == Capped(rest, bound);
      CappedDay(rest, bound, node, day, offset);
      OverfullHead(table, bound, node, day, offset);
    }
  }

  lemma OverfullHead(table: seq<Reading>, bound: int, node: string, day: int, offset: int)
    requires table != []
    ensures Overfull(table, bound, node, day, offset) <==>
              || (Share(table[0], node, day, offset).Some? && table[0].moved.coverage > bound)
              || Overfull(table[1..], bound, node, day, offset)
  {
    hide Share;
    var rest := table[1..];
    if Overfull(rest, bound, node, day, offset) {
      var i :| 0 <= i < |rest| && Share(rest[i], node, day, offset).Some? && rest[i].moved.coverage > bound;
      assert table[i + 1] == rest[i];
    }
    if Overfull(table, bound, node, day, offset) {
      var i :| 0 <= i < |table| && Share(table[i], node, day, offset).Some? && table[i].moved.coverage > bound;
      if i > 0 { assert rest[i - 1] == table[i]; }
    }
  }

  // The hours of the day cover all of it.
  predicate FullDay(hours: seq<Reading>, node: string, day: int, offset: int) {
    var total := DayTotal(hours, node, day, offset);
    total.Some? && total.value.coverage >= DAY
  }

  // The daily rows made from the hourly rows are those a daily query would make of the same
  // readings, except that the coverage of an overfull hour is lost.
  lemma HoursThenDays(slots: seq<Reading>, node: string, day: int, offset: int)
    ensures var viaHours, direct := Found(Days(Hours(slots), offset), node, day), Found(Days(slots, offset), node, day);
            && (viaHours.Some? <==> direct.Some?)
            && (direct.Some? ==>
                  && Traffic(viaHours.value) == Traffic(direct.value)
                  && viaHours.value.coverage <= direct.value.coverage)
            && (viaHours == direct <==>
                  || FullDay(Hours(slots), node, day, offset)
                  || !Overfull(Grouped(slots), HOUR, node, day, offset))
  {
    hide Start, Grouped, AtDays, Found, DayTotal, Capped, Overfull;
    FoundCapped(Grouped(AtDays(slots, offset)), DAY, node, day);
    FoundCapped(Grouped(AtDays(Hours(slots), offset)), DAY, node, day);
    DayGroup(slots, node, day, offset);
    DayGroup(Hours(slots), node, day, offset);
    GroupsKeepDays(slots, node, day, offset);
    CappedDay(Grouped(slots), HOUR, node, day, offset);
  }

  // ---------------------------------------------------------------- the hourly query

  // A raw row of one interface of a node; its coverage is the interval it stands for.
  datatype Raw = Raw(time: int, node: string, bucket: int, moved: Moved)

  // A row of the inner query: one bucket of a node within a local hour.
  datatype Slot = Slot(bucket: int, reading: Reading)

  function SlotOf(raw: Raw, offset: int): Slot {
    Slot(raw.bucket, Reading(Start(raw.time, offset, HOUR), raw.node, raw.moved.(samples := 1)))
  }

  // SUM of the traffic, MAX of the interval; a bucket is one sample.
  function Within(a: Moved, b: Moved): Moved {
    Plus(a, b).(coverage := Later(a.coverage, b.coverage), samples := 1)
  }

  function AddSlot(slots: seq<Slot>, x: Slot): seq<Slot> {
    if slots == [] then [x]
    else if slots[0].bucket == x.bucket && Same(slots[0].reading, x.reading) then
      var r := slots[0].reading;
      [slots[0].(reading := r.(moved := Within(r.moved, x.reading.moved)))] + slots[1..]
    else [slots[0]] + AddSlot(slots[1..], x)
  }

  function PerBucket(raws: seq<Raw>, offset: int): seq<Slot> {
    if raws == [] then [] else AddSlot(PerBucket(raws[..|raws| - 1], offset), SlotOf(raws[|raws| - 1], offset))
  }

  function Readings(slots: seq<Slot>): seq<Reading> {
    seq(|slots|, i requires 0 <= i < |slots| => slots[i].reading)
  }

  function AsReadings(raws: seq<Raw>): seq<Reading> {
    seq(|raws|, i requires 0 <= i < |raws| => Reading(raws[i].time, raws[i].node, raws[i].moved))
  }

  // What is only added up on the way: the traffic, and the latest push.
  function Flow(m: Option<Moved>): Option<Moved> {
    match m
    case None => None
    case Some(v) => Some(v.(coverage := 0, samples := 0))
  }

  lemma FlowAdds(a: Option<Moved>, b: Option<Moved>)
    ensures Flow(Add(a, b)) == Add(Flow(a), Flow(b))
  {
  }

  lemma {:induction false} FlowAddSlot(slots: seq<Slot>, x: Slot, node: string, day: int, offset: int)
    ensures Flow(DayTotal(Readings(AddSlot(slots, x)), node, day, offset))
         == Add(Flow(DayTotal(Readings(slots), node, day, offset)), Flow(Share(x.reading, node, day, offset)))
  {
    hide Start, Add, Flow, Within;
    var share := Share(x.reading, node, day, offset);
    if slots == [] {
      assert Readings([x])[1..] == [];
      AddLaws(share, None, None);
      AddLaws(Flow(share), None, None);
      FlowOfNone();
    } else {
      var rest := slots[1..];
      var head, tail := Share(slots[0].reading, node, day, offset), DayTotal(Readings(rest), node, day, offset);
      assert Readings(slots)[1..] == Readings(rest);
      FlowAdds(head, tail);
      AddLaws(Flow(head), Flow(tail), Flow(share));
      if slots[0].bucket == x.bucket && Same(slots[0].reading, x.reading) {
        assert Readings(AddSlot(slots, x))[1..] == Readings(rest);
        FlowWithin(slots[0].reading, x.reading, node, day, offset);
        FlowAdds(Share(Readings(AddSlot(slots, x))[0], node, day, offset), tail);
        AddLaws(Flow(head), Flow(share), Flow(tail));
        AddLaws(Flow(tail), Flow(share), None);
      } else {
        FlowAddSlot(rest, x, node, day, offset);
        assert Readings(AddSlot(slots, x))[1..] == Readings(AddSlot(rest, x));
        FlowAdds(head, DayTotal(Readings(AddSlot(rest, x)), node, day, offset));
      }
    }
  }

  lemma FlowOfNone()
    ensures Flow(None) == None
  {
  }

  lemma FlowWithin(a: Reading, r: Reading, node: string, day: int, offset: int)
    requires Same(a, r)
    ensures Flow(Share(a.(moved := Within(a.moved, r.moved)), node, day, offset))
         == Add(Flow(Share(a, node, day, offset)), Flow(Share(r, node, day, offset)))
  {
    hide Start;
  }

  // Buckets within local hours keep what every node moved on every local day.
  lemma {:induction false} BucketsKeepFlow(raws: seq<Raw>, node: string, day: int, offset: int)
    ensures Flow(DayTotal(Readings(PerBucket(raws, offset)), node, day, offset))
         == Flow(DayTotal(AsReadings(raws), node, day, offset))
  {
    hide Start, Add, Flow, AddSlot;
    if raws == [] {
      assert Readings([]) == [] == AsReadings([]);
    } else {
      var init, raw := raws[..|raws| - 1], raws[|raws| - 1];
      var rs := AsReadings(raws);
      BucketsKeepFlow(init, node, day, offset);
      FlowAddSlot(PerBucket(init, offset), SlotOf(raw, offset), node, day, offset);
      assert rs[..|rs| - 1] == AsReadings(init);
      DayTotalLast(rs, node, day, offset);
      FlowAdds(DayTotal(AsReadings(init), node, day, offset), Share(rs[|rs| - 1], node, day, offset));
      SameShare(raw, node, day, offset);
    }
  }

  lemma SameShare(raw: Raw, node: string, day: int, offset: int)
    ensures Flow(Share(SlotOf(raw, offset).reading, node, day, offset))
         == Flow(Share(Reading(raw.time, raw.node, raw.moved), node, day, offset))
  {
    hide Start;
    DayOfHour(raw.time, offset);
  }

  // So do the hours of the hourly query.
  lemma HoursKeepFlow(raws: seq<Raw>, node: string, day: int, offset: int)
    ensures Flow(DayTotal(Hours(Readings(PerBucket(raws, offset))), node, day, offset))
         == Flow(DayTotal(AsReadings(raws), node, day, offset))
  {
    hide Start, DayTotal, Overfull, Grouped, Capped;
    var slots := Readings(PerBucket(raws, offset));
    BucketsKeepFlow(raws, node, day, offset);
    GroupsKeepDays(slots, node, day, offset);
    CappedDay(Grouped(slots), HOUR, node, day, offset);
  }

  predicate Has(table: seq<Reading>, r: Reading) {
    table != [] && (Same(table[0], r) || Has(table[1..], r))
  }

  // One group per node and start.
  predicate Distinct(table: seq<Reading>) {
    table != [] ==> !Has(table[1..], table[0]) && Distinct(table[1..])
  }

  lemma {:induction false} AddToDistinct(table: seq<Reading>, r: Reading, x: Reading)
    ensures Has(AddTo(table, r), x) <==> Has(table, x) || Same(r, x)
    ensures Distinct(table) ==> Distinct(AddTo(table, r))
  {
    if table != [] {
      var tail := table[1..];
      if Same(table[0], r) {
        assert AddTo(table, r)[1..] == tail;
        HasAlike(tail, table[0], AddTo(table, r)[0]);
      } else {
        AddToDistinct(tail, r, x);
        AddToDistinct(tail, r, table[0]);
        assert AddTo(table, r)[1..] == AddTo(tail, r);
      }
    }
  }

  lemma {:induction false} HasAlike(table: seq<Reading>, a: Reading, b: Reading)
    requires Same(a, b)
    ensures Has(table, a) == Has(table, b)
  {
    if table != [] { HasAlike(table[1..], a, b); }
  }

  lemma {:induction false} GroupedDistinct(rs: seq<Reading>)
    ensures Distinct(Grouped(rs))
  {
    if rs != [] {
      GroupedDistinct(rs[..|rs| - 1]);
      AddToDistinct(Grouped(rs[..|rs| - 1]), rs[|rs| - 1], rs[|rs| - 1]);
    }
  }

  // ---------------------------------------------------------------- the rebuild

  // The two halves of a rollup row, each rewritten by its own queries.
  datatype Part = Physical | Guests

  datatype Columns = Columns(
    publicRx: int, publicTx: int, privateRx: int, privateTx: int, coverage: int, samples: int, vms: int)

  const NO_COLUMNS := Columns(0, 0, 0, 0, 0, 0, 0)

  datatype Row = Row(start: int, node: string, physical: Columns, guests: Columns, lastPush: int)

  // A row of a compacting query.
  datatype Fresh = Fresh(start: int, node: string, columns: Columns, lastPush: int)

  function Half(row: Row, part: Part): Columns {
    match part
    case Physical => row.physical
    case Guests => row.guests
  }

  predicate Keyed(row: Row, x: Fresh) {
    row.start == x.start && row.node == x.node
  }

  // DO UPDATE: the columns of one half, and the later of the two push times.
  function Updated(row: Row, part: Part, x: Fresh): Row {
    var later := if row.lastPush < x.lastPush then x.lastPush else row.lastPush;
    match part
    case Physical => row.(physical := x.columns, lastPush := later)
    case Guests => row.(guests := x.columns, lastPush := later)
  }

  // INSERT ... ON CONFLICT(start, node) DO UPDATE
  function Upsert(table: seq<Row>, part: Part, x: Fresh): seq<Row> {
    if table == [] then [Updated(Row(x.start, x.node, NO_COLUMNS, NO_COLUMNS, x.lastPush), part, x)]
    else if Keyed(table[0], x) then [Updated(table[0], part, x)] + table[1..]
    else [table[0]] + Upsert(table[1..], part, x)
  }

  function UpsertAll(table: seq<Row>, part: Part, xs: seq<Fresh>): seq<Row>
    decreases |xs|
  {
    if xs == [] then table else UpsertAll(Upsert(table, part, xs[0]), part, xs[1..])
  }

  // Writing x would change nothing.
  predicate Settled(table: seq<Row>, part: Part, x: Fresh) {
    && table != []
    && if Keyed(table[0], x) then Half(table[0], part) == x.columns && table[0].lastPush >= x.lastPush
       else Settled(table[1..], part, x)
  }

  predicate AllSettled(table: seq<Row>, part: Part, xs: seq<Fresh>) {
    forall x <- xs :: Settled(table, part, x)
  }

  lemma {:induction false} UpsertSettles(table: seq<Row>, part: Part, x: Fresh)
    ensures Settled(Upsert(table, part, x), part, x)
    ensures Settled(table, part, x) ==> Upsert(table, part, x) == table
  {
    if table != [] {
      UpsertSettles(table[1..], part, x);
      assert table == [table[0]] + table[1..];
      if !Keyed(table[0], x) {
        assert Upsert(table, part, x)[1..] == Upsert(table[1..], part, x);
      }
    }
  }

  // A write to the other half, or for another key, unsettles nothing.
  lemma {:induction false} UpsertKeeps(table: seq<Row>, part: Part, x: Fresh, other: Part, y: Fresh)
    requires Settled(table, part, x)
    requires part != other || x.start != y.start || x.node != y.node
    ensures Settled(Upsert(table, other, y), part, x)
  {
    if Keyed(table[0], y) {
      assert Upsert(table, other, y)[1..] == table[1..];
    } else {
      assert Upsert(table, other, y)[1..] == Upsert(table[1..], other, y);
      if !Keyed(table[0], x) { UpsertKeeps(table[1..], part, x, other, y); }
    }
  }

  // GROUP BY gives one row per key.
  predicate OneEach(xs: seq<Fresh>) {
    forall i, j :: 0 <= i < j < |xs| ==> xs[i].start != xs[j].start || xs[i].node != xs[j].node
  }

  lemma {:induction false} UpsertAllKeeps(table: seq<Row>, part: Part, x: Fresh, other: Part, ys: seq<Fresh>)
    requires Settled(table, part, x)
    requires part != other || forall y <- ys :: x.start != y.start || x.node != y.node
    ensures Settled(UpsertAll(table, other, ys), part, x)
    decreases |ys|
  {
    if ys != [] {
      UpsertKeeps(table, part, x, other, ys[0]);
      UpsertAllKeeps(Upsert(table, other, ys[0]), part, x, other, ys[1..]);
    }
  }

  lemma {:induction false} UpsertAllSettles(table: seq<Row>, part: Part, xs: seq<Fresh>)
    requires OneEach(xs)
    ensures AllSettled(UpsertAll(table, part, xs), part, xs)
    decreases |xs|
  {
    if xs != [] {
      var rest := xs[1..];
      forall i, j | 0 <= i < j < |rest| ensures rest[i].start != rest[j].start || rest[i].node != rest[j].node {
        assert rest[i] == xs[i + 1] && rest[j] == xs[j + 1];
      }
      UpsertSettles(table, part, xs[0]);
      UpsertAllSettles(Upsert(table, part, xs[0]), part, rest);
      forall y | y in rest ensures xs[0].start != y.start || xs[0].node != y.node {
        var k :| 0 <= k < |rest| && rest[k] == y;
        assert xs[k + 1] == y;
      }
      UpsertAllKeeps(Upsert(table, part, xs[0]), part, xs[0], part, rest);
      assert xs == [xs[0]] + rest;
    }
  }

  lemma {:induction false} UpsertAllNothing(table: seq<Row>, part: Part, xs: seq<Fresh>)
    requires AllSettled(table, part, xs)
    ensures UpsertAll(table, part, xs) == table
  {
    if xs != [] {
      UpsertSettles(table, part, xs[0]);
      UpsertAllNothing(table, part, xs[1..]);
    }
  }

  // Both halves of a table rewritten from their queries.
  function Rebuilt(table: seq<Row>, physical: seq<Fresh>, guests: seq<Fresh>): seq<Row> {
    UpsertAll(UpsertAll(table, Physical, physical), Guests, guests)
  }

  lemma RebuiltTwice(table: seq<Row>, physical: seq<Fresh>, guests: seq<Fresh>)
    requires OneEach(physical) && OneEach(guests)
    ensures Rebuilt(Rebuilt(table, physical, guests), physical, guests) == Rebuilt(table, physical, guests)
  {
    var half := UpsertAll(table, Physical, physical);
    var once := UpsertAll(half, Guests, guests);
    UpsertAllSettles(table, Physical, physical);
    UpsertAllSettles(half, Guests, guests);
    forall x | x in physical ensures Settled(once, Physical, x) {
      UpsertAllKeeps(half, Physical, x, Guests, guests);
    }
    UpsertAllNothing(once, Physical, physical);
    UpsertAllNothing(once, Guests, guests);
  }

  // The physical half of the days comes from the hourly rows since the first day.
  function HourReadings(hourly: seq<Row>, firstDay: int): seq<Reading> {
    if hourly == [] then []
    else
      var row, c := hourly[0], hourly[0].physical;
      (if row.start >= firstDay then
         [Reading(row.start, row.node,
                  Moved(c.publicRx, c.publicTx, c.privateRx, c.privateTx, c.coverage, c.samples, row.lastPush))]
       else [])
      + HourReadings(hourly[1..], firstDay)
  }

  function FreshRow(r: Reading): Fresh {
    var m := r.moved;
    Fresh(r.start, r.node,
          Columns(m.publicRx, m.publicTx, m.privateRx, m.privateTx, m.coverage, m.samples, 0), m.lastPush)
  }

  function FreshRows(rs: seq<Reading>): seq<Fresh> {
    seq(|rs|, i requires 0 <= i < |rs| => FreshRow(rs[i]))
  }

  function HourlyPhysical(raws: seq<Raw>, offset: int): seq<Fresh> {
    FreshRows(Hours(Readings(PerBucket(raws, offset))))
  }

  function DailyPhysical(hourly: seq<Row>, firstDay: int, offset: int): seq<Fresh> {
    FreshRows(Days(HourReadings(hourly, firstDay), offset))
  }

  lemma {:induction false} DistinctAt(table: seq<Reading>, i: nat, j: nat)
    requires Distinct(table) && i < j < |table|
    ensures !Same(table[i], table[j])
  {
    if i == 0 {
      if Same(table[0], table[j]) { HasAt(table[1..], j - 1, table[0]); }
    } else {
      DistinctAt(table[1..], i - 1, j - 1);
    }
  }

  lemma {:induction false} HasAt(table: seq<Reading>, i: nat, r: Reading)
    requires i < |table| && Same(r, table[i])
    ensures Has(table, r)
  {
    if i > 0 { HasAt(table[1..], i - 1, r); }
  }

  lemma FreshOneEach(rs: seq<Reading>, bound: int)
    ensures OneEach(FreshRows(Capped(Grouped(rs), bound)))
  {
    hide Grouped, Cap;
    var groups := Grouped(rs);
    GroupedDistinct(rs);
    forall i, j | 0 <= i < j < |groups| ensures !Same(groups[i], groups[j]) {
      DistinctAt(groups, i, j);
    }
  }

  // What the queries find in the source tables at one clock: the raw physical rows of the
  // hours, and the rows of the other compacting queries.
  datatype Sources = Sources(
    edgePhysical: seq<Fresh>, edgeGuests: seq<Fresh>, raws: seq<Raw>, hourGuests: seq<Fresh>,
    dayGuests: seq<Fresh>, firstDay: int, offset: int)

  predicate Compact(src: Sources) {
    OneEach(src.edgePhysical) && OneEach(src.edgeGuests) && OneEach(src.hourGuests) && OneEach(src.dayGuests)
  }

  datatype Rollups = Rollups(edge: seq<Row>, hourly: seq<Row>, daily: seq<Row>)

  function Backfilled(t: Rollups, src: Sources): Rollups {
    var hourly := Rebuilt(t.hourly, HourlyPhysical(src.raws, src.offset), src.hourGuests);
    Rollups(
      Rebuilt(t.edge, src.edgePhysical, src.edgeGuests),
      hourly,
      Rebuilt(t.daily, DailyPhysical(hourly, src.firstDay, src.offset), src.dayGuests))
  }

  // At one clock and with the same sources a second rebuild changes nothing.
  lemma BackfillTwice(t: Rollups, src: Sources)
    requires Compact(src)
    ensures Backfilled(Backfilled(t, src), src) == Backfilled(t, src)
  {
    hide Rebuilt, OneEach, Hours, Days;
    var hours := Readings(PerBucket(src.raws, src.offset));
    var hourly := Rebuilt(t.hourly, HourlyPhysical(src.raws, src.offset), src.hourGuests);
    var days := HourReadings(hourly, src.firstDay);
    QueriesOneEach(hours, days, src.offset);
    RebuiltTwice(t.edge, src.edgePhysical, src.edgeGuests);
    RebuiltTwice(t.hourly, HourlyPhysical(src.raws, src.offset), src.hourGuests);
    RebuiltTwice(t.daily, DailyPhysical(hourly, src.firstDay, src.offset), src.dayGuests);
  }

  lemma QueriesOneEach(hours: seq<Reading>, days: seq<Reading>, offset: int)
    ensures OneEach(FreshRows(Hours(hours))) && OneEach(FreshRows(Days(days, offset)))
  {
    hide OneEach, Capped, Grouped, AtDays;
    FreshOneEach(hours, HOUR);
    FreshOneEach(AtDays(days, offset), DAY);
  }

  // One row of a query: the row of its key is updated, or a new one is inserted.
  method WriteRow(table: seq<Row>, part: Part, x: Fresh) returns (t: seq<Row>)
    ensures t == Upsert(table, part, x)
  {
    hide Updated;
    var k := 0;
    assert table[0..] == table;
    while k < |table| && !Keyed(table[k], x)
      invariant 0 <= k <= |table|
      invariant Upsert(table, part, x) == table[..k] + Upsert(table[k..], part, x)
    {
      assert table[k..][1..] == table[k + 1..];
      var rest := Upsert(table[k + 1..], part, x);
      assert table[..k] + ([table[k]] + rest) == table[..k + 1] + rest;
      k := k + 1;
    }
    if k < |table| {
      assert table[k..][1..] == table[k + 1..];
      t := table[..k] + ([Updated(table[k], part, x)] + table[k + 1..]);
    } else {
      assert table[k..] == [] && table[..k] == table;
      t := table + [Updated(Row(x.start, x.node, NO_COLUMNS, NO_COLUMNS, x.lastPush), part, x)];
    }
  }

  // All rows of a query.
  method WriteRows(table: seq<Row>, part: Part, xs: seq<Fresh>) returns (t: seq<Row>)
    ensures t == UpsertAll(table, part, xs)
  {
    hide Upsert;
    t := table;
    assert xs[0..] == xs;
    for i := 0 to |xs|
      invariant UpsertAll(t, part, xs[i..]) == UpsertAll(table, part, xs)
    {
      assert xs[i..][1..] == xs[i + 1..];
      t := WriteRow(t, part, xs[i]);
    }
    assert xs[|xs|..] == [];
  }

  class Store {
    var edge: seq<Row>
    var hourly: seq<Row>
    var daily: seq<Row>

    ghost function Tables(): Rollups
      reads this
    {
      Rollups(edge, hourly, daily)
    }

    // The six upserts, in their order.
    method Backfill(src: Sources)
      modifies this
      ensures Tables() == Backfilled(old(Tables()), src)
    {
      edge := WriteRows(edge, Physical, src.edgePhysical);
      edge := WriteRows(edge, Guests, src.edgeGuests);
      hourly := WriteRows(hourly, Physical, HourlyPhysical(src.raws, src.offset));
      hourly := WriteRows(hourly, Guests, src.hourGuests);
      daily := WriteRows(daily, Physical, DailyPhysical(hourly, src.firstDay, src.offset));
      daily := WriteRows(daily, Guests, src.dayGuests);
    }
  }

  // A rebuild touches no row outside its queries and no column of the other half.
  lemma {:induction false} UpsertAllLeaves(table: seq<Row>, part: Part, xs: seq<Fresh>, i: nat)
    requires i < |table|
    ensures i < |UpsertAll(table, part, xs)|
    ensures var now := UpsertAll(table, part, xs)[i];
            && now.start == table[i].start && now.node == table[i].node && now.lastPush >= table[i].lastPush
            && (part == Physical ==> now.guests == table[i].guests)
            && (part == Guests ==> now.physical == table[i].physical)
            && ((forall x <- xs :: !Keyed(table[i], x)) ==> now == table[i])
    decreases |xs|
  {
    if xs != [] {
      UpsertLeaves(table, part, xs[0], i);
      UpsertAllLeaves(Upsert(table, part, xs[0]), part, xs[1..], i);
    }
  }

  lemma {:induction false} UpsertLeaves(table: seq<Row>, part: Part, x: Fresh, i: nat)
    requires i < |table|
    ensures i < |Upsert(table, part, x)|
    ensures var now := Upsert(table, part, x)[i];
            now == table[i] || (Keyed(table[i], x) && now == Updated(table[i], part, x))
  {
    if !Keyed(table[0], x) && i > 0 { UpsertLeaves(table[1..], part, x, i - 1); }
  }
}
