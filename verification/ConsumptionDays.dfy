/** What a rebuild writes into the daily rollup: the daily query reads the hourly table after
    both its halves have been rebuilt, stored rows and all.
  */
module ConsumptionDays {
  import opened Options
  import opened ConsumptionRollup

  // A local day of a node, among the hours since the first day of the rebuild.
  datatype Day = Day(node: string, day: int, offset: int, firstDay: int)

  predicate In(start: int, node: string, q: Day) {
    start >= q.firstDay && node == q.node && Start(start, q.offset, DAY) == q.day
  }

  function PlusColumns(a: Columns, b: Columns): Columns {
    Columns(a.publicRx + b.publicRx, a.publicTx + b.publicTx, a.privateRx + b.privateRx, a.privateTx + b.privateTx,
            a.coverage + b.coverage, a.samples + b.samples, a.vms + b.vms)
  }

  function Latest(a: Option<int>, b: Option<int>): Option<int> {
    if a.None? then b else if b.None? then a else Some(Later(a.value, b.value))
  }

  lemma ColumnLaws(a: Columns, b: Columns, c: Columns)
    ensures PlusColumns(PlusColumns(a, b), c) == PlusColumns(a, PlusColumns(b, c))
    ensures PlusColumns(a, b) == PlusColumns(b, a)
    ensures PlusColumns(a, NO_COLUMNS) == a && PlusColumns(NO_COLUMNS, a) == a
  {
  }

  lemma LatestLaws(a: Option<int>, b: Option<int>, c: Option<int>)
    ensures Latest(Latest(a, b), c) == Latest(a, Latest(b, c)) && Latest(a, b) == Latest(b, a)
    ensures Latest(a, None) == a && Latest(None, a) == a
  {
  }

  // What an hour adds to a day.
  function ColumnsIn(start: int, node: string, c: Columns, q: Day): Columns {
    if In(start, node, q) then c else NO_COLUMNS
  }

  function PushIn(start: int, node: string, push: int, q: Day): Option<int> {
    if In(start, node, q) then Some(push) else None
  }

  // The physical halves of the rows of a day, added up.
  function Physicals(table: seq<Row>, q: Day): Columns {
    if table == [] then NO_COLUMNS
    else PlusColumns(ColumnsIn(table[0].start, table[0].node, table[0].physical, q), Physicals(table[1..], q))
  }

  // Their latest push, if there is a row at all.
  function Pushes(table: seq<Row>, q: Day): Option<int> {
    if table == [] then None
    else Latest(PushIn(table[0].start, table[0].node, table[0].lastPush, q), Pushes(table[1..], q))
  }

  // The same for the rows of a query.
  function FreshColumns(xs: seq<Fresh>, q: Day): Columns {
    if xs == [] then NO_COLUMNS
    else PlusColumns(ColumnsIn(xs[0].start, xs[0].node, xs[0].columns, q), FreshColumns(xs[1..], q))
  }

  function FreshPushes(xs: seq<Fresh>, q: Day): Option<int> {
    if xs == [] then None
    else Latest(PushIn(xs[0].start, xs[0].node, xs[0].lastPush, q), FreshPushes(xs[1..], q))
  }

  function MovedOf(c: Columns, push: int): Moved {
    Moved(c.publicRx, c.publicTx, c.privateRx, c.privateTx, c.coverage, c.samples, push)
  }

  function MovedIf(c: Columns, push: Option<int>): Option<Moved> {
    match push
    case None => None
    case Some(p) => Some(MovedOf(c, p))
  }

  // ---------------------------------------------------------------- the hourly table as the daily query reads it

  lemma MovedAdds(a: Columns, p: Option<int>, b: Columns, r: Option<int>)
    requires (p.None? ==> a == NO_COLUMNS) && (r.None? ==> b == NO_COLUMNS)
    ensures Add(MovedIf(a, p), MovedIf(b, r)) == MovedIf(PlusColumns(a, b), Latest(p, r))
    ensures Latest(p, r).None? ==> PlusColumns(a, b) == NO_COLUMNS
  {
  }

  lemma ShareOf(start: int, node: string, c: Columns, push: int, q: Day)
    requires start >= q.firstDay
    ensures Share(Reading(start, node, MovedOf(c, push)), q.node, q.day, q.offset)
         == MovedIf(ColumnsIn(start, node, c, q), PushIn(start, node, push, q))
    ensures PushIn(start, node, push, q).None? ==> ColumnsIn(start, node, c, q) == NO_COLUMNS
  {
    hide Start;
  }

  lemma {:induction false} TotalOfRows(table: seq<Row>, q: Day)
    ensures DayTotal(HourReadings(table, q.firstDay), q.node, q.day, q.offset)
         == MovedIf(Physicals(table, q), Pushes(table, q))
    ensures Pushes(table, q).None? ==> Physicals(table, q) == NO_COLUMNS
  {
    hide Start, Share, Add, MovedIf, PlusColumns, Latest, ColumnsIn, PushIn;
    if table == [] {
      NothingTotal();
    } else {
      var row, rest := table[0], HourReadings(table[1..], q.firstDay);
      var own, push := ColumnsIn(row.start, row.node, row.physical, q), PushIn(row.start, row.node, row.lastPush, q);
      TotalOfRows(table[1..], q);
      if row.start >= q.firstDay {
        assert HourReadings(table, q.firstDay)[1..] == rest;
        ShareOf(row.start, row.node, row.physical, row.lastPush, q);
        MovedAdds(own, push, Physicals(table[1..], q), Pushes(table[1..], q));
      } else {
        assert HourReadings(table, q.firstDay) == rest;
        TooEarly(row.start, row.node, row.physical, row.lastPush, q);
        ColumnLaws(Physicals(table[1..], q), NO_COLUMNS, NO_COLUMNS);
        LatestLaws(Pushes(table[1..], q), None, None);
      }
    }
  }

  lemma NothingTotal()
    ensures MovedIf(NO_COLUMNS, None) == None
  {
  }

  lemma TooEarly(start: int, node: string, c: Columns, push: int, q: Day)
    requires start < q.firstDay
    ensures ColumnsIn(start, node, c, q) == NO_COLUMNS && PushIn(start, node, push, q) == None
  {
  }

  // Hours that are all recent enough, before they are written.
  lemma {:induction false} TotalOfFresh(rs: seq<Reading>, q: Day)
    requires forall r <- rs :: r.start >= q.firstDay
    ensures DayTotal(rs, q.node, q.day, q.offset)
         == MovedIf(FreshColumns(FreshRows(rs), q), FreshPushes(FreshRows(rs), q))
    ensures FreshPushes(FreshRows(rs), q).None? ==> FreshColumns(FreshRows(rs), q) == NO_COLUMNS
  {
    hide Start, Share, Add, MovedIf, PlusColumns, Latest, ColumnsIn, PushIn;
    if rs == [] {
      NothingTotal();
    } else {
      assert rs[0] in rs && forall r <- rs[1..] :: r in rs;
      var x, xs := FreshRow(rs[0]), FreshRows(rs[1..]);
      assert FreshRows(rs)[0] == x && FreshRows(rs)[1..] == xs;
      TotalOfFresh(rs[1..], q);
      assert rs[0] == Reading(x.start, x.node, MovedOf(x.columns, x.lastPush));
      ShareOf(x.start, x.node, x.columns, x.lastPush, q);
      MovedAdds(ColumnsIn(x.start, x.node, x.columns, q), PushIn(x.start, x.node, x.lastPush, q),
                FreshColumns(xs, q), FreshPushes(xs, q));
    }
  }

  // ---------------------------------------------------------------- what the upserts do to a day

  predicate HasKey(table: seq<Row>, start: int, node: string) {
    table != [] && ((table[0].start == start && table[0].node == node) || HasKey(table[1..], start, node))
  }

  // The primary key.
  predicate RowsOnce(table: seq<Row>) {
    table != [] ==> !HasKey(table[1..], table[0].start, table[0].node) && RowsOnce(table[1..])
  }

  lemma {:induction false} UpsertOnce(table: seq<Row>, part: Part, x: Fresh, start: int, node: string)
    ensures HasKey(Upsert(table, part, x), start, node)
       <==> HasKey(table, start, node) || (x.start == start && x.node == node)
    ensures RowsOnce(table) ==> RowsOnce(Upsert(table, part, x))
  {
    if table != [] {
      var tail := table[1..];
      if Keyed(table[0], x) {
        assert Upsert(table, part, x)[1..] == tail;
      } else {
        UpsertOnce(tail, part, x, start, node);
        UpsertOnce(tail, part, x, table[0].start, table[0].node);
        assert Upsert(table, part, x)[1..] == Upsert(tail, part, x);
      }
    }
  }

  lemma {:induction false} UpsertPushes(table: seq<Row>, part: Part, x: Fresh, q: Day)
    ensures Pushes(Upsert(table, part, x), q)
         == Latest(Pushes(table, q), PushIn(x.start, x.node, x.lastPush, q))
  {
    hide Start;
    if table != [] {
      var tail := table[1..];
      if Keyed(table[0], x) {
        assert Upsert(table, part, x)[1..] == tail;
      } else {
        UpsertPushes(tail, part, x, q);
        assert Upsert(table, part, x)[1..] == Upsert(tail, part, x);
      }
    }
  }

  lemma {:induction false} UpsertAllPushes(table: seq<Row>, part: Part, xs: seq<Fresh>, q: Day)
    ensures Pushes(UpsertAll(table, part, xs), q) == Latest(Pushes(table, q), FreshPushes(xs, q))
    decreases |xs|
  {
    hide PushIn, Latest, Upsert;
    LatestLaws(Pushes(table, q), None, None);
    if xs != [] {
      var own := PushIn(xs[0].start, xs[0].node, xs[0].lastPush, q);
      UpsertPushes(table, part, xs[0], q);
      UpsertAllPushes(Upsert(table, part, xs[0]), part, xs[1..], q);
      LatestLaws(Pushes(table, q), own, FreshPushes(xs[1..], q));
    }
  }

  // The guest half leaves the physical half alone.
  lemma {:induction false} GuestsLeave(table: seq<Row>, x: Fresh, q: Day)
    ensures Physicals(Upsert(table, Guests, x), q) == Physicals(table, q)
  {
    hide ColumnsIn, PlusColumns;
    if table == [] {
      var row := Updated(Row(x.start, x.node, NO_COLUMNS, NO_COLUMNS, x.lastPush), Guests, x);
      assert [row][1..] == [];
      NothingIn(x.start, x.node, q);
    } else {
      var tail := table[1..];
      if Keyed(table[0], x) {
        assert Upsert(table, Guests, x)[1..] == tail;
      } else {
        GuestsLeave(tail, x, q);
        assert Upsert(table, Guests, x)[1..] == Upsert(tail, Guests, x);
      }
    }
  }

  lemma NothingIn(start: int, node: string, q: Day)
    ensures PlusColumns(ColumnsIn(start, node, NO_COLUMNS, q), NO_COLUMNS) == NO_COLUMNS
  {
  }

  lemma {:induction false} AllGuestsLeave(table: seq<Row>, xs: seq<Fresh>, q: Day)
    ensures Physicals(UpsertAll(table, Guests, xs), q) == Physicals(table, q)
    decreases |xs|
  {
    hide ColumnsIn, PlusColumns, Upsert;
    if xs != [] {
      GuestsLeave(table, xs[0], q);
      AllGuestsLeave(Upsert(table, Guests, xs[0]), xs[1..], q);
    }
  }

  predicate Names(xs: seq<Fresh>, row: Row) {
    exists x <- xs :: Keyed(row, x)
  }

  // The stored rows that a query has no row for.
  function Kept(table: seq<Row>, xs: seq<Fresh>): seq<Row> {
    if table == [] then []
    else (if Names(xs, table[0]) then [] else [table[0]]) + Kept(table[1..], xs)
  }

  lemma NamesCons(x: Fresh, rest: seq<Fresh>, row: Row)
    ensures Names([x] + rest, row) <==> Keyed(row, x) || Names(rest, row)
  {
    hide Keyed;
    assert ([x] + rest)[0] == x;
    if Names(rest, row) {
      var y :| y in rest && Keyed(row, y);
      assert y in [x] + rest;
    }
  }

  lemma {:induction false} KeptWithout(table: seq<Row>, x: Fresh, rest: seq<Fresh>)
    requires !HasKey(table, x.start, x.node)
    ensures Kept(table, [x] + rest) == Kept(table, rest)
  {
    hide Names;
    if table != [] {
      NamesCons(x, rest, table[0]);
      KeptWithout(table[1..], x, rest);
    }
  }

  // A physical row takes the place of the stored one.
  lemma {:induction false} UpsertPhysical(table: seq<Row>, x: Fresh, rest: seq<Fresh>, q: Day)
    requires RowsOnce(table) && forall y <- rest :: y.start != x.start || y.node != x.node
    ensures Physicals(Kept(Upsert(table, Physical, x), rest), q)
         == PlusColumns(Physicals(Kept(table, [x] + rest), q),
                        ColumnsIn(x.start, x.node, x.columns, q))
  {
    hide ColumnsIn, PlusColumns, Names;
    var own := ColumnsIn(x.start, x.node, x.columns, q);
    ColumnLaws(own, NO_COLUMNS, NO_COLUMNS);
    if table == [] {
      var row := Updated(Row(x.start, x.node, NO_COLUMNS, NO_COLUMNS, x.lastPush), Physical, x);
      NotNamed(x, rest, row);
      assert Upsert(table, Physical, x) == [row] && [row][1..] == [];
      assert Kept([row], rest) == [row];
    } else {
      var tail, up := table[1..], Upsert(table, Physical, x);
      NamesCons(x, rest, table[0]);
      if Keyed(table[0], x) {
        assert up[1..] == tail;
        NotNamed(x, rest, up[0]);
        KeptWithout(tail, x, rest);
        assert Kept(up, rest) == [up[0]] + Kept(tail, rest);
        assert Kept(up, rest)[1..] == Kept(tail, rest);
        assert Kept(table, [x] + rest) == Kept(tail, [x] + rest);
        ColumnLaws(own, Physicals(Kept(tail, rest), q), NO_COLUMNS);
      } else {
        assert up[0] == table[0] && up[1..] == Upsert(tail, Physical, x);
        UpsertPhysical(tail, x, rest, q);
        KeptHead(table, [x] + rest, q);
        KeptHead(up, rest, q);
        ColumnLaws(HeadShare(table, [x] + rest, q), Physicals(Kept(tail, [x] + rest), q), own);
      }
    }
  }

  lemma NotNamed(x: Fresh, rest: seq<Fresh>, row: Row)
    requires Keyed(row, x) && forall y <- rest :: y.start != x.start || y.node != x.node
    ensures !Names(rest, row)
  {
  }

  function HeadShare(table: seq<Row>, xs: seq<Fresh>, q: Day): Columns
    requires table != []
  {
    if Names(xs, table[0]) then NO_COLUMNS else ColumnsIn(table[0].start, table[0].node, table[0].physical, q)
  }

  lemma KeptHead(table: seq<Row>, xs: seq<Fresh>, q: Day)
    requires table != []
    ensures Physicals(Kept(table, xs), q) == PlusColumns(HeadShare(table, xs, q), Physicals(Kept(table[1..], xs), q))
  {
    hide ColumnsIn, PlusColumns, Names;
    ColumnLaws(Physicals(Kept(table[1..], xs), q), NO_COLUMNS, NO_COLUMNS);
    if !Names(xs, table[0]) {
      assert Kept(table, xs)[1..] == Kept(table[1..], xs);
    } else {
      assert Kept(table, xs) == Kept(table[1..], xs);
    }
  }

  lemma RestOneEach(xs: seq<Fresh>)
    requires OneEach(xs) && xs != []
    ensures OneEach(xs[1..]) && forall y <- xs[1..] :: y.start != xs[0].start || y.node != xs[0].node
  {
    var rest := xs[1..];
    forall i, j | 0 <= i < j < |rest| ensures rest[i].start != rest[j].start || rest[i].node != rest[j].node {
      assert rest[i] == xs[i + 1] && rest[j] == xs[j + 1];
    }
    forall y | y in rest ensures y.start != xs[0].start || y.node != xs[0].node {
      var k :| 0 <= k < |rest| && rest[k] == y;
      assert xs[k + 1] == y;
    }
  }

  lemma {:induction false} KeptAll(table: seq<Row>)
    ensures Kept(table, []) == table
  {
    if table != [] { KeptAll(table[1..]); }
  }

  // The physical half of a day after its upserts: the rows written, and the stored rows of
  // the hours that none was written for.
  lemma {:induction false} UpsertAllPhysical(table: seq<Row>, xs: seq<Fresh>, q: Day)
    requires RowsOnce(table) && OneEach(xs)
    ensures Physicals(UpsertAll(table, Physical, xs), q)
         == PlusColumns(Physicals(Kept(table, xs), q), FreshColumns(xs, q))
    decreases |xs|
  {
    hide ColumnsIn, OneEach, Upsert, RowsOnce, PlusColumns, Kept;
    if xs == [] {
      KeptAll(table);
      ColumnLaws(Physicals(table, q), NO_COLUMNS, NO_COLUMNS);
    } else {
      var x, rest := xs[0], xs[1..];
      var own := ColumnsIn(x.start, x.node, x.columns, q);
      assert xs == [x] + rest;
      RestOneEach(xs);
      UpsertOnce(table, Physical, x, 0, "");
      UpsertAllPhysical(Upsert(table, Physical, x), rest, q);
      UpsertPhysical(table, x, rest, q);
      ColumnLaws(Physicals(Kept(table, xs), q), own, FreshColumns(rest, q));
    }
  }

  // ---------------------------------------------------------------- the daily query

  // The columns and the latest push of a day's hours after both halves are rebuilt: raw hours,
  // and stored hours without raw rows; raw, guest and stored rows.
  function HourColumns(t: Rollups, src: Sources, q: Day): Columns {
    var hours := HourlyPhysical(src.raws, src.offset);
    PlusColumns(Physicals(Kept(t.hourly, hours), q), FreshColumns(hours, q))
  }

  function HourPushes(t: Rollups, src: Sources, q: Day): Option<int> {
    Latest(Latest(Pushes(t.hourly, q), FreshPushes(HourlyPhysical(src.raws, src.offset), q)),
           FreshPushes(src.hourGuests, q))
  }

  function QueryOf(src: Sources, node: string, day: int): Day {
    Day(node, day, src.offset, src.firstDay)
  }

  // What the daily query finds.
  function DayFound(t: Rollups, src: Sources, node: string, day: int): Option<Moved> {
    Found(Days(HourReadings(Backfilled(t, src).hourly, src.firstDay), src.offset), node, day)
  }

  lemma DailyQuery(t: Rollups, src: Sources, node: string, day: int)
    requires RowsOnce(t.hourly)
    ensures var q := QueryOf(src, node, day);
            DayFound(t, src, node, day) ==
            match MovedIf(HourColumns(t, src, q), HourPushes(t, src, q))
            case None => None
            case Some(m) => Some(Cap(m, DAY))
  {
    hide Start, Grouped, AtDays, Found, DayTotal, Capped, PlusColumns, Latest, HourlyPhysical, RowsOnce, OneEach;
    var q, hours := QueryOf(src, node, day), HourlyPhysical(src.raws, src.offset);
    var half := UpsertAll(t.hourly, Physical, hours);
    var hourly := UpsertAll(half, Guests, src.hourGuests);
    HoursOnce(src);
    UpsertAllPhysical(t.hourly, hours, q);
    AllGuestsLeave(half, src.hourGuests, q);
    UpsertAllPushes(t.hourly, Physical, hours, q);
    UpsertAllPushes(half, Guests, src.hourGuests, q);
    TotalOfRows(hourly, q);
    DayGroup(HourReadings(hourly, src.firstDay), node, day, src.offset);
    FoundCapped(Grouped(AtDays(HourReadings(hourly, src.firstDay), src.offset)), DAY, node, day);
  }

  lemma HoursOnce(src: Sources)
    ensures OneEach(HourlyPhysical(src.raws, src.offset))
  {
    hide OneEach, Hours, Days;
    QueriesOneEach(Readings(PerBucket(src.raws, src.offset)), [], src.offset);
  }

  // ---------------------------------------------------------------- the daily row

  function RowAt(table: seq<Row>, start: int, node: string): Option<Row> {
    if table == [] then None
    else if table[0].start == start && table[0].node == node then Some(table[0])
    else RowAt(table[1..], start, node)
  }

  function FreshAt(xs: seq<Fresh>, start: int, node: string): Option<Fresh> {
    if xs == [] then None
    else if xs[0].start == start && xs[0].node == node then Some(xs[0])
    else FreshAt(xs[1..], start, node)
  }

  // A row after a query has written its row of that key, if it has one.
  function Rewritten(row: Option<Row>, part: Part, x: Option<Fresh>): Option<Row> {
    match x
    case None => row
    case Some(y) =>
      Some(Updated(if row.Some? then row.value else Row(y.start, y.node, NO_COLUMNS, NO_COLUMNS, y.lastPush), part, y))
  }

  lemma {:induction false} UpsertAt(table: seq<Row>, part: Part, x: Fresh, start: int, node: string)
    ensures RowAt(Upsert(table, part, x), start, node)
         == Rewritten(RowAt(table, start, node), part, if x.start == start && x.node == node then Some(x) else None)
  {
    if table != [] {
      var tail := table[1..];
      if Keyed(table[0], x) {
        assert Upsert(table, part, x)[1..] == tail;
      } else {
        UpsertAt(tail, part, x, start, node);
        assert Upsert(table, part, x)[1..] == Upsert(tail, part, x);
      }
    }
  }

  lemma {:induction false} FreshNowhere(xs: seq<Fresh>, start: int, node: string)
    requires forall y <- xs :: y.start != start || y.node != node
    ensures FreshAt(xs, start, node) == None
  {
    if xs != [] {
      assert xs[0] in xs;
      FreshNowhere(xs[1..], start, node);
    }
  }

  lemma {:induction false} UpsertAllAt(table: seq<Row>, part: Part, xs: seq<Fresh>, start: int, node: string)
    requires OneEach(xs)
    ensures RowAt(UpsertAll(table, part, xs), start, node)
         == Rewritten(RowAt(table, start, node), part, FreshAt(xs, start, node))
    decreases |xs|
  {
    hide OneEach, Updated, Upsert;
    if xs != [] {
      RestOneEach(xs);
      UpsertAt(table, part, xs[0], start, node);
      UpsertAllAt(Upsert(table, part, xs[0]), part, xs[1..], start, node);
      if xs[0].start == start && xs[0].node == node { FreshNowhere(xs[1..], start, node); }
    }
  }

  lemma {:induction false} FreshOfFound(rs: seq<Reading>, start: int, node: string)
    ensures FreshAt(FreshRows(rs), start, node)
         == match Found(rs, node, start) case None => None case Some(m) => Some(FreshRow(Reading(start, node, m)))
  {
    if rs != [] {
      assert FreshRows(rs)[1..] == FreshRows(rs[1..]);
      FreshOfFound(rs[1..], start, node);
    }
  }

  lemma {:induction false} PushesExist(table: seq<Row>, q: Day)
    ensures Pushes(table, q).Some? <==> exists row <- table :: In(row.start, row.node, q)
  {
    hide In;
    if table != [] {
      PushesExist(table[1..], q);
      assert table == [table[0]] + table[1..];
    }
  }

  lemma PushesRebuilt(t: Rollups, src: Sources, q: Day)
    ensures Pushes(Backfilled(t, src).hourly, q) == HourPushes(t, src, q)
  {
    hide Latest, PushIn, HourlyPhysical;
    var hours := HourlyPhysical(src.raws, src.offset);
    UpsertAllPushes(t.hourly, Physical, hours, q);
    UpsertAllPushes(UpsertAll(t.hourly, Physical, hours), Guests, src.hourGuests, q);
  }

  // The physical half of a daily row after a rebuild.
  function DailyColumns(t: Rollups, src: Sources, q: Day, push: int): Columns {
    FreshRow(Reading(q.day, q.node, Cap(MovedOf(HourColumns(t, src, q), push), DAY))).columns
  }

  function PushOf(row: Option<Row>): Option<int> {
    if row.Some? then Some(row.value.lastPush) else None
  }

  function FreshPushOf(x: Option<Fresh>): Option<int> {
    if x.Some? then Some(x.value.lastPush) else None
  }

  // A rebuild writes the physical half of a daily row exactly when the rebuilt hourly table has
  // a row of that day: with the traffic of the raw hours and of the stored hours without raw
  // rows.  The row's push is the latest of the hours, of the day's guests and of the stored day.
  lemma DailyRow(t: Rollups, src: Sources, node: string, day: int)
    requires RowsOnce(t.hourly) && OneEach(src.dayGuests)
    ensures var q := QueryOf(src, node, day);
            var push := HourPushes(t, src, q);
            var row, stored, guests :=
              RowAt(Backfilled(t, src).daily, day, node), RowAt(t.daily, day, node), FreshAt(src.dayGuests, day, node);
            && (push.Some? <==> exists hour <- Backfilled(t, src).hourly :: In(hour.start, hour.node, q))
            && (push.Some? ==> row.Some? && row.value.physical == DailyColumns(t, src, q, push.value))
            && (push.None? ==>
                  && (row.Some? <==> stored.Some? || guests.Some?)
                  && (row.Some? ==> row.value.physical == if stored.Some? then stored.value.physical else NO_COLUMNS))
            && PushOf(row) == Latest(Latest(PushOf(stored), push), FreshPushOf(guests))
  {
    hide Start, Days, Found, HourReadings, OneEach, HourlyPhysical, HourColumns, HourPushes, RowsOnce, Rebuilt, In;
    var q := QueryOf(src, node, day);
    var hourly := Rebuilt(t.hourly, HourlyPhysical(src.raws, src.offset), src.hourGuests);
    PushesRebuilt(t, src, q);
    PushesExist(hourly, q);
    var days := DailyPhysical(hourly, src.firstDay, src.offset);
    DailyQuery(t, src, node, day);
    QueriesOneEach([], HourReadings(hourly, src.firstDay), src.offset);
    FreshOfFound(Days(HourReadings(hourly, src.firstDay), src.offset), day, node);
    RebuiltAt(t.daily, days, src.dayGuests, day, node);
  }

  lemma RebuiltAt(table: seq<Row>, physical: seq<Fresh>, guests: seq<Fresh>, start: int, node: string)
    requires OneEach(physical) && OneEach(guests)
    ensures RowAt(Rebuilt(table, physical, guests), start, node)
         == Rewritten(Rewritten(RowAt(table, start, node), Physical, FreshAt(physical, start, node)),
                      Guests, FreshAt(guests, start, node))
  {
    hide OneEach, Updated;
    UpsertAllAt(table, Physical, physical, start, node);
    UpsertAllAt(UpsertAll(table, Physical, physical), Guests, guests, start, node);
  }

  // ---------------------------------------------------------------- the raw day

  predicate AllSince(rs: seq<Reading>, first: int) {
    forall r <- rs :: r.start >= first
  }

  lemma {:induction false} AddToSince(table: seq<Reading>, r: Reading, first: int)
    requires AllSince(table, first) && r.start >= first
    ensures AllSince(AddTo(table, r), first)
  {
    hide Plus;
    if table != [] {
      assert table[0] in table && forall x <- table[1..] :: x in table;
      AddToSince(table[1..], r, first);
    }
  }

  lemma {:induction false} GroupedSince(rs: seq<Reading>, first: int)
    requires AllSince(rs, first)
    ensures AllSince(Grouped(rs), first)
  {
    if rs != [] {
      assert rs[|rs| - 1] in rs && forall x <- rs[..|rs| - 1] :: x in rs;
      GroupedSince(rs[..|rs| - 1], first);
      AddToSince(Grouped(rs[..|rs| - 1]), rs[|rs| - 1], first);
    }
  }

  lemma {:induction false} AddSlotSince(slots: seq<Slot>, x: Slot, first: int)
    requires AllSince(Readings(slots), first) && x.reading.start >= first
    ensures AllSince(Readings(AddSlot(slots, x)), first)
  {
    hide Within;
    if slots != [] {
      assert Readings(slots)[0] == slots[0].reading && Readings(slots)[0] in Readings(slots);
      assert Readings(slots)[1..] == Readings(slots[1..]);
      assert forall r <- Readings(slots)[1..] :: r in Readings(slots);
      AddSlotSince(slots[1..], x, first);
      var up := AddSlot(slots, x);
      assert Readings(up) == [up[0].reading] + Readings(up[1..]);
      assert slots[0].bucket == x.bucket && Same(slots[0].reading, x.reading) ==> up[1..] == slots[1..];
      assert !(slots[0].bucket == x.bucket && Same(slots[0].reading, x.reading)) ==> up[1..] == AddSlot(slots[1..], x);
    } else {
      assert Readings([x]) == [x.reading];
    }
  }

  // Every raw row's hour is one of the hours since the first day.
  predicate RecentRaws(src: Sources) {
    forall raw <- src.raws :: Start(raw.time, src.offset, HOUR) >= src.firstDay
  }

  // As the program picks its bounds, that is so.
  lemma RecentByClock(time: int, cutoff: int, offset: int)
    requires time >= cutoff && cutoff + offset >= 0
    ensures Start(time, offset, HOUR) >= LocalDayStart(cutoff, offset)
  {
    var x, y := time + offset, cutoff + offset;
    Steps(x, y);
  }

  lemma Steps(x: int, y: int)
    requires x >= y >= 0
    ensures x / HOUR * HOUR >= y / DAY * DAY
  {
    DayOfHourNonNegative(x);
    var h := x / HOUR * HOUR;
    assert h / DAY * DAY <= h;
    assert x / DAY >= y / DAY;
  }

  lemma {:induction false} BucketsSince(raws: seq<Raw>, offset: int, first: int)
    requires forall raw <- raws :: Start(raw.time, offset, HOUR) >= first
    ensures AllSince(Readings(PerBucket(raws, offset)), first)
  {
    hide Start, AllSince, Readings;
    if raws == [] {
      NoneSince(first);
    } else {
      assert raws[|raws| - 1] in raws && forall raw <- raws[..|raws| - 1] :: raw in raws;
      BucketsSince(raws[..|raws| - 1], offset, first);
      AddSlotSince(PerBucket(raws[..|raws| - 1], offset), SlotOf(raws[|raws| - 1], offset), first);
    }
  }

  lemma NoneSince(first: int)
    ensures AllSince(Readings([]), first)
  {
  }

  lemma HoursSince(src: Sources)
    requires RecentRaws(src)
    ensures AllSince(Hours(Readings(PerBucket(src.raws, src.offset))), src.firstDay)
  {
    hide Grouped, PerBucket, Readings, Start, Cap;
    var slots := Readings(PerBucket(src.raws, src.offset));
    BucketsSince(src.raws, src.offset, src.firstDay);
    GroupedSince(slots, src.firstDay);
    forall r | r in Hours(slots) ensures r.start >= src.firstDay {
      var i :| 0 <= i < |Grouped(slots)| && Hours(slots)[i] == r;
      assert Grouped(slots)[i] in Grouped(slots);
    }
  }

  predicate NoTraffic(c: Columns) {
    c.publicRx == 0 && c.publicTx == 0 && c.privateRx == 0 && c.privateTx == 0
  }

  // Beside the raw hours of the day there is nothing that shows in it: no hour at all if there
  // is no raw one, else no traffic in stored hours without raw rows and no later push in a
  // stored or guest row.
  predicate RawAlone(t: Rollups, src: Sources, q: Day) {
    var hours := HourlyPhysical(src.raws, src.offset);
    var raw, others := FreshPushes(hours, q), Latest(Pushes(t.hourly, q), FreshPushes(src.hourGuests, q));
    if raw.None? then others.None?
    else NoTraffic(Physicals(Kept(t.hourly, hours), q)) && (others.Some? ==> others.value <= raw.value)
  }

  // Exactly then the daily query finds the traffic and the latest push of the raw rows of the
  // day, and nothing where there are none.
  lemma RawDayExactly(t: Rollups, src: Sources, node: string, day: int)
    requires RowsOnce(t.hourly) && RecentRaws(src)
    ensures Flow(DayFound(t, src, node, day)) == Flow(DayTotal(AsReadings(src.raws), node, day, src.offset))
       <==> RawAlone(t, src, QueryOf(src, node, day))
  {
    hide Start, DayTotal, Hours, DayFound, RowsOnce, RecentRaws, Kept, Physicals, Pushes, FreshColumns, FreshPushes;
    var q, hours := QueryOf(src, node, day), Hours(Readings(PerBucket(src.raws, src.offset)));
    var rows := HourlyPhysical(src.raws, src.offset);
    DailyQuery(t, src, node, day);
    HoursSince(src);
    TotalOfFresh(hours, q);
    HoursKeepFlow(src.raws, node, day, src.offset);
    SameFlow(Physicals(Kept(t.hourly, rows), q), FreshColumns(rows, q), Pushes(t.hourly, q), FreshPushes(rows, q),
             FreshPushes(src.hourGuests, q));
  }

  // A guest hour alone makes the query find a day.
  lemma GuestHourMakesDay(t: Rollups, src: Sources, x: Fresh)
    requires RowsOnce(t.hourly) && src.raws == [] && x in src.hourGuests && x.start >= src.firstDay
    ensures var day := Start(x.start, src.offset, DAY);
            DayFound(t, src, x.node, day).Some? && DayTotal(AsReadings(src.raws), x.node, day, src.offset).None?
  {
    hide Start, DayFound, Pushes, HourlyPhysical, RowsOnce;
    var day := Start(x.start, src.offset, DAY);
    DailyQuery(t, src, x.node, day);
    FreshExists(src.hourGuests, x, QueryOf(src, x.node, day));
  }

  lemma {:induction false} FreshExists(xs: seq<Fresh>, x: Fresh, q: Day)
    requires x in xs && In(x.start, x.node, q)
    ensures FreshPushes(xs, q).Some?
  {
    hide In;
    if xs[0] != x { FreshExists(xs[1..], x, q); }
  }

  lemma SameFlow(kept: Columns, raw: Columns, stored: Option<int>, push: Option<int>, guests: Option<int>)
    requires push.None? ==> raw == NO_COLUMNS
    ensures var all := MovedIf(PlusColumns(kept, raw), Latest(Latest(stored, push), guests));
            var capped := match all case None => None case Some(m) => Some(Cap(m, DAY));
            Flow(capped) == Flow(MovedIf(raw, push)) <==>
              (if push.None? then Latest(stored, guests).None?
               else NoTraffic(kept) && (Latest(stored, guests).Some? ==> Latest(stored, guests).value <= push.value))
  {
  }
}
