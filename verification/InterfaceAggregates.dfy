/** One pass over the interfaces of a push: per-VM sums and maxima, and the raw rows. */
module InterfaceAggregates {
  import opened Options

  datatype Role = Public | Private | Other

  datatype Quality = LEGACY | GOOD | DEGRADED | POOR

  function Rank(q: Quality): (r: nat)
  {
    match q
    case LEGACY => 0
    case GOOD => 1
    case DEGRADED => 2
    case POOR => 3
  }

  // One entry of the payload, its texts trimmed and its values read as numbers.
  datatype Source = Source(
    vm: string, bridge: string, iface: string, interval: Option<int>,
    rxDelta: int, txDelta: int, rxPackets: int, txPackets: int,
    rxDrops: int, txDrops: int, rxErrors: int, txErrors: int,
    rxMbpsPeak: real, txMbpsPeak: real, rxPpsPeak: real, txPpsPeak: real,
    totalMbpsPeak: real, totalPpsPeak: real,
    sampleCount: int, sampleExpected: int, maxGap: real, quality: Quality,
    overPps: int, overMbps: int, overRxPps: int, overTxPps: int)

  datatype Peaks = Peaks(rxMbps: real, txMbps: real, rxPps: real, txPps: real, totalMbps: real, totalPps: real)

  datatype Flow = Flow(
    rxBytes: nat, txBytes: nat, rxPackets: nat, txPackets: nat,
    rxMbps: real, txMbps: real, rxPps: real, txPps: real)

  datatype Samples = Samples(
    count: nat, expected: nat, maxGap: real, quality: Quality,
    overPps: nat, overMbps: nat, overRxPps: nat, overTxPps: nat, drops: nat, errors: nat)

  // A raw row; what is kept of it under the VM's interface list is the row itself.
  datatype Row = Row(
    vm: string, bridge: string, iface: string, role: Role, sec: nat,
    flow: Flow, peaks: Peaks, rxDrops: nat, txDrops: nat, rxErrors: nat, txErrors: nat, samples: Samples)

  datatype Totals = Totals(
    ifaces: seq<Row>, pub: Flow, priv: Flow, rxPackets: nat, txPackets: nat, samples: Samples)

  function Max(a: int, b: int): int {
    if a < b then b else a
  }

  function MaxReal(a: real, b: real): real {
    if a < b then b else a
  }

  function NonNegative(x: int): (n: nat)
    ensures n as int == x || (x < 0 && n == 0)
  {
    Max(0, x)
  }

  function OrDash(s: string): string {
    if s == "" then "-" else s
  }

  datatype Settings = Settings(interval: int, publicBridge: string, privateBridge: string)

  function RoleOf(bridge: string, settings: Settings): Role {
    if bridge == settings.publicBridge then Public
    else if bridge == settings.privateBridge then Private
    else Other
  }

  function Seconds(s: Source, settings: Settings): (sec: nat)
    ensures 1 <= sec <= 86400
  {
    var given := if s.interval.Some? then s.interval.value else settings.interval;
    if given < 1 then 1 else if given > 86400 then 86400 else given
  }

  function FlowOf(s: Source, sec: nat): Flow
    requires sec >= 1
  {
    var rxB, txB := NonNegative(s.rxDelta), NonNegative(s.txDelta);
    var rxP, txP := NonNegative(s.rxPackets), NonNegative(s.txPackets);
    Flow(rxB, txB, rxP, txP,
         rxB as real * 8.0 / sec as real / 1000000.0, txB as real * 8.0 / sec as real / 1000000.0,
         rxP as real / sec as real, txP as real / sec as real)
  }

  // A reported total peak of zero counts as none: the sum of the two directions stands in.
  function TotalPeak(average: real, reported: real, directions: real): real {
    MaxReal(average, if MaxReal(0.0, reported) != 0.0 then MaxReal(0.0, reported) else directions)
  }

  function PeaksOf(s: Source, f: Flow): Peaks {
    var rxM, txM := MaxReal(f.rxMbps, MaxReal(0.0, s.rxMbpsPeak)), MaxReal(f.txMbps, MaxReal(0.0, s.txMbpsPeak));
    var rxP, txP := MaxReal(f.rxPps, MaxReal(0.0, s.rxPpsPeak)), MaxReal(f.txPps, MaxReal(0.0, s.txPpsPeak));
    Peaks(rxM, txM, rxP, txP,
          TotalPeak(f.rxMbps + f.txMbps, s.totalMbpsPeak, rxM + txM),
          TotalPeak(f.rxPps + f.txPps, s.totalPpsPeak, rxP + txP))
  }

  function SamplesOf(s: Source): Samples {
    Samples(NonNegative(s.sampleCount), NonNegative(s.sampleExpected), MaxReal(0.0, s.maxGap), s.quality,
            NonNegative(s.overPps), NonNegative(s.overMbps), NonNegative(s.overRxPps), NonNegative(s.overTxPps),
            NonNegative(s.rxDrops) + NonNegative(s.txDrops), NonNegative(s.rxErrors) + NonNegative(s.txErrors))
  }

  // The row an entry gives, if it names a VM.
  function Measured(s: Source, settings: Settings): Option<Row> {
    if s.vm == "" || s.vm == "-" then None
    else
      var sec := Seconds(s, settings);
      var flow := FlowOf(s, sec);
      Some(Row(s.vm, OrDash(s.bridge), OrDash(s.iface), RoleOf(s.bridge, settings), sec, flow, PeaksOf(s, flow),
               NonNegative(s.rxDrops), NonNegative(s.txDrops), NonNegative(s.rxErrors), NonNegative(s.txErrors),
               SamplesOf(s)))
  }

  function Rows(sources: seq<Source>, settings: Settings): seq<Row> {
    if sources == [] then []
    else
      Rows(sources[..|sources| - 1], settings)
      + match Measured(sources[|sources| - 1], settings)
        case None => []
        case Some(row) => [row]
  }

  lemma Rates(n: nat, sec: nat)
    requires sec >= 1
    ensures (n as real * 8.0 / sec as real / 1000000.0) * (sec as real) * 1000000.0 == n as real * 8.0
    ensures (n as real / sec as real) * (sec as real) == n as real
    ensures n as real * 8.0 / sec as real / 1000000.0 >= 0.0 && n as real / sec as real >= 0.0
  {
  }

  lemma FlowRates(s: Source, sec: nat)
    requires sec >= 1
    ensures var f := FlowOf(s, sec);
            && f.rxMbps * (sec as real) * 1000000.0 == f.rxBytes as real * 8.0
            && f.txMbps * (sec as real) * 1000000.0 == f.txBytes as real * 8.0
            && f.rxPps * (sec as real) == f.rxPackets as real && f.txPps * (sec as real) == f.txPackets as real
            && f.rxMbps >= 0.0 && f.txMbps >= 0.0 && f.rxPps >= 0.0 && f.txPps >= 0.0
  {
    Rates(NonNegative(s.rxDelta), sec);
    Rates(NonNegative(s.txDelta), sec);
    Rates(NonNegative(s.rxPackets), sec);
    Rates(NonNegative(s.txPackets), sec);
  }

  // The averages are bytes and packets over the interval, and no peak is below its average.
  lemma PeaksAboveAverages(s: Source, settings: Settings)
    requires Measured(s, settings).Some?
    ensures var r := Measured(s, settings).value;
            && r.flow.rxMbps * (r.sec as real) * 1000000.0 == r.flow.rxBytes as real * 8.0
            && r.flow.txMbps * (r.sec as real) * 1000000.0 == r.flow.txBytes as real * 8.0
            && r.flow.rxPps * (r.sec as real) == r.flow.rxPackets as real
            && r.flow.txPps * (r.sec as real) == r.flow.txPackets as real
            && r.peaks.rxMbps >= r.flow.rxMbps >= 0.0 && r.peaks.txMbps >= r.flow.txMbps >= 0.0
            && r.peaks.rxPps >= r.flow.rxPps >= 0.0 && r.peaks.txPps >= r.flow.txPps >= 0.0
            && r.peaks.totalMbps >= r.flow.rxMbps + r.flow.txMbps
            && r.peaks.totalPps >= r.flow.rxPps + r.flow.txPps
  {
    hide FlowOf;
    FlowRates(s, Seconds(s, settings));
  }

  // ---------------------------------------------------------------- the reference: a merge

  const NO_FLOW := Flow(0, 0, 0, 0, 0.0, 0.0, 0.0, 0.0)
  const NO_SAMPLES := Samples(0, 0, 0.0, LEGACY, 0, 0, 0, 0, 0, 0)
  const NOTHING := Totals([], NO_FLOW, NO_FLOW, 0, 0, NO_SAMPLES)

  function AddFlow(a: Flow, b: Flow): Flow {
    Flow(a.rxBytes + b.rxBytes, a.txBytes + b.txBytes, a.rxPackets + b.rxPackets, a.txPackets + b.txPackets,
         a.rxMbps + b.rxMbps, a.txMbps + b.txMbps, a.rxPps + b.rxPps, a.txPps + b.txPps)
  }

  function Worse(a: Quality, b: Quality): Quality {
    if Rank(b) > Rank(a) then b else a
  }

  function AddSamples(a: Samples, b: Samples): Samples {
    Samples(a.count + b.count, a.expected + b.expected, MaxReal(a.maxGap, b.maxGap), Worse(a.quality, b.quality),
            a.overPps + b.overPps, a.overMbps + b.overMbps,
            Max(a.overRxPps, b.overRxPps), Max(a.overTxPps, b.overTxPps),
            a.drops + b.drops, a.errors + b.errors)
  }

  function Merge(a: Totals, b: Totals): Totals {
    Totals(a.ifaces + b.ifaces, AddFlow(a.pub, b.pub), AddFlow(a.priv, b.priv),
           a.rxPackets + b.rxPackets, a.txPackets + b.txPackets, AddSamples(a.samples, b.samples))
  }

  // What one interface adds to its VM.
  function Single(r: Row): Totals {
    Totals([r], if r.role == Public then r.flow else NO_FLOW, if r.role == Private then r.flow else NO_FLOW,
           r.flow.rxPackets, r.flow.txPackets, r.samples)
  }

  function Total(rows: seq<Row>): Totals {
    if rows == [] then NOTHING else Merge(Total(rows[..|rows| - 1]), Single(rows[|rows| - 1]))
  }

  function Of(rows: seq<Row>, vm: string): seq<Row> {
    if rows == [] then []
    else Of(rows[..|rows| - 1], vm) + if rows[|rows| - 1].vm == vm then [rows[|rows| - 1]] else []
  }

  lemma MergeAssociative(a: Totals, b: Totals, c: Totals)
    ensures Merge(Merge(a, b), c) == Merge(a, Merge(b, c))
  {
  }

  // Rows carry no negative gap.
  predicate Sound(rows: seq<Row>) {
    forall r <- rows :: r.samples.maxGap >= 0.0
  }

  lemma MergeNothing(t: Totals)
    requires t.samples.maxGap >= 0.0
    ensures Merge(t, NOTHING) == t && Merge(NOTHING, t) == t
  {
  }

  lemma {:induction false} TotalSound(rows: seq<Row>)
    requires Sound(rows)
    ensures Total(rows).samples.maxGap >= 0.0
  {
    if rows != [] { TotalSound(rows[..|rows| - 1]); }
  }

  // The totals of a concatenation are the merge of the totals of its parts.
  lemma {:induction false} TotalOfConcatenation(a: seq<Row>, b: seq<Row>)
    requires Sound(a)
    ensures Total(a + b) == Merge(Total(a), Total(b))
  {
    hide Merge, Single;
    if b == [] {
      assert a + b == a;
      TotalSound(a);
      MergeNothing(Total(a));
    } else {
      var init, last := b[..|b| - 1], b[|b| - 1];
      assert (a + b)[..|a + b| - 1] == a + init;
      TotalOfConcatenation(a, init);
      MergeAssociative(Total(a), Total(init), Single(last));
    }
  }

  // Equal but for the order of the interface list.
  predicate SameTotals(a: Totals, b: Totals) {
    && a.(ifaces := []) == b.(ifaces := [])
    && multiset(a.ifaces) == multiset(b.ifaces)
  }

  lemma MergeSame(a: Totals, b: Totals, c: Totals)
    requires SameTotals(a, b)
    ensures SameTotals(Merge(a, c), Merge(b, c))
  {
  }

  lemma MergeSwap(a: Totals, b: Totals, c: Totals)
    ensures SameTotals(Merge(Merge(a, b), c), Merge(Merge(a, c), b))
  {
    assert multiset(a.ifaces + b.ifaces + c.ifaces) == multiset(a.ifaces + c.ifaces + b.ifaces);
  }

  lemma RemoveOne<T>(init: seq<T>, before: seq<T>, after: seq<T>, x: T)
    requires multiset(init + [x]) == multiset(before + [x] + after)
    ensures multiset(init) == multiset(before + after)
  {
    assert multiset(init) == multiset(init + [x]) - multiset{x};
    assert multiset(before + after) == multiset(before + [x] + after) - multiset{x};
  }

  // The order in which the interfaces of a VM arrive does not matter.
  lemma {:induction false} TotalOfPermutation(a: seq<Row>, b: seq<Row>)
    requires Sound(a) && multiset(a) == multiset(b)
    ensures SameTotals(Total(a), Total(b))
  {
    hide Merge, Single, SameTotals;
    assert |multiset(a)| == |a| && |multiset(b)| == |b|;
    if a == [] {
      assert b == [];
      SameItself(Total(a));
    } else {
      var init, last := a[..|a| - 1], a[|a| - 1];
      assert a == init + [last];
      assert last in multiset(b);
      var k :| 0 <= k < |b| && b[k] == last;
      var before, after := b[..k], b[k + 1..];
      assert b == before + [last] + after;
      RemoveOne(init, before, after, last);
      assert Sound(before) && Sound(before + [last]) && Sound(init) by { SoundParts(a, b, k); }
      TotalOfPermutation(init, before + after);
      MergeSame(Total(init), Total(before + after), Single(last));
      TotalOfConcatenation(before, after);
      TotalOfConcatenation(before + [last], after);
      assert (before + [last])[..k] == before;
      MergeSwap(Total(before), Total(after), Single(last));
      SameChain(Total(a), Merge(Merge(Total(before), Total(after)), Single(last)), Total(b));
    }
  }

  lemma SameItself(t: Totals)
    ensures SameTotals(t, t)
  {
  }

  lemma SameChain(x: Totals, y: Totals, z: Totals)
    requires SameTotals(x, y) && SameTotals(y, z)
    ensures SameTotals(x, z)
  {
  }

  lemma SoundParts(a: seq<Row>, b: seq<Row>, k: nat)
    requires Sound(a) && multiset(a) == multiset(b) && k < |b| && a != []
    ensures Sound(b[..k]) && Sound(b[..k] + [b[k]]) && Sound(a[..|a| - 1])
  {
    forall r | r in b ensures r.samples.maxGap >= 0.0 {
      assert r in multiset(b) && r in a;
    }
  }

  // ---------------------------------------------------------------- what the sums mean

  function Sum(f: Row -> nat, rows: seq<Row>): nat {
    if rows == [] then 0 else Sum(f, rows[..|rows| - 1]) + f(rows[|rows| - 1])
  }

  function RxPackets(r: Row): nat { r.flow.rxPackets }
  function TxPackets(r: Row): nat { r.flow.txPackets }
  function PublicPackets(r: Row): nat { if r.role == Public then r.flow.rxPackets else 0 }
  function PrivatePackets(r: Row): nat { if r.role == Private then r.flow.rxPackets else 0 }

  // The packet totals are the sums over the rows; those of a bridge are the sums over the
  // rows of its role.
  lemma {:induction false} TotalsAreSums(rows: seq<Row>)
    ensures Total(rows).rxPackets == Sum(RxPackets, rows)
    ensures Total(rows).txPackets == Sum(TxPackets, rows)
    ensures Total(rows).pub.rxPackets == Sum(PublicPackets, rows)
    ensures Total(rows).priv.rxPackets == Sum(PrivatePackets, rows)
    ensures Total(rows).ifaces == rows
  {
    hide Merge, Single, RxPackets, TxPackets, PublicPackets, PrivatePackets;
    if rows != [] {
      var init, last := rows[..|rows| - 1], rows[|rows| - 1];
      TotalsAreSums(init);
      MergeAdds(Total(init), last);
      assert rows == init + [last];
    }
  }

  lemma MergeAdds(t: Totals, r: Row)
    ensures var m := Merge(t, Single(r));
            && m.rxPackets == t.rxPackets + RxPackets(r) && m.txPackets == t.txPackets + TxPackets(r)
            && m.pub.rxPackets == t.pub.rxPackets + PublicPackets(r)
            && m.priv.rxPackets == t.priv.rxPackets + PrivatePackets(r)
            && m.ifaces == t.ifaces + [r]
  {
  }

  // The quality of a VM is that of a worst interface, its gap the largest gap.
  lemma {:induction false} WorstIsKept(rows: seq<Row>)
    ensures var t := Total(rows).samples;
            && (forall r <- rows :: Rank(r.samples.quality) <= Rank(t.quality) && r.samples.maxGap <= t.maxGap)
            && (t.quality == LEGACY || exists r <- rows :: r.samples.quality == t.quality)
            && (t.maxGap == 0.0 || exists r <- rows :: r.samples.maxGap == t.maxGap)
  {
    if rows != [] {
      var init, last := rows[..|rows| - 1], rows[|rows| - 1];
      WorstIsKept(init);
      assert rows == init + [last];
      WorstNext(init, last, Total(init).samples, AddSamples(Total(init).samples, last.samples));
    }
  }

  lemma WorstNext(init: seq<Row>, last: Row, t: Samples, u: Samples)
    requires u == AddSamples(t, last.samples)
    requires forall r <- init :: Rank(r.samples.quality) <= Rank(t.quality) && r.samples.maxGap <= t.maxGap
    requires t.quality == LEGACY || exists r <- init :: r.samples.quality == t.quality
    requires t.maxGap == 0.0 || exists r <- init :: r.samples.maxGap == t.maxGap
    ensures forall r <- init + [last] :: Rank(r.samples.quality) <= Rank(u.quality) && r.samples.maxGap <= u.maxGap
    ensures u.quality == LEGACY || exists r <- init + [last] :: r.samples.quality == u.quality
    ensures u.maxGap == 0.0 || exists r <- init + [last] :: r.samples.maxGap == u.maxGap
  {
    assert last in init + [last];
    if u.quality != LEGACY && u.quality != last.samples.quality {
      var r :| r in init && r.samples.quality == t.quality;
      assert r in init + [last];
    }
    if u.maxGap != 0.0 && u.maxGap != last.samples.maxGap {
      var r :| r in init && r.samples.maxGap == t.maxGap;
      assert r in init + [last];
    }
  }

  // ---------------------------------------------------------------- the pass

  function Vms(rows: seq<Row>): set<string> {
    set r <- rows :: r.vm
  }

  // The totals per VM that a list of rows stands for.
  function Tally(rows: seq<Row>): map<string, Totals> {
    map vm | vm in Vms(rows) :: Total(Of(rows, vm))
  }

  lemma OfNext(rows: seq<Row>, row: Row, vm: string)
    ensures Of(rows + [row], vm) == if vm == row.vm then Of(rows, vm) + [row] else Of(rows, vm)
  {
    assert (rows + [row])[..|rows|] == rows;
  }

  lemma {:induction false} OfNobody(rows: seq<Row>, vm: string)
    requires forall r <- rows :: r.vm != vm
    ensures Of(rows, vm) == []
  {
    if rows != [] {
      assert rows[|rows| - 1] in rows;
      OfNobody(rows[..|rows| - 1], vm);
    }
  }

  lemma VmsNext(rows: seq<Row>, row: Row)
    ensures Vms(rows + [row]) == Vms(rows) + {row.vm}
  {
    forall vm | vm in Vms(rows) + {row.vm} ensures vm in Vms(rows + [row]) {
      if vm == row.vm {
        assert row in rows + [row];
      } else {
        var r :| r in rows && r.vm == vm;
        assert r in rows + [row];
      }
    }
  }

  lemma TotalNext(rows: seq<Row>, row: Row)
    ensures Total(rows + [row]) == Merge(Total(rows), Single(row))
  {
    hide Merge, Single;
    assert (rows + [row])[..|rows|] == rows;
  }

  lemma TallyNext(rows: seq<Row>, row: Row)
    ensures var was := if row.vm in Tally(rows) then Tally(rows)[row.vm] else NOTHING;
            Tally(rows + [row]) == Tally(rows)[row.vm := Merge(was, Single(row))]
  {
    hide Merge, Single, Of, Vms;
    VmsNext(rows, row);
    if row.vm !in Vms(rows) { NotAmong(rows, row.vm); }
    forall vm ensures Of(rows + [row], vm) == if vm == row.vm then Of(rows, vm) + [row] else Of(rows, vm) {
      OfNext(rows, row, vm);
    }
    TotalNext(Of(rows, row.vm), row);
  }

  lemma NotAmong(rows: seq<Row>, vm: string)
    requires vm !in Vms(rows)
    ensures Of(rows, vm) == []
  {
    OfNobody(rows, vm);
  }

  // The record of a VM with one more interface in it.
  method AddInterface(was: Totals, row: Row) returns (rec: Totals)
    ensures rec == Merge(was, Single(row))
  {
    rec := was.(ifaces := was.ifaces + [row]);
    if row.role == Public {
      rec := rec.(pub := AddFlow(rec.pub, row.flow));
    } else if row.role == Private {
      rec := rec.(priv := AddFlow(rec.priv, row.flow));
    }
    rec := rec.(rxPackets := rec.rxPackets + row.flow.rxPackets, txPackets := rec.txPackets + row.flow.txPackets);
    var s := rec.samples;
    s := s.(count := s.count + row.samples.count, expected := s.expected + row.samples.expected);
    s := s.(maxGap := MaxReal(s.maxGap, row.samples.maxGap));
    if Rank(row.samples.quality) > Rank(s.quality) {
      s := s.(quality := row.samples.quality);
    }
    s := s.(overPps := s.overPps + row.samples.overPps, overMbps := s.overMbps + row.samples.overMbps);
    s := s.(overRxPps := Max(s.overRxPps, row.samples.overRxPps), overTxPps := Max(s.overTxPps, row.samples.overTxPps));
    s := s.(drops := s.drops + row.samples.drops, errors := s.errors + row.samples.errors);
    rec := rec.(samples := s);
  }

  method Aggregate(sources: seq<Source>, settings: Settings) returns (byVm: map<string, Totals>, raw: seq<Row>)
    ensures raw == Rows(sources, settings)
    ensures byVm == Tally(raw)
  {
    hide Merge, Single, Measured, Total, Of;
    byVm, raw := map[], [];
    for i := 0 to |sources|
      invariant raw == Rows(sources[..i], settings)
      invariant byVm == Tally(raw)
    {
      assert sources[..i + 1][..i] == sources[..i];
      var row := Measured(sources[i], settings);
      if row.None? { continue; }
      TallyNext(raw, row.value);
      raw := raw + [row.value];
      var rec := if row.value.vm in byVm then byVm[row.value.vm] else NOTHING;
      rec := AddInterface(rec, row.value);
      byVm := byVm[row.value.vm := rec];
    }
    assert sources[..|sources|] == sources;
  }

  // ---------------------------------------------------------------- payloads in parts and in any order

  // The rows of one VM in a payload.
  function Seen(sources: seq<Source>, settings: Settings, vm: string): seq<Row> {
    Of(Rows(sources, settings), vm)
  }

  lemma {:induction false} OfConcatenation(a: seq<Row>, b: seq<Row>, vm: string)
    ensures Of(a + b, vm) == Of(a, vm) + Of(b, vm)
  {
    if b == [] {
      assert a + b == a;
    } else {
      assert (a + b)[..|a + b| - 1] == a + b[..|b| - 1];
      OfConcatenation(a, b[..|b| - 1], vm);
    }
  }

  lemma {:induction false} RowsOfConcatenation(a: seq<Source>, b: seq<Source>, settings: Settings)
    ensures Rows(a + b, settings) == Rows(a, settings) + Rows(b, settings)
  {
    hide Measured;
    if b == [] {
      assert a + b == a;
    } else {
      assert (a + b)[..|a + b| - 1] == a + b[..|b| - 1];
      RowsOfConcatenation(a, b[..|b| - 1], settings);
    }
  }

  lemma SeenOfConcatenation(a: seq<Source>, b: seq<Source>, settings: Settings, vm: string)
    ensures Seen(a + b, settings, vm) == Seen(a, settings, vm) + Seen(b, settings, vm)
  {
    RowsOfConcatenation(a, b, settings);
    OfConcatenation(Rows(a, settings), Rows(b, settings), vm);
  }

  lemma {:induction false} SeenSound(sources: seq<Source>, settings: Settings, vm: string)
    ensures Sound(Seen(sources, settings, vm))
  {
    hide PeaksOf, FlowOf;
    if sources != [] {
      var init, last := sources[..|sources| - 1], sources[|sources| - 1];
      SeenSound(init, settings, vm);
      assert sources == init + [last];
      SeenOfConcatenation(init, [last], settings, vm);
      assert [last][..0] == [];
      if Measured(last, settings).Some? {
        var row := Measured(last, settings).value;
        assert Rows([last], settings) == [row];
        OfNext([], row, vm);
        assert [] + [row] == [row];
      }
    }
  }

  // A payload that arrives in two parts gives every VM the merge of what the parts give it.
  lemma PayloadInParts(a: seq<Source>, b: seq<Source>, settings: Settings, vm: string)
    ensures Total(Seen(a + b, settings, vm))
         == Merge(Total(Seen(a, settings, vm)), Total(Seen(b, settings, vm)))
  {
    SeenOfConcatenation(a, b, settings, vm);
    SeenSound(a, settings, vm);
    TotalOfConcatenation(Seen(a, settings, vm), Seen(b, settings, vm));
  }

  lemma {:induction false} SeenOfPermutation(a: seq<Source>, b: seq<Source>, settings: Settings, vm: string)
    requires multiset(a) == multiset(b)
    ensures multiset(Seen(a, settings, vm)) == multiset(Seen(b, settings, vm))
  {
    hide Seen;
    assert |multiset(a)| == |a| && |multiset(b)| == |b|;
    if a == [] {
      assert b == [];
    } else {
      var init, last := a[..|a| - 1], a[|a| - 1];
      assert a == init + [last];
      assert last in multiset(b);
      var k :| 0 <= k < |b| && b[k] == last;
      var before, after := b[..k], b[k + 1..];
      assert b == before + [last] + after;
      RemoveOne(init, before, after, last);
      SeenOfPermutation(init, before + after, settings, vm);
      SeenOfConcatenation(init, [last], settings, vm);
      SeenOfConcatenation(before, [last], settings, vm);
      SeenOfConcatenation(before + [last], after, settings, vm);
      SeenOfConcatenation(before, after, settings, vm);
    }
  }

  // The order of the payload shows only in the order of the interface lists.
  lemma PayloadInAnyOrder(a: seq<Source>, b: seq<Source>, settings: Settings, vm: string)
    requires multiset(a) == multiset(b)
    ensures SameTotals(Total(Seen(a, settings, vm)), Total(Seen(b, settings, vm)))
  {
    SeenOfPermutation(a, b, settings, vm);
    SeenSound(a, settings, vm);
    TotalOfPermutation(Seen(a, settings, vm), Seen(b, settings, vm));
  }

  // ---------------------------------------------------------------- the stored rows

  datatype Key = Key(vm: string, bridge: string, iface: string)

  function KeyOf(r: Row): Key {
    Key(r.vm, r.bridge, r.iface)
  }

  function Keyed(rows: seq<Row>, k: Key, wanted: bool): seq<Row> {
    if rows == [] then []
    else
      Keyed(rows[..|rows| - 1], k, wanted)
      + if (KeyOf(rows[|rows| - 1]) == k) == wanted then [rows[|rows| - 1]] else []
  }

  // The table after the rows of one push have been upserted in order.
  function Stored(rows: seq<Row>): seq<Row> {
    if rows == [] then []
    else
      var last := rows[|rows| - 1];
      Keyed(Stored(rows[..|rows| - 1]), KeyOf(last), false) + [last]
  }

  // The rows that a later row of the push replaced.
  function Overwritten(rows: seq<Row>): seq<Row> {
    if rows == [] then []
    else
      var init, last := rows[..|rows| - 1], rows[|rows| - 1];
      Overwritten(init) + Keyed(Stored(init), KeyOf(last), true)
  }

  predicate UniqueKeys(rows: seq<Row>) {
    forall i, j :: 0 <= i < j < |rows| ==> KeyOf(rows[i]) != KeyOf(rows[j])
  }

  lemma {:induction false} SumOfConcatenation(f: Row -> nat, a: seq<Row>, b: seq<Row>)
    ensures Sum(f, a + b) == Sum(f, a) + Sum(f, b)
  {
    if b == [] {
      assert a + b == a;
    } else {
      assert (a + b)[..|a + b| - 1] == a + b[..|b| - 1];
      SumOfConcatenation(f, a, b[..|b| - 1]);
    }
  }

  lemma {:induction false} SumKeyed(f: Row -> nat, rows: seq<Row>, k: Key)
    ensures Sum(f, Keyed(rows, k, true)) + Sum(f, Keyed(rows, k, false)) == Sum(f, rows)
  {
    if rows != [] {
      var init, last := rows[..|rows| - 1], rows[|rows| - 1];
      SumKeyed(f, init, k);
      SumOfConcatenation(f, Keyed(init, k, true), if KeyOf(last) == k then [last] else []);
      SumOfConcatenation(f, Keyed(init, k, false), if KeyOf(last) == k then [] else [last]);
      assert [last][..0] == [];
      assert Sum(f, [last]) == f(last);
    }
  }

  lemma {:induction false} StoredAndOverwritten(f: Row -> nat, rows: seq<Row>)
    ensures Sum(f, Stored(rows)) + Sum(f, Overwritten(rows)) == Sum(f, rows)
  {
    if rows != [] {
      var init, last := rows[..|rows| - 1], rows[|rows| - 1];
      StoredAndOverwritten(f, init);
      SumKeyed(f, Stored(init), KeyOf(last));
      SumOfConcatenation(f, Keyed(Stored(init), KeyOf(last), false), [last]);
      SumOfConcatenation(f, Overwritten(init), Keyed(Stored(init), KeyOf(last), true));
      assert [last][..0] == [];
      assert Sum(f, [last]) == f(last);
    }
  }

  lemma {:induction false} SumZero(f: Row -> nat, rows: seq<Row>)
    ensures Sum(f, rows) == 0 <==> forall r <- rows :: f(r) == 0
  {
    if rows != [] {
      var init, last := rows[..|rows| - 1], rows[|rows| - 1];
      SumZero(f, init);
      assert rows == init + [last] && last in rows;
    }
  }

  // A later row of the push has the same key.
  predicate Superseded(rows: seq<Row>, i: nat)
    requires i < |rows|
  {
    exists j :: i < j < |rows| && KeyOf(rows[j]) == KeyOf(rows[i])
  }

  lemma {:induction false} KeyedHas(rows: seq<Row>, k: Key, wanted: bool, r: Row)
    ensures r in Keyed(rows, k, wanted) <==> r in rows && (KeyOf(r) == k) == wanted
  {
    hide KeyOf;
    if rows != [] {
      var init, last := rows[..|rows| - 1], rows[|rows| - 1];
      KeyedHas(init, k, wanted, r);
      assert rows == init + [last];
    }
  }

  lemma SupersededNext(init: seq<Row>, last: Row, i: nat)
    requires i <= |init|
    ensures Superseded(init + [last], i) <==>
              i < |init| && (Superseded(init, i) || KeyOf(init[i]) == KeyOf(last))
  {
    hide KeyOf;
    var rows := init + [last];
    assert rows[|init|] == last;
    if i < |init| && Superseded(init, i) {
      var j :| i < j < |init| && KeyOf(init[j]) == KeyOf(init[i]);
      assert rows[j] == init[j];
    }
  }

  // What is stored and what was replaced, told from the places in the push.
  lemma {:induction false} StoredAt(rows: seq<Row>, r: Row)
    ensures r in Stored(rows) <==> exists i :: 0 <= i < |rows| && rows[i] == r && !Superseded(rows, i)
    ensures r in Overwritten(rows) <==> exists i :: 0 <= i < |rows| && rows[i] == r && Superseded(rows, i)
  {
    hide KeyOf, Superseded, Keyed;
    if rows != [] {
      var init, last := rows[..|rows| - 1], rows[|rows| - 1];
      assert rows == init + [last] && rows[|init|] == last;
      StoredAt(init, r);
      KeyedHas(Stored(init), KeyOf(last), true, r);
      KeyedHas(Stored(init), KeyOf(last), false, r);
      forall i | 0 <= i < |rows|
        ensures Superseded(rows, i) <==> i < |init| && (Superseded(init, i) || KeyOf(init[i]) == KeyOf(last))
        ensures i < |init| ==> rows[i] == init[i]
      {
        SupersededNext(init, last, i);
      }
    }
  }

  // The stored rows add up to the totals exactly when every row with a later row of the same
  // key counted nothing.
  lemma StoredTotalsExactly(f: Row -> nat, rows: seq<Row>)
    ensures Sum(f, Stored(rows)) == Sum(f, rows) <==>
              forall i :: 0 <= i < |rows| && Superseded(rows, i) ==> f(rows[i]) == 0
  {
    hide Superseded, Stored, Overwritten;
    StoredAndOverwritten(f, rows);
    SumZero(f, Overwritten(rows));
    forall i | 0 <= i < |rows| && Superseded(rows, i) ensures rows[i] in Overwritten(rows) {
      StoredAt(rows, rows[i]);
    }
    forall r | r in Overwritten(rows) ensures exists i :: 0 <= i < |rows| && rows[i] == r && Superseded(rows, i) {
      StoredAt(rows, r);
    }
  }

  lemma {:induction false} KeyedNone(rows: seq<Row>, k: Key)
    requires forall r <- rows :: KeyOf(r) != k
    ensures Keyed(rows, k, true) == [] && Keyed(rows, k, false) == rows
  {
    if rows != [] {
      assert rows[|rows| - 1] in rows;
      KeyedNone(rows[..|rows| - 1], k);
    }
  }

  lemma KeysBefore(init: seq<Row>, last: Row)
    requires UniqueKeys(init + [last])
    ensures UniqueKeys(init) && forall r <- init :: KeyOf(r) != KeyOf(last)
  {
    var rows := init + [last];
    forall i, j | 0 <= i < j < |init| ensures KeyOf(init[i]) != KeyOf(init[j]) {
      assert rows[i] == init[i] && rows[j] == init[j];
    }
    forall r | r in init ensures KeyOf(r) != KeyOf(last) {
      var i :| 0 <= i < |init| && init[i] == r;
      assert rows[i] == r && rows[|init|] == last;
    }
  }

  // With distinct keys every row is stored.
  lemma {:induction false} UniqueAllStored(rows: seq<Row>)
    requires UniqueKeys(rows)
    ensures Stored(rows) == rows && Overwritten(rows) == []
  {
    hide UniqueKeys, KeyOf, Keyed;
    if rows != [] {
      var init, last := rows[..|rows| - 1], rows[|rows| - 1];
      assert rows == init + [last];
      KeysBefore(init, last);
      UniqueAllStored(init);
      KeyedNone(init, KeyOf(last));
    }
  }
}
