/**
 * The luma direction search of checkIntraInInter_rd0_4: DC, then planar, then the 33 angular
 * directions, either exhaustively or by the fast path (sample every fifth angle, refine at
 * distance 2 and then 1, and try 34 when the refined best is 33).
 *
 * The prediction, the SA8D kernel and the bit estimate of each direction are foreign: `probe`
 * gives, for a direction, its RD-SAD cost, its distortion and its bits.
 */
module IntraSearch {
  import opened Common

  const PLANAR_IDX: nat := 0
  const DC_IDX: nat := 1

  /** What trying one direction yields: RD-SAD cost, distortion and mode bits. */
  datatype Probe = Probe(cost: nat, sad: int, bits: nat)

  /** The running best of COPY4_IF_LT: cost, direction, distortion and bits. */
  datatype Best = Best(cost: nat, mode: nat, sad: int, bits: nat)

  function Entry(mode: nat, probe: nat -> Probe): Best
  {
    Best(probe(mode).cost, mode, probe(mode).sad, probe(mode).bits)
  }

  /** The start of the fast angle search: cost MAX_INT64, direction 5, nothing else. */
  const AngleStart: Best := Best(MAX_INT64, 5, 0, 0)

  /** COPY4_IF_LT: the candidate replaces the best only when strictly cheaper. */
  function Keep(b: Best, c: Best): (r: Best)
    ensures (r == b || r == c) && r.cost <= b.cost && r.cost <= c.cost
    ensures b.cost <= c.cost ==> r == b
  {
    if c.cost < b.cost then c else b
  }

  /** COPY4_IF_LT over a probe order: each direction replaces the running best only when it is
      strictly cheaper.  The result is the start or the first probed direction of minimum cost,
      and it is no dearer than the start or any probed direction. */
  function Scan(b: Best, modes: seq<nat>, probe: nat -> Probe): (r: Best)
    decreases |modes|
    ensures r.cost <= b.cost
    ensures forall j :: 0 <= j < |modes| ==> r.cost <= probe(modes[j]).cost
  {
    if modes == [] then b
    else
      var s := Scan(b, modes[..|modes| - 1], probe);
      var m := modes[|modes| - 1];
      Keep(s, Entry(m, probe))
  }

  /** A scan keeps its start or ends on the first probed direction of minimum cost, which is
      then strictly cheaper than the start and than every direction probed before it. */
  lemma {:induction false} ScanFirstMin(b: Best, modes: seq<nat>, probe: nat -> Probe)
    ensures var r := Scan(b, modes, probe);
      r == b || exists j :: 0 <= j < |modes| && r == Entry(modes[j], probe) && r.cost < b.cost &&
                            forall i :: 0 <= i < j ==> probe(modes[i]).cost > r.cost
  {
    if modes != [] {
      var init := modes[..|modes| - 1];
      var m := modes[|modes| - 1];
      ScanFirstMin(b, init, probe);
      var s := Scan(b, init, probe);
      var r := Scan(b, modes, probe);
      if r != s {
        assert r == Entry(m, probe) && r.cost < s.cost;
        forall i | 0 <= i < |modes| - 1
          ensures probe(modes[i]).cost > r.cost
        {
          assert modes[i] == init[i];
        }
      } else if s != b {
        var j :| 0 <= j < |init| && s == Entry(init[j], probe) && s.cost < b.cost &&
                 forall i :: 0 <= i < j ==> probe(init[i]).cost > s.cost;
        assert modes[j] == init[j];
        forall i | 0 <= i < j
          ensures probe(modes[i]).cost > r.cost
        {
          assert modes[i] == init[i];
        }
      }
    }
  }

  /** A scan ends on the start or on one of the probed directions. */
  lemma ScanMode(b: Best, modes: seq<nat>, probe: nat -> Probe)
    ensures Scan(b, modes, probe).mode == b.mode || Scan(b, modes, probe).mode in modes
  {
    ScanFirstMin(b, modes, probe);
    var r := Scan(b, modes, probe);
    if r != b {
      var j :| 0 <= j < |modes| && r == Entry(modes[j], probe);
      assert r.mode == modes[j];
    }
  }

  /** The angular directions 2..34 in increasing order. */
  function Angles(): (r: seq<nat>)
    ensures |r| == 33 && forall j :: 0 <= j < 33 ==> r[j] == j + 2
  {
    seq(33, j requires 0 <= j => j + 2)
  }

  /** The directions the fast path samples: 5, 10, ..., 30. */
  function Samples(): (r: seq<nat>)
    ensures |r| == 6 && forall j :: 0 <= j < 6 ==> r[j] == 5 * (j + 1)
  {
    seq(6, j requires 0 <= j => 5 * (j + 1))
  }

  /** DC, then planar if strictly cheaper. */
  function DcPlanar(probe: nat -> Probe): Best
  {
    Scan(Entry(DC_IDX, probe), [PLANAR_IDX], probe)
  }

  /** The fast path's best after sampling, after refining at distance 2 and at distance 1. */
  function Sampled(probe: nat -> Probe): (r: Best)
    ensures 5 <= r.mode <= 30
  {
    var r := Scan(AngleStart, Samples(), probe);
    ScanMode(AngleStart, Samples(), probe);
    r
  }

  /** The directions `dist` below and above the current best, low first. */
  function Around(b: Best, dist: nat): seq<nat>
    requires dist <= b.mode
  {
    [b.mode - dist, b.mode + dist]
  }

  /** One refinement step: probe the directions `dist` below and above the current best. */
  function Refine(b: Best, dist: nat, probe: nat -> Probe): (r: Best)
    requires dist <= b.mode
    ensures b.mode - dist <= r.mode <= b.mode + dist
  {
    var r := Scan(b, Around(b, dist), probe);
    ScanMode(b, Around(b, dist), probe);
    r
  }

  function Refined2(probe: nat -> Probe): (r: Best)
    ensures 3 <= r.mode <= 32
  {
    Refine(Sampled(probe), 2, probe)
  }

  function Refined1(probe: nat -> Probe): (r: Best)
    ensures 2 <= r.mode <= 33
  {
    Refine(Refined2(probe), 1, probe)
  }

  /** The fast path's angle result: direction 34 is tried only when the refined best is 33. */
  function FastAngle(probe: nat -> Probe): Best
  {
    var s := Refined1(probe);
    if s.mode == 33 then Scan(s, [34], probe) else s
  }

  /** The last probe of the fast path: 34, only when the refined best is 33. */
  function FastTail(probe: nat -> Probe): seq<nat>
  {
    if Refined1(probe).mode == 33 then [34] else []
  }

  /** The directions the fast path probes, in order. */
  function FastProbes(probe: nat -> Probe): seq<nat>
  {
    Samples() + Around(Sampled(probe), 2) + Around(Refined2(probe), 1) + FastTail(probe)
  }

  /** The direction checkIntraInInter_rd0_4 keeps: the angle phase replaces the DC/planar
      winner only when strictly cheaper. */
  function IntraChoice(probe: nat -> Probe, fastIntra: bool): Best
  {
    if fastIntra then Keep(DcPlanar(probe), FastAngle(probe))
    else Scan(DcPlanar(probe), Angles(), probe)
  }

  /** The exhaustive order of checkIntraInInter_rd0_4: DC, planar, then 2..34. */
  function ExhaustiveOrder(): (r: seq<nat>)
    ensures |r| == 35 && r[0] == DC_IDX && r[1] == PLANAR_IDX
    ensures forall j :: 2 <= j < 35 ==> r[j] == j
  {
    [DC_IDX, PLANAR_IDX] + Angles()
  }

  /** Scanning two lists in turn is scanning their concatenation. */
  lemma {:induction false} ScanAppend(b: Best, xs: seq<nat>, ys: seq<nat>, probe: nat -> Probe)
    ensures Scan(Scan(b, xs, probe), ys, probe) == Scan(b, xs + ys, probe)
    decreases |ys|
  {
    if ys == [] {
      assert xs + ys == xs;
    } else {
      var ys' := ys[..|ys| - 1];
      ScanAppend(b, xs, ys', probe);
      assert (xs + ys)[..|xs + ys| - 1] == xs + ys';
    }
  }

  /** The exhaustive search returns the first direction of minimum cost in the order DC,
      planar, 2..34: no direction is cheaper, and every direction before it in that order is
      strictly dearer. */
  lemma ExhaustiveIsFirstMinimum(probe: nat -> Probe)
    ensures var b := IntraChoice(probe, false);
      && (forall m :: 0 <= m <= 34 ==> b.cost <= probe(m).cost)
      && exists j :: 0 <= j < 35 && b == Entry(ExhaustiveOrder()[j], probe) &&
           forall i :: 0 <= i < j ==> probe(ExhaustiveOrder()[i]).cost > b.cost
  {
    var o := ExhaustiveOrder();
    var start := Entry(DC_IDX, probe);
    ScanAppend(start, [PLANAR_IDX], Angles(), probe);
    assert o[1..] == [PLANAR_IDX] + Angles();
    var b := Scan(start, o[1..], probe);
    assert b == IntraChoice(probe, false);
    forall m | 0 <= m <= 34
      ensures b.cost <= probe(m).cost
    {
      if m == DC_IDX {
      } else {
        assert o[1..][if m == PLANAR_IDX then 0 else m - 1] == m;
      }
    }
    ScanFirstMin(start, o[1..], probe);
    if b == start {
      assert b == Entry(o[0], probe);
    } else {
      var j :| 0 <= j < |o[1..]| && b == Entry(o[1..][j], probe) && b.cost < start.cost &&
               forall i :: 0 <= i < j ==> probe(o[1..][i]).cost > b.cost;
      assert b == Entry(o[j + 1], probe);
      forall i | 0 <= i < j + 1
        ensures probe(o[i]).cost > b.cost
      {
        if i > 0 {
          assert o[i] == o[1..][i - 1];
        }
      }
    }
  }

  /** The fast path probes only angular directions 2..34, and 34 only after the refined best
      came out as 33. */
  lemma FastProbesInRange(probe: nat -> Probe)
    ensures forall m <- FastProbes(probe) :: 2 <= m <= 34
    ensures 34 in FastProbes(probe) ==> Refined1(probe).mode == 33
  {
    var s1 := Sampled(probe);
    var s2 := Refined2(probe);
    var s3 := Refined1(probe);
    var tail: seq<nat> := if s3.mode == 33 then [34] else [];
    var ps := FastProbes(probe);
    assert ps == Samples() + [s1.mode - 2, s1.mode + 2] + [s2.mode - 1, s2.mode + 1] + tail;
    forall m | m in ps
      ensures 2 <= m <= 34 && (m == 34 ==> s3.mode == 33)
    {
      var j :| 0 <= j < |ps| && ps[j] == m;
      if j < 6 {
        assert m == Samples()[j];
      } else if j < 8 {
      } else if j < 10 {
      } else {
        assert m == tail[j - 10];
      }
    }
  }

  /** The fast path keeps a cost no higher than DC, planar, every probed angle and MAX_INT64. */
  lemma FastIsNoDearerThanProbed(probe: nat -> Probe)
    ensures var b := IntraChoice(probe, true);
      && b.cost <= MAX_INT64
      && b.cost <= probe(DC_IDX).cost && b.cost <= probe(PLANAR_IDX).cost
      && forall m <- FastProbes(probe) :: b.cost <= probe(m).cost
  {
    var s0 := Scan(AngleStart, Samples(), probe);
    var s1 := Sampled(probe);
    var s2 := Refined2(probe);
    var s3 := Refined1(probe);
    var a := FastAngle(probe);
    assert a.cost <= s3.cost <= s2.cost <= s1.cost <= MAX_INT64;
    var tail: seq<nat> := if s3.mode == 33 then [34] else [];
    var ps := FastProbes(probe);
    assert ps == Samples() + [s1.mode - 2, s1.mode + 2] + [s2.mode - 1, s2.mode + 1] + tail;
    forall m | m in ps
      ensures a.cost <= probe(m).cost
    {
      var j :| 0 <= j < |ps| && ps[j] == m;
      if j < 6 {
        assert m == Samples()[j];
      } else if j < 8 {
        assert m == [s1.mode - 2, s1.mode + 2][j - 6];
      } else if j < 10 {
        assert m == [s2.mode - 1, s2.mode + 1][j - 8];
      } else {
        assert m == 34 && s3.mode == 33;
        assert a == Scan(s3, [34], probe);
      }
    }
  }

  /** The fast path's angle phase is one COPY4_IF_LT scan, from the angle start, over the
      directions it probes, in the order it probes them. */
  lemma FastAngleIsScan(probe: nat -> Probe)
    ensures FastAngle(probe) == Scan(AngleStart, FastProbes(probe), probe)
  {
    var s1 := Sampled(probe);
    var s2 := Refined2(probe);
    var s3 := Refined1(probe);
    var l2 := Around(s1, 2);
    var l1 := Around(s2, 1);
    FastAngleTail(probe);
    ScanChain(AngleStart, Samples(), l2, s1, s2, probe);
    ScanChain(AngleStart, Samples() + l2, l1, s2, s3, probe);
    ScanChain(AngleStart, Samples() + l2 + l1, FastTail(probe), s3, FastAngle(probe), probe);
  }

  /** Direction 34 is one more COPY4_IF_LT after the refinement, taken only from 33. */
  lemma FastAngleTail(probe: nat -> Probe)
    ensures FastAngle(probe) == Scan(Refined1(probe), FastTail(probe), probe)
  {
  }

  /** A scan from `b` that reaches `s` over `xs` and then `t` over `ys` reaches `t` over both. */
  lemma ScanChain(b: Best, xs: seq<nat>, ys: seq<nat>, s: Best, t: Best, probe: nat -> Probe)
    requires Scan(b, xs, probe) == s && Scan(s, ys, probe) == t
    ensures Scan(b, xs + ys, probe) == t
  {
    ScanAppend(b, xs, ys, probe);
  }

  /** With a real cost (below MAX_INT64) the fast path keeps the first direction of minimum
      cost in the order DC, planar, then the directions it probed: none of them is cheaper,
      and every one before it in that order is strictly dearer. */
  lemma FastIsFirstMinimum(probe: nat -> Probe)
    ensures var b := IntraChoice(probe, true);
      b.cost < MAX_INT64 ==> IsFirstMinimumOf([DC_IDX, PLANAR_IDX] + FastProbes(probe), b, probe)
  {
    FastAngleIsScan(probe);
    AngleWinnerIsFirstMinimum(FastProbes(probe), probe);
  }

  /** `b` is the first direction of minimum cost in the order `ord`: no direction of `ord` is
      cheaper, `b` is the entry of one of them, and every one before it is strictly dearer. */
  ghost predicate IsFirstMinimumOf(ord: seq<nat>, b: Best, probe: nat -> Probe)
  {
    && (forall j :: 0 <= j < |ord| ==> b.cost <= probe(ord[j]).cost)
    && exists j :: 0 <= j < |ord| && b == Entry(ord[j], probe) &&
         forall i :: 0 <= i < j ==> probe(ord[i]).cost > b.cost
  }

  /** The DC/planar winner followed by a strict COPY4_IF_LT with the result of an angle scan
      from the angle start over `ps`: with a real cost, the first direction of minimum cost in
      the order DC, planar, `ps`. */
  lemma AngleWinnerIsFirstMinimum(ps: seq<nat>, probe: nat -> Probe)
    ensures var b := Keep(DcPlanar(probe), Scan(AngleStart, ps, probe));
      b.cost < MAX_INT64 ==> IsFirstMinimumOf([DC_IDX, PLANAR_IDX] + ps, b, probe)
  {
    var dp := DcPlanar(probe);
    var a := Scan(AngleStart, ps, probe);
    if Keep(dp, a).cost < MAX_INT64 {
      if a.cost < dp.cost {
        AngleScanWins(ps, probe);
      } else {
        DcPlanarWins(ps, probe);
      }
    }
  }

  /** The angle phase wins: its result is the first probe of minimum cost, below DC and planar. */
  lemma AngleScanWins(ps: seq<nat>, probe: nat -> Probe)
    requires Scan(AngleStart, ps, probe).cost < DcPlanar(probe).cost
    requires Scan(AngleStart, ps, probe).cost < MAX_INT64
    ensures IsFirstMinimumOf([DC_IDX, PLANAR_IDX] + ps, Scan(AngleStart, ps, probe), probe)
  {
    var a := Scan(AngleStart, ps, probe);
    var ord := [DC_IDX, PLANAR_IDX] + ps;
    DcPlanarIsKeep(probe);
    forall j | 0 <= j < |ord|
      ensures a.cost <= probe(ord[j]).cost
    {
      if j >= 2 {
        assert ord[j] == ps[j - 2];
      }
    }
    ScanFirstMin(AngleStart, ps, probe);
    var j :| 0 <= j < |ps| && a == Entry(ps[j], probe) && a.cost < AngleStart.cost &&
             forall i :: 0 <= i < j ==> probe(ps[i]).cost > a.cost;
    assert a == Entry(ord[j + 2], probe);
    forall i | 0 <= i < j + 2
      ensures probe(ord[i]).cost > a.cost
    {
      if i >= 2 {
        assert ord[i] == ps[i - 2];
      }
    }
  }

  /** DC/planar keeps its place: planar replaced DC only when strictly cheaper. */
  lemma DcPlanarWins(ps: seq<nat>, probe: nat -> Probe)
    requires DcPlanar(probe).cost <= Scan(AngleStart, ps, probe).cost
    ensures IsFirstMinimumOf([DC_IDX, PLANAR_IDX] + ps, DcPlanar(probe), probe)
  {
    var dp := DcPlanar(probe);
    var ord := [DC_IDX, PLANAR_IDX] + ps;
    DcPlanarIsKeep(probe);
    forall j | 0 <= j < |ord|
      ensures dp.cost <= probe(ord[j]).cost
    {
      if j >= 2 {
        assert ord[j] == ps[j - 2];
      }
    }
    if probe(PLANAR_IDX).cost < probe(DC_IDX).cost {
      assert dp == Entry(ord[1], probe);
    } else {
      assert dp == Entry(ord[0], probe);
    }
  }

  /** The DC/planar phase is one COPY4_IF_LT of planar over DC. */
  lemma DcPlanarIsKeep(probe: nat -> Probe)
    ensures DcPlanar(probe) == Keep(Entry(DC_IDX, probe), Entry(PLANAR_IDX, probe))
  {
    ScanSnoc(Entry(DC_IDX, probe), [], PLANAR_IDX, probe);
    assert [] + [PLANAR_IDX] == [PLANAR_IDX];
  }

  /** Probing one more direction is one more COPY4_IF_LT. */
  lemma ScanSnoc(b: Best, modes: seq<nat>, m: nat, probe: nat -> Probe)
    ensures Scan(b, modes + [m], probe) == Keep(Scan(b, modes, probe), Entry(m, probe))
  {
    assert (modes + [m])[..|modes|] == modes;
  }

  /** The sampling loop of the fast path: 5, 10, ..., 30 from the angle start. */
  method SampleAngles(probe: nat -> Probe) returns (a: Best)
    ensures a == Sampled(probe)
  {
    a := AngleStart;
    var mode: nat := 5;
    ghost var k: nat := 0;
    while mode < 35
      invariant k <= 6 && mode == 5 * (k + 1)
      invariant a == Scan(AngleStart, Samples()[..k], probe)
    {
      assert Samples()[..k + 1] == Samples()[..k] + [mode];
      ScanSnoc(AngleStart, Samples()[..k], mode, probe);
      var p := probe(mode);
      if p.cost < a.cost {
        a := Best(p.cost, mode, p.sad, p.bits);
      }
      mode, k := mode + 5, k + 1;
    }
    assert Samples()[..6] == Samples();
  }

  /** One refinement step: the directions `dist` below and above the best, in that order. */
  method RefineStep(probe: nat -> Probe, a0: Best, dist: nat) returns (a: Best)
    requires dist <= a0.mode
    ensures a == Refine(a0, dist, probe)
  {
    a := a0;
    var lowmode := a.mode - dist;
    var highmode := a.mode + dist;
    ScanSnoc(a0, [], lowmode, probe);
    ScanSnoc(a0, [lowmode], highmode, probe);
    assert [lowmode] + [highmode] == [lowmode, highmode];
    var p := probe(lowmode);
    if p.cost < a.cost {
      a := Best(p.cost, lowmode, p.sad, p.bits);
    }
    p := probe(highmode);
    if p.cost < a.cost {
      a := Best(p.cost, highmode, p.sad, p.bits);
    }
  }

  /** The refinement loop of the fast path: distance 2, then distance 1. */
  method RefineAngles(probe: nat -> Probe, a0: Best) returns (a: Best)
    requires a0 == Sampled(probe)
    ensures a == Refined1(probe)
  {
    a := a0;
    var dist: nat := 2;
    while dist >= 1
      invariant dist <= 2
      invariant dist == 2 ==> a == Sampled(probe)
      invariant dist == 1 ==> a == Refined2(probe)
      invariant dist == 0 ==> a == Refined1(probe)
    {
      a := RefineStep(probe, a, dist);
      dist := dist - 1;
    }
  }

  /** The exhaustive loop: every angle 2..34 in increasing order. */
  method AllAngles(probe: nat -> Probe, b0: Best) returns (b: Best)
    ensures b == Scan(b0, Angles(), probe)
  {
    b := b0;
    var mode: nat := 2;
    while mode < 35
      invariant 2 <= mode <= 35
      invariant b == Scan(b0, Angles()[..mode - 2], probe)
    {
      assert Angles()[..mode - 1] == Angles()[..mode - 2] + [mode];
      ScanSnoc(b0, Angles()[..mode - 2], mode, probe);
      var p := probe(mode);
      if p.cost < b.cost {
        b := Best(p.cost, mode, p.sad, p.bits);
      }
      mode := mode + 1;
    }
    assert Angles()[..33] == Angles();
  }

  /**
   * checkIntraInInter_rd0_4's direction search as the encoder runs it: DC, planar if strictly
   * cheaper, then the angles.  The result is the direction, distortion, bits and cost the CU
   * records.
   */
  method SearchLumaDirection(probe: nat -> Probe, fastIntra: bool) returns (b: Best)
    ensures b == IntraChoice(probe, fastIntra)
  {
    b := Entry(DC_IDX, probe);
    var p := probe(PLANAR_IDX);
    if p.cost < b.cost {
      b := Best(p.cost, PLANAR_IDX, p.sad, p.bits);
    }
    ScanSnoc(Entry(DC_IDX, probe), [], PLANAR_IDX, probe);
    assert b == DcPlanar(probe);
    if fastIntra {
      var a := SampleAngles(probe);
      a := RefineAngles(probe, a);
      if a.mode == 33 {
        ScanSnoc(a, [], 34, probe);
        p := probe(34);
        if p.cost < a.cost {
          a := Best(p.cost, 34, p.sad, p.bits);
        }
      }
      if a.cost < b.cost {
        b := a;
      }
    } else {
      b := AllAngles(probe, b);
    }
  }
}
