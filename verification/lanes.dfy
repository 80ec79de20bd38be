/** The 16-bit-lane view of a 64-bit immediate that the ARM64 `MoveImm64`
    (arm64.go) works in, the effect of the move-wide instructions it emits on a
    register, and the instruction plan it chooses. The instruction semantics
    are those the code's comments describe: `movz` clears the register and sets
    one lane, `movn` writes the complement of the shifted immediate, and `movk`
    replaces one lane and keeps the others. */
module Lanes {
  import opened Ints

  const LANE_SIZE: int := 0x1_0000
  const ALL_ONES: int := TWO_TO_THE_64 - 1

  type Lane = u16
  /** A lane index; lane `k` holds bits 16k to 16k+15. */
  type LaneIndex = k: int | 0 <= k < 4

  /** `value >> k*16`: dropping one lane per step. */
  function ShiftLanes(v: nat, k: nat): nat
    decreases k
  {
    if k == 0 then v else ShiftLanes(v, k - 1) / LANE_SIZE
  }

  /** `uint16(value >> k*16)`. */
  function LaneOf(v: u64, k: LaneIndex): Lane {
    ShiftLanes(v, k) % LANE_SIZE
  }

  /** The four lanes, least significant first. */
  function LanesOf(v: u64): (l: seq<Lane>)
    ensures |l| == 4 && forall k: LaneIndex :: l[k] == LaneOf(v, k)
  {
    [LaneOf(v, 0), LaneOf(v, 1), LaneOf(v, 2), LaneOf(v, 3)]
  }

  /** The value whose lanes are `l`, least significant first. */
  function FromLanes(l: seq<Lane>): (v: u64)
    requires |l| == 4
  {
    l[0] + LANE_SIZE * (l[1] + LANE_SIZE * (l[2] + LANE_SIZE * l[3]))
  }

  /** The bitwise complement `^x` of a 64-bit value. */
  function Not64(x: u64): (r: u64)
    ensures r + x == ALL_ONES
  {
    ALL_ONES - x
  }

  /** The bitwise complement `^x` of a lane. */
  function NotLane(x: Lane): (r: Lane)
    ensures r + x == 0xffff
  {
    0xffff - x
  }

  function NotEach(l: seq<Lane>): (r: seq<Lane>)
    ensures |r| == |l| && forall k :: 0 <= k < |l| ==> r[k] == NotLane(l[k])
  {
    seq(|l|, k requires 0 <= k < |l| => NotLane(l[k]))
  }

  /** Four lanes that all hold `fill`. */
  function Filled(fill: Lane): seq<Lane> {
    [fill, fill, fill, fill]
  }

  // ----- lanes and values are two views of the same thing ---------------------

  /** Splitting a value into lanes and putting them back gives the value. */
  lemma LanesRoundTrip(v: u64)
    ensures FromLanes(LanesOf(v)) == v
  {
    var v1 := v / LANE_SIZE;
    var v2 := v1 / LANE_SIZE;
    var v3 := v2 / LANE_SIZE;
    assert ShiftLanes(v, 1) == v1 && ShiftLanes(v, 2) == v2 && ShiftLanes(v, 3) == v3;
    assert v3 < LANE_SIZE by {
      assert v < LANE_SIZE * LANE_SIZE * LANE_SIZE * LANE_SIZE;
    }
  }

  /** Any four lanes are the lanes of the value they make up. */
  lemma ValueRoundTrip(l: seq<Lane>)
    requires |l| == 4
    ensures LanesOf(FromLanes(l)) == l
  {
    var v := FromLanes(l);
    var x3 := l[3];
    var x2 := l[2] + LANE_SIZE * x3;
    var x1 := l[1] + LANE_SIZE * x2;
    DivModLane(l[0], x1);
    DivModLane(l[1], x2);
    DivModLane(l[2], x3);
    assert ShiftLanes(v, 1) == x1 && ShiftLanes(v, 2) == x2 && ShiftLanes(v, 3) == x3;
  }

  lemma DivModLane(low: Lane, high: nat)
    ensures (low + LANE_SIZE * high) / LANE_SIZE == high
    ensures (low + LANE_SIZE * high) % LANE_SIZE == low
  {
  }

  /** Values are equal exactly when all their lanes are. */
  lemma LanesDetermineValue(a: u64, b: u64)
    ensures LanesOf(a) == LanesOf(b) <==> a == b
  {
    if LanesOf(a) == LanesOf(b) {
      LanesRoundTrip(a);
      LanesRoundTrip(b);
    }
  }

  /** Complementing a value complements each of its lanes. */
  lemma NotLanes(l: seq<Lane>)
    requires |l| == 4
    ensures Not64(FromLanes(l)) == FromLanes(NotEach(l))
  {
  }

  /** The only value without a nonzero lane is 0, and the only value whose
      lanes are all 0xffff is all-ones. */
  lemma UniformValues(v: u64)
    ensures LanesOf(v) == Filled(0) <==> v == 0
    ensures LanesOf(v) == Filled(0xffff) <==> v == ALL_ONES
  {
    ValueRoundTrip(Filled(0));
    ValueRoundTrip(Filled(0xffff));
    LanesDetermineValue(v, 0);
    LanesDetermineValue(v, ALL_ONES);
  }

  // ----- the move instructions ---------------------------------------------------

  datatype WideOp = Movz | Movn | Movk

  /** One instruction of a materialisation: a move-wide of a 16-bit immediate
      into one lane, or the plain `mov` of a small signed immediate. */
  datatype Mov =
    | Wide(op: WideOp, imm: Lane, lane: LaneIndex)
    | Plain(value: i64)

  /** The register after one instruction, given the register before it. */
  function Step(reg: u64, m: Mov): u64 {
    match m
    case Wide(Movz, imm, k) => FromLanes(Filled(0)[k := imm])
    case Wide(Movn, imm, k) => Not64(FromLanes(Filled(0)[k := imm]))
    case Wide(Movk, imm, k) => FromLanes(LanesOf(reg)[k := imm])
    case Plain(x) => ToUint64(x)
  }

  /** The register after a sequence of instructions, in order. */
  function Replay(reg: u64, ms: seq<Mov>): u64
    decreases |ms|
  {
    if ms == [] then reg else Replay(Step(reg, ms[0]), ms[1..])
  }

  /** What each instruction does to the lanes: `movz` leaves only its lane,
      `movn` leaves only its lane complemented and all others all-ones, and
      `movk` changes only its own lane. */
  lemma StepLanes(reg: u64, imm: Lane, k: LaneIndex)
    ensures LanesOf(Step(reg, Wide(Movz, imm, k))) == Filled(0)[k := imm]
    ensures LanesOf(Step(reg, Wide(Movn, imm, k))) == Filled(0xffff)[k := NotLane(imm)]
    ensures LanesOf(Step(reg, Wide(Movk, imm, k))) == LanesOf(reg)[k := imm]
  {
    ValueRoundTrip(Filled(0)[k := imm]);
    NotLanes(Filled(0)[k := imm]);
    assert NotEach(Filled(0)[k := imm]) == Filled(0xffff)[k := NotLane(imm)];
    ValueRoundTrip(Filled(0xffff)[k := NotLane(imm)]);
    ValueRoundTrip(LanesOf(reg)[k := imm]);
  }

  // ----- the plan MoveImm64 emits --------------------------------------------------

  /** The number of lanes, from `k` on, that differ from `x`. */
  function LanesOtherThan(v: u64, x: Lane, k: nat): (n: nat)
    requires k <= 4
    ensures n <= 4 - k
    decreases 4 - k
  {
    if k == 4 then 0 else (if LaneOf(v, k) != x then 1 else 0) + LanesOtherThan(v, x, k + 1)
  }

  /** `zbased`: how many lanes a `movz` start has to write. */
  function ZBased(v: u64): nat {
    LanesOtherThan(v, 0, 0)
  }

  /** `nbased`: how many lanes a `movn` start has to write. */
  function NBased(v: u64): nat {
    LanesOtherThan(v, 0xffff, 0)
  }

  /** The `movz` loop from lane `k` on: each nonzero lane is written, the first
      with `op` and every later one with `movk`. */
  function MovzFrom(v: u64, k: nat, op: WideOp): seq<Mov>
    requires k <= 4
    decreases 4 - k
  {
    if k == 4 then []
    else if LaneOf(v, k) != 0 then [Wide(op, LaneOf(v, k), k)] + MovzFrom(v, k + 1, Movk)
    else MovzFrom(v, k + 1, op)
  }

  /** The `movn` loop from lane `k` on: each lane other than 0xffff is written,
      the first as `movn` of its complement if `first`, every other one with `movk`. */
  function MovnFrom(v: u64, k: nat, first: bool): seq<Mov>
    requires k <= 4
    decreases 4 - k
  {
    if k == 4 then []
    else if LaneOf(v, k) != 0xffff then
      [if first then Wide(Movn, NotLane(LaneOf(v, k)), k) else Wide(Movk, LaneOf(v, k), k)]
        + MovnFrom(v, k + 1, false)
    else MovnFrom(v, k + 1, first)
  }

  /** The instructions `MoveImm64` emits for `v`: a plain `mov` for 0 and
      all-ones, which the loops cannot produce; otherwise the `movz` start when
      it needs no more lanes than the `movn` start, else the `movn` start. */
  function Plan(v: u64): seq<Mov> {
    if v == 0 || ToInt64(v) == -1 then [Plain(ToInt64(v))]
    else if ZBased(v) <= NBased(v) then MovzFrom(v, 0, Movz)
    else MovnFrom(v, 0, true)
  }

  /** Both kinds of special value are exactly the two the loops cannot handle. */
  lemma SpecialValues(v: u64)
    ensures v == 0 || ToInt64(v) == -1 <==> ZBased(v) == 0 || NBased(v) == 0
  {
    UniformValues(v);
    ZeroCount(v, 0);
    ZeroCount(v, 0xffff);
  }

  /** No lane differs from `x` exactly when all four lanes are `x`. */
  lemma ZeroCount(v: u64, x: Lane)
    ensures LanesOtherThan(v, x, 0) == 0 <==> LanesOf(v) == Filled(x)
  {
  }

  // ----- the plan reconstructs the value ---------------------------------------

  /** The lanes below `k` taken from `v`, the rest holding `fill`. */
  function Prefix(v: u64, k: nat, fill: Lane): (l: seq<Lane>)
    ensures |l| == 4
  {
    seq(4, j requires 0 <= j < 4 => if j < k then LaneOf(v, j) else fill)
  }

  /** The `movz` loop from lane `k`: once a lane has been written, the register
      holds the lanes of `v` below `k` and zeros above; before that, every lane
      of `v` below `k` is zero. Either way replay ends on `v`. */
  lemma {:induction false} MovzFromReplays(v: u64, k: nat, op: WideOp, reg: u64)
    requires k <= 4 && v != 0 && op != Movn
    requires op == Movk ==> LanesOf(reg) == Prefix(v, k, 0)
    requires op == Movz ==> forall j :: 0 <= j < k ==> LaneOf(v, j) == 0
    ensures Replay(reg, MovzFrom(v, k, op)) == v
    decreases 4 - k
  {
    if k == 4 {
      if op == Movz {
        assert LanesOf(v) == Filled(0);
        UniformValues(v);
        assert false;
      }
      assert Prefix(v, 4, 0) == LanesOf(v);
      LanesDetermineValue(reg, v);
    } else if LaneOf(v, k) != 0 {
      var m := Wide(op, LaneOf(v, k), k);
      var next := Step(reg, m);
      MovzStep(v, k, op, reg);
      MovzFromReplays(v, k + 1, Movk, next);
      assert MovzFrom(v, k, op) == [m] + MovzFrom(v, k + 1, Movk);
      assert ([m] + MovzFrom(v, k + 1, Movk))[1..] == MovzFrom(v, k + 1, Movk);
    } else {
      if op == Movk {
        assert Prefix(v, k, 0) == Prefix(v, k + 1, 0);
      }
      MovzFromReplays(v, k + 1, op, reg);
    }
  }

  /** One step of the `movz` loop extends the prefix of `v` the register holds. */
  lemma MovzStep(v: u64, k: LaneIndex, op: WideOp, reg: u64)
    requires op != Movn
    requires op == Movk ==> LanesOf(reg) == Prefix(v, k, 0)
    requires op == Movz ==> forall j :: 0 <= j < k ==> LaneOf(v, j) == 0
    ensures LanesOf(Step(reg, Wide(op, LaneOf(v, k), k))) == Prefix(v, k + 1, 0)
  {
    StepLanes(reg, LaneOf(v, k), k);
  }

  /** One step of the `movn` loop extends the prefix of `v` the register holds. */
  lemma MovnStep(v: u64, k: LaneIndex, first: bool, reg: u64)
    requires !first ==> LanesOf(reg) == Prefix(v, k, 0xffff)
    requires first ==> forall j :: 0 <= j < k ==> LaneOf(v, j) == 0xffff
    ensures var m := if first then Wide(Movn, NotLane(LaneOf(v, k)), k) else Wide(Movk, LaneOf(v, k), k);
      LanesOf(Step(reg, m)) == Prefix(v, k + 1, 0xffff)
  {
    var x := LaneOf(v, k);
    if first {
      assert LanesOf(Step(reg, Wide(Movn, NotLane(x), k))) == Filled(0xffff)[k := x] by {
        StepLanes(reg, NotLane(x), k);
      }
      assert Filled(0xffff)[k := x] == Prefix(v, k + 1, 0xffff);
    } else {
      assert LanesOf(Step(reg, Wide(Movk, x, k))) == Prefix(v, k, 0xffff)[k := x] by {
        StepLanes(reg, x, k);
      }
      assert Prefix(v, k, 0xffff)[k := x] == Prefix(v, k + 1, 0xffff);
    }
  }

  /** The `movn` loop from lane `k`: once a lane has been written, the register
      holds the lanes of `v` below `k` and all-ones above; before that, every
      lane of `v` below `k` is 0xffff. Either way replay ends on `v`. */
  lemma {:induction false} MovnFromReplays(v: u64, k: nat, first: bool, reg: u64)
    requires k <= 4 && v != ALL_ONES
    requires !first ==> LanesOf(reg) == Prefix(v, k, 0xffff)
    requires first ==> forall j :: 0 <= j < k ==> LaneOf(v, j) == 0xffff
    ensures Replay(reg, MovnFrom(v, k, first)) == v
    decreases 4 - k
  {
    if k == 4 {
      if first {
        assert LanesOf(v) == Filled(0xffff);
        UniformValues(v);
        assert false;
      }
      assert Prefix(v, 4, 0xffff) == LanesOf(v);
      LanesDetermineValue(reg, v);
    } else if LaneOf(v, k) != 0xffff {
      var m := if first then Wide(Movn, NotLane(LaneOf(v, k)), k) else Wide(Movk, LaneOf(v, k), k);
      var next := Step(reg, m);
      MovnStep(v, k, first, reg);
      MovnFromReplays(v, k + 1, false, next);
      assert MovnFrom(v, k, first) == [m] + MovnFrom(v, k + 1, false);
      assert ([m] + MovnFrom(v, k + 1, false))[1..] == MovnFrom(v, k + 1, false);
    } else {
      if !first {
        assert Prefix(v, k, 0xffff) == Prefix(v, k + 1, 0xffff);
      }
      MovnFromReplays(v, k + 1, first, reg);
    }
  }

  /** Whatever the register held before, replaying the plan leaves exactly `v` in it. */
  lemma PlanReplays(v: u64, reg: u64)
    ensures Replay(reg, Plan(v)) == v
  {
    if v == 0 || ToInt64(v) == -1 {
      assert Plan(v) == [Plain(ToInt64(v))];
      assert Plan(v)[1..] == [];
      ConversionsInverse(v, 0);
    } else if ZBased(v) <= NBased(v) {
      MovzFromReplays(v, 0, Movz, reg);
    } else {
      MovnFromReplays(v, 0, true, reg);
    }
  }

  // ----- the shape and length of the plan ----------------------------------------

  /** The lane of every move-wide in `ms` is at least `k`, and they increase strictly. */
  predicate LanesAscendFrom(ms: seq<Mov>, k: nat) {
    && (forall i :: 0 <= i < |ms| ==> ms[i].Wide? && k <= ms[i].lane)
    && (forall i, j :: 0 <= i < j < |ms| ==> ms[i].lane < ms[j].lane)
  }

  /** A move-wide plan: a `movz` or `movn` first, then only `movk`s, lanes ascending. */
  predicate WideShape(ms: seq<Mov>) {
    && |ms| >= 1
    && LanesAscendFrom(ms, 0)
    && ms[0].op != Movk
    && forall i :: 1 <= i < |ms| ==> ms[i].op == Movk
  }

  lemma {:induction false} MovzFromShape(v: u64, k: nat, op: WideOp)
    requires k <= 4 && op != Movn
    ensures |MovzFrom(v, k, op)| == LanesOtherThan(v, 0, k)
    ensures LanesAscendFrom(MovzFrom(v, k, op), k)
    ensures forall i :: 0 <= i < |MovzFrom(v, k, op)| ==> MovzFrom(v, k, op)[i].op == (if i == 0 then op else Movk)
    decreases 4 - k
  {
    if k < 4 {
      if LaneOf(v, k) != 0 {
        var m := Wide(op, LaneOf(v, k), k);
        var rest := MovzFrom(v, k + 1, Movk);
        MovzFromShape(v, k + 1, Movk);
        assert MovzFrom(v, k, op) == [m] + rest;
        ConsAscends(m, rest, k);
      } else {
        MovzFromShape(v, k + 1, op);
        assert MovzFrom(v, k, op) == MovzFrom(v, k + 1, op);
      }
    }
  }

  /** A move on lane `k` in front of moves on lanes above `k`. */
  lemma ConsAscends(m: Mov, rest: seq<Mov>, k: LaneIndex)
    requires m.Wide? && m.lane == k && LanesAscendFrom(rest, k + 1)
    requires forall i :: 0 <= i < |rest| ==> rest[i].op == Movk
    ensures LanesAscendFrom([m] + rest, k)
    ensures forall i :: 0 <= i < |[m] + rest| ==> ([m] + rest)[i].op == (if i == 0 then m.op else Movk)
  {
  }

  lemma {:induction false} MovnFromShape(v: u64, k: nat, first: bool)
    requires k <= 4
    ensures |MovnFrom(v, k, first)| == LanesOtherThan(v, 0xffff, k)
    ensures LanesAscendFrom(MovnFrom(v, k, first), k)
    ensures forall i :: 0 <= i < |MovnFrom(v, k, first)| ==>
      MovnFrom(v, k, first)[i].op == (if i == 0 && first then Movn else Movk)
    decreases 4 - k
  {
    if k < 4 {
      if LaneOf(v, k) != 0xffff {
        MovnFromShape(v, k + 1, false);
      } else {
        MovnFromShape(v, k + 1, first);
      }
    }
  }

  /** The plan for 0 and all-ones is a single plain `mov`; any other value gets
      between one and four move-wide instructions, as many as the cheaper start
      needs, shaped as `movz`/`movn` followed by `movk`s on ascending lanes.
      The `movz` start is used exactly when it needs no more lanes. */
  lemma PlanShape(v: u64)
    ensures v == 0 || ToInt64(v) == -1 ==> Plan(v) == [Plain(ToInt64(v))]
    ensures v != 0 && ToInt64(v) != -1 ==>
      && WideShape(Plan(v))
      && 1 <= |Plan(v)| <= 4
      && |Plan(v)| == (if ZBased(v) <= NBased(v) then ZBased(v) else NBased(v))
      && (Plan(v)[0].op == Movz <==> ZBased(v) <= NBased(v))
  {
    if v != 0 && ToInt64(v) != -1 {
      SpecialValues(v);
      MovzFromShape(v, 0, Movz);
      MovnFromShape(v, 0, true);
    }
  }

  /** Every lane is nonzero or not all-ones, so the two counts together cover
      at least four lanes. */
  lemma CountsCoverLanes(v: u64)
    ensures ZBased(v) + NBased(v) >= 4
  {
  }

  // ----- the loops as the source writes them -----------------------------------------

  /** The counting loop of `MoveImm64`, over bit offsets 0, 16, 32, 48. */
  method CountLanes(v: u64) returns (zbased: nat, nbased: nat)
    ensures zbased == ZBased(v) && nbased == NBased(v)
    ensures zbased + nbased >= 4
  {
    zbased, nbased := 0, 0;
    var i := 0;
    while i < 64
      invariant 0 <= i <= 64 && i % 16 == 0
      invariant zbased + LanesOtherThan(v, 0, i / 16) == ZBased(v)
      invariant nbased + LanesOtherThan(v, 0xffff, i / 16) == NBased(v)
      invariant zbased + nbased >= i / 16
    {
      var lane := ShiftLanes(v, i / 16) % LANE_SIZE;
      if lane != 0 {
        zbased := zbased + 1;
      }
      if lane != 0xffff {
        nbased := nbased + 1;
      }
      i := i + 16;
    }
  }

  /** The emitting loops of `MoveImm64`, with `op` and `first` carried across
      iterations as the source does, producing the instructions in order. */
  method EmitLoops(v: u64) returns (ms: seq<Mov>)
    ensures ms == Plan(v)
  {
    if v == 0 || ToInt64(v) == -1 {
      return [Plain(ToInt64(v))];
    }
    var zbased, nbased := CountLanes(v);
    if zbased <= nbased {
      ms := MovzLoop(v);
    } else {
      ms := MovnLoop(v);
    }
  }

  /** The `movz` loop: `op` starts as `movz` and becomes `movk` after the first write. */
  method MovzLoop(v: u64) returns (ms: seq<Mov>)
    ensures ms == MovzFrom(v, 0, Movz)
  {
    ms := [];
    var op := Movz;
    var k := 0;
    while k < 4
      invariant 0 <= k <= 4 && op != Movn
      invariant ms + MovzFrom(v, k, op) == MovzFrom(v, 0, Movz)
    {
      var lane := LaneOf(v, k);
      if lane != 0 {
        assert MovzFrom(v, k, op) == [Wide(op, lane, k)] + MovzFrom(v, k + 1, Movk);
        AppendAssoc(ms, [Wide(op, lane, k)], MovzFrom(v, k + 1, Movk));
        ms := ms + [Wide(op, lane, k)];
        op := Movk;
      }
      k := k + 1;
    }
    assert MovzFrom(v, 4, op) == [];
  }

  /** The `movn` loop: the first lane written is a `movn` of its complement. */
  method MovnLoop(v: u64) returns (ms: seq<Mov>)
    ensures ms == MovnFrom(v, 0, true)
  {
    ms := [];
    var first := true;
    var k := 0;
    while k < 4
      invariant 0 <= k <= 4
      invariant ms + MovnFrom(v, k, first) == MovnFrom(v, 0, true)
    {
      var lane := LaneOf(v, k);
      if lane != 0xffff {
        var m := if first then Wide(Movn, NotLane(lane), k) else Wide(Movk, lane, k);
        assert MovnFrom(v, k, first) == [m] + MovnFrom(v, k + 1, false);
        AppendAssoc(ms, [m], MovnFrom(v, k + 1, false));
        ms := ms + [m];
        first := false;
      }
      k := k + 1;
    }
    assert MovnFrom(v, 4, first) == [];
  }

  lemma AppendAssoc(a: seq<Mov>, b: seq<Mov>, c: seq<Mov>)
    ensures a + b + c == a + (b + c)
  {
  }
}
