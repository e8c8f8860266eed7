/** The matrix multiplier in the RTL's form: the skew chain, the cell grid and the FSM updated at each clock edge. */
module GemmEngine {
  import opened Words
  import opened Gemm

  /** data_skew: seven pipeline stages behind one input. */
  class DataSkew {
    var p0: Int8
    var p1: Int8
    var p2: Int8
    var p3: Int8
    var p4: Int8
    var p5: Int8
    var p6: Int8

    function Contents(): Chain
      reads this
    {
      var stages: seq<Int8> := [p0, p1, p2, p3, p4, p5, p6];
      stages
    }

    constructor ()
      ensures Contents() == [0, 0, 0, 0, 0, 0, 0]
    {
      p0, p1, p2, p3, p4, p5, p6 := 0, 0, 0, 0, 0, 0, 0;
    }

    method Edge(data: Int8)
      modifies this
      ensures Contents() == Shifted(data, old(Contents()))
    {
      p0, p1, p2, p3, p4, p5, p6 := data, p0, p1, p2, p3, p4, p5;
    }
  }

  /** systolic_array: the weight and accumulator registers of the 64 cells. */
  class SystolicArray {
    const w: array<Int8>
    const acc: array<Int32>

    ghost predicate Valid() {
      w.Length == 64 && acc.Length == 64
    }

    ghost function Weights(): Grid8
      requires Valid()
      reads w
    {
      w[..]
    }

    ghost function Sums(): Grid
      requires Valid()
      reads acc
    {
      acc[..]
    }

    constructor ()
      ensures Valid() && fresh(w) && fresh(acc)
      ensures Weights() == seq(64, _ => 0) && Sums() == seq(64, _ => 0)
    {
      w := new Int8[64](_ => 0);
      acc := new Int32[64](_ => 0);
    }

    method SetWeight(addr: nat, value: Int8)
      requires Valid() && addr < 64
      modifies w
      ensures Weights() == old(Weights())[addr := value]
    {
      w[addr] := value;
    }

    method Edge(clr: bool, en: bool, a: seq<Int8>)
      requires Valid() && |a| == 8
      modifies acc
      ensures Sums() == if clr then seq(64, _ => 0) else if en then Accumulated(old(Sums()), a, Weights()) else old(Sums())
    {
      hide Mac;
      if clr {
        for i := 0 to 64
          invariant forall j :: 0 <= j < i ==> acc[j] == 0
        {
          acc[i] := 0;
        }
      } else if en {
        for i := 0 to 64
          invariant forall j :: 0 <= j < i ==> acc[j] == Mac(old(acc[j]), a[j / 8], w[j])
          invariant forall j :: i <= j < 64 ==> acc[j] == old(acc[j])
        {
          acc[i] := Mac(acc[i], a[i / 8], w[i]);
        }
      }
    }

    /** result_drain: the chained adders of column n. */
    method Drained(n: nat) returns (sum: int)
      requires Valid() && n < 8
      ensures sum == Drain(Sums(), n, 8)
    {
      hide Sum32;
      sum := acc[n];
      assert sum == Drain(Sums(), n, 1) by { FirstTerm(acc[n]); }
      for k := 1 to 8
        invariant sum == Drain(Sums(), n, k)
      {
        sum := Sum32(sum, acc[8 * k + n]);
      }
    }
  }

  lemma FirstTerm(x: Int32)
    ensures Sum32(0, x) == x
  {
  }

  class Engine {
    const rowBuf: array<Int8>
    const skew: DataSkew
    const grid: SystolicArray
    var src: Word
    var dst: Word
    var matM: Int4
    var matK: Int4
    var matN: Int4
    var weightAddr: int
    var phase: Phase
    var busy: bool
    var done: bool
    var m: Int4
    var k: Int4
    var n: Int4

    ghost predicate Valid()
      reads this
    {
      rowBuf.Length == 8 && grid.Valid() && rowBuf != grid.w && 0 <= weightAddr < 64
    }

    ghost function Cfg(): Config
      requires Valid()
      reads this, grid.w
    {
      Config(src, dst, matM, matK, matN, grid.Weights())
    }

    ghost function Snapshot(): Regs
      requires Valid()
      reads this, rowBuf, skew, grid.acc
    {
      Regs(phase, busy, done, m, k, n, rowBuf[..], skew.Contents(), grid.Sums())
    }

    constructor ()
      ensures Valid() && fresh(rowBuf) && fresh(skew) && fresh(grid) && fresh(grid.w) && fresh(grid.acc)
      ensures phase.Idle? && !busy && !done
    {
      var g := new SystolicArray();
      var buf := new Int8[8](_ => 0);
      rowBuf, grid := buf, g;
      skew := new DataSkew();
      src, dst, matM, matK, matN, weightAddr := 0, 0, 8, 8, 8, 0;
      phase, busy, done, m, k, n := Idle, false, false, 0, 0, 0;
    }

    /** Writes of WEIGHT_ADDR and then WEIGHT_DATA. */
    method LoadWeight(addr: Word, value: Word)
      requires Valid()
      modifies this`weightAddr, grid.w
      ensures Valid() && Snapshot() == old(Snapshot())
      ensures Cfg() == old(Cfg()).(weights := old(Cfg()).weights[addr % 64 := S8(value)])
      ensures (Cfg().weights[addr % 64] - value) % 0x100 == 0
    {
      LowByte(value, 0);
      hide S8;
      weightAddr := addr % 64;
      grid.SetWeight(weightAddr, S8(value));
    }

    /** A write of CTRL.GO that finds the engine idle. */
    method WriteGo()
      requires Valid() && phase.Idle? && !busy
      modifies this
      ensures Valid() && Cfg() == old(Cfg()) && Snapshot() == Go(old(Snapshot()))
    {
      phase, busy, done := ComputeClr, true, false;
      m, k, n := 0, 0, 0;
    }

    /** What the engine drives on the DMA port. */
    method Dma() returns (req: Option<Request>)
      requires Valid()
      ensures req == DmaRequest(Cfg(), Snapshot())
    {
      hide U32, Cell;
      match phase {
        case RdReq => req := Some(Request(U32(src + 4 * Cell(m, k, matK)), false, 0));
        case WrReq =>
          var sum := grid.Drained(n % 8);
          req := Some(Request(U32(dst + 4 * Cell(m, n, matN)), true, U32(sum)));
        case _ => req := None;
      }
    }

    /** One rising edge. */
    method Clock(gnt: bool, rvalid: bool, rdata: Word)
      requires Valid()
      modifies this, rowBuf, skew, grid.acc
      ensures Valid() && Cfg() == old(Cfg())
      ensures Snapshot() == Gemm.Clock(Cfg(), old(Snapshot()), gnt, rvalid, rdata)
    {
      hide Gemm.Control, Accumulated, Shifted, S8;
      var idx := 7 - k % 8;
      var skewIn := if phase.SkewFeed? && idx < matK then rowBuf[idx] else 0;
      var a := SkewOut(skewIn, skew.Contents());
      var clr, en, load, slot := phase.ComputeClr?, phase.SkewFeed? && k == 7, phase.RdWait? && rvalid, k % 8;
      Fsm(gnt, rvalid);
      grid.Edge(clr, en, a);
      skew.Edge(skewIn);
      if load {
        rowBuf[slot] := S8(rdata);
      }
    }

    method Fsm(gnt: bool, rvalid: bool)
      requires Valid()
      modifies this
      ensures Valid() && Cfg() == old(Cfg())
      ensures Snapshot() == Gemm.Control(Cfg(), old(Snapshot()), gnt, rvalid)
    {
      match phase {
        case Idle =>
        case ComputeClr =>
          phase, k, n := RdReq, 0, 0;
        case RdReq => if gnt { phase := RdWait; }
        case RdWait =>
          if rvalid {
            if k == Dec4(matK) {
              phase, k := SkewFeed, 0;
            } else {
              phase, k := RdReq, Inc4(k);
            }
          }
        case SkewFeed =>
          if k == 7 {
            phase, k := WrReq, 0;
          } else {
            k := Inc4(k);
          }
        case WrReq => if gnt { phase := WrWait; }
        case WrWait =>
          if rvalid {
            RowOrColumnDone();
          }
      }
    }

    method RowOrColumnDone()
      requires Valid() && phase.WrWait?
      modifies this
      ensures Valid() && Cfg() == old(Cfg())
      ensures Snapshot() == Gemm.Control(Cfg(), old(Snapshot()), false, true)
    {
      if n != Dec4(matN) {
        phase, n := WrReq, Inc4(n);
      } else {
        n := 0;
        if m != Dec4(matM) {
          phase, m := ComputeClr, Inc4(m);
        } else {
          phase, busy, done := Idle, false, true;
        }
      }
    }
  }
}
