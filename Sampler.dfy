/**
 * The accelerometer batch handler (rc_handle_sampler) and the state it
 * keeps between batches: a slow and a fast smoothed vector, their
 * difference, the tilt zone, the time of the last cursor step and the
 * shutdown flag.
 */
module Sampler {
  import opened Smoothing
  import opened Tilt
  import opened Calculator
  import Keys

  /** THRESH_TIME: milliseconds between cursor moves. */
  const ThreshTime: int := 0
  /** The capacities rc_create_calculator gives the smoothers. */
  const FastSize: int := 4
  const SlowSize: int := 64
  const U64: int := 0x1_0000_0000_0000_0000

  /** Subtraction of uint64_t values, which wraps around. */
  function Wrap64Sub(a: int, b: int): (d: int)
    ensures 0 <= d < U64
  {
    (a - b) % U64
  }

  /** The uint64 difference a - b is a - b, or a - b + 2^64 when b is larger. */
  lemma Wrap64SubValue(a: int, b: int)
    requires 0 <= a < U64 && 0 <= b < U64
    ensures Wrap64Sub(a, b) == if a >= b then a - b else a - b + U64
  {
    if a < b {
      assert a - b + U64 == (a - b) + 1 * U64;
      assert 0 <= a - b + U64 < U64;
    }
  }

  /** With no threshold, the cursor moves on every batch whose last timestamp differs from the last move's. */
  lemma MovesExactlyOnNewTimestamp(a: int, b: int)
    requires 0 <= a < U64 && 0 <= b < U64
    ensures Wrap64Sub(a, b) > ThreshTime <==> a != b
  {
    Wrap64SubValue(a, b);
  }

  /** The difference of the fast and slow means per axis: update_vdiff. */
  function Difference(fx: int, fy: int, fz: int, sx: int, sy: int, sz: int): (v: Vector3)
    ensures v.x == fx - sx && v.y == fy - sy && v.z == fz - sz
  {
    Vector3(fx - sx, fy - sy, fz - sz)
  }

  class Device {
    const slow: SmoothVector3
    const fast: SmoothVector3
    const calculator: Calc
    var vdiff: Vector3
    var tilt: int
    var tiltTime: int
    var shutdown: bool

    /** The two smoothers: valid, disjoint, of capacities 64 and 4, and apart from the handler. */
    ghost predicate Smoothed()
      reads this, slow, slow.Repr, fast, fast.Repr
    {
      slow.Valid() && fast.Valid() && slow.Repr !! fast.Repr
      && this !in slow.Repr + fast.Repr
      && slow !in slow.Repr + fast.Repr && fast !in slow.Repr + fast.Repr
      && slow.sx.size == SlowSize && fast.sx.size == FastSize
    }

    ghost predicate Valid()
      reads this, slow, slow.Repr, fast, fast.Repr, calculator, calculator.buttonset
    {
      Smoothed() && calculator.Valid()
      && calculator !in slow.Repr + fast.Repr && calculator.buttonset !in slow.Repr + fast.Repr
      && 0 <= tiltTime < U64
    }

    /** The means the tilt is taken from: fast minus slow, per axis. */
    ghost function Means(): Vector3
      reads slow, slow.Repr, fast, fast.Repr
      requires slow.Valid() && fast.Valid()
    {
      Difference(fast.sx.Mean(), fast.sy.Mean(), fast.sz.Mean(),
                 slow.sx.Mean(), slow.sy.Mean(), slow.sz.Mean())
    }

    /** The handler's state after start-up: empty smoothers of 4 and 64, zero tilt and time, running. */
    constructor ()
      ensures Valid() && fresh(slow.Repr) && fresh(fast.Repr) && fresh(calculator)
      ensures !shutdown && tilt == 0 && tiltTime == 0 && vdiff == Vector3(0, 0, 0)
      ensures slow.Seen() == History([], [], []) && fast.Seen() == History([], [], [])
      ensures calculator.Current() == Initial && calculator.curX == Keys.GridX && calculator.curY == Keys.GridY
    {
      fast := new SmoothVector3(FastSize);
      slow := new SmoothVector3(SlowSize);
      calculator := new Calc();
      vdiff := Vector3(0, 0, 0);
      tilt := 0;
      tiltTime := 0;
      shutdown := false;
    }

    /** update_vdiff and update_tilt: the difference of the means and its zone. */
    method UpdateTilt()
      requires Valid()
      modifies this
      ensures Valid() && vdiff == Means() && tilt == Zone(vdiff)
      ensures tiltTime == old(tiltTime) && shutdown == old(shutdown)
      ensures slow.Seen() == old(slow.Seen()) && fast.Seen() == old(fast.Seen())
    {
      vdiff := Vector3(fast.sx.Mean() - slow.sx.Mean(),
                       fast.sy.Mean() - slow.sy.Mean(),
                       fast.sz.Mean() - slow.sz.Mean());
      tilt := Zone(vdiff);
    }

    /**
     * rc_handle_sampler: nothing once shut down; otherwise feed the batch
     * to the slow and then the fast smoother, classify the tilt, and step
     * the cursor when the batch's last timestamp is past the last step's.
     */
    method HandleSampler(data: seq<AccelSample>)
      requires Valid() && |data| > 0 && 0 <= data[|data| - 1].timestamp < U64
      modifies this, slow.Repr, fast.Repr, calculator
      ensures Valid() && shutdown == old(shutdown)
      ensures calculator.Current() == old(calculator.Current())
      ensures old(shutdown) ==> vdiff == old(vdiff) && tilt == old(tilt) && tiltTime == old(tiltTime)
      ensures old(shutdown) ==> slow.Seen() == old(slow.Seen()) && fast.Seen() == old(fast.Seen())
      ensures old(shutdown) ==> (calculator.curX, calculator.curY) == old((calculator.curX, calculator.curY))
      ensures !old(shutdown) ==> slow.Seen() == Grown(old(slow.Seen()), data) && fast.Seen() == Grown(old(fast.Seen()), data)
      ensures !old(shutdown) ==> vdiff == Means() && tilt == Zone(vdiff)
      ensures !old(shutdown) && Wrap64Sub(data[|data| - 1].timestamp, old(tiltTime)) > ThreshTime ==>
                tiltTime == data[|data| - 1].timestamp
                && (calculator.curX, calculator.curY) == CursorTarget(old(calculator.curX), old(calculator.curY), tilt)
      ensures !old(shutdown) && Wrap64Sub(data[|data| - 1].timestamp, old(tiltTime)) <= ThreshTime ==>
                tiltTime == old(tiltTime) && (calculator.curX, calculator.curY) == old((calculator.curX, calculator.curY))
    {
      if !shutdown {
        Process(data, data[|data| - 1].timestamp);
      }
    }

    /** The handler's work on a running device, for a batch whose last timestamp is time. */
    method Process(data: seq<AccelSample>, time: int)
      requires Valid() && 0 <= time < U64
      modifies this, slow.Repr, fast.Repr, calculator
      ensures Valid() && shutdown == old(shutdown)
      ensures calculator.Current() == old(calculator.Current())
      ensures slow.Seen() == Grown(old(slow.Seen()), data) && fast.Seen() == Grown(old(fast.Seen()), data)
      ensures vdiff == Means() && tilt == Zone(vdiff)
      ensures Wrap64Sub(time, old(tiltTime)) > ThreshTime ==>
                tiltTime == time && (calculator.curX, calculator.curY) == CursorTarget(old(calculator.curX), old(calculator.curY), tilt)
      ensures Wrap64Sub(time, old(tiltTime)) <= ThreshTime ==>
                tiltTime == old(tiltTime) && (calculator.curX, calculator.curY) == old((calculator.curX, calculator.curY))
    {
      Feed(data);
      UpdateTilt();
      StepCursor(time);
    }

    /** Both smoothers take the whole batch, the slow one first. */
    method Feed(data: seq<AccelSample>)
      requires Valid()
      modifies slow.Repr, fast.Repr
      ensures Valid()
      ensures slow.Seen() == Grown(old(slow.Seen()), data) && fast.Seen() == Grown(old(fast.Seen()), data)
      ensures calculator.Current() == old(calculator.Current())
      ensures (calculator.curX, calculator.curY) == old((calculator.curX, calculator.curY))
    {
      slow.UpdateBatch(data);
      fast.UpdateBatch(data);
    }

    /** The cursor steps towards the tilt when the batch is newer than the last step, which it then records. */
    method StepCursor(time: int)
      requires Valid() && 0 <= time < U64
      modifies this, calculator
      ensures Valid() && vdiff == old(vdiff) && tilt == old(tilt) && shutdown == old(shutdown)
      ensures Means() == old(Means()) && slow.Seen() == old(slow.Seen()) && fast.Seen() == old(fast.Seen())
      ensures Wrap64Sub(time, old(tiltTime)) > ThreshTime ==>
                tiltTime == time && (calculator.curX, calculator.curY) == CursorTarget(old(calculator.curX), old(calculator.curY), tilt)
      ensures Wrap64Sub(time, old(tiltTime)) <= ThreshTime ==>
                tiltTime == old(tiltTime) && (calculator.curX, calculator.curY) == old((calculator.curX, calculator.curY))
      ensures calculator.Current() == old(calculator.Current())
    {
      if Wrap64Sub(time, tiltTime) > ThreshTime {
        var _ := calculator.UpdateCursor(tilt);
        tiltTime := time;
      }
    }

    /** The first step of rc_destroy_calculator: later batches are ignored. */
    method Shutdown()
      modifies this
      ensures shutdown && vdiff == old(vdiff) && tilt == old(tilt) && tiltTime == old(tiltTime)
    {
      shutdown := true;
    }
  }
}
