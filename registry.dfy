/**
 * The program state: the list of gears, the next id to hand out, the
 * running flag and the time of the last frame, with the operations the
 * user interface performs on it.
 */
module Registry {
  import opened Gears
  import opened Placement
  import opened Physics

  /** Longest step the frame loop simulates, in seconds. */
  const MaxDt: real := 0.05

  /** The editor's lower bounds on diameter and tooth count. */
  const MinDiameter: real := 8.0
  const MinTeeth: int := 4

  /** The gear list is consistent with id counter `nextId`: ids are distinct
      and below it, sizes respect the editor's bounds, and at most one gear
      is a driver. */
  ghost predicate Consistent(gs: seq<Gear>, nextId: int)
  {
    (forall i :: 0 <= i < |gs| ==>
       gs[i].id < nextId && MinDiameter <= gs[i].diameter && MinTeeth <= gs[i].teeth)
    && (forall i, j :: 0 <= i < j < |gs| ==> gs[i].id != gs[j].id)
    && (forall i, j :: 0 <= i < j < |gs| && gs[i].isDriver ==> !gs[j].isDriver)
  }

  /** A tick keeps the list consistent: it only moves the motion fields. */
  lemma TickKeepsConsistent(gs: seq<Gear>, gs': seq<Gear>, dt: real, nextId: int)
    requires Consistent(gs, nextId) && IsTick(gs, gs', dt)
    ensures Consistent(gs', nextId)
  {
    forall i, j | 0 <= i < j < |gs'|
      ensures gs'[i].id != gs'[j].id
      ensures gs'[i].isDriver ==> !gs'[j].isDriver
    {
      assert SameBody(gs[i], gs'[i]) && SameBody(gs[j], gs'[j]);
    }
  }

  /** Seconds since the last frame (timestamps in milliseconds), capped at `MaxDt`. */
  function FrameDt(now: real, last: real): (dt: real)
    ensures dt <= MaxDt
    ensures dt == MaxDt || dt == (now - last) / 1000.0
    ensures (now - last) / 1000.0 <= MaxDt ==> dt == (now - last) / 1000.0
  {
    Min(MaxDt, (now - last) / 1000.0)
  }

  /** The frame time: the timestamp handed to the frame, unless it is
      missing or 0, in which case the clock reading. */
  function Stamp(ts: Option<real>, clock: real): (t: real)
    ensures ts.Some? && ts.value != 0.0 ==> t == ts.value
    ensures ts.None? || ts.value == 0.0 ==> t == clock
  {
    if ts.Some? && ts.value != 0.0 then ts.value else clock
  }

  /** The gear that `addGearAt` appends: fresh id, default size, at rest, not a driver. */
  function NewGear(id: int, p: (real, real)): (g: Gear)
    ensures g.id == id && g.x == p.0 && g.y == p.1
    ensures g.diameter == NewDiameter && g.teeth == NewTeeth
    ensures g.angle == 0.0 && g.omega == 0.0 && g.rpm == 0.0 && !g.isDriver
  {
    Gear(id, p.0, p.1, NewDiameter, NewTeeth, 0.0, 0.0, 0.0, false)
  }

  /** Appending a gear with a fresh id keeps the list consistent with the next counter. */
  lemma AppendKeepsConsistent(gs: seq<Gear>, nextId: int, p: (real, real))
    requires Consistent(gs, nextId)
    ensures Consistent(gs + [NewGear(nextId, p)], nextId + 1)
  {
    var gs' := gs + [NewGear(nextId, p)];
    forall i, j | 0 <= i < j < |gs'|
      ensures gs'[i].id != gs'[j].id
      ensures gs'[i].isDriver ==> !gs'[j].isDriver
    {
      if j == |gs| {
        assert gs'[i] == gs[i];
      } else {
        assert gs'[i] == gs[i] && gs'[j] == gs[j];
      }
    }
  }

  /** The inspected gear after the save handler: the driver flag as asked,
      the rpm as typed for a driver and 0 otherwise, the diameter floored at
      8 and the tooth count rounded and floored at 4. */
  function Edited(g: Gear, wantDriver: bool, rpmIn: real, diameterIn: real, teethIn: real): (e: Gear)
    ensures e.id == g.id && e.x == g.x && e.y == g.y
    ensures e.angle == g.angle && e.omega == g.omega
    ensures e.isDriver == wantDriver
    ensures e.rpm == (if wantDriver then rpmIn else 0.0)
    ensures MinDiameter <= e.diameter && (MinDiameter <= diameterIn ==> e.diameter == diameterIn)
    ensures diameterIn < MinDiameter ==> e.diameter == MinDiameter
    ensures MinTeeth <= e.teeth
    ensures teethIn < MinTeeth as real - 0.5 ==> e.teeth == MinTeeth
    ensures MinTeeth as real - 0.5 <= teethIn ==> e.teeth as real - 0.5 <= teethIn < e.teeth as real + 0.5
  {
    g.(isDriver := wantDriver,
       rpm := if wantDriver then rpmIn else 0.0,
       diameter := Max(MinDiameter, diameterIn),
       teeth := MaxInt(MinTeeth, Round(teethIn)))
  }

  /** The save handler's loop when the driver box is checked: every gear but
      `k` stops being a driver. */
  method ClearOtherDrivers(gs: seq<Gear>, k: nat) returns (gs': seq<Gear>)
    requires k < |gs|
    ensures |gs'| == |gs| && gs'[k] == gs[k]
    ensures forall i :: 0 <= i < |gs| && i != k ==> gs'[i] == gs[i].(isDriver := false)
  {
    gs' := [];
    var i := 0;
    while i < |gs|
      invariant 0 <= i <= |gs| && |gs'| == i
      invariant forall j :: 0 <= j < i && j != k ==> gs'[j] == gs[j].(isDriver := false)
      invariant k < i ==> gs'[k] == gs[k]
    {
      if i != k {
        gs' := gs' + [gs[i].(isDriver := false)];
      } else {
        gs' := gs' + [gs[i]];
      }
      i := i + 1;
    }
  }

  /** The list after the save handler for gear `k`. */
  function Saved(gs: seq<Gear>, k: nat, others: seq<Gear>, wantDriver: bool,
                 rpmIn: real, diameterIn: real, teethIn: real): seq<Gear>
    requires k < |gs| && |others| == |gs|
  {
    others[k := Edited(gs[k], wantDriver, rpmIn, diameterIn, teethIn)]
  }

  /** The save handler keeps the list consistent; with the driver box checked,
      gear `k` is the only driver afterwards. */
  lemma SaveKeepsConsistent(gs: seq<Gear>, nextId: int, k: nat, others: seq<Gear>, wantDriver: bool,
                            rpmIn: real, diameterIn: real, teethIn: real)
    requires Consistent(gs, nextId) && k < |gs| && |others| == |gs|
    requires wantDriver ==> others[k] == gs[k]
    requires wantDriver ==> forall i :: 0 <= i < |gs| && i != k ==> others[i] == gs[i].(isDriver := false)
    requires !wantDriver ==> others == gs
    ensures Consistent(Saved(gs, k, others, wantDriver, rpmIn, diameterIn, teethIn), nextId)
    ensures wantDriver ==> forall i :: 0 <= i < |gs| ==>
              (Saved(gs, k, others, wantDriver, rpmIn, diameterIn, teethIn)[i].isDriver <==> i == k)
  {
    var gs' := Saved(gs, k, others, wantDriver, rpmIn, diameterIn, teethIn);
    forall i | 0 <= i < |gs| && i != k
      ensures gs'[i].id == gs[i].id && gs'[i].diameter == gs[i].diameter && gs'[i].teeth == gs[i].teeth
      ensures gs'[i].isDriver ==> gs[i].isDriver
      ensures wantDriver ==> !gs'[i].isDriver
    {
    }
    forall i, j | 0 <= i < j < |gs'|
      ensures gs'[i].id != gs'[j].id
      ensures gs'[i].isDriver ==> !gs'[j].isDriver
    {
    }
  }

  /** Removing gear `k` keeps the list consistent, and its id is gone. */
  lemma DeleteKeepsConsistent(gs: seq<Gear>, nextId: int, k: nat)
    requires Consistent(gs, nextId) && k < |gs|
    ensures Consistent(gs[..k] + gs[k + 1..], nextId)
    ensures forall g :: g in gs[..k] + gs[k + 1..] ==> g.id != gs[k].id
  {
    var gs' := gs[..k] + gs[k + 1..];
    assert forall i :: 0 <= i < k ==> gs'[i] == gs[i];
    assert forall i :: k <= i < |gs'| ==> gs'[i] == gs[i + 1];
  }

  /** Moving gear `k` keeps the list consistent. */
  lemma MoveKeepsConsistent(gs: seq<Gear>, nextId: int, k: nat, x: real, y: real)
    requires Consistent(gs, nextId) && k < |gs|
    ensures Consistent(gs[k := gs[k].(x := x, y := y)], nextId)
  {
  }

  /** The whole program state. */
  class GearSim {
    var gears: seq<Gear>
    var nextId: int
    var running: bool
    var lastTime: Option<real>

    ghost predicate Valid()
      reads this
    {
      Consistent(gears, nextId)
    }

    /** The state when the page loads: no gears, ids from 1, stopped, no frame yet. */
    constructor ()
      ensures Valid()
      ensures gears == [] && nextId == 1 && !running && lastTime == None
    {
      gears := [];
      nextId := 1;
      running := false;
      lastTime := None;
    }

    /**
     * Adds a gear asked for at (`x`, `y`) on a `w` by `h` canvas: clamped,
     * snapped when `snap`, nudged out of collisions at most `MaxAttempts`
     * times, then appended with the next id. `attempts` is the number of
     * nudges made.
     */
    method AddGearAt(x: real, y: real, snap: bool, w: real, h: real) returns (ghost attempts: nat)
      requires Valid()
      modifies this
      ensures Valid()
      ensures attempts <= MaxAttempts
      ensures var p := Nudged(StartPos(x, y, snap, w, h), w, h, attempts);
              gears == old(gears) + [NewGear(old(nextId), p)]
              && (attempts < MaxAttempts ==> !CollidesAny(old(gears), p))
      ensures forall a :: 0 <= a < attempts ==> CollidesAny(old(gears), Nudged(StartPos(x, y, snap, w, h), w, h, a))
      ensures nextId == old(nextId) + 1
      ensures running == old(running) && lastTime == old(lastTime)
    {
      var start := StartPos(x, y, snap, w, h);
      var p, n := ResolveOverlap(gears, start, w, h);
      attempts := n;
      AppendKeepsConsistent(gears, nextId, p);
      gears := gears + [NewGear(nextId, p)];
      nextId := nextId + 1;
    }

    /**
     * The end of a drag of gear `k`: if the nearest other gear is within
     * `SnapThreshold`, gear `k` is moved beside it so that the rims touch.
     * `sqrt` stands for the square root the distance computation uses.
     */
    method EndDrag(k: nat, sqrt: real -> real)
      requires Valid() && k < |gears| && IsSqrt(sqrt)
      modifies this
      ensures Valid()
      ensures |gears| == |old(gears)|
      ensures forall i :: 0 <= i < |gears| && i != k ==> gears[i] == old(gears)[i]
      ensures gears[k] == old(gears)[k].(x := gears[k].x, y := gears[k].y)
      ensures forall j: nat :: IsNearest(old(gears), k, j) && Dist2(old(gears)[k], old(gears)[j]) <= Sq(SnapThreshold) ==>
                (gears[k].x, gears[k].y)
                == SnapBeside(old(gears)[k], old(gears)[j], Distance(old(gears)[j], old(gears)[k], sqrt))
      ensures (forall j: nat :: IsNearest(old(gears), k, j) ==> Sq(SnapThreshold) < Dist2(old(gears)[k], old(gears)[j]))
                ==> gears == old(gears)
      ensures nextId == old(nextId) && running == old(running) && lastTime == old(lastTime)
    {
      var target := DropTarget(gears, k, sqrt);
      if target.Some? {
        MoveKeepsConsistent(gears, nextId, k, target.value.0, target.value.1);
        gears := gears[k := gears[k].(x := target.value.0, y := target.value.1)];
      }
    }

    /** The save handler for gear `k` with the editor's (numeric) inputs. */
    method Save(k: nat, wantDriver: bool, rpmIn: real, diameterIn: real, teethIn: real)
      requires Valid() && k < |gears|
      modifies this
      ensures Valid()
      ensures |gears| == |old(gears)|
      ensures gears[k] == Edited(old(gears)[k], wantDriver, rpmIn, diameterIn, teethIn)
      ensures wantDriver ==> forall i :: 0 <= i < |gears| ==> (gears[i].isDriver <==> i == k)
      ensures forall i :: 0 <= i < |gears| && i != k ==>
                gears[i] == if wantDriver then old(gears)[i].(isDriver := false) else old(gears)[i]
      ensures nextId == old(nextId) && running == old(running) && lastTime == old(lastTime)
    {
      var others := gears;
      if wantDriver {
        others := ClearOtherDrivers(gears, k);
      }
      SaveKeepsConsistent(gears, nextId, k, others, wantDriver, rpmIn, diameterIn, teethIn);
      gears := Saved(gears, k, others, wantDriver, rpmIn, diameterIn, teethIn);
    }

    /** The delete handler for gear `k`. */
    method Delete(k: nat)
      requires Valid() && k < |gears|
      modifies this
      ensures Valid()
      ensures gears == old(gears)[..k] + old(gears)[k + 1..]
      ensures forall i :: 0 <= i < |gears| ==> gears[i].id != old(gears)[k].id
      ensures nextId == old(nextId) && running == old(running) && lastTime == old(lastTime)
    {
      DeleteKeepsConsistent(gears, nextId, k);
      gears := gears[..k] + gears[k + 1..];
    }

    /** The start button: running from time `now` on. */
    method Start(now: real)
      requires Valid()
      modifies this
      ensures Valid()
      ensures running && lastTime == Some(now)
      ensures gears == old(gears) && nextId == old(nextId)
    {
      running := true;
      lastTime := Some(now);
    }

    /** The stop button. */
    method Stop()
      requires Valid()
      modifies this
      ensures Valid()
      ensures !running
      ensures gears == old(gears) && nextId == old(nextId) && lastTime == old(lastTime)
    {
      running := false;
    }

    /**
     * One animation frame with timestamp `ts` (`clock` is the clock reading
     * used when `ts` is missing or 0): the step length is the time since
     * the last frame, capped at `MaxDt`, and the gears advance by one tick
     * only while running.
     */
    method Frame(ts: Option<real>, clock: real) returns (dt: real)
      requires Valid()
      modifies this
      ensures Valid()
      ensures var now := Stamp(ts, clock);
              var last := if old(lastTime).None? || old(lastTime).value == 0.0 then now else old(lastTime).value;
              dt == FrameDt(now, last) && lastTime == Some(now)
      ensures dt <= MaxDt
      ensures old(running) ==> IsTick(old(gears), gears, dt)
      ensures !old(running) ==> gears == old(gears)
      ensures running == old(running) && nextId == old(nextId)
    {
      if lastTime.None? || lastTime.value == 0.0 {
        lastTime := Some(Stamp(ts, clock));
      }
      var now := Stamp(ts, clock);
      dt := FrameDt(now, lastTime.value);
      lastTime := Some(now);
      if running {
        var gs' := SimulatePhysics(gears, dt);
        TickKeepsConsistent(gears, gs', dt, nextId);
        gears := gs';
      }
    }
  }
}
