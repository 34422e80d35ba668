/**
  What one unit may expect of another is what the other one proves: the completion port gives the
  scheduler its exclusive write ports, renaming gives it registers that nobody waits for, and the reorder
  buffer gives the data cache its squash window (exec.sv, core.sv, l1d.sv).
 */
module Connections {
  import opened MemoryTypes
  import opened Bits
  import opened Rings
  import F = RegisterFile
  import R = Rename
  import RI = RenameInvariant
  import RT = RenameTheorems
  import RR = RenameRuns
  import P = IntegerPort
  import W = Wakeup
  import C = DataCache
  import CI = DataCacheInvariant

  // ---------------------------------------------------------------- completion port to scheduler

  /** The writers of the scheduler's input are the units of the port: the executing uop writes only as an
      ALU operation, the multiplier and the divider only when they complete. */
  ghost predicate WritersAreUnits(c: P.Config, p: P.State, s: W.State, i: W.Input)
    requires P.Shape(c, p)
  {
    && (s.start.Some? && (i.wrGpr || i.wrHilo) ==> P.AluDone(p))
    && (i.mulGpr.Some? || i.mulHilo.Some? ==> P.MulDone(c, p))
    && (i.div.Some? ==> P.DivDone(p))
  }

  /** In every run of the port the scheduler finds its write ports exclusive. */
  lemma PortIsExclusive(c: P.Config, p: P.State, ins: seq<P.Input>, s: W.State, i: W.Input)
    requires P.WellFormed(c) && P.Reset(c, p) && WritersAreUnits(c, P.Run(c, p, ins), s, i)
    ensures W.OnePort(s, i)
  {
    P.NeverCollides(c, p, ins);
  }

  // ---------------------------------------------------------------- renaming to scheduler

  /** Physical register p of class k is given to an entry that is allocated now. */
  ghost predicate GivenNow(c: R.Config, r: R.State, i: R.Input, k: R.Class, p: nat)
    requires R.WellFormed(c) && R.Shape(c, r) && R.InputShape(c, i)
  {
    var x := R.Comb(c, r, i);
    || (R.DestOf(x.a1, k).Some? && R.DestOf(x.a1, k).value.pdst == p)
    || (R.DestOf(x.a2, k).Some? && R.DestOf(x.a2, k).value.pdst == p)
  }

  /** p is the mapping of logical register l after the first j destinations of the live window. */
  ghost predicate MappedAt(c: R.Config, r: R.State, k: R.Class, p: nat, j: nat, l: nat)
    requires RI.Inv(c, r)
  {
    var ds := RI.Dests(RI.Window(c.robs, r.ring), k);
    && j <= |ds| && l < R.Regs(c, k) && R.FileShape(c, r.files, k) && RI.InRange(ds[..j], R.Regs(c, k))
    && F.Replay(R.FileOf(r.files, k).rrat, ds[..j])[l] == p
  }

  /** Some entry of the live window was, or could have been, renamed to read p. */
  ghost predicate LiveSource(c: R.Config, r: R.State, k: R.Class, src: Option<nat>)
    requires RI.Inv(c, r)
  {
    src.Some? ==> exists j, l :: MappedAt(c, r, k, src.value, j, l)
  }

  ghost predicate LiveUop(c: R.Config, r: R.State, u: W.Uop)
    requires RI.Inv(c, r)
  {
    && LiveSource(c, r, R.Gpr, u.srcA) && LiveSource(c, r, R.Gpr, u.srcB) && LiveSource(c, r, R.Gpr, u.srcC)
    && LiveSource(c, r, R.Hilo, W.HiloSrc(u)) && LiveSource(c, r, R.Fcr, W.FcrSrc(u))
  }

  lemma GivenWasFree(c: R.Config, r: R.State, i: R.Input, k: R.Class, p: nat)
    requires R.WellFormed(c) && RI.Inv(c, r) && RI.Protocol(c, r, i) && !RI.SerializeClash(c, r, i)
    requires GivenNow(c, r, i, k, p)
    ensures R.FileShape(c, r.files, k) && p < Pow2(R.Lg(c, k)) && R.FileOf(r.files, k).free[p]
  {
    RT.CombGood(c, r, i, k);
  }

  lemma LiveIsTaken(c: R.Config, r: R.State, k: R.Class, p: nat)
    requires RI.Inv(c, r) && LiveSource(c, r, k, Some(p))
    ensures R.FileShape(c, r.files, k) && p < Pow2(R.Lg(c, k)) && !R.FileOf(r.files, k).free[p]
  {
    var j, l :| MappedAt(c, r, k, p, j, l);
    RR.LiveSourcesAllocated(c, r, k, j, l);
  }

  /** A register given now is the source of no live uop. */
  lemma GivenIsNotRead(c: R.Config, r: R.State, i: R.Input, k: R.Class, p: nat, src: Option<nat>)
    requires R.WellFormed(c) && RI.Inv(c, r) && RI.Protocol(c, r, i) && !RI.SerializeClash(c, r, i)
    requires GivenNow(c, r, i, k, p) && LiveSource(c, r, k, src)
    ensures src != Some(p)
  {
    GivenWasFree(c, r, i, k, p);
    if src.Some? { LiveIsTaken(c, r, k, src.value); }
  }

  /** The pushed destinations are the ones allocated in this cycle. */
  ghost predicate PushesAllocations(c: R.Config, r: R.State, i: R.Input, w: W.Input)
    requires R.WellFormed(c) && R.Shape(c, r) && R.InputShape(c, i)
  {
    && (forall g :: g in W.Just(w.push.gpr) + W.Just(w.pushTwo.gpr) ==> GivenNow(c, r, i, R.Gpr, g))
    && (forall h :: h in W.Just(w.push.hilo) + W.Just(w.pushTwo.hilo) ==> GivenNow(c, r, i, R.Hilo, h))
    && (forall f :: f in W.Just(w.push.fcr) + W.Just(w.pushTwo.fcr) ==> GivenNow(c, r, i, R.Fcr, f))
  }

  lemma LiveIsUndisturbed(c: R.Config, r: R.State, i: R.Input, w: W.Input, u: W.Uop)
    requires R.WellFormed(c) && RI.Inv(c, r) && RI.Protocol(c, r, i) && !RI.SerializeClash(c, r, i)
    requires PushesAllocations(c, r, i, w) && LiveUop(c, r, u)
    ensures W.Undisturbed(w, u)
  {
    forall g | g in W.Just(w.push.gpr) + W.Just(w.pushTwo.gpr) ensures Some(g) !in {u.srcA, u.srcB, u.srcC} {
      GivenIsNotRead(c, r, i, R.Gpr, g, u.srcA);
      GivenIsNotRead(c, r, i, R.Gpr, g, u.srcB);
      GivenIsNotRead(c, r, i, R.Gpr, g, u.srcC);
    }
    forall h | h in W.Just(w.push.hilo) + W.Just(w.pushTwo.hilo) ensures Some(h) != W.HiloSrc(u) {
      GivenIsNotRead(c, r, i, R.Hilo, h, W.HiloSrc(u));
    }
    forall f | f in W.Just(w.push.fcr) + W.Just(w.pushTwo.fcr) ensures Some(f) != W.FcrSrc(u) {
      GivenIsNotRead(c, r, i, R.Fcr, f, W.FcrSrc(u));
    }
  }

  /** If the waiting uops were renamed inside the reorder buffer's window and what is pushed is what
      renaming allocates, no register goes in flight again while somebody waits for it. */
  lemma RenamingNeverReuses(c: R.Config, r: R.State, i: R.Input, lg: nat, s: W.State, w: W.Input)
    requires R.WellFormed(c) && RI.Inv(c, r) && RI.Protocol(c, r, i) && !RI.SerializeClash(c, r, i)
    requires W.Shape(lg, s) && PushesAllocations(c, r, i, w)
    requires forall k :: 0 <= k < Pow2(lg) && s.valid[k] ==> LiveUop(c, r, s.uops[k])
    requires w.uq.Some? ==> LiveUop(c, r, w.uq.value)
    ensures W.NoReuse(lg, s, w)
  {
    forall k | 0 <= k < Pow2(lg) && s.valid[k] ensures W.Undisturbed(w, s.uops[k]) {
      LiveIsUndisturbed(c, r, i, w, s.uops[k]);
    }
    if w.uq.Some? { LiveIsUndisturbed(c, r, i, w, w.uq.value); }
  }

  // ---------------------------------------------------------------- reorder buffer to data cache

  /** ROB index b belongs to a live entry. */
  ghost predicate InWindow(c: R.Config, r: R.State, b: nat)
    requires RI.Inv(c, r)
  {
    exists j :: 0 <= j < RI.Len(c.robs, r.ring) && SlotAt(c.robs, r.ring.head, j) == b
  }

  /** An operation in the cache that has not retired is live, and retirement is in program order. */
  ghost predicate CacheFollowsRob(c: R.Config, r: R.State, s: C.State)
    requires RI.Inv(c, r)
  {
    var q := CI.Order(s);
    && (forall k :: 0 <= k < |q| && !q[k].retired ==> InWindow(c, r, q[k].req.rob))
    && (forall j, k :: 0 <= j < k < |q| && !q[j].retired ==> !q[k].retired)
  }

  lemma LiveIsDead(c: R.Config, r: R.State, b: nat)
    requires RI.Inv(c, r) && InWindow(c, r, b)
    ensures b < |r.dead| && r.dead[b]
  {
    RR.DeadMaskIsWindow(c, r, b);
  }

  /** The dead mask that renaming computes gives the cache its squash window. */
  lemma DeadMaskGivesWindow(c: R.Config, r: R.State, s: C.State, i: C.Input)
    requires RI.Inv(c, r) && CacheFollowsRob(c, r, s)
    requires i.drain ==> forall b :: 0 <= b < |r.dead| && r.dead[b] ==> b in i.dead
    ensures CI.WindowRule(s, i)
  {
    var q := CI.Order(s);
    if i.drain {
      forall j, k | 0 <= j < k < |q| && !q[j].retired && q[j].req.rob in i.dead ensures q[k].req.rob in i.dead {
        LiveIsDead(c, r, q[k].req.rob);
      }
    }
  }
}
