/** Processor::Utilization: the share of the jiffies between two readings
    of the aggregate `cpu` line that were not idle. The half-second pause
    between the two readings is left out: the readings are parameters. */
module Processor {
  import opened Options
  import LinuxParser

  /** One reading: Jiffies() and IdleJiffies() taken together. */
  datatype Sample = Sample(total: int, idle: int)

  /** A reading of /proc/stat; `None` when either sum is undefined
      (std::stol threw). With active and idle sums `a` and `i` it samples
      Jiffies() = a + i and IdleJiffies() = i. */
  function SampleOf(stat: seq<string>): (r: Option<Sample>)
    ensures r.Some? <==> LinuxParser.ActiveJiffies(stat).Some? && LinuxParser.IdleJiffies(stat).Some?
    ensures r.Some? ==> var a, i := LinuxParser.ActiveJiffies(stat).value, LinuxParser.IdleJiffies(stat).value;
      r.value == Sample(a + i, i)
  {
    var total, idle := LinuxParser.Jiffies(stat), LinuxParser.IdleJiffies(stat);
    if total.Some? && idle.Some? then Some(Sample(total.value, idle.value)) else None
  }

  /** (totald - idled) / totald, as an exact ratio of the integer deltas.
      Without a change in the total the source divides 0 by 0 or a number by
      0 in float; that has no defined utilization: `None`. */
  function Utilization(prev: Sample, cur: Sample): (r: Option<real>)
    ensures r.Some? <==> cur.total != prev.total
  {
    var totald := (cur.total - prev.total) as real;
    var idled := (cur.idle - prev.idle) as real;
    if totald == 0.0 then None else Some((totald - idled) / totald)
  }

  /** The utilization is the one ratio that, times the change in all
      jiffies, gives the change in the non-idle ones. */
  lemma UtilizationScales(prev: Sample, cur: Sample)
    requires cur.total != prev.total
    ensures Utilization(prev, cur).Some?
    ensures Utilization(prev, cur).value * (cur.total - prev.total) as real
      == ((cur.total - prev.total) - (cur.idle - prev.idle)) as real
  {
    var totald, idled := (cur.total - prev.total) as real, (cur.idle - prev.idle) as real;
    assert (totald - idled) / totald * totald == totald - idled;
  }

  /** Utilization between two readings of /proc/stat: defined exactly when
      both readings are and Jiffies() changed between them. */
  function UtilizationOf(prevStat: seq<string>, curStat: seq<string>): (r: Option<real>)
    ensures r.Some? <==> SampleOf(prevStat).Some? && SampleOf(curStat).Some?
                         && LinuxParser.Jiffies(curStat) != LinuxParser.Jiffies(prevStat)
  {
    var prev, cur := SampleOf(prevStat), SampleOf(curStat);
    if prev.Some? && cur.Some? then Utilization(prev.value, cur.value) else None
  }

  /** Because Jiffies = ActiveJiffies + IdleJiffies, two readings whose
      active and idle sums are a0, i0 and then a1, i1 give the change in
      ActiveJiffies() over the change in Jiffies(). */
  lemma UtilizationOfActive(prevStat: seq<string>, curStat: seq<string>, a0: int, i0: int, a1: int, i1: int)
    requires LinuxParser.ActiveJiffies(prevStat) == Some(a0) && LinuxParser.IdleJiffies(prevStat) == Some(i0)
    requires LinuxParser.ActiveJiffies(curStat) == Some(a1) && LinuxParser.IdleJiffies(curStat) == Some(i1)
    requires a1 + i1 != a0 + i0
    ensures UtilizationOf(prevStat, curStat) == Some((a1 - a0) as real / ((a1 + i1) - (a0 + i0)) as real)
  {
    SampleOfSums(prevStat, a0, i0);
    SampleOfSums(curStat, a1, i1);
    UtilizationIsActiveShare(a0, i0, a1, i1);
  }

  /** A reading whose active and idle sums are `a` and `i` samples
      Jiffies() = a + i and IdleJiffies() = i. */
  lemma SampleOfSums(stat: seq<string>, a: int, i: int)
    requires LinuxParser.ActiveJiffies(stat) == Some(a) && LinuxParser.IdleJiffies(stat) == Some(i)
    ensures SampleOf(stat) == Some(Sample(a + i, i))
  {
  }

  /** Between two samples whose active and idle sums are a0, i0 and then
      a1, i1, the utilization is the change in the active jiffies over the
      change in all jiffies. */
  lemma UtilizationIsActiveShare(a0: int, i0: int, a1: int, i1: int)
    requires a1 + i1 != a0 + i0
    ensures Utilization(Sample(a0 + i0, i0), Sample(a1 + i1, i1))
      == Some((a1 - a0) as real / ((a1 + i1) - (a0 + i0)) as real)
  {
    var totald, idled := ((a1 + i1) - (a0 + i0)) as real, (i1 - i0) as real;
    assert totald - idled == (a1 - a0) as real;
  }

  /** When neither the idle nor the active counters go back between the two
      readings, the utilization is a fraction in [0, 1]. */
  lemma UtilizationInRange(prev: Sample, cur: Sample)
    requires cur.idle >= prev.idle
    requires cur.total - cur.idle >= prev.total - prev.idle
    requires cur.total != prev.total
    ensures Utilization(prev, cur).Some?
    ensures 0.0 <= Utilization(prev, cur).value <= 1.0
  {
    var totald := (cur.total - prev.total) as real;
    var idled := (cur.idle - prev.idle) as real;
    LinuxParser.ShareInUnit(totald, idled);
  }

  /** Example: 100 more jiffies, 40 of them idle, give 0.6. */
  lemma UtilizationExample()
    ensures Utilization(Sample(1000, 500), Sample(1100, 540)) == Some(0.6)
  {
    assert (100.0 - 40.0) / 100.0 == 0.6;
  }

  /** No idle jiffies in between: fully busy. */
  lemma UtilizationWithoutIdle(prev: Sample, cur: Sample)
    requires cur.idle == prev.idle && cur.total != prev.total
    ensures Utilization(prev, cur) == Some(1.0)
  {
    var totald := (cur.total - prev.total) as real;
    assert (totald - 0.0) / totald == 1.0;
  }

  /** Only idle jiffies in between: not busy at all. */
  lemma UtilizationAllIdle(prev: Sample, cur: Sample)
    requires cur.idle - prev.idle == cur.total - prev.total != 0
    ensures Utilization(prev, cur) == Some(0.0)
  {
  }

  /** Only the deltas matter: adding the same amounts to both readings'
      totals and idles leaves the utilization as it was. */
  lemma UtilizationShift(prev: Sample, cur: Sample, dt: int, di: int)
    ensures Utilization(Sample(prev.total + dt, prev.idle + di), Sample(cur.total + dt, cur.idle + di))
      == Utilization(prev, cur)
  {
    assert (cur.total + dt) - (prev.total + dt) == cur.total - prev.total;
    assert (cur.idle + di) - (prev.idle + di) == cur.idle - prev.idle;
  }
}
