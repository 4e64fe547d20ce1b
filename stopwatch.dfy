/** System.Diagnostics.Stopwatch, the timer Session.cs keeps two of, over an
    abstract monotonic tick clock whose reading is passed to every operation. */
module Stopwatch {

  /** The ticks banked by earlier runs, whether the watch is running, and the
      clock reading at which the current run began. */
  datatype Watch = Watch(accumulated: nat, running: bool, mark: int)

  /** The clock has not gone back past the watch's mark. */
  predicate ReadableAt(w: Watch, now: int)
  {
    w.mark <= now
  }

  /** Stopwatch.Elapsed, in ticks: the banked ticks plus the current run. */
  function Elapsed(w: Watch, now: int): (r: nat)
    requires ReadableAt(w, now)
    ensures r >= w.accumulated
    ensures !w.running ==> r == w.accumulated
  {
    if w.running then w.accumulated + (now - w.mark) else w.accumulated
  }

  /** Stopwatch.StartNew: a new watch, already running, that has counted nothing. */
  function StartNew(now: int): (r: Watch)
    ensures r.running && ReadableAt(r, now)
    ensures forall later :: later >= now ==> Elapsed(r, later) == later - now
  {
    Watch(0, true, now)
  }

  /** Stopwatch.Start: resumes counting from what is banked; a running watch is left alone. */
  function Start(w: Watch, now: int): (r: Watch)
    requires ReadableAt(w, now)
    ensures r.running && ReadableAt(r, now)
    ensures forall later :: later >= now ==> Elapsed(r, later) == Elapsed(w, now) + (later - now)
  {
    if w.running then w else Watch(w.accumulated, true, now)
  }

  /** Stopwatch.Stop: banks the current run and freezes the elapsed time; a
      stopped watch is left alone. */
  function Stop(w: Watch, now: int): (r: Watch)
    requires ReadableAt(w, now)
    ensures !r.running && ReadableAt(r, now)
    ensures forall later :: later >= now ==> Elapsed(r, later) == Elapsed(w, now)
  {
    if w.running then Watch(w.accumulated + (now - w.mark), false, w.mark) else w
  }

  /** Stopwatch.Restart: clears what was banked and starts counting from zero. */
  function Restart(w: Watch, now: int): (r: Watch)
    ensures r.running && ReadableAt(r, now)
    ensures forall later :: later >= now ==> Elapsed(r, later) == later - now
  {
    Watch(0, true, now)
  }

  /** Elapsed time never goes down while the clock goes forward. */
  lemma ElapsedMonotone(w: Watch, t: int, u: int)
    requires ReadableAt(w, t) && t <= u
    ensures Elapsed(w, t) <= Elapsed(w, u)
  {
  }

  /** A stop at t1 followed by a start at t2 leaves out exactly the pause:
      at any later reading the watch shows the ticks it had at t1 plus the
      time since t2. */
  lemma PauseExcludesGap(w: Watch, t1: int, t2: int, t3: int)
    requires ReadableAt(w, t1) && t1 <= t2 <= t3
    ensures Elapsed(Start(Stop(w, t1), t2), t3) == Elapsed(w, t1) + (t3 - t2)
  {
    var stopped := Stop(w, t1);
    assert Elapsed(stopped, t2) == Elapsed(w, t1);
  }

  /** A later reading adds the time in between if the watch is running,
      and nothing if it is stopped. */
  lemma ElapsedAfter(w: Watch, t: int, u: int)
    requires ReadableAt(w, t) && t <= u
    ensures Elapsed(w, u) == Elapsed(w, t) + (if w.running then u - t else 0)
  {
  }
}
