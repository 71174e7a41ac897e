/** The bounded table of control-plane replay windows (`CtrlReplayTable` in src/crypto.rs): one window per
    source, with the least recently committed source evicted when the table is full. */
module ReplayTable {
  import opened Wrappers
  import opened ReplayWindow

  const CTRL_REPLAY_MAX_SOURCES: nat := 4096

  datatype Entry = Entry(window: Window, lastSeen: nat)

  /** One committed control packet. */
  datatype Commitment = Commitment(time: nat, src: nat, counter: nat)

  type Log = seq<Commitment>

  // ---------- what the log alone says ----------

  function Sources(log: Log): set<nat> {
    set i | 0 <= i < |log| :: log[i].src
  }

  /** The distinct other sources committed since the last commit of `src`. */
  function Since(log: Log, src: nat): set<nat> {
    if log == [] || log[|log| - 1].src == src then {} else Since(log[..|log| - 1], src) + {log[|log| - 1].src}
  }

  /** The time of the last commit of `src`, or -1. */
  function LastTime(log: Log, src: nat): int {
    if log == [] then -1
    else if log[|log| - 1].src == src then log[|log| - 1].time
    else LastTime(log[..|log| - 1], src)
  }

  /** Commit times never decrease. */
  predicate Steady(log: Log) {
    forall i, j :: 0 <= i < j < |log| ==> log[i].time <= log[j].time
  }

  /** Commit times strictly increase. */
  predicate Clocked(log: Log) {
    forall i, j :: 0 <= i < j < |log| ==> log[i].time < log[j].time
  }

  /** The other sources whose last commit is no earlier than that of `src`. */
  function Rivals(log: Log, src: nat): set<nat> {
    set u | u in Sources(log) && u != src && LastTime(log, u) >= LastTime(log, src)
  }

  /** The sources whose last commit is later than that of `src`. */
  function Later(log: Log, src: nat): set<nat> {
    set u | u in Sources(log) && LastTime(log, u) > LastTime(log, src)
  }

  /** The counters of `src` committed from position `from` on. */
  function CountersFrom(log: Log, src: nat, from: nat): seq<nat> {
    if |log| <= from then []
    else
      var init := CountersFrom(log[..|log| - 1], src, from);
      if log[|log| - 1].src == src then init + [log[|log| - 1].counter] else init
  }

  lemma {:induction false} CounterKept(log: Log, src: nat, from: nat, j: nat)
    requires from <= j < |log| && log[j].src == src
    ensures log[j].counter in CountersFrom(log, src, from)
  {
    if j < |log| - 1 {
      CounterKept(log[..|log| - 1], src, from, j);
    }
  }

  /** One more commit. */
  lemma After(log: Log, c: Commitment, u: nat)
    ensures LastTime(log + [c], u) == if u == c.src then c.time else LastTime(log, u)
    ensures Since(log + [c], u) == if u == c.src then {} else Since(log, u) + {c.src}
    ensures u in Sources(log + [c]) <==> u == c.src || u in Sources(log)
  {
    assert (log + [c])[..|log|] == log;
    if u in Sources(log) {
      var i :| 0 <= i < |log| && log[i].src == u;
      assert (log + [c])[i].src == u;
    }
    assert (log + [c])[|log|] == c;
  }

  lemma SteadyBefore(log: Log, c: Commitment)
    requires Steady(log + [c])
    ensures Steady(log) && forall u :: LastTime(log, u) <= c.time
  {
    forall i, j | 0 <= i < j < |log| ensures log[i].time <= log[j].time {
      assert (log + [c])[i].time <= (log + [c])[j].time;
    }
    forall i | 0 <= i < |log| ensures log[i].time <= c.time {
      assert (log + [c])[i].time <= (log + [c])[|log|].time;
    }
    forall u {
      LastTimeBounded(log, u, c.time);
    }
  }

  lemma {:induction false} LastTimeBounded(log: Log, u: nat, bound: nat)
    requires forall i :: 0 <= i < |log| ==> log[i].time <= bound
    ensures LastTime(log, u) <= bound && (LastTime(log, u) >= 0 <==> u in Sources(log))
  {
    if log != [] {
      var init, last := log[..|log| - 1], log[|log| - 1];
      LastTimeBounded(init, u, bound);
      assert init + [last] == log;
      After(init, last, u);
    }
  }

  /** Without ties the sources committed since are exactly the later ones; with ties they lie between the later ones and the
      rivals. */
  lemma {:induction false} SinceIsBetween(log: Log, src: nat)
    requires Steady(log) && src in Sources(log)
    ensures Later(log, src) <= Since(log, src) <= Rivals(log, src)
    ensures Clocked(log) ==> Later(log, src) == Rivals(log, src)
  {
    var init, last := log[..|log| - 1], log[|log| - 1];
    assert init + [last] == log;
    SteadyBefore(init, last);
    if last.src != src {
      After(init, last, src);
      SinceIsBetween(init, src);
    }
    forall u | u in Sources(log)
      ensures u in Later(log, src) ==> u in Since(log, src)
      ensures u in Since(log, src) ==> u in Rivals(log, src)
    {
      After(init, last, u);
      After(init, last, src);
    }
    SinceOccurs(log, src);
    if Clocked(log) {
      TimesDiffer(log, src);
    }
  }

  lemma {:induction false} SinceOccurs(log: Log, src: nat)
    ensures Since(log, src) <= Sources(log)
  {
    if log != [] && log[|log| - 1].src != src {
      var init, last := log[..|log| - 1], log[|log| - 1];
      SinceOccurs(init, src);
      assert init + [last] == log;
      forall u | u in Since(log, src) ensures u in Sources(log) {
        After(init, last, u);
      }
    }
  }

  lemma TimesDiffer(log: Log, src: nat)
    requires Clocked(log) && src in Sources(log)
    ensures Rivals(log, src) == Later(log, src)
  {
    LastCommit(log, src);
    var i :| 0 <= i < |log| && log[i].src == src && log[i].time == LastTime(log, src);
    forall u | u in Sources(log) && u != src
      ensures LastTime(log, u) != LastTime(log, src)
    {
      LastCommit(log, u);
      var j :| 0 <= j < |log| && log[j].src == u && log[j].time == LastTime(log, u);
    }
  }

  lemma {:induction false} LastCommit(log: Log, u: nat)
    requires u in Sources(log)
    ensures exists i :: 0 <= i < |log| && log[i].src == u && log[i].time == LastTime(log, u)
  {
    var init, last := log[..|log| - 1], log[|log| - 1];
    if last.src != u {
      assert init + [last] == log;
      After(init, last, u);
      LastCommit(init, u);
      var i :| 0 <= i < |init| && init[i].src == u && init[i].time == LastTime(init, u);
      assert log[i].src == u;
    }
  }

  lemma RivalsGrow(log: Log, c: Commitment, s: nat)
    requires Steady(log + [c]) && s != c.src
    ensures Rivals(log, s) <= Rivals(log + [c], s)
  {
    SteadyBefore(log, c);
    After(log, c, s);
    forall u | u in Rivals(log, s) ensures u in Rivals(log + [c], s) {
      After(log, c, u);
    }
  }

  // ---------- the table against the log ----------

  /** The entry remembers every counter of `src` committed since position `from`. */
  ghost predicate WindowOk(log: Log, src: nat, from: nat, e: Entry) {
    from <= |log| && Remembers(e.window, CountersFrom(log, src, from))
  }

  lemma WindowAfter(log: Log, src: nat, from: nat, e: Entry, c: Commitment)
    requires WindowOk(log, src, from, e)
    ensures WindowOk(log + [c], src, from, if c.src == src then Entry(Commit(e.window, c.counter), c.time) else e)
  {
    hide Remembers, Commit;
    assert (log + [c])[..|log|] == log;
    CommitRemembers(e.window, CountersFrom(log, src, from), c.counter);
  }

  lemma WindowNew(log: Log, c: Commitment)
    ensures WindowOk(log + [c], c.src, |log|, Entry(Commit(EMPTY, c.counter), c.time))
  {
    hide Remembers, Commit;
    assert (log + [c])[..|log|] == log;
    EveryRunRemembers([]);
    CommitRemembers(EMPTY, [], c.counter);
    assert CountersFrom(log + [c], c.src, |log|) == [] + [c.counter];
  }

  /** The source never committed, or `max` others committed no earlier than it did. */
  predicate Displaced(log: Log, max: nat, src: nat) {
    src in Sources(log) ==> |Rivals(log, src)| >= max
  }

  lemma StillDisplaced(log: Log, max: nat, c: Commitment, s: nat)
    requires Steady(log + [c]) && Displaced(log, max, s) && s != c.src
    ensures Displaced(log + [c], max, s)
  {
    After(log, c, s);
    RivalsGrow(log, c, s);
    SubsetSize(Rivals(log, s), Rivals(log + [c], s));
  }

  /** The entry was last touched by the last commit of `src`, and `src` was displaced just before it came in. */
  ghost predicate StampOk(log: Log, max: nat, src: nat, from: nat, e: Entry) {
    from <= |log| && src in Sources(log) && e.lastSeen == LastTime(log, src) && Displaced(log[..from], max, src)
  }

  function Touched(e: Entry, src: nat, c: Commitment): Entry {
    if c.src == src then Entry(Commit(e.window, c.counter), c.time) else e
  }

  lemma StampAfter(log: Log, max: nat, src: nat, from: nat, e: Entry, c: Commitment)
    requires StampOk(log, max, src, from, e)
    ensures StampOk(log + [c], max, src, from, Touched(e, src, c))
  {
    assert (log + [c])[..from] == log[..from];
    After(log, c, src);
  }

  lemma StampNew(log: Log, max: nat, c: Commitment)
    requires Displaced(log, max, c.src)
    ensures StampOk(log + [c], max, c.src, |log|, Entry(Commit(EMPTY, c.counter), c.time))
  {
    assert (log + [c])[..|log|] == log;
    After(log, c, c.src);
  }

  /** Who is absent was displaced, and whoever committed later than someone present is present. */
  ghost predicate RanksOk(log: Log, max: nat, present: set<nat>) {
    && (forall s :: s !in present ==> Displaced(log, max, s))
    && forall s, u :: s in present && u in Sources(log) && LastTime(log, u) > LastTime(log, s) ==> u in present
  }

  lemma RanksAfterKnown(log: Log, max: nat, present: set<nat>, c: Commitment)
    requires Steady(log + [c]) && RanksOk(log, max, present) && c.src in present
    ensures RanksOk(log + [c], max, present)
  {
    SteadyBefore(log, c);
    forall s | s !in present ensures Displaced(log + [c], max, s) {
      StillDisplaced(log, max, c, s);
    }
    forall s, u | s in present && u in Sources(log + [c]) && LastTime(log + [c], u) > LastTime(log + [c], s)
      ensures u in present
    {
      After(log, c, s);
      After(log, c, u);
    }
  }

  /** A new source comes in, over the evicted one if there was no room. */
  lemma RanksAfterNew(log: Log, max: nat, present: set<nat>, c: Commitment, gone: Option<nat>)
    requires Steady(log + [c]) && RanksOk(log, max, present) && c.src !in present && present <= Sources(log)
    requires gone.Some? ==> |present| == max && gone.value in present &&
                            forall s :: s in present ==> LastTime(log, gone.value) <= LastTime(log, s)
    ensures RanksOk(log + [c], max, (if gone.Some? then present - {gone.value} else present) + {c.src})
  {
    SteadyBefore(log, c);
    var kept := if gone.Some? then present - {gone.value} else present;
    forall s | s !in kept + {c.src} ensures Displaced(log + [c], max, s) {
      if s in present {
        forall u | u in kept + {c.src} ensures u in Rivals(log + [c], s) {
          After(log, c, u);
          After(log, c, s);
        }
        SubsetSize(kept + {c.src}, Rivals(log + [c], s));
      } else {
        StillDisplaced(log, max, c, s);
      }
    }
    forall s, u | s in kept + {c.src} && u in Sources(log + [c]) && LastTime(log + [c], u) > LastTime(log + [c], s)
      ensures u in kept + {c.src}
    {
      After(log, c, s);
      After(log, c, u);
    }
  }

  lemma RankedWhileRecent(log: Log, max: nat, present: set<nat>, s: nat)
    requires Steady(log) && RanksOk(log, max, present) && |present| <= max && (s in present ==> s in Sources(log))
    ensures s in Sources(log) && |Rivals(log, s)| < max ==> s in present
    ensures s in present ==> |Later(log, s)| < max
    ensures Clocked(log) ==> (s in present <==> s in Sources(log) && |Since(log, s)| < max)
  {
    hide RanksOk, Sources, Rivals, Later, Since, Steady, Clocked;
    AbsentIsDisplaced(log, max, present, s);
    if s in present {
      LaterIsPresent(log, max, present, s);
      SubsetSize(Later(log, s), present - {s});
    }
    if s in Sources(log) {
      SinceIsBetween(log, s);
      if Clocked(log) {
        assert Since(log, s) == Later(log, s) == Rivals(log, s);
      }
    }
  }

  lemma AbsentIsDisplaced(log: Log, max: nat, present: set<nat>, s: nat)
    requires RanksOk(log, max, present)
    ensures s in Sources(log) && |Rivals(log, s)| < max ==> s in present
  {
  }

  lemma LaterIsPresent(log: Log, max: nat, present: set<nat>, s: nat)
    requires RanksOk(log, max, present) && s in present
    ensures Later(log, s) <= present - {s}
  {
  }

  /** The table holds at most `max` windows, each faithful since its source was last inserted; and if commit times never
      decrease, it holds the sources that rank highest by them. */
  ghost predicate TableOk(max: nat, log: Log, sources: map<nat, Entry>, inserted: map<nat, nat>) {
    && |sources| <= max
    && inserted.Keys == sources.Keys
    && (forall s :: s in sources ==> WindowOk(log, s, inserted[s], sources[s]))
    && (Steady(log) ==>
          && RanksOk(log, max, sources.Keys)
          && (forall s :: s in sources ==> StampOk(log, max, s, inserted[s], sources[s])))
  }

  lemma EntriesAfter(log: Log, max: nat, sources: map<nat, Entry>, inserted: map<nat, nat>, c: Commitment)
    requires inserted.Keys == sources.Keys
    requires forall s :: s in sources ==> WindowOk(log, s, inserted[s], sources[s])
    ensures forall s :: s in sources ==> WindowOk(log + [c], s, inserted[s], Touched(sources[s], s, c))
    ensures (forall s :: s in sources ==> StampOk(log, max, s, inserted[s], sources[s])) ==>
              forall s :: s in sources ==> StampOk(log + [c], max, s, inserted[s], Touched(sources[s], s, c))
  {
    hide WindowOk, StampOk, Commit;
    forall s | s in sources
      ensures WindowOk(log + [c], s, inserted[s], Touched(sources[s], s, c))
    {
      WindowAfter(log, s, inserted[s], sources[s], c);
    }
    if forall s :: s in sources ==> StampOk(log, max, s, inserted[s], sources[s]) {
      forall s | s in sources
        ensures StampOk(log + [c], max, s, inserted[s], Touched(sources[s], s, c))
      {
        StampAfter(log, max, s, inserted[s], sources[s], c);
      }
    }
  }

  /** The table may drop any source that no other one was seen before. */
  predicate MayEvict(sources: map<nat, Entry>, key: nat) {
    key in sources && forall s :: s in sources ==> sources[key].lastSeen <= sources[s].lastSeen
  }

  class CtrlReplayTable {
    var sources: map<nat, Entry>
    var maxSources: nat
    /** Everything committed since the table was last cleared. */
    ghost var log: Log
    /** The length of the log when each present source was last inserted. */
    ghost var inserted: map<nat, nat>

    ghost predicate Valid()
      reads this
    {
      TableOk(maxSources, log, sources, inserted)
    }

    constructor ()
      ensures Valid() && log == [] && sources == map[] && maxSources == CTRL_REPLAY_MAX_SOURCES
    {
      sources, maxSources, log, inserted := map[], CTRL_REPLAY_MAX_SOURCES, [], map[];
    }

    method Clear()
      requires Valid()
      modifies this
      ensures Valid() && log == [] && sources == map[] && maxSources == old(maxSources)
    {
      sources, log, inserted := map[], [], map[];
    }

    predicate AllowsFrom(src: nat, counter: nat)
      reads this
    {
      src in sources ==> Allows(sources[src].window, counter)
    }

    /** A committed counter is refused as long as fewer than `maxSources` other sources have committed no earlier than its
        source did, whichever of several equally old sources the table drops. */
    lemma RecentSourceStaysProtected(j: nat)
      requires Valid() && Steady(log) && j < |log|
      requires forall k :: j < k <= |log| ==> |Rivals(log[..k], log[j].src)| < maxSources
      ensures log[j].src in sources
      ensures !AllowsFrom(log[j].src, log[j].counter)
    {
      var s := log[j].src;
      assert log[..|log|] == log;
      assert s in sources && StampOk(log, maxSources, s, inserted[s], sources[s]);
      CounterKept(log, s, inserted[s], j);
    }

    /** Without ties: as long as fewer than `maxSources` distinct others were committed since. */
    lemma RecentByCount(j: nat)
      requires Valid() && Clocked(log) && j < |log|
      requires forall k :: j < k <= |log| ==> |Since(log[..k], log[j].src)| < maxSources
      ensures log[j].src in sources && !AllowsFrom(log[j].src, log[j].counter)
    {
      hide TableOk;
      forall k | j < k <= |log|
        ensures |Rivals(log[..k], log[j].src)| < maxSources
      {
        assert log[..k][j].src == log[j].src;
        SinceIsBetween(log[..k], log[j].src);
        assert Since(log[..k], log[j].src) == Rivals(log[..k], log[j].src);
      }
      RecentSourceStaysProtected(j);
    }

    /** A source is present if fewer than `maxSources` others committed no earlier, and only if fewer committed later.
        Without ties both say: exactly while fewer than `maxSources` others were committed since. */
    lemma PresentWhileRecent(s: nat)
      requires Valid() && Steady(log)
      ensures s in Sources(log) && |Rivals(log, s)| < maxSources ==> s in sources
      ensures s in sources ==> s in Sources(log) && |Later(log, s)| < maxSources
      ensures Clocked(log) ==> (s in sources <==> s in Sources(log) && |Since(log, s)| < maxSources)
    {
      hide WindowOk;
      assert s in sources ==> StampOk(log, maxSources, s, inserted[s], sources[s]);
      RankedWhileRecent(log, maxSources, sources.Keys, s);
    }

    /** Drops the source that was seen longest ago, if the table is full. */
    method EvictOldestUntilRoom() returns (ghost gone: Option<nat>)
      requires Valid()
      modifies this`sources, this`inserted
      ensures gone.Some? <==> 0 < maxSources == old(|sources|)
      ensures gone.None? ==> sources == old(sources) && inserted == old(inserted)
      ensures gone.Some? ==>
                && MayEvict(old(sources), gone.value) && |sources| == old(|sources|) - 1
                && sources == old(sources) - {gone.value} && inserted == old(inserted) - {gone.value}
    {
      gone := None;
      while |sources| >= maxSources
        invariant gone.None? ==> sources == old(sources) && inserted == old(inserted)
        invariant gone.Some? ==>
                    && MayEvict(old(sources), gone.value) && |sources| == old(|sources|) - 1 && 0 < maxSources == old(|sources|)
                    && sources == old(sources) - {gone.value} && inserted == old(inserted) - {gone.value}
        decreases |sources|
      {
        if sources == map[] {
          break;
        }
        OldestExists(sources);
        var key :| MayEvict(sources, key);
        assert (sources - {key}).Keys == sources.Keys - {key};
        sources := sources - {key};
        inserted := inserted - {key};
        gone := Some(key);
      }
    }

    method Record(src: nat, counter: nat, now: nat)
      requires Valid()
      modifies this`sources, this`log, this`inserted
      ensures Valid() && log == old(log) + [Commitment(now, src, counter)]
      ensures src in sources <==> maxSources > 0
      ensures src in old(sources) ==> sources == old(sources)[src := Entry(Commit(old(sources)[src].window, counter), now)]
      ensures src !in old(sources) && old(|sources|) < maxSources ==>
                sources == old(sources)[src := Entry(Commit(EMPTY, counter), now)]
    {
      ghost var c := Commitment(now, src, counter);
      assert TableOk(maxSources, log, sources, inserted);
      if src in sources {
        KnownOk(maxSources, log, sources, inserted, c);
        hide TableOk, Commit;
        sources := sources[src := Entry(Commit(sources[src].window, counter), now)];
        log := log + [c];
        return;
      }
      var gone := EvictOldestUntilRoom();
      NewOk(maxSources, log, old(sources), old(inserted), c, gone);
      hide TableOk, Commit;
      inserted := if |sources| >= maxSources then inserted else inserted[src := |log|];
      log := log + [c];
      if |sources| >= maxSources {
        return;
      }
      sources := sources[src := Entry(Commit(EMPTY, counter), now)];
    }
  }

  lemma KnownOk(max: nat, log: Log, sources: map<nat, Entry>, inserted: map<nat, nat>, c: Commitment)
    requires TableOk(max, log, sources, inserted) && c.src in sources
    ensures max > 0 && TableOk(max, log + [c], sources[c.src := Touched(sources[c.src], c.src, c)], inserted)
  {
    hide WindowOk, StampOk, RanksOk, Commit, Steady;
    assert sources[c.src := Touched(sources[c.src], c.src, c)].Keys == sources.Keys;
    EntriesAfter(log, max, sources, inserted, c);
    if Steady(log + [c]) {
      SteadyBefore(log, c);
      RanksAfterKnown(log, max, sources.Keys, c);
    }
  }

  lemma InsertOk(max: nat, log: Log, kept: map<nat, Entry>, inserted: map<nat, nat>, c: Commitment)
    requires |kept| < max && inserted.Keys == kept.Keys && c.src !in kept
    requires forall s :: s in kept ==> WindowOk(log, s, inserted[s], kept[s])
    requires Steady(log + [c]) ==>
               && RanksOk(log + [c], max, kept.Keys + {c.src}) && Displaced(log, max, c.src)
               && forall s :: s in kept ==> StampOk(log, max, s, inserted[s], kept[s])
    ensures TableOk(max, log + [c], kept[c.src := Entry(Commit(EMPTY, c.counter), c.time)], inserted[c.src := |log|])
  {
    hide WindowOk, StampOk, RanksOk, Commit, Steady, Displaced;
    EntriesAfter(log, max, kept, inserted, c);
    WindowNew(log, c);
    if Steady(log + [c]) {
      StampNew(log, max, c);
    }
    var sources := kept[c.src := Entry(Commit(EMPTY, c.counter), c.time)];
    assert sources.Keys == kept.Keys + {c.src};
    assert |sources.Keys| == |kept.Keys| + 1;
  }

  lemma NewOk(max: nat, log: Log, sources: map<nat, Entry>, inserted: map<nat, nat>, c: Commitment, gone: Option<nat>)
    requires TableOk(max, log, sources, inserted) && c.src !in sources
    requires gone.Some? <==> 0 < max == |sources|
    requires gone.Some? ==> MayEvict(sources, gone.value)
    ensures max == 0 ==> TableOk(max, log + [c], sources, inserted)
    ensures max > 0 ==> var kept := if gone.Some? then sources - {gone.value} else sources;
                        var keptIn := if gone.Some? then inserted - {gone.value} else inserted;
                        && |kept| < max
                        && TableOk(max, log + [c], kept[c.src := Entry(Commit(EMPTY, c.counter), c.time)], keptIn[c.src := |log|])
  {
    if max == 0 {
      assert sources == map[];
    } else {
      NewRanks(max, log, sources, inserted, c, gone);
      hide WindowOk, StampOk, RanksOk, Commit, Steady, Displaced;
      var kept := if gone.Some? then sources - {gone.value} else sources;
      var keptIn := if gone.Some? then inserted - {gone.value} else inserted;
      assert kept.Keys == if gone.Some? then sources.Keys - {gone.value} else sources.Keys;
      assert |kept.Keys| < max;
      InsertOk(max, log, kept, keptIn, c);
    }
  }

  lemma NewRanks(max: nat, log: Log, sources: map<nat, Entry>, inserted: map<nat, nat>, c: Commitment, gone: Option<nat>)
    requires TableOk(max, log, sources, inserted) && c.src !in sources && max > 0
    requires gone.Some? <==> max == |sources|
    requires gone.Some? ==> MayEvict(sources, gone.value)
    ensures Steady(log + [c]) ==>
              && Steady(log) && Displaced(log, max, c.src)
              && RanksOk(log + [c], max, (if gone.Some? then sources.Keys - {gone.value} else sources.Keys) + {c.src})
  {
    if Steady(log + [c]) {
      SteadyBefore(log, c);
      assert forall s :: s in sources ==> StampOk(log, max, s, inserted[s], sources[s]);
      RanksAfterNew(log, max, sources.Keys, c, gone);
    }
  }

  // ---------- ties ----------

  /** Sources 0 to n - 1, committed one after the other at one time. */
  function Crowd(t: nat, n: nat): Log {
    if n == 0 then [] else Crowd(t, n - 1) + [Commitment(t, n - 1, 0)]
  }

  function CrowdTable(t: nat, n: nat): map<nat, Entry> {
    if n == 0 then map[] else CrowdTable(t, n - 1)[n - 1 := Entry(Commit(EMPTY, 0), t)]
  }

  function CrowdInserted(n: nat): map<nat, nat> {
    if n == 0 then map[] else CrowdInserted(n - 1)[n - 1 := n - 1]
  }

  lemma {:induction false} CrowdSizes(t: nat, n: nat)
    ensures |Crowd(t, n)| == n && |CrowdTable(t, n)| == n
    ensures forall s :: s in CrowdTable(t, n) <==> 0 <= s < n
    ensures forall s :: s in CrowdTable(t, n) ==> CrowdTable(t, n)[s].lastSeen == t
    decreases n
  {
    hide Commit;
    if n > 0 {
      CrowdSizes(t, n - 1);
      assert CrowdTable(t, n).Keys == CrowdTable(t, n - 1).Keys + {n - 1};
      assert |CrowdTable(t, n).Keys| == |CrowdTable(t, n - 1).Keys| + 1;
    }
  }

  lemma {:induction false} CrowdOk(max: nat, t: nat, n: nat)
    requires n <= max
    ensures TableOk(max, Crowd(t, n), CrowdTable(t, n), CrowdInserted(n))
    decreases n
  {
    hide Commit, MayEvict, TableOk;
    if n == 0 {
      EmptyOk(max);
    } else {
      CrowdOk(max, t, n - 1);
      CrowdSizes(t, n - 1);
      NewOk(max, Crowd(t, n - 1), CrowdTable(t, n - 1), CrowdInserted(n - 1), Commitment(t, n - 1, 0), None);
    }
  }

  lemma EmptyOk(max: nat)
    ensures TableOk(max, [], map[], map[])
  {
  }

  /** The count of sources committed since is not enough when commit times tie.  When a table of any size is full of sources
      seen at one time, the next one may push out the very last of them, after which nobody else was committed. */
  lemma TiesMayEvictTheNewer(max: nat, t: nat)
    requires max >= 2
    ensures var log, sources, newer, c := Crowd(t, max), CrowdTable(t, max), max - 1, Commitment(t, max, 0);
            && TableOk(max, log, sources, CrowdInserted(max)) && |sources| == max && MayEvict(sources, newer)
            && log[max - 1].src == newer && Since(log + [c], newer) == {max}
            && TableOk(max, log + [c], (sources - {newer})[max := Entry(Commit(EMPTY, 0), t)],
                       (CrowdInserted(max) - {newer})[max := max])
  {
    hide Commit, TableOk, Since;
    var c := Commitment(t, max, 0);
    CrowdOk(max, t, max);
    CrowdSizes(t, max);
    CrowdSizes(t, max - 1);
    After(Crowd(t, max), c, max - 1);
    After(Crowd(t, max - 1), Commitment(t, max - 1, 0), max - 1);
    NewOk(max, Crowd(t, max), CrowdTable(t, max), CrowdInserted(max), c, Some(max - 1));
  }

  lemma OldestExists(sources: map<nat, Entry>)
    requires sources != map[]
    ensures exists key :: MayEvict(sources, key)
  {
    var x :| x in sources;
    var rest := sources - {x};
    assert rest.Keys == sources.Keys - {x};
    if rest == map[] {
      assert forall s :: s in sources ==> s == x || s in rest;
      assert MayEvict(sources, x);
    } else {
      OldestExists(rest);
      var y :| MayEvict(rest, y);
      var key := if sources[x].lastSeen <= sources[y].lastSeen then x else y;
      assert forall s :: s in sources ==> s == x || s in rest;
      assert MayEvict(sources, key);
    }
  }
}
