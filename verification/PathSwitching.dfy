/** Multipath switching (`PathSet` in src/routing.rs): which of a peer's three paths is best, and when traffic moves to
    it.  Scores are exact reals and times are in milliseconds. */
module PathSwitching {
  import opened Wrappers

  const SWITCH_SCORE_GAP: real := 0.15
  const SWITCH_CONFIRMING_TIME: nat := 3_000
  const FORCED_SWITCH_SCORE_GAP: real := 0.40
  const CRISIS_SCORE_THRESHOLD: real := 0.1

  datatype Path = Path(rtt: real, loss: real, bandwidth: real, active: bool, failures: nat)

  /** The direct, relay and server-reflexive path. */
  type Paths = s: seq<Option<Path>> | |s| == 3 witness [None, None, None]

  function ScoreCore(p: Path): real {
    var rtt := if p.rtt < 0.0 then 0.5 else MinReal(p.rtt / 400.0, 1.0);
    0.7 * (1.0 - rtt) + 0.3 * (1.0 - MinReal(p.loss, 1.0))
  }

  function Score(p: Path, advanced: bool): real {
    if !advanced then ScoreCore(p)
    else
      var bandwidth := if p.bandwidth > 0.0 then MinReal(p.bandwidth / 50_000.0, 1.0) else 0.3;
      0.4 * ScoreCore(p) + 0.6 * bandwidth
  }

  lemma ScoreInUnit(p: Path, advanced: bool)
    requires p.loss >= 0.0
    ensures 0.0 <= Score(p, advanced) <= 1.0
  {
  }

  /** Round trips and bandwidths as the score sees them: an unmeasured one counts as 200 ms or 15 Mb/s. */
  function SeenRtt(p: Path): real {
    if p.rtt < 0.0 then 200.0 else p.rtt
  }

  function SeenBandwidth(p: Path): real {
    if p.bandwidth > 0.0 then p.bandwidth else 15_000.0
  }

  /** A path that is no slower, no lossier and, for advanced scoring, no narrower never scores lower.  A measured path below
      15 Mb/s counts as narrower than an unmeasured one. */
  lemma ScoreIsMonotone(p: Path, q: Path, advanced: bool)
    requires p.loss <= q.loss && SeenRtt(p) <= SeenRtt(q) && (advanced ==> SeenBandwidth(p) >= SeenBandwidth(q))
    ensures Score(p, advanced) >= Score(q, advanced)
  {
  }

  predicate Usable(p: Option<Path>) {
    p.Some? && p.value.active && p.value.failures < 5
  }

  /** A usable path with the highest score, the last one if several share it. */
  predicate IsBest(paths: Paths, advanced: bool, best: Option<nat>) {
    if best.None? then forall i :: 0 <= i < 3 ==> !Usable(paths[i])
    else
      && best.value < 3 && Usable(paths[best.value])
      && forall i :: 0 <= i < 3 && i != best.value && Usable(paths[i]) ==>
           var s, t := Score(paths[best.value].value, advanced), Score(paths[i].value, advanced);
           s > t || (s == t && i < best.value)
  }

  lemma BestUnique(paths: Paths, advanced: bool, a: Option<nat>, b: Option<nat>)
    requires IsBest(paths, advanced, a) && IsBest(paths, advanced, b)
    ensures a == b
  {
    hide Score;
    if a.Some? {
      assert Usable(paths[a.value]);
      assert b.Some?;
    }
  }

  method BestPath(paths: Paths, advanced: bool) returns (best: Option<nat>)
    ensures IsBest(paths, advanced, best)
  {
    hide Score;
    best := None;
    for i := 0 to 3
      invariant best.None? ==> forall j :: 0 <= j < i ==> !Usable(paths[j])
      invariant best.Some? ==> best.value < i && Usable(paths[best.value])
      invariant best.Some? ==> forall j :: 0 <= j < i && j != best.value && Usable(paths[j]) ==>
                  var s, t := Score(paths[best.value].value, advanced), Score(paths[j].value, advanced);
                  s > t || (s == t && j < best.value)
    {
      if Usable(paths[i]) &&
         (best.None? || Score(paths[i].value, advanced) >= Score(paths[best.value].value, advanced)) {
        best := Some(i);
      }
    }
  }

  // ---------- switching ----------

  datatype Challenger = Challenger(idx: nat, since: nat)

  /** What one call of `reselect_active` sees. */
  datatype Sight = Sight(now: nat, best: Option<nat>, bestScore: real, currentScore: real)

  datatype Selector = Selector(activeIdx: nat, challenger: Option<Challenger>)

  function Gap(s: Sight): real {
    s.bestScore - s.currentScore
  }

  predicate Forced(s: Sight) {
    Gap(s) >= FORCED_SWITCH_SCORE_GAP || s.currentScore < CRISIS_SCORE_THRESHOLD
  }

  /** With no usable path nothing changes; otherwise the challenger is confirmed, replaced or dropped. */
  function Reselect(sel: Selector, s: Sight): Selector {
    if s.best.None? then sel
    else if s.best.value == sel.activeIdx then sel.(challenger := None)
    else if Forced(s) then Selector(s.best.value, None)
    else if Gap(s) < SWITCH_SCORE_GAP then sel.(challenger := None)
    else if sel.challenger.Some? && sel.challenger.value.idx == s.best.value then
      if Age(s.now, sel.challenger.value.since) >= SWITCH_CONFIRMING_TIME then Selector(s.best.value, None) else sel
    else sel.(challenger := Some(Challenger(s.best.value, s.now)))
  }

  const RELAY: nat := 1

  /** What changes the choice of path: a call of `reselect_active`, or the relay slot being cleared. */
  datatype Event = Seen(s: Sight) | RelayCleared

  function Step(sel: Selector, e: Event): Selector {
    match e
    case Seen(s) => Reselect(sel, s)
    case RelayCleared => Selector(if sel.activeIdx == RELAY then 0 else sel.activeIdx, None)
  }

  function Run(sel: Selector, es: seq<Event>): Selector {
    if es == [] then sel else Step(Run(sel, es[..|es| - 1]), es[|es| - 1])
  }

  /** The call sees no usable path, or sees `idx` ahead by the gap. */
  predicate Favours(e: Event, idx: nat) {
    e.Seen? && (e.s.best.None? || (e.s.best == Some(idx) && Gap(e.s) >= SWITCH_SCORE_GAP))
  }

  /** From event `j` on there are only calls, the first of them saw `idx` ahead, every later one that saw a usable path did
      too, and the active path stayed the same. */
  ghost predicate Leads(start: Selector, es: seq<Event>, j: nat, idx: nat, active: nat) {
    && j < |es| && es[j].Seen? && es[j].s.best == Some(idx)
    && forall i :: j <= i < |es| ==> Favours(es[i], idx) && Run(start, es[..i]).activeIdx == active
  }

  /** A challenger has been ahead ever since the call that named it, and no clearing of the relay came in between. */
  lemma {:induction false} ChallengerLeads(start: Selector, es: seq<Event>) returns (j: nat)
    requires start.challenger.None?
    ensures var sel := Run(start, es);
            sel.challenger.Some? ==>
              && Leads(start, es, j, sel.challenger.value.idx, sel.activeIdx)
              && es[j].s.now == sel.challenger.value.since && sel.challenger.value.idx != sel.activeIdx
    decreases |es|
  {
    j := 0;
    if es != [] {
      var init, last := es[..|es| - 1], es[|es| - 1];
      j := ChallengerLeads(start, init);
      var was, sel := Run(start, init), Run(start, es);
      if sel.challenger.Some? && sel.challenger != was.challenger {
        j := |init|;
      } else if sel.challenger.Some? {
        LeadsLonger(start, init, last, j, sel.challenger.value.idx, sel.activeIdx);
        assert init + [last] == es;
      }
    }
  }

  lemma LeadsLonger(start: Selector, init: seq<Event>, last: Event, j: nat, idx: nat, active: nat)
    requires Leads(start, init, j, idx, active) && Favours(last, idx) && Run(start, init).activeIdx == active
    ensures Leads(start, init + [last], j, idx, active)
  {
    hide Step, Favours;
    var all := init + [last];
    forall i | j <= i < |all|
      ensures Favours(all[i], idx) && Run(start, all[..i]).activeIdx == active
    {
      assert all[..i] == if i < |init| then init[..i] else init;
    }
  }

  /** Over any run, traffic leaves a path only because that is the relay and was cleared, for the direct path; or for the best
      path, if the gap is at least 0.40, or the current path scores below 0.1, or the best one has been ahead by at least 0.15
      at every call for the last three seconds. */
  lemma EverySwitchHasCause(start: Selector, es: seq<Event>, e: Event) returns (j: nat)
    requires start.challenger.None?
    requires Step(Run(start, es), e).activeIdx != Run(start, es).activeIdx
    ensures e.RelayCleared? ==> Run(start, es).activeIdx == RELAY && Step(Run(start, es), e).activeIdx == 0
    ensures e.Seen? ==> e.s.best == Some(Step(Run(start, es), e).activeIdx)
    ensures e.Seen? && !Forced(e.s) ==>
              && j < |es| && es[j].Seen? && Age(e.s.now, es[j].s.now) >= SWITCH_CONFIRMING_TIME
              && Leads(start, es + [e], j, e.s.best.value, Run(start, es).activeIdx)
  {
    j := 0;
    if e.Seen? && !Forced(e.s) {
      j := ChallengerLeads(start, es);
      hide Run, Leads;
      LeadsLonger(start, es, e, j, e.s.best.value, Run(start, es).activeIdx);
    }
  }

  /** A lead of at least 0.15 that lasts is acted on: the challenger is taken at the latest by the first call that comes
      three seconds after the one that named it. */
  lemma LastingLeadWins(sel: Selector, es: seq<Event>, idx: nat)
    requires |es| > 1 && idx != sel.activeIdx && (sel.challenger.Some? ==> sel.challenger.value.idx != idx)
    requires forall i :: 0 <= i < |es| ==> es[i].Seen? && es[i].s.best == Some(idx) && Favours(es[i], idx)
    requires forall i :: 0 <= i < |es| - 1 ==> Age(es[i].s.now, es[0].s.now) < SWITCH_CONFIRMING_TIME
    requires Age(es[|es| - 1].s.now, es[0].s.now) >= SWITCH_CONFIRMING_TIME
    ensures Run(sel, es).activeIdx == idx
  {
    var n := |es| - 1;
    Challenging(sel, es[..n], idx);
    assert es[..n][0] == es[0];
  }

  lemma {:induction false} Challenging(sel: Selector, es: seq<Event>, idx: nat)
    requires es != [] && idx != sel.activeIdx && (sel.challenger.Some? ==> sel.challenger.value.idx != idx)
    requires forall i :: 0 <= i < |es| ==> es[i].Seen? && es[i].s.best == Some(idx) && Favours(es[i], idx)
    requires forall i :: 0 <= i < |es| ==> Age(es[i].s.now, es[0].s.now) < SWITCH_CONFIRMING_TIME
    ensures var r := Run(sel, es); r.activeIdx == idx || r == sel.(challenger := Some(Challenger(idx, es[0].s.now)))
    ensures Run(sel, es).activeIdx == idx ==> Run(sel, es).challenger.None?
    decreases |es|
  {
    var n := |es| - 1;
    if n == 0 {
      assert Run(sel, es[..0]) == sel;
    } else {
      assert es[..n][0] == es[0];
      Challenging(sel, es[..n], idx);
    }
  }

  class PathSet {
    var paths: Paths
    var activeIdx: nat
    var challenger: Option<Challenger>
    ghost var history: seq<Event>

    function View(): Selector
      reads this
    {
      Selector(activeIdx, challenger)
    }

    ghost predicate Valid()
      reads this
    {
      View() == Run(Selector(0, None), history)
    }

    constructor (direct: Path)
      ensures Valid() && history == [] && View() == Selector(0, None) && paths == [Some(direct), None, None]
    {
      paths, activeIdx, challenger, history := [Some(direct), None, None], 0, None, [];
    }

    /** `RoutingTable::clear_relay_path` on the path set. */
    method ClearRelay()
      requires Valid()
      modifies this
      ensures Valid() && history == old(history) + [RelayCleared]
      ensures paths == old(paths)[RELAY := None]
    {
      assert (history + [RelayCleared])[..|history|] == history;
      paths := paths[RELAY := None];
      if activeIdx == RELAY {
        activeIdx := 0;
      }
      challenger := None;
      history := history + [RelayCleared];
    }

    /** Slots are set and measured without any effect on the choice. */
    method SetPath(i: nat, path: Path)
      requires Valid() && i < 3
      modifies `paths
      ensures Valid() && paths == old(paths)[i := Some(path)]
    {
      paths := paths[i := Some(path)];
    }

    /** One call of `reselect_active`, recorded in the history with what it sees. */
    method ReselectActive(advanced: bool, now: nat) returns (ghost s: Sight)
      requires Valid()
      modifies `activeIdx, `challenger, `history
      ensures Valid() && history == old(history) + [Seen(s)]
      ensures s.now == now && IsBest(paths, advanced, s.best)
      ensures s.best.Some? ==> s.bestScore == Score(paths[s.best.value].value, advanced)
      ensures s.currentScore == if old(activeIdx) < 3 && Usable(paths[old(activeIdx)])
                                then Score(paths[old(activeIdx)].value, advanced) else 0.0
    {
      s := Decide(advanced, now);
      history := history + [Seen(s)];
      assert history[..|history| - 1] == old(history);
    }

    method Decide(advanced: bool, now: nat) returns (ghost s: Sight)
      modifies `activeIdx, `challenger
      ensures View() == Reselect(old(View()), s)
      ensures s.now == now && IsBest(paths, advanced, s.best)
      ensures s.best.Some? ==> s.bestScore == Score(paths[s.best.value].value, advanced)
      ensures s.currentScore == if old(activeIdx) < 3 && Usable(paths[old(activeIdx)])
                                then Score(paths[old(activeIdx)].value, advanced) else 0.0
    {
      hide Score, IsBest;
      var current := if activeIdx < 3 && Usable(paths[activeIdx]) then Score(paths[activeIdx].value, advanced) else 0.0;
      var best := BestPath(paths, advanced);
      s := Sight(now, best, 0.0, current);
      if best.None? {
        return;
      }
      BestIsUsable(paths, advanced, best);
      var bestScore := Score(paths[best.value].value, advanced);
      s := Sight(now, best, bestScore, current);
      if best.value == activeIdx {
        challenger := None;
        return;
      }
      var gap := bestScore - current;
      if gap >= FORCED_SWITCH_SCORE_GAP || current < CRISIS_SCORE_THRESHOLD {
        activeIdx, challenger := best.value, None;
        return;
      }
      if gap >= SWITCH_SCORE_GAP {
        if challenger.Some? && challenger.value.idx == best.value {
          if Age(now, challenger.value.since) >= SWITCH_CONFIRMING_TIME {
            activeIdx, challenger := best.value, None;
          }
        } else {
          challenger := Some(Challenger(best.value, now));
        }
      } else {
        challenger := None;
      }
    }
  }

  lemma BestIsUsable(paths: Paths, advanced: bool, best: Option<nat>)
    requires IsBest(paths, advanced, best) && best.Some?
    ensures best.value < 3 && Usable(paths[best.value])
  {
  }
}
