/** Whose turn it is to send a probe: the round-robin cursor of a tick (`rr_cursor` in src/pmtud.rs). */
module ProbeTurns {
  import opened Wrappers

  /** Where a tick with `n` wanting peers begins; a cursor past the end starts over. */
  function StartAt(cursor: nat, n: nat): nat {
    if cursor >= n then 0 else cursor
  }

  function NextCursor(cursor: nat, n: nat, issued: nat): nat {
    StartAt(cursor, n) + Max(issued, 1)
  }

  /** How many positions after the start position `j` of `n` comes, wrapping around. */
  function Distance(start: nat, n: nat, j: nat): int {
    if start <= j then j - start else j + n - start
  }

  /** Position `j` of `n` is within the first `i` positions from the start on. */
  predicate Visited(start: nat, i: nat, n: nat, j: nat) {
    Distance(start, n, j) < i
  }

  /** The `i`-th position from the start on. */
  function Position(start: nat, i: nat, n: nat): (k: nat)
    requires n > 0
    ensures k < n
  {
    (start + i) % n
  }

  lemma AllVisited(start: nat, n: nat, j: nat)
    requires start < n && j < n
    ensures Visited(start, n, n, j)
  {
  }

  lemma AtLeast(a: int, b: int, n: nat)
    ensures a <= b ==> a * n <= b * n
  {
    if a <= b {
      assert (b - a) * n >= 0;
    }
  }

  lemma PositionWraps(start: nat, i: nat, n: nat)
    requires start < n && i < n
    ensures Position(start, i, n) == if start + i < n then start + i else start + i - n
  {
    var a := start + i;
    var q := a / n;
    assert a == q * n + a % n;
    AtLeast(2, q, n);
    AtLeast(q, 0, n);
  }

  lemma VisitedNext(start: nat, i: nat, n: nat, j: nat)
    requires start < n && i < n && j < n
    ensures Visited(start, i + 1, n, j) <==> Visited(start, i, n, j) || j == Position(start, i, n)
  {
    hide Position;
    PositionWraps(start, i, n);
  }

  /** Exactly the peers at the first `visited` positions were tried. */
  ghost predicate TriedInTurn<T>(want: seq<T>, start: nat, visited: nat, tried: set<T>) {
    && (forall j :: 0 <= j < |want| && Visited(start, visited, |want|, j) ==> want[j] in tried)
    && (forall x :: x in tried ==> exists j :: 0 <= j < |want| && Visited(start, visited, |want|, j) && want[j] == x)
  }

  lemma NobodyTried<T>(want: seq<T>, start: nat)
    requires start < |want|
    ensures TriedInTurn(want, start, 0, {})
  {
  }

  lemma NextTried<T>(want: seq<T>, start: nat, i: nat, tried: set<T>)
    requires start < |want| && i < |want| && TriedInTurn(want, start, i, tried)
    ensures TriedInTurn(want, start, i + 1, tried + {want[Position(start, i, |want|)]})
  {
    hide Visited, Position;
    var next := Position(start, i, |want|);
    forall j | 0 <= j < |want|
      ensures Visited(start, i + 1, |want|, j) <==> Visited(start, i, |want|, j) || j == next
    {
      VisitedNext(start, i, |want|, j);
    }
    forall x | x in tried + {want[next]}
      ensures exists j :: 0 <= j < |want| && Visited(start, i + 1, |want|, j) && want[j] == x
    {
      if x == want[next] {
        VisitedNext(start, i, |want|, next);
      } else {
        var j :| 0 <= j < |want| && Visited(start, i, |want|, j) && want[j] == x;
        assert Visited(start, i + 1, |want|, j);
      }
    }
  }

  /** With all positions visited everybody was tried. */
  lemma AllTried<T>(want: seq<T>, start: nat, tried: set<T>)
    requires start < |want| && TriedInTurn(want, start, |want|, tried)
    ensures forall x :: x in want ==> x in tried
  {
    forall j | 0 <= j < |want|
      ensures want[j] in tried
    {
      AllVisited(start, |want|, j);
    }
  }

  lemma TriedAreWanting<T>(want: seq<T>, start: nat, visited: nat, tried: set<T>)
    requires TriedInTurn(want, start, visited, tried)
    ensures forall x :: x in tried ==> x in want
  {
  }

  // ---------- when a turn comes ----------

  /** One tick: how many positions it visited and how many probes it sent. */
  datatype Turn = Turn(visited: nat, issued: nat)

  function CursorAfter(cursor: nat, n: nat, turns: seq<Turn>): nat {
    if turns == [] then cursor
    else NextCursor(CursorAfter(cursor, n, turns[..|turns| - 1]), n, turns[|turns| - 1].issued)
  }

  /** The tick has at least one slot for `n` wanting peers. */
  predicate HasSlot(t: Turn, n: nat) {
    1 <= t.visited <= n && t.issued <= t.visited
  }

  /** A position that is not visited comes closer. */
  lemma ComesCloser(cursor: nat, n: nat, t: Turn, j: nat)
    requires j < n && HasSlot(t, n) && !Visited(StartAt(cursor, n), t.visited, n, j)
    ensures Distance(StartAt(NextCursor(cursor, n, t.issued), n), n, j) < Distance(StartAt(cursor, n), n, j)
  {
  }

  /** As long as the same peers want a probe, and every tick has a slot, each of them gets its turn within as many ticks as
      they are. */
  lemma TurnComes(cursor: nat, n: nat, turns: seq<Turn>, j: nat)
    requires j < n <= |turns| && forall i :: 0 <= i < |turns| ==> HasSlot(turns[i], n)
    ensures exists i :: 0 <= i < n && Visited(StartAt(CursorAfter(cursor, n, turns[..i]), n), turns[i].visited, n, j)
  {
    if forall i :: 0 <= i < n ==> !Visited(StartAt(CursorAfter(cursor, n, turns[..i]), n), turns[i].visited, n, j) {
      Waiting(cursor, n, turns, j, n);
      assert false;
    }
  }

  lemma {:induction false} Waiting(cursor: nat, n: nat, turns: seq<Turn>, j: nat, k: nat)
    requires j < n && k <= n <= |turns| && forall i :: 0 <= i < |turns| ==> HasSlot(turns[i], n)
    requires forall i :: 0 <= i < n ==> !Visited(StartAt(CursorAfter(cursor, n, turns[..i]), n), turns[i].visited, n, j)
    ensures 0 <= Distance(StartAt(CursorAfter(cursor, n, turns[..k]), n), n, j) < n - k
    decreases k
  {
    hide Visited, HasSlot;
    if k > 0 {
      Waiting(cursor, n, turns, j, k - 1);
      assert turns[..k][..k - 1] == turns[..k - 1];
      ComesCloser(CursorAfter(cursor, n, turns[..k - 1]), n, turns[k - 1], j);
    }
  }

  // ---------- when it does not ----------

  datatype Name = A | B | C

  predicate Odd(k: nat) {
    k > 0 && !Odd(k - 1)
  }

  /** Peers that want a probe at each tick: at first all three, then those whose probe is not under way. */
  function Wanting(k: nat): seq<Name> {
    if k == 0 then [A, B, C] else if Odd(k) then [B, C] else [A, B]
  }

  function CursorAt(k: nat): nat {
    if k == 0 then 0 else NextCursor(CursorAt(k - 1), |Wanting(k - 1)|, 1)
  }

  function ServedAt(k: nat): Name {
    Wanting(k)[StartAt(CursorAt(k), |Wanting(k)|)]
  }

  lemma {:induction false} CursorAlternates(k: nat)
    ensures CursorAt(k) == if k == 0 then 0 else if Odd(k) then 1 else 2
    decreases k
  {
    if k > 0 {
      CursorAlternates(k - 1);
      hide Wanting;
      WantingSize(k - 1);
    }
  }

  lemma WantingSize(k: nat)
    ensures |Wanting(k)| == if k == 0 then 3 else 2
  {
  }

  lemma ServedAlternates(k: nat)
    ensures ServedAt(k) == if Odd(k) then C else A
  {
    CursorAlternates(k);
  }

  /** With one slot a peer can be passed over for ever while two others take turns: it wants a probe at every tick, each of
      the others exactly if it was not the one served last, and it never gets one. */
  lemma PassedOver(k: nat)
    ensures B in Wanting(k) && ServedAt(k) != B
    ensures k > 0 ==> forall x :: x in Wanting(k) <==> x != ServedAt(k - 1)
  {
    hide ServedAt;
    ServedAlternates(k);
    if k > 0 {
      ServedAlternates(k - 1);
    }
  }
}
