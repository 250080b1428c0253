/** The board: the cell codec, the 12-slot configuration with its validity and
    termination predicates, and the mutable BoardState that keeps a decoded
    cache of its slots. */
module Board {

  const NRows := 8
  const NCols := 7
  const NSlots := 12
  /** Number of cells; encoded positions live in [0, NCells). */
  const NCells := 56

  /** A board coordinate (column, row). Not every value is on the board. */
  datatype Cell = Cell(col: int, row: int)

  predicate OnBoard(c: Cell) {
    0 <= c.col < NCols && 0 <= c.row < NRows
  }

  /** The encoding (col, row) -> row * 7 + col. */
  function Encode(c: Cell): (n: int)
    ensures OnBoard(c) ==> 0 <= n < NCells
  {
    c.row * NCols + c.col
  }

  /** The decoding n -> (n mod 7, n div 7). Dafny's division by the positive
      constant 7 floors, so the decoded cache of an out-of-range slot (the
      -1 and 56 probed for validity) matches Python's // and %. */
  function Decode(n: int): (c: Cell)
    ensures 0 <= c.col < NCols
    ensures Encode(c) == n
    ensures OnBoard(c) <==> 0 <= n < NCells
  {
    Cell(n % NCols, n / NCols)
  }

  /** Decoding undoes encoding on every cell whose column is in range,
      whatever its row. */
  lemma DecodeEncode(c: Cell)
    requires 0 <= c.col < NCols
    ensures Decode(Encode(c)) == c
  {
  }

  /** The codec is a bijection between the 56 cells and [0, 56). */
  lemma CodecBijection()
    ensures forall c: Cell :: OnBoard(c) ==> 0 <= Encode(c) < NCells && Decode(Encode(c)) == c
    ensures forall n: int :: 0 <= n < NCells ==> OnBoard(Decode(n)) && Encode(Decode(n)) == n
  {
    forall c: Cell | OnBoard(c) ensures Decode(Encode(c)) == c {
      DecodeEncode(c);
    }
  }

  /** Decoding is injective on all integers. */
  lemma DecodeInjective(m: int, n: int)
    ensures Decode(m) == Decode(n) <==> m == n
  {
    if Decode(m) == Decode(n) {
      assert Encode(Decode(m)) == Encode(Decode(n));
    }
  }

  // ---------------------------------------------------------------------
  // Slots of a configuration

  /** Slot of player's relative piece idx (0..4 blockers, 5 the ball). */
  function SlotOf(player: int, idx: int): int {
    player * 6 + idx
  }

  function BallSlot(player: int): int {
    SlotOf(player, 5)
  }

  predicate IsPlayer(player: int) {
    player == 0 || player == 1
  }

  predicate IsBlockerSlot(i: int) {
    (0 <= i < 5) || (6 <= i < 11)
  }

  /** The player owning slot i. */
  function Owner(i: int): int {
    if i < 6 then 0 else 1
  }

  /** The canonical opening layout: white on row 0, black on row 7, each ball
      held by the blocker in the middle column. */
  const Opening: seq<int> := [1, 2, 3, 4, 5, 3, 50, 51, 52, 53, 54, 52]

  /** Slot i encodes a cell. */
  predicate InRange(s: seq<int>, i: int)
    requires 0 <= i < |s|
  {
    0 <= s[i] < NCells
  }

  /** Slots i and j hold different values. */
  predicate Apart(s: seq<int>, i: int, j: int)
    requires 0 <= i < |s| && 0 <= j < |s|
  {
    s[i] != s[j]
  }

  /** Blocker slot i sits on the cell of ball slot b. */
  predicate Carries(s: seq<int>, i: int, b: int)
    requires 0 <= i < |s| && 0 <= b < |s|
  {
    s[i] == s[b]
  }

  /** The validity rules, over any 12 integers: every slot encodes a cell,
      the ten blockers are pairwise distinct and each ball sits on one of its
      own team's blockers. */
  predicate IsValid(s: seq<int>)
    requires |s| == NSlots
  {
    (forall i {:trigger InRange(s, i)} :: 0 <= i < NSlots ==> InRange(s, i)) &&
    (forall i, j {:trigger Apart(s, i, j)} :: 0 <= i < j < NSlots && IsBlockerSlot(i) && IsBlockerSlot(j) ==> Apart(s, i, j)) &&
    (exists i {:trigger Carries(s, i, 5)} :: 0 <= i < 5 && Carries(s, i, 5)) &&
    (exists i {:trigger Carries(s, i, 11)} :: 6 <= i < 11 && Carries(s, i, 11))
  }

  /** Two distinct slots may hold the same value only if one is a ball and
      the other one of the blockers of that ball's team. */
  predicate SharingAllowed(i: int, j: int) {
    (i == 5 && 0 <= j < 5) || (j == 5 && 0 <= i < 5) ||
    (i == 11 && 6 <= j < 11) || (j == 11 && 6 <= i < 11)
  }

  /** The rules in pairwise form: in range, every coincidence is a ball on
      one of its own blockers, and each ball coincides with exactly one of
      its team's blockers. */
  lemma ValidIff(s: seq<int>)
    requires |s| == NSlots
    ensures IsValid(s) <==>
      (forall i :: 0 <= i < NSlots ==> 0 <= s[i] < NCells) &&
      (forall i, j :: 0 <= i < NSlots && 0 <= j < NSlots && i != j && s[i] == s[j] ==> SharingAllowed(i, j)) &&
      (exists i :: 0 <= i < 5 && s[i] == s[5]) &&
      (exists i :: 6 <= i < 11 && s[i] == s[11])
    ensures IsValid(s) ==>
      (forall i, j :: 0 <= i < j < 5 ==> !(s[i] == s[5] && s[j] == s[5])) &&
      (forall i, j :: 6 <= i < j < 11 ==> !(s[i] == s[11] && s[j] == s[11]))
  {
    if IsValid(s) {
      var b0 :| 0 <= b0 < 5 && s[b0] == s[5];
      var b1 :| 6 <= b1 < 11 && s[b1] == s[11];
      forall i | 0 <= i < NSlots ensures 0 <= s[i] < NCells {
        assert InRange(s, i);
      }
      forall i, j | 0 <= i < NSlots && 0 <= j < NSlots && i != j && s[i] == s[j]
        ensures SharingAllowed(i, j)
      {
        // Replace each ball by its holder; two blockers never coincide.
        var i' := if i == 5 then b0 else if i == 11 then b1 else i;
        var j' := if j == 5 then b0 else if j == 11 then b1 else j;
        assert s[i'] == s[j'] && IsBlockerSlot(i') && IsBlockerSlot(j');
        if i' < j' {
          assert Apart(s, i', j');
        } else if j' < i' {
          assert Apart(s, j', i');
        }
      }
    } else if (forall i, j :: 0 <= i < NSlots && 0 <= j < NSlots && i != j && s[i] == s[j] ==> SharingAllowed(i, j)) &&
              (exists i :: 0 <= i < 5 && s[i] == s[5]) && (exists i :: 6 <= i < 11 && s[i] == s[11]) {
      forall i, j | 0 <= i < j < NSlots && IsBlockerSlot(i) && IsBlockerSlot(j) ensures Apart(s, i, j) {
        assert !SharingAllowed(i, j);
      }
      var b0 :| 0 <= b0 < 5 && s[b0] == s[5];
      var b1 :| 6 <= b1 < 11 && s[b1] == s[11];
      assert Carries(s, b0, 5) && Carries(s, b1, 11);
    }
  }

  /** A configuration is terminal when it is valid and white's ball has
      reached row 7 or black's ball has reached row 0. */
  predicate IsTerminal(s: seq<int>)
    requires |s| == NSlots
  {
    IsValid(s) && (Decode(s[5]).row == NRows - 1 || Decode(s[11]).row == 0)
  }

  /** The player's ball stands on the row it plays towards: row 7 for
      white, row 0 for black. */
  predicate OnGoalRow(s: seq<int>, player: int)
    requires |s| == NSlots && IsPlayer(player)
  {
    Decode(s[BallSlot(player)]).row == if player == 0 then NRows - 1 else 0
  }

  /** The validity gate comes first: a malformed board is never terminal,
      whatever rows its balls decode to. With it, termination is exactly a
      ball on its goal row. */
  lemma TerminalIff(s: seq<int>)
    requires |s| == NSlots
    ensures !IsValid(s) ==> !IsTerminal(s)
    ensures IsValid(s) ==> (IsTerminal(s) <==> (s[5] / NCols == 7 || s[11] / NCols == 0))
    ensures IsTerminal(s) ==> 49 <= s[5] < 56 || 0 <= s[11] < 7
  {
  }

  // ---------------------------------------------------------------------
  // Concrete facts the opening and the probes of test_search.py fix

  /** The opening decodes to the listed cells, e.g. 50 to (1, 7). */
  lemma OpeningDecodes()
    ensures |Opening| == NSlots
    ensures DecodeAll(Opening) == [Cell(1, 0), Cell(2, 0), Cell(3, 0), Cell(4, 0), Cell(5, 0), Cell(3, 0),
                                   Cell(1, 7), Cell(2, 7), Cell(3, 7), Cell(4, 7), Cell(5, 7), Cell(3, 7)]
  {
  }

  /** The opening is valid and not terminal. */
  lemma OpeningValid()
    ensures |Opening| == NSlots && IsValid(Opening) && !IsTerminal(Opening)
  {
    assert Carries(Opening, 2, 5) && Carries(Opening, 8, 11);
  }

  /** A slot outside [0, 56) makes the board invalid. */
  lemma OutOfRangeInvalid(s: seq<int>, i: int)
    requires |s| == NSlots && 0 <= i < NSlots
    requires s[i] < 0 || s[i] >= NCells
    ensures !IsValid(s)
  {
    assert !InRange(s, i);
  }

  /** A coincidence other than a ball on its own blocker makes the board
      invalid. */
  lemma CollisionInvalid(s: seq<int>, i: int, j: int)
    requires |s| == NSlots && 0 <= i < NSlots && 0 <= j < NSlots && i != j
    requires s[i] == s[j] && !SharingAllowed(i, j)
    ensures !IsValid(s)
  {
    ValidIff(s);
  }

  /** A ball that no blocker of its own team holds makes the board invalid. */
  lemma UnheldBallInvalid(s: seq<int>, player: int)
    requires |s| == NSlots && IsPlayer(player)
    requires forall i :: 0 <= i < 5 ==> s[SlotOf(player, i)] != s[BallSlot(player)]
    ensures !IsValid(s)
  {
    if player == 0 {
      forall i | 0 <= i < 5 ensures !Carries(s, i, 5) {
        assert s[SlotOf(0, i)] != s[BallSlot(0)];
      }
    } else {
      forall i | 6 <= i < 11 ensures !Carries(s, i, 11) {
        assert s[SlotOf(1, i - 6)] != s[BallSlot(1)];
      }
    }
  }

  /** The sequence of probes of the validity test, in order. */
  lemma ValidityProbes()
    ensures !IsValid(Opening[0 := -1])
    ensures IsValid(Opening[0 := 0])
    ensures !IsValid(Opening[0 := -1][6 := 56])
    ensures !IsValid(Opening[0 := 0][6 := 0])
    ensures IsValid(Opening[0 := 1][5 := 1][6 := 50])
    ensures !IsValid(Opening[0 := 1][5 := 0][6 := 50])
    ensures !IsValid(Opening[0 := 1][5 := 10][6 := 50])
  {
    OutOfRangeInvalid(Opening[0 := -1], 0);
    OutOfRangeInvalid(Opening[0 := -1][6 := 56], 0);
    ValidProbes();
    CollisionInvalid(Opening[0 := 0][6 := 0], 0, 6);
    UnheldBallInvalid(Opening[0 := 1][5 := 0][6 := 50], 0);
    UnheldBallInvalid(Opening[0 := 1][5 := 10][6 := 50], 0);
  }

  /** The two probes the validity test accepts. */
  lemma ValidProbes()
    ensures IsValid(Opening[0 := 0])
    ensures IsValid(Opening[0 := 1][5 := 1][6 := 50])
  {
    var s := Opening[0 := 0];
    assert Carries(s, 2, 5) && Carries(s, 8, 11);
    var t := Opening[0 := 1][5 := 1][6 := 50];
    assert Carries(t, 0, 5) && Carries(t, 8, 11);
  }

  /** The six termination fixtures: the opening, three malformed boards
      (two with a ball on a goal row) and one win for each side. */
  lemma TerminationFixtures()
    ensures !IsTerminal([1, 2, 3, 4, 5, 3, 50, 51, 52, 53, 54, 52])
    ensures !IsTerminal([1, 2, 3, 4, 5, 55, 50, 51, 52, 53, 54, 0])
    ensures !IsTerminal([1, 2, 3, 4, 49, 49, 50, 51, 52, 53, 54, 0])
    ensures IsTerminal([1, 2, 3, 4, 49, 49, 50, 51, 52, 53, 54, 54])
    ensures IsTerminal([1, 2, 3, 4, 5, 5, 50, 51, 52, 53, 6, 6])
    ensures !IsTerminal([1, 2, 3, 4, 5, 5, 50, 4, 52, 53, 6, 6])
  {
    OpeningValid();
    UnheldBallInvalid([1, 2, 3, 4, 5, 55, 50, 51, 52, 53, 54, 0], 0);
    UnheldBallInvalid([1, 2, 3, 4, 49, 49, 50, 51, 52, 53, 54, 0], 1);
    WhiteWinFixture();
    BlackWinFixture();
    CollisionInvalid([1, 2, 3, 4, 5, 5, 50, 4, 52, 53, 6, 6], 3, 7);
  }

  lemma WhiteWinFixture()
    ensures IsTerminal([1, 2, 3, 4, 49, 49, 50, 51, 52, 53, 54, 54])
  {
    var w := [1, 2, 3, 4, 49, 49, 50, 51, 52, 53, 54, 54];
    assert Carries(w, 4, 5) && Carries(w, 10, 11);
    assert Decode(49).row == 7;
  }

  lemma BlackWinFixture()
    ensures IsTerminal([1, 2, 3, 4, 5, 5, 50, 51, 52, 53, 6, 6])
  {
    var b := [1, 2, 3, 4, 5, 5, 50, 51, 52, 53, 6, 6];
    assert Carries(b, 4, 5) && Carries(b, 10, 11);
    assert Decode(6).row == 0;
  }

  /** The decoded form of a configuration, slot by slot. */
  function DecodeAll(s: seq<int>): (r: seq<Cell>)
    ensures |r| == |s|
  {
    seq(|s|, i requires 0 <= i < |s| => Decode(s[i]))
  }

  /** Decoding slot by slot loses nothing: each cell encodes back to its
      slot, and lies on the board exactly when the slot is in range. */
  lemma DecodeAllSpec(s: seq<int>)
    ensures forall i :: 0 <= i < |s| ==>
      Encode(DecodeAll(s)[i]) == s[i] && (OnBoard(DecodeAll(s)[i]) <==> 0 <= s[i] < NCells)
  {
  }

  // ---------------------------------------------------------------------
  // The mutable board: an encoded array and its decoded cache

  class BoardState {
    var state: array<int>
    var decodeState: seq<Cell>

    /** The shape every BoardState keeps: 12 slots and 12 cached cells. */
    ghost predicate Wellformed()
      reads this
    {
      state.Length == NSlots && |decodeState| == NSlots
    }

    /** The cache agrees with the slots. */
    ghost predicate CacheCoherent()
      reads this, state
    {
      decodeState == MakeState()
    }

    /** A fresh opening board with a coherent cache. */
    constructor ()
      ensures Wellformed() && CacheCoherent() && fresh(state)
      ensures state[..] == Opening
    {
      var a := new int[NSlots];
      a[0], a[1], a[2], a[3], a[4], a[5] := 1, 2, 3, 4, 5, 3;
      a[6], a[7], a[8], a[9], a[10], a[11] := 50, 51, 52, 53, 54, 52;
      state := a;
      decodeState := DecodeAll(a[..]);
      new;
      assert state[..] == Opening;
    }

    /** A freshly decoded list of the current slots. */
    function MakeState(): (r: seq<Cell>)
      reads this, state
      ensures |r| == state.Length
    {
      DecodeAll(state[..])
    }

    /** Overwrites slot idx and its cached cell; no validity check. */
    method Update(idx: int, val: int)
      requires Wellformed() && 0 <= idx < NSlots
      modifies this, state
      ensures Wellformed() && state == old(state)
      ensures state[..] == old(state[..])[idx := val]
      ensures decodeState == old(decodeState)[idx := Decode(val)]
      ensures old(CacheCoherent()) ==> CacheCoherent()
    {
      state[idx] := val;
      decodeState := decodeState[idx := Decode(state[idx])];
    }
  }
}
