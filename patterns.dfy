/** Coil-energisation truth tables of the Stepper library, one per wiring.
    Rows are the "Step" lines of the tables documented at the head of
    src/Stepper.cpp (Step k is row k - 1); a row lists one level per control
    wire, HIGH as true. */
module Patterns {

  datatype Option<T> = None | Some(value: T)

  const HIGH: bool := true
  const LOW: bool := false

  /** Five phases, five control wires C0..C4 (ten rows). */
  const FivePhase: seq<seq<bool>> := [
    [LOW,  HIGH, HIGH, LOW,  HIGH],
    [LOW,  HIGH, LOW,  LOW,  HIGH],
    [LOW,  HIGH, LOW,  HIGH, HIGH],
    [LOW,  HIGH, LOW,  HIGH, LOW ],
    [HIGH, HIGH, LOW,  HIGH, LOW ],
    [HIGH, LOW,  LOW,  HIGH, LOW ],
    [HIGH, LOW,  HIGH, HIGH, LOW ],
    [HIGH, LOW,  HIGH, LOW,  LOW ],
    [HIGH, LOW,  HIGH, LOW,  HIGH],
    [LOW,  LOW,  HIGH, LOW,  HIGH]
  ]

  /** Four control wires C0..C3 (four rows). */
  const FourWire: seq<seq<bool>> := [
    [HIGH, LOW,  HIGH, LOW ],
    [LOW,  HIGH, HIGH, LOW ],
    [LOW,  HIGH, LOW,  HIGH],
    [HIGH, LOW,  LOW,  HIGH]
  ]

  /** Two control wires C0..C1 (four rows). */
  const TwoWire: seq<seq<bool>> := [
    [LOW,  HIGH],
    [HIGH, HIGH],
    [HIGH, LOW ],
    [LOW,  LOW ]
  ]

  /** The wirings the constructors can set up. */
  predicate SupportedPinCount(pinCount: int) {
    pinCount == 2 || pinCount == 4 || pinCount == 5
  }

  /** The number of rows the sequencer cycles through: move() reduces the step
      number modulo 10 for five pins and modulo 4 otherwise. */
  function CycleLength(pinCount: int): nat {
    if pinCount == 5 then 10 else 4
  }

  /** The table stepMotor consults for a pin count; any other pin count has
      no table, so no pin is written. */
  function Table(pinCount: int): seq<seq<bool>> {
    if pinCount == 2 then TwoWire
    else if pinCount == 4 then FourWire
    else if pinCount == 5 then FivePhase
    else []
  }

  /** The row for index `thisStep`, or None when the index is outside the table. */
  function Row(pinCount: int, thisStep: int): (r: Option<seq<bool>>)
    ensures r.Some? <==> SupportedPinCount(pinCount) && 0 <= thisStep < CycleLength(pinCount)
    ensures r.Some? ==> |r.value| == pinCount
  {
    if 0 <= thisStep < |Table(pinCount)| then Some(Table(pinCount)[thisStep]) else None
  }

  /** The levels of the five pin slots after the pins of `row` are written
      in order: slot k takes row[k], the slots beyond the row keep their level. */
  function Apply(levels: seq<bool>, row: seq<bool>): (r: seq<bool>)
    requires |row| <= |levels|
    ensures |r| == |levels|
    ensures forall k :: 0 <= k < |row| ==> r[k] == row[k]
    ensures forall k :: |row| <= k < |levels| ==> r[k] == levels[k]
  {
    row + levels[|row|..]
  }

  /** The levels after stepMotor(thisStep): the row applied if there is one,
      otherwise the old levels. */
  function Written(levels: seq<bool>, pinCount: int, thisStep: int): seq<bool>
    requires pinCount <= |levels|
  {
    match Row(pinCount, thisStep)
    case Some(row) => Apply(levels, row)
    case None => levels
  }

  /** The number of positions in which two rows of equal length differ. */
  function Differences(a: seq<bool>, b: seq<bool>): nat
    requires |a| == |b|
  {
    if a == [] then 0 else (if a[0] != b[0] then 1 else 0) + Differences(a[1..], b[1..])
  }

  /** Every supported table has one row per cycle position and one level per
      control wire. */
  lemma TableShape(pinCount: int)
    requires SupportedPinCount(pinCount)
    ensures |Table(pinCount)| == CycleLength(pinCount)
    ensures forall i :: 0 <= i < |Table(pinCount)| ==> |Table(pinCount)[i]| == pinCount
  {
  }

  /** The two-wire table is columns C1 and C2 of the four-wire table. */
  lemma TwoWireIsMiddleColumns()
    ensures |TwoWire| == |FourWire|
    ensures forall i :: 0 <= i < |TwoWire| ==> TwoWire[i] == [FourWire[i][1], FourWire[i][2]]
  {
  }

  /** In every four-wire row C0 is the inverse of C1 and C3 the inverse of C2,
      so the two-wire levels determine all four coils: an inverting circuit on
      two pins reproduces the four-wire sequence. */
  lemma FourWireFromTwoWire()
    ensures forall i :: 0 <= i < |FourWire| ==>
      FourWire[i] == [!TwoWire[i][0], TwoWire[i][0], TwoWire[i][1], !TwoWire[i][1]]
  {
  }

  /** Differences over equal rows is zero, and it is symmetric. */
  lemma {:induction false} DifferencesSymmetric(a: seq<bool>, b: seq<bool>)
    requires |a| == |b|
    ensures Differences(a, b) == Differences(b, a)
    ensures Differences(a, a) == 0
  {
    if a != [] {
      DifferencesSymmetric(a[1..], b[1..]);
    }
  }

  /** Rows equal everywhere except possibly at position k differ in at most
      that one position. */
  lemma {:induction false} DiffersOnlyAt(a: seq<bool>, b: seq<bool>, k: int)
    requires |a| == |b| && 0 <= k < |a|
    requires forall m :: 0 <= m < |a| && m != k ==> a[m] == b[m]
    ensures Differences(a, b) == if a[k] != b[k] then 1 else 0
  {
    if k == 0 {
      assert a[1..] == b[1..];
      DifferencesSymmetric(a[1..], b[1..]);
    } else {
      DiffersOnlyAt(a[1..], b[1..], k - 1);
    }
  }

  /** Rows equal everywhere except at the neighbouring positions k and k + 1,
      where both differ, differ in exactly two positions. */
  lemma {:induction false} DiffersExactlyAtPair(a: seq<bool>, b: seq<bool>, k: int)
    requires |a| == |b| && 0 <= k && k + 1 < |a|
    requires a[k] != b[k] && a[k + 1] != b[k + 1]
    requires forall m :: 0 <= m < |a| && m != k && m != k + 1 ==> a[m] == b[m]
    ensures Differences(a, b) == 2
  {
    if k == 0 {
      DiffersOnlyAt(a[1..], b[1..], 0);
    } else {
      DiffersExactlyAtPair(a[1..], b[1..], k - 1);
    }
  }

  /** Cyclically adjacent rows of the two-wire and five-phase tables differ in
      exactly one wire; adjacent four-wire rows differ in exactly two (one
      complementary pair switches). */
  lemma AdjacentRowsDiffer(pinCount: int, i: int)
    requires SupportedPinCount(pinCount)
    requires 0 <= i < CycleLength(pinCount)
    ensures var t, j := Table(pinCount), (i + 1) % CycleLength(pinCount);
      Differences(t[i], t[j]) == (if pinCount == 4 then 2 else 1)
  {
    if pinCount == 2 {
      AdjacentTwoWire(i);
    } else if pinCount == 5 {
      AdjacentFivePhase(i);
    } else {
      AdjacentFourWire(i);
    }
  }

  lemma AdjacentTwoWire(i: int)
    requires 0 <= i < 4
    ensures Differences(TwoWire[i], TwoWire[(i + 1) % 4]) == 1
  {
    DiffersOnlyAt(TwoWire[i], TwoWire[(i + 1) % 4], i % 2);
  }

  lemma AdjacentFourWire(i: int)
    requires 0 <= i < 4
    ensures Differences(FourWire[i], FourWire[(i + 1) % 4]) == 2
  {
    DiffersExactlyAtPair(FourWire[i], FourWire[(i + 1) % 4], if i % 2 == 0 then 0 else 2);
  }

  lemma AdjacentFivePhase(i: int)
    requires 0 <= i < 10
    ensures Differences(FivePhase[i], FivePhase[(i + 1) % 10]) == 1
  {
    DiffersOnlyAt(FivePhase[i], FivePhase[(i + 1) % 10], (i + 2) % 5);
  }

  /** All rows of a table are distinct, so the row index is recoverable from
      the pin levels. */
  lemma RowsDistinct(pinCount: int, i: int, j: int)
    requires SupportedPinCount(pinCount)
    requires 0 <= i < CycleLength(pinCount) && 0 <= j < CycleLength(pinCount)
    requires Table(pinCount)[i] == Table(pinCount)[j]
    ensures i == j
  {
  }
}
