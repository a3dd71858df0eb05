/**
 Seat assignment in mocknet: the seat price found by binary search, the genesis validators and
 the upgrade schedule that are taken greedily from the sorted seats.
 */
module Seats {

  datatype Staked = Staked(stake: nat, item: string)

  datatype Row = Row(seats: nat, stake: nat, item: string)

  /** The seats one stake buys. */
  function Afford(stake: nat, price: nat): nat
    requires price > 0
  {
    stake / price
  }

  /** The seats bought cost no more than the stake, and one more would. */
  lemma AffordIs(stake: nat, price: nat)
    requires price > 0
    ensures Afford(stake, price) * price <= stake < (Afford(stake, price) + 1) * price
  {
    assert (Afford(stake, price) + 1) * price == Afford(stake, price) * price + price;
  }

  function SeatsAt(stakes: seq<Staked>, price: nat): nat
    requires price > 0
  {
    if stakes == [] then 0 else SeatsAt(stakes[..|stakes| - 1], price) + Afford(stakes[|stakes| - 1].stake, price)
  }

  function RowsAt(stakes: seq<Staked>, price: nat): seq<Row>
    requires price > 0
  {
    if stakes == [] then []
    else
      var last := stakes[|stakes| - 1];
      RowsAt(stakes[..|stakes| - 1], price) + [Row(Afford(last.stake, price), last.stake, last.item)]
  }

  function TotalSeats(rows: seq<Row>): nat {
    if rows == [] then 0 else TotalSeats(rows[..|rows| - 1]) + rows[|rows| - 1].seats
  }

  /** The least price at which the seats fit. */
  ghost predicate IsSeatPrice(stakes: seq<Staked>, numSeats: nat, price: nat) {
    && price >= 1
    && SeatsAt(stakes, price) <= numSeats
    && forall p :: 1 <= p < price ==> SeatsAt(stakes, p) > numSeats
  }

  function StakedOf(rows: seq<Row>): seq<Staked> {
    if rows == [] then []
    else StakedOf(rows[..|rows| - 1]) + [Staked(rows[|rows| - 1].stake, rows[|rows| - 1].item)]
  }

  // A higher price never sells more seats

  lemma MulMono(x: nat, y: nat, z: nat)
    requires x <= y
    ensures z * x <= z * y
  {
    assert z * y == z * x + z * (y - x);
  }

  lemma MulCancel(z: nat, x: nat, y: nat)
    requires z * x < z * y
    ensures x < y
  {
    if y <= x {
      MulMono(y, x, z);
    }
  }

  lemma AffordAntitone(a: nat, p: nat, q: nat)
    requires 0 < p <= q
    ensures Afford(a, q) <= Afford(a, p)
  {
    var x, y := a / p, a / q;
    assert a < p * (x + 1) && y * q <= a;
    MulMono(p, q, y);
    MulCancel(p, y, x + 1);
  }

  lemma {:induction false} SeatsAntitone(stakes: seq<Staked>, p: nat, q: nat)
    requires 0 < p <= q
    ensures SeatsAt(stakes, q) <= SeatsAt(stakes, p)
  {
    if stakes != [] {
      SeatsAntitone(stakes[..|stakes| - 1], p, q);
      AffordAntitone(stakes[|stakes| - 1].stake, p, q);
    }
  }

  lemma {:induction false} NoSeatsAboveMax(stakes: seq<Staked>, price: nat)
    requires price > 0 && forall i :: 0 <= i < |stakes| ==> stakes[i].stake < price
    ensures SeatsAt(stakes, price) == 0
  {
    if stakes != [] {
      NoSeatsAboveMax(stakes[..|stakes| - 1], price);
      assert Afford(stakes[|stakes| - 1].stake, price) == 0;
    }
  }

  // Sorting

  /** Lexicographic order of strings, then of rows, as Python compares tuples. */
  predicate StringLeq(a: string, b: string) {
    a == [] || (b != [] && (a[0] < b[0] || (a[0] == b[0] && StringLeq(a[1..], b[1..]))))
  }

  predicate RowLeq(x: Row, y: Row) {
    x.seats < y.seats || (x.seats == y.seats
        && (x.stake < y.stake || (x.stake == y.stake && StringLeq(x.item, y.item))))
  }

  lemma StringLeqTotal(a: string, b: string)
    ensures StringLeq(a, b) || StringLeq(b, a)
  {
  }

  predicate IsDescending(rows: seq<Row>) {
    forall i :: 0 <= i < |rows| - 1 ==> RowLeq(rows[i + 1], rows[i])
  }

  lemma {:induction false} StringLeqTransitive(a: string, b: string, c: string)
    requires StringLeq(a, b) && StringLeq(b, c)
    ensures StringLeq(a, c)
  {
    if a != [] && a[0] == b[0] == c[0] {
      StringLeqTransitive(a[1..], b[1..], c[1..]);
    }
  }

  /** Seats never increase, nor stakes among equal seats, nor items among equal stakes. */
  lemma {:induction false} DescendingIs(rows: seq<Row>, i: nat, j: nat)
    requires IsDescending(rows) && i < j < |rows|
    ensures rows[j].seats <= rows[i].seats
    ensures rows[j].seats == rows[i].seats ==> rows[j].stake <= rows[i].stake
    ensures rows[j].seats == rows[i].seats && rows[j].stake == rows[i].stake ==>
              StringLeq(rows[j].item, rows[i].item)
    decreases j - i
  {
    assert RowLeq(rows[i + 1], rows[i]);
    if i + 1 < j {
      DescendingIs(rows, i + 1, j);
      if StringLeq(rows[j].item, rows[i + 1].item) && StringLeq(rows[i + 1].item, rows[i].item) {
        StringLeqTransitive(rows[j].item, rows[i + 1].item, rows[i].item);
      }
    }
  }

  /** Inserts a row behind the last row that is not below it. */
  function Insert(rows: seq<Row>, x: Row): (r: seq<Row>)
    ensures |r| == |rows| + 1
  {
    if rows == [] || RowLeq(x, rows[|rows| - 1]) then rows + [x] else Insert(rows[..|rows| - 1], x) + [rows[|rows| - 1]]
  }

  /** `seats.sort(reverse=True)`. */
  function SortDescending(rows: seq<Row>): seq<Row> {
    if rows == [] then [] else Insert(SortDescending(rows[..|rows| - 1]), rows[|rows| - 1])
  }

  lemma LastRow(rows: seq<Row>, x: Row)
    ensures TotalSeats(rows + [x]) == TotalSeats(rows) + x.seats
    ensures StakedOf(rows + [x]) == StakedOf(rows) + [Staked(x.stake, x.item)]
  {
    assert (rows + [x])[..|rows|] == rows;
  }

  lemma {:induction false} InsertKeeps(rows: seq<Row>, x: Row)
    ensures multiset(Insert(rows, x)) == multiset(rows) + multiset{x}
    ensures TotalSeats(Insert(rows, x)) == TotalSeats(rows) + x.seats
    ensures multiset(StakedOf(Insert(rows, x))) == multiset(StakedOf(rows)) + multiset{Staked(x.stake, x.item)}
  {
    hide RowLeq, TotalSeats, StakedOf;
    if rows == [] || RowLeq(x, rows[|rows| - 1]) {
      LastRow(rows, x);
    } else {
      var init, last := rows[..|rows| - 1], rows[|rows| - 1];
      assert rows == init + [last];
      InsertKeeps(init, x);
      LastRow(init, last);
      LastRow(Insert(init, x), last);
    }
  }

  lemma {:induction false} InsertDescends(rows: seq<Row>, x: Row)
    requires IsDescending(rows)
    ensures IsDescending(Insert(rows, x))
    ensures var r := Insert(rows, x); r[|rows|] == x || (rows != [] && r[|rows|] == rows[|rows| - 1])
  {
    if rows != [] && !RowLeq(x, rows[|rows| - 1]) {
      var init, last := rows[..|rows| - 1], rows[|rows| - 1];
      StringLeqTotal(x.item, last.item);
      InsertDescends(init, x);
      assert init != [] ==> RowLeq(last, init[|init| - 1]);
    }
  }

  lemma {:induction false} SortIsRight(rows: seq<Row>)
    ensures var r := SortDescending(rows);
            && IsDescending(r) && multiset(r) == multiset(rows)
            && TotalSeats(r) == TotalSeats(rows) && multiset(StakedOf(r)) == multiset(StakedOf(rows))
  {
    hide Insert, RowLeq;
    if rows != [] {
      var init, last := rows[..|rows| - 1], rows[|rows| - 1];
      assert rows == init + [last];
      SortIsRight(init);
      InsertKeeps(SortDescending(init), last);
      InsertDescends(SortDescending(init), last);
      LastRow(init, last);
    }
  }

  // The seat price

  method CountSeats(stakes: seq<Staked>, price: nat) returns (sold: nat)
    requires price > 0
    ensures sold == SeatsAt(stakes, price)
  {
    hide Afford;
    sold := 0;
    for i := 0 to |stakes|
      invariant sold == SeatsAt(stakes[..i], price)
    {
      assert stakes[..i + 1][..i] == stakes[..i];
      sold := sold + Afford(stakes[i].stake, price);
    }
    assert stakes[..|stakes|] == stakes;
  }

  /** The maximum and the binary search. */
  method FindSeatPrice(stakes: seq<Staked>, numSeats: nat) returns (price: nat)
    ensures price > 0 && IsSeatPrice(stakes, numSeats, price)
  {
    hide Afford, SeatsAt;
    var maxStake: nat := 0;
    for i := 0 to |stakes|
      invariant forall j :: 0 <= j < i ==> stakes[j].stake <= maxStake
    {
      maxStake := if maxStake >= stakes[i].stake then maxStake else stakes[i].stake;
    }
    var l: nat, r: nat := 0, maxStake + 1;
    NoSeatsAboveMax(stakes, r);
    while r - l > 1
      invariant l < r
      invariant SeatsAt(stakes, r) <= numSeats
      invariant l > 0 ==> SeatsAt(stakes, l) > numSeats
    {
      var tmp := (l + r) / 2;
      var sold := CountSeats(stakes, tmp);
      if sold <= numSeats {
        r := tmp;
      } else {
        l := tmp;
      }
    }
    price := r;
    forall p | 1 <= p < price
      ensures SeatsAt(stakes, p) > numSeats
    {
      SeatsAntitone(stakes, p, l);
    }
  }

  method AssignSeats(stakes: seq<Staked>, price: nat) returns (rows: seq<Row>)
    requires price > 0
    ensures rows == RowsAt(stakes, price)
  {
    hide Afford;
    rows := [];
    for i := 0 to |stakes|
      invariant rows == RowsAt(stakes[..i], price)
    {
      assert stakes[..i + 1][..i] == stakes[..i];
      rows := rows + [Row(Afford(stakes[i].stake, price), stakes[i].stake, stakes[i].item)];
    }
    assert stakes[..|stakes|] == stakes;
  }

  lemma {:induction false} RowsTotal(stakes: seq<Staked>, price: nat)
    requires price > 0
    ensures |RowsAt(stakes, price)| == |stakes| && TotalSeats(RowsAt(stakes, price)) == SeatsAt(stakes, price)
    ensures StakedOf(RowsAt(stakes, price)) == stakes
  {
    hide Afford;
    if stakes != [] {
      var init, last := stakes[..|stakes| - 1], stakes[|stakes| - 1];
      RowsTotal(init, price);
      LastRow(RowsAt(init, price), Row(Afford(last.stake, price), last.stake, last.item));
      assert stakes == init + [last];
    }
  }

  /** The seats of each row are what its stake buys. */
  ghost predicate IsPriced(row: Row, price: nat) {
    row.seats * price <= row.stake < (row.seats + 1) * price
  }

  lemma {:induction false} RowsArePriced(stakes: seq<Staked>, price: nat)
    requires price > 0
    ensures forall row :: row in RowsAt(stakes, price) ==> IsPriced(row, price)
  {
    hide Afford;
    if stakes != [] {
      RowsArePriced(stakes[..|stakes| - 1], price);
      AffordIs(stakes[|stakes| - 1].stake, price);
    }
  }

  lemma SameMembers(a: seq<Row>, b: seq<Row>)
    requires multiset(a) == multiset(b)
    ensures forall row :: row in a <==> row in b
  {
    forall row
      ensures row in a <==> row in b
    {
      assert row in multiset(a) <==> row in multiset(b);
    }
  }

  method ComputeSeats(stakes: seq<Staked>, numSeats: nat) returns (rows: seq<Row>, price: nat)
    ensures IsSeatPrice(stakes, numSeats, price)
    ensures multiset(rows) == multiset(RowsAt(stakes, price)) && IsDescending(rows)
    ensures TotalSeats(rows) == SeatsAt(stakes, price) && multiset(StakedOf(rows)) == multiset(stakes)
    ensures forall row :: row in rows ==> IsPriced(row, price)
  {
    hide IsPriced, IsSeatPrice, IsDescending, TotalSeats, StakedOf, RowsAt;
    price := FindSeatPrice(stakes, numSeats);
    rows := AssignSeats(stakes, price);
    RowsTotal(stakes, price);
    RowsArePriced(stakes, price);
    SortIsRight(rows);
    SameMembers(SortDescending(rows), rows);
    rows := SortDescending(rows);
  }

  lemma {:induction false} PrefixTotal(rows: seq<Row>, k: nat)
    requires k <= |rows|
    ensures TotalSeats(rows[..k]) <= TotalSeats(rows)
    decreases |rows| - k
  {
    if k == |rows| {
      assert rows[..k] == rows;
    } else {
      assert rows[..k + 1][..k] == rows[..k];
      PrefixTotal(rows, k + 1);
    }
  }

  // The callers

  /** The seat loop of `extra_genesis_records`: the `break` never fires, so every staker becomes a validator. */
  method GenesisValidators(stakes: seq<Staked>, numSeats: nat) returns (validators: seq<Staked>)
    ensures multiset(validators) == multiset(stakes)
  {
    var rows, price := ComputeSeats(stakes, numSeats);
    validators := [];
    var taken := 0;
    var k := 0;
    while k < |rows|
      invariant 0 <= k <= |rows| && taken == TotalSeats(rows[..k])
      invariant validators == StakedOf(rows[..k])
    {
      PrefixTotal(rows, k + 1);
      assert rows[..k + 1][..k] == rows[..k];
      if rows[k].seats + taken > numSeats {
        assert false;
        break;
      }
      validators := validators + [Staked(rows[k].stake, rows[k].item)];
      taken := taken + rows[k].seats;
      k := k + 1;
    }
    assert rows[..|rows|] == rows;
  }

  /** The seats of the rows whose item starts upgraded. */
  function UpgradedSeats(rows: seq<Row>, schedule: map<string, nat>): nat {
    if rows == [] then 0
    else
      var last := rows[|rows| - 1];
      UpgradedSeats(rows[..|rows| - 1], schedule) + if last.item in schedule && schedule[last.item] == 0
          then last.seats else 0
  }

  ghost predicate HasDistinctItems(rows: seq<Row>) {
    forall i, j :: 0 <= i < j < |rows| ==> rows[i].item != rows[j].item
  }

  /** Where the greedy loop over the sorted rows stops: the next row would exceed 75% of the seats. */
  ghost predicate IsGreedyStop(rows: seq<Row>, numSeats: nat, k: nat) {
    && k <= |rows| && TotalSeats(rows[..k]) * 100 <= 75 * numSeats
    && (k < |rows| ==> (TotalSeats(rows[..k]) + rows[k].seats) * 100 > 75 * numSeats)
  }

  /** The item is that of a row before the stop. */
  ghost predicate StartsUpgraded(rows: seq<Row>, stop: nat, item: string) {
    exists i :: 0 <= i < stop && i < |rows| && rows[i].item == item
  }

  /** Items of rows, in epochs 0 to 4, with epoch 0 for exactly those that start upgraded. */
  ghost predicate IsSchedule(rows: seq<Row>, stop: nat, schedule: map<string, nat>) {
    && (forall item :: StartsUpgraded(rows, stop, item) ==> item in schedule)
    && (forall item :: item in schedule ==> schedule[item] <= 4 && StartsUpgraded(rows, |rows|, item))
    && (forall item :: item in schedule ==> (schedule[item] == 0 <==> StartsUpgraded(rows, stop, item)))
  }

  /** The loop that draws an epoch for every validator that has none. */
  method ScheduleRest(rows: seq<Row>, start: map<string, nat>, stop: nat, draw: nat -> nat)
    returns (schedule: map<string, nat>)
    requires IsSchedule(rows, stop, start) && forall i :: 1 <= draw(i) <= 4
    ensures IsSchedule(rows, stop, schedule) && forall i :: 0 <= i < |rows| ==> rows[i].item in schedule
  {
    schedule := start;
    for k := 0 to |rows|
      invariant IsSchedule(rows, stop, schedule) && forall i :: 0 <= i < k ==> rows[i].item in schedule
    {
      if rows[k].item !in schedule {
        schedule := schedule[rows[k].item := draw(k)];
      }
    }
  }

  /** The seats that start upgraded are those of the prefix, and those of later rows that repeat an item of it. */
  lemma {:induction false} UpgradedAreEarly(rows: seq<Row>, schedule: map<string, nat>, stop: nat)
    requires stop <= |rows| && forall i :: 0 <= i < stop ==> rows[i].item in schedule && schedule[rows[i].item] == 0
    ensures UpgradedSeats(rows, schedule) == TotalSeats(rows[..stop]) + UpgradedSeats(rows[stop..], schedule)
    decreases |rows|
  {
    if rows != [] {
      var init := rows[..|rows| - 1];
      if stop == |rows| {
        UpgradedAreEarly(init, schedule, stop - 1);
        assert rows[..stop] == rows && init[..stop - 1] == init && rows[stop..] == init[stop - 1..] == [];
      } else {
        UpgradedAreEarly(init, schedule, stop);
        assert init[..stop] == rows[..stop] && rows[stop..][..|rows| - stop - 1] == init[stop..];
      }
    }
  }

  lemma {:induction false} NoneUpgraded(rows: seq<Row>, schedule: map<string, nat>)
    requires forall i :: 0 <= i < |rows| ==> rows[i].item in schedule && schedule[rows[i].item] != 0
    ensures UpgradedSeats(rows, schedule) == 0
  {
    if rows != [] {
      NoneUpgraded(rows[..|rows| - 1], schedule);
    }
  }

  lemma UpgradedSplit(rows: seq<Row>, schedule: map<string, nat>, stop: nat)
    requires stop <= |rows| && IsSchedule(rows, stop, schedule)
    requires forall i :: 0 <= i < |rows| ==> rows[i].item in schedule
    ensures UpgradedSeats(rows, schedule) == TotalSeats(rows[..stop]) + UpgradedSeats(rows[stop..], schedule)
    ensures HasDistinctItems(rows) ==> UpgradedSeats(rows, schedule) == TotalSeats(rows[..stop])
  {
    assert forall i :: 0 <= i < stop ==> StartsUpgraded(rows, stop, rows[i].item);
    UpgradedAreEarly(rows, schedule, stop);
    if HasDistinctItems(rows) {
      assert forall i :: stop <= i < |rows| ==> !StartsUpgraded(rows, stop, rows[i].item);
      NoneUpgraded(rows[stop..], schedule);
    }
  }

  lemma OneMoreUpgraded(rows: seq<Row>, stop: nat)
    requires stop < |rows|
    ensures forall item :: StartsUpgraded(rows, stop + 1, item) <==>
      StartsUpgraded(rows, stop, item) || item == rows[stop].item
  {
    forall item
      ensures StartsUpgraded(rows, stop + 1, item) <==> StartsUpgraded(rows, stop, item) || item == rows[stop].item
    {
      if StartsUpgraded(rows, stop, item) {
        var i :| 0 <= i < stop && i < |rows| && rows[i].item == item;
        assert i < stop + 1;
      }
    }
  }

  /** The greedy loop. */
  method StartUpgraded(rows: seq<Row>, numSeats: nat) returns (schedule: map<string, nat>, stop: nat)
    ensures IsGreedyStop(rows, numSeats, stop)
    ensures forall item :: item in schedule <==> StartsUpgraded(rows, stop, item)
    ensures forall item :: item in schedule ==> schedule[item] == 0
    ensures IsSchedule(rows, stop, schedule)
  {
    schedule := map[];
    stop := 0;
    var upgraded := 0;
    assert rows[..0] == [];
    while stop < |rows| && (upgraded + rows[stop].seats) * 100 <= 75 * numSeats
      invariant 0 <= stop <= |rows| && upgraded == TotalSeats(rows[..stop]) && upgraded * 100 <= 75 * numSeats
      invariant forall item :: item in schedule <==> StartsUpgraded(rows, stop, item)
      invariant forall item :: item in schedule ==> schedule[item] == 0
    {
      assert rows[..stop + 1][..stop] == rows[..stop];
      OneMoreUpgraded(rows, stop);
      schedule := schedule[rows[stop].item := 0];
      upgraded := upgraded + rows[stop].seats;
      stop := stop + 1;
    }
  }

  /**
   The validators' part of `create_upgrade_schedule` with a progressive upgrade; `draw` stands
   for the random epochs 1 to 4.  Those that start upgraded are the items of the rows before
   the greedy stop; everyone else is scheduled for a later epoch.  With one row per item they
   hold at most 75% of the seats.
   */
  method UpgradeSchedule(rows: seq<Row>, numSeats: nat, draw: nat -> nat)
    returns (schedule: map<string, nat>, stop: nat)
    requires forall i :: 1 <= draw(i) <= 4
    ensures IsGreedyStop(rows, numSeats, stop)
    ensures IsSchedule(rows, stop, schedule) && forall i :: 0 <= i < |rows| ==> rows[i].item in schedule
    ensures UpgradedSeats(rows, schedule) == TotalSeats(rows[..stop]) + UpgradedSeats(rows[stop..], schedule)
    ensures HasDistinctItems(rows) ==> UpgradedSeats(rows, schedule) * 100 <= 75 * numSeats
  {
    schedule, stop := StartUpgraded(rows, numSeats);
    schedule := ScheduleRest(rows, schedule, stop, draw);
    UpgradedSplit(rows, schedule, stop);
  }
}
