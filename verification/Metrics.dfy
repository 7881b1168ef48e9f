/** Closed-trade statistics and drawdown: internal/portfolio/metrics.go. */
module Metrics {
  import opened Common
  import opened Market
  import opened Rules

  // ----- Drawdown -----

  /** Decline from an earlier value to a later one, as a fraction of the earlier. */
  function Decline(values: seq<real>, i: nat, j: nat): real
    requires i <= j < |values| && values[i] > 0.0
  {
    (values[i] - values[j]) / values[i]
  }

  lemma OneMinus(v: real, d: real)
    requires d > 0.0
    ensures (d - v) / d == 1.0 - v / d
  {
    var q, r := (d - v) / d, v / d;
    assert q * d == d - v && r * d == v;
    var t := q + r - 1.0;
    assert t * d == q * d + r * d - d == 0.0;
    assert t > 0.0 ==> t * d > 0.0;
    assert t < 0.0 ==> t * d < 0.0;
  }

  lemma Reciprocals(low: real, high: real, v: real)
    requires 0.0 < low <= high && v > 0.0
    ensures 0.0 < v / high <= v / low && (v <= high ==> v / high <= 1.0)
  {
    var a, b := v / low, v / high;
    assert a * low == v && b * high == v;
    assert b > a ==> b * low > a * low;
    assert b > 0.0 ==> b * high >= b * low;
    assert b > 1.0 ==> b * high > high;
    assert b <= 0.0 ==> b * high <= 0.0;
  }

  lemma HigherPeakHigherDecline(low: real, high: real, v: real)
    requires 0.0 < low <= high && v > 0.0
    ensures (low - v) / low <= (high - v) / high < 1.0
    ensures v <= high ==> (high - v) / high >= 0.0
  {
    OneMinus(v, low);
    OneMinus(v, high);
    Reciprocals(low, high, v);
  }

  /** The largest of the values up to j. */
  function PeakTo(values: seq<real>, j: nat): real
    requires j < |values|
  {
    if j == 0 then values[0] else
      var before := PeakTo(values, j - 1);
      if values[j] > before then values[j] else before
  }

  /** Decline from the peak so far. */
  function PeakDecline(values: seq<real>, j: nat): real
    requires j < |values| && PeakTo(values, j) != 0.0
  {
    (PeakTo(values, j) - values[j]) / PeakTo(values, j)
  }

  lemma {:induction false} PeakIsLargest(values: seq<real>, j: nat) returns (top: nat)
    requires j < |values|
    ensures top <= j && PeakTo(values, j) == values[top]
    ensures forall i :: 0 <= i <= j ==> values[i] <= PeakTo(values, j)
  {
    top := j;
    if j > 0 {
      var before := PeakIsLargest(values, j - 1);
      if values[j] <= PeakTo(values, j - 1) {
        top := before;
      }
    }
  }

  /** Below a negative peak there is no decline. */
  lemma NegativePeak(peak: real, v: real)
    requires v <= peak < 0.0
    ensures (peak - v) / peak <= 0.0
  {
    var q := (peak - v) / peak;
    assert q * peak == peak - v >= 0.0;
    assert q > 0.0 ==> q * peak < 0.0;
  }

  /** A fall below a peak of zero is an infinite fraction of it; zero over zero is no number, and is passed over. */
  datatype Drawdown = Fraction(value: real) | Unbounded

  predicate FallsFromZero(values: seq<real>, j: nat)
    requires j < |values|
  {
    PeakTo(values, j) == 0.0 && values[j] < 0.0
  }

  /** The largest decline from the peak so far, over the first n values; zero if there is none. */
  ghost predicate IsDrawdown(values: seq<real>, n: nat, dd: Drawdown)
    requires n <= |values|
  {
    match dd
    case Unbounded => exists j :: 0 <= j < n && FallsFromZero(values, j)
    case Fraction(x) =>
      && (forall j :: 0 <= j < n ==> !FallsFromZero(values, j))
      && x >= 0.0 && (forall j :: 0 <= j < n && PeakTo(values, j) != 0.0 ==> PeakDecline(values, j) <= x)
      && (x == 0.0 || exists j :: 0 <= j < n && PeakTo(values, j) > 0.0 && x == PeakDecline(values, j))
  }

  /** Of positive values it is the largest decline over all pairs, and a proper fraction. */
  ghost predicate IsPairwise(values: seq<real>, dd: Drawdown)
    requires forall i :: 0 <= i < |values| ==> values[i] > 0.0
  {
    && dd.Fraction? && 0.0 <= dd.value < 1.0 && (values == [] ==> dd.value == 0.0)
    && (forall i, j :: 0 <= i <= j < |values| ==> Decline(values, i, j) <= dd.value)
    && (values != [] ==> exists i, j :: 0 <= i <= j < |values| && dd.value == Decline(values, i, j))
  }

  lemma PeakBeatsPairs(values: seq<real>, i: nat, j: nat)
    requires i <= j < |values| && forall n :: 0 <= n < |values| ==> values[n] > 0.0
    ensures PeakTo(values, j) > 0.0 && Decline(values, i, j) <= PeakDecline(values, j) < 1.0
    ensures exists top :: 0 <= top <= j && PeakDecline(values, j) == Decline(values, top, j)
  {
    var top := PeakIsLargest(values, j);
    HigherPeakHigherDecline(values[i], values[top], values[j]);
    assert PeakDecline(values, j) == Decline(values, top, j);
  }

  lemma PositiveIsPairwise(values: seq<real>, dd: Drawdown)
    requires IsDrawdown(values, |values|, dd) && forall i :: 0 <= i < |values| ==> values[i] > 0.0
    ensures IsPairwise(values, dd)
  {
    forall i, j | 0 <= i <= j < |values|
      ensures PeakTo(values, j) > 0.0 && Decline(values, i, j) <= PeakDecline(values, j) < 1.0
    {
      PeakBeatsPairs(values, i, j);
    }
    forall j | 0 <= j < |values|
      ensures !FallsFromZero(values, j)
    {
      PeakBeatsPairs(values, j, j);
    }
    assert dd.Fraction?;
    if values != [] {
      if dd.value == 0.0 {
        assert Decline(values, 0, 0) == 0.0;
      } else {
        var j :| 0 <= j < |values| && PeakTo(values, j) > 0.0 && dd.value == PeakDecline(values, j);
        PeakBeatsPairs(values, j, j);
      }
    }
  }

  /** One more value, below a peak that is not zero. */
  lemma FractionStep(values: seq<real>, k: nat, x: real, d: real)
    requires k < |values| && IsDrawdown(values, k, Fraction(x))
    requires PeakTo(values, k) != 0.0 && d == PeakDecline(values, k) && (d > 0.0 ==> PeakTo(values, k) > 0.0)
    ensures IsDrawdown(values, k + 1, Fraction(if d > x then d else x))
  {
    forall j | 0 <= j < k + 1 && PeakTo(values, j) != 0.0
      ensures PeakDecline(values, j) <= if d > x then d else x
    {
    }
    if d <= x && x != 0.0 {
      var j :| 0 <= j < k && PeakTo(values, j) > 0.0 && x == PeakDecline(values, j);
      assert j < k + 1;
    }
  }

  lemma DeclineSign(values: seq<real>, k: nat)
    requires k < |values| && PeakTo(values, k) != 0.0
    ensures PeakDecline(values, k) > 0.0 ==> PeakTo(values, k) > 0.0
  {
    var top := PeakIsLargest(values, k);
    if PeakTo(values, k) < 0.0 {
      NegativePeak(PeakTo(values, k), values[k]);
    }
  }

  /** A peak of zero, or a drawdown that is already infinite. */
  lemma OtherStep(values: seq<real>, k: nat, dd: Drawdown)
    requires k < |values| && IsDrawdown(values, k, dd) && (dd.Unbounded? || PeakTo(values, k) == 0.0)
    ensures IsDrawdown(values, k + 1, if FallsFromZero(values, k) then Unbounded else dd)
  {
    if dd.Unbounded? {
      var j :| 0 <= j < k && FallsFromZero(values, j);
      assert j < k + 1;
    } else if !FallsFromZero(values, k) && dd.value != 0.0 {
      var j :| 0 <= j < k && PeakTo(values, j) > 0.0 && dd.value == PeakDecline(values, j);
      assert j < k + 1;
    }
  }

  /** One more value. */
  lemma DrawdownStep(values: seq<real>, k: nat, dd: Drawdown, dd': Drawdown)
    requires k < |values| && IsDrawdown(values, k, dd)
    requires dd' == if PeakTo(values, k) == 0.0 then (if values[k] < 0.0 then Unbounded else dd)
                    else if dd.Fraction? && PeakDecline(values, k) > dd.value then Fraction(PeakDecline(values, k))
                    else dd
    ensures IsDrawdown(values, k + 1, dd')
  {
    if PeakTo(values, k) == 0.0 || dd.Unbounded? {
      OtherStep(values, k, dd);
    } else {
      DeclineSign(values, k);
      FractionStep(values, k, dd.value, PeakDecline(values, k));
    }
  }

  /** One pass with a running peak. */
  method MaxDrawdown(values: seq<real>) returns (dd: Drawdown)
    ensures IsDrawdown(values, |values|, dd)
    ensures (forall i :: 0 <= i < |values| ==> values[i] > 0.0) ==> IsPairwise(values, dd)
  {
    dd := Fraction(0.0);
    if values != [] {
      var peak := values[0];
      for k := 0 to |values|
        invariant peak == if k == 0 then values[0] else PeakTo(values, k - 1)
        invariant IsDrawdown(values, k, dd)
      {
        var v := values[k];
        if v > peak {
          peak := v;
        }
        ghost var before := dd;
        if peak != 0.0 {
          var d := (peak - v) / peak;
          if dd.Fraction? && d > dd.value {
            dd := Fraction(d);
          }
        } else if v < 0.0 {
          dd := Unbounded;
        }
        DrawdownStep(values, k, before, dd);
      }
    }
    if forall i :: 0 <= i < |values| ==> values[i] > 0.0 {
      PositiveIsPairwise(values, dd);
    }
  }

  // ----- Closed trades -----

  datatype FillLot = FillLot(symbol: Symbol, side: Side, quantity: int, price: real, tradeVal: real, filledAt: Time)
  datatype Lot = Lot(qty: int, price: real, day: Time)

  /** One closed trade: some shares of one buy lot against one sell. */
  datatype Closed = Closed(qty: int, buyPrice: real, sellPrice: real, bought: Time, sold: Time)

  function PopLot(lots: seq<Lot>, m: int): seq<Lot>
    requires lots != []
  {
    if lots[0].qty - m == 0 then lots[1..] else lots[0 := lots[0].(qty := lots[0].qty - m)]
  }

  /** Sell `remain` shares out of the oldest lots. */
  function Consume(lots: seq<Lot>, f: FillLot, remain: int): (seq<Lot>, seq<Closed>)
    decreases |lots|, if remain < 0 then 0 else remain
  {
    if remain <= 0 || lots == [] then (lots, []) else
      var b := lots[0];
      var m := Lesser(remain, b.qty);
      var r := Consume(PopLot(lots, m), f, remain - m);
      (r.0, [Closed(m, b.price, f.price, b.day, f.filledAt)] + r.1)
  }

  /** The closed trades of one symbol's fills, given the lots already open. */
  function MatchLots(fills: seq<FillLot>, lots: seq<Lot>): seq<Closed> {
    if fills == [] then [] else
      var f := fills[0];
      if f.side == Buy then MatchLots(fills[1..], lots + [Lot(f.quantity, f.price, f.filledAt)]) else
        var r := Consume(lots, f, f.quantity);
        r.1 + MatchLots(fills[1..], r.0)
  }

  // ----- The share-by-share queue -----

  datatype Share = Share(price: real, day: Time)

  /** A share sold against the share it was bought as. */
  datatype Pairing = Pairing(share: Share, sellPrice: real, sold: Time)

  function Copies<T>(x: T, n: int): seq<T>
    decreases if n < 0 then 0 else n
  {
    if n <= 0 then [] else [x] + Copies(x, n - 1)
  }

  /** Pop n shares one at a time; popping an empty queue does nothing. */
  function PopShares(queue: seq<Share>, f: FillLot, n: int): (seq<Share>, seq<Pairing>)
    decreases if n < 0 then 0 else n
  {
    if n <= 0 then (queue, [])
    else if queue == [] then PopShares(queue, f, n - 1)
    else
      var r := PopShares(queue[1..], f, n - 1);
      (r.0, [Pairing(queue[0], f.price, f.filledAt)] + r.1)
  }

  function MatchShares(fills: seq<FillLot>, queue: seq<Share>): seq<Pairing> {
    if fills == [] then [] else
      var f := fills[0];
      if f.side == Buy then MatchShares(fills[1..], queue + Copies(Share(f.price, f.filledAt), f.quantity)) else
        var r := PopShares(queue, f, f.quantity);
        r.1 + MatchShares(fills[1..], r.0)
  }

  function ExpandLots(lots: seq<Lot>): seq<Share> {
    if lots == [] then [] else Copies(Share(lots[0].price, lots[0].day), lots[0].qty) + ExpandLots(lots[1..])
  }

  function PairOf(c: Closed): Pairing {
    Pairing(Share(c.buyPrice, c.bought), c.sellPrice, c.sold)
  }

  function ExpandClosed(closed: seq<Closed>): seq<Pairing> {
    if closed == [] then [] else Copies(PairOf(closed[0]), closed[0].qty) + ExpandClosed(closed[1..])
  }

  lemma {:induction false} ExpandClosedAppend(a: seq<Closed>, b: seq<Closed>)
    ensures ExpandClosed(a + b) == ExpandClosed(a) + ExpandClosed(b)
  {
    if a == [] {
      assert a + b == b;
    } else {
      assert (a + b)[1..] == a[1..] + b;
      ExpandClosedAppend(a[1..], b);
    }
  }

  lemma {:induction false} ExpandLotsAppend(a: seq<Lot>, b: seq<Lot>)
    ensures ExpandLots(a + b) == ExpandLots(a) + ExpandLots(b)
  {
    if a == [] {
      assert a + b == b;
    } else {
      assert (a + b)[1..] == a[1..] + b;
      ExpandLotsAppend(a[1..], b);
    }
  }

  lemma {:induction false} CopiesSplit<T>(x: T, m: nat, n: nat)
    ensures Copies(x, m + n) == Copies(x, m) + Copies(x, n)
  {
    if m > 0 {
      CopiesSplit(x, m - 1, n);
    }
  }

  lemma Assoc<T>(a: seq<T>, b: seq<T>, c: seq<T>)
    ensures a + b + c == a + (b + c)
  {
  }

  lemma PopFront(x: Share, queue: seq<Share>, f: FillLot, n: nat)
    requires n > 0
    ensures var (rest, pairs) := PopShares(queue, f, n - 1);
      PopShares([x] + queue, f, n) == (rest, [Pairing(x, f.price, f.filledAt)] + pairs)
  {
    assert ([x] + queue)[1..] == queue;
  }

  /** Popping past a run of equal shares pairs each of them with the same sell. */
  lemma {:induction false} PopRun(x: Share, m: nat, rest: seq<Share>, f: FillLot, n: nat)
    requires m <= n
    ensures var (q, pairs) := PopShares(rest, f, n - m);
      PopShares(Copies(x, m) + rest, f, n) == (q, Copies(Pairing(x, f.price, f.filledAt), m) + pairs)
  {
    if m == 0 {
      assert Copies(x, 0) + rest == rest;
      assert Copies(Pairing(x, f.price, f.filledAt), 0) + PopShares(rest, f, n).1 == PopShares(rest, f, n).1;
    } else {
      PopRun(x, m - 1, rest, f, n - 1);
      var pair := Pairing(x, f.price, f.filledAt);
      PopFront(x, Copies(x, m - 1) + rest, f, n);
      Assoc([x], Copies(x, m - 1), rest);
      Assoc([pair], Copies(pair, m - 1), PopShares(rest, f, n - m).1);
    }
  }

  lemma {:induction false} PopEmpty(f: FillLot, n: nat)
    ensures PopShares([], f, n) == ([], [])
  {
    if n > 0 {
      PopEmpty(f, n - 1);
    }
  }

  ghost predicate NonNegative(lots: seq<Lot>) {
    forall i :: 0 <= i < |lots| ==> lots[i].qty >= 0
  }

  /** Selling part of the oldest lot. */
  lemma PopPart(lots: seq<Lot>, m: nat, left: nat)
    requires lots != [] && NonNegative(lots) && left > 0 && lots[0].qty == m + left
    ensures NonNegative(PopLot(lots, m))
    ensures ExpandLots(lots) == Copies(Share(lots[0].price, lots[0].day), m) + ExpandLots(PopLot(lots, m))
  {
    var x := Share(lots[0].price, lots[0].day);
    var tail := ExpandLots(lots[1..]);
    var lot := lots[0].(qty := left);
    assert PopLot(lots, m) == [lot] + lots[1..];
    assert ExpandLots(PopLot(lots, m)) == Copies(x, left) + tail by {
      ExpandLotsCons(lot, lots[1..]);
    }
    assert Copies(x, m + left) == Copies(x, m) + Copies(x, left) by {
      CopiesSplit(x, m, left);
    }
    Regroup(Copies(x, m), Copies(x, left), tail, Copies(x, m + left), ExpandLots(PopLot(lots, m)));
  }

  lemma Regroup<T>(a: seq<T>, b: seq<T>, c: seq<T>, ab: seq<T>, bc: seq<T>)
    requires ab == a + b && bc == b + c
    ensures ab + c == a + bc
  {
    Assoc(a, b, c);
  }

  /** Selling all of it. */
  lemma PopWhole(lots: seq<Lot>, m: nat)
    requires lots != [] && NonNegative(lots) && m == lots[0].qty
    ensures NonNegative(PopLot(lots, m))
    ensures ExpandLots(lots) == Copies(Share(lots[0].price, lots[0].day), m) + ExpandLots(PopLot(lots, m))
  {
    assert PopLot(lots, m) == lots[1..];
  }

  lemma PopLotExpands(lots: seq<Lot>, m: nat)
    requires lots != [] && NonNegative(lots) && m <= lots[0].qty
    ensures NonNegative(PopLot(lots, m))
    ensures ExpandLots(lots) == Copies(Share(lots[0].price, lots[0].day), m) + ExpandLots(PopLot(lots, m))
  {
    if m < lots[0].qty {
      PopPart(lots, m, lots[0].qty - m);
    } else {
      PopWhole(lots, m);
    }
  }

  lemma ExpandLotsCons(lot: Lot, lots: seq<Lot>)
    ensures ExpandLots([lot] + lots) == Copies(Share(lot.price, lot.day), lot.qty) + ExpandLots(lots)
  {
    assert ([lot] + lots)[1..] == lots;
  }

  lemma {:induction false} ConsumeRefines(lots: seq<Lot>, f: FillLot, remain: int)
    requires NonNegative(lots) && remain >= 0
    ensures var (rest, closed) := Consume(lots, f, remain);
      NonNegative(rest) && PopShares(ExpandLots(lots), f, remain) == (ExpandLots(rest), ExpandClosed(closed))
    decreases |lots|, remain
  {
    if remain == 0 {
    } else if lots == [] {
      PopEmpty(f, remain);
    } else {
      var b := lots[0];
      var m := Lesser(remain, b.qty);
      var popped := PopLot(lots, m);
      PopLotExpands(lots, m);
      ConsumeRefines(popped, f, remain - m);
      PopRun(Share(b.price, b.day), m, ExpandLots(popped), f, remain);
      var (rest, closed) := Consume(popped, f, remain - m);
      var first := Closed(m, b.price, f.price, b.day, f.filledAt);
      assert ([first] + closed)[1..] == closed;
    }
  }

  /**
   * FIFO refinement: the lot-by-lot analysis pairs exactly the shares, in exactly the order, that a share-by-share
   * first-in first-out queue would.
   */
  lemma {:induction false} FifoRefinement(fills: seq<FillLot>, lots: seq<Lot>)
    requires NonNegative(lots) && forall i :: 0 <= i < |fills| ==> fills[i].quantity >= 0
    ensures ExpandClosed(MatchLots(fills, lots)) == MatchShares(fills, ExpandLots(lots))
  {
    if fills != [] {
      var f := fills[0];
      if f.side == Buy {
        var lot := Lot(f.quantity, f.price, f.filledAt);
        ExpandLotsAppend(lots, [lot]);
        assert ExpandLots([lot]) == Copies(Share(f.price, f.filledAt), f.quantity) by {
          assert [lot][1..] == [] && ExpandLots([]) == [];
        }
        FifoRefinement(fills[1..], lots + [lot]);
      } else {
        var (rest, closed) := Consume(lots, f, f.quantity);
        ConsumeRefines(lots, f, f.quantity);
        FifoRefinement(fills[1..], rest);
        ExpandClosedAppend(closed, MatchLots(fills[1..], rest));
      }
    }
  }

  // ----- The loops -----

  datatype Tally = Tally(closed: nat, profitable: nat, holdDays: real) {
    function Plus(t: Tally): Tally {
      Tally(closed + t.closed, profitable + t.profitable, holdDays + t.holdDays)
    }
  }

  const NO_TRADES := Tally(0, 0, 0.0)

  function DaysBetween(bought: Time, sold: Time): real {
    (sold - bought) as real / 86400.0
  }

  function TallyOne(c: Closed): Tally {
    Tally(1, if c.sellPrice > c.buyPrice then 1 else 0, DaysBetween(c.bought, c.sold))
  }

  function TallyOf(closed: seq<Closed>): Tally {
    if closed == [] then NO_TRADES else TallyOne(closed[0]).Plus(TallyOf(closed[1..]))
  }

  lemma PlusAssoc(a: Tally, b: Tally, c: Tally)
    ensures a.Plus(b).Plus(c) == a.Plus(b.Plus(c))
  {
  }

  lemma PlusSwap(a: Tally, b: Tally, c: Tally)
    ensures a.Plus(b.Plus(c)) == b.Plus(a.Plus(c))
  {
  }

  lemma PlusUnit(a: Tally)
    ensures NO_TRADES.Plus(a) == a == a.Plus(NO_TRADES)
  {
  }

  lemma TallyFirst(c: Closed, rest: seq<Closed>)
    ensures TallyOf([c] + rest) == TallyOne(c).Plus(TallyOf(rest))
  {
    assert ([c] + rest)[1..] == rest;
  }

  lemma TallySplit(a: seq<Closed>, b: seq<Closed>)
    requires a != []
    ensures TallyOf(a + b) == TallyOne(a[0]).Plus(TallyOf(a[1..] + b))
    ensures TallyOf(a) == TallyOne(a[0]).Plus(TallyOf(a[1..]))
  {
    assert (a + b)[0] == a[0] && (a + b)[1..] == a[1..] + b;
  }

  lemma {:induction false} TallyAppend(a: seq<Closed>, b: seq<Closed>)
    ensures TallyOf(a + b) == TallyOf(a).Plus(TallyOf(b))
  {
    if a == [] {
      assert a + b == b;
      PlusUnit(TallyOf(b));
    } else {
      TallyAppend(a[1..], b);
      TallySplit(a, b);
      PlusAssoc(TallyOne(a[0]), TallyOf(a[1..]), TallyOf(b));
    }
  }

  /** What is left of a sell after one closed trade. */
  lemma ConsumeStep(lots: seq<Lot>, f: FillLot, remain: int, m: int)
    requires remain > 0 && lots != [] && m == Lesser(remain, lots[0].qty)
    ensures Consume(lots, f, remain).0 == Consume(PopLot(lots, m), f, remain - m).0
    ensures TallyOf(Consume(lots, f, remain).1) ==
      TallyOne(Closed(m, lots[0].price, f.price, lots[0].day, f.filledAt)).Plus(
        TallyOf(Consume(PopLot(lots, m), f, remain - m).1))
  {
    TallyFirst(Closed(m, lots[0].price, f.price, lots[0].day, f.filledAt), Consume(PopLot(lots, m), f, remain - m).1);
  }

  /** The inner loop: one sell against the open lots, oldest first. */
  method SellLots(lots: seq<Lot>, f: FillLot) returns (buys: seq<Lot>, t: Tally)
    ensures buys == Consume(lots, f, f.quantity).0
    ensures t == TallyOf(Consume(lots, f, f.quantity).1)
  {
    buys, t := lots, NO_TRADES;
    var remain := f.quantity;
    ghost var goal, total := Consume(lots, f, f.quantity).0, TallyOf(Consume(lots, f, f.quantity).1);
    PlusUnit(total);
    while remain > 0 && |buys| > 0
      invariant Consume(buys, f, remain).0 == goal
      invariant t.Plus(TallyOf(Consume(buys, f, remain).1)) == total
      decreases |buys|, remain
    {
      var b := buys[0];
      var m := remain;
      if b.qty < m {
        m := b.qty;
      }
      ConsumeStep(buys, f, remain, m);
      var one := TallyOne(Closed(m, b.price, f.price, b.day, f.filledAt));
      PlusAssoc(t, one, TallyOf(Consume(PopLot(buys, m), f, remain - m).1));
      t := t.Plus(one);
      var left := PopLot(buys, m);
      buys, remain := left, remain - m;
    }
    PlusUnit(t);
  }

  /** One more fill of a symbol: a buy opens a lot, anything else sells. */
  lemma FillStep(fills: seq<FillLot>, i: nat, buys: seq<Lot>)
    requires i < |fills|
    ensures var f, later := fills[i], fills[i + 1..];
      TallyOf(MatchLots(fills[i..], buys)) ==
        if f.side == Buy then TallyOf(MatchLots(later, buys + [Lot(f.quantity, f.price, f.filledAt)]))
        else TallyOf(Consume(buys, f, f.quantity).1).Plus(TallyOf(MatchLots(later, Consume(buys, f, f.quantity).0)))
  {
    assert fills[i..][0] == fills[i] && fills[i..][1..] == fills[i + 1..];
    var r := Consume(buys, fills[i], fills[i].quantity);
    TallyAppend(r.1, MatchLots(fills[i + 1..], r.0));
  }

  /** The first i fills have been tallied, and leave these lots open. */
  ghost predicate TalliedTo(fills: seq<FillLot>, i: nat, buys: seq<Lot>, t: Tally, total: Tally) {
    i <= |fills| && t.Plus(TallyOf(MatchLots(fills[i..], buys))) == total
  }

  lemma TallyNone(fills: seq<FillLot>)
    ensures TalliedTo(fills, 0, [], NO_TRADES, TallyOf(MatchLots(fills, [])))
  {
    assert fills[0..] == fills;
    PlusUnit(TallyOf(MatchLots(fills, [])));
  }

  lemma TallyBuy(fills: seq<FillLot>, i: nat, buys: seq<Lot>, t: Tally, total: Tally)
    requires i < |fills| && fills[i].side == Buy && TalliedTo(fills, i, buys, t, total)
    ensures var f := fills[i];
      TalliedTo(fills, i + 1, buys + [Lot(f.quantity, f.price, f.filledAt)], t, total)
  {
    FillStep(fills, i, buys);
  }

  lemma TallySale(fills: seq<FillLot>, i: nat, buys: seq<Lot>, t: Tally, total: Tally, rest: seq<Lot>, sold: Tally)
    requires i < |fills| && fills[i].side != Buy && TalliedTo(fills, i, buys, t, total)
    requires var r := Consume(buys, fills[i], fills[i].quantity); rest == r.0 && sold == TallyOf(r.1)
    ensures TalliedTo(fills, i + 1, rest, t.Plus(sold), total)
  {
    FillStep(fills, i, buys);
    PlusAssoc(t, sold, TallyOf(MatchLots(fills[i + 1..], rest)));
  }

  lemma TallyAll(fills: seq<FillLot>, buys: seq<Lot>, t: Tally, total: Tally)
    requires TalliedTo(fills, |fills|, buys, t, total)
    ensures t == total
  {
    assert fills[|fills|..] == [];
    PlusUnit(t);
  }

  /** The middle loop: one symbol's fills in time order. */
  method AnalyzeSymbol(fills: seq<FillLot>) returns (t: Tally)
    ensures t == TallyOf(MatchLots(fills, []))
  {
    t := NO_TRADES;
    var buys: seq<Lot> := [];
    ghost var total := TallyOf(MatchLots(fills, []));
    TallyNone(fills);
    for i := 0 to |fills|
      invariant TalliedTo(fills, i, buys, t, total)
    {
      var f := fills[i];
      if f.side == Buy {
        TallyBuy(fills, i, buys, t, total);
        buys := buys + [Lot(f.quantity, f.price, f.filledAt)];
      } else {
        var rest, sold := SellLots(buys, f);
        TallySale(fills, i, buys, t, total, rest, sold);
        buys, t := rest, t.Plus(sold);
      }
    }
    TallyAll(fills, buys, t, total);
  }

  function OfSymbol(fills: seq<FillLot>, s: Symbol): seq<FillLot> {
    if fills == [] then [] else
      var n := |fills| - 1;
      OfSymbol(fills[..n], s) + if fills[n].symbol == s then [fills[n]] else []
  }

  function TradedSymbols(fills: seq<FillLot>): set<Symbol> {
    set f | f in fills :: f.symbol
  }

  /** The tally over a set of symbols: a sum over a map, so in no particular order. */
  ghost function TallyOver(fills: seq<FillLot>, symbols: set<Symbol>): Tally {
    if symbols == {} then NO_TRADES else
      var s := AnyOf(symbols);
      TallyOf(MatchLots(OfSymbol(fills, s), [])).Plus(TallyOver(fills, symbols - {s}))
  }

  lemma {:induction false} TallyOverRemove(fills: seq<FillLot>, symbols: set<Symbol>, s: Symbol)
    requires s in symbols
    ensures TallyOver(fills, symbols) ==
      TallyOf(MatchLots(OfSymbol(fills, s), [])).Plus(TallyOver(fills, symbols - {s}))
    decreases |symbols|
  {
    var t := AnyOf(symbols);
    if t != s {
      TallyOverRemove(fills, symbols - {t}, s);
      TallyOverRemove(fills, symbols - {s}, t);
      assert symbols - {t} - {s} == symbols - {s} - {t};
      var rest := TallyOver(fills, symbols - {s} - {t});
      var one, other := TallyOf(MatchLots(OfSymbol(fills, s), [])), TallyOf(MatchLots(OfSymbol(fills, t), []));
      PlusSwap(one, other, rest);
    }
  }

  datatype ClosedTradeStats = ClosedTradeStats(
    closedTrades: nat, profitable: nat, winRatePct: real, avgHoldingDays: real, totalTradeValue: real)

  function TradeValue(): FillLot -> real {
    (f: FillLot) => f.tradeVal
  }

  /** One more fill joins its own symbol's group and no other. */
  lemma GroupStep(fills: seq<FillLot>, i: nat)
    requires i < |fills|
    ensures var f := fills[i];
      && TradedSymbols(fills[..i + 1]) == TradedSymbols(fills[..i]) + {f.symbol}
      && (forall s :: OfSymbol(fills[..i + 1], s) == OfSymbol(fills[..i], s) + if s == f.symbol then [f] else [])
      && SumReal(fills[..i + 1], TradeValue()) == SumReal(fills[..i], TradeValue()) + f.tradeVal
  {
    assert fills[..i + 1] == fills[..i] + [fills[i]] && fills[..i + 1][..i] == fills[..i];
  }

  /** There is a group for every symbol traded, and it holds exactly its fills. */
  ghost predicate Grouped(fills: seq<FillLot>, groups: map<Symbol, seq<FillLot>>) {
    groups.Keys == TradedSymbols(fills) && forall s :: s in groups ==> groups[s] == OfSymbol(fills, s)
  }

  lemma {:induction false} NeverTraded(fills: seq<FillLot>, s: Symbol)
    requires s !in TradedSymbols(fills)
    ensures OfSymbol(fills, s) == []
  {
    if fills != [] {
      var n := |fills| - 1;
      assert forall f :: f in fills[..n] ==> f in fills;
      assert fills[n] in fills;
      NeverTraded(fills[..n], s);
    }
  }

  /** The first i fills have been grouped and totalled. */
  ghost predicate GroupedUpTo(fills: seq<FillLot>, i: nat, groups: map<Symbol, seq<FillLot>>, total: real) {
    i <= |fills| && Grouped(fills[..i], groups) && total == SumReal(fills[..i], TradeValue())
  }

  lemma GroupNone(fills: seq<FillLot>)
    ensures GroupedUpTo(fills, 0, map[], 0.0)
  {
    assert fills[..0] == [];
  }

  lemma GroupOne(fills: seq<FillLot>, i: nat, groups: map<Symbol, seq<FillLot>>, total: real, group: seq<FillLot>)
    requires i < |fills| && GroupedUpTo(fills, i, groups, total)
    requires group == (if fills[i].symbol in groups then groups[fills[i].symbol] else []) + [fills[i]]
    ensures GroupedUpTo(fills, i + 1, groups[fills[i].symbol := group], total + fills[i].tradeVal)
  {
    assert Grouped(fills[..i + 1], groups[fills[i].symbol := group]) by {
      GroupStep(fills, i);
      if fills[i].symbol !in groups {
        NeverTraded(fills[..i], fills[i].symbol);
      }
    }
    assert total + fills[i].tradeVal == SumReal(fills[..i + 1], TradeValue()) by {
      GroupStep(fills, i);
    }
  }

  lemma GroupAll(fills: seq<FillLot>, groups: map<Symbol, seq<FillLot>>, total: real)
    requires GroupedUpTo(fills, |fills|, groups, total)
    ensures Grouped(fills, groups) && total == SumReal(fills, TradeValue())
  {
    assert fills[..|fills|] == fills;
  }

  /** The grouping loop: each symbol's fills in their given order, and the total value traded. */
  method GroupBySymbol(fills: seq<FillLot>) returns (groups: map<Symbol, seq<FillLot>>, total: real)
    ensures Grouped(fills, groups) && total == SumReal(fills, TradeValue())
  {
    groups, total := map[], 0.0;
    GroupNone(fills);
    for i := 0 to |fills|
      invariant GroupedUpTo(fills, i, groups, total)
    {
      var f := fills[i];
      var group := (if f.symbol in groups then groups[f.symbol] else []) + [f];
      GroupOne(fills, i, groups, total, group);
      groups, total := groups[f.symbol := group], total + f.tradeVal;
    }
    GroupAll(fills, groups, total);
  }

  /** One more symbol's trades join the tally. */
  lemma TallyGroup(fills: seq<FillLot>, groups: map<Symbol, seq<FillLot>>, left: set<Symbol>, s: Symbol, t: Tally,
                   one: Tally, all: Tally)
    requires Grouped(fills, groups) && left <= groups.Keys && s in left && one == TallyOf(MatchLots(groups[s], []))
    requires t.Plus(TallyOver(fills, left)) == all
    ensures t.Plus(one).Plus(TallyOver(fills, left - {s})) == all
  {
    TallyOverRemove(fills, left, s);
    PlusAssoc(t, one, TallyOver(fills, left - {s}));
  }

  /** The loop over symbols, in whatever order the map yields them. */
  method TallyGroups(ghost fills: seq<FillLot>, groups: map<Symbol, seq<FillLot>>) returns (t: Tally)
    requires Grouped(fills, groups)
    ensures t == TallyOver(fills, TradedSymbols(fills))
  {
    t := NO_TRADES;
    var left := groups.Keys;
    ghost var all := TallyOver(fills, groups.Keys);
    PlusUnit(all);
    while left != {}
      invariant left <= groups.Keys && t.Plus(TallyOver(fills, left)) == all
      decreases |left|
    {
      var s :| s in left;
      var one := AnalyzeSymbol(groups[s]);
      TallyGroup(fills, groups, left, s, t, one, all);
      t, left := t.Plus(one), left - {s};
    }
    PlusUnit(t);
  }

  // ----- The statistics in figures -----

  /** The closed trades of all the symbols taken together. */
  ghost function ClosedOver(fills: seq<FillLot>, symbols: set<Symbol>): seq<Closed> {
    if symbols == {} then [] else
      var s := AnyOf(symbols);
      MatchLots(OfSymbol(fills, s), []) + ClosedOver(fills, symbols - {s})
  }

  /** The shares of all the symbols, paired one by one through a queue for each. */
  ghost function PairedOver(fills: seq<FillLot>, symbols: set<Symbol>): seq<Pairing> {
    if symbols == {} then [] else
      var s := AnyOf(symbols);
      MatchShares(OfSymbol(fills, s), []) + PairedOver(fills, symbols - {s})
  }

  /** The closed trades that sold above the price they bought at. */
  function Winners(closed: seq<Closed>): set<nat> {
    set i: nat | i < |closed| && closed[i].sellPrice > closed[i].buyPrice
  }

  function HeldSeconds(): Closed -> int {
    (c: Closed) => c.sold - c.bought
  }

  lemma LastWinner(closed: seq<Closed>, c: Closed)
    ensures |Winners(closed + [c])| == |Winners(closed)| + if c.sellPrice > c.buyPrice then 1 else 0
  {
    var longer, n := closed + [c], |closed|;
    assert Winners(longer) == Winners(closed) + if c.sellPrice > c.buyPrice then {n} else {};
  }

  /** A tally is the number of its trades, of its winners, and the sum of the times they were held. */
  lemma {:induction false} TallyInFigures(closed: seq<Closed>)
    ensures TallyOf(closed).closed == |closed| && TallyOf(closed).profitable == |Winners(closed)|
    ensures TallyOf(closed).holdDays * 86400.0 == SumInt(closed, HeldSeconds()) as real
  {
    if closed != [] {
      var n := |closed| - 1;
      var c := closed[n];
      assert closed == closed[..n] + [c];
      TallyInFigures(closed[..n]);
      TallyAppend(closed[..n], [c]);
      LastWinner(closed[..n], c);
      OneTally(c);
    }
  }

  lemma OneTally(c: Closed)
    ensures TallyOf([c]) == Tally(1, if c.sellPrice > c.buyPrice then 1 else 0, TallyOf([c]).holdDays)
    ensures TallyOf([c]).holdDays * 86400.0 == (c.sold - c.bought) as real
  {
    assert [c][1..] == [];
    PlusUnit(TallyOne(c));
  }

  lemma {:induction false} TallyOverIsTally(fills: seq<FillLot>, symbols: set<Symbol>)
    ensures TallyOver(fills, symbols) == TallyOf(ClosedOver(fills, symbols))
    decreases |symbols|
  {
    if symbols != {} {
      var s := AnyOf(symbols);
      TallyOverIsTally(fills, symbols - {s});
      TallyAppend(MatchLots(OfSymbol(fills, s), []), ClosedOver(fills, symbols - {s}));
    }
  }

  /** Share by share, the closed trades are what first-in first-out queues pair, prices and dates included. */
  lemma {:induction false} ClosedTradesArePairs(fills: seq<FillLot>, symbols: set<Symbol>)
    requires forall i :: 0 <= i < |fills| ==> fills[i].quantity >= 0
    ensures ExpandClosed(ClosedOver(fills, symbols)) == PairedOver(fills, symbols)
    decreases |symbols|
  {
    if symbols != {} {
      var s := AnyOf(symbols);
      OfSymbolKeeps(fills, s);
      FifoRefinement(OfSymbol(fills, s), []);
      ClosedTradesArePairs(fills, symbols - {s});
      ExpandClosedAppend(MatchLots(OfSymbol(fills, s), []), ClosedOver(fills, symbols - {s}));
    }
  }

  lemma {:induction false} OfSymbolKeeps(fills: seq<FillLot>, s: Symbol)
    ensures forall i :: 0 <= i < |OfSymbol(fills, s)| ==> OfSymbol(fills, s)[i] in fills
  {
    if fills != [] {
      OfSymbolKeeps(fills[..|fills| - 1], s);
    }
  }

  /** What the statistics say of the closed trades: their number, winners and their share, and the average time held. */
  ghost predicate Describes(out: ClosedTradeStats, all: seq<Closed>) {
    && out.closedTrades == |all| && out.profitable == |Winners(all)|
    && out.avgHoldingDays * |all| as real * 86400.0 == SumInt(all, HeldSeconds()) as real
    && out.winRatePct * |all| as real == 100.0 * |Winners(all)| as real
    && (all == [] ==> out.winRatePct == 0.0 && out.avgHoldingDays == 0.0)
  }

  lemma QuotientTimes(a: real, b: real, q: real)
    requires b > 0.0 && q == a / b
    ensures q * b == a && q * 100.0 * b == 100.0 * a
  {
    assert a / b * b == a;
  }

  lemma AveragesDescribe(t: Tally, out: ClosedTradeStats, all: seq<Closed>, n: real, rate: real, days: real)
    requires t == TallyOf(all) && out.closedTrades == t.closed && out.profitable == t.profitable
    requires n == t.closed as real
    requires t.closed > 0 ==> rate == t.profitable as real / n && days == t.holdDays / n
    requires out.winRatePct == (if t.closed > 0 then rate * 100.0 else 0.0)
    requires out.avgHoldingDays == if t.closed > 0 then days else 0.0
    ensures Describes(out, all)
  {
    TallyInFigures(all);
    if t.closed > 0 {
      QuotientTimes(t.profitable as real, n, rate);
      QuotientTimes(t.holdDays, n, days);
    }
  }

  /**
   * AnalyzeClosedTrades, on fills already in time order.  Over the closed trades of all symbols together: how many
   * there are, how many sold above their buying price and in what percentage, and how long they were held on average.
   */
  method AnalyzeClosedTrades(fills: seq<FillLot>) returns (out: ClosedTradeStats)
    ensures Describes(out, ClosedOver(fills, TradedSymbols(fills)))
    ensures out.totalTradeValue == SumReal(fills, TradeValue())
  {
    var groups, total := GroupBySymbol(fills);
    var t := TallyGroups(fills, groups);
    out := ClosedTradeStats(t.closed, t.profitable, 0.0, 0.0, total);
    var n, rate, days := t.closed as real, 0.0, 0.0;
    if t.closed > 0 {
      rate, days := t.profitable as real / n, t.holdDays / n;
      out := out.(winRatePct := rate * 100.0, avgHoldingDays := days);
    }
    TallyOverIsTally(fills, TradedSymbols(fills));
    AveragesDescribe(t, out, ClosedOver(fills, TradedSymbols(fills)), n, rate, days);
  }

  // ----- What the statistics can be -----

  ghost predicate TimeOrdered(fills: seq<FillLot>) {
    forall i, j :: 0 <= i < j < |fills| ==> fills[i].filledAt <= fills[j].filledAt
  }

  lemma {:induction false} ConsumeHoldsForward(lots: seq<Lot>, f: FillLot, remain: int)
    requires forall i :: 0 <= i < |lots| ==> lots[i].day <= f.filledAt
    ensures var (rest, closed) := Consume(lots, f, remain);
      && (forall i :: 0 <= i < |rest| ==> rest[i].day <= f.filledAt)
      && TallyOf(closed).holdDays >= 0.0 && TallyOf(closed).profitable <= TallyOf(closed).closed
    decreases |lots|, if remain < 0 then 0 else remain
  {
    if remain > 0 && lots != [] {
      var m := Lesser(remain, lots[0].qty);
      ConsumeHoldsForward(PopLot(lots, m), f, remain - m);
      var closed := Consume(PopLot(lots, m), f, remain - m).1;
      var first := Closed(m, lots[0].price, f.price, lots[0].day, f.filledAt);
      assert ([first] + closed)[1..] == closed;
    }
  }

  /** On time-ordered fills nothing is sold before it was bought, and no more trades win than close. */
  lemma {:induction false} TalliesAreSane(fills: seq<FillLot>, lots: seq<Lot>)
    requires TimeOrdered(fills)
    requires forall i, k :: 0 <= i < |lots| && 0 <= k < |fills| ==> lots[i].day <= fills[k].filledAt
    ensures var t := TallyOf(MatchLots(fills, lots)); t.holdDays >= 0.0 && t.profitable <= t.closed
  {
    if fills != [] {
      var f := fills[0];
      if f.side == Buy {
        TalliesAreSane(fills[1..], lots + [Lot(f.quantity, f.price, f.filledAt)]);
      } else {
        ConsumeHoldsForward(lots, f, f.quantity);
        var (rest, closed) := Consume(lots, f, f.quantity);
        TalliesAreSane(fills[1..], rest);
        TallyAppend(closed, MatchLots(fills[1..], rest));
      }
    }
  }

  lemma {:induction false} OfSymbolOrdered(fills: seq<FillLot>, s: Symbol)
    requires TimeOrdered(fills)
    ensures TimeOrdered(OfSymbol(fills, s))
    ensures forall i :: 0 <= i < |OfSymbol(fills, s)| ==> OfSymbol(fills, s)[i] in fills
  {
    if fills != [] {
      OfSymbolOrdered(fills[..|fills| - 1], s);
    }
  }

  lemma {:induction false} TotalsAreSane(fills: seq<FillLot>, symbols: set<Symbol>)
    requires TimeOrdered(fills)
    ensures var t := TallyOver(fills, symbols); t.holdDays >= 0.0 && t.profitable <= t.closed
    decreases |symbols|
  {
    if symbols != {} {
      var s := AnyOf(symbols);
      OfSymbolOrdered(fills, s);
      TalliesAreSane(OfSymbol(fills, s), []);
      TotalsAreSane(fills, symbols - {s});
    }
  }

  /** Nothing is sold before it was bought, and no more trades win than close. */
  lemma CountsAreSane(fills: seq<FillLot>, all: seq<Closed>)
    requires TimeOrdered(fills) && all == ClosedOver(fills, TradedSymbols(fills))
    ensures SumInt(all, HeldSeconds()) >= 0 && |Winners(all)| <= |all|
  {
    TotalsAreSane(fills, TradedSymbols(fills));
    TallyOverIsTally(fills, TradedSymbols(fills));
    TallyInFigures(all);
    assert TallyOf(all).holdDays * 86400.0 >= 0.0;
  }

  /** Whatever describes them, average holding time is never negative and the win rate is a percentage. */
  lemma StatisticsAreSane(fills: seq<FillLot>, out: ClosedTradeStats)
    requires TimeOrdered(fills) && Describes(out, ClosedOver(fills, TradedSymbols(fills)))
    ensures out.avgHoldingDays >= 0.0 && 0.0 <= out.winRatePct <= 100.0
  {
    var all := ClosedOver(fills, TradedSymbols(fills));
    CountsAreSane(fills, all);
    DescribedIsSane(out, all);
  }

  lemma DescribedIsSane(out: ClosedTradeStats, all: seq<Closed>)
    requires Describes(out, all) && SumInt(all, HeldSeconds()) >= 0 && |Winners(all)| <= |all|
    ensures out.avgHoldingDays >= 0.0 && 0.0 <= out.winRatePct <= 100.0
  {
    if all != [] {
      NotNegative(out.avgHoldingDays, |all| as real, SumInt(all, HeldSeconds()) as real);
      AtMostWhole(out.winRatePct, |all| as real, |Winners(all)| as real);
    }
  }

  lemma NotNegative(x: real, n: real, product: real)
    requires n > 0.0 && x * n * 86400.0 == product >= 0.0
    ensures x >= 0.0
  {
    assert x < 0.0 ==> x * n < 0.0;
  }

  lemma AtMostWhole(pct: real, whole: real, part: real)
    requires 0.0 <= part <= whole && whole > 0.0 && pct * whole == 100.0 * part
    ensures 0.0 <= pct <= 100.0
  {
    assert pct < 0.0 ==> pct * whole < 0.0;
    assert pct > 100.0 ==> pct * whole > 100.0 * whole;
  }
}
