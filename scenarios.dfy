/** The repository's test scenarios, restated as facts about sequential runs.
    The concurrent tests become statements about every order in which their
    calls could be linearized. The last lemmas show where the tests expect
    something other than what the service does. */
module Scenarios {
  import opened Point
  import opened Database
  import opened Ledger

  /** Ten charges of 1000 from a zero balance, in any order, end at 10000. */
  lemma TenCharges(s: Store, ops: seq<Op>, id: int)
    requires Balance(s.points, id) == 0
    requires OneUser(ops, id, 1000, 1, MinCost + 1)
    requires Charges(ops) == 10 && Uses(ops) == 0
    ensures Balance(Run(s, ops).points, id) == 10000
  {
    OneUserTotals(ops, id, 1000, 1, MinCost + 1);
    RunOneUser(s, ops, id);
  }

  /** Ten uses of 5000 at price 20000 from 100000 all succeed and end at 50000. */
  lemma TenUses(s: Store, ops: seq<Op>, id: int)
    requires Balance(s.points, id) == 100000
    requires OneUser(ops, id, 0, 5000, 20000)
    requires Charges(ops) == 0 && Uses(ops) == 10
    ensures Balance(Run(s, ops).points, id) == 50000
    ensures |Run(s, ops).history| == |s.history| + 10
  {
    OneUserTotals(ops, id, 0, 5000, 20000);
    RunOneUser(s, ops, id);
    LogLength(ops);
    CallsCounted(ops);
  }

  /** Ten charges of 1000 interleaved with ten uses of 500 at price 20000,
      from 50000, end at 55000 whatever the interleaving. */
  lemma TenChargesTenUses(s: Store, ops: seq<Op>, id: int)
    requires Balance(s.points, id) == 50000
    requires OneUser(ops, id, 1000, 500, 20000)
    requires Charges(ops) == 10 && Uses(ops) == 10
    ensures Balance(Run(s, ops).points, id) == 55000
    ensures |Run(s, ops).history| == |s.history| + 20
  {
    OneUserTotals(ops, id, 1000, 500, 20000);
    RunOneUser(s, ops, id);
    LogLength(ops);
    CallsCounted(ops);
  }

  lemma {:induction false} LogLength(ops: seq<Op>)
    ensures |Log(ops)| == |ops|
    decreases |ops|
  {
    if ops != [] {
      LogLength(ops[1..]);
    }
  }

  lemma {:induction false} CallsCounted(ops: seq<Op>)
    ensures Charges(ops) + Uses(ops) == |ops|
    decreases |ops|
  {
    if ops != [] {
      CallsCounted(ops[1..]);
    }
  }

  /** A new user charges 10000 and then uses 5000 at price 20000: the history
      lists exactly those two entries, charge first, and 5000 remain. */
  lemma ChargeThenUse(s: Store, id: int, first: Stamps, second: Stamps)
    requires Balance(s.points, id) == 0
    requires ForUser(s.history, id) == []
    ensures var t := Run(s, [ChargeOp(id, 10000, first), UseOp(id, 5000, 20000, second)]);
      && Balance(t.points, id) == 5000
      && ForUser(t.history, id)
         == [PointHistory(id, 10000, CHARGE, first.entry), PointHistory(id, 5000, USE, second.entry)]
  {
    var a, b := ChargeOp(id, 10000, first), UseOp(id, 5000, 20000, second);
    AdmissibleCall(s, a, id);
    var t1 := Apply(s, a).after;
    AdmissibleCall(t1, b, id);
    RunTwo(s, a, b);
    TwoEntries(s.history, Entry(a), Entry(b), id);
  }

  lemma TwoEntries(log: seq<PointHistory>, e1: PointHistory, e2: PointHistory, id: int)
    requires ForUser(log, id) == [] && e1.userId == id && e2.userId == id
    ensures ForUser(log + [e1] + [e2], id) == [e1, e2]
  {
    ForUserAppend(log, e1, id);
    ForUserAppend(log + [e1], e2, id);
  }

  lemma RunTwo(s: Store, a: Op, b: Op)
    ensures Run(s, [a, b]) == Apply(Apply(s, a).after, b).after
  {
    var t1 := Apply(s, a).after;
    assert [a, b][1..] == [b] && [b][1..] == [];
    assert Run(s, [a, b]) == Run(t1, [b]);
  }

  /** The 50% usage rule that one unit test expects: the amount may be at
      most half the price, halved with truncation as Java's `/` does. The
      service never checks it; it is stated here for the tests only. */
  predicate WithinUsageRatio(amount: int, cost: int) {
    amount <= (if cost >= 0 then cost / 2 else -((-cost) / 2))
  }

  /** The service lets a user spend 15000 of a 20000 price, which the 50%
      rule forbids: the test expecting a rejection does not match the code. */
  lemma UsageRatioNotEnforced(s: Store, id: int, at: Stamps)
    requires Balance(s.points, id) == 20000
    ensures !WithinUsageRatio(15000, 20000)
    ensures Use(s, id, 15000, 20000, at).result.Ok?
    ensures Balance(Use(s, id, 15000, 20000, at).after.points, id) == 5000
  {
  }

  /** A price of exactly 10000 is refused, although a unit test expects
      spending 300 of a 1000 balance at that price to succeed. */
  lemma PriceOfTenThousandRefused(s: Store, id: int, at: Stamps)
    requires Balance(s.points, id) == 1000
    ensures Use(s, id, 300, 10000, at) == Step(s, Err(CostTooLow))
  {
  }

  /** A call that fails both checks reports the balance, which is checked
      first: 10000 of a 5000 balance at price 10000. */
  lemma BalanceCheckedFirst(s: Store, id: int, at: Stamps)
    requires Balance(s.points, id) == 5000
    ensures Use(s, id, 10000, 10000, at).result == Err(InsufficientPoint)
  {
  }

  /** No sign check: a negative charge is accepted, recorded, and takes a
      zero balance below zero. */
  lemma NegativeChargeAccepted(s: Store, id: int, at: Stamps)
    requires Balance(s.points, id) == 0
    ensures Charge(s, id, -1, at).result.Ok?
    ensures Balance(Charge(s, id, -1, at).after.points, id) == -1
    ensures Charge(s, id, -1, at).after.history == s.history + [PointHistory(id, -1, CHARGE, at.entry)]
  {
  }
}
