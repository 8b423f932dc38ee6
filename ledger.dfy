/** The service's behaviour as functions of the two tables' contents: what
    one `charge` or `use` call returns and leaves behind, and what any
    sequential run of such calls does to balances and history. */
module Ledger {
  import opened Point
  import opened Database

  /** A single charge of this much or more is refused. */
  const ChargeLimit: int := 1000000
  /** Points cannot be spent on a purchase priced at this much or less. */
  const MinCost: int := 10000

  /** The contents of the balance table and the history table. */
  datatype Store = Store(points: map<int, UserPoint>, history: seq<PointHistory>)

  /** Clock readings of one call: the stamp the balance table puts on the
      record it writes, and the stamp passed with the history entry. */
  datatype Stamps = Stamps(record: int, entry: int)

  /** The tables after one call, and what the call returned. */
  datatype Step = Step(after: Store, result: Result<UserPoint>)

  /** The point value the service works from: a record whose point is zero
      reads as zero, any other record as its point. */
  function CurrentPoint(u: UserPoint): (p: int)
    ensures p == u.point
  {
    if u.point == 0 then 0 else u.point
  }

  /** A user's current balance: the point of the record `getUserPoint`
      returns, whatever clock reading an unknown user's record gets. */
  function Balance(points: map<int, UserPoint>, id: int): (b: int)
    ensures forall now :: b == Select(points, id, now).point
    ensures id !in points ==> b == 0
  {
    CurrentPoint(Select(points, id, 0))
  }

  /** `charge(id, amount)`: the limit check comes before any write; an
      accepted charge writes the new balance, then appends a CHARGE entry. */
  function Charge(s: Store, id: int, amount: int, at: Stamps): (o: Step)
    ensures o.result.Err? <==> amount >= ChargeLimit
    ensures o.result.Err? ==> o.result.error == ChargeLimitExceeded && o.after == s
    ensures o.result.Ok? ==>
      && o.result.value.id == id
      && o.result.value.point == Balance(s.points, id) + amount
      && Balance(o.after.points, id) == Balance(s.points, id) + amount
      && o.after.points - {id} == s.points - {id}
      && o.after.history == s.history + [PointHistory(id, amount, CHARGE, at.entry)]
  {
    var current := Balance(s.points, id);
    if amount >= ChargeLimit then
      Step(s, Err(ChargeLimitExceeded))
    else
      var updated := Record(id, current + amount, at.record);
      Step(Store(s.points[id := updated], s.history + [PointHistory(id, amount, CHARGE, at.entry)]),
           Ok(updated))
  }

  /** `use(id, amount, cost)`: the balance check comes first, then the cost
      floor; only then is the balance written and a USE entry appended. */
  function Use(s: Store, id: int, amount: int, cost: int, at: Stamps): (o: Step)
    ensures o.result == Err(InsufficientPoint)
        <==> Balance(s.points, id) <= 0 || Balance(s.points, id) < amount
    ensures o.result == Err(CostTooLow)
        <==> 0 < Balance(s.points, id) && amount <= Balance(s.points, id) && cost <= MinCost
    ensures o.result.Ok?
        <==> 0 < Balance(s.points, id) && amount <= Balance(s.points, id) && MinCost < cost
    ensures o.result.Err? ==> o.after == s
    ensures o.result.Ok? ==>
      && o.result.value.id == id
      && o.result.value.point == Balance(s.points, id) - amount
      && o.result.value.point >= 0
      && Balance(o.after.points, id) == Balance(s.points, id) - amount
      && o.after.points - {id} == s.points - {id}
      && o.after.history == s.history + [PointHistory(id, amount, USE, at.entry)]
  {
    var current := Balance(s.points, id);
    if current <= 0 || current < amount then
      Step(s, Err(InsufficientPoint))
    else if cost <= MinCost then
      Step(s, Err(CostTooLow))
    else
      var updated := Record(id, current - amount, at.record);
      Step(Store(s.points[id := updated], s.history + [PointHistory(id, amount, USE, at.entry)]),
           Ok(updated))
  }

  /** One call of either kind, as a value. */
  datatype Op =
    | ChargeOp(id: int, amount: int, at: Stamps)
    | UseOp(id: int, amount: int, cost: int, at: Stamps)

  function Apply(s: Store, op: Op): Step {
    match op
    case ChargeOp(id, amount, at) => Charge(s, id, amount, at)
    case UseOp(id, amount, cost, at) => Use(s, id, amount, cost, at)
  }

  /** The tables after the calls `ops`, made one after another. */
  function Run(s: Store, ops: seq<Op>): Store
    decreases |ops|
  {
    if ops == [] then s else Run(Apply(s, ops[0]).after, ops[1..])
  }

  /** The history entry an accepted call appends. */
  function Entry(op: Op): PointHistory {
    match op
    case ChargeOp(id, amount, at) => PointHistory(id, amount, CHARGE, at.entry)
    case UseOp(id, amount, _, at) => PointHistory(id, amount, USE, at.entry)
  }

  function Log(ops: seq<Op>): seq<PointHistory>
    decreases |ops|
  {
    if ops == [] then [] else [Entry(ops[0])] + Log(ops[1..])
  }
  lemma RunCons(s: Store, ops: seq<Op>)
    requires ops != []
    ensures Run(s, ops) == Run(Apply(s, ops[0]).after, ops[1..])
  {
  }
  lemma LogCons(h: seq<PointHistory>, ops: seq<Op>)
    requires ops != []
    ensures h + [Entry(ops[0])] + Log(ops[1..]) == h + Log(ops)
  {
  }

  /** The signed change an entry records: plus for a charge, minus for a use. */
  function Delta(e: PointHistory): int {
    match e.kind
    case CHARGE => e.amount
    case USE => -e.amount
  }

  /** The sum of the signed changes a log records for one user. */
  function Net(log: seq<PointHistory>, id: int): int {
    if log == [] then 0
    else
      var last := log[|log| - 1];
      Net(log[..|log| - 1], id) + (if last.userId == id then Delta(last) else 0)
  }

  lemma NetAppend(log: seq<PointHistory>, e: PointHistory, id: int)
    ensures Net(log + [e], id) == Net(log, id) + (if e.userId == id then Delta(e) else 0)
  {
    assert (log + [e])[..|log|] == log;
  }

  /** No stored balance is negative. */
  ghost predicate NonNegative(points: map<int, UserPoint>) {
    forall k :: k in points ==> points[k].point >= 0
  }

  /** A call by one user leaves every other user's record and history as
      they were. */
  lemma ApplyOtherUser(s: Store, op: Op, k: int)
    requires op.id != k
    ensures var t := Apply(s, op).after;
      && (k in t.points <==> k in s.points)
      && (k in s.points ==> t.points[k] == s.points[k])
      && ForUser(t.history, k) == ForUser(s.history, k)
  {
    var o := Apply(s, op);
    if o.result.Ok? {
      ForUserAppend(s.history, Entry(op), k);
      assert k in o.after.points <==> k in o.after.points - {op.id};
      assert k in s.points <==> k in s.points - {op.id};
      if k in s.points {
        assert o.after.points[k] == (o.after.points - {op.id})[k];
        assert s.points[k] == (s.points - {op.id})[k];
      }
    }
  }
  /** A call never changes a user's balance without recording the change:
      balance minus recorded net change is the same before and after, for
      every user, whether the call is accepted or rejected. */
  lemma ApplyConserves(s: Store, op: Op, k: int)
    ensures var t := Apply(s, op).after;
      Balance(t.points, k) - Net(t.history, k) == Balance(s.points, k) - Net(s.history, k)
  {
    if Apply(s, op).result.Ok? {
      NetAppend(s.history, Entry(op), k);
      if k != op.id {
        ApplyOtherUser(s, op, k);
      }
    }
  }


  /** Over any sequence of calls, each user's final balance is the initial
      balance plus the recorded charges minus the recorded uses. */
  lemma {:induction false} RunConserves(s: Store, ops: seq<Op>, k: int)
    ensures Balance(Run(s, ops).points, k) - Net(Run(s, ops).history, k)
         == Balance(s.points, k) - Net(s.history, k)
    decreases |ops|
  {
    if ops != [] {
      ApplyConserves(s, ops[0], k);
      RunCons(s, ops);
      RunConserves(Apply(s, ops[0]).after, ops[1..], k);
    }
  }

  /** The history is append-only: any sequence of calls keeps the old log as
      a prefix and adds at most one entry per call. */
  lemma {:induction false} RunExtendsHistory(s: Store, ops: seq<Op>)
    ensures s.history <= Run(s, ops).history
    ensures |Run(s, ops).history| <= |s.history| + |ops|
    decreases |ops|
  {
    if ops != [] {
      RunCons(s, ops);
      RunExtendsHistory(Apply(s, ops[0]).after, ops[1..]);
    }
  }


  /** Calls on other users leave a user's record and history untouched. */
  lemma {:induction false} RunOtherUsers(s: Store, ops: seq<Op>, k: int)
    requires forall i :: 0 <= i < |ops| ==> ops[i].id != k
    ensures k in Run(s, ops).points <==> k in s.points
    ensures k in s.points ==> Run(s, ops).points[k] == s.points[k]
    ensures ForUser(Run(s, ops).history, k) == ForUser(s.history, k)
    decreases |ops|
  {
    if ops != [] {
      var rest := ops[1..];
      assert forall i :: 0 <= i < |rest| ==> rest[i].id != k by {
        forall i | 0 <= i < |rest|
          ensures rest[i] == ops[i + 1]
        {
        }
      }
      ApplyOtherUser(s, ops[0], k);
      RunCons(s, ops);
      RunOtherUsers(Apply(s, ops[0]).after, rest, k);
    }
  }


  /** A use never drives a balance below zero, and neither does a charge
      whose amount is not negative. */
  lemma ApplyKeepsNonNegative(s: Store, op: Op)
    requires NonNegative(s.points)
    requires op.ChargeOp? ==> op.amount >= 0
    ensures NonNegative(Apply(s, op).after.points)
  {
    var o := Apply(s, op);
    if o.result.Ok? {
      forall k | k in o.after.points
        ensures o.after.points[k].point >= 0
      {
        if k == op.id {
          assert o.after.points[k].point == Balance(o.after.points, k);
        } else {
          ApplyOtherUser(s, op, k);
        }
      }
    }
  }

  /** Balances stay non-negative as long as no charge has a negative amount. */
  lemma {:induction false} RunKeepsNonNegative(s: Store, ops: seq<Op>)
    requires NonNegative(s.points)
    requires forall i :: 0 <= i < |ops| && ops[i].ChargeOp? ==> ops[i].amount >= 0
    ensures NonNegative(Run(s, ops).points)
    decreases |ops|
  {
    if ops != [] {
      var rest := ops[1..];
      assert forall i :: 0 <= i < |rest| && rest[i].ChargeOp? ==> rest[i].amount >= 0 by {
        forall i | 0 <= i < |rest|
          ensures rest[i] == ops[i + 1]
        {
        }
      }
      ApplyKeepsNonNegative(s, ops[0]);
      RunCons(s, ops);
      RunKeepsNonNegative(Apply(s, ops[0]).after, rest);
    }
  }


  /** Every call in `ops` is by user `id`, every charge is below the limit
      and not negative, and every use spends a positive amount on a purchase
      priced above the floor. */
  ghost predicate Admissible(ops: seq<Op>, id: int) {
    forall i :: 0 <= i < |ops| ==>
      && ops[i].id == id
      && (ops[i].ChargeOp? ==> 0 <= ops[i].amount < ChargeLimit)
      && (ops[i].UseOp? ==> 0 < ops[i].amount && MinCost < ops[i].cost)
  }

  /** The total amount the charges in `ops` ask for. */
  function Charged(ops: seq<Op>): int
    decreases |ops|
  {
    if ops == [] then 0 else (if ops[0].ChargeOp? then ops[0].amount else 0) + Charged(ops[1..])
  }

  /** The total amount the uses in `ops` ask for. */
  function Used(ops: seq<Op>): int
    decreases |ops|
  {
    if ops == [] then 0 else (if ops[0].UseOp? then ops[0].amount else 0) + Used(ops[1..])
  }

  lemma {:induction false} UsedNonNegative(ops: seq<Op>, id: int)
    requires Admissible(ops, id)
    ensures Used(ops) >= 0
    decreases |ops|
  {
    if ops != [] {
      assert Admissible(ops[1..], id) by {
        forall i | 0 <= i < |ops| - 1
          ensures ops[1..][i] == ops[i + 1]
        {
        }
      }
      UsedNonNegative(ops[1..], id);
    }
  }

  /** An admissible call is accepted when the balance covers it, and moves
      the balance by its amount. */
  lemma AdmissibleCall(s: Store, op: Op, id: int)
    requires op.id == id
    requires op.ChargeOp? ==> 0 <= op.amount < ChargeLimit
    requires op.UseOp? ==> 0 < op.amount <= Balance(s.points, id) && MinCost < op.cost
    ensures Apply(s, op).result.Ok?
    ensures Balance(Apply(s, op).after.points, id)
         == Balance(s.points, id) + (if op.ChargeOp? then op.amount else -op.amount)
    ensures Apply(s, op).after.history == s.history + [Entry(op)]
  {
  }

  /** Charges and uses by one user, in any order: when the starting balance
      covers all the uses, every call is accepted, the final balance is the
      start plus all charges minus all uses, and the history gains one entry
      per call, in call order. */
  lemma AdmissibleSplit(ops: seq<Op>, id: int)
    requires ops != [] && Admissible(ops, id)
    ensures Admissible(ops[1..], id)
    ensures ops[0].id == id
    ensures ops[0].ChargeOp? ==> 0 <= ops[0].amount < ChargeLimit
    ensures ops[0].UseOp? ==> 0 < ops[0].amount && MinCost < ops[0].cost
  {
    forall i | 0 <= i < |ops| - 1
      ensures ops[1..][i] == ops[i + 1]
    {
    }
  }



  lemma {:induction false} RunOneUser(s: Store, ops: seq<Op>, id: int)
    requires Admissible(ops, id)
    requires Balance(s.points, id) >= Used(ops)
    ensures Balance(Run(s, ops).points, id) == Balance(s.points, id) + Charged(ops) - Used(ops)
    ensures Run(s, ops).history == s.history + Log(ops)
    decreases |ops|
  {
    if ops != [] {
      AdmissibleSplit(ops, id);
      UsedNonNegative(ops[1..], id);
      AdmissibleCall(s, ops[0], id);
      var t := Apply(s, ops[0]).after;
      RunOneUser(t, ops[1..], id);
      RunCons(s, ops);
      LogCons(s.history, ops);
    }
  }


  /** Every call in `ops` is a charge of `c` or a use of `u` at price `cost`,
      all by user `id`. */
  ghost predicate OneUser(ops: seq<Op>, id: int, c: int, u: int, cost: int) {
    forall i :: 0 <= i < |ops| ==>
      ops[i] == ChargeOp(id, c, ops[i].at) || ops[i] == UseOp(id, u, cost, ops[i].at)
  }

  /** The number of charges in `ops`. */
  function Charges(ops: seq<Op>): nat
    decreases |ops|
  {
    if ops == [] then 0 else (if ops[0].ChargeOp? then 1 else 0) + Charges(ops[1..])
  }

  /** The number of uses in `ops`. */
  function Uses(ops: seq<Op>): nat
    decreases |ops|
  {
    if ops == [] then 0 else (if ops[0].UseOp? then 1 else 0) + Uses(ops[1..])
  }

  /** Repeated calls of fixed amounts: the totals are the counts times the
      amounts, and the calls are admissible when the amounts are. */
  lemma {:induction false} OneUserTotals(ops: seq<Op>, id: int, c: int, u: int, cost: int)
    requires OneUser(ops, id, c, u, cost)
    ensures Charged(ops) == Charges(ops) * c
    ensures Used(ops) == Uses(ops) * u
    ensures 0 <= c < ChargeLimit && 0 < u && MinCost < cost ==> Admissible(ops, id)
    decreases |ops|
  {
    if ops != [] {
      var rest := ops[1..];
      assert OneUser(rest, id, c, u, cost) by {
        forall i | 0 <= i < |rest|
          ensures rest[i] == ops[i + 1]
        {
        }
      }
      assert ops[0] == ChargeOp(id, c, ops[0].at) || ops[0] == UseOp(id, u, cost, ops[0].at);
      OneUserTotals(rest, id, c, u, cost);
      var cr, ur := Charges(rest), Uses(rest);
      assert (cr + 1) * c == cr * c + c;
      assert (ur + 1) * u == ur * u + u;
    }
  }
}
