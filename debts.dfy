/**
 * Debt.simplify: greedy netting of signed balances into directed debts.
 * Debtors (balance below -0.01) and creditors (above 0.01) are kept in the
 * balances' insertion order; each round the first remaining debtor pays the
 * first remaining creditor as much as the smaller of the two can settle.
 */
module Debts {
  import opened Amounts
  import opened Dicts
  import opened Users

  /** One entry of the list Debt.simplify returns: 'from_user_name' owes
      'to_user_name' the 'amount'. */
  datatype DebtInfo = DebtInfo(from: string, to: string, amount: real)

  /** A Debt object of a group: fromUser owes toUser the amount. */
  datatype Debt = Debt(fromUser: User, toUser: User, amount: real)

  /** Every residual debtor still owes at least a cent. */
  predicate Owing(ds: Dict)
  {
    forall x :: x in ds.keys ==> Get(ds, x) <= -Tol
  }

  /** Every residual creditor is still owed at least a cent. */
  predicate Owed(cs: Dict)
  {
    forall y :: y in cs.keys ==> Get(cs, y) >= Tol
  }

  /** The keys of ks whose value in m is below -0.01, in order. */
  function DebtorNames(ks: seq<string>, m: map<string, real>): (r: seq<string>)
    requires forall k :: k in ks ==> k in m
    ensures forall x :: x in r <==> x in ks && m[x] < -Tol
    ensures NoDuplicates(ks) ==> NoDuplicates(r)
  {
    if ks == [] then []
    else
      assert NoDuplicates(ks) ==> NoDuplicates(ks[1..]) && ks[0] !in ks[1..];
      (if m[ks[0]] < -Tol then [ks[0]] else []) + DebtorNames(ks[1..], m)
  }

  /** The keys of ks whose value in m is above 0.01, in order. */
  function CreditorNames(ks: seq<string>, m: map<string, real>): (r: seq<string>)
    requires forall k :: k in ks ==> k in m
    ensures forall y :: y in r <==> y in ks && m[y] > Tol
    ensures NoDuplicates(ks) ==> NoDuplicates(r)
  {
    if ks == [] then []
    else
      assert NoDuplicates(ks) ==> NoDuplicates(ks[1..]) && ks[0] !in ks[1..];
      (if m[ks[0]] > Tol then [ks[0]] else []) + CreditorNames(ks[1..], m)
  }

  /** {name: bal for name, bal in balances.items() if bal < -0.01} */
  function Debtors(balances: Dict): (ds: Dict)
    ensures forall x :: x in ds.keys <==> x in balances.keys && Get(balances, x) < -Tol
    ensures forall x :: x in ds.keys ==> Get(ds, x) == Get(balances, x)
  {
    var ks := DebtorNames(balances.keys, balances.values);
    OrderedMap(ks, map x | x in ks :: balances.values[x])
  }

  /** {name: bal for name, bal in balances.items() if bal > 0.01} */
  function Creditors(balances: Dict): (cs: Dict)
    ensures forall y :: y in cs.keys <==> y in balances.keys && Get(balances, y) > Tol
    ensures forall y :: y in cs.keys ==> Get(cs, y) == Get(balances, y)
  {
    var ks := CreditorNames(balances.keys, balances.values);
    OrderedMap(ks, map y | y in ks :: balances.values[y])
  }

  /** The debtors after the first one pays amount: its balance goes up by amount
      and it leaves, keeping everybody else's order, once less than a cent remains. */
  function Pay(ds: Dict, amount: real): (r: Dict)
    requires ds.keys != []
    ensures r.keys == if Abs(Get(ds, ds.keys[0]) + amount) < Tol then ds.keys[1..] else ds.keys
    ensures forall x :: x in r.keys ==> Get(r, x) == Get(ds, x) + (if x == ds.keys[0] then amount else 0.0)
  {
    var k := ds.keys[0];
    assert k !in ds.keys[1..];
    var paid := Put(ds, k, Get(ds, k) + amount);
    if Abs(Get(paid, k)) < Tol then Remove(paid, k) else paid
  }

  /** The creditors after the first one receives amount. */
  function Receive(cs: Dict, amount: real): (r: Dict)
    requires cs.keys != []
    ensures r.keys == if Abs(Get(cs, cs.keys[0]) - amount) < Tol then cs.keys[1..] else cs.keys
    ensures forall y :: y in r.keys ==> Get(r, y) == Get(cs, y) - (if y == cs.keys[0] then amount else 0.0)
  {
    var k := cs.keys[0];
    assert k !in cs.keys[1..];
    var received := Put(cs, k, Get(cs, k) - amount);
    if Abs(Get(received, k)) < Tol then Remove(received, k) else received
  }

  /** A debtor paying no more than it owes still owes at least a cent, or leaves. */
  lemma PayOwing(ds: Dict, amount: real)
    requires ds.keys != [] && Owing(ds) && 0.0 <= amount <= Abs(Get(ds, ds.keys[0]))
    ensures Owing(Pay(ds, amount))
  {
    var r := Pay(ds, amount);
    forall x | x in r.keys ensures Get(r, x) <= -Tol {
      assert x in ds.keys;
    }
  }

  /** A creditor receiving no more than it is owed is still owed at least a cent, or leaves. */
  lemma ReceiveOwed(cs: Dict, amount: real)
    requires cs.keys != [] && Owed(cs) && 0.0 <= amount <= Get(cs, cs.keys[0])
    ensures Owed(Receive(cs, amount))
  {
    var r := Receive(cs, amount);
    forall y | y in r.keys ensures Get(r, y) >= Tol {
      assert y in cs.keys;
    }
  }

  /** The amount settled in one round: all the first debtor owes, or all the first
      creditor is owed, whichever is less. */
  function Settle(ds: Dict, cs: Dict): (amount: real)
    requires ds.keys != [] && cs.keys != []
    requires Owing(ds) && Owed(cs)
    ensures Tol <= amount
    ensures amount == -Get(ds, ds.keys[0]) || amount == Get(cs, cs.keys[0])
    ensures amount <= -Get(ds, ds.keys[0]) && amount <= Get(cs, cs.keys[0])
  {
    Min(Abs(Get(ds, ds.keys[0])), Get(cs, cs.keys[0]))
  }

  /** One round: the first debtor pays the first creditor, and at least one of them leaves. */
  lemma SettleStep(ds: Dict, cs: Dict)
    requires ds.keys != [] && cs.keys != [] && Owing(ds) && Owed(cs)
    ensures Owing(Pay(ds, Settle(ds, cs))) && Owed(Receive(cs, Settle(ds, cs)))
    ensures |Pay(ds, Settle(ds, cs)).keys| + |Receive(cs, Settle(ds, cs)).keys| < |ds.keys| + |cs.keys|
  {
    PayOwing(ds, Settle(ds, cs));
    ReceiveOwed(cs, Settle(ds, cs));
  }

  /** The rounds of the while loop, from residual debtors and creditors. */
  function Greedy(ds: Dict, cs: Dict): seq<DebtInfo>
    requires Owing(ds) && Owed(cs)
    decreases |ds.keys| + |cs.keys|
  {
    if ds.keys == [] || cs.keys == [] then []
    else
      var amount := Settle(ds, cs);
      SettleStep(ds, cs);
      [DebtInfo(ds.keys[0], cs.keys[0], amount)] + Greedy(Pay(ds, amount), Receive(cs, amount))
  }

  /** What Debt.simplify returns for the given balances. */
  function SimplifiedDebts(balances: Dict): seq<DebtInfo>
  {
    Greedy(Debtors(balances), Creditors(balances))
  }

  /** Total that x pays across the debts. */
  function Paid(debts: seq<DebtInfo>, x: string): real
  {
    if debts == [] then 0.0
    else (if debts[0].from == x then debts[0].amount else 0.0) + Paid(debts[1..], x)
  }

  /** Total that y receives across the debts. */
  function Received(debts: seq<DebtInfo>, y: string): real
  {
    if debts == [] then 0.0
    else (if debts[0].to == y then debts[0].amount else 0.0) + Received(debts[1..], y)
  }

  /** Each round resolves at least one party, so a run with d debtors and c creditors
      emits at most d + c - 1 debts, and none when either side is empty. */
  lemma {:induction false} GreedyLength(ds: Dict, cs: Dict)
    requires Owing(ds) && Owed(cs)
    ensures ds.keys == [] || cs.keys == [] <==> Greedy(ds, cs) == []
    ensures |Greedy(ds, cs)| <= |ds.keys| + |cs.keys| - 1 || Greedy(ds, cs) == []
    decreases |ds.keys| + |cs.keys|
  {
    if ds.keys != [] && cs.keys != [] {
      var amount := Settle(ds, cs);
      SettleStep(ds, cs);
      GreedyLength(Pay(ds, amount), Receive(cs, amount));
    }
  }

  /** Every debt runs from a residual debtor to a residual creditor, for at least a cent. */
  lemma {:induction false} GreedyParties(ds: Dict, cs: Dict)
    requires Owing(ds) && Owed(cs)
    ensures forall g :: g in Greedy(ds, cs) ==> g.from in ds.keys && g.to in cs.keys && g.amount >= Tol
    decreases |ds.keys| + |cs.keys|
  {
    if ds.keys != [] && cs.keys != [] {
      var amount := Settle(ds, cs);
      SettleStep(ds, cs);
      var ds', cs' := Pay(ds, amount), Receive(cs, amount);
      GreedyParties(ds', cs');
      assert Greedy(ds, cs) == [DebtInfo(ds.keys[0], cs.keys[0], amount)] + Greedy(ds', cs');
      assert forall x :: x in ds'.keys ==> x in ds.keys;
      assert forall y :: y in cs'.keys ==> y in cs.keys;
    }
  }

  /** Unfolding one round of Greedy in terms of Paid and Received. */
  lemma GreedyRound(ds: Dict, cs: Dict)
    requires Owing(ds) && Owed(cs) && ds.keys != [] && cs.keys != []
    ensures Owing(Pay(ds, Settle(ds, cs))) && Owed(Receive(cs, Settle(ds, cs)))
    ensures forall x :: (Paid(Greedy(ds, cs), x)
      == (if x == ds.keys[0] then Settle(ds, cs) else 0.0) + Paid(Greedy(Pay(ds, Settle(ds, cs)), Receive(cs, Settle(ds, cs))), x))
    ensures forall y :: (Received(Greedy(ds, cs), y)
      == (if y == cs.keys[0] then Settle(ds, cs) else 0.0) + Received(Greedy(Pay(ds, Settle(ds, cs)), Receive(cs, Settle(ds, cs))), y))
  {
    SettleStep(ds, cs);
    var debts := Greedy(ds, cs);
    assert debts[1..] == Greedy(Pay(ds, Settle(ds, cs)), Receive(cs, Settle(ds, cs)));
  }

  /** A debtor pays nothing beyond what it owed: its residual stays at or below zero. */
  lemma {:induction false} GreedyPaid(ds: Dict, cs: Dict)
    requires Owing(ds) && Owed(cs)
    ensures forall x :: x in ds.keys ==> 0.0 <= Paid(Greedy(ds, cs), x) <= -Get(ds, x)
    ensures forall x :: x !in ds.keys ==> Paid(Greedy(ds, cs), x) == 0.0
    decreases |ds.keys| + |cs.keys|
  {
    if ds.keys != [] && cs.keys != [] {
      var amount := Settle(ds, cs);
      var ds' := Pay(ds, amount);
      GreedyRound(ds, cs);
      GreedyPaid(ds', Receive(cs, amount));
      forall x | x in ds.keys ensures 0.0 <= Paid(Greedy(ds, cs), x) <= -Get(ds, x) {
        if x !in ds'.keys {
          assert x == ds.keys[0];
        }
      }
    }
  }

  /** A creditor receives nothing beyond what it was owed: its residual stays at or above zero. */
  lemma {:induction false} GreedyReceived(ds: Dict, cs: Dict)
    requires Owing(ds) && Owed(cs)
    ensures forall y :: y in cs.keys ==> 0.0 <= Received(Greedy(ds, cs), y) <= Get(cs, y)
    ensures forall y :: y !in cs.keys ==> Received(Greedy(ds, cs), y) == 0.0
    decreases |ds.keys| + |cs.keys|
  {
    if ds.keys != [] && cs.keys != [] {
      var amount := Settle(ds, cs);
      var cs' := Receive(cs, amount);
      GreedyRound(ds, cs);
      GreedyReceived(Pay(ds, amount), cs');
      forall y | y in cs.keys ensures 0.0 <= Received(Greedy(ds, cs), y) <= Get(cs, y) {
        if y !in cs'.keys {
          assert y == cs.keys[0];
        }
      }
    }
  }

  /** Every debtor ends within a cent of zero once it has paid its debts. */
  ghost predicate DebtorsSettled(ds: Dict, debts: seq<DebtInfo>)
  {
    forall x :: x in ds.keys ==> Abs(Get(ds, x) + Paid(debts, x)) < Tol
  }

  /** Every creditor ends within a cent of zero once it has been paid. */
  ghost predicate CreditorsSettled(cs: Dict, debts: seq<DebtInfo>)
  {
    forall y :: y in cs.keys ==> Abs(Get(cs, y) - Received(debts, y)) < Tol
  }

  /** The facts about one round that the debtors' side of the exhaustion proof needs:
      how the first debtor's balance moves from ds to ds', and how it pays across the
      debts of this round onwards and of the later rounds. */
  ghost predicate PaidStep(ds: Dict, ds': Dict, amount: real, debts: seq<DebtInfo>, rest: seq<DebtInfo>)
  {
    && ds.keys != []
    && (forall x :: x in ds.keys && x != ds.keys[0] ==> x in ds'.keys && Get(ds', x) == Get(ds, x))
    && (ds.keys[0] in ds'.keys ==> Get(ds', ds.keys[0]) == Get(ds, ds.keys[0]) + amount)
    && (ds.keys[0] !in ds'.keys ==> Abs(Get(ds, ds.keys[0]) + amount) < Tol && Paid(rest, ds.keys[0]) == 0.0)
    && (forall x :: Paid(debts, x) == (if x == ds.keys[0] then amount else 0.0) + Paid(rest, x))
  }

  /** The same for the creditors' side. */
  ghost predicate ReceivedStep(cs: Dict, cs': Dict, amount: real, debts: seq<DebtInfo>, rest: seq<DebtInfo>)
  {
    && cs.keys != []
    && (forall y :: y in cs.keys && y != cs.keys[0] ==> y in cs'.keys && Get(cs', y) == Get(cs, y))
    && (cs.keys[0] in cs'.keys ==> Get(cs', cs.keys[0]) == Get(cs, cs.keys[0]) - amount)
    && (cs.keys[0] !in cs'.keys ==> Abs(Get(cs, cs.keys[0]) - amount) < Tol && Received(rest, cs.keys[0]) == 0.0)
    && (forall y :: Received(debts, y) == (if y == cs.keys[0] then amount else 0.0) + Received(rest, y))
  }

  lemma DebtorsSettledStep(ds: Dict, ds': Dict, amount: real, debts: seq<DebtInfo>, rest: seq<DebtInfo>)
    requires PaidStep(ds, ds', amount, debts, rest)
    requires DebtorsSettled(ds', rest)
    ensures DebtorsSettled(ds, debts)
  {
    forall x | x in ds.keys ensures Abs(Get(ds, x) + Paid(debts, x)) < Tol {
      assert Paid(debts, x) == (if x == ds.keys[0] then amount else 0.0) + Paid(rest, x);
    }
  }

  lemma CreditorsSettledStep(cs: Dict, cs': Dict, amount: real, debts: seq<DebtInfo>, rest: seq<DebtInfo>)
    requires ReceivedStep(cs, cs', amount, debts, rest)
    requires CreditorsSettled(cs', rest)
    ensures CreditorsSettled(cs, debts)
  {
    forall y | y in cs.keys ensures Abs(Get(cs, y) - Received(debts, y)) < Tol {
      assert Received(debts, y) == (if y == cs.keys[0] then amount else 0.0) + Received(rest, y);
    }
  }

  /** One round of Greedy establishes the debtors' step facts. */
  lemma GreedyPaidStep(ds: Dict, cs: Dict)
    requires Owing(ds) && Owed(cs) && ds.keys != [] && cs.keys != []
    ensures Owing(Pay(ds, Settle(ds, cs))) && Owed(Receive(cs, Settle(ds, cs)))
    ensures PaidStep(ds, Pay(ds, Settle(ds, cs)), Settle(ds, cs), Greedy(ds, cs),
      Greedy(Pay(ds, Settle(ds, cs)), Receive(cs, Settle(ds, cs))))
  {
    GreedyRound(ds, cs);
    GreedyPaid(Pay(ds, Settle(ds, cs)), Receive(cs, Settle(ds, cs)));
  }

  /** One round of Greedy establishes the creditors' step facts. */
  lemma GreedyReceivedStep(ds: Dict, cs: Dict)
    requires Owing(ds) && Owed(cs) && ds.keys != [] && cs.keys != []
    ensures Owing(Pay(ds, Settle(ds, cs))) && Owed(Receive(cs, Settle(ds, cs)))
    ensures ReceivedStep(cs, Receive(cs, Settle(ds, cs)), Settle(ds, cs), Greedy(ds, cs),
      Greedy(Pay(ds, Settle(ds, cs)), Receive(cs, Settle(ds, cs))))
  {
    GreedyRound(ds, cs);
    GreedyReceived(Pay(ds, Settle(ds, cs)), Receive(cs, Settle(ds, cs)));
  }

  /** The loop stops only when one side is used up: afterwards every debtor, or every
      creditor, is within a cent of zero once the debts are paid. */
  lemma {:induction false} GreedyExhaustsOneSide(ds: Dict, cs: Dict)
    requires Owing(ds) && Owed(cs)
    ensures DebtorsSettled(ds, Greedy(ds, cs)) || CreditorsSettled(cs, Greedy(ds, cs))
    decreases |ds.keys| + |cs.keys|
  {
    if ds.keys != [] && cs.keys != [] {
      var amount := Settle(ds, cs);
      var ds', cs' := Pay(ds, amount), Receive(cs, amount);
      SettleStep(ds, cs);
      GreedyExhaustsOneSide(ds', cs');
      if DebtorsSettled(ds', Greedy(ds', cs')) {
        GreedyPaidStep(ds, cs);
        DebtorsSettledStep(ds, ds', amount, Greedy(ds, cs), Greedy(ds', cs'));
      } else {
        GreedyReceivedStep(ds, cs);
        CreditorsSettledStep(cs, cs', amount, Greedy(ds, cs), Greedy(ds', cs'));
      }
    }
  }

  /** The debtors of consecutive debts never move backwards among the names ns. */
  ghost predicate FromsInOrder(ns: seq<string>, debts: seq<DebtInfo>)
  {
    && (forall g :: g in debts ==> g.from in ns)
    && (forall i :: 0 < i < |debts| ==> IndexOf(ns, debts[i - 1].from) <= IndexOf(ns, debts[i].from))
  }

  /** The creditors of consecutive debts never move backwards among the names ns. */
  ghost predicate TosInOrder(ns: seq<string>, debts: seq<DebtInfo>)
  {
    && (forall g :: g in debts ==> g.to in ns)
    && (forall i :: 0 < i < |debts| ==> IndexOf(ns, debts[i - 1].to) <= IndexOf(ns, debts[i].to))
  }

  /** Prepending a debt from the first name keeps the order, whether the later debts
      are ordered among all names or among the names after the first. */
  lemma FromsInOrderCons(ns: seq<string>, g: DebtInfo, rest: seq<DebtInfo>, dropped: bool)
    requires |ns| > 0 && g.from == ns[0] && NoDuplicates(ns)
    requires FromsInOrder(if dropped then ns[1..] else ns, rest)
    ensures FromsInOrder(ns, [g] + rest)
  {
    var debts := [g] + rest;
    forall i | 0 < i < |debts| ensures IndexOf(ns, debts[i - 1].from) <= IndexOf(ns, debts[i].from) {
      if i > 1 && dropped {
        var a, b := rest[i - 2].from, rest[i - 1].from;
        assert a in ns[1..] && b in ns[1..];
        assert a != ns[0] && b != ns[0];
        assert IndexOf(ns, a) == 1 + IndexOf(ns[1..], a);
        assert IndexOf(ns, b) == 1 + IndexOf(ns[1..], b);
      }
    }
  }

  lemma TosInOrderCons(ns: seq<string>, g: DebtInfo, rest: seq<DebtInfo>, dropped: bool)
    requires |ns| > 0 && g.to == ns[0] && NoDuplicates(ns)
    requires TosInOrder(if dropped then ns[1..] else ns, rest)
    ensures TosInOrder(ns, [g] + rest)
  {
    var debts := [g] + rest;
    forall i | 0 < i < |debts| ensures IndexOf(ns, debts[i - 1].to) <= IndexOf(ns, debts[i].to) {
      if i > 1 && dropped {
        var a, b := rest[i - 2].to, rest[i - 1].to;
        assert a in ns[1..] && b in ns[1..];
        assert a != ns[0] && b != ns[0];
        assert IndexOf(ns, a) == 1 + IndexOf(ns[1..], a);
        assert IndexOf(ns, b) == 1 + IndexOf(ns[1..], b);
      }
    }
  }

  /** A party once left behind never comes back: debtors pay, and creditors are paid,
      in the order in which they stand among the residuals. */
  lemma {:induction false} GreedyOrder(ds: Dict, cs: Dict)
    requires Owing(ds) && Owed(cs)
    ensures FromsInOrder(ds.keys, Greedy(ds, cs))
    ensures TosInOrder(cs.keys, Greedy(ds, cs))
    decreases |ds.keys| + |cs.keys|
  {
    GreedyParties(ds, cs);
    if ds.keys != [] && cs.keys != [] {
      var amount := Settle(ds, cs);
      var ds', cs' := Pay(ds, amount), Receive(cs, amount);
      SettleStep(ds, cs);
      var rest := Greedy(ds', cs');
      GreedyOrder(ds', cs');
      var g := DebtInfo(ds.keys[0], cs.keys[0], amount);
      assert Greedy(ds, cs) == [g] + rest;
      FromsInOrderCons(ds.keys, g, rest, ds'.keys != ds.keys);
      TosInOrderCons(cs.keys, g, rest, cs'.keys != cs.keys);
    }
  }

  /** Selecting the debtors keeps their relative insertion order. */
  lemma {:induction false} DebtorNamesKeepOrder(ks: seq<string>, m: map<string, real>, x: string, y: string)
    requires forall k :: k in ks ==> k in m
    requires x in DebtorNames(ks, m) && y in DebtorNames(ks, m)
    requires IndexOf(DebtorNames(ks, m), x) <= IndexOf(DebtorNames(ks, m), y)
    ensures IndexOf(ks, x) <= IndexOf(ks, y)
  {
    var head := if m[ks[0]] < -Tol then [ks[0]] else [];
    var rest := DebtorNames(ks[1..], m);
    assert DebtorNames(ks, m) == head + rest;
    if x == ks[0] {
    } else if y == ks[0] {
      assert false;
    } else {
      IndexOfAfter(head, rest, x);
      IndexOfAfter(head, rest, y);
      DebtorNamesKeepOrder(ks[1..], m, x, y);
    }
  }

  /** Selecting the creditors keeps their relative insertion order. */
  lemma {:induction false} CreditorNamesKeepOrder(ks: seq<string>, m: map<string, real>, x: string, y: string)
    requires forall k :: k in ks ==> k in m
    requires x in CreditorNames(ks, m) && y in CreditorNames(ks, m)
    requires IndexOf(CreditorNames(ks, m), x) <= IndexOf(CreditorNames(ks, m), y)
    ensures IndexOf(ks, x) <= IndexOf(ks, y)
  {
    var head := if m[ks[0]] > Tol then [ks[0]] else [];
    var rest := CreditorNames(ks[1..], m);
    assert CreditorNames(ks, m) == head + rest;
    if x == ks[0] {
    } else if y == ks[0] {
      assert false;
    } else {
      IndexOfAfter(head, rest, x);
      IndexOfAfter(head, rest, y);
      CreditorNamesKeepOrder(ks[1..], m, x, y);
    }
  }

  /** Every debt runs from a name whose balance was below -0.01 to a name whose balance
      was above 0.01, for at least a cent; a name within a cent of zero never appears. */
  lemma SimplifiedDebtsParties(balances: Dict)
    ensures forall g :: g in SimplifiedDebts(balances) ==>
      && g.from in balances.keys && Get(balances, g.from) < -Tol
      && g.to in balances.keys && Get(balances, g.to) > Tol
      && g.amount >= Tol
  {
    GreedyParties(Debtors(balances), Creditors(balances));
  }

  /** No debts exactly when nobody owes, or nobody is owed, more than a cent; otherwise
      at most one debt fewer than there are debtors and creditors together. */
  lemma SimplifiedDebtsCount(balances: Dict)
    ensures SimplifiedDebts(balances) == [] <==>
      (forall x :: x in balances.keys ==> Get(balances, x) >= -Tol)
      || (forall y :: y in balances.keys ==> Get(balances, y) <= Tol)
    ensures SimplifiedDebts(balances) == []
      || |SimplifiedDebts(balances)| <= |Debtors(balances).keys| + |Creditors(balances).keys| - 1
  {
    var ds, cs := Debtors(balances), Creditors(balances);
    GreedyLength(ds, cs);
    if ds.keys != [] {
      assert ds.keys[0] in ds.keys;
    }
    if cs.keys != [] {
      assert cs.keys[0] in cs.keys;
    }
  }

  /** What a debtor pays never exceeds what it owed, and what a creditor receives never
      exceeds what it was owed; nobody else pays or receives anything. */
  lemma SimplifiedDebtsBounded(balances: Dict)
    ensures forall x :: x in balances.keys && Get(balances, x) < -Tol ==>
      0.0 <= Paid(SimplifiedDebts(balances), x) <= -Get(balances, x)
    ensures forall x :: !(x in balances.keys && Get(balances, x) < -Tol) ==>
      Paid(SimplifiedDebts(balances), x) == 0.0
    ensures forall y :: y in balances.keys && Get(balances, y) > Tol ==>
      0.0 <= Received(SimplifiedDebts(balances), y) <= Get(balances, y)
    ensures forall y :: !(y in balances.keys && Get(balances, y) > Tol) ==>
      Received(SimplifiedDebts(balances), y) == 0.0
  {
    GreedyPaid(Debtors(balances), Creditors(balances));
    GreedyReceived(Debtors(balances), Creditors(balances));
  }

  /** The simplifier runs until one side is used up: once the debts are paid, every
      debtor, or every creditor, is within a cent of zero. */
  lemma SimplifiedDebtsSettleOneSide(balances: Dict)
    ensures DebtorsCleared(balances, SimplifiedDebts(balances)) || CreditorsCleared(balances, SimplifiedDebts(balances))
  {
    var debts := SimplifiedDebts(balances);
    GreedyExhaustsOneSide(Debtors(balances), Creditors(balances));
    DebtorsSettledLift(balances, debts);
    CreditorsSettledLift(balances, debts);
  }

  /** With nobody owed more than a cent there are no debts. */
  lemma NoCreditorNoDebts(b: Dict)
    requires forall y :: y in b.keys ==> Get(b, y) <= Tol
    ensures SimplifiedDebts(b) == []
  {
    FirstKey(Creditors(b).keys);
  }

  /** A non-empty key list holds its first key. */
  lemma FirstKey(ks: seq<string>)
    ensures ks == [] || ks[0] in ks
  {
  }

  /** The balances {A: -0.015, B: 0.0075, C: 0.0075}, which add up to zero. */
  lemma ThreeBalances()
    ensures var b := FromPairs(["A", "B", "C"], [-0.015, 0.0075, 0.0075]);
      && b.keys == ["A", "B", "C"] && Sum(b) == 0.0
      && Get(b, "A") == -0.015 && Get(b, "B") == 0.0075 && Get(b, "C") == 0.0075
  {
    var keys, vals := ["A", "B", "C"], [-0.015, 0.0075, 0.0075];
    assert NoDuplicates(keys);
    FromPairsSum(keys, vals);
    TotalOfThree(-0.015, 0.0075, 0.0075);
    FromPairsGet(keys, vals, 0);
    FromPairsGet(keys, vals, 1);
    FromPairsGet(keys, vals, 2);
  }

  /** The one-cent tolerance can leave a debtor uncleared even when the balances add up to
      zero: with {A: -0.015, B: 0.0075, C: 0.0075} nobody is owed more than a cent, so there
      are no debts and A still owes a cent and a half. */
  lemma ZeroSumCanStayUncleared()
    ensures var b := FromPairs(["A", "B", "C"], [-0.015, 0.0075, 0.0075]);
      Sum(b) == 0.0 && SimplifiedDebts(b) == [] && !DebtorsCleared(b, SimplifiedDebts(b))
  {
    var b := FromPairs(["A", "B", "C"], [-0.015, 0.0075, 0.0075]);
    ThreeBalances();
    NoCreditorNoDebts(b);
    assert "A" in b.keys && Abs(Get(b, "A") + Paid([], "A")) >= Tol;
  }

  /** Every name whose balance was below -0.01 ends within a cent of zero once the debts are paid. */
  ghost predicate DebtorsCleared(balances: Dict, debts: seq<DebtInfo>)
  {
    forall x :: x in balances.keys && Get(balances, x) < -Tol ==> Abs(Get(balances, x) + Paid(debts, x)) < Tol
  }

  /** Every name whose balance was above 0.01 ends within a cent of zero once the debts are paid. */
  ghost predicate CreditorsCleared(balances: Dict, debts: seq<DebtInfo>)
  {
    forall y :: y in balances.keys && Get(balances, y) > Tol ==> Abs(Get(balances, y) - Received(debts, y)) < Tol
  }

  lemma DebtorsSettledLift(balances: Dict, debts: seq<DebtInfo>)
    ensures DebtorsSettled(Debtors(balances), debts) ==> DebtorsCleared(balances, debts)
  {
  }

  lemma CreditorsSettledLift(balances: Dict, debts: seq<DebtInfo>)
    ensures CreditorsSettled(Creditors(balances), debts) ==> CreditorsCleared(balances, debts)
  {
  }

  /** Debtors pay, and creditors are paid, in insertion order: the first debt goes from
      the first debtor to the first creditor, and no party comes back once passed. */
  lemma SimplifiedDebtsInOrder(balances: Dict)
    ensures FromsInOrder(balances.keys, SimplifiedDebts(balances))
    ensures TosInOrder(balances.keys, SimplifiedDebts(balances))
    ensures var debts := SimplifiedDebts(balances);
      debts != [] ==>
        && (forall x :: x in balances.keys && Get(balances, x) < -Tol ==>
              IndexOf(balances.keys, debts[0].from) <= IndexOf(balances.keys, x))
        && (forall y :: y in balances.keys && Get(balances, y) > Tol ==>
              IndexOf(balances.keys, debts[0].to) <= IndexOf(balances.keys, y))
  {
    var ds, cs := Debtors(balances), Creditors(balances);
    var debts := SimplifiedDebts(balances);
    GreedyOrder(ds, cs);
    LiftOrder(balances, debts);
    if debts != [] {
      assert debts[0].from == ds.keys[0] && debts[0].to == cs.keys[0];
      forall x | x in balances.keys && Get(balances, x) < -Tol
        ensures IndexOf(balances.keys, ds.keys[0]) <= IndexOf(balances.keys, x)
      {
        DebtorNamesKeepOrder(balances.keys, balances.values, ds.keys[0], x);
      }
      forall y | y in balances.keys && Get(balances, y) > Tol
        ensures IndexOf(balances.keys, cs.keys[0]) <= IndexOf(balances.keys, y)
      {
        CreditorNamesKeepOrder(balances.keys, balances.values, cs.keys[0], y);
      }
    }
  }

  /** Order among the debtors and among the creditors is order among all the names. */
  lemma LiftOrder(balances: Dict, debts: seq<DebtInfo>)
    requires FromsInOrder(Debtors(balances).keys, debts)
    requires TosInOrder(Creditors(balances).keys, debts)
    ensures FromsInOrder(balances.keys, debts)
    ensures TosInOrder(balances.keys, debts)
  {
    var ks, m := balances.keys, balances.values;
    forall i | 0 < i < |debts|
      ensures IndexOf(ks, debts[i - 1].from) <= IndexOf(ks, debts[i].from)
      ensures IndexOf(ks, debts[i - 1].to) <= IndexOf(ks, debts[i].to)
    {
      assert debts[i - 1] in debts && debts[i] in debts;
      DebtorNamesKeepOrder(ks, m, debts[i - 1].from, debts[i].from);
      CreditorNamesKeepOrder(ks, m, debts[i - 1].to, debts[i].to);
    }
  }

  /** One round of Greedy, unfolded. */
  lemma GreedyUnfold(ds: Dict, cs: Dict)
    requires Owing(ds) && Owed(cs) && ds.keys != [] && cs.keys != []
    ensures Owing(Pay(ds, Settle(ds, cs))) && Owed(Receive(cs, Settle(ds, cs)))
    ensures Greedy(ds, cs) == [DebtInfo(ds.keys[0], cs.keys[0], Settle(ds, cs))]
      + Greedy(Pay(ds, Settle(ds, cs)), Receive(cs, Settle(ds, cs)))
  {
    SettleStep(ds, cs);
  }

  /** Emitting the round's debt moves it from the debts still to come to the debts so far. */
  lemma AppendRound(before: seq<DebtInfo>, g: DebtInfo, rest: seq<DebtInfo>, remaining: seq<DebtInfo>)
    requires remaining == [g] + rest
    ensures (before + [g]) + rest == before + remaining
  {
  }

  lemma PayDeletes(ds: Dict, amount: real)
    requires ds.keys != []
    ensures var k := ds.keys[0]; var paid := Put(ds, k, Get(ds, k) + amount);
      Pay(ds, amount) == if Abs(Get(paid, k)) < Tol then Remove(paid, k) else paid
  {
  }

  lemma ReceiveDeletes(cs: Dict, amount: real)
    requires cs.keys != []
    ensures var k := cs.keys[0]; var received := Put(cs, k, Get(cs, k) - amount);
      Receive(cs, amount) == if Abs(Get(received, k)) < Tol then Remove(received, k) else received
  {
  }

  /** The body of the while loop in Debt.simplify: the first debtor pays the first
      creditor, and whoever is left with less than a cent is deleted. */
  method SettleFirst(debtors: Dict, creditors: Dict) returns (debtors': Dict, creditors': Dict, debt: DebtInfo)
    requires debtors.keys != [] && creditors.keys != []
    requires Owing(debtors) && Owed(creditors)
    ensures debt == DebtInfo(debtors.keys[0], creditors.keys[0], Settle(debtors, creditors))
    ensures debtors' == Pay(debtors, debt.amount) && creditors' == Receive(creditors, debt.amount)
  {
    var debtorName, debtorAmount := debtors.keys[0], Get(debtors, debtors.keys[0]);
    var creditorName, creditorAmount := creditors.keys[0], Get(creditors, creditors.keys[0]);
    var settleAmount := Min(Abs(debtorAmount), creditorAmount);
    debt := DebtInfo(debtorName, creditorName, settleAmount);
    PayDeletes(debtors, settleAmount);
    ReceiveDeletes(creditors, settleAmount);
    debtors' := Put(debtors, debtorName, Get(debtors, debtorName) + settleAmount);
    creditors' := Put(creditors, creditorName, Get(creditors, creditorName) - settleAmount);
    if Abs(Get(debtors', debtorName)) < Tol {
      debtors' := Remove(debtors', debtorName);
    }
    if Abs(Get(creditors', creditorName)) < Tol {
      creditors' := Remove(creditors', creditorName);
    }
  }

  /** Debt.simplify */
  method Simplify(balances: Dict) returns (debts: seq<DebtInfo>)
    ensures debts == SimplifiedDebts(balances)
    ensures forall g :: g in debts ==>
      && g.from in balances.keys && Get(balances, g.from) < -Tol
      && g.to in balances.keys && Get(balances, g.to) > Tol
      && g.amount >= Tol
  {
    var debtors := Debtors(balances);
    var creditors := Creditors(balances);
    debts := [];
    while debtors.keys != [] && creditors.keys != []
      invariant Owing(debtors) && Owed(creditors)
      invariant debts + Greedy(debtors, creditors) == SimplifiedDebts(balances)
      decreases |debtors.keys| + |creditors.keys|
    {
      var debtors', creditors', debt := SettleFirst(debtors, creditors);
      GreedyUnfold(debtors, creditors);
      SettleStep(debtors, creditors);
      AppendRound(debts, debt, Greedy(debtors', creditors'), Greedy(debtors, creditors));
      debts := debts + [debt];
      debtors, creditors := debtors', creditors';
    }
    SimplifiedDebtsParties(balances);
  }
}
