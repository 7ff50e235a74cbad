/**
 * Groups: the members of a group, its history of expenses and settlements, and the
 * debts that settle the balances this history leaves. The balances are rebuilt from
 * the whole history every time the history grows.
 */
module Groups {
  import opened Amounts
  import opened Outcomes
  import opened Dicts
  import opened Users
  import opened Splits
  import opened Debts

  /** An expense, with the shares its split strategy gave when the expense was made. */
  datatype Expense = Expense(description: string, amount: real, paidBy: User,
                             participants: seq<User>, split: Split, shares: Dict)

  /** A payment from one user to another, recorded as (from_user, to_user, amount). */
  datatype Settlement = Settlement(from: User, to: User, amount: real)

  /** Expense(description, amount, paid_by, participants, split_strategy): the shares are
      computed once, here, and any error of the split propagates. */
  function NewExpense(description: string, amount: real, paidBy: User, participants: seq<User>,
                      split: Split): (r: Result<Expense>)
    ensures r.Ok? <==> CalculateShares(split).Ok?
    ensures r.Ok? ==>
      && r.value.shares == CalculateShares(split).value && r.value.split == split
      && r.value.amount == amount && r.value.paidBy == paidBy
    ensures r.Err? ==> r.error == CalculateShares(split).error
  {
    match CalculateShares(split)
    case Err(err) => Err(err)
    case Ok(shares) => Ok(Expense(description, amount, paidBy, participants, split, shares))
  }

  /** Making an expense fails only for a percent split with a participant that has no
      percentage, and then with a KeyError naming that participant. */
  lemma NewExpenseFails(description: string, amount: real, paidBy: User, participants: seq<User>,
                        split: Split)
    ensures var r := NewExpense(description, amount, paidBy, participants, split);
      && (r.Err? <==> split.PercentSplit? && exists p :: p in split.participants && p.name !in split.percentages.keys)
      && (r.Err? ==> split.PercentSplit? && r.error.KeyError? && r.error.key !in split.percentages.keys)
  {
    if split.PercentSplit? {
      PercentSharesMissing(split.amount, split.participants, split.percentages);
    }
  }

  // ---------------------------------------------------------------------------
  // The balances a history leaves

  /** {member.name: 0.0 for member in members} */
  function Zeroes(members: seq<User>): (b: Dict)
    ensures forall n :: n in b.keys <==> n in NamesOf(members)
  {
    FromPairs(NamesOf(members), Repeat(0.0, |members|))
  }

  /** balances[name] += amount, for a name that has a balance. */
  function Credit(b: Dict, name: string, amount: real): (r: Dict)
    requires name in b.keys
    ensures r.keys == b.keys
    ensures forall x :: x in b.keys ==> Get(r, x) == Get(b, x) + (if x == name then amount else 0.0)
    ensures Sum(r) == Sum(b) + amount
  {
    SumPut(b, name, Get(b, name) + amount);
    Put(b, name, Get(b, name) + amount)
  }

  /** if name in balances: balances[name] -= share */
  function Debit(b: Dict, name: string, share: real): (r: Dict)
    ensures r.keys == b.keys
    ensures forall x :: x in b.keys ==> Get(r, x) == Get(b, x) - (if x == name then share else 0.0)
    ensures Sum(r) == Sum(b) - (if name in b.keys then share else 0.0)
  {
    if name in b.keys then
      SumPut(b, name, Get(b, name) - share);
      Put(b, name, Get(b, name) - share)
    else b
  }

  /** for user_name, share in shares.items(): if user_name in balances: balances[user_name] -= share */
  function AfterShares(b: Dict, ks: seq<string>, m: map<string, real>): (r: Dict)
    requires forall k :: k in ks ==> k in m
    ensures r.keys == b.keys
    decreases ks
  {
    if ks == [] then b
    else
      var n := |ks| - 1;
      Debit(AfterShares(b, ks[..n], m), ks[n], m[ks[n]])
  }

  /** One expense: its payer is credited with the amount (KeyError when the payer has no
      balance), then every name with a balance is debited its share. */
  function AfterExpense(b: Dict, e: Expense): (r: Result<Dict>)
    ensures r.Ok? <==> e.paidBy.name in b.keys
    ensures r.Ok? ==> r.value.keys == b.keys
    ensures r.Err? ==> r.error == KeyError(e.paidBy.name)
  {
    var payer := e.paidBy.name;
    if payer !in b.keys then Err(KeyError(payer))
    else Ok(AfterShares(Credit(b, payer, e.amount), e.shares.keys, e.shares.values))
  }

  /** Number of leading expenses whose payer is among the names: the position of the
      first expense whose payer is not, or the length when every payer is. */
  function KnownPayers(es: seq<Expense>, names: seq<string>): (n: nat)
    ensures n <= |es|
    ensures forall i :: 0 <= i < n ==> es[i].paidBy.name in names
    ensures n < |es| ==> es[n].paidBy.name !in names
  {
    if es == [] || es[0].paidBy.name !in names then 0 else 1 + KnownPayers(es[1..], names)
  }

  /** Number of leading settlements whose two parties are among the names. */
  function KnownParties(ss: seq<Settlement>, names: seq<string>): (n: nat)
    ensures n <= |ss|
    ensures forall i :: 0 <= i < n ==> ss[i].from.name in names && ss[i].to.name in names
    ensures n < |ss| ==> ss[n].from.name !in names || ss[n].to.name !in names
  {
    if ss == [] || ss[0].from.name !in names || ss[0].to.name !in names then 0
    else 1 + KnownParties(ss[1..], names)
  }

  /** KnownPayers only asks whether a name is among the given ones. */
  lemma {:induction false} KnownPayersSameNames(es: seq<Expense>, names: seq<string>, names': seq<string>)
    requires forall n :: n in names <==> n in names'
    ensures KnownPayers(es, names) == KnownPayers(es, names')
  {
    if es != [] {
      KnownPayersSameNames(es[1..], names, names');
    }
  }

  /** KnownParties only asks whether a name is among the given ones. */
  lemma {:induction false} KnownPartiesSameNames(ss: seq<Settlement>, names: seq<string>, names': seq<string>)
    requires forall n :: n in names <==> n in names'
    ensures KnownParties(ss, names) == KnownParties(ss, names')
  {
    if ss != [] {
      KnownPartiesSameNames(ss[1..], names, names');
    }
  }

  /** The expenses in order, stopping at the first KeyError: the one raised for the
      first expense whose payer has no balance. */
  function AfterExpenses(b: Dict, es: seq<Expense>): (r: Result<Dict>)
    ensures r.Ok? <==> forall e :: e in es ==> e.paidBy.name in b.keys
    ensures r.Ok? ==> r.value.keys == b.keys
    ensures r.Err? ==> var n := KnownPayers(es, b.keys);
      n < |es| && r.error == KeyError(es[n].paidBy.name)
    decreases es
  {
    if es == [] then Ok(b)
    else
      match AfterExpense(b, es[0])
      case Err(err) => Err(err)
      case Ok(b') =>
        assert b'.keys == b.keys;
        assert KnownPayers(es, b.keys) == 1 + KnownPayers(es[1..], b.keys);
        AfterExpenses(b', es[1..])
  }

  /** One settlement: the payer is credited and the receiver debited the amount, each
      raising KeyError when it has no balance. */
  function AfterSettlement(b: Dict, s: Settlement): (r: Result<Dict>)
    ensures r.Ok? <==> s.from.name in b.keys && s.to.name in b.keys
    ensures r.Ok? ==> r.value.keys == b.keys
    ensures r.Err? ==> r.error == KeyError(if s.from.name !in b.keys then s.from.name else s.to.name)
  {
    if s.from.name !in b.keys then Err(KeyError(s.from.name))
    else
      var b' := Credit(b, s.from.name, s.amount);
      if s.to.name !in b'.keys then Err(KeyError(s.to.name))
      else Ok(Credit(b', s.to.name, -s.amount))
  }

  /** The settlements in order, stopping at the first KeyError: the one raised for the
      first settlement with a party that has no balance, the payer checked first. */
  function AfterSettlements(b: Dict, ss: seq<Settlement>): (r: Result<Dict>)
    ensures r.Ok? <==> forall s :: s in ss ==> s.from.name in b.keys && s.to.name in b.keys
    ensures r.Ok? ==> r.value.keys == b.keys
    ensures r.Err? ==> var n := KnownParties(ss, b.keys);
      n < |ss| && r.error == KeyError(if ss[n].from.name !in b.keys then ss[n].from.name else ss[n].to.name)
    decreases ss
  {
    if ss == [] then Ok(b)
    else
      match AfterSettlement(b, ss[0])
      case Err(err) => Err(err)
      case Ok(b') =>
        assert b'.keys == b.keys;
        assert KnownParties(ss, b.keys) == 1 + KnownParties(ss[1..], b.keys);
        AfterSettlements(b', ss[1..])
  }

  /** The balances simplify_debts builds: every member at zero, then the expenses, then
      the settlements. They exist exactly when every payer and both parties of every
      settlement are members; otherwise a KeyError names a non-member. */
  function Balances(members: seq<User>, es: seq<Expense>, ss: seq<Settlement>): (r: Result<Dict>)
    ensures r.Ok? <==>
      && (forall e :: e in es ==> e.paidBy.name in NamesOf(members))
      && (forall s :: s in ss ==> s.from.name in NamesOf(members) && s.to.name in NamesOf(members))
    ensures r.Ok? ==> forall n :: n in r.value.keys <==> n in NamesOf(members)
    ensures r.Err? ==> r.error.KeyError? && r.error.key !in NamesOf(members)
  {
    match AfterExpenses(Zeroes(members), es)
    case Err(err) => Err(err)
    case Ok(b) => AfterSettlements(b, ss)
  }

  /** The KeyError simplify_debts raises names the first offender in history order. */
  lemma BalancesFirstKeyError(members: seq<User>, es: seq<Expense>, ss: seq<Settlement>)
    requires Balances(members, es, ss).Err?
    ensures FirstUnknown(NamesOf(members), es, ss) == Some(Balances(members, es, ss).error.key)
  {
    var names, zero := NamesOf(members), Zeroes(members);
    KnownPayersSameNames(es, zero.keys, names);
    KnownPartiesSameNames(ss, zero.keys, names);
    var r := AfterExpenses(zero, es);
    if r.Err? {
      assert Balances(members, es, ss) == r;
    } else {
      var n := KnownPayers(es, names);
      assert forall i :: 0 <= i < |es| ==> es[i] in es;
      assert n == |es|;
      assert r.value.keys == zero.keys;
      assert Balances(members, es, ss) == AfterSettlements(r.value, ss);
    }
  }

  /** The name the first KeyError of the history names, when there is one: the payer of
      the first expense paid by someone not among the names, or else the first party
      not among the names of the first such settlement, the payer checked first. */
  function FirstUnknown(names: seq<string>, es: seq<Expense>, ss: seq<Settlement>): (r: Option<string>)
    ensures r.None? <==>
      && (forall e :: e in es ==> e.paidBy.name in names)
      && (forall s :: s in ss ==> s.from.name in names && s.to.name in names)
    ensures r.Some? ==> r.value !in names
  {
    var n, m := KnownPayers(es, names), KnownParties(ss, names);
    if n < |es| then Some(es[n].paidBy.name)
    else if m < |ss| then Some(if ss[m].from.name !in names then ss[m].from.name else ss[m].to.name)
    else None
  }

  // ---------------------------------------------------------------------------
  // Each member's balance

  /** What x paid for, across the expenses. */
  function Fronted(es: seq<Expense>, x: string): real
  {
    if es == [] then 0.0
    else (if es[0].paidBy.name == x then es[0].amount else 0.0) + Fronted(es[1..], x)
  }

  /** x's share of one expense, zero when x has none. */
  function ShareOf(e: Expense, x: string): real
  {
    if x in e.shares.keys then Get(e.shares, x) else 0.0
  }

  /** x's shares, across the expenses. */
  function Owes(es: seq<Expense>, x: string): real
  {
    if es == [] then 0.0 else ShareOf(es[0], x) + Owes(es[1..], x)
  }

  /** What x paid back to others, across the settlements. */
  function SettledOut(ss: seq<Settlement>, x: string): real
  {
    if ss == [] then 0.0
    else (if ss[0].from.name == x then ss[0].amount else 0.0) + SettledOut(ss[1..], x)
  }

  /** What others paid back to x, across the settlements. */
  function SettledIn(ss: seq<Settlement>, x: string): real
  {
    if ss == [] then 0.0
    else (if ss[0].to.name == x then ss[0].amount else 0.0) + SettledIn(ss[1..], x)
  }

  /** Every member starts at zero. */
  lemma ZeroesGet(members: seq<User>)
    ensures forall n :: n in Zeroes(members).keys ==> Get(Zeroes(members), n) == 0.0
  {
    var names, zeros := NamesOf(members), Repeat(0.0, |members|);
    forall n | n in Zeroes(members).keys ensures Get(Zeroes(members), n) == 0.0 {
      var i :| 0 <= i < |names| && names[i] == n;
      FromPairsGet(names, zeros, i);
    }
  }

  /** Debiting shares takes x's own share, if it has one, off x's balance. */
  lemma {:induction false} AfterSharesGet(b: Dict, ks: seq<string>, m: map<string, real>, x: string)
    requires forall k :: k in ks ==> k in m
    requires NoDuplicates(ks) && x in b.keys
    ensures Get(AfterShares(b, ks, m), x) == Get(b, x) - (if x in ks then m[x] else 0.0)
    decreases ks
  {
    if ks != [] {
      var n := |ks| - 1;
      assert NoDuplicates(ks[..n]) && ks[n] !in ks[..n];
      assert forall y :: y in ks <==> y in ks[..n] || y == ks[n];
      AfterSharesGet(b, ks[..n], m, x);
    }
  }

  /** One expense moves x's balance by what x paid minus x's share. */
  lemma AfterExpenseGet(b: Dict, e: Expense, x: string)
    requires AfterExpense(b, e).Ok? && x in b.keys
    ensures Get(AfterExpense(b, e).value, x)
      == Get(b, x) + (if e.paidBy.name == x then e.amount else 0.0) - ShareOf(e, x)
  {
    AfterSharesGet(Credit(b, e.paidBy.name, e.amount), e.shares.keys, e.shares.values, x);
  }

  /** The expenses move x's balance by all x paid minus all x's shares. */
  lemma {:induction false} AfterExpensesGet(b: Dict, es: seq<Expense>, x: string)
    requires AfterExpenses(b, es).Ok? && x in b.keys
    ensures Get(AfterExpenses(b, es).value, x) == Get(b, x) + Fronted(es, x) - Owes(es, x)
    decreases es
  {
    if es != [] {
      AfterExpenseGet(b, es[0], x);
      AfterExpensesGet(AfterExpense(b, es[0]).value, es[1..], x);
    }
  }

  /** The settlements move x's balance by what x paid back minus what x was paid back. */
  lemma {:induction false} AfterSettlementsGet(b: Dict, ss: seq<Settlement>, x: string)
    requires AfterSettlements(b, ss).Ok? && x in b.keys
    ensures Get(AfterSettlements(b, ss).value, x) == Get(b, x) + SettledOut(ss, x) - SettledIn(ss, x)
    decreases ss
  {
    if ss != [] {
      AfterSettlementsGet(AfterSettlement(b, ss[0]).value, ss[1..], x);
    }
  }

  /** A member's balance is what it paid for, minus its shares, plus what it paid back,
      minus what it was paid back. */
  lemma BalancesGet(members: seq<User>, es: seq<Expense>, ss: seq<Settlement>)
    requires Balances(members, es, ss).Ok?
    ensures forall x :: x in NamesOf(members) ==>
      Get(Balances(members, es, ss).value, x) == Fronted(es, x) - Owes(es, x) + SettledOut(ss, x) - SettledIn(ss, x)
  {
    var zero := Zeroes(members);
    ZeroesGet(members);
    var b := AfterExpenses(zero, es).value;
    forall x | x in NamesOf(members)
      ensures Get(Balances(members, es, ss).value, x) == Fronted(es, x) - Owes(es, x) + SettledOut(ss, x) - SettledIn(ss, x)
    {
      AfterExpensesGet(zero, es, x);
      AfterSettlementsGet(b, ss, x);
    }
  }

  // ---------------------------------------------------------------------------
  // The balances add up to what the expenses leave uncharged

  /** The shares charged to names among the given ones. */
  function Charged(names: seq<string>, ks: seq<string>, m: map<string, real>): real
    requires forall k :: k in ks ==> k in m
  {
    if ks == [] then 0.0
    else
      var n := |ks| - 1;
      Charged(names, ks[..n], m) + (if ks[n] in names then m[ks[n]] else 0.0)
  }

  /** Over the expenses, the amounts minus the shares charged to the given names. */
  function Uncharged(es: seq<Expense>, names: seq<string>): real
  {
    if es == [] then 0.0
    else es[0].amount - Charged(names, es[0].shares.keys, es[0].shares.values) + Uncharged(es[1..], names)
  }

  lemma {:induction false} AfterSharesSum(b: Dict, ks: seq<string>, m: map<string, real>)
    requires forall k :: k in ks ==> k in m
    ensures Sum(AfterShares(b, ks, m)) == Sum(b) - Charged(b.keys, ks, m)
    decreases ks
  {
    if ks != [] {
      var n := |ks| - 1;
      AfterSharesSum(b, ks[..n], m);
    }
  }

  lemma {:induction false} AfterExpensesSum(b: Dict, es: seq<Expense>)
    requires AfterExpenses(b, es).Ok?
    ensures Sum(AfterExpenses(b, es).value) == Sum(b) + Uncharged(es, b.keys)
    decreases es
  {
    if es != [] {
      var e := es[0];
      AfterSharesSum(Credit(b, e.paidBy.name, e.amount), e.shares.keys, e.shares.values);
      AfterExpensesSum(AfterExpense(b, e).value, es[1..]);
    }
  }

  lemma {:induction false} AfterSettlementsSum(b: Dict, ss: seq<Settlement>)
    requires AfterSettlements(b, ss).Ok?
    ensures Sum(AfterSettlements(b, ss).value) == Sum(b)
    decreases ss
  {
    if ss != [] {
      AfterSettlementsSum(AfterSettlement(b, ss[0]).value, ss[1..]);
    }
  }

  /** A sum over keys whose values are all zero is zero. */
  lemma {:induction false} SumOverZeroes(ks: seq<string>, m: map<string, real>)
    requires forall k :: k in ks ==> k in m && m[k] == 0.0
    ensures SumOver(ks, m) == 0.0
  {
    if ks != [] {
      SumOverZeroes(ks[1..], m);
    }
  }

  /** Charged only asks whether a name is among the given ones. */
  lemma {:induction false} UnchargedSameNames(es: seq<Expense>, names: seq<string>, names': seq<string>)
    requires forall n :: n in names <==> n in names'
    ensures Uncharged(es, names) == Uncharged(es, names')
  {
    if es != [] {
      ChargedSameNames(names, names', es[0].shares.keys, es[0].shares.values);
      UnchargedSameNames(es[1..], names, names');
    }
  }

  lemma {:induction false} ChargedSameNames(names: seq<string>, names': seq<string>, ks: seq<string>, m: map<string, real>)
    requires forall k :: k in ks ==> k in m
    requires forall n :: n in names <==> n in names'
    ensures Charged(names, ks, m) == Charged(names', ks, m)
  {
    if ks != [] {
      ChargedSameNames(names, names', ks[..|ks| - 1], m);
    }
  }

  /** The balances add up to the expenses' amounts minus the shares charged to members:
      settlements move money between members and change nothing in the total. */
  lemma BalancesConserved(members: seq<User>, es: seq<Expense>, ss: seq<Settlement>)
    requires Balances(members, es, ss).Ok?
    ensures Sum(Balances(members, es, ss).value) == Uncharged(es, NamesOf(members))
  {
    var zero := Zeroes(members);
    ZeroesGet(members);
    SumOverZeroes(zero.keys, zero.values);
    AfterExpensesSum(zero, es);
    AfterSettlementsSum(AfterExpenses(zero, es).value, ss);
    UnchargedSameNames(es, zero.keys, NamesOf(members));
  }

  /** Shares charged to names that are all among the given ones are charged in full. */
  lemma {:induction false} ChargedAll(names: seq<string>, ks: seq<string>, m: map<string, real>)
    requires forall k :: k in ks ==> k in m && k in names
    ensures Charged(names, ks, m) == SumOver(ks, m)
  {
    if ks != [] {
      var n := |ks| - 1;
      ChargedAll(names, ks[..n], m);
      SumOverAppend(ks[..n], m, ks[n]);
      assert ks[..n] + [ks[n]] == ks;
    }
  }

  /** When every expense's shares go to members and add up to its amount, the balances
      add up to zero. */
  lemma {:induction false} BalancesSumToZero(members: seq<User>, es: seq<Expense>, ss: seq<Settlement>)
    requires Balances(members, es, ss).Ok?
    requires forall e :: e in es ==>
      (forall k :: k in e.shares.keys ==> k in NamesOf(members)) && Sum(e.shares) == e.amount
    ensures Sum(Balances(members, es, ss).value) == 0.0
  {
    BalancesConserved(members, es, ss);
    UnchargedZero(es, NamesOf(members));
  }

  lemma {:induction false} UnchargedZero(es: seq<Expense>, names: seq<string>)
    requires forall e :: e in es ==>
      (forall k :: k in e.shares.keys ==> k in names) && Sum(e.shares) == e.amount
    ensures Uncharged(es, names) == 0.0
  {
    if es != [] {
      ChargedAll(names, es[0].shares.keys, es[0].shares.values);
      UnchargedZero(es[1..], names);
    }
  }

  // ---------------------------------------------------------------------------
  // From simplified debts back to users

  /** {user.name: user for user in members}: a later member with the same name replaces
      an earlier one. */
  function UserMap(members: seq<User>): (users: map<string, User>)
    ensures forall n :: n in users <==> n in NamesOf(members)
    ensures forall n :: n in users ==> users[n] in members && users[n].name == n
  {
    if members == [] then map[]
    else
      var n := |members| - 1;
      assert NamesOf(members) == NamesOf(members[..n]) + [members[n].name];
      UserMap(members[..n])[members[n].name := members[n]]
  }

  /** A member whose name no later member repeats is the user that name maps to. */
  lemma {:induction false} UserMapLast(members: seq<User>, i: nat)
    requires i < |members|
    requires forall j :: i < j < |members| ==> members[j].name != members[i].name
    ensures UserMap(members)[members[i].name] == members[i]
  {
    var n := |members| - 1;
    if i < n {
      UserMapLast(members[..n], i);
    }
  }

  /** Every name the simplified debts mention is in user_map. */
  predicate Resolves(infos: seq<DebtInfo>, users: map<string, User>)
  {
    forall i :: 0 <= i < |infos| ==> infos[i].from in users && infos[i].to in users
  }

  /** Debt(user_map[from], user_map[to], amount) for each simplified debt, in order. */
  function ToDebts(infos: seq<DebtInfo>, users: map<string, User>): (ds: seq<Debt>)
    requires Resolves(infos, users)
    ensures |ds| == |infos|
    ensures forall i :: 0 <= i < |infos| ==>
      ds[i] == Debt(users[infos[i].from], users[infos[i].to], infos[i].amount)
  {
    if infos == [] then []
    else
      var n := |infos| - 1;
      ToDebts(infos[..n], users) + [Debt(users[infos[n].from], users[infos[n].to], infos[n].amount)]
  }

  /** The debts simplify_debts leaves for a history, or the KeyError it raises. */
  function DebtsFor(members: seq<User>, es: seq<Expense>, ss: seq<Settlement>): (r: Result<seq<Debt>>)
    ensures r.Ok? <==> Balances(members, es, ss).Ok?
    ensures r.Err? ==> r.error == Balances(members, es, ss).error
    ensures r.Ok? ==> forall d :: d in r.value ==> d.fromUser in members && d.toUser in members
  {
    match Balances(members, es, ss)
    case Err(err) => Err(err)
    case Ok(b) =>
      DebtsResolve(members, b);
      Ok(ToDebts(SimplifiedDebts(b), UserMap(members)))
  }

  /** On success the debts are those of the simplified debts of the balances. */
  lemma DebtsForOk(members: seq<User>, es: seq<Expense>, ss: seq<Settlement>)
    requires Balances(members, es, ss).Ok?
    ensures Resolves(SimplifiedDebts(Balances(members, es, ss).value), UserMap(members))
    ensures DebtsFor(members, es, ss)
      == Ok(ToDebts(SimplifiedDebts(Balances(members, es, ss).value), UserMap(members)))
  {
    DebtsResolve(members, Balances(members, es, ss).value);
  }

  /** user_map knows every name in the simplified debts of the members' balances. */
  lemma DebtsResolve(members: seq<User>, b: Dict)
    requires forall n :: n in b.keys <==> n in NamesOf(members)
    ensures Resolves(SimplifiedDebts(b), UserMap(members))
  {
    var infos := SimplifiedDebts(b);
    SimplifiedDebtsParties(b);
    forall i | 0 <= i < |infos| ensures infos[i].from in UserMap(members) && infos[i].to in UserMap(members) {
      assert infos[i] in infos;
    }
  }

  /** Every debt runs from a member whose balance is below -0.01 to a member whose balance
      is above 0.01, for at least a cent, in the order the simplifier emits them. */
  lemma DebtsForParties(members: seq<User>, es: seq<Expense>, ss: seq<Settlement>)
    requires DebtsFor(members, es, ss).Ok?
    ensures var b := Balances(members, es, ss).value;
      var ds := DebtsFor(members, es, ss).value;
      && |ds| == |SimplifiedDebts(b)|
      && forall i :: 0 <= i < |ds| ==>
           && ds[i].fromUser in members && ds[i].fromUser.name == SimplifiedDebts(b)[i].from
           && ds[i].toUser in members && ds[i].toUser.name == SimplifiedDebts(b)[i].to
           && ds[i].amount == SimplifiedDebts(b)[i].amount
           && Get(b, ds[i].fromUser.name) < -Tol && Get(b, ds[i].toUser.name) > Tol
           && ds[i].amount >= Tol
  {
    var b := Balances(members, es, ss).value;
    SimplifiedDebtsParties(b);
    var infos := SimplifiedDebts(b);
    forall i | 0 <= i < |infos| ensures infos[i] in infos {
    }
  }

  // ---------------------------------------------------------------------------
  // The loops of simplify_debts

  /** One step of the inner loop: if user_name in balances: balances[user_name] -= share */
  method DebitShare(balances: Dict, name: string, share: real) returns (b: Dict)
    ensures b == Debit(balances, name, share)
  {
    b := balances;
    if name in b.keys {
      b := Put(b, name, Get(b, name) - share);
    }
  }

  /** The inner loop over one expense's shares. */
  method ChargeShares(balances: Dict, shares: Dict) returns (b: Dict)
    ensures b == AfterShares(balances, shares.keys, shares.values)
  {
    b := balances;
    var j := 0;
    while j < |shares.keys|
      invariant j <= |shares.keys|
      invariant b == AfterShares(balances, shares.keys[..j], shares.values)
    {
      var name := shares.keys[j];
      b := DebitShare(b, name, shares.values[name]);
      assert shares.keys[..j + 1][..j] == shares.keys[..j];
      j := j + 1;
    }
    assert shares.keys[..j] == shares.keys;
  }

  /** The body of the loop over the expenses. */
  method ReplayExpense(balances: Dict, e: Expense) returns (r: Result<Dict>)
    ensures r == AfterExpense(balances, e)
  {
    if e.paidBy.name !in balances.keys {
      return Err(KeyError(e.paidBy.name));
    }
    var b := Put(balances, e.paidBy.name, Get(balances, e.paidBy.name) + e.amount);
    assert b == Credit(balances, e.paidBy.name, e.amount);
    b := ChargeShares(b, e.shares);
    return Ok(b);
  }

  /** The loop over the expenses. */
  method ReplayExpenses(balances: Dict, expenses: seq<Expense>) returns (r: Result<Dict>)
    ensures r == AfterExpenses(balances, expenses)
  {
    var b := balances;
    var i := 0;
    while i < |expenses|
      invariant i <= |expenses|
      invariant AfterExpenses(b, expenses[i..]) == AfterExpenses(balances, expenses)
    {
      assert expenses[i..][1..] == expenses[i + 1..];
      var next := ReplayExpense(b, expenses[i]);
      if next.Err? {
        return next;
      }
      b := next.value;
      i := i + 1;
    }
    return Ok(b);
  }

  /** The loop over the settlements. */
  method ReplaySettlements(balances: Dict, settlements: seq<Settlement>) returns (r: Result<Dict>)
    ensures r == AfterSettlements(balances, settlements)
  {
    var b := balances;
    var i := 0;
    while i < |settlements|
      invariant i <= |settlements|
      invariant AfterSettlements(b, settlements[i..]) == AfterSettlements(balances, settlements)
    {
      assert settlements[i..][1..] == settlements[i + 1..];
      var next := ReplaySettlement(b, settlements[i]);
      if next.Err? {
        return next;
      }
      b := next.value;
      i := i + 1;
    }
    return Ok(b);
  }

  /** The body of the loop over the settlements. */
  method ReplaySettlement(balances: Dict, s: Settlement) returns (r: Result<Dict>)
    ensures r == AfterSettlement(balances, s)
  {
    if s.from.name !in balances.keys {
      return Err(KeyError(s.from.name));
    }
    var b := Put(balances, s.from.name, Get(balances, s.from.name) + s.amount);
    assert b == Credit(balances, s.from.name, s.amount);
    if s.to.name !in b.keys {
      return Err(KeyError(s.to.name));
    }
    ghost var credited := b;
    b := Put(b, s.to.name, Get(b, s.to.name) - s.amount);
    assert b == Credit(credited, s.to.name, -s.amount);
    return Ok(b);
  }

  /** The balances of simplify_debts: every member at zero, then both loops. */
  method ReplayBalances(members: seq<User>, expenses: seq<Expense>, settlements: seq<Settlement>)
    returns (r: Result<Dict>)
    ensures r == Balances(members, expenses, settlements)
  {
    r := ReplayExpenses(Zeroes(members), expenses);
    if r.Ok? {
      r := ReplaySettlements(r.value, settlements);
    }
  }

  /** The loop that turns the simplified debts back into debts between users. */
  method ResolveDebts(infos: seq<DebtInfo>, users: map<string, User>) returns (ds: seq<Debt>)
    requires Resolves(infos, users)
    ensures ds == ToDebts(infos, users)
  {
    ds := [];
    var k := 0;
    while k < |infos|
      invariant k <= |infos|
      invariant Resolves(infos[..k], users) && ds == ToDebts(infos[..k], users)
    {
      assert infos[..k + 1][..k] == infos[..k];
      ds := ds + [Debt(users[infos[k].from], users[infos[k].to], infos[k].amount)];
      k := k + 1;
    }
    assert infos[..k] == infos;
  }

  // ---------------------------------------------------------------------------
  // The group

  class Group {
    const name: string
    var members: seq<User>
    var expenses: seq<Expense>
    var settlements: seq<Settlement>
    var debts: seq<Debt>

    /** No user is a member twice, and every debt is between members. */
    ghost predicate Valid()
      reads this
    {
      && (forall i, j :: 0 <= i < j < |members| ==> members[i] != members[j])
      && (forall d :: d in debts ==> d.fromUser in members && d.toUser in members)
    }

    /** What the last recomputation leaves: the debts of the whole history, or the debts
        from before together with the KeyError raised. */
    ghost predicate Recomputed(before: seq<Debt>, raised: Option<Error>)
      reads this
    {
      match DebtsFor(members, expenses, settlements)
      case Ok(ds) => raised == None && debts == ds
      case Err(err) => raised == Some(err) && debts == before
    }

    constructor (name: string)
      ensures Valid()
      ensures this.name == name
      ensures members == [] && expenses == [] && settlements == [] && debts == []
    {
      this.name := name;
      members := [];
      expenses := [];
      settlements := [];
      debts := [];
    }

    /** add_member: a user who is already a member is not added again. */
    method AddMember(user: User)
      requires Valid()
      modifies this`members
      ensures Valid()
      ensures members == if user in old(members) then old(members) else old(members) + [user]
    {
      if user !in members {
        members := members + [user];
      }
    }

    /** add_expense: the expense is recorded even when recomputing the debts raises. */
    method AddExpense(expense: Expense) returns (raised: Option<Error>)
      requires Valid()
      modifies this`expenses, this`debts
      ensures Valid()
      ensures expenses == old(expenses) + [expense]
      ensures Recomputed(old(debts), raised)
    {
      expenses := expenses + [expense];
      raised := SimplifyDebts();
    }

    /** settle_up: the settlement is recorded even when recomputing the debts raises. */
    method SettleUp(from: User, to: User, amount: real) returns (raised: Option<Error>)
      requires Valid()
      modifies this`settlements, this`debts
      ensures Valid()
      ensures settlements == old(settlements) + [Settlement(from, to, amount)]
      ensures Recomputed(old(debts), raised)
    {
      settlements := settlements + [Settlement(from, to, amount)];
      raised := SimplifyDebts();
    }

    /** simplify_debts: rebuilds the balances from the whole history and replaces the debts
        with their simplification; on a KeyError the debts stay as they were. */
    method SimplifyDebts() returns (raised: Option<Error>)
      requires Valid()
      modifies this`debts
      ensures Valid()
      ensures Recomputed(old(debts), raised)
    {
      var r := ReplayBalances(members, expenses, settlements);
      if r.Err? {
        return Some(r.error);
      }
      var infos := Simplify(r.value);
      var users := UserMap(members);
      DebtsForOk(members, expenses, settlements);
      debts := ResolveDebts(infos, users);
      assert debts == DebtsFor(members, expenses, settlements).value;
      return None;
    }

    /** get_debts */
    method GetDebts() returns (r: seq<Debt>)
      requires Valid()
      ensures r == debts
      ensures forall d :: d in r ==> d.fromUser in members && d.toUser in members
    {
      return debts;
    }
  }
}
