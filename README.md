# Spliterapp core in Dafny

Spliterapp keeps the shared expenses of a group. A group has members, who are users identified by
name. It also keeps a history of expenses and settlements.

- **Expense.** One member pays an amount, and a split strategy divides it into shares among the
  participants. There are three strategies:
  - equal: the amount divided by the number of participants, rounded to the cent;
  - by percentage: each participant's percentage of the amount, rounded to the cent;
  - by explicit amounts: the given amounts as they are.
- **Settlement.** One member pays another back directly.

After every change to the history, the group recomputes its debts:

- It rebuilds every member's balance from scratch. The balance is what the member paid for, minus
  their shares, plus what they paid back, minus what they were paid back.
- It nets the balances greedily. The first remaining debtor (balance below -0.01) pays the first
  remaining creditor (balance above 0.01) as much as the smaller of the two can settle. Any party
  left within a cent of zero drops out. This repeats until one side is empty.

The model has seven modules:

- `Amounts`: the one-cent tolerance, `abs`, `min`, and `round(x, 2)` on exact reals.
- `Outcomes`: the two exceptions the core raises, `ValueError` and `KeyError`, carried in `Result`
  and `Option` values.
- `Dicts`: Python's insertion-ordered `dict[str, float]` as a key sequence with no duplicates over a
  map. Assignment keeps a key's place, or appends a new key. Deletion removes the key.
- `Users`: a `User` class, so that users compare by identity as Python objects do.
- `Debts`: `Debt.simplify`.
  - The method `Simplify` runs the while loop and is proved equal to the recursive specification
    `SimplifiedDebts`.
  - Its loop body `SettleFirst` is proved equal to one round of that specification (`Settle`, `Pay`
    and `Receive`).
  - The properties of the simplifier are lemmas about `SimplifiedDebts`.
- `Splits`: the three split strategies, their constructors' validation and `calculate_shares`.
- `Groups`: `Expense` with its cached shares, and the `Group` class, whose methods update its
  member, expense, settlement and debt lists in place.
  - The loops of `simplify_debts` are methods proved against the specification functions `Balances`
    and `DebtsFor`.
  - The balances are also characterised member by member (`BalancesGet`) and in total
    (`BalancesConserved`).

Some behaviour of `models.py` is easy to expect and is not what the code does:

- One might expect every split's shares to add up to the amount within 0.01. The code checks no such
  thing after rounding. `EqualSharesCanMissByMoreThanACent` proves that 100 split six ways gives
  shares adding up to 100.02. An unequal split with those amounts would be rejected.
- One might expect that paying the simplified debts brings every balance to within a cent of zero.
  The loop stops as soon as either side runs out, and names within a cent of zero never take part.
  So possibly only one side is cleared, even when the balances add up to exactly zero.
  `SimplifiedDebtsSettleOneSide` states what does hold. `ZeroSumCanStayUncleared` shows balances
  {A: -0.015, B: 0.0075, C: 0.0075} that add up to zero, produce no debts, and leave A owing 1.5
  cents.
- The constructors raise `ValueError`. A percentage split whose percentages lack a participant is
  not rejected when it is constructed. It raises `KeyError` later, when its shares are computed,
  that is, when the expense is created.
- Participants are looked up by name, but `add_member` compares `User` objects, which in Python
  means identity. Two distinct users with the same name can therefore both be members. They share
  one balance entry, and `user_map` resolves that name to the later of the two.
- When an expense is saved and loaded again, `app.py:196` rebuilds it as an unequal split of its
  stored shares. By `EqualSharesCanMissByMoreThanACent`, an equal split of 100 among six people
  stores shares adding up to 100.02. Rebuilding that split raises `ValueError`, which the loader
  (`app.py:208`) does not catch. `app.py` is not part of this model.

## Model

| member | source | states |
|---|---|---|
| Debts.Debtors | models.py:32 | keys are exactly the names whose balance is below -0.01, with their balances, in insertion order |
| Debts.Creditors | models.py:33 | keys are exactly the names whose balance is above 0.01, with their balances, in insertion order |
| Debts.Greedy | models.py:36-51 | no ensures of its own: the rounds of the while loop. GreedyLength, GreedyParties, GreedyPaid, GreedyReceived, GreedyExhaustsOneSide and GreedyOrder characterise it |
| Debts.SimplifiedDebts | models.py:31-53 | no ensures of its own: the list `Debt.simplify` returns. SimplifiedDebtsParties, SimplifiedDebtsCount, SimplifiedDebtsBounded, SimplifiedDebtsSettleOneSide and SimplifiedDebtsInOrder characterise it |
| Debts.NoCreditorNoDebts | models.py:33-36 | when nobody is owed more than a cent, the loop never runs and there are no debts |
| Debts.ZeroSumCanStayUncleared | models.py:32-51 | balances {A: -0.015, B: 0.0075, C: 0.0075} add up to zero, give no debts, and leave A more than a cent from zero |
| Debts.Settle | models.py:40 | the amount of a round is at least a cent. It is the whole of what the first debtor owes or the whole of what the first creditor is owed, and exceeds neither |
| Debts.Pay | models.py:47-50 | the first debtor's balance rises by the amount paid, and it is deleted exactly when less than a cent remains. Nobody else changes and the order is kept |
| Debts.Receive | models.py:48-51 | the first creditor's balance falls by the amount received, and it is deleted exactly when less than a cent remains. Nobody else changes |
| Debts.PayOwing | models.py:40-50 | a debtor that pays no more than it owes is left owing at least a cent, or is deleted |
| Debts.ReceiveOwed | models.py:40-51 | a creditor that receives no more than it is owed is left owed at least a cent, or is deleted |
| Debts.SettleStep | models.py:36-51 | every round removes at least one party, so the loop terminates |
| Debts.SettleFirst | models.py:37-51 | the loop body emits the first debtor, the first creditor and the settled amount, and leaves the debtors and creditors as the specification's round does |
| Debts.Simplify | models.py:31-53 | the while loop returns exactly the simplified debts of the balances. Each debt runs from a name below -0.01 to a name above 0.01, for at least a cent |
| Debts.SimplifiedDebtsParties | models.py:32-45 | every debt goes from an original debtor to an original creditor for at least a cent. A name within a cent of zero never appears |
| Debts.SimplifiedDebtsCount | models.py:36-51 | there are no debts iff nobody owes, or nobody is owed, more than a cent. Otherwise there are at most (debtors + creditors - 1) debts |
| Debts.SimplifiedDebtsBounded | models.py:40-48 | a debtor pays in total between 0 and what it owed, and a creditor receives between 0 and what it was owed. Everybody else pays and receives nothing |
| Debts.SimplifiedDebtsSettleOneSide | models.py:36-51 | after the debts are paid, either every debtor or every creditor ends within a cent of zero |
| Debts.SimplifiedDebtsInOrder | models.py:37-38 | the first debt pairs the earliest debtor with the earliest creditor in insertion order. Later debts never go back to an earlier debtor or creditor |
| Splits.Valid | models.py:73-83 | no ensures of its own: what the two constructors check. ConstructorsBuildValid proves a split passes exactly when its constructor returns it |
| Splits.CalculateShares | models.py:61-88 | only a percentage split can fail, with a KeyError for a name without a percentage. EqualShares, PercentSharesMissing, PercentSharesKnown and UnequalShares give each strategy's shares |
| Splits.NewPercentSplit | models.py:71-75 | accepted iff the percentages add up to exactly 100. Otherwise ValueError("Percentages must sum to 100.") |
| Splits.NewUnequalSplit | models.py:81-85 | accepted iff the amounts add up to the total within 0.01. Otherwise the ValueError with the source's message |
| Splits.ConstructorsBuildValid | models.py:71-85 | a percentage or unequal split satisfies its constructor's check iff the constructor returns that very split |
| Splits.KnownPrefix | models.py:78 | the position of the first participant name without a percentage: every earlier name has one, that name has none |
| Splits.PercentShare | models.py:78 | round(amount * pct / 100, 2) lies within half a cent of pct percent of the amount |
| Splits.EqualShares | models.py:65-68 | every participant, and nobody else, gets round(amount / n, 2), which lies within half a cent of amount / n. No participants gives no shares |
| Splits.EqualSharesTotal | models.py:66-68 | with distinct names, the equal shares add up to the amount within half a cent per participant |
| Splits.EqualSharesCanMissByMoreThanACent | models.py:65-68 | 100 split six ways gives shares adding up to 100.02, which an unequal split would reject |
| Splits.PercentSharesMissing | models.py:78 | shares are computed iff every participant has a percentage. Otherwise KeyError names the first participant without one |
| Splits.PercentSharesKnown | models.py:78 | with every percentage present, each participant's share is its rounded percentage of the amount, and nobody else has a share |
| Splits.PercentSharesTotal | models.py:73-78 | when the participants are exactly the keys of percentages adding up to 100, the shares add up to the amount within half a cent per participant |
| Splits.UnequalShares | models.py:83-88 | the shares are the given amounts unchanged. For a constructed split they add up to the amount within 0.01 |
| Groups.NewExpense | models.py:91-97 | the expense exists iff its split's shares can be computed. It stores those shares once, and otherwise passes the split's error on |
| Groups.NewExpenseFails | models.py:97 | creating an expense fails iff a percentage split lacks some participant's percentage, and then with a KeyError for a name without one |
| Groups.Zeroes | models.py:120 | exactly the members' names have a balance |
| Groups.ZeroesGet | models.py:120 | every member's balance starts at zero |
| Groups.Credit | models.py:123-130 | one name's balance moves by the amount, the keys are kept, and the total moves by the amount |
| Groups.Debit | models.py:125-126 | a name with a balance loses its share, a name without one is ignored, and the total falls by the share actually taken |
| Groups.AfterShares | models.py:124-126 | debiting an expense's shares never adds or removes a balance |
| Groups.AfterSharesGet | models.py:124-126 | a member's balance falls by its own share, when it has one |
| Groups.AfterExpense | models.py:122-126 | an expense applies iff its payer has a balance. Otherwise KeyError(payer) |
| Groups.AfterExpenses | models.py:122-126 | the expenses apply iff every payer has a balance. Otherwise the KeyError names the payer of the first expense whose payer has none |
| Groups.AfterSettlement | models.py:128-130 | a settlement applies iff both parties have a balance. Otherwise KeyError names the payer first, then the receiver |
| Groups.AfterSettlements | models.py:128-130 | the settlements apply iff every party has a balance. Otherwise the KeyError is that of the first settlement with a party that has none, the payer checked first |
| Groups.Balances | models.py:120-130 | the balances exist iff every payer and every settlement party is a member. They then have exactly the members' names as keys. Otherwise a KeyError names a non-member |
| Groups.BalancesGet | models.py:120-130 | each member's balance is what it paid for, minus its shares, plus what it paid back, minus what it was paid back |
| Groups.BalancesConserved | models.py:120-130 | the balances add up to the expenses' amounts minus the shares charged to members. Settlements change nothing in the total |
| Groups.BalancesSumToZero | models.py:120-130 | when every expense's shares go to members and add up to its amount, the balances add up to zero |
| Groups.KnownPayers | models.py:122-123 | the position of the first expense whose payer has no balance: every earlier payer has one |
| Groups.KnownParties | models.py:128-130 | the position of the first settlement with a party that has no balance: both parties of every earlier one have one |
| Groups.FirstUnknown | models.py:122-130 | names a non-member exactly when some payer or settlement party is not a member |
| Groups.BalancesFirstKeyError | models.py:122-130 | the KeyError names the payer of the first expense paid by a non-member, or else the first non-member party of the first such settlement, the payer checked first |
| Groups.UserMap | models.py:135 | exactly the members' names are mapped, each to a member of that name |
| Groups.UserMapLast | models.py:135 | a name maps to the last member that carries it |
| Groups.ToDebts | models.py:136-139 | one Debt per simplified debt, in order, with the users the names map to and the same amount |
| Groups.DebtsFor | models.py:119-139 | the debts exist iff the balances do, the KeyError passes through otherwise, and every debt is between members |
| Groups.DebtsForOk | models.py:132-139 | every name in the simplified debts is in user_map, so the rebuilding loop raises nothing |
| Groups.DebtsForParties | models.py:132-139 | the i-th debt comes from the i-th simplified debt: the same names, now as member users, and the same amount. It runs from a member below -0.01 to a member above 0.01, for at least a cent |
| Groups.DebitShare | models.py:125-126 | one step of the shares loop is a Debit |
| Groups.ChargeShares | models.py:124-126 | the shares loop leaves the balances AfterShares specifies |
| Groups.ReplayExpense | models.py:123-126 | the body of the expenses loop is AfterExpense, KeyError included |
| Groups.ReplayExpenses | models.py:122-126 | the expenses loop is AfterExpenses, stopping at the first KeyError |
| Groups.ReplaySettlement | models.py:129-130 | the body of the settlements loop is AfterSettlement, KeyError included |
| Groups.ReplaySettlements | models.py:128-130 | the settlements loop is AfterSettlements, stopping at the first KeyError |
| Groups.ReplayBalances | models.py:120-130 | the balances simplify_debts builds are Balances |
| Groups.ResolveDebts | models.py:134-139 | the rebuilding loop produces ToDebts of the simplified debts |
| Groups.Group.constructor | models.py:100-105 | a new group has the given name and empty members, expenses, settlements and debts |
| Groups.Group.AddMember | models.py:107-109 | a user already a member changes nothing. Otherwise it is appended. Members stay distinct and every debt stays between members |
| Groups.Group.AddExpense | models.py:111-113 | the expense is appended even if recomputing raises. Then the debts are those of the whole history, or on KeyError unchanged with the error reported |
| Groups.Group.SettleUp | models.py:115-117 | the settlement (from, to, amount) is appended even if recomputing raises, then the debts are recomputed as for an expense |
| Groups.Group.SimplifyDebts | models.py:119-139 | the debts become DebtsFor the current history and depend on nothing else, so recomputing twice gives the same debts. On KeyError they are left as they were |
| Groups.Group.GetDebts | models.py:141-142 | returns the current debts, each between members |

## Left out

- The command-line front end and JSON persistence in `app.py` are not part of this model.
- `User.email`, `User.__str__`, `to_dict` and `from_dict`, `Debt.__str__`, and the unused group
  name are kept as data or omitted, because no computation depends on them.
- Floating point: amounts are exact reals. `round(x, 2)` rounds halves up on the exact value,
  whereas Python rounds the binary double to nearest-even. The exact comparison
  `sum(percentages) != 100` is modelled on exact sums.
- Python exceptions are returned as `Result`/`Option` values. `Group` methods return the error they
  would raise, having made the same changes Python makes before raising.
- Aliasing: `UnequalSplit.calculate_shares` and `get_debts` hand out the object itself, so a caller
  that mutates the result mutates the split or the group. The model passes values. The debts list is
  built and then assigned, not cleared and appended in place.
- An `Expense`'s `participants` field is stored but not used in any computation, exactly as in the
  source. The split's own participants decide the shares.
- Splits.EqualSharesTotal: proved only for a non-empty participant list with distinct names. With
  repeated names the dictionary keeps one entry per name.
- Splits.PercentSharesTotal: proved only when the participants are exactly the keys of the
  percentages, with distinct names. Otherwise percentages of non-participants are not charged.
- Groups.BalancesSumToZero: assumes shares that add up to the amount exactly. Rounded equal and
  percentage shares add up only within half a cent per participant (the Splits lemmas above).
- Debts.Simplify: no claim is made that the number of debts is minimal, or that residual balances
  reach zero when debtors and creditors do not balance.
